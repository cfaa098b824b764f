/** The quoting strategy: fills first, then guards, the inventory limit,
    hysteresis and the post-only clamp. The volatility estimate and the quoting
    formula are arbitrary deterministic functions. */
module Strategy {
  import opened Events
  import opened BookSide
  import opened Book
  import opened PaperBook

  /** Everything the volatility estimator was ever told. */
  datatype SigmaInput = Observed(ts: int, midX2: int) | ContinuityReset

  datatype QuoteRecord = QuoteRecord(finalId: nat, bidPx: int, bidQty: int, askPx: int, askQty: int, midX2: int,
                                     inventory: int, sigma: int, quoting: bool, oneSided: bool, pulled: bool)

  /** The floating-point parts: any function of the estimator's inputs, the mid,
      the inventory and the best prices. */
  datatype Model = Model(
    ready: seq<SigmaInput> -> bool,
    spike: seq<SigmaInput> -> bool,
    sigma: (seq<SigmaInput>, int) -> int,
    quote: (seq<SigmaInput>, int, int, int, int) -> (int, int),
    notionalOk: (int, int) -> bool,
    fee: (int, int) -> int)

  datatype Params = Params(hysteresis: int, qMax: int, size: int, liveMode: bool)

  datatype StrategyView = StrategyView(paper: PaperView, sigma: seq<SigmaInput>, workingBid: int, workingAsk: int,
                                       haveWorking: bool, fillCount: nat)

  datatype Output = Output(quote: Option<QuoteRecord>, fills: seq<FillRecord>)

  const NEW: StrategyView := StrategyView(FLAT, [], 0, 0, false, 0)

  function Abs(x: int): nat { if x < 0 then -x else x }

  /** Hold the working price unless the new one moved by at least h ticks. */
  function Held(have: bool, working: int, px: int, h: int): int {
    if have && Abs(px - working) < h then working else px
  }

  /** The post-only clamp, applied after hysteresis. */
  function Clamped(bb: int, ba: int, bid: int, ask: int): (int, int) {
    var b := if ba > 0 && bid >= ba then ba - 1 else bid;
    var a := if bb > 0 && ask <= bb then bb + 1 else ask;
    (if b >= a then a - 1 else b, a)
  }

  function Resynced(s: StrategyView): StrategyView {
    s.(paper := Pulled(s.paper), sigma := s.sigma + [ContinuityReset], haveWorking := false)
  }

  /** Re-decide both quotes on a book with both sides present. */
  function Requoted(p: Params, m: Model, s: StrategyView, fid: nat, midX2: int, bb: int, ba: int):
    (StrategyView, QuoteRecord)
  {
    var inv := s.paper.inventory;
    if !m.ready(s.sigma) || m.spike(s.sigma) then
      (s.(paper := Pulled(s.paper), haveWorking := false),
       QuoteRecord(fid, 0, 0, 0, 0, midX2, inv, m.sigma(s.sigma, midX2), false, false, true))
    else
      var (rawBid, rawAsk) := m.quote(s.sigma, midX2, inv, bb, ba);
      var (bid, ask) := Clamped(bb, ba, Held(s.haveWorking, s.workingBid, rawBid, p.hysteresis),
                                Held(s.haveWorking, s.workingAsk, rawAsk, p.hysteresis));
      var pb := PaperQuote(bid, p.size, inv < p.qMax && m.notionalOk(bid, p.size));
      var pa := PaperQuote(ask, p.size, inv > -p.qMax && m.notionalOk(ask, p.size));
      (s.(paper := s.paper.(bid := pb, ask := pa), workingBid := bid, workingAsk := ask, haveWorking := true),
       QuoteRecord(fid, if pb.active then bid else 0, if pb.active then p.size else 0,
                   if pa.active then ask else 0, if pa.active then p.size else 0, midX2, inv,
                   m.sigma(s.sigma, midX2), pb.active || pa.active, inv >= p.qMax || inv <= -p.qMax, false))
  }

  function Ticked(p: Params, m: Model, s: StrategyView, book: BookView, ev: MarketEvent): (StrategyView, Output) {
    if book.bids == [] || book.asks == [] then
      (s.(paper := Pulled(s.paper), haveWorking := false), Output(None, []))
    else
      var midX2 := MidOf(book).value;
      var bb, ba := BestOf(book.bids).value.px, BestOf(book.asks).value.px;
      var s1 := s.(sigma := s.sigma + [Observed(ev.tsExchange, midX2)]);
      var (paper, fills) := if p.liveMode then (s.paper, []) else Filled(s.paper, book, ev.finalId, m.fee);
      var (s2, q) := Requoted(p, m, s1.(paper := paper, fillCount := s.fillCount + |fills|), ev.finalId, midX2, bb, ba);
      (s2, Output(Some(q), fills))
  }

  function Executed(s: StrategyView, e: ExecFill): StrategyView {
    s.(paper := RealFilled(s.paper, e), fillCount := if e.qty > 0 then s.fillCount + 1 else s.fillCount)
  }

  class Strategy {
    const params: Params
    const model: Model
    const paper: Paper
    var sigma: seq<SigmaInput>
    var workingBid: int
    var workingAsk: int
    var haveWorking: bool
    var fillCount: nat

    ghost function View(): StrategyView
      reads this, paper
    {
      StrategyView(paper.View(), sigma, workingBid, workingAsk, haveWorking, fillCount)
    }

    ghost predicate Valid() {
      paper.fee == model.fee
    }

    constructor (params: Params, model: Model)
      ensures Valid() && View() == NEW && this.params == params && this.model == model && fresh(paper)
    {
      this.params, this.model := params, model;
      paper := new Paper(model.fee);
      sigma, workingBid, workingAsk, haveWorking, fillCount := [], 0, 0, false, 0;
    }

    method OnResync()
      modifies this, paper
      ensures View() == Resynced(old(View()))
    {
      paper.PullQuotes();
      sigma := sigma + [ContinuityReset];
      haveWorking := false;
    }

    method OnExec(e: ExecFill)
      modifies this, paper
      ensures View() == Executed(old(View()), e)
    {
      paper.ApplyRealFill(e);
      if e.qty > 0 { fillCount := fillCount + 1; }
    }

    /** Hysteresis, then the post-only clamp. */
    method Settle(rawBid: int, rawAsk: int, bb: int, ba: int) returns (bidPx: int, askPx: int)
      ensures (bidPx, askPx) == Clamped(bb, ba, Held(haveWorking, workingBid, rawBid, params.hysteresis),
                                        Held(haveWorking, workingAsk, rawAsk, params.hysteresis))
    {
      bidPx, askPx := rawBid, rawAsk;
      if haveWorking {
        if Abs(bidPx - workingBid) < params.hysteresis { bidPx := workingBid; }
        if Abs(askPx - workingAsk) < params.hysteresis { askPx := workingAsk; }
      }
      if ba > 0 && bidPx >= ba { bidPx := ba - 1; }
      if bb > 0 && askPx <= bb { askPx := bb + 1; }
      if bidPx >= askPx { bidPx := askPx - 1; }
    }

    /** The part of a tick after the fill pass. */
    method Requote(fid: nat, midX2: int, bb: int, ba: int) returns (q: QuoteRecord)
      modifies this, paper
      ensures (View(), q) == Requoted(params, model, old(View()), fid, midX2, bb, ba)
    {
      if !model.ready(sigma) || model.spike(sigma) {
        paper.PullQuotes();
        haveWorking := false;
        return QuoteRecord(fid, 0, 0, 0, 0, midX2, paper.inventory, model.sigma(sigma, midX2), false, false, true);
      }
      var inv := paper.inventory;
      var (bidPx, askPx) := model.quote(sigma, midX2, inv, bb, ba);
      var quoteBid, quoteAsk, oneSided := true, true, false;
      if inv >= params.qMax { quoteBid, oneSided := false, true; }
      if inv <= -params.qMax { quoteAsk, oneSided := false, true; }
      bidPx, askPx := Settle(bidPx, askPx, bb, ba);
      workingBid, workingAsk, haveWorking := bidPx, askPx, true;
      var size := params.size;
      var pb := PaperQuote(bidPx, size, quoteBid && model.notionalOk(bidPx, size));
      var pa := PaperQuote(askPx, size, quoteAsk && model.notionalOk(askPx, size));
      paper.SetQuotes(pb, pa);
      q := QuoteRecord(fid, if pb.active then bidPx else 0, if pb.active then size else 0,
                       if pa.active then askPx else 0, if pa.active then size else 0, midX2, paper.inventory,
                       model.sigma(sigma, midX2), pb.active || pa.active, oneSided, false);
    }

    /** Paper fills against the opposite best level, unless fills are real. */
    method FillPaper(book: L2Book, fid: nat) returns (fills: seq<FillRecord>)
      requires Valid() && book.Valid()
      modifies this`fillCount, paper
      ensures book.Valid() && fillCount == old(fillCount) + |fills|
      ensures (paper.View(), fills) ==
        if params.liveMode then (old(paper.View()), []) else Filled(old(paper.View()), book.View(), fid, model.fee)
    {
      fills := [];
      if !params.liveMode {
        fills := paper.SimulateFills(book, fid);
        fillCount := fillCount + |fills|;
      }
    }

    method OnEvent(book: L2Book, ev: MarketEvent) returns (out: Output)
      requires Valid() && book.Valid()
      modifies this, paper
      ensures book.Valid()
      ensures (View(), out) == Ticked(params, model, old(View()), old(book.View()), ev)
    {
      var midX2 := book.MidX2();
      var bb := book.BestBid();
      var ba := book.BestAsk();
      if midX2.None? {
        paper.PullQuotes();
        haveWorking := false;
        return Output(None, []);
      }
      sigma := sigma + [Observed(ev.tsExchange, midX2.value)];
      var fills := FillPaper(book, ev.finalId);
      var q := Requote(ev.finalId, midX2.value, bb.value.px, ba.value.px);
      out := Output(Some(q), fills);
    }
  }
}
