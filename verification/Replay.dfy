/** Deterministic replay of recorded events: the decision stream and the strategy. */
module Replay {
  import opened Events
  import opened BookSide
  import opened Book
  import opened Feed
  import opened Verifier
  import opened PaperBook
  import opened Strategy
  import opened StrategyRuns

  datatype DecisionRecord = DecisionRecord(finalId: nat, bidPx: int, bidQty: int, askPx: int, askQty: int, midX2: int,
                                           numBids: nat, numAsks: nat, live: bool, hadGap: bool)

  function PxOf(l: Option<Level>): int { if l.Some? then l.value.px else 0 }

  function QtyOf(l: Option<Level>): int { if l.Some? then l.value.qty else 0 }

  function DecisionOf(b: BookView, finalId: nat, live: bool, hadGap: bool): DecisionRecord {
    var mid := MidOf(b);
    DecisionRecord(finalId, PxOf(BestOf(b.bids)), QtyOf(BestOf(b.bids)), PxOf(BestOf(b.asks)), QtyOf(BestOf(b.asks)),
                   if mid.Some? then mid.value else 0, |b.bids|, |b.asks|, live, hadGap)
  }

  method MakeDecision(book: L2Book, finalId: nat, live: bool, hadGap: bool) returns (d: DecisionRecord)
    requires book.Valid()
    ensures d == DecisionOf(book.View(), finalId, live, hadGap)
  {
    var bb := book.BestBid();
    var ba := book.BestAsk();
    var mid := book.MidX2();
    d := DecisionRecord(finalId, PxOf(bb), QtyOf(bb), PxOf(ba), QtyOf(ba), if mid.Some? then mid.value else 0,
                        book.numBids, book.numAsks, live, hadGap);
  }

  /** The decision for the last event of evs, from the whole history evs. */
  function DecisionAfter(evs: seq<MarketEvent>): DecisionRecord
    requires evs != []
  {
    var last := evs[|evs| - 1];
    DecisionOf(FeedAfter(evs).book, last.finalId, FeedAfter(evs).live,
               !Checked(VerifierAfter(evs[..|evs| - 1]), last).1)
  }

  /** One decision per event, each a function of the events up to it. */
  function Decisions(evs: seq<MarketEvent>): seq<DecisionRecord> {
    if evs == [] then [] else Decisions(evs[..|evs| - 1]) + [DecisionAfter(evs)]
  }

  method ReplayEvents(events: seq<MarketEvent>) returns (out: seq<DecisionRecord>)
    ensures out == Decisions(events)
  {
    var book := new L2Book();
    var verifier := new GapVerifier();
    var live := false;
    out := [];
    for i := 0 to |events|
      invariant book.Valid() && fresh(book) && fresh(book.bids) && fresh(book.asks) && fresh(verifier)
      invariant FeedView(book.View(), live) == FeedAfter(events[..i])
      invariant verifier.View() == VerifierAfter(events[..i])
      invariant out == Decisions(events[..i])
    {
      var ev := events[i];
      assert events[..i + 1][..i] == events[..i];
      var ok := verifier.Check(ev);
      live := FeedBook(book, live, ev);
      var d := MakeDecision(book, ev.finalId, live, !ok);
      out := out + [d];
    }
    assert events[..|events|] == events;
  }

  // ------------------------------------------------------------------ strategy

  /** What the strategy is fed for one event, given the feed after it. */
  function InputsFor(ev: MarketEvent, f: FeedView): seq<Input> {
    (if ev.start then [Resync] else []) +
    (if f.live && !ev.cont then [Tick(f.book, ev)] else [])
  }

  function InputsOf(evs: seq<MarketEvent>): seq<Input> {
    if evs == [] then [] else InputsOf(evs[..|evs| - 1]) + InputsFor(evs[|evs| - 1], FeedAfter(evs))
  }

  function QuotesOf(p: Params, m: Model, inputs: seq<Input>): seq<QuoteRecord> {
    if inputs == [] then []
    else
      var n := |inputs| - 1;
      var q := OutputAt(p, m, inputs, n).quote;
      QuotesOf(p, m, inputs[..n]) + if q.Some? then [q.value] else []
  }

  function FillsOf(p: Params, m: Model, inputs: seq<Input>): seq<FillRecord> {
    if inputs == [] then []
    else FillsOf(p, m, inputs[..|inputs| - 1]) + OutputAt(p, m, inputs, |inputs| - 1).fills
  }

  lemma RunSnoc(p: Params, m: Model, inputs: seq<Input>, i: Input)
    ensures var (s, o) := Fed(p, m, After(p, m, inputs), i);
      && After(p, m, inputs + [i]) == s
      && QuotesOf(p, m, inputs + [i]) == QuotesOf(p, m, inputs) + (if o.quote.Some? then [o.quote.value] else [])
      && FillsOf(p, m, inputs + [i]) == FillsOf(p, m, inputs) + o.fills
  {
    assert (inputs + [i])[..|inputs|] == inputs;
  }

  lemma ResyncSnoc(p: Params, m: Model, inputs: seq<Input>)
    ensures After(p, m, inputs + [Resync]) == Resynced(After(p, m, inputs))
    ensures QuotesOf(p, m, inputs + [Resync]) == QuotesOf(p, m, inputs)
    ensures FillsOf(p, m, inputs + [Resync]) == FillsOf(p, m, inputs)
  {
    RunSnoc(p, m, inputs, Resync);
  }

  /** Strategy state, quotes and fills after a run of inputs. */
  datatype Tape = Tape(state: StrategyView, quotes: seq<QuoteRecord>, fills: seq<FillRecord>)

  function TapeOf(p: Params, m: Model, inputs: seq<Input>): Tape {
    Tape(After(p, m, inputs), QuotesOf(p, m, inputs), FillsOf(p, m, inputs))
  }

  /** What one event does to the strategy: resync on a snapshot start, then a tick
      when the book is live and the message is complete. */
  function StrategyFed(p: Params, m: Model, s: StrategyView, ev: MarketEvent, f: FeedView): (StrategyView, Output) {
    var s1 := if ev.start then Resynced(s) else s;
    if f.live && !ev.cont then Ticked(p, m, s1, f.book, ev) else (s1, Output(None, []))
  }

  function TapeFed(p: Params, m: Model, t: Tape, ev: MarketEvent, f: FeedView): Tape {
    var (s, o) := StrategyFed(p, m, t.state, ev, f);
    Tape(s, t.quotes + (if o.quote.Some? then [o.quote.value] else []), t.fills + o.fills)
  }

  method FeedStrategy(strat: Strategy, book: L2Book, live: bool, ev: MarketEvent) returns (o: Output)
    requires strat.Valid() && book.Valid()
    modifies strat, strat.paper
    ensures book.Valid()
    ensures (strat.View(), o)
         == StrategyFed(strat.params, strat.model, old(strat.View()), ev, FeedView(old(book.View()), live))
  {
    o := Output(None, []);
    if ev.start { strat.OnResync(); }
    if live && !ev.cont { o := strat.OnEvent(book, ev); }
  }

  /** What one input does to the tape. */
  lemma TapeTick(p: Params, m: Model, inputs: seq<Input>, book: BookView, ev: MarketEvent)
    ensures var t, (s, o) := TapeOf(p, m, inputs), Ticked(p, m, After(p, m, inputs), book, ev);
      TapeOf(p, m, inputs + [Tick(book, ev)])
        == Tape(s, t.quotes + (if o.quote.Some? then [o.quote.value] else []), t.fills + o.fills)
  {
    RunSnoc(p, m, inputs, Tick(book, ev));
  }

  lemma TapeResync(p: Params, m: Model, inputs: seq<Input>)
    ensures TapeOf(p, m, inputs + [Resync]) == TapeOf(p, m, inputs).(state := Resynced(After(p, m, inputs)))
  {
    ResyncSnoc(p, m, inputs);
  }

  /** The resync an event brings, if any. */
  function AfterStart(inputs: seq<Input>, ev: MarketEvent): seq<Input> {
    if ev.start then inputs + [Resync] else inputs
  }

  lemma TapeStart(p: Params, m: Model, inputs: seq<Input>, ev: MarketEvent)
    ensures var t := TapeOf(p, m, inputs);
      TapeOf(p, m, AfterStart(inputs, ev)) == t.(state := if ev.start then Resynced(t.state) else t.state)
  {
    if ev.start { TapeResync(p, m, inputs); }
  }

  lemma InputsForSplit(inputs: seq<Input>, ev: MarketEvent, f: FeedView)
    ensures inputs + InputsFor(ev, f)
         == AfterStart(inputs, ev) + if f.live && !ev.cont then [Tick(f.book, ev)] else []
  {
  }

  lemma TapeStep(p: Params, m: Model, inputs: seq<Input>, ev: MarketEvent, f: FeedView)
    ensures TapeOf(p, m, inputs + InputsFor(ev, f)) == TapeFed(p, m, TapeOf(p, m, inputs), ev, f)
  {
    var i1 := AfterStart(inputs, ev);
    InputsForSplit(inputs, ev, f);
    TapeStart(p, m, inputs, ev);
    if f.live && !ev.cont {
      TapeTick(p, m, i1, f.book, ev);
    } else {
      NoInput(i1);
      NoOutput(TapeOf(p, m, i1));
    }
  }

  lemma NoInput(inputs: seq<Input>)
    ensures inputs + [] == inputs
  {
  }

  lemma NoOutput(t: Tape)
    ensures t == Tape(t.state, t.quotes + [], t.fills + [])
  {
  }

  lemma TapeSnoc(p: Params, m: Model, evs: seq<MarketEvent>, ev: MarketEvent)
    ensures TapeOf(p, m, InputsOf(evs + [ev]))
         == TapeFed(p, m, TapeOf(p, m, InputsOf(evs)), ev, FeedAfter(evs + [ev]))
  {
    assert (evs + [ev])[..|evs|] == evs;
    TapeStep(p, m, InputsOf(evs), ev, FeedAfter(evs + [ev]));
  }

  /** The summary of a strategy replay. */
  datatype Summary = Summary(events: nat, quotes: nat, fills: nat, oneSidedTicks: nat, pulledTicks: nat,
                             crossViolations: nat, maxAbsInventory: nat, finalInventory: int, finalCash: int,
                             meanInventory: real)

  datatype StrategyReplay = StrategyReplay(quotes: seq<QuoteRecord>, fills: seq<FillRecord>, summary: Summary)

  /** What the loop counts over the quotes. */
  datatype QuoteTally = QuoteTally(oneSided: nat, pulled: nat, crossed: nat, inventorySum: int)

  const NO_QUOTES: QuoteTally := QuoteTally(0, 0, 0, 0)

  function Noted(t: QuoteTally, q: QuoteRecord): QuoteTally {
    QuoteTally(if q.oneSided then t.oneSided + 1 else t.oneSided, if q.pulled then t.pulled + 1 else t.pulled,
          if Crosses(q) then t.crossed + 1 else t.crossed, t.inventorySum + q.inventory)
  }

  function TallyOf(qs: seq<QuoteRecord>): QuoteTally {
    if qs == [] then NO_QUOTES else Noted(TallyOf(qs[..|qs| - 1]), qs[|qs| - 1])
  }

  lemma TallySnoc(qs: seq<QuoteRecord>, q: QuoteRecord)
    ensures TallyOf(qs + [q]) == Noted(TallyOf(qs), q)
  {
    assert (qs + [q])[..|qs|] == qs;
  }

  ghost function OneSidedSet(qs: seq<QuoteRecord>): set<int> {
    set i | 0 <= i < |qs| && qs[i].oneSided
  }

  ghost function PulledSet(qs: seq<QuoteRecord>): set<int> {
    set i | 0 <= i < |qs| && qs[i].pulled
  }

  /** The counters count the one-sided and the pulled quotes. */
  lemma {:induction false} TallyCounts(qs: seq<QuoteRecord>)
    ensures TallyOf(qs).oneSided == |OneSidedSet(qs)| && TallyOf(qs).pulled == |PulledSet(qs)|
    decreases |qs|
  {
    if qs != [] {
      var n := |qs| - 1;
      TallyCounts(qs[..n]);
      OneSidedGrows(qs);
      PulledGrows(qs);
    }
  }

  lemma OneSidedGrows(qs: seq<QuoteRecord>)
    requires qs != []
    ensures |OneSidedSet(qs)| == |OneSidedSet(qs[..|qs| - 1])| + if qs[|qs| - 1].oneSided then 1 else 0
  {
    var n := |qs| - 1;
    assert OneSidedSet(qs) == OneSidedSet(qs[..n]) + if qs[n].oneSided then {n} else {};
  }

  lemma PulledGrows(qs: seq<QuoteRecord>)
    requires qs != []
    ensures |PulledSet(qs)| == |PulledSet(qs[..|qs| - 1])| + if qs[|qs| - 1].pulled then 1 else 0
  {
    var n := |qs| - 1;
    assert PulledSet(qs) == PulledSet(qs[..n]) + if qs[n].pulled then {n} else {};
  }

  predicate Crosses(q: QuoteRecord) {
    q.bidPx > 0 && q.askPx > 0 && q.bidPx >= q.askPx
  }

  lemma StepNeverCrosses(p: Params, m: Model, s: StrategyView, ev: MarketEvent, f: FeedView)
    ensures var q := StrategyFed(p, m, s, ev, f).1.quote; q.Some? ==> !Crosses(q.value)
  {
  }

  function InventoryAt(p: Params, m: Model, evs: seq<MarketEvent>): int {
    After(p, m, InputsOf(evs)).paper.inventory
  }

  /** The largest absolute inventory after any prefix of the events. */
  function Peak(p: Params, m: Model, evs: seq<MarketEvent>): nat {
    if evs == [] then 0
    else
      var before, now := Peak(p, m, evs[..|evs| - 1]), Abs(InventoryAt(p, m, evs));
      if now > before then now else before
  }

  /** Only a tick can move the peak. */
  lemma PeakSnoc(p: Params, m: Model, evs: seq<MarketEvent>, ev: MarketEvent)
    ensures var q, f := Abs(InventoryAt(p, m, evs + [ev])), FeedAfter(evs + [ev]);
      Peak(p, m, evs + [ev]) == if f.live && !ev.cont && q > Peak(p, m, evs) then q else Peak(p, m, evs)
  {
    assert (evs + [ev])[..|evs|] == evs;
    TapeSnoc(p, m, evs, ev);
  }

  lemma {:induction false} PeakBounded(p: Params, m: Model, evs: seq<MarketEvent>)
    requires !p.liveMode && p.qMax >= 1 && p.size >= 0
    ensures Peak(p, m, evs) <= Limit(p)
    decreases |evs|
  {
    if evs != [] {
      PeakBounded(p, m, evs[..|evs| - 1]);
      StreamBounded(p, m, evs);
    }
  }

  /** One turn of the strategy replay, after the history evs. */
  method ReplayOne(book: L2Book, strat: Strategy, live: bool, ev: MarketEvent, ghost evs: seq<MarketEvent>)
    returns (live': bool, o: Output)
    requires book.Valid() && strat.Valid()
    requires {book, book.bids, book.asks} !! {strat, strat.paper}
    requires FeedView(book.View(), live) == FeedAfter(evs)
    requires strat.View() == After(strat.params, strat.model, InputsOf(evs))
    modifies book, book.bids, book.asks, strat, strat.paper
    ensures book.Valid()
    ensures FeedView(book.View(), live') == FeedAfter(evs + [ev])
    ensures strat.View() == After(strat.params, strat.model, InputsOf(evs + [ev]))
    ensures QuotesOf(strat.params, strat.model, InputsOf(evs + [ev]))
         == QuotesOf(strat.params, strat.model, InputsOf(evs)) + (if o.quote.Some? then [o.quote.value] else [])
    ensures FillsOf(strat.params, strat.model, InputsOf(evs + [ev]))
         == FillsOf(strat.params, strat.model, InputsOf(evs)) + o.fills
    ensures o.quote.Some? ==> !Crosses(o.quote.value)
  {
    FeedSnoc(evs, ev);
    TapeSnoc(strat.params, strat.model, evs, ev);
    live' := FeedBook(book, live, ev);
    StepNeverCrosses(strat.params, strat.model, strat.View(), ev, FeedView(book.View(), live'));
    o := FeedStrategy(strat, book, live', ev);
  }

  function MeanOf(t: QuoteTally, n: nat): real {
    if n == 0 then 0.0 else t.inventorySum as real / n as real
  }

  /** Run the strategy over recorded events. The crossed-quote counter stays at
      zero, and in paper mode the largest inventory respects the bound. */
  method ReplayStrategy(events: seq<MarketEvent>, p: Params, m: Model) returns (r: StrategyReplay)
    requires !p.liveMode
    ensures r.quotes == QuotesOf(p, m, InputsOf(events)) && r.fills == FillsOf(p, m, InputsOf(events))
    ensures var y := r.summary;
      && y.events == |events| && y.quotes == |r.quotes| && y.fills == |r.fills|
      && y.oneSidedTicks == |OneSidedSet(r.quotes)| && y.pulledTicks == |PulledSet(r.quotes)|
      && y.crossViolations == 0 && y.meanInventory == MeanOf(TallyOf(r.quotes), |r.quotes|)
      && y.finalInventory == After(p, m, InputsOf(events)).paper.inventory
      && y.finalCash == After(p, m, InputsOf(events)).paper.cash
      && y.maxAbsInventory == Peak(p, m, events)
      && (p.qMax >= 1 && p.size >= 0 ==> y.maxAbsInventory <= Limit(p))
  {
    var book := new L2Book();
    var strat := new Strategy(p, m);
    var live, quotes, fills, maxAbs: nat, tally := false, [], [], 0, NO_QUOTES;
    for i := 0 to |events|
      invariant book.Valid() && fresh({book, book.bids, book.asks})
      invariant strat.Valid() && fresh({strat, strat.paper}) && strat.params == p && strat.model == m
      invariant {book, book.bids, book.asks} !! {strat, strat.paper}
      invariant FeedView(book.View(), live) == FeedAfter(events[..i])
      invariant Tape(strat.View(), quotes, fills) == TapeOf(p, m, InputsOf(events[..i]))
      invariant tally == TallyOf(quotes) && tally.crossed == 0
      invariant maxAbs == Peak(p, m, events[..i])
    {
      var ev := events[i];
      assert events[..i + 1] == events[..i] + [ev];
      var o;
      live, o := ReplayOne(book, strat, live, ev, events[..i]);
      if o.quote.Some? {
        TallySnoc(quotes, o.quote.value);
        quotes := quotes + [o.quote.value];
        tally := Noted(tally, o.quote.value);
      }
      fills := fills + o.fills;
      PeakSnoc(p, m, events[..i], ev);
      var q := Abs(strat.paper.inventory);
      if live && !ev.cont && q > maxAbs { maxAbs := q; }
    }
    if p.qMax >= 1 && p.size >= 0 { PeakBounded(p, m, events); }
    assert events[..|events|] == events;
    TallyCounts(quotes);
    r := StrategyReplay(quotes, fills,
                        Summary(|events|, |quotes|, |fills|, tally.oneSided, tally.pulled, tally.crossed, maxAbs,
                                strat.paper.inventory, strat.paper.cash, MeanOf(tally, |quotes|)));
  }

  lemma {:induction false} InputsArePaper(evs: seq<MarketEvent>)
    ensures forall i :: i in InputsOf(evs) ==> !i.Exec?
    decreases |evs|
  {
    if evs != [] { InputsArePaper(evs[..|evs| - 1]); }
  }

  lemma StreamBounded(p: Params, m: Model, evs: seq<MarketEvent>)
    requires !p.liveMode
    ensures p.qMax >= 1 && p.size >= 0 ==> Bounded(p, After(p, m, InputsOf(evs)).paper)
  {
    InputsArePaper(evs);
    if p.qMax >= 1 && p.size >= 0 { InventoryBounded(p, m, InputsOf(evs)); }
  }

  /** All prices of the recorded events are positive. */
  ghost predicate PositivePrices(evs: seq<MarketEvent>) {
    forall i, l :: 0 <= i < |evs| && (l in evs[i].bids || l in evs[i].asks) ==> l.px > 0
  }

  lemma {:induction false} FeedPositive(evs: seq<MarketEvent>)
    requires PositivePrices(evs)
    ensures forall l :: l in FeedAfter(evs).book.bids || l in FeedAfter(evs).book.asks ==> l.px > 0
    decreases |evs|
  {
    if evs != [] {
      var pre, ev := evs[..|evs| - 1], evs[|evs| - 1];
      FeedPositive(pre);
      FeedWf(pre);
      var b := if ev.start then EMPTY else FeedAfter(pre).book;
      AppliedAllOrigin(Bid, b.bids, ev.bids);
      AppliedAllOrigin(Ask, b.asks, ev.asks);
    }
  }

  lemma {:induction false} InputsPositive(evs: seq<MarketEvent>)
    requires PositivePrices(evs)
    ensures forall i :: i in InputsOf(evs) && i.Tick? ==> PositiveTop(i.book)
    decreases |evs|
  {
    if evs != [] {
      InputsPositive(evs[..|evs| - 1]);
      FeedPositive(evs);
    }
  }

  /** On a recorded stream with positive prices, every paper fill comes from the
      quote of the strategy's previous tick, with no resync in between, and that
      quote did not touch the opposite best when it was placed. */
  lemma StreamFillsAreReal(p: Params, m: Model, evs: seq<MarketEvent>, i: nat, f: FillRecord)
    requires !p.liveMode && PositivePrices(evs)
    requires i < |InputsOf(evs)| && f in OutputAt(p, m, InputsOf(evs), i).fills
    ensures i > 0 && InputsOf(evs)[i - 1].Tick?
    ensures var b := InputsOf(evs)[i - 1].book;
      && b.bids != [] && b.asks != []
      && if f.side.Bid? then BestOf(b.asks).value.px > f.px else BestOf(b.bids).value.px < f.px
  {
    InputsArePaper(evs);
    InputsPositive(evs);
    FillsAreReal(p, m, InputsOf(evs), i, f);
  }
}
