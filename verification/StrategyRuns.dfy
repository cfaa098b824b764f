/** What the strategy keeps over whole runs: the inventory bound, the origin of
    every paper fill, and the conservation of inventory and cash. */
module StrategyRuns {
  import opened Events
  import opened BookSide
  import opened Book
  import opened PaperBook
  import opened Strategy

  datatype Input = Tick(book: BookView, ev: MarketEvent) | Resync | Exec(fill: ExecFill)

  function Fed(p: Params, m: Model, s: StrategyView, i: Input): (StrategyView, Output) {
    match i
    case Tick(book, ev) => Ticked(p, m, s, book, ev)
    case Resync => (Resynced(s), Output(None, []))
    case Exec(e) => (Executed(s, e), Output(None, []))
  }

  function After(p: Params, m: Model, inputs: seq<Input>): StrategyView {
    if inputs == [] then NEW else Fed(p, m, After(p, m, inputs[..|inputs| - 1]), inputs[|inputs| - 1]).0
  }

  /** What the strategy answered to the i-th input. */
  function OutputAt(p: Params, m: Model, inputs: seq<Input>, i: nat): Output
    requires i < |inputs|
  {
    Fed(p, m, After(p, m, inputs[..i]), inputs[i]).1
  }

  /** Paper mode: fills are simulated, no execution reports arrive. */
  ghost predicate PaperRun(p: Params, inputs: seq<Input>) {
    !p.liveMode && forall i :: i in inputs ==> !i.Exec?
  }

  // ------------------------------------------------------------ inventory bound

  function Limit(p: Params): int { p.qMax - 1 + p.size }

  /** Within the bound, and every resting quote was allowed by the soft limit. */
  ghost predicate Bounded(p: Params, w: PaperView) {
    && -Limit(p) <= w.inventory <= Limit(p)
    && (w.bid.active ==> w.inventory < p.qMax && w.bid.qty <= p.size)
    && (w.ask.active ==> w.inventory > -p.qMax && w.ask.qty <= p.size)
  }

  lemma FillsStayWithin(p: Params, w: PaperView, book: BookView, fid: nat, fee: (int, int) -> int)
    requires p.qMax >= 1 && p.size >= 0 && Bounded(p, w)
    ensures var (w', fills) := Filled(w, book, fid, fee);
      && -Limit(p) <= w'.inventory <= Limit(p)
      && forall f :: f in fills ==> -Limit(p) <= f.inventoryAfter <= Limit(p)
  {
  }

  lemma TickStaysBounded(p: Params, m: Model, s: StrategyView, book: BookView, ev: MarketEvent)
    requires !p.liveMode && p.qMax >= 1 && p.size >= 0 && Bounded(p, s.paper)
    ensures var (s', out) := Ticked(p, m, s, book, ev);
      && Bounded(p, s'.paper)
      && forall f :: f in out.fills ==> -Limit(p) <= f.inventoryAfter <= Limit(p)
  {
    FillsStayWithin(p, s.paper, book, ev.finalId, m.fee);
  }

  /** Over every paper-mode run the inventory stays within q_max - 1 + size after
      every event. */
  lemma {:induction false} InventoryBounded(p: Params, m: Model, inputs: seq<Input>)
    requires PaperRun(p, inputs) && p.qMax >= 1 && p.size >= 0
    ensures Bounded(p, After(p, m, inputs).paper)
    decreases |inputs|
  {
    if inputs != [] {
      var pre, last := inputs[..|inputs| - 1], inputs[|inputs| - 1];
      assert last in inputs;
      InventoryBounded(p, m, pre);
      if last.Tick? { TickStaysBounded(p, m, After(p, m, pre), last.book, last.ev); }
    }
  }

  /** So does the inventory reported in the middle of a fill pass. */
  lemma FillRecordsBounded(p: Params, m: Model, inputs: seq<Input>, i: nat, f: FillRecord)
    requires PaperRun(p, inputs) && p.qMax >= 1 && p.size >= 0
    requires i < |inputs| && f in OutputAt(p, m, inputs, i).fills
    ensures -Limit(p) <= f.inventoryAfter <= Limit(p)
  {
    InventoryBounded(p, m, inputs[..i]);
    TickStaysBounded(p, m, After(p, m, inputs[..i]), inputs[i].book, inputs[i].ev);
  }

  const PLAIN_EVENT: MarketEvent := MarketEvent(0, 0, 1, 1, DepthDiff, [], [], false, false)

  const FLAT_MODEL: Model :=
    Model(_ => true, _ => false, (_, _) => 0, (_, _, _, _, _) => (10, 30), (_, _) => true, (_, _) => 0)

  const CALM_BOOK: BookView := BookView([Level(5, 1)], [Level(20, 1)], 0, 0)

  /** An ask of quantity q at the price of the bid quote. */
  function CrossedBook(q: nat): BookView {
    BookView([Level(5, 1)], [Level(10, q)], 0, 0)
  }

  /** Forget the working quotes, quote on a calm book, and be hit for up to q lots. */
  function Round(q: nat): seq<Input> {
    [Resync, Tick(CALM_BOOK, PLAIN_EVENT), Tick(CrossedBook(q), PLAIN_EVENT)]
  }

  lemma CalmQuotes(p: Params, s: StrategyView)
    requires !p.liveMode && -p.qMax < s.paper.inventory < p.qMax
    ensures var w := Ticked(p, FLAT_MODEL, Resynced(s), CALM_BOOK, PLAIN_EVENT).0.paper;
      w.bid == PaperQuote(10, p.size, true) && w.ask.px == 30 && w.inventory == s.paper.inventory
  {
    PulledNeverFills(Resynced(s).paper, CALM_BOOK, 1, FLAT_MODEL.fee);
  }

  lemma PulledNeverFills(w: PaperView, book: BookView, fid: nat, fee: (int, int) -> int)
    requires !w.bid.active && !w.ask.active
    ensures Filled(w, book, fid, fee) == (w, [])
  {
    var none: seq<FillRecord> := [];
    assert BidFilled(w, book, fid, fee) == (w, none) && AskFilled(w, book, fid, fee) == (w, none);
    assert none + none == none;
  }

  lemma CrossedBidFills(p: Params, s: StrategyView, q: nat)
    requires !p.liveMode && s.paper.bid == PaperQuote(10, p.size, true) && p.size > 0 && q > 0 && s.paper.ask.px > 5
    ensures Ticked(p, FLAT_MODEL, s, CrossedBook(q), PLAIN_EVENT).0.paper.inventory
         == s.paper.inventory + if q < p.size then q else p.size
  {
    var (w, fs) := Filled(s.paper, CrossedBook(q), 1, FLAT_MODEL.fee);
    assert BidFill(s.paper, CrossedBook(q)) == if q < p.size then q else p.size;
    assert w.inventory == s.paper.inventory + if q < p.size then q else p.size;
  }

  lemma RoundBuys(p: Params, inputs: seq<Input>, q: nat)
    requires !p.liveMode && p.size > 0 && q > 0 && -p.qMax < After(p, FLAT_MODEL, inputs).paper.inventory < p.qMax
    ensures After(p, FLAT_MODEL, inputs + Round(q)).paper.inventory
         == After(p, FLAT_MODEL, inputs).paper.inventory + if q < p.size then q else p.size
  {
    var i1, i2, i3 := inputs + [Resync], inputs + Round(q)[..2], inputs + Round(q);
    assert i1[..|inputs|] == inputs && i2[..|i1|] == i1 && i3[..|i2|] == i2;
    var s := After(p, FLAT_MODEL, inputs);
    assert After(p, FLAT_MODEL, i1) == Resynced(s);
    CalmQuotes(p, s);
    CrossedBidFills(p, After(p, FLAT_MODEL, i2), q);
  }

  /** Bought one lot at a time. */
  function Nibbles(n: nat): seq<Input> {
    if n == 0 then [] else Nibbles(n - 1) + Round(1)
  }

  lemma RoundIsPaper(p: Params, inputs: seq<Input>, q: nat)
    requires PaperRun(p, inputs)
    ensures PaperRun(p, inputs + Round(q))
  {
  }

  /** A paper run that ends with this inventory. */
  ghost predicate Reaches(p: Params, inputs: seq<Input>, inventory: int) {
    PaperRun(p, inputs) && After(p, FLAT_MODEL, inputs).paper.inventory == inventory
  }

  lemma RoundReaches(p: Params, inputs: seq<Input>, inventory: int, q: nat)
    requires Reaches(p, inputs, inventory) && p.size > 0 && 0 < q <= p.size && 0 <= inventory < p.qMax
    ensures Reaches(p, inputs + Round(q), inventory + q)
  {
    RoundBuys(p, inputs, q);
    RoundIsPaper(p, inputs, q);
  }

  lemma {:induction false} NibblesReach(p: Params, n: nat)
    requires !p.liveMode && p.size > 0 && n < p.qMax
    ensures Reaches(p, Nibbles(n), n)
    decreases n
  {
    if n > 0 {
      NibblesReach(p, n - 1);
      RoundReaches(p, Nibbles(n - 1), n - 1, 1);
    }
  }

  /** The bound is attained for every limit and size: single-lot fills bring the
      inventory to q_max - 1, and one full fill adds the whole size. */
  lemma BoundIsTight(p: Params)
    requires !p.liveMode && p.qMax >= 1 && p.size >= 1
    ensures exists inputs :: Reaches(p, inputs, Limit(p))
  {
    NibblesReach(p, p.qMax - 1);
    RoundReaches(p, Nibbles(p.qMax - 1), p.qMax - 1, p.size);
    assert Reaches(p, Nibbles(p.qMax - 1) + Round(p.size), Limit(p));
  }

  // ----------------------------------------------------------- no phantom fills

  /** The quotes placed never cross each other, whatever the model computes. */
  lemma QuotesNeverCross(p: Params, m: Model, inputs: seq<Input>, i: nat)
    requires i < |inputs| && OutputAt(p, m, inputs, i).quote.Some?
    ensures var q := OutputAt(p, m, inputs, i).quote.value;
      q.bidPx > 0 && q.askPx > 0 ==> q.bidPx < q.askPx
  {
    assert inputs[i].Tick?;
  }

  /** The clamp keeps quotes post-only for every raw quote exactly when both best
      prices are positive: its guards treat a price of zero or less as absent. */
  lemma PostOnlyExactly(bb: int, ba: int)
    ensures (forall bid, ask :: Clamped(bb, ba, bid, ask).0 < ba && Clamped(bb, ba, bid, ask).1 > bb)
      <==> bb > 0 && ba > 0
  {
    if ba <= 0 {
      assert Clamped(bb, ba, ba, (if bb > ba then bb else ba) + 1).0 == ba;
    } else if bb <= 0 {
      assert Clamped(bb, ba, bb - 1, bb).1 == bb;
    }
  }

  ghost predicate PositiveTop(b: BookView) {
    b.bids != [] && b.asks != [] ==> BestOf(b.bids).value.px > 0 && BestOf(b.asks).value.px > 0
  }

  /** A resting bid was placed by the very last input, a tick on a book whose best
      ask was strictly above it; likewise for a resting ask. */
  ghost predicate RestsFrom(p: Params, w: PaperView, q: Option<QuoteRecord>, i: Input) {
    && i.Tick? && i.book.bids != [] && i.book.asks != [] && q.Some?
    && (w.bid.active ==> w.bid.px < BestOf(i.book.asks).value.px && w.bid.qty == p.size && q.value.bidPx == w.bid.px)
    && (w.ask.active ==> w.ask.px > BestOf(i.book.bids).value.px && w.ask.qty == p.size && q.value.askPx == w.ask.px)
  }

  lemma RestingIsFresh(p: Params, m: Model, inputs: seq<Input>)
    requires PaperRun(p, inputs)
    requires forall i :: i in inputs && i.Tick? ==> PositiveTop(i.book)
    ensures var w := After(p, m, inputs).paper;
      w.bid.active || w.ask.active ==>
        inputs != [] && RestsFrom(p, w, OutputAt(p, m, inputs, |inputs| - 1).quote, inputs[|inputs| - 1])
  {
    if inputs != [] {
      var last := inputs[|inputs| - 1];
      assert last in inputs;
      if last.Tick? && last.book.bids != [] && last.book.asks != [] {
        assert PositiveTop(last.book);
      }
    }
  }

  /** Every paper fill is explained by the quote placed on the immediately
      preceding tick, with no resync in between: when it was placed the opposite
      best was strictly on the other side of it, and now it has been reached. */
  lemma FillsAreReal(p: Params, m: Model, inputs: seq<Input>, i: nat, f: FillRecord)
    requires i < |inputs| && PaperRun(p, inputs)
    requires forall j :: j in inputs && j.Tick? ==> PositiveTop(j.book)
    requires f in OutputAt(p, m, inputs, i).fills
    ensures i > 0 && inputs[i].Tick? && inputs[i - 1].Tick?
    ensures inputs[i - 1].book.bids != [] && inputs[i - 1].book.asks != []
    ensures inputs[i].book.bids != [] && inputs[i].book.asks != []
    ensures OutputAt(p, m, inputs, i - 1).quote.Some?
    ensures var q := OutputAt(p, m, inputs, i - 1).quote.value;
      if f.side.Bid? then
        && q.bidPx == f.px && BestOf(inputs[i - 1].book.asks).value.px > f.px >= BestOf(inputs[i].book.asks).value.px
        && 0 < f.qty <= p.size && f.qty <= BestOf(inputs[i].book.asks).value.qty
      else
        && q.askPx == f.px && BestOf(inputs[i - 1].book.bids).value.px < f.px <= BestOf(inputs[i].book.bids).value.px
        && 0 < -f.qty <= p.size && -f.qty <= BestOf(inputs[i].book.bids).value.qty
  {
    assert inputs[i] in inputs;
    var pre := inputs[..i];
    assert PaperRun(p, pre);
    RestingIsFresh(p, m, pre);
    assert i > 0 ==> pre[..i - 1] == inputs[..i - 1] && pre[i - 1] == inputs[i - 1];
  }

  /** Running the fill pass again on the book just quoted on fills nothing. */
  lemma NoFillOnQuotingBook(p: Params, m: Model, inputs: seq<Input>, fid: nat)
    requires inputs != [] && PaperRun(p, inputs) && inputs[|inputs| - 1].Tick?
    requires forall i :: i in inputs && i.Tick? ==> PositiveTop(i.book)
    ensures Filled(After(p, m, inputs).paper, inputs[|inputs| - 1].book, fid, m.fee).1 == []
  {
    RestingIsFresh(p, m, inputs);
  }

  // ----------------------------------------------------------------- accounting

  /** One trade as a ledger line. `stamp` is the inventory and cash that the fill
      record of a paper fill reports. */
  datatype Entry = Entry(signed: int, px: int, quoteFee: int, baseFee: int, stamp: Option<(int, int)>)

  function PaperEntry(f: FillRecord): Entry {
    Entry(f.qty, f.px, f.fee, 0, Some((f.inventoryAfter, f.cashAfter)))
  }

  function PaperEntries(fs: seq<FillRecord>): seq<Entry> {
    seq(|fs|, i requires 0 <= i < |fs| => PaperEntry(fs[i]))
  }

  /** The commission is charged in its own asset and nowhere else. */
  function RealEntries(e: ExecFill): seq<Entry> {
    if e.qty <= 0 then []
    else [Entry(if e.side.Bid? then e.qty else -e.qty, e.px, if e.asset.Quote? then e.fee else 0,
                if e.asset.Base? then e.fee else 0, None)]
  }

  function EntriesAt(p: Params, m: Model, s: StrategyView, i: Input): seq<Entry> {
    match i
    case Tick(_, _) => PaperEntries(Fed(p, m, s, i).1.fills)
    case Resync => []
    case Exec(e) => RealEntries(e)
  }

  function Ledger(p: Params, m: Model, inputs: seq<Input>): seq<Entry> {
    if inputs == [] then []
    else
      var pre := inputs[..|inputs| - 1];
      Ledger(p, m, pre) + EntriesAt(p, m, After(p, m, pre), inputs[|inputs| - 1])
  }

  function Inventory(es: seq<Entry>): int {
    if es == [] then 0
    else Inventory(es[..|es| - 1]) + es[|es| - 1].signed - es[|es| - 1].baseFee
  }

  function Cash(es: seq<Entry>): int {
    if es == [] then 0
    else Cash(es[..|es| - 1]) - es[|es| - 1].signed * es[|es| - 1].px - es[|es| - 1].quoteFee
  }

  /** Every stamp is the running total at its line. */
  ghost predicate Stamped(es: seq<Entry>) {
    forall k :: 0 <= k < |es| && es[k].stamp.Some? ==>
      es[k].stamp.value == (Inventory(es[..k + 1]), Cash(es[..k + 1]))
  }

  lemma Posted(es: seq<Entry>, e: Entry)
    ensures Inventory(es + [e]) == Inventory(es) + e.signed - e.baseFee
    ensures Cash(es + [e]) == Cash(es) - e.signed * e.px - e.quoteFee
    ensures Stamped(es) && (e.stamp.Some? ==> e.stamp.value == (Inventory(es + [e]), Cash(es + [e])))
      ==> Stamped(es + [e])
  {
    assert (es + [e])[..|es|] == es;
    assert (es + [e])[..|es| + 1] == es + [e];
    forall k | 0 <= k < |es| ensures (es + [e])[k] == es[k] && (es + [e])[..k + 1] == es[..k + 1] {
    }
  }

  /** A ledger that balances with the paper book. */
  ghost predicate Balanced(es: seq<Entry>, w: PaperView) {
    w.inventory == Inventory(es) && w.cash == Cash(es) && Stamped(es)
  }

  lemma NoEntries(es: seq<Entry>)
    ensures es + PaperEntries([]) == es
  {
  }

  lemma OneEntry(f: FillRecord)
    ensures PaperEntries([f]) == [PaperEntry(f)]
  {
  }

  lemma BidFillPosted(es: seq<Entry>, w: PaperView, book: BookView, fid: nat, fee: (int, int) -> int)
    requires Balanced(es, w)
    ensures var (w', fs) := BidFilled(w, book, fid, fee); Balanced(es + PaperEntries(fs), w')
  {
    var (w', fs) := BidFilled(w, book, fid, fee);
    if fs == [] {
      NoEntries(es);
    } else {
      OneEntry(fs[0]);
      Posted(es, PaperEntry(fs[0]));
    }
  }

  lemma AskFillPosted(es: seq<Entry>, w: PaperView, book: BookView, fid: nat, fee: (int, int) -> int)
    requires Balanced(es, w)
    ensures var (w', fs) := AskFilled(w, book, fid, fee); Balanced(es + PaperEntries(fs), w')
  {
    var (w', fs) := AskFilled(w, book, fid, fee);
    if fs == [] {
      NoEntries(es);
    } else {
      OneEntry(fs[0]);
      Posted(es, PaperEntry(fs[0]));
    }
  }

  lemma EntriesConcat(es: seq<Entry>, f1: seq<FillRecord>, f2: seq<FillRecord>)
    ensures es + PaperEntries(f1 + f2) == es + PaperEntries(f1) + PaperEntries(f2)
  {
  }

  lemma FillsPosted(es: seq<Entry>, w: PaperView, book: BookView, fid: nat, fee: (int, int) -> int)
    requires Balanced(es, w)
    ensures var (w', fs) := Filled(w, book, fid, fee); Balanced(es + PaperEntries(fs), w')
  {
    var (w1, f1) := BidFilled(w, book, fid, fee);
    var (w2, f2) := AskFilled(w1, book, fid, fee);
    BidFillPosted(es, w, book, fid, fee);
    AskFillPosted(es + PaperEntries(f1), w1, book, fid, fee);
    EntriesConcat(es, f1, f2);
  }

  /** Quoting moves neither inventory nor cash. */
  lemma TickPaper(p: Params, m: Model, s: StrategyView, book: BookView, ev: MarketEvent)
    ensures var (s', o) := Ticked(p, m, s, book, ev);
      var (w, fs) := Filled(s.paper, book, ev.finalId, m.fee);
      if book.bids == [] || book.asks == [] || p.liveMode then
        o.fills == [] && s'.paper.inventory == s.paper.inventory && s'.paper.cash == s.paper.cash
      else
        o.fills == fs && s'.paper.inventory == w.inventory && s'.paper.cash == w.cash
  {
  }

  lemma TickPosted(p: Params, m: Model, s: StrategyView, es: seq<Entry>, book: BookView, ev: MarketEvent)
    requires Balanced(es, s.paper)
    ensures var (s', o) := Ticked(p, m, s, book, ev); Balanced(es + PaperEntries(o.fills), s'.paper)
  {
    TickPaper(p, m, s, book, ev);
    FillsPosted(es, s.paper, book, ev.finalId, m.fee);
    assert es + PaperEntries([]) == es;
  }

  lemma ExecPosted(s: StrategyView, es: seq<Entry>, e: ExecFill)
    requires Balanced(es, s.paper)
    ensures Balanced(es + RealEntries(e), Executed(s, e).paper)
  {
    if e.qty > 0 {
      Posted(es, RealEntries(e)[0]);
    } else {
      assert es + [] == es;
    }
  }

  lemma StepPosted(p: Params, m: Model, s: StrategyView, es: seq<Entry>, i: Input)
    requires Balanced(es, s.paper)
    ensures Balanced(es + EntriesAt(p, m, s, i), Fed(p, m, s, i).0.paper)
  {
    match i {
      case Tick(book, ev) => TickPosted(p, m, s, es, book, ev);
      case Resync => assert es + [] == es;
      case Exec(e) => ExecPosted(s, es, e);
    }
  }

  /** On every run, paper or live, inventory and cash are exactly what the ledger
      of trades and commissions adds up to, and every fill record carries the
      running totals at its place. */
  lemma {:induction false} Conservation(p: Params, m: Model, inputs: seq<Input>)
    ensures Balanced(Ledger(p, m, inputs), After(p, m, inputs).paper)
    decreases |inputs|
  {
    if inputs != [] {
      var pre := inputs[..|inputs| - 1];
      Conservation(p, m, pre);
      StepPosted(p, m, After(p, m, pre), Ledger(p, m, pre), inputs[|inputs| - 1]);
    }
  }
}
