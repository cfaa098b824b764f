/** The engine thread: the only writer of the live book. */
module Engine {
  import opened Events
  import opened BookSide
  import opened Book
  import opened Feed
  import opened Verifier
  import opened PaperBook
  import opened Strategy
  import opened StrategyRuns
  import opened Replay
  import CrossCheck

  const RING_CAP: nat := 1024
  const RING_KEEP: nat := 512

  datatype Record =
    | EventRec(ev: MarketEvent)
    | DecisionRec(d: DecisionRecord)
    | QuoteRec(q: QuoteRecord)
    | FillRec(f: FillRecord)

  function Trimmed(ring: seq<MarketEvent>): seq<MarketEvent> {
    if |ring| > RING_CAP then ring[|ring| - RING_KEEP..] else ring
  }

  function Recorded(ring: seq<MarketEvent>, ev: MarketEvent): seq<MarketEvent> {
    Trimmed((if ev.start then [] else ring) + [ev])
  }

  /** The ring of recent events: emptied by a snapshot start, trimmed by count. */
  function RingAfter(evs: seq<MarketEvent>): seq<MarketEvent> {
    if evs == [] then [] else Recorded(RingAfter(evs[..|evs| - 1]), evs[|evs| - 1])
  }

  ghost predicate SuffixOf(r: seq<MarketEvent>, evs: seq<MarketEvent>) {
    |r| <= |evs| && r == evs[|evs| - |r|..]
  }

  lemma SuffixSnoc(r: seq<MarketEvent>, evs: seq<MarketEvent>, ev: MarketEvent)
    requires SuffixOf(r, evs)
    ensures SuffixOf(r + [ev], evs + [ev])
  {
  }

  lemma SuffixTail(r: seq<MarketEvent>, evs: seq<MarketEvent>, k: nat)
    requires SuffixOf(r, evs) && k <= |r|
    ensures SuffixOf(r[k..], evs)
  {
  }

  ghost predicate OnlyFirstStarts(r: seq<MarketEvent>) {
    forall i :: 0 < i < |r| ==> !r[i].start
  }

  lemma TrimKeepsSuffix(r: seq<MarketEvent>, evs: seq<MarketEvent>)
    requires SuffixOf(r, evs) && OnlyFirstStarts(r) && 0 < |r| <= RING_CAP + 1
    ensures SuffixOf(Trimmed(r), evs) && OnlyFirstStarts(Trimmed(r)) && 0 < |Trimmed(r)| <= RING_CAP
  {
    if |r| > RING_CAP { SuffixTail(r, evs, |r| - RING_KEEP); }
  }

  lemma RingGrows(r: seq<MarketEvent>, pre: seq<MarketEvent>, ev: MarketEvent)
    requires SuffixOf(r, pre) && OnlyFirstStarts(r)
    ensures var r' := (if ev.start then [] else r) + [ev];
      SuffixOf(r', pre + [ev]) && OnlyFirstStarts(r')
  {
    SuffixSnoc(r, pre, ev);
    SuffixSnoc([], pre, ev);
  }

  ghost predicate RecentOnly(r: seq<MarketEvent>, evs: seq<MarketEvent>) {
    SuffixOf(r, evs) && OnlyFirstStarts(r) && |r| <= RING_CAP
  }

  lemma RingStep(evs: seq<MarketEvent>, r: seq<MarketEvent>)
    requires evs != [] && RecentOnly(r, evs[..|evs| - 1])
    ensures RecentOnly(Recorded(r, evs[|evs| - 1]), evs) && Recorded(r, evs[|evs| - 1]) != []
  {
    var pre, ev := evs[..|evs| - 1], evs[|evs| - 1];
    RingGrows(r, pre, ev);
    assert evs == pre + [ev];
    TrimKeepsSuffix((if ev.start then [] else r) + [ev], evs);
  }

  /** The ring is always a suffix of what was applied, never reaching back past
      the last snapshot start, and bounded. */
  lemma {:induction false} RingIsSuffix(evs: seq<MarketEvent>)
    ensures RecentOnly(RingAfter(evs), evs)
    ensures evs != [] ==> RingAfter(evs) != []
    decreases |evs|
  {
    if evs != [] {
      var r := RingAfter(evs[..|evs| - 1]);
      RingIsSuffix(evs[..|evs| - 1]);
      RingStep(evs, r);
      assert RingAfter(evs) == Recorded(r, evs[|evs| - 1]);
    }
  }

  function FillRecs(fs: seq<FillRecord>): seq<Record> {
    seq(|fs|, i requires 0 <= i < |fs| => FillRec(fs[i]))
  }

  function OutputRecs(o: Output): seq<Record> {
    (if o.quote.Some? then [QuoteRec(o.quote.value)] else []) + FillRecs(o.fills)
  }

  /** The strategy attached to an engine, if any, and whether it keeps a log. */
  datatype Config = Config(strategy: Option<(Params, Model)>, logging: bool)

  datatype EngineView = EngineView(feed: FeedView, verifier: VerifierView, ring: seq<MarketEvent>, strat: StrategyView,
                                   log: seq<Record>)

  const IDLE_ENGINE: EngineView := EngineView(COLD, FRESH, [], NEW, [])

  /** What the strategy does with one event, given the feed after it. */
  function StrategyTurn(c: Config, s: StrategyView, ev: MarketEvent, f: FeedView): (StrategyView, Output) {
    if c.strategy.None? then (s, Output(None, []))
    else StrategyFed(c.strategy.value.0, c.strategy.value.1, s, ev, f)
  }

  /** One turn of the drain loop: verify, apply, record, decide, let the strategy
      answer, and log the event, the decision, the quote and the fills in order. */
  function Handled(c: Config, e: EngineView, ev: MarketEvent): EngineView {
    var (v, ok) := Checked(e.verifier, ev);
    var f := Consumed(e.feed, ev);
    var (s, o) := StrategyTurn(c, e.strat, ev, f);
    EngineView(f, v, Recorded(e.ring, ev), s,
               if c.logging
               then e.log + [EventRec(ev), DecisionRec(DecisionOf(f.book, ev.finalId, f.live, !ok))] + OutputRecs(o)
               else e.log)
  }

  function EngineAfter(c: Config, evs: seq<MarketEvent>): EngineView {
    if evs == [] then IDLE_ENGINE else Handled(c, EngineAfter(c, evs[..|evs| - 1]), evs[|evs| - 1])
  }

  lemma EngineSnoc(c: Config, evs: seq<MarketEvent>, ev: MarketEvent)
    ensures EngineAfter(c, evs + [ev]) == Handled(c, EngineAfter(c, evs), ev)
  {
    assert (evs + [ev])[..|evs|] == evs;
  }

  lemma Batched(a: seq<MarketEvent>, batch: seq<MarketEvent>, i: nat)
    requires i < |batch|
    ensures a + batch[..i + 1] == a + batch[..i] + [batch[i]]
    ensures i + 1 == |batch| ==> batch[..i + 1] == batch
  {
  }

  class Engine {
    const book: L2Book
    const scratch: L2Book
    const verifier: GapVerifier
    /** The strategy object, and whether it is attached. */
    const strat: Strategy
    const trading: bool
    const logging: bool
    const crosscheckLevels: int
    var ring: seq<MarketEvent>
    var bookLive: bool
    var log: seq<Record>
    var crosscheckOk: nat
    var crosscheckFail: nat
    var crosscheckSkipped: nat
    /** Every event popped so far. */
    ghost var applied: seq<MarketEvent>

    ghost function Conf(): Config {
      Config(if trading then Some((strat.params, strat.model)) else None, logging)
    }

    ghost predicate Intact()
      reads book, book.bids, book.asks
    {
      && book.Valid() && strat.Valid()
      && book != scratch && {book.bids, book.asks} !! {scratch.bids, scratch.asks}
    }

    ghost function View(): EngineView
      requires Intact()
      reads this`ring, this`bookLive, this`log, book, book.bids, book.asks, verifier, strat, strat.paper
    {
      EngineView(FeedView(book.View(), bookLive), verifier.View(), ring, strat.View(), log)
    }

    /** The engine's state is a function of what it popped. */
    ghost predicate Valid()
      reads this`ring, this`bookLive, this`log, this`applied, book, book.bids, book.asks, verifier, strat, strat.paper
    {
      Intact() && View() == EngineAfter(Conf(), applied)
    }

    constructor (strat: Strategy, trading: bool, logging: bool, crosscheckLevels: int)
      requires strat.Valid() && strat.View() == NEW
      ensures Valid() && scratch.Valid() && applied == []
      ensures this.strat == strat && this.trading == trading && this.logging == logging
      ensures fresh({scratch, scratch.bids, scratch.asks, book, book.bids, book.asks}) && fresh(verifier)
    {
      book := new L2Book();
      scratch := new L2Book();
      verifier := new GapVerifier();
      this.strat, this.trading, this.logging, this.crosscheckLevels := strat, trading, logging, crosscheckLevels;
      ring, bookLive, log, applied := [], false, [], [];
      crosscheckOk, crosscheckFail, crosscheckSkipped := 0, 0, 0;
    }

    method RecordRing(ev: MarketEvent)
      modifies this`ring
      ensures ring == Trimmed(old(ring) + [ev])
    {
      ring := ring + [ev];
      if |ring| > RING_CAP { ring := ring[|ring| - RING_KEEP..]; }
    }

    method LogOutput(o: Output)
      modifies this`log
      ensures log == old(log) + OutputRecs(o)
    {
      if o.quote.Some? { log := log + [QuoteRec(o.quote.value)]; }
      ghost var l := log;
      var i := 0;
      while i < |o.fills|
        invariant i <= |o.fills| && log == l + FillRecs(o.fills)[..i]
      {
        log := log + [FillRec(o.fills[i])];
        i := i + 1;
      }
    }

    /** Verify, update the book, record in the ring, and derive the decision. */
    method ApplyInput(ev: MarketEvent) returns (d: DecisionRecord)
      requires Intact()
      modifies this`ring, this`bookLive, book, book.bids, book.asks, verifier
      ensures Intact()
      ensures (verifier.View(), !d.hadGap) == Checked(old(verifier.View()), ev)
      ensures FeedView(book.View(), bookLive) == Consumed(FeedView(old(book.View()), old(bookLive)), ev)
      ensures ring == Recorded(old(ring), ev)
      ensures d == DecisionOf(book.View(), ev.finalId, bookLive, d.hadGap)
    {
      var ok := verifier.Check(ev);
      if ev.start { ring := []; }
      bookLive := FeedBook(book, bookLive, ev);
      RecordRing(ev);
      d := MakeDecision(book, ev.finalId, bookLive, !ok);
    }

    method HandleEvent(ev: MarketEvent)
      requires Intact()
      modifies this`ring, this`bookLive, this`log, book, book.bids, book.asks, verifier, strat, strat.paper
      ensures Intact() && View() == Handled(Conf(), old(View()), ev)
    {
      var d := ApplyInput(ev);
      var o := Output(None, []);
      if trading { o := FeedStrategy(strat, book, bookLive, ev); }
      if logging {
        log := log + [EventRec(ev), DecisionRec(d)];
        LogOutput(o);
      }
    }

    /** The same turn, as a statement about the whole history. */
    method PopOne(ev: MarketEvent)
      requires Valid()
      modifies this`ring, this`bookLive, this`log, this`applied
      modifies book, book.bids, book.asks, verifier, strat, strat.paper
      ensures Valid() && applied == old(applied) + [ev]
    {
      ghost var conf := Conf();
      EngineSnoc(conf, applied, ev);
      HandleEvent(ev);
      assert View() == EngineAfter(conf, applied + [ev]);
      applied := applied + [ev];
    }

    /** Pop until empty; `batch` is what was popped. */
    method Drain(batch: seq<MarketEvent>) returns (didWork: bool)
      requires Valid()
      modifies this`ring, this`bookLive, this`log, this`applied
      modifies book, book.bids, book.asks, verifier, strat, strat.paper
      ensures Valid() && applied == old(applied) + batch
      ensures didWork <==> batch != []
    {
      didWork := false;
      for i := 0 to |batch|
        invariant Valid() && applied == old(applied) + batch[..i]
        invariant didWork <==> i > 0
      {
        didWork := true;
        PopOne(batch[i]);
        Batched(old(applied), batch, i);
      }
    }

    ghost function Counters(): Tally
      reads this`crosscheckOk, this`crosscheckFail, this`crosscheckSkipped
    {
      Tally(crosscheckOk, crosscheckFail, crosscheckSkipped)
    }

    method CheckOne(msg: DepthSnapshot)
      requires Intact() && scratch.Valid()
      modifies this`crosscheckOk, this`crosscheckFail, this`crosscheckSkipped, scratch, scratch.bids, scratch.asks
      ensures Intact() && scratch.Valid()
      ensures Counters() == Counted(old(Counters()), CrossCheck.CrossChecked(book.View(), msg, ring, crosscheckLevels))
    {
      var r := CrossCheck.Check(book, msg, ring, crosscheckLevels, scratch);
      match r {
        case Match => crosscheckOk := crosscheckOk + 1;
        case Mismatch => crosscheckFail := crosscheckFail + 1;
        case Skipped => crosscheckSkipped := crosscheckSkipped + 1;
      }
    }

    /** Run the pending cross-checks; nothing but the counters changes. */
    method HandleCrossChecks(msgs: seq<DepthSnapshot>)
      requires Valid() && scratch.Valid()
      modifies this`crosscheckOk, this`crosscheckFail, this`crosscheckSkipped, scratch, scratch.bids, scratch.asks
      ensures Valid() && scratch.Valid()
      ensures Counters() == CountedAll(old(Counters()), View().feed.book, ring, crosscheckLevels, msgs)
    {
      for i := 0 to |msgs|
        invariant Intact() && scratch.Valid()
        invariant Counters() == CountedAll(old(Counters()), book.View(), ring, crosscheckLevels, msgs[..i])
      {
        assert msgs[..i + 1][..i] == msgs[..i];
        CheckOne(msgs[i]);
      }
      assert msgs[..|msgs|] == msgs;
    }
  }

  /** The cross-check counters. */
  datatype Tally = Tally(ok: nat, fail: nat, skipped: nat)

  function Counted(t: Tally, r: CrossCheck.CrossCheckResult): Tally {
    match r
    case Match => t.(ok := t.ok + 1)
    case Mismatch => t.(fail := t.fail + 1)
    case Skipped => t.(skipped := t.skipped + 1)
  }

  ghost function CountedAll(t: Tally, live: BookView, ring: seq<MarketEvent>, levels: int, msgs: seq<DepthSnapshot>)
    : Tally
  {
    if msgs == [] then t
    else
      Counted(CountedAll(t, live, ring, levels, msgs[..|msgs| - 1]),
              CrossCheck.CrossChecked(live, msgs[|msgs| - 1], ring, levels))
  }

  // ------------------------------------------------------- live equals replay

  function EventsIn(log: seq<Record>): seq<MarketEvent> {
    if log == [] then []
    else EventsIn(log[..|log| - 1]) + match log[|log| - 1] case EventRec(ev) => [ev] case _ => []
  }

  function DecisionsIn(log: seq<Record>): seq<DecisionRecord> {
    if log == [] then []
    else DecisionsIn(log[..|log| - 1]) + match log[|log| - 1] case DecisionRec(d) => [d] case _ => []
  }

  function QuotesIn(log: seq<Record>): seq<QuoteRecord> {
    if log == [] then []
    else QuotesIn(log[..|log| - 1]) + match log[|log| - 1] case QuoteRec(q) => [q] case _ => []
  }

  function FillsIn(log: seq<Record>): seq<FillRecord> {
    if log == [] then []
    else FillsIn(log[..|log| - 1]) + match log[|log| - 1] case FillRec(f) => [f] case _ => []
  }

  lemma ProjectSnoc(log: seq<Record>, r: Record)
    ensures EventsIn(log + [r]) == EventsIn(log) + (match r case EventRec(ev) => [ev] case _ => [])
    ensures DecisionsIn(log + [r]) == DecisionsIn(log) + (match r case DecisionRec(d) => [d] case _ => [])
    ensures QuotesIn(log + [r]) == QuotesIn(log) + (match r case QuoteRec(q) => [q] case _ => [])
    ensures FillsIn(log + [r]) == FillsIn(log) + (match r case FillRec(f) => [f] case _ => [])
  {
    assert (log + [r])[..|log|] == log;
  }

  lemma {:induction false} ProjectFills(log: seq<Record>, fs: seq<FillRecord>)
    ensures EventsIn(log + FillRecs(fs)) == EventsIn(log)
    ensures DecisionsIn(log + FillRecs(fs)) == DecisionsIn(log)
    ensures QuotesIn(log + FillRecs(fs)) == QuotesIn(log)
    ensures FillsIn(log + FillRecs(fs)) == FillsIn(log) + fs
    decreases |fs|
  {
    if fs == [] {
      assert log + FillRecs(fs) == log;
    } else {
      var n := |fs| - 1;
      ProjectFills(log, fs[..n]);
      ProjectSnoc(log + FillRecs(fs[..n]), FillRec(fs[n]));
      assert log + FillRecs(fs) == log + FillRecs(fs[..n]) + [FillRec(fs[n])];
      assert fs == fs[..n] + [fs[n]];
    }
  }

  lemma ProjectOutput(log: seq<Record>, o: Output)
    ensures EventsIn(log + OutputRecs(o)) == EventsIn(log)
    ensures DecisionsIn(log + OutputRecs(o)) == DecisionsIn(log)
    ensures QuotesIn(log + OutputRecs(o)) == QuotesIn(log) + (if o.quote.Some? then [o.quote.value] else [])
    ensures FillsIn(log + OutputRecs(o)) == FillsIn(log) + o.fills
  {
    var l1 := if o.quote.Some? then log + [QuoteRec(o.quote.value)] else log;
    if o.quote.Some? { ProjectSnoc(log, QuoteRec(o.quote.value)); }
    ProjectFills(l1, o.fills);
    assert log + OutputRecs(o) == l1 + FillRecs(o.fills);
  }

  lemma ProjectTurn(log: seq<Record>, ev: MarketEvent, d: DecisionRecord, o: Output)
    ensures var l := log + [EventRec(ev), DecisionRec(d)] + OutputRecs(o);
      && EventsIn(l) == EventsIn(log) + [ev]
      && DecisionsIn(l) == DecisionsIn(log) + [d]
      && QuotesIn(l) == QuotesIn(log) + (if o.quote.Some? then [o.quote.value] else [])
      && FillsIn(l) == FillsIn(log) + o.fills
  {
    var l1 := log + [EventRec(ev)];
    ProjectSnoc(log, EventRec(ev));
    ProjectSnoc(l1, DecisionRec(d));
    ProjectOutput(l1 + [DecisionRec(d)], o);
    assert l1 + [DecisionRec(d)] == log + [EventRec(ev), DecisionRec(d)];
  }

  /** Every part of the engine's state is what an independent run of that part
      over the popped events gives. */
  lemma {:induction false} EngineParts(c: Config, evs: seq<MarketEvent>)
    ensures var e := EngineAfter(c, evs);
      && e.feed == FeedAfter(evs) && e.verifier == VerifierAfter(evs) && e.ring == RingAfter(evs)
      && (c.strategy.Some? ==> e.strat == After(c.strategy.value.0, c.strategy.value.1, InputsOf(evs)))
    decreases |evs|
  {
    if evs != [] {
      var pre, ev := evs[..|evs| - 1], evs[|evs| - 1];
      EngineParts(c, pre);
      assert pre + [ev] == evs;
      if c.strategy.Some? { TapeSnoc(c.strategy.value.0, c.strategy.value.1, pre, ev); }
    }
  }

  /** What one turn adds to the log, stream by stream. */
  lemma TurnLogged(c: Config, e: EngineView, ev: MarketEvent)
    requires c.logging
    ensures var l, f := Handled(c, e, ev).log, Consumed(e.feed, ev);
      var o := StrategyTurn(c, e.strat, ev, f).1;
      && EventsIn(l) == EventsIn(e.log) + [ev]
      && DecisionsIn(l) == DecisionsIn(e.log) + [DecisionOf(f.book, ev.finalId, f.live, !Checked(e.verifier, ev).1)]
      && QuotesIn(l) == QuotesIn(e.log) + (if o.quote.Some? then [o.quote.value] else [])
      && FillsIn(l) == FillsIn(e.log) + o.fills
  {
    var f := Consumed(e.feed, ev);
    ProjectTurn(e.log, ev, DecisionOf(f.book, ev.finalId, f.live, !Checked(e.verifier, ev).1),
                StrategyTurn(c, e.strat, ev, f).1);
  }

  lemma DecisionOfLast(evs: seq<MarketEvent>)
    requires evs != []
    ensures var pre, ev := evs[..|evs| - 1], evs[|evs| - 1];
      var f := Consumed(FeedAfter(pre), ev);
      Decisions(evs) == Decisions(pre) + [DecisionOf(f.book, ev.finalId, f.live, !Checked(VerifierAfter(pre), ev).1)]
  {
  }

  lemma EventLogged(c: Config, e: EngineView, ev: MarketEvent, pre: seq<MarketEvent>)
    requires c.logging && EventsIn(e.log) == pre
    ensures EventsIn(Handled(c, e, ev).log) == pre + [ev]
  {
    TurnLogged(c, e, ev);
  }

  lemma {:induction false} EventsAreLogged(c: Config, evs: seq<MarketEvent>)
    requires c.logging
    ensures EventsIn(EngineAfter(c, evs).log) == evs
    decreases |evs|
  {
    if evs == [] {
      NothingLogged(c);
    } else {
      EventsAreLogged(c, evs[..|evs| - 1]);
      LastEventLogged(c, evs);
    }
  }

  lemma LastEventLogged(c: Config, evs: seq<MarketEvent>)
    requires c.logging && evs != [] && EventsIn(EngineAfter(c, evs[..|evs| - 1]).log) == evs[..|evs| - 1]
    ensures EventsIn(EngineAfter(c, evs).log) == evs
  {
    EventLogged(c, EngineAfter(c, evs[..|evs| - 1]), evs[|evs| - 1], evs[..|evs| - 1]);
    Rejoined(evs);
  }

  lemma Rejoined(evs: seq<MarketEvent>)
    requires evs != []
    ensures evs[..|evs| - 1] + [evs[|evs| - 1]] == evs
  {
  }

  lemma NothingLogged(c: Config)
    ensures EngineAfter(c, []).log == []
  {
  }

  lemma {:induction false} DecisionsAreReplayed(c: Config, evs: seq<MarketEvent>)
    requires c.logging
    ensures DecisionsIn(EngineAfter(c, evs).log) == Decisions(evs)
    decreases |evs|
  {
    if evs != [] {
      var pre, ev := evs[..|evs| - 1], evs[|evs| - 1];
      DecisionsAreReplayed(c, pre);
      EngineParts(c, pre);
      TurnLogged(c, EngineAfter(c, pre), ev);
      DecisionOfLast(evs);
    }
  }

  lemma TapeLast(c: Config, evs: seq<MarketEvent>)
    requires c.strategy.Some? && evs != []
    ensures var p, m, pre, ev := c.strategy.value.0, c.strategy.value.1, evs[..|evs| - 1], evs[|evs| - 1];
      var o := StrategyTurn(c, After(p, m, InputsOf(pre)), ev, Consumed(FeedAfter(pre), ev)).1;
      && QuotesOf(p, m, InputsOf(evs))
         == QuotesOf(p, m, InputsOf(pre)) + (if o.quote.Some? then [o.quote.value] else [])
      && FillsOf(p, m, InputsOf(evs)) == FillsOf(p, m, InputsOf(pre)) + o.fills
  {
    var pre, ev := evs[..|evs| - 1], evs[|evs| - 1];
    assert pre + [ev] == evs;
    TapeSnoc(c.strategy.value.0, c.strategy.value.1, pre, ev);
  }

  lemma {:induction false} QuotesAreReplayed(c: Config, evs: seq<MarketEvent>)
    requires c.logging && c.strategy.Some?
    ensures QuotesIn(EngineAfter(c, evs).log) == QuotesOf(c.strategy.value.0, c.strategy.value.1, InputsOf(evs))
    ensures FillsIn(EngineAfter(c, evs).log) == FillsOf(c.strategy.value.0, c.strategy.value.1, InputsOf(evs))
    decreases |evs|
  {
    if evs != [] {
      var pre, ev := evs[..|evs| - 1], evs[|evs| - 1];
      QuotesAreReplayed(c, pre);
      EngineParts(c, pre);
      TurnLogged(c, EngineAfter(c, pre), ev);
      TapeLast(c, evs);
    }
  }

  /** Live equals replay: whatever was popped, in whatever batches and with
      whatever cross-checks in between, the logged inputs are the popped events,
      the logged decisions are the replay of the logged inputs, and the logged
      quotes and fills are the strategy replay of them. */
  lemma LiveEqualsReplay(c: Config, evs: seq<MarketEvent>)
    requires c.logging
    ensures var log := EngineAfter(c, evs).log;
      && EventsIn(log) == evs
      && DecisionsIn(log) == Decisions(EventsIn(log))
      && (c.strategy.Some? ==>
            var (p, m) := c.strategy.value;
            && QuotesIn(log) == QuotesOf(p, m, InputsOf(EventsIn(log)))
            && FillsIn(log) == FillsOf(p, m, InputsOf(EventsIn(log))))
  {
    EventsAreLogged(c, evs);
    DecisionsAreReplayed(c, evs);
    if c.strategy.Some? { QuotesAreReplayed(c, evs); }
  }
}
