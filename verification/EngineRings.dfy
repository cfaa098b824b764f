/** Which rings the engine really holds: every one of them is a suffix of a legal stream,
    cut anywhere at the front by the trim and anywhere at the end by the arrival of
    events. Safe checks stay quiet, and all three kinds of false alarm do occur. */
module EngineRings {
  import opened Events
  import opened BookSide
  import opened Fragmenter
  import opened Protocol
  import opened Exchange
  import opened Feed
  import opened Reconstruction
  import opened CrossCheck
  import opened Tales
  import opened CrossCheckExact
  import opened CrossCheckAlarm
  import E = Engine

  // ----------------------------------------------------------- every ring is a spot

  /** The event at position p, as an event of a message. */
  lemma {:induction false} Locate(gs: seq<Group>, p: nat) returns (a: nat, i: nat)
    requires p < |Flatten(gs)|
    ensures a < |gs| && i < |EventsOf(gs[a])|
    ensures Flatten(gs)[p..] == EventsOf(gs[a])[i..] + Flatten(gs[a + 1..])
    decreases |gs|
  {
    var n := |gs| - 1;
    var pre, g := gs[..n], gs[n];
    Snoc(pre, g);
    Apart(gs);
    if p >= |Flatten(pre)| {
      a, i := n, p - |Flatten(pre)|;
      DropMore(Flatten(pre), EventsOf(g), p);
      assert gs[n + 1..] == [] && Flatten(gs[n + 1..]) == [];
    } else {
      a, i := Locate(pre, p);
      LocateMore(pre, g, p, a, EventsOf(pre[a])[i..]);
    }
  }

  lemma Apart(gs: seq<Group>)
    requires gs != []
    ensures gs == gs[..|gs| - 1] + [gs[|gs| - 1]]
  {
  }

  lemma DropMore(a: seq<MarketEvent>, b: seq<MarketEvent>, p: nat)
    requires |a| <= p <= |a| + |b|
    ensures (a + b)[p..] == b[p - |a|..] && b[p - |a|..] == b[p - |a|..] + []
  {
  }

  lemma LocateMore(pre: seq<Group>, g: Group, p: nat, a: nat, tail: seq<MarketEvent>)
    requires a < |pre| && p < |Flatten(pre)| && Flatten(pre)[p..] == tail + Flatten(pre[a + 1..])
    ensures Flatten(pre + [g])[p..] == tail + Flatten((pre + [g])[a + 1..])
  {
    Snoc(pre, g);
    Snoc(pre[a + 1..], g);
    assert (pre + [g])[a + 1..] == pre[a + 1..] + [g];
    DropConcat(Flatten(pre), EventsOf(g), p);
    SeqAssociative(tail, Flatten(pre[a + 1..]), EventsOf(g));
  }

  lemma DropConcat(a: seq<MarketEvent>, b: seq<MarketEvent>, p: nat)
    requires p <= |a|
    ensures (a + b)[p..] == a[p..] + b
  {
  }

  lemma {:induction false} FlattenHolds(gs: seq<Group>, k: nat)
    requires k < |gs|
    ensures EventsOf(gs[k]) != [] && EventsOf(gs[k])[0] in Flatten(gs)
    decreases |gs|
  {
    EventsOfShape(gs[k]);
    var n := |gs| - 1;
    if k == n {
      assert Flatten(gs)[|Flatten(gs[..n])|] == EventsOf(gs[n])[0];
    } else {
      FlattenHolds(gs[..n], k);
    }
  }

  /** Behind the first message a ring holds no snapshot. */
  ghost predicate DiffsBehind(s: Spot) {
    && (forall k :: s.a < k < |s.all| ==> s.all[k].DiffGroup?)
    && (s.a < |s.all| && s.j > 0 ==> s.g.DiffGroup?)
  }

  lemma NoStartBehind(s: Spot)
    requires WfSpot(s) && E.OnlyFirstStarts(RingOf(s))
    ensures DiffsBehind(s)
  {
    if s.a < |s.all| {
      var tail, rest, part := EventsOf(s.all[s.a])[s.i..], s.all[s.a + 1..], EventsOf(s.g)[..s.j];
      assert RingOf(s)[|tail|..] == Flatten(rest) + part;
      assert forall e :: e in Flatten(rest) + part ==> !e.start;
      forall k | s.a < k < |s.all| ensures s.all[k].DiffGroup? {
        FlattenHolds(rest, k - s.a - 1);
        assert rest[k - s.a - 1] == s.all[k];
        EventsOfShape(s.all[k]);
      }
      if s.j > 0 {
        EventsOfShape(s.g);
        assert part[0] in part;
      }
    }
  }

  /** The moment s at which the engine has applied evs, the front part of gs. */
  ghost predicate SpotOf(s: Spot, gs: seq<Group>, evs: seq<MarketEvent>) {
    && WfSpot(s) && StreamOf(s) == evs && RingOf(s) == E.RingAfter(evs)
    && s.all <= gs && (s.j > 0 ==> |s.all| < |gs| && s.g == gs[|s.all|])
    && Legal(s.all) && (s.j > 0 ==> Admits(PhaseAfter(s.all), s.g)) && DiffsBehind(s)
  }

  /** The engine's ring after any part of a legal stream, cut anywhere, is the ring of a
      spot in that stream. */
  lemma RingIsSpot(gs: seq<Group>, evs: seq<MarketEvent>) returns (s: Spot)
    requires Legal(gs) && evs <= Flatten(gs) && evs != []
    ensures SpotOf(s, gs, evs)
  {
    var pre, g, j := CutWithin(gs, evs);
    E.RingIsSuffix(evs);
    if j == 0 { EventsOfShape(g); }
    s := SuffixIsSpot(pre, g, j, |evs| - |E.RingAfter(evs)|);
    NoStartBehind(s);
  }

  lemma SuffixIsSpot(gs: seq<Group>, g: Group, j: nat, p: nat) returns (s: Spot)
    requires j < |EventsOf(g)| && p < |Flatten(gs)| + j
    ensures WfSpot(s) && s.all == gs && s.g == g && s.j == j && RingOf(s) == StreamOf(s)[p..]
  {
    if p < |Flatten(gs)| {
      s := SuffixInside(gs, g, j, p);
    } else {
      s := Spot(gs, g, j, |gs|, p - |Flatten(gs)|);
      SpotAtEnd(s, p);
    }
  }

  lemma SuffixInside(gs: seq<Group>, g: Group, j: nat, p: nat) returns (s: Spot)
    requires j < |EventsOf(g)| && p < |Flatten(gs)|
    ensures WfSpot(s) && s.all == gs && s.g == g && s.j == j && RingOf(s) == StreamOf(s)[p..]
  {
    var a, i := Locate(gs, p);
    s := Spot(gs, g, j, a, i);
    SpotInside(s, p);
  }

  lemma SpotInside(s: Spot, p: nat)
    requires WfSpot(s) && s.a < |s.all| && p < |Flatten(s.all)|
    requires Flatten(s.all)[p..] == EventsOf(s.all[s.a])[s.i..] + Flatten(s.all[s.a + 1..])
    ensures RingOf(s) == StreamOf(s)[p..]
  {
    var part := EventsOf(s.g)[..s.j];
    DropConcat(Flatten(s.all), part, p);
    SeqAssociative(EventsOf(s.all[s.a])[s.i..], Flatten(s.all[s.a + 1..]), part);
  }

  lemma SpotAtEnd(s: Spot, p: nat)
    requires WfSpot(s) && s.a == |s.all| && p == |Flatten(s.all)| + s.i
    ensures RingOf(s) == StreamOf(s)[p..]
  {
    DropMore(Flatten(s.all), EventsOf(s.g)[..s.j], p);
    TakeThenDrop(EventsOf(s.g), s.j, s.i);
  }

  lemma TakeThenDrop(evs: seq<MarketEvent>, j: nat, q: nat)
    requires q <= j <= |evs|
    ensures evs[..j][q..] == evs[q..j]
  {
  }

  // ----------------------------------------------------- an engine in a truthful world

  /** The REST snapshot is truthful and the ring is safe for it, with the compared levels
      known to both books. */
  ghost predicate SafeCheck(h: seq<Change>, s: Spot, limit: nat, msg: DepthSnapshot, msgLimit: nat, levels: int)
    requires WfSpot(s)
  {
    && TruthfulSnapshot(h, msg, msgLimit) && FrontSafe(s, msg.lastId) && EndSafe(s, msg.lastId)
    && forall side :: LevelsKnown(s, limit, msg, msgLimit, levels, side)
  }

  lemma SpotIsTruthful(h: seq<Change>, gs: seq<Group>, limit: nat, evs: seq<MarketEvent>, s: Spot,
                       msg: DepthSnapshot, msgLimit: nat)
    requires TruthfulGroups(h, gs, limit) && SpotOf(s, gs, evs) && TruthfulSnapshot(h, msg, msgLimit)
    ensures Truthful(h, s, limit, msg, msgLimit)
  {
    forall k | 0 <= k < |s.all| ensures TruthfulGroup(h, s.all[k], limit) { assert s.all[k] == gs[k]; }
  }

  /** Safe checks never count as failures. */
  lemma {:induction false} QuietChecks(h: seq<Change>, gs: seq<Group>, limit: nat, evs: seq<MarketEvent>, s: Spot,
                                       msgs: seq<DepthSnapshot>, msgLimit: nat, levels: int, t: E.Tally)
    requires TruthfulGroups(h, gs, limit) && SpotOf(s, gs, evs)
    requires forall msg :: msg in msgs ==> SafeCheck(h, s, limit, msg, msgLimit, levels)
    ensures E.CountedAll(t, FeedAfter(evs).book, E.RingAfter(evs), levels, msgs).fail == t.fail
    decreases |msgs|
  {
    if msgs != [] {
      var n := |msgs| - 1;
      QuietChecks(h, gs, limit, evs, s, msgs[..n], msgLimit, levels, t);
      assert msgs[n] in msgs;
      SpotIsTruthful(h, gs, limit, evs, s, msgs[n], msgLimit);
      NoFalseAlarm(h, s, limit, msgs[n], msgLimit, levels);
    }
  }

  /** An engine that has applied part of a truthful stream raises no false alarm on any
      number of safe checks. */
  method CheckQuietly(engine: E.Engine, msgs: seq<DepthSnapshot>, ghost h: seq<Change>, ghost gs: seq<Group>,
                      ghost limit: nat, ghost s: Spot, ghost msgLimit: nat)
    requires engine.Valid() && engine.scratch.Valid()
    requires TruthfulGroups(h, gs, limit) && SpotOf(s, gs, engine.applied)
    requires forall msg :: msg in msgs ==> SafeCheck(h, s, limit, msg, msgLimit, engine.crosscheckLevels)
    modifies engine`crosscheckOk, engine`crosscheckFail, engine`crosscheckSkipped
    modifies engine.scratch, engine.scratch.bids, engine.scratch.asks
    ensures engine.Valid() && engine.crosscheckFail == old(engine.crosscheckFail)
  {
    E.EngineParts(engine.Conf(), engine.applied);
    QuietChecks(h, gs, limit, engine.applied, s, msgs, msgLimit, engine.crosscheckLevels, engine.Counters());
    engine.HandleCrossChecks(msgs);
  }

  // ------------------------------------------------------------- unsafe rings occur

  /** A stream that starts with a snapshot start and has no other. */
  ghost predicate OneStart(evs: seq<MarketEvent>) {
    evs != [] && evs[0].start && E.OnlyFirstStarts(evs)
  }

  lemma {:induction false} RingWhole(evs: seq<MarketEvent>)
    requires OneStart(evs) && |evs| <= E.RING_CAP
    ensures E.RingAfter(evs) == evs
    decreases |evs|
  {
    var n := |evs| - 1;
    if n == 0 {
      assert evs == [evs[0]];
    } else {
      RingWhole(evs[..n]);
      assert evs == evs[..n] + [evs[n]];
    }
  }

  /** One event more than the ring holds: only the newest half is kept. */
  lemma RingHalved(evs: seq<MarketEvent>)
    requires OneStart(evs) && |evs| == E.RING_CAP + 1
    ensures E.RingAfter(evs) == evs[|evs| - E.RING_KEEP..]
  {
    var n := |evs| - 1;
    RingWhole(evs[..n]);
    assert evs == evs[..n] + [evs[n]];
  }

  /** A snapshot at k, then a diff first..final of many events. */
  function Opening(k: nat, first: nat, final: nat): (Group, Group) {
    (SnapGroup(DepthSnapshot(k, [], []), 0),
     DiffGroup(DepthUpdate(first, final, 0, [], Pads(Appear(1, 1, 0), 0, Capacity(E.RING_CAP))), 0))
  }

  lemma OpeningLong(k: nat, first: nat, final: nat)
    ensures |EventsOf(Opening(k, first, final).1)| >= E.RING_CAP
  {
    EventsCounted(Opening(k, first, final).1);
    EventsEnough(Capacity(E.RING_CAP), E.RING_CAP - 1);
  }

  lemma OpeningLegal(k: nat, first: nat, final: nat)
    requires 1 <= first <= k + 1 <= final
    ensures var (g0, g1) := Opening(k, first, final);
      Legal([g0]) && PhaseAfter([g0]) == Await(k) && Legal([g0, g1]) && Admits(Await(k), g1)
  {
    var (g0, g1) := Opening(k, first, final);
    LegalIsContinuity([g0]);
    LegalIsContinuity([g0, g1]);
    PhaseIsLastGroup([g0]);
  }

  lemma ShortSnapshot(t: Tale, k: nat, n: nat)
    requires t.deep == 0
    ensures var g := Told(t, SnapGroup(DepthSnapshot(k, [], []), 0), 0, n);
      |EventsOf(g)| == 1 && EventsOf(g)[0].start
  {
    var g := Told(t, SnapGroup(DepthSnapshot(k, [], []), 0), 0, n);
    EventsCounted(g);
    EventsOfShape(g);
  }

  lemma SnapThenDiff(g0: Group, part: seq<MarketEvent>, g1: Group, m: nat)
    requires |EventsOf(g0)| == 1 && EventsOf(g0)[0].start
    requires g1.DiffGroup? && m <= |EventsOf(g1)| && part == EventsOf(g1)[..m]
    ensures OneStart(EventsOf(g0) + part)
  {
    EventsOfShape(g1);
  }

  /** A truthful check of an engine that raises a false alarm. */
  ghost predicate FalseAlarm(c: Case, l: nat) {
    && WfSpot(c.spot) && Truthful(c.h, c.spot, c.limit, c.msg, c.msgLimit) && Tidy(c) && c.msg.lastId == l
    && RingOf(c.spot) == E.RingAfter(StreamOf(c.spot)) && Alarms(c)
  }

  /** The engine holds a ring that ends inside its bracket message: after a snapshot at k,
      the first j events of a diff that brackets l != k. */
  lemma EarlyEndOccurs(k: nat, first: nat, final: nat, l: nat, j: nat) returns (c: Case)
    requires 1 <= first <= k + 1 <= final && first <= l + 1 <= final && l != k && 0 < j < E.RING_CAP
    ensures FalseAlarm(c, l) && Known(c) && c.spot.j == j
  {
    var (g0, g1) := Opening(k, first, final);
    var s := Spot([g0], g1, j, 0, 0);
    OpeningLong(k, first, final);
    OpeningLegal(k, first, final);
    EventsOfShape(g0);
    c := EndAlarm(s, l);
    ShortSnapshot(EndTale(s, l), k, Capacity(0) + 1);
    EarlyEndRing(c.spot);
  }

  lemma EarlyEndRing(s: Spot)
    requires WfSpot(s) && |s.all| == 1 && s.a == 0 && s.i == 0 && 0 < s.j < E.RING_CAP && s.g.DiffGroup?
    requires |EventsOf(s.all[0])| == 1 && EventsOf(s.all[0])[0].start
    ensures RingOf(s) == E.RingAfter(StreamOf(s))
  {
    var g0, part := s.all[0], EventsOf(s.g)[..s.j];
    OneMessage(s);
    SnapThenDiff(g0, part, s.g, s.j);
    RingWhole(EventsOf(g0) + part);
  }

  lemma OneMessage(s: Spot)
    requires WfSpot(s) && |s.all| == 1 && s.a == 0 && s.i == 0
    ensures StreamOf(s) == EventsOf(s.all[0]) + EventsOf(s.g)[..s.j] && RingOf(s) == StreamOf(s)
  {
    FlattenOne(s.all[0]);
    assert s.all == [s.all[0]] + [] && EventsOf(s.all[0]) + [] == EventsOf(s.all[0]);
    RingOnBoundary(s);
    assert s.all[0..] == s.all;
  }

  // ------------------------------------------------ a trim inside an ordinary message

  lemma {:induction false} FlattenSplit(gs: seq<Group>, a: nat)
    requires a <= |gs|
    ensures Flatten(gs) == Flatten(gs[..a]) + Flatten(gs[a..])
    decreases |gs|
  {
    if a == |gs| {
      assert gs[..a] == gs && gs[a..] == [];
    } else {
      var n := |gs| - 1;
      FlattenSplit(gs[..n], a);
      SplitLast(gs, a);
      Snoc(gs[a..n], gs[n]);
      SeqAssociative(Flatten(gs[..a]), Flatten(gs[a..n]), EventsOf(gs[n]));
    }
  }

  lemma SplitLast(gs: seq<Group>, a: nat)
    requires a < |gs|
    ensures var n := |gs| - 1; gs[..n][..a] == gs[..a] && gs[..n][a..] == gs[a..n] && gs[a..] == gs[a..n] + [gs[n]]
  {
  }

  lemma {:induction false} SingleEvents(gs: seq<Group>)
    requires forall k :: 0 <= k < |gs| ==> |EventsOf(gs[k])| == 1
    ensures |Flatten(gs)| == |gs|
    decreases |gs|
  {
    if gs != [] { SingleEvents(gs[..|gs| - 1]); }
  }

  const MIDDLE: nat := E.RING_CAP - E.RING_KEEP

  /** A snapshot at k, 511 diffs of one id each, a diff of two events, and as many small
      diffs again. */
  function Ordinary(k: nat, width: nat): seq<Group> {
    seq(2 * MIDDLE, (i: nat) => OrdinaryAt(k, width, i))
  }

  function OrdinaryAt(k: nat, width: nat, i: nat): Group {
    if i == 0 then SnapGroup(DepthSnapshot(k, [], []), 0)
    else if i < MIDDLE then Diff(k + i, k + i, 0)
    else if i == MIDDLE then Diff(k + i, k + i + width, Capacity(1) + 1)
    else Diff(k + i + width, k + i + width, 0)
  }

  function Diff(first: nat, final: nat, pads: nat): Group {
    DiffGroup(DepthUpdate(first, final, 0, [], Pads(Appear(1, 1, 0), 0, pads)), 0)
  }

  lemma OrdinaryLegal(k: nat, width: nat)
    ensures Legal(Ordinary(k, width))
  {
    var gs := Ordinary(k, width);
    LegalIsContinuity(gs);
    forall i | 0 <= i < |gs| ensures ContinuousAt(gs, i) {
      assert gs[i] == OrdinaryAt(k, width, i);
      if i > 0 { assert gs[i - 1] == OrdinaryAt(k, width, i - 1); }
    }
  }

  lemma TwoEvents(g: Group)
    requires Capacity(1) < |BidsOf(g)| + |AsksOf(g)| <= Capacity(2)
    ensures |EventsOf(g)| == 2
  {
    EventsCounted(g);
  }

  lemma OneEvent(g: Group)
    requires |BidsOf(g)| + |AsksOf(g)| <= Capacity(1)
    ensures |EventsOf(g)| == 1
  {
    EventsCounted(g);
  }

  lemma OrdinaryHeadLost(k: nat, width: nat, l: nat)
    requires k + MIDDLE <= l + 1 <= k + MIDDLE + width
    ensures var gs := Ordinary(k, width); HeadLost(Spot(gs, gs[0], 0, MIDDLE, 1), l)
  {
    var gs := Ordinary(k, width);
    OrdinaryLegal(k, width);
    assert gs[0] == OrdinaryAt(k, width, 0) && gs[MIDDLE] == OrdinaryAt(k, width, MIDDLE);
    OneEvent(gs[0]);
    TwoEvents(gs[MIDDLE]);
    forall q | 0 <= q < |gs| ensures Ordered(gs[q]) && (q > 0 ==> gs[q].DiffGroup?) {
      assert gs[q] == OrdinaryAt(k, width, q);
    }
  }

  /** The trim lands inside a diff of two events: the ring has lost its first event. */
  lemma TrimInsideOccurs(k: nat, width: nat, l: nat) returns (c: Case)
    requires k + MIDDLE <= l + 1 <= k + MIDDLE + width
    ensures FalseAlarm(c, l) && Known(c) && |c.spot.all| == 2 * MIDDLE && c.spot.j == 0
    ensures c.spot.a == MIDDLE && c.spot.i == 1
    ensures forall q :: 0 <= q < |c.spot.all| ==> |EventsOf(c.spot.all[q])| == if q == MIDDLE then 2 else 1
  {
    var gs := Ordinary(k, width);
    var s := Spot(gs, gs[0], 0, MIDDLE, 1);
    OrdinaryLegal(k, width);
    OrdinaryHeadLost(k, width, l);
    c := FrontAlarm(s, l, Capacity(1) + 1);
    OrdinaryTold(FrontTale(s, l), k, width, c.spot.all);
    TrimmedRing(c.spot);
  }

  lemma OrdinaryTold(t: Tale, k: nat, width: nat, told: seq<Group>)
    requires t.deep == 0 && told == ToldAll(t, Ordinary(k, width), MIDDLE, Capacity(1) + 1)
    ensures |told| == 2 * MIDDLE && told[0].SnapGroup? && forall q :: 0 < q < |told| ==> told[q].DiffGroup?
    ensures forall q :: 0 <= q < |told| ==> |EventsOf(told[q])| == if q == MIDDLE then 2 else 1
  {
    forall q | 0 <= q < |told|
      ensures |EventsOf(told[q])| == (if q == MIDDLE then 2 else 1) && told[q].SnapGroup? == (q == 0)
    {
      var post := if q == MIDDLE then Capacity(1) + 1 else 0;
      assert told[q] == Told(t, OrdinaryAt(k, width, q), 0, post);
      if q == MIDDLE { TwoEvents(told[q]); } else { OneEvent(told[q]); }
    }
  }

  lemma TrimmedRing(s: Spot)
    requires WfSpot(s) && |s.all| == 2 * MIDDLE && s.a == MIDDLE && s.i == 1 && s.j == 0
    requires s.all[0].SnapGroup? && forall q :: 0 < q < |s.all| ==> s.all[q].DiffGroup?
    requires forall q :: 0 <= q < |s.all| ==> |EventsOf(s.all[q])| == if q == MIDDLE then 2 else 1
    ensures RingOf(s) == E.RingAfter(StreamOf(s))
  {
    var evs := Flatten(s.all);
    FragmentNone(evs, s.g);
    OrdinaryCount(s.all);
    OneStartHere(s.all);
    RingHalved(evs);
    TrimmedSuffix(s);
  }

  lemma OrdinaryCount(gs: seq<Group>)
    requires |gs| == 2 * MIDDLE
    requires forall q :: 0 <= q < |gs| ==> |EventsOf(gs[q])| == if q == MIDDLE then 2 else 1
    ensures |Flatten(gs)| == E.RING_CAP + 1 && |Flatten(gs[..MIDDLE])| == MIDDLE
    ensures Flatten(gs) == Flatten(gs[..MIDDLE]) + (EventsOf(gs[MIDDLE]) + Flatten(gs[MIDDLE + 1..]))
  {
    FlattenSplit(gs, MIDDLE);
    FlattenFrom(gs, MIDDLE);
    SingleEvents(gs[..MIDDLE]);
    SingleEvents(gs[MIDDLE + 1..]);
  }

  lemma OneStartHere(gs: seq<Group>)
    requires gs != [] && gs[0].SnapGroup? && |EventsOf(gs[0])| == 1
    requires forall q :: 0 < q < |gs| ==> gs[q].DiffGroup?
    ensures OneStart(Flatten(gs))
  {
    FlattenFrom(gs, 0);
    assert gs[0..] == gs;
    EventsOfShape(gs[0]);
    forall e | e in Flatten(gs[1..]) ensures !e.start {
      FlattenEvents(gs[1..], e);
      var q :| 0 <= q < |gs[1..]| && e in EventsOf(gs[1..][q]);
      EventsOfShape(gs[q + 1]);
    }
  }

  lemma TrimmedSuffix(s: Spot)
    requires WfSpot(s) && |s.all| == 2 * MIDDLE && s.a == MIDDLE && s.i == 1 && s.j == 0
    requires forall q :: 0 <= q < |s.all| ==> |EventsOf(s.all[q])| == if q == MIDDLE then 2 else 1
    ensures |Flatten(s.all)| > MIDDLE && RingOf(s) == Flatten(s.all)[MIDDLE + 1..]
  {
    OrdinaryCount(s.all);
    var pre, mid, rest := Flatten(s.all[..MIDDLE]), EventsOf(s.all[MIDDLE]), Flatten(s.all[MIDDLE + 1..]);
    FragmentNone(rest, s.g);
    assert (pre + (mid + rest))[MIDDLE + 1..] == mid[1..] + rest;
  }

  // ----------------------------------------------------- a listing that was cut short

  /** Also a ring that holds its bracket message whole: with a snapshot at k and one diff,
      each of one event, a truthful REST listing of the best levels at l is enough. */
  lemma CutListingOccurs(k: nat, first: nat, final: nat, l: nat) returns (c: Case)
    requires 1 <= first <= k + 1 <= final && first <= l + 1 <= final
    ensures FalseAlarm(c, l) && FrontSafe(c.spot, l) && EndSafe(c.spot, l)
    ensures |c.spot.all| == 2 && c.spot.j == 0 && |RingOf(c.spot)| == 2 && RingOf(c.spot) == StreamOf(c.spot)
  {
    var s := PairSpot(k, first, final);
    EventsOfShape(s.all[0]);
    c := CutPair(s, l);
    PairRing(CutTale(s, l), s, l, Capacity(s.i) + 1, Capacity(s.j) + 1, c.spot);
    AlarmOf(c, s, l);
  }

  /** A whole snapshot and a whole diff that brackets it and l. */
  predicate Pair(s: Spot, l: nat) {
    && |s.all| == 2 && s.j == 0 && s.a == 0 && s.i == 0 && |EventsOf(s.g)| > 0 && |EventsOf(s.all[0])| > 0
    && s.all[0].SnapGroup? && Brackets(s.all[1], s.all[0].snap.lastId) && Brackets(s.all[1], l)
    && s.all[1].upd.firstId >= 1
  }

  lemma PairPlausible(s: Spot, l: nat)
    requires Pair(s, l)
    ensures WfSpot(s) && Plausible(s) && BracketInRing(s, l)
  {
    LegalIsContinuity(s.all);
    forall i | 0 <= i < 2 ensures ContinuousAt(s.all, i) {
    }
  }

  lemma CutPair(s: Spot, l: nat) returns (c: Case)
    requires Pair(s, l)
    ensures Fits(c, s, l) && Alarms(c)
    ensures c.spot == ToldSpot(CutTale(s, l), s, Capacity(s.i) + 1, 0, Capacity(s.j) + 1)
  {
    PairPlausible(s, l);
    c := CutAlarm(s, l);
  }

  lemma AlarmOf(c: Case, s: Spot, l: nat)
    requires Fits(c, s, l) && Alarms(c) && RingOf(c.spot) == E.RingAfter(StreamOf(c.spot))
    ensures FalseAlarm(c, l)
  {
  }

  lemma PairRing(t: Tale, s: Spot, l: nat, n: nat, post: nat, s': Spot)
    requires t.deep == 0 && Pair(s, l) && s' == ToldSpot(t, s, n, 0, post) && WfSpot(s')
    ensures FrontSafe(s', l) && EndSafe(s', l) && |s'.all| == 2 && s'.j == 0
    ensures RingOf(s') == StreamOf(s') && |RingOf(s')| == 2 && RingOf(s') == E.RingAfter(StreamOf(s'))
  {
    PairTold(t, s, l, n, s'.all);
    TwoWhole(s');
  }

  /** A snapshot at k and one diff, both whole in the ring. */
  function PairSpot(k: nat, first: nat, final: nat): Spot {
    var g0 := SnapGroup(DepthSnapshot(k, [], []), 0);
    Spot([g0, Diff(first, final, 0)], g0, 0, 0, 0)
  }

  lemma PairTold(t: Tale, s: Spot, l: nat, n: nat, told: seq<Group>)
    requires t.deep == 0 && Pair(s, l) && told == ToldAll(t, s.all, 0, n)
    ensures |told| == 2 && told[0].SnapGroup? && told[1].DiffGroup?
    ensures |EventsOf(told[0])| == 1 && |EventsOf(told[1])| == 1
  {
    OneEvent(told[0]);
    OneEvent(told[1]);
  }

  lemma TwoWhole(s: Spot)
    requires WfSpot(s) && |s.all| == 2 && s.a == 0 && s.i == 0 && s.j == 0
    requires s.all[0].SnapGroup? && s.all[1].DiffGroup?
    requires |EventsOf(s.all[0])| == 1 && |EventsOf(s.all[1])| == 1
    ensures RingOf(s) == StreamOf(s) && |RingOf(s)| == 2 && RingOf(s) == E.RingAfter(StreamOf(s))
  {
    RingOnBoundary(s);
    assert s.all[0..] == s.all;
    FragmentNone(Flatten(s.all), s.g);
    SingleEvents(s.all);
    OneStartHere(s.all);
    RingWhole(Flatten(s.all));
  }

  // ---------------------------------------------------------- one very long message

  /** The engine holds a ring that lost the head of its bracket message: after a
      snapshot at k and a diff of 1024 events, the trim leaves the last 512 of them. */
  lemma LostHeadOccurs(k: nat, first: nat, final: nat, l: nat) returns (c: Case)
    requires 1 <= first <= k + 1 <= final && first <= l + 1 <= final
    ensures FalseAlarm(c, l) && Known(c) && c.spot.j == 0
  {
    var (g0, g1) := Opening(k, first, final);
    var s := Spot([g0, g1], g0, 0, 1, E.RING_KEEP);
    OpeningLong(k, first, final);
    OpeningLegal(k, first, final);
    EventsOfShape(g0);
    var n := Capacity(E.RING_CAP) - 1;
    c := FrontAlarm(s, l, n);
    var t := FrontTale(s, l);
    ShortSnapshot(t, k, 0);
    EventsCounted(Told(t, g1, 0, n));
    LostHeadRing(c.spot);
  }

  lemma LostHeadRing(s: Spot)
    requires WfSpot(s) && |s.all| == 2 && s.a == 1 && s.i == E.RING_KEEP && s.j == 0 && s.all[1].DiffGroup?
    requires |EventsOf(s.all[0])| == 1 && EventsOf(s.all[0])[0].start && |EventsOf(s.all[1])| == E.RING_CAP
    ensures RingOf(s) == E.RingAfter(StreamOf(s))
  {
    var g0, g1 := s.all[0], s.all[1];
    var evs := EventsOf(g0) + EventsOf(g1);
    TwoMessages(s);
    assert EventsOf(g1)[..E.RING_CAP] == EventsOf(g1);
    SnapThenDiff(g0, EventsOf(g1), g1, E.RING_CAP);
    RingHalved(evs);
    assert evs[|evs| - E.RING_KEEP..] == EventsOf(g1)[E.RING_KEEP..];
  }

  lemma TwoMessages(s: Spot)
    requires WfSpot(s) && |s.all| == 2 && s.a == 1 && s.j == 0
    ensures StreamOf(s) == EventsOf(s.all[0]) + EventsOf(s.all[1]) && RingOf(s) == EventsOf(s.all[1])[s.i..]
  {
    FlattenFrom(s.all, 0);
    FlattenFrom(s.all, 1);
    assert s.all[0..] == s.all && s.all[2..] == [] && Flatten(s.all[2..]) == [];
    FragmentNone([], s.g);
    Trailing(EventsOf(s.all[0]), EventsOf(s.all[1]), s.i);
  }

  lemma Trailing(a: seq<MarketEvent>, b: seq<MarketEvent>, i: nat)
    requires i <= |b|
    ensures b + [] == b && (a + b) + [] == a + b && b[i..] + ([] + []) == b[i..]
  {
  }
}
