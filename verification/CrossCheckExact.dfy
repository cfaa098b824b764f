/** What the ids of a ring decide about the check, and what books that follow a tale show
    at the top. */
module CrossCheckExact {
  import opened Events
  import opened BookSide
  import opened Book
  import opened Fragmenter
  import opened Protocol
  import opened Exchange
  import opened Feed
  import opened Reconstruction
  import opened CrossCheck
  import opened Tales

  // ------------------------------------------------------------- the same ids

  predicate SameIds(g: Group, g': Group) {
    match (g, g')
    case (SnapGroup(s, _), SnapGroup(s', _)) => s.lastId == s'.lastId
    case (DiffGroup(u, _), DiffGroup(u', _)) => u.firstId == u'.firstId && u.finalId == u'.finalId
    case _ => false
  }

  ghost predicate AllSameIds(gs: seq<Group>, gs': seq<Group>) {
    |gs| == |gs'| && forall k :: 0 <= k < |gs| ==> SameIds(gs[k], gs'[k])
  }

  /** Two moments that differ only in the levels their messages carry. */
  ghost predicate SameShape(s: Spot, s': Spot) {
    AllSameIds(s.all, s'.all) && SameIds(s.g, s'.g) && s.j == s'.j && s.a == s'.a && s.i == s'.i
  }

  lemma SameIdsLegal(gs: seq<Group>, gs': seq<Group>)
    requires AllSameIds(gs, gs') && Legal(gs)
    ensures Legal(gs') && PhaseAfter(gs') == PhaseAfter(gs)
  {
    LegalIsContinuity(gs);
    LegalIsContinuity(gs');
    forall k | 0 <= k < |gs'| ensures ContinuousAt(gs', k) {
      assert ContinuousAt(gs, k) && SameIds(gs[k], gs'[k]);
      if k > 0 { assert SameIds(gs[k - 1], gs'[k - 1]); }
    }
    PhaseIsLastGroup(gs);
    PhaseIsLastGroup(gs');
    if gs != [] { assert SameIds(gs[|gs| - 1], gs'[|gs'| - 1]); }
  }

  lemma SameShapeSafe(s: Spot, s': Spot, l: nat)
    requires SameShape(s, s') && Legal(s.all) && s.a <= |s.all|
    ensures FrontSafe(s, l) == FrontSafe(s', l) && EndSafe(s, l) == EndSafe(s', l)
  {
    SameIdsLegal(s.all, s'.all);
    if s.a < |s.all| { assert SameIds(s.all[s.a], s'.all[s.a]); }
  }

  predicate Ordered(g: Group) {
    g.DiffGroup? ==> 1 <= g.upd.firstId <= g.upd.finalId
  }

  /** An arrangement of ids the engine can meet: a legal stream, and a ring that holds
      no snapshot behind its first message, since a snapshot start empties it. */
  ghost predicate Plausible(s: Spot) {
    && Legal(s.all) && (forall k :: 0 <= k < |s.all| ==> Ordered(s.all[k]))
    && (s.j > 0 ==> Admits(PhaseAfter(s.all), s.g) && Ordered(s.g))
    && (forall k :: s.a < k < |s.all| ==> s.all[k].DiffGroup?)
    && (s.a < |s.all| && s.j > 0 ==> s.g.DiffGroup?)
  }

  function IdOf(g: Group): nat {
    if g.SnapGroup? then g.snap.lastId else g.upd.finalId
  }

  /** Behind a diff the final ids only grow. */
  lemma {:induction false} IdsGrow(gs: seq<Group>, a: nat, k: nat)
    requires Legal(gs) && a <= k < |gs| && (forall n :: 0 <= n < |gs| ==> Ordered(gs[n]))
    requires forall n :: a < n < |gs| ==> gs[n].DiffGroup?
    requires gs[a].DiffGroup?
    ensures gs[k].DiffGroup? && gs[a].upd.finalId <= gs[k].upd.finalId
    ensures k > a ==> gs[a].upd.finalId < gs[k].upd.firstId
    decreases k
  {
    LegalIsContinuity(gs);
    if k > a {
      IdsGrow(gs, a, k - 1);
      assert ContinuousAt(gs, k) && Ordered(gs[k]);
    }
  }

  // --------------------------------------------------- which replays get through

  /** A message with an event in the ring brackets l. */
  ghost predicate BracketInRing(s: Spot, l: nat) {
    (exists k :: s.a <= k < |s.all| && Brackets(s.all[k], l)) || (s.j > 0 && Brackets(s.g, l))
  }

  /** A ring of diffs whose first one brackets l is applied from end to end. */
  lemma {:induction false} AllApplied(b: BookView, ring: seq<MarketEvent>, l: nat, side: Side)
    requires ring != [] && forall e :: e in ring ==> e.kind == DepthDiff
    requires ring[0].firstId <= l + 1 <= ring[0].finalId
    ensures var r := ReplayAfter(b, ring, l); r.started && !r.skipped
    ensures Taken(b, ring, l, side) == AllLevels(ring, side)
    decreases |ring|
  {
    var n := |ring| - 1;
    var pre, e := ring[..n], ring[n];
    assert e in ring && ring == pre + [e];
    ReplaySnoc(b, pre, e, l);
    TakenSnoc(b, pre, e, l, side);
    AllLevelsSnoc(pre, e, side);
    if pre != [] { AllApplied(b, pre, l, side); }
  }

  lemma {:induction false} FlattenLevels(gs: seq<Group>, side: Side, l: Level)
    requires l in AllLevels(Flatten(gs), side)
    ensures exists k :: 0 <= k < |gs| && l in LevelsOf(gs[k], side)
    decreases |gs|
  {
    if gs != [] {
      var n := |gs| - 1;
      LevelsConcat(Flatten(gs[..n]), EventsOf(gs[n]));
      GroupIsOneStep(EMPTY, gs[n]);
      if l !in LevelsOf(gs[n], side) {
        FlattenLevels(gs[..n], side, l);
        var k :| 0 <= k < n && l in LevelsOf(gs[..n][k], side);
        assert gs[..n][k] == gs[k];
      }
    }
  }

  lemma {:induction false} FlattenEvents(gs: seq<Group>, e: MarketEvent)
    requires e in Flatten(gs)
    ensures exists k :: 0 <= k < |gs| && e in EventsOf(gs[k])
    decreases |gs|
  {
    if gs != [] {
      var n := |gs| - 1;
      if e !in EventsOf(gs[n]) {
        FlattenEvents(gs[..n], e);
        var k :| 0 <= k < n && e in EventsOf(gs[..n][k]);
        assert gs[..n][k] == gs[k];
      }
    }
  }

  /** Message number k, number |all| being the one still arriving. */
  function MessageAt(s: Spot, k: nat): Group {
    if k < |s.all| then s.all[k] else s.g
  }

  lemma InThree(a: seq<MarketEvent>, b: seq<MarketEvent>, c: seq<MarketEvent>, e: MarketEvent)
    ensures e in a + (b + c) <==> e in a || e in b || e in c
  {
  }

  lemma LaterEvent(s: Spot, e: MarketEvent) returns (k: nat)
    requires s.a < |s.all| && e in Flatten(s.all[s.a + 1..])
    ensures s.a < k < |s.all| && e in EventsOf(s.all[k])
  {
    var rest := s.all[s.a + 1..];
    FlattenEvents(rest, e);
    var n :| 0 <= n < |rest| && e in EventsOf(rest[n]);
    k := s.a + 1 + n;
  }

  /** The message that an event of the ring belongs to. */
  lemma RingEvent(s: Spot, e: MarketEvent) returns (k: nat)
    requires WfSpot(s) && e in RingOf(s)
    ensures s.a <= k <= |s.all| && e in EventsOf(MessageAt(s, k)) && (k == |s.all| ==> s.j > 0)
  {
    if s.a == |s.all| {
      k := s.a;
    } else {
      var front, mid, part := EventsOf(s.all[s.a])[s.i..], Flatten(s.all[s.a + 1..]), EventsOf(s.g)[..s.j];
      InThree(front, mid, part, e);
      if e in front {
        k := s.a;
      } else if e in part {
        k := |s.all|;
      } else {
        k := LaterEvent(s, e);
      }
    }
  }

  lemma {:induction false} StartedByBracket(b: BookView, ring: seq<MarketEvent>, l: nat)
    requires ReplayAfter(b, ring, l).started
    ensures exists e :: e in ring && e.kind == DepthDiff && e.firstId <= l + 1 <= e.finalId
    decreases |ring|
  {
    var n := |ring| - 1;
    if ReplayAfter(b, ring[..n], l).started {
      StartedByBracket(b, ring[..n], l);
    } else {
      assert ring[n] in ring;
    }
  }

  lemma GroupKinds(g: Group, e: MarketEvent)
    requires e in EventsOf(g)
    ensures e.kind == DepthDiff <==> g.DiffGroup?
    ensures g.DiffGroup? ==> e.firstId == g.upd.firstId && e.finalId == g.upd.finalId
  {
    EventsOfShape(g);
  }

  lemma BracketEvent(s: Spot, e: MarketEvent, l: nat)
    requires WfSpot(s) && e in RingOf(s) && e.kind == DepthDiff && e.firstId <= l + 1 <= e.finalId
    ensures BracketInRing(s, l)
  {
    var k := RingEvent(s, e);
    GroupKinds(MessageAt(s, k), e);
  }

  /** Without a bracket message in the ring the check gives no answer. */
  lemma NoBracketNoAnswer(s: Spot, live: BookView, msg: DepthSnapshot, levels: int)
    requires WfSpot(s) && !BracketInRing(s, msg.lastId)
    ensures CrossChecked(live, msg, RingOf(s), levels) == Skipped
  {
    if ReplayAfter(Seeded(msg), RingOf(s), msg.lastId).started {
      StartedByBracket(Seeded(msg), RingOf(s), msg.lastId);
      var e :| e in RingOf(s) && e.kind == DepthDiff && e.firstId <= msg.lastId + 1 <= e.finalId;
      BracketEvent(s, e, msg.lastId);
    }
  }

  /** The same moment with the ring starting at its first message that brackets l. */
  function FromBracket(s: Spot, l: nat): (r: Spot)
    ensures r.all == s.all && r.g == s.g && r.j == s.j && s.a <= r.a && (s.a <= |s.all| ==> r.a <= |s.all|)
    ensures r.i == if r.a == s.a then s.i else 0
    decreases |s.all| - s.a
  {
    if s.a < |s.all| && !Brackets(s.all[s.a], l) then FromBracket(Skipping(s), l) else s
  }

  /** In front of a bracket message the ring holds only snapshots and diffs up to l. */
  lemma BeforeBracket(s: Spot, l: nat)
    requires WfSpot(s) && Plausible(s) && BracketInRing(s, l) && s.a < |s.all| && !Brackets(s.all[s.a], l)
    ensures s.all[s.a].DiffGroup? ==> s.all[s.a].upd.finalId <= l
    ensures BracketInRing(Skipping(s), l)
  {
    if k :| s.a <= k < |s.all| && Brackets(s.all[k], l) {
      if s.all[s.a].DiffGroup? { IdsGrow(s.all, s.a, k); }
    } else if s.all[s.a].DiffGroup? {
      PhaseIsLastGroup(s.all);
      IdsGrow(s.all, s.a, |s.all| - 1);
    }
  }

  lemma RingKind(s: Spot, l: nat, e: MarketEvent)
    requires WfSpot(s) && Plausible(s) && Brackets(Foremost(s), l) && e in RingOf(s)
    ensures e.kind == DepthDiff
  {
    var k := RingEvent(s, e);
    DiffAt(s, l, k);
    GroupKinds(MessageAt(s, k), e);
  }

  lemma DiffAt(s: Spot, l: nat, k: nat)
    requires Plausible(s) && s.a <= k <= |s.all| && Brackets(Foremost(s), l) && (k == |s.all| ==> s.j > 0)
    ensures MessageAt(s, k).DiffGroup?
  {
  }

  /** A ring that starts in a message that brackets l is applied from end to end. */
  lemma BracketReplays(s: Spot, b: BookView, l: nat, side: Side)
    requires WfSpot(s) && Plausible(s) && Brackets(Foremost(s), l) && (s.a < |s.all| || s.j > 0)
    ensures var r := ReplayAfter(b, RingOf(s), l); r.started && !r.skipped
    ensures Taken(b, RingOf(s), l, side) == AllLevels(RingOf(s), side)
  {
    RingStarts(s);
    GroupKinds(Foremost(s), RingOf(s)[0]);
    forall e | e in RingOf(s) ensures e.kind == DepthDiff { RingKind(s, l, e); }
    AllApplied(b, RingOf(s), l, side);
  }

  lemma FirstPassed(s: Spot, b: BookView, l: nat, side: Side)
    requires WfSpot(s) && s.a < |s.all| && (s.all[s.a].DiffGroup? ==> s.all[s.a].upd.finalId <= l)
    ensures WfSpot(Skipping(s))
    ensures ReplayAfter(b, RingOf(s), l) == ReplayAfter(b, RingOf(Skipping(s)), l)
    ensures Taken(b, RingOf(s), l, side) == Taken(b, RingOf(Skipping(s)), l, side)
  {
    CutSplits(s);
    var evs := EventsOf(s.all[s.a]);
    TailKinds(s.all[s.a], s.i, |evs|, l);
    assert evs[s.i..] == evs[s.i..|evs|];
    FrontDropped(b, evs[s.i..], RingOf(Skipping(s)), l, side);
  }

  lemma {:induction false} BracketFound(s: Spot, l: nat)
    requires WfSpot(s) && Plausible(s) && BracketInRing(s, l)
    ensures var s1 := FromBracket(s, l);
      WfSpot(s1) && Plausible(s1) && Brackets(Foremost(s1), l) && (s1.a < |s.all| || s.j > 0)
    decreases |s.all| - s.a
  {
    if s.a < |s.all| && !Brackets(s.all[s.a], l) {
      BeforeBracket(s, l);
      SkippingWf(s);
      BracketFound(Skipping(s), l);
    }
  }

  /** A replay gets through if a message in the ring brackets l, and it takes the events
      from that message on. */
  lemma {:induction false} GetsThrough(s: Spot, b: BookView, l: nat, side: Side)
    requires WfSpot(s) && Plausible(s) && BracketInRing(s, l)
    ensures WfSpot(FromBracket(s, l))
    ensures var r := ReplayAfter(b, RingOf(s), l); r.started && !r.skipped
    ensures Taken(b, RingOf(s), l, side) == AllLevels(RingOf(FromBracket(s, l)), side)
    decreases |s.all| - s.a
  {
    if s.a == |s.all| || Brackets(s.all[s.a], l) {
      BracketReplays(s, b, l, side);
    } else {
      BeforeBracket(s, l);
      FirstPassed(s, b, l, side);
      GetsThrough(Skipping(s), b, l, side);
    }
  }

  // ------------------------------------------------------ books that follow a tale

  /** A level that a tale can mention. */
  predicate OfTale(side: Side, l: Level) {
    if side.Bid? then l == BID else l.qty == 0 || l.px >= FLOOR || l.px in TopPrices(Ask)
  }

  function TopPrices(side: Side): set<int> {
    if side.Bid? then {9} else {19, 20, 21, 22}
  }

  /** No worse than this is the top of the side. */
  function Mark(side: Side): int {
    if side.Bid? then 9 else 99
  }

  ghost predicate AllOfTale(side: Side, ls: seq<Level>) {
    forall l :: l in ls ==> OfTale(side, l)
  }

  lemma FewTops(side: Side, ls: seq<Level>)
    requires AllOfTale(side, ls)
    ensures FewFrom(side, ls, Mark(side), TopPrices(side)) && |TopPrices(side)| < MAX_LEVELS
  {
    assert |TopPrices(side)| <= 4;
  }

  /** A side that hears only of the tale forgets nothing near the top. */
  lemma StaysClear(side: Side, s: seq<Level>, h: Option<int>, ls: seq<Level>)
    requires Wf(side, s) && AllOfTale(side, s) && AllOfTale(side, ls) && Inside(side, Mark(side), h)
    ensures Inside(side, Mark(side), Horizon(side, s, h, ls))
    ensures AllOfTale(side, AppliedAll(side, s, ls))
  {
    FewTops(side, s);
    FewTops(side, ls);
    HorizonStaysOut(side, s, h, ls, Mark(side), TopPrices(side));
    AppliedAllOrigin(side, s, ls);
  }

  /** Messages that mention only the tale, and no listing reaches the limit. */
  ghost predicate GroupOfTale(g: Group, limit: nat) {
    forall side :: AllOfTale(side, LevelsOf(g, side)) && (g.SnapGroup? ==> |LevelsOf(g, side)| < limit)
  }

  ghost predicate GroupsOfTale(gs: seq<Group>, limit: nat) {
    forall k :: 0 <= k < |gs| ==> GroupOfTale(gs[k], limit)
  }

  lemma LastOfTale(gs: seq<Group>, limit: nat)
    requires gs != [] && GroupsOfTale(gs, limit)
    ensures var n := |gs| - 1; GroupsOfTale(gs[..n], limit) && GroupOfTale(gs[n], limit) && gs == gs[..n] + [gs[n]]
  {
  }

  lemma {:induction false} LiveClear(gs: seq<Group>, limit: nat, side: Side)
    requires GroupsOfTale(gs, limit)
    ensures Inside(side, Mark(side), GroupHorizon(gs, side, limit))
    ensures AllOfTale(side, SideOf(FeedAfter(Flatten(gs)).book, side))
    decreases |gs|
  {
    if gs != [] {
      var n := |gs| - 1;
      var pre, g := gs[..n], gs[n];
      LastOfTale(gs, limit);
      LiveClear(pre, limit, side);
      LiveClearStep(pre, g, limit, side);
    }
  }

  lemma LiveClearStep(pre: seq<Group>, g: Group, limit: nat, side: Side)
    requires GroupOfTale(g, limit) && Inside(side, Mark(side), GroupHorizon(pre, side, limit))
    requires AllOfTale(side, SideOf(FeedAfter(Flatten(pre)).book, side))
    ensures Inside(side, Mark(side), GroupHorizon(pre + [g], side, limit))
    ensures AllOfTale(side, SideOf(FeedAfter(Flatten(pre + [g])).book, side))
  {
    Snoc(pre, g);
    HorizonSnoc(pre, g, side, limit);
    FeedGroup(Flatten(pre), g, side);
    FeedWf(Flatten(pre));
    if g.SnapGroup? {
      StaysClear(side, [], None, LevelsOf(g, side));
    } else {
      StaysClear(side, SideOf(FeedAfter(Flatten(pre)).book, side), GroupHorizon(pre, side, limit), LevelsOf(g, side));
    }
  }

  function PartOf(s: Spot, side: Side): seq<Level>
    requires WfSpot(s)
  {
    AllLevels(EventsOf(s.g)[..s.j], side)
  }

  lemma PartLevels(g: Group, j: nat, side: Side, l: Level)
    requires j <= |EventsOf(g)| && l in AllLevels(EventsOf(g)[..j], side)
    ensures l in LevelsOf(g, side)
  {
    var evs := EventsOf(g);
    LevelsConcat(evs[..j], evs[j..]);
    assert evs == evs[..j] + evs[j..];
    GroupIsOneStep(EMPTY, g);
  }

  /** A moment at which everything truthfully tells t. */
  ghost predicate Story(t: Tale, s: Spot, limit: nat) {
    && WfTale(t) && WfSpot(s) && Plausible(s) && s.all != []
    && TruthfulGroups(HistoryOf(t), s.all, limit) && GroupsOfTale(s.all, limit)
    && (s.j > 0 ==> s.g.DiffGroup? && TruthfulGroup(HistoryOf(t), s.g, limit) && GroupOfTale(s.g, limit))
  }

  lemma PartOfTale(t: Tale, s: Spot, limit: nat, side: Side)
    requires Story(t, s, limit)
    ensures AllOfTale(side, PartOf(s, side))
  {
    if s.j == 0 {
      assert EventsOf(s.g)[..0] == [];
    } else {
      forall v | v in PartOf(s, side) ensures OfTale(side, v) { PartLevels(s.g, s.j, side, v); }
    }
  }

  lemma LiveKnows(t: Tale, s: Spot, limit: nat, side: Side)
    requires Story(t, s, limit)
    ensures Inside(side, Mark(side), LiveHorizon(s.all, s.g, s.j, limit, side))
  {
    LiveClear(s.all, limit, side);
    PartOfTale(t, s, limit, side);
    FeedWf(Flatten(s.all));
    StaysClear(side, SideOf(FeedAfter(Flatten(s.all)).book, side), GroupHorizon(s.all, side, limit), PartOf(s, side));
  }

  /** px is the best ask of m. */
  ghost predicate BestAsk(m: map<int, int>, px: int) {
    QtyAt(m, px) == 1 && forall p :: p < px ==> QtyAt(m, p) == 0
  }

  lemma BestIsTop(s: seq<Level>, m: map<int, int>, h: Option<int>, px: int)
    requires Tracks(Ask, s, m, h) && Inside(Ask, Mark(Ask), h) && px <= Mark(Ask) && BestAsk(m, px)
    requires forall p :: p in m ==> m[p] != 0
    ensures NthFromTop(s, 0) == Some(Level(px, 1))
  {
    forall p | p in m ensures p >= px { assert QtyAt(m, p) == m[p]; }
    TopIsBest(Ask, s, m, h, Level(px, 1));
  }

  /** The best ask of the live book is that of the reference map. */
  lemma LiveTop(t: Tale, s: Spot, limit: nat, px: int)
    requires Story(t, s, limit) && px <= Mark(Ask)
    requires !PhaseAfter(s.all).Idle? && SeenId(PhaseAfter(s.all)) <= t.last
    requires BestAsk(UpdatedAll(Truth(HistoryOf(t), Ask, SeenId(PhaseAfter(s.all))), PartOf(s, Ask)), px)
    ensures NthFromTop(FeedAfter(StreamOf(s)).book.asks, 0) == Some(Level(px, 1))
  {
    var m := Truth(HistoryOf(t), Ask, SeenId(PhaseAfter(s.all)));
    LiveTracks(HistoryOf(t), s.all, s.g, s.j, limit, Ask);
    LiveKnows(t, s, limit, Ask);
    TruthNonZero(HistoryOf(t), Ask, SeenId(PhaseAfter(s.all)));
    UpdatedAllNonZero(m, PartOf(s, Ask));
    BestIsTop(FeedAfter(StreamOf(s)).book.asks, UpdatedAll(m, PartOf(s, Ask)),
              LiveHorizon(s.all, s.g, s.j, limit, Ask), px);
  }

  lemma TopsDiffer(scratch: BookView, live: BookView, a: Level, b: Level)
    requires NthFromTop(scratch.asks, 0) == Some(a) && NthFromTop(live.asks, 0) == Some(b) && a != b
    requires scratch.bids != []
    ensures Compared(scratch, live, 1) == Mismatch
  {
    assert !AgreeAt(scratch, live, 0);
  }

  // -------------------------------------------------------------- news and best asks

  /** Nothing but the news of the tale, and prices far from the top. */
  ghost predicate Says(t: Tale, ls: seq<Level>) {
    forall l :: l in ls ==> l in News(t) || (l.qty == 0 && l.px >= FLOOR)
  }

  lemma SaysOfTale(t: Tale, ls: seq<Level>)
    requires Says(t, ls)
    ensures AllOfTale(Ask, ls)
  {
  }

  /** A quantity near the top after updates that carry news or not. */
  lemma AfterNews(t: Tale, m: map<int, int>, ls: seq<Level>, l: Level)
    requires Says(t, ls) && l in News(t)
    ensures QtyAt(UpdatedAll(m, ls), l.px) == if l in ls then l.qty else QtyAt(m, l.px)
  {
    QtyAfter(m, ls, l.px, l.qty);
    if l.px in Prices(ls) {
      var v :| v in ls && v.px == l.px;
    }
  }

  lemma AfterOther(t: Tale, m: map<int, int>, ls: seq<Level>, px: int)
    requires Says(t, ls) && px < FLOOR && px !in Prices(News(t))
    ensures QtyAt(UpdatedAll(m, ls), px) == QtyAt(m, px)
  {
    forall l | l in ls ensures l.px != px {
      if l in News(t) { assert l.px in Prices(News(t)); }
    }
    QtyAfter(m, ls, px, 0);
  }

  /** m is the exchange's ask side at id k of the tale. */
  ghost predicate AsksAt(t: Tale, m: map<int, int>, k: nat) {
    forall px :: QtyAt(m, px) == Offered(t, k, px)
  }

  /** A better ask appears. */
  lemma AppearBest(t: Tale, m: map<int, int>, k: nat, ls: seq<Level>)
    requires t.Appear? && AsksAt(t, m, k) && Says(t, ls)
    ensures BestAsk(UpdatedAll(m, ls), if t.x <= k || Level(19, 1) in ls then 19 else 20)
  {
    AfterNews(t, m, ls, Level(19, 1));
    forall px | px < FLOOR && px != 19 ensures QtyAt(UpdatedAll(m, ls), px) == Offered(t, k, px) {
      AfterOther(t, m, ls, px);
    }
  }

  /** The best ask goes away. */
  lemma LeaveBest(t: Tale, m: map<int, int>, k: nat, ls: seq<Level>)
    requires t.Leave? && AsksAt(t, m, k) && Says(t, ls) && (t.x <= k || Level(20, 0) in ls)
    ensures BestAsk(UpdatedAll(m, ls), 21)
  {
    AfterNews(t, m, ls, Level(20, 0));
    forall px | px < 20 || px == 21 ensures QtyAt(UpdatedAll(m, ls), px) == Offered(t, k, px) {
      AfterOther(t, m, ls, px);
    }
  }

  /** A book that was told only of ask 20 never hears of ask 21. */
  lemma CutBest(t: Tale, ls: seq<Level>)
    requires t.Leave? && Says(t, ls) && (Level(20, 0) in ls ==> Level(22, 1) in ls)
    ensures BestAsk(UpdatedAll(map[20 := 1], ls), if Level(20, 0) in ls then 22 else 20)
  {
    var m := map[20 := 1];
    AfterNews(t, m, ls, Level(20, 0));
    AfterNews(t, m, ls, Level(22, 1));
    forall px | px < 20 || px == 21 ensures QtyAt(UpdatedAll(m, ls), px) == 0 {
      AfterOther(t, m, ls, px);
    }
  }
}
