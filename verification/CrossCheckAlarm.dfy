/** False alarms. For every ring that loses the head of its bracket message, and for every
    ring that ends inside a bracket message which does not start right at l, there is a
    truthful history on which the check reports a mismatch although all levels it compares
    are known to both books. With a REST listing that was cut short, every ring that gets
    through has such a history. */
module CrossCheckAlarm {
  import opened Events
  import opened BookSide
  import opened Book
  import opened Fragmenter
  import opened Protocol
  import opened Exchange
  import opened Feed
  import opened Reconstruction
  import opened CrossCheck
  import opened Tales
  import opened CrossCheckExact

  /** One check in one world. */
  datatype Case = Case(h: seq<Change>, spot: Spot, limit: nat, msg: DepthSnapshot, msgLimit: nat, levels: int)

  /** Every listing names each price at most once. */
  ghost predicate Tidy(c: Case) {
    && (forall k :: 0 <= k < |c.spot.all| ==> Proper(c.spot.all[k]))
    && (c.spot.j > 0 ==> Proper(c.spot.g))
    && OncePerPrice(c.msg.bids) && OncePerPrice(c.msg.asks)
  }

  /** The check runs at a moment with the ids of s and a REST snapshot at l, and
      everything is truthful. */
  ghost predicate Fits(c: Case, s: Spot, l: nat) {
    && WfSpot(c.spot) && SameShape(s, c.spot) && c.msg.lastId == l
    && Truthful(c.h, c.spot, c.limit, c.msg, c.msgLimit) && Tidy(c)
  }

  /** The compared levels are inside what both books know. */
  ghost predicate Known(c: Case)
    requires WfSpot(c.spot)
  {
    forall side :: LevelsKnown(c.spot, c.limit, c.msg, c.msgLimit, c.levels, side)
  }

  ghost predicate Alarms(c: Case)
    requires WfSpot(c.spot)
  {
    CrossChecked(FeedAfter(StreamOf(c.spot)).book, c.msg, RingOf(c.spot), c.levels) == Mismatch
  }

  // ---------------------------------------------------------- messages of a tale

  lemma EventsEnough(levels: nat, i: nat)
    requires levels > Capacity(i)
    ensures EventsNeeded(levels) > i
  {
  }

  lemma EventsCounted(g: Group)
    ensures |EventsOf(g)| == EventsNeeded(|BidsOf(g)| + |AsksOf(g)|)
  {
    match g {
      case SnapGroup(snap, ts) => FragmentsCount(SnapProto(snap, ts), snap.bids, snap.asks, true);
      case DiffGroup(upd, ts) => FragmentsCount(DiffProto(upd, ts), upd.bids, upd.asks, false);
    }
  }

  /** The highest id of a stream. */
  function TopId(gs: seq<Group>): nat {
    if gs == [] then 0
    else
      var before, id := TopId(gs[..|gs| - 1]), IdOf(gs[|gs| - 1]);
      if before < id then id else before
  }

  lemma {:induction false} TopIdHolds(gs: seq<Group>, k: nat)
    requires k < |gs|
    ensures IdOf(gs[k]) <= TopId(gs)
    decreases |gs|
  {
    if k < |gs| - 1 { TopIdHolds(gs[..|gs| - 1], k); }
  }

  lemma AllPossible(gs: seq<Group>, last: nat)
    requires TopId(gs) <= last && forall k :: 0 <= k < |gs| ==> Ordered(gs[k])
    ensures forall k :: 0 <= k < |gs| ==> Possible(gs[k], last)
  {
    forall k | 0 <= k < |gs| ensures Possible(gs[k], last) {
      TopIdHolds(gs, k);
      assert Ordered(gs[k]);
    }
  }

  lemma SameShapePlausible(s: Spot, s': Spot)
    requires Plausible(s) && SameShape(s, s')
    ensures Plausible(s') && PhaseAfter(s'.all) == PhaseAfter(s.all)
  {
    SameIdsLegal(s.all, s'.all);
    forall k | 0 <= k < |s'.all| ensures Ordered(s'.all[k]) && s'.all[k].DiffGroup? == s.all[k].DiffGroup? {
      assert SameIds(s.all[k], s'.all[k]) && Ordered(s.all[k]);
    }
  }

  /** The limit that no listing of the tale reaches. */
  function LimitOf(t: Tale): nat { t.deep + 3 }

  lemma ToldOfTale(t: Tale, g: Group, pre: nat, post: nat)
    ensures SameIds(g, Told(t, g, pre, post)) && GroupOfTale(Told(t, g, pre, post), LimitOf(t))
  {
    var g' := Told(t, g, pre, post);
    forall l | l in LevelsOf(g', Ask) ensures OfTale(Ask, l) {
      if g.DiffGroup? {
        ToldAsksAre(t, Covers(t, g.upd), pre, post, l);
      } else if l in Tops(t, g.snap.lastId) {
        assert l.px in TopPrices(Ask);
      }
    }
  }

  lemma ToldIsLong(t: Tale, g: Group, i: nat, pre: nat, post: nat)
    requires if g.SnapGroup? then t.deep >= Capacity(i) else pre + post > Capacity(i)
    ensures |EventsOf(Told(t, g, pre, post))| > i
  {
    var g' := Told(t, g, pre, post);
    EventsCounted(g');
    EventsEnough(|BidsOf(g')| + |AsksOf(g')|, i);
  }

  /** The tale suits the ids of s. */
  ghost predicate Suits(t: Tale, s: Spot) {
    && WfTale(t) && (s.j > 0 ==> s.g.DiffGroup? && Possible(s.g, t.last))
    && forall k :: 0 <= k < |s.all| ==> Possible(s.all[k], t.last)
  }

  /** The messages of the tale, message number a with n pads. */
  function ToldAll(t: Tale, gs: seq<Group>, a: nat, n: nat): seq<Group> {
    seq(|gs|, (k: nat) requires k < |gs| => Told(t, gs[k], 0, if k == a then n else 0))
  }

  /** The moment that tells t with the ids of s. */
  function ToldSpot(t: Tale, s: Spot, n: nat, pre: nat, post: nat): Spot {
    s.(all := ToldAll(t, s.all, s.a, n), g := if s.j > 0 then Told(t, s.g, pre, post) else s.g)
  }

  lemma ToldAllFits(t: Tale, gs: seq<Group>, a: nat, n: nat)
    requires WfTale(t) && forall k :: 0 <= k < |gs| ==> Possible(gs[k], t.last)
    ensures AllSameIds(gs, ToldAll(t, gs, a, n)) && GroupsOfTale(ToldAll(t, gs, a, n), LimitOf(t))
    ensures TruthfulGroups(HistoryOf(t), ToldAll(t, gs, a, n), LimitOf(t))
    ensures forall k :: 0 <= k < |gs| ==> Proper(ToldAll(t, gs, a, n)[k])
  {
    var all := ToldAll(t, gs, a, n);
    forall k | 0 <= k < |gs|
      ensures SameIds(gs[k], all[k]) && GroupOfTale(all[k], LimitOf(t)) && Proper(all[k])
      ensures TruthfulGroup(HistoryOf(t), all[k], LimitOf(t))
    {
      var post := if k == a then n else 0;
      ToldOfTale(t, gs[k], 0, post);
      ToldIsTruthful(t, gs[k], 0, post, LimitOf(t));
      ToldIsProper(t, gs[k], 0, post);
    }
  }

  lemma ToldLastFits(t: Tale, g: Group, pre: nat, post: nat)
    requires WfTale(t) && Possible(g, t.last)
    ensures var g' := Told(t, g, pre, post);
      SameIds(g, g') && GroupOfTale(g', LimitOf(t)) && Proper(g') && TruthfulGroup(HistoryOf(t), g', LimitOf(t))
  {
    ToldOfTale(t, g, pre, post);
    ToldIsTruthful(t, g, pre, post, LimitOf(t));
    ToldIsProper(t, g, pre, post);
  }

  /** Enough levels for the places where s cuts its messages. */
  predicate Roomy(t: Tale, s: Spot, n: nat, pre: nat, post: nat) {
    t.deep >= DeepFor(s) && n > Capacity(s.i) && pre + post > Capacity(s.j)
  }

  /** Only a snapshot cut at the front needs asks far from the top. */
  function DeepFor(s: Spot): nat {
    if s.a < |s.all| && s.all[s.a].SnapGroup? then Capacity(s.i) else 0
  }

  lemma ToldSpotWf(t: Tale, s: Spot, n: nat, pre: nat, post: nat)
    requires WfSpot(s) && Suits(t, s) && Roomy(t, s, n, pre, post)
    ensures WfSpot(ToldSpot(t, s, n, pre, post))
  {
    if s.a < |s.all| { ToldIsLong(t, s.all[s.a], s.i, 0, n); }
    if s.j > 0 { ToldIsLong(t, s.g, s.j, pre, post); }
  }

  lemma ToldSpotFits(t: Tale, s: Spot, n: nat, pre: nat, post: nat)
    requires WfSpot(s) && Plausible(s) && Suits(t, s) && Roomy(t, s, n, pre, post) && s.all != []
    ensures var s' := ToldSpot(t, s, n, pre, post);
      && SameShape(s, s') && Story(t, s', LimitOf(t)) && PhaseAfter(s'.all) == PhaseAfter(s.all)
      && (forall k :: 0 <= k < |s'.all| ==> Proper(s'.all[k])) && (s'.j > 0 ==> Proper(s'.g))
  {
    var s' := ToldSpot(t, s, n, pre, post);
    ToldSpotWf(t, s, n, pre, post);
    ToldAllFits(t, s.all, s.a, n);
    if s.j > 0 { ToldLastFits(t, s.g, pre, post); }
    SameShapePlausible(s, s');
  }

  // ------------------------------------------------------------ the events of a diff

  /** Events i to `end` of a message without bids carry the asks in their place. */
  lemma AskSlice(g: Group, i: nat, end: nat)
    requires g.DiffGroup? && g.upd.bids == [] && i <= end <= |EventsOf(g)|
    ensures AllBids(EventsOf(g)[i..end]) == []
    ensures AllAsks(EventsOf(g)[i..end])
         == g.upd.asks[Min(|g.upd.asks|, Capacity(i))..Min(|g.upd.asks|, Capacity(end))]
  {
    var evs, asks := EventsOf(g), g.upd.asks;
    FragmentsPrefix(DiffProto(g.upd, g.ts), [], asks, false, i);
    FragmentsPrefix(DiffProto(g.upd, g.ts), [], asks, false, end);
    assert evs[..end] == evs[..i] + evs[i..end];
    LevelsConcat(evs[..i], evs[i..end]);
    SliceOf(asks, Min(|asks|, Capacity(i)), Min(|asks|, Capacity(end)), AllAsks(evs[i..end]));
  }

  lemma SliceOf(ls: seq<Level>, a: nat, b: nat, mid: seq<Level>)
    requires a <= |ls| && b <= |ls| && ls[..a] + mid == ls[..b]
    ensures a <= b && mid == ls[a..b]
  {
    assert |ls[..a] + mid| == b;
    assert (ls[..a] + mid)[a..] == mid && ls[..b][a..] == ls[a..b];
  }

  /** A diff of the tale: its news first, then pads. */
  ghost predicate Narrates(t: Tale, g: Group) {
    g.DiffGroup? && g.upd.bids == [] && exists p: nat :: g.upd.asks == ToldAsks(t, Covers(t, g.upd), 0, p)
  }

  lemma NarratedSays(t: Tale, g: Group, l: Level)
    requires Narrates(t, g) && l in g.upd.asks
    ensures (Covers(t, g.upd) && l in News(t)) || (l.qty == 0 && l.px >= FLOOR)
  {
    var p: nat :| g.upd.asks == ToldAsks(t, Covers(t, g.upd), 0, p);
    ToldAsksAre(t, Covers(t, g.upd), 0, p, l);
  }

  /** The first event of a diff that covers x carries all news, the others carry none. */
  lemma NewsComeFirst(t: Tale, g: Group, i: nat, end: nat, l: Level)
    requires Narrates(t, g) && Covers(t, g.upd) && i < end <= |EventsOf(g)| && l in News(t)
    ensures l in AllAsks(EventsOf(g)[i..end]) <==> i == 0
  {
    var p: nat :| g.upd.asks == ToldAsks(t, true, 0, p);
    AskSlice(g, i, end);
    NewsInSlice(t, p, Min(|g.upd.asks|, Capacity(i)), Min(|g.upd.asks|, Capacity(end)), l);
  }

  lemma NewsInSlice(t: Tale, p: nat, lo: nat, hi: nat, l: Level)
    requires lo <= hi <= |ToldAsks(t, true, 0, p)| && (lo == 0 || lo >= |News(t)|) && hi >= |News(t)| && l in News(t)
    ensures l in ToldAsks(t, true, 0, p)[lo..hi] <==> lo == 0
  {
    var asks, n := ToldAsks(t, true, 0, p), News(t);
    assert asks == n + Pads(t, 0, p);
    var slice := asks[lo..hi];
    if lo == 0 {
      var k :| 0 <= k < |n| && n[k] == l;
      assert slice[k] == l;
    } else {
      assert slice == Pads(t, 0, p)[lo - |n|..hi - |n|];
    }
  }

  // ------------------------------------------------------------ the levels of a ring

  /** The events of the ring that belong to its first message. */
  function Head(s: Spot): seq<MarketEvent>
    requires WfSpot(s)
  {
    if s.a < |s.all| then EventsOf(s.all[s.a])[s.i..|EventsOf(s.all[s.a])|] else EventsOf(s.g)[s.i..s.j]
  }

  lemma HeadComesFirst(s: Spot)
    requires WfSpot(s) && s.a < |s.all|
    ensures RingOf(s) == Head(s) + (Flatten(s.all[s.a + 1..]) + EventsOf(s.g)[..s.j])
  {
    assert EventsOf(s.all[s.a])[s.i..] == Head(s);
  }

  lemma RingLevel(s: Spot, side: Side, l: Level)
    requires WfSpot(s) && l in AllLevels(RingOf(s), side)
    ensures || l in AllLevels(Head(s), side)
            || (exists k :: s.a < k < |s.all| && l in LevelsOf(s.all[k], side))
            || (s.a < |s.all| && s.j > 0 && l in LevelsOf(s.g, side))
  {
    if s.a < |s.all| {
      var mid, part := Flatten(s.all[s.a + 1..]), EventsOf(s.g)[..s.j];
      HeadComesFirst(s);
      LevelsConcat(Head(s), mid + part);
      LevelsConcat(mid, part);
      if l in AllLevels(mid, side) {
        LaterLevel(s, side, l);
      } else if l in AllLevels(part, side) {
        assert s.j > 0;
        PartLevels(s.g, s.j, side, l);
      }
    }
  }

  lemma LaterLevel(s: Spot, side: Side, l: Level)
    requires s.a < |s.all| && l in AllLevels(Flatten(s.all[s.a + 1..]), side)
    ensures exists k :: s.a < k < |s.all| && l in LevelsOf(s.all[k], side)
  {
    var rest := s.all[s.a + 1..];
    FlattenLevels(rest, side, l);
    var k :| 0 <= k < |rest| && l in LevelsOf(rest[k], side);
    assert rest[k] == s.all[s.a + 1 + k];
  }

  lemma HeadInRing(s: Spot, side: Side, l: Level)
    requires WfSpot(s) && l in AllLevels(Head(s), side)
    ensures l in AllLevels(RingOf(s), side)
  {
    if s.a < |s.all| {
      HeadComesFirst(s);
      LevelsConcat(Head(s), Flatten(s.all[s.a + 1..]) + EventsOf(s.g)[..s.j]);
    }
  }

  /** Behind a bracket message come only ids beyond it. */
  lemma LaterIds(s: Spot, l: nat)
    requires WfSpot(s) && Plausible(s) && Brackets(Foremost(s), l) && s.a < |s.all|
    ensures forall k :: s.a < k < |s.all| ==> s.all[k].upd.firstId > l + 1
    ensures !PhaseAfter(s.all).Idle? && SeenId(PhaseAfter(s.all)) > l
    ensures s.j > 0 ==> s.g.upd.firstId > l + 1
  {
    PhaseIsLastGroup(s.all);
    IdsGrow(s.all, s.a, |s.all| - 1);
    forall k | s.a < k < |s.all| ensures s.all[k].upd.firstId > l + 1 { IdsGrow(s.all, s.a, k); }
  }

  /** All diffs of the ring belong to the tale. */
  ghost predicate RingNarrates(t: Tale, s: Spot) {
    && (forall k :: s.a <= k < |s.all| && s.all[k].DiffGroup? ==> Narrates(t, s.all[k]))
    && (s.j > 0 ==> Narrates(t, s.g))
  }

  /** A ring that starts in the message that brackets l, where update x is l + 1. */
  ghost predicate Opens(t: Tale, s: Spot, l: nat) {
    && WfSpot(s) && Plausible(s) && Brackets(Foremost(s), l) && (s.a < |s.all| || s.j > 0)
    && RingNarrates(t, s) && t.x == l + 1
  }

  lemma HeadNews(t: Tale, s: Spot, l: nat, v: Level)
    requires Opens(t, s, l) && v in News(t)
    ensures v in AllAsks(Head(s)) <==> s.i == 0
  {
    var end := if s.a < |s.all| then |EventsOf(s.all[s.a])| else s.j;
    NewsComeFirst(t, Foremost(s), s.i, end, v);
  }

  /** Such a ring carries the news exactly if it lost nothing at the front. */
  lemma RingNews(t: Tale, s: Spot, l: nat, v: Level)
    requires Opens(t, s, l) && v in News(t)
    ensures v in AllLevels(RingOf(s), Ask) <==> s.i == 0
  {
    HeadNews(t, s, l, v);
    if s.i == 0 {
      HeadInRing(s, Ask, v);
    } else if v in AllLevels(RingOf(s), Ask) {
      RingLevel(s, Ask, v);
      LaterIds(s, l);
      if k :| s.a < k < |s.all| && v in LevelsOf(s.all[k], Ask) {
        NarratedSays(t, s.all[k], v);
      } else {
        NarratedSays(t, s.g, v);
      }
    }
  }

  lemma HeadLevel(s: Spot, side: Side, l: Level)
    requires WfSpot(s) && l in AllLevels(Head(s), side)
    ensures l in LevelsOf(Foremost(s), side)
  {
    var evs := EventsOf(Foremost(s));
    var end := if s.a < |s.all| then |evs| else s.j;
    assert evs[..end] == evs[..s.i] + evs[s.i..end];
    LevelsConcat(evs[..s.i], evs[s.i..end]);
    PartLevels(Foremost(s), end, side, l);
  }

  /** A level of such a ring comes from a diff of the tale. */
  lemma RingSource(t: Tale, s: Spot, l: nat, side: Side, v: Level)
    requires Opens(t, s, l) && v in AllLevels(RingOf(s), side)
    ensures exists g :: Narrates(t, g) && v in LevelsOf(g, side)
  {
    RingLevel(s, side, v);
    if v in AllLevels(Head(s), side) {
      HeadLevel(s, side, v);
    } else if k :| s.a < k < |s.all| && v in LevelsOf(s.all[k], side) {
      assert Narrates(t, s.all[k]);
    }
  }

  lemma RingSays(t: Tale, s: Spot, l: nat)
    requires Opens(t, s, l)
    ensures Says(t, AllLevels(RingOf(s), Ask)) && AllLevels(RingOf(s), Bid) == []
  {
    forall v | v in AllLevels(RingOf(s), Ask) ensures v in News(t) || (v.qty == 0 && v.px >= FLOOR) {
      RingSource(t, s, l, Ask, v);
      var g :| Narrates(t, g) && v in LevelsOf(g, Ask);
      NarratedSays(t, g, v);
    }
    if AllLevels(RingOf(s), Bid) != [] { RingSource(t, s, l, Bid, AllLevels(RingOf(s), Bid)[0]); }
  }

  // --------------------------------------------------------------- raising an alarm

  lemma OneBid()
    ensures AppliedAll(Bid, [], [BID]) == [BID]
  {
    assert [BID][1..] == [];
    assert Applied(Bid, [], BID.px, BID.qty).0 == [BID];
  }

  /** The bids of the scratch book when the ring carries none. */
  lemma ScratchBids(msg: DepthSnapshot, ring: seq<MarketEvent>, msgLimit: nat)
    requires msg.bids == [BID] && Taken(Seeded(msg), ring, msg.lastId, Bid) == []
    ensures ReplayAfter(Seeded(msg), ring, msg.lastId).book.bids == [BID]
    ensures msgLimit > 1 ==> Inside(Bid, Mark(Bid), ScratchHorizon(msg, msgLimit, ring, Bid))
  {
    TakenIsApplied(Seeded(msg), ring, msg.lastId, Bid);
    OneBid();
    assert [BID] + [] == [BID];
    StaysClear(Bid, [], None, [BID]);
  }

  lemma AsksAtTruth(t: Tale, k: nat)
    requires WfTale(t) && k <= t.last
    ensures AsksAt(t, Truth(HistoryOf(t), Ask, k), k)
  {
    forall px ensures QtyAt(Truth(HistoryOf(t), Ask, k), px) == Offered(t, k, px) { TruthIs(t, k, px); }
  }

  /** The best ask of a scratch book seeded from a complete listing. */
  lemma ScratchTop(t: Tale, l: nat, ring: seq<MarketEvent>, px: int)
    requires WfTale(t) && l <= t.last && px <= Mark(Ask)
    requires var taken := Taken(Seeded(ToldSnapshot(t, l)), ring, l, Ask);
      Says(t, taken) && BestAsk(UpdatedAll(Truth(HistoryOf(t), Ask, l), taken), px)
    ensures var msg := ToldSnapshot(t, l);
      && NthFromTop(ReplayAfter(Seeded(msg), ring, l).book.asks, 0) == Some(Level(px, 1))
      && Inside(Ask, Mark(Ask), ScratchHorizon(msg, LimitOf(t), ring, Ask))
  {
    var msg, h := ToldSnapshot(t, l), HistoryOf(t);
    var taken := Taken(Seeded(msg), ring, l, Ask);
    SnapshotIsTruthful(t, l, LimitOf(t));
    ScratchTracks(h, msg, LimitOf(t), ring, Ask);
    ToldOfTale(t, SnapGroup(msg, 0), 0, 0);
    SaysOfTale(t, taken);
    SnapshotOfTale(t, l);
    assert AllOfTale(Ask, msg.asks + taken);
    StaysClear(Ask, [], None, msg.asks + taken);
    TruthNonZero(h, Ask, l);
    UpdatedAllNonZero(Truth(h, Ask, l), taken);
    BestIsTop(ReplayAfter(Seeded(msg), ring, l).book.asks, UpdatedAll(Truth(h, Ask, l), taken),
              ScratchHorizon(msg, LimitOf(t), ring, Ask), px);
  }

  lemma SnapshotOfTale(t: Tale, l: nat)
    ensures AllOfTale(Ask, ToldSnapshot(t, l).asks) && |ToldSnapshot(t, l).asks| < LimitOf(t)
  {
    ToldOfTale(t, SnapGroup(DepthSnapshot(l, [], []), 0), 0, 0);
  }

  lemma SeenPossible(t: Tale, s: Spot)
    requires Story(t, s, LimitOf(t))
    ensures !PhaseAfter(s.all).Idle? && SeenId(PhaseAfter(s.all)) <= t.last
  {
    GroupsTrack(HistoryOf(t), s.all, LimitOf(t));
  }

  /** The live book shows ask 19. */
  ghost predicate LiveShows19(t: Tale, s: Spot)
    requires WfSpot(s) && !PhaseAfter(s.all).Idle?
  {
    t.x <= SeenId(PhaseAfter(s.all)) || Level(19, 1) in PartOf(s, Ask)
  }

  lemma AppearScratch(t: Tale, l: nat, ring: seq<MarketEvent>, taken: seq<Level>)
    requires t.Appear? && WfTale(t) && l <= t.last && Says(t, taken)
    requires var b := Seeded(ToldSnapshot(t, l)); Taken(b, ring, l, Ask) == taken && Taken(b, ring, l, Bid) == []
    ensures var scratch := ReplayAfter(Seeded(ToldSnapshot(t, l)), ring, l).book;
      && scratch.bids == [BID]
      && NthFromTop(scratch.asks, 0) == Some(Level(if t.x <= l || Level(19, 1) in taken then 19 else 20, 1))
    ensures forall side :: Inside(side, Mark(side), ScratchHorizon(ToldSnapshot(t, l), LimitOf(t), ring, side))
  {
    var msg := ToldSnapshot(t, l);
    ScratchBids(msg, ring, LimitOf(t));
    AsksAtTruth(t, l);
    AppearBest(t, Truth(HistoryOf(t), Ask, l), l, taken);
    ScratchTop(t, l, ring, if t.x <= l || Level(19, 1) in taken then 19 else 20);
    assert forall side: Side :: side.Bid? || side.Ask?;
  }

  lemma AppearLive(t: Tale, s: Spot)
    requires t.Appear? && Story(t, s, LimitOf(t)) && Says(t, PartOf(s, Ask))
    ensures !PhaseAfter(s.all).Idle?
    ensures NthFromTop(FeedAfter(StreamOf(s)).book.asks, 0) == Some(Level(if LiveShows19(t, s) then 19 else 20, 1))
  {
    SeenPossible(t, s);
    var k := SeenId(PhaseAfter(s.all));
    AsksAtTruth(t, k);
    AppearBest(t, Truth(HistoryOf(t), Ask, k), k, PartOf(s, Ask));
    LiveTop(t, s, LimitOf(t), if LiveShows19(t, s) then 19 else 20);
  }

  lemma TopKnown(side: Side, s: seq<Level>, h: Option<int>)
    requires Inside(side, Mark(side), h)
    requires s != [] && !IsWorse(side, s[|s| - 1].px, Mark(side))
    ensures TopInside(side, s, 1, h)
  {
  }

  lemma BestKnown(t: Tale, s: Spot, msg: DepthSnapshot, limit: nat, side: Side)
    requires Story(t, s, limit) && Inside(side, Mark(side), ScratchHorizon(msg, limit, RingOf(s), side))
    requires var scratch := SideOf(ReplayAfter(Seeded(msg), RingOf(s), msg.lastId).book, side);
      scratch != [] && !IsWorse(side, scratch[|scratch| - 1].px, Mark(side))
    ensures LevelsKnown(s, limit, msg, limit, 1, side)
  {
    var scratch := SideOf(ReplayAfter(Seeded(msg), RingOf(s), msg.lastId).book, side);
    LiveKnows(t, s, limit, side);
    TopKnown(side, scratch, ScratchHorizon(msg, limit, RingOf(s), side));
    TopKnown(side, scratch, LiveHorizon(s.all, s.g, s.j, limit, side));
  }

  /** Scratch and live book hear different news. */
  ghost predicate Differently(t: Tale, s: Spot, l: nat, taken: seq<Level>) {
    && t.Appear? && Story(t, s, LimitOf(t)) && l <= t.last && Says(t, taken) && Says(t, PartOf(s, Ask))
    && Taken(Seeded(ToldSnapshot(t, l)), RingOf(s), l, Ask) == taken
    && Taken(Seeded(ToldSnapshot(t, l)), RingOf(s), l, Bid) == []
    && !PhaseAfter(s.all).Idle? && (t.x <= l || Level(19, 1) in taken) != LiveShows19(t, s)
  }

  lemma AppearMismatch(t: Tale, s: Spot, l: nat, taken: seq<Level>)
    requires Differently(t, s, l, taken)
    ensures Compared(ReplayAfter(Seeded(ToldSnapshot(t, l)), RingOf(s), l).book, FeedAfter(StreamOf(s)).book, 1)
         == Mismatch
  {
    AppearScratch(t, l, RingOf(s), taken);
    AppearLive(t, s);
    TopsDiffer(ReplayAfter(Seeded(ToldSnapshot(t, l)), RingOf(s), l).book, FeedAfter(StreamOf(s)).book,
               Level(if t.x <= l || Level(19, 1) in taken then 19 else 20, 1),
               Level(if LiveShows19(t, s) then 19 else 20, 1));
  }

  lemma AppearKnown(t: Tale, s: Spot, l: nat, taken: seq<Level>, side: Side)
    requires Differently(t, s, l, taken)
    ensures LevelsKnown(s, LimitOf(t), ToldSnapshot(t, l), LimitOf(t), 1, side)
  {
    AppearScratch(t, l, RingOf(s), taken);
    BestKnown(t, s, ToldSnapshot(t, l), LimitOf(t), side);
  }

  /** A mismatch although both books know their best levels. */
  lemma AppearRaises(t: Tale, s: Spot, l: nat, taken: seq<Level>)
    requires Differently(t, s, l, taken)
    requires var r := ReplayAfter(Seeded(ToldSnapshot(t, l)), RingOf(s), l); r.started && !r.skipped
    ensures CrossChecked(FeedAfter(StreamOf(s)).book, ToldSnapshot(t, l), RingOf(s), 1) == Mismatch
    ensures forall side :: LevelsKnown(s, LimitOf(t), ToldSnapshot(t, l), LimitOf(t), 1, side)
  {
    AppearMismatch(t, s, l, taken);
    forall side ensures LevelsKnown(s, LimitOf(t), ToldSnapshot(t, l), LimitOf(t), 1, side) {
      AppearKnown(t, s, l, taken, side);
    }
  }

  /** A case of the tale with a complete REST listing. */
  function AppearCase(t: Tale, s: Spot, l: nat): Case {
    Case(HistoryOf(t), s, LimitOf(t), ToldSnapshot(t, l), LimitOf(t), 1)
  }

  lemma CaseFits(t: Tale, s: Spot, l: nat, n: nat, pre: nat, post: nat, msg: DepthSnapshot, msgLimit: nat)
    requires WfSpot(s) && Plausible(s) && Suits(t, s) && Roomy(t, s, n, pre, post) && s.all != []
    requires msg.lastId == l && TruthfulSnapshot(HistoryOf(t), msg, msgLimit)
    requires OncePerPrice(msg.bids) && OncePerPrice(msg.asks)
    ensures Fits(Case(HistoryOf(t), ToldSpot(t, s, n, pre, post), LimitOf(t), msg, msgLimit, 1), s, l)
  {
    ToldSpotFits(t, s, n, pre, post);
  }

  lemma RestFits(t: Tale, l: nat)
    requires WfTale(t) && l <= t.last
    ensures var msg := ToldSnapshot(t, l);
      TruthfulSnapshot(HistoryOf(t), msg, LimitOf(t)) && OncePerPrice(msg.bids) && OncePerPrice(msg.asks)
  {
    SnapshotIsTruthful(t, l, LimitOf(t));
    SnapshotOnce(t, l);
  }

  // --------------------------------------------------- cut at the front of the ring

  /** The message the ring starts in brackets l, and its first events are missing. */
  ghost predicate HeadLost(s: Spot, l: nat) {
    WfSpot(s) && Plausible(s) && s.i > 0 && Brackets(Foremost(s), l)
  }

  function Larger(a: nat, b: nat): nat { if a < b then b else a }

  function LastOf(s: Spot): nat {
    Larger(TopId(s.all), IdOf(s.g))
  }

  /** A better ask appears right behind l. */
  function FrontTale(s: Spot, l: nat): Tale {
    Appear(l + 1, LastOf(s), DeepFor(s))
  }

  /** The ids of s leave room for a tale with news at l + 1. */
  lemma BracketSuits(t: Tale, s: Spot, l: nat)
    requires WfSpot(s) && Plausible(s) && BracketInRing(s, l) && t.x == l + 1 && t.last == LastOf(s)
    ensures Suits(t, s) && l <= t.last && s.all != []
  {
    PhaseIsLastGroup(s.all);
    if k :| s.a <= k < |s.all| && Brackets(s.all[k], l) { TopIdHolds(s.all, k); }
    AllPossible(s.all, t.last);
  }

  /** Told with the news first, all diffs belong to the tale. */
  lemma ToldNarrates(t: Tale, s: Spot, n: nat, post: nat)
    requires s.j > 0 ==> s.g.DiffGroup?
    ensures RingNarrates(t, ToldSpot(t, s, n, 0, post))
  {
    var s' := ToldSpot(t, s, n, 0, post);
    forall k | 0 <= k < |s'.all| && s'.all[k].DiffGroup? ensures Narrates(t, s'.all[k]) {
      ToldNarrated(t, s.all[k], if k == s.a then n else 0);
    }
    if s.j > 0 { ToldNarrated(t, s.g, post); }
  }

  lemma ToldNarrated(t: Tale, g: Group, post: nat)
    requires g.DiffGroup?
    ensures Narrates(t, Told(t, g, 0, post))
  {
    var upd := Told(t, g, 0, post).upd;
    assert upd.asks == ToldAsks(t, Covers(t, upd), 0, post);
  }

  /** The ring of s opens with its bracket message. */
  lemma StoryOpens(t: Tale, s: Spot, l: nat)
    requires WfSpot(s) && Plausible(s) && BracketInRing(s, l) && RingNarrates(t, s) && t.x == l + 1
    ensures Opens(t, FromBracket(s, l), l)
  {
    BracketFound(s, l);
  }

  lemma SameBracket(s: Spot, s': Spot, l: nat)
    requires SameShape(s, s')
    ensures BracketInRing(s, l) <==> BracketInRing(s', l)
  {
    assert forall k :: 0 <= k < |s.all| && SameIds(s.all[k], s'.all[k]) ==>
      (Brackets(s.all[k], l) <==> Brackets(s'.all[k], l));
  }

  lemma PartSays(t: Tale, s: Spot, n: nat, pre: nat, post: nat)
    requires WfSpot(ToldSpot(t, s, n, pre, post)) && (s.j > 0 ==> s.g.DiffGroup?)
    ensures Says(t, PartOf(ToldSpot(t, s, n, pre, post), Ask))
  {
    var s' := ToldSpot(t, s, n, pre, post);
    if s.j == 0 {
      assert EventsOf(s'.g)[..0] == [];
    } else {
      forall v | v in PartOf(s', Ask) ensures v in News(t) || (v.qty == 0 && v.px >= FLOOR) {
        PartLevels(s'.g, s.j, Ask, v);
        ToldAsksAre(t, Covers(t, s.g.upd), pre, post, v);
      }
    }
  }

  /** The live book has heard the news at l + 1. */
  lemma LiveHeard(t: Tale, s: Spot, l: nat, v: Level)
    requires Opens(t, s, l) && v in News(t)
    ensures !PhaseAfter(s.all).Idle?
    ensures t.x <= SeenId(PhaseAfter(s.all)) || v in PartOf(s, Ask)
  {
    PhaseIsLastGroup(s.all);
    if s.a < |s.all| {
      LaterIds(s, l);
    } else {
      NewsComeFirst(t, s.g, 0, s.j, v);
      assert EventsOf(s.g)[0..s.j] == EventsOf(s.g)[..s.j];
    }
  }

  /** Every ring that lost the head of its bracket message raises a false alarm on some
      truthful history. */
  lemma FrontAlarm(s: Spot, l: nat, n: nat) returns (c: Case)
    requires HeadLost(s, l) && n > Capacity(s.i)
    ensures Fits(c, s, l) && Known(c) && Alarms(c)
    ensures c.spot == ToldSpot(FrontTale(s, l), s, n, 0, Capacity(s.j) + 1)
  {
    var t, post := FrontTale(s, l), Capacity(s.j) + 1;
    BracketSuits(t, s, l);
    RestFits(t, l);
    CaseFits(t, s, l, n, 0, post, ToldSnapshot(t, l), LimitOf(t));
    ToldSpotFits(t, s, n, 0, post);
    var s' := ToldSpot(t, s, n, 0, post);
    ToldNarrates(t, s, n, post);
    SameShapeHeadLost(s, s', l);
    PartSays(t, s, n, 0, post);
    FrontRaises(t, s', l);
    c := AppearCase(t, s', l);
  }

  lemma FrontRaises(t: Tale, s: Spot, l: nat)
    requires t.Appear? && t.x == l + 1 && l <= t.last && Story(t, s, LimitOf(t)) && RingNarrates(t, s)
    requires HeadLost(s, l) && Says(t, PartOf(s, Ask))
    ensures CrossChecked(FeedAfter(StreamOf(s)).book, ToldSnapshot(t, l), RingOf(s), 1) == Mismatch
    ensures forall side :: LevelsKnown(s, LimitOf(t), ToldSnapshot(t, l), LimitOf(t), 1, side)
  {
    var b, taken := Seeded(ToldSnapshot(t, l)), AllLevels(RingOf(s), Ask);
    BracketReplays(s, b, l, Ask);
    BracketReplays(s, b, l, Bid);
    RingSays(t, s, l);
    RingNews(t, s, l, Level(19, 1));
    LiveHeard(t, s, l, Level(19, 1));
    AppearRaises(t, s, l, taken);
  }

  lemma SameShapeHeadLost(s: Spot, s': Spot, l: nat)
    requires HeadLost(s, l) && SameShape(s, s') && WfSpot(s')
    ensures HeadLost(s', l)
  {
    SameShapePlausible(s, s');
    SameShapeSafe(s, s', l);
  }

  // ----------------------------------------------------- cut at the end of the ring

  /** The ring ends inside a bracket message that does not start right at l. */
  ghost predicate EndsEarly(s: Spot, l: nat) {
    && WfSpot(s) && Plausible(s) && s.j > 0 && Brackets(s.g, l) && FrontSafe(s, l)
    && !PhaseAfter(s.all).Idle? && SeenId(PhaseAfter(s.all)) != l
  }

  /** A better ask appears at the later one of the last id seen and l. */
  function EndTale(s: Spot, l: nat): Tale
    requires !PhaseAfter(s.all).Idle?
  {
    Appear(Larger(SeenId(PhaseAfter(s.all)), l), LastOf(s), DeepFor(s))
  }

  lemma EndSuits(s: Spot, l: nat)
    requires EndsEarly(s, l)
    ensures var t := EndTale(s, l);
      Suits(t, s) && l <= t.last && s.all != [] && s.g.DiffGroup? && s.g.upd.firstId <= t.x <= s.g.upd.finalId
  {
    PhaseIsLastGroup(s.all);
    TopIdHolds(s.all, |s.all| - 1);
    AllPossible(s.all, EndTale(s, l).last);
  }

  /** Only the events of the last message count. */
  lemma {:induction false} EndCounts(s: Spot, l: nat)
    requires EndsEarly(s, l)
    ensures var s1 := FromBracket(s, l); s1.a == |s.all| && s1.i == 0
    decreases |s.all| - s.a
  {
    if s.a < |s.all| {
      if s.all[s.a].DiffGroup? {
        PhaseIsLastGroup(s.all);
        IdsGrow(s.all, s.a, |s.all| - 1);
      }
      SkippingWf(s);
      EndCounts(Skipping(s), l);
    }
  }

  /** With the news behind the pads the part that has arrived carries none. */
  lemma PartNoNews(t: Tale, g: Group, j: nat, l: Level)
    requires g.DiffGroup? && j <= |EventsOf(Told(t, g, Capacity(j), 1))|
    requires l in AllAsks(EventsOf(Told(t, g, Capacity(j), 1))[..j])
    ensures l.px >= FLOOR
  {
    var g', asks := Told(t, g, Capacity(j), 1), ToldAsks(t, Covers(t, g.upd), Capacity(j), 1);
    AskSlice(g', 0, j);
    assert EventsOf(g')[0..j] == EventsOf(g')[..j];
    assert asks[0..Capacity(j)] == Pads(t, 0, Capacity(j));
  }

  lemma EndRaises(t: Tale, s: Spot, g: Group, l: nat)
    requires t.Appear? && EndsEarly(s, l) && t.x == Larger(SeenId(PhaseAfter(s.all)), l) && l <= t.last
    requires Story(t, s, LimitOf(t)) && g.DiffGroup? && s.g == Told(t, g, Capacity(s.j), 1) && Says(t, PartOf(s, Ask))
    ensures CrossChecked(FeedAfter(StreamOf(s)).book, ToldSnapshot(t, l), RingOf(s), 1) == Mismatch
    ensures forall side :: LevelsKnown(s, LimitOf(t), ToldSnapshot(t, l), LimitOf(t), 1, side)
  {
    EndTaken(s, Seeded(ToldSnapshot(t, l)), l, Ask);
    EndTaken(s, Seeded(ToldSnapshot(t, l)), l, Bid);
    AskSlice(s.g, 0, s.j);
    assert EventsOf(s.g)[0..s.j] == EventsOf(s.g)[..s.j];
    if Level(19, 1) in PartOf(s, Ask) { PartNoNews(t, g, s.j, Level(19, 1)); }
    AppearRaises(t, s, l, PartOf(s, Ask));
  }

  lemma EndTaken(s: Spot, b: BookView, l: nat, side: Side)
    requires EndsEarly(s, l)
    ensures var r := ReplayAfter(b, RingOf(s), l); r.started && !r.skipped
    ensures Taken(b, RingOf(s), l, side) == PartOf(s, side)
  {
    GetsThrough(s, b, l, side);
    EndCounts(s, l);
    assert EventsOf(s.g)[0..s.j] == EventsOf(s.g)[..s.j];
  }

  lemma SameShapeEndsEarly(s: Spot, s': Spot, l: nat)
    requires EndsEarly(s, l) && SameShape(s, s') && WfSpot(s')
    ensures EndsEarly(s', l) && PhaseAfter(s'.all) == PhaseAfter(s.all)
  {
    SameShapePlausible(s, s');
    SameShapeSafe(s, s', l);
  }

  /** Every ring that ends inside such a bracket message raises a false alarm on some
      truthful history. */
  lemma EndAlarm(s: Spot, l: nat) returns (c: Case)
    requires EndsEarly(s, l)
    ensures Fits(c, s, l) && Known(c) && Alarms(c)
    ensures c.spot == ToldSpot(EndTale(s, l), s, Capacity(s.i) + 1, Capacity(s.j), 1)
  {
    var t, n, pre := EndTale(s, l), Capacity(s.i) + 1, Capacity(s.j);
    EndSuits(s, l);
    RestFits(t, l);
    CaseFits(t, s, l, n, pre, 1, ToldSnapshot(t, l), LimitOf(t));
    ToldSpotFits(t, s, n, pre, 1);
    var s' := ToldSpot(t, s, n, pre, 1);
    SameShapeEndsEarly(s, s', l);
    PartSays(t, s, n, pre, 1);
    EndRaises(t, s', s.g, l);
    c := AppearCase(t, s', l);
  }

  // --------------------------------------------------------- a REST listing cut short

  /** The best ask goes away right behind l. */
  function CutTale(s: Spot, l: nat): Tale {
    Leave(l + 1, LastOf(s), DeepFor(s))
  }

  /** A scratch book that was told only of the best ask. */
  lemma CutScratch(t: Tale, l: nat, ring: seq<MarketEvent>, taken: seq<Level>)
    requires t.Leave? && Says(t, taken) && (Level(20, 0) in taken ==> Level(22, 1) in taken)
    requires var b := Seeded(CutSnapshot(l)); Taken(b, ring, l, Ask) == taken && Taken(b, ring, l, Bid) == []
    ensures var scratch := ReplayAfter(Seeded(CutSnapshot(l)), ring, l).book;
      && scratch.bids == [BID]
      && NthFromTop(scratch.asks, 0) == Some(Level(if Level(20, 0) in taken then 22 else 20, 1))
  {
    var ls, scratch := [Level(20, 1)], ReplayAfter(Seeded(CutSnapshot(l)), ring, l).book;
    ScratchBids(CutSnapshot(l), ring, CUT_LIMIT);
    TakenIsApplied(Seeded(CutSnapshot(l)), ring, l, Ask);
    AppliedAllConcat(Ask, [], ls, taken);
    AppliedAllTracks(Ask, [], map[], None, ls + taken);
    OneLevel(Level(20, 1));
    UpdatedAllConcat(map[], ls, taken);
    SaysOfTale(t, taken);
    assert AllOfTale(Ask, ls + taken);
    StaysClear(Ask, [], None, ls + taken);
    UpdatedAllNonZero(map[20 := 1], taken);
    CutBest(t, taken);
    BestIsTop(scratch.asks, UpdatedAll(map[20 := 1], taken), Horizon(Ask, [], None, ls + taken),
              if Level(20, 0) in taken then 22 else 20);
  }

  lemma LeaveLive(t: Tale, s: Spot, l: nat)
    requires t.Leave? && Story(t, s, LimitOf(t)) && Says(t, PartOf(s, Ask)) && Opens(t, FromBracket(s, l), l)
    ensures NthFromTop(FeedAfter(StreamOf(s)).book.asks, 0) == Some(Level(21, 1))
  {
    SeenPossible(t, s);
    var k := SeenId(PhaseAfter(s.all));
    AsksAtTruth(t, k);
    LiveHeard(t, FromBracket(s, l), l, Level(20, 0));
    LeaveBest(t, Truth(HistoryOf(t), Ask, k), k, PartOf(s, Ask));
    LiveTop(t, s, LimitOf(t), 21);
  }

  lemma CutRaises(t: Tale, s: Spot, l: nat)
    requires t.Leave? && t.x == l + 1 && Story(t, s, LimitOf(t)) && Says(t, PartOf(s, Ask))
    requires BracketInRing(s, l) && RingNarrates(t, s)
    ensures CrossChecked(FeedAfter(StreamOf(s)).book, CutSnapshot(l), RingOf(s), 1) == Mismatch
  {
    var b, s1 := Seeded(CutSnapshot(l)), FromBracket(s, l);
    StoryOpens(t, s, l);
    GetsThrough(s, b, l, Ask);
    GetsThrough(s, b, l, Bid);
    RingSays(t, s1, l);
    RingNews(t, s1, l, Level(20, 0));
    RingNews(t, s1, l, Level(22, 1));
    CutScratch(t, l, RingOf(s), AllLevels(RingOf(s1), Ask));
    LeaveLive(t, s, l);
    TopsDiffer(ReplayAfter(b, RingOf(s), l).book, FeedAfter(StreamOf(s)).book,
               Level(if Level(20, 0) in AllLevels(RingOf(s1), Ask) then 22 else 20, 1), Level(21, 1));
  }

  /** Every ring with a bracket message raises a false alarm on some truthful history
      with a REST listing that was cut short. */
  lemma CutAlarm(s: Spot, l: nat) returns (c: Case)
    requires WfSpot(s) && Plausible(s) && BracketInRing(s, l)
    ensures Fits(c, s, l) && Alarms(c)
    ensures c.spot == ToldSpot(CutTale(s, l), s, Capacity(s.i) + 1, 0, Capacity(s.j) + 1)
  {
    var t, n, post := CutTale(s, l), Capacity(s.i) + 1, Capacity(s.j) + 1;
    BracketSuits(t, s, l);
    CutIsTruthful(t, l);
    CaseFits(t, s, l, n, 0, post, CutSnapshot(l), CUT_LIMIT);
    ToldSpotFits(t, s, n, 0, post);
    var s' := ToldSpot(t, s, n, 0, post);
    ToldNarrates(t, s, n, post);
    SameBracket(s, s', l);
    PartSays(t, s, n, 0, post);
    CutRaises(t, s', l);
    c := Case(HistoryOf(t), s', LimitOf(t), CutSnapshot(l), CUT_LIMIT, 1);
  }

  // ------------------------------------------------------------- the exact conditions

  /** For every plausible arrangement of ids: while the compared levels are known to both
      books, the check is free of false alarms on all truthful histories if and only if
      the bracket message lost no event at the front of the ring and is whole at its end
      or starts right at l. */
  lemma NoAlarmExactly(s: Spot, l: nat)
    requires WfSpot(s) && Plausible(s)
    ensures (forall c :: Fits(c, s, l) && Known(c) ==> !Alarms(c)) <==> FrontSafe(s, l) && EndSafe(s, l)
  {
    if FrontSafe(s, l) && EndSafe(s, l) {
      forall c | Fits(c, s, l) && Known(c) ensures !Alarms(c) {
        SameShapeSafe(s, c.spot, l);
        NoFalseAlarm(c.h, c.spot, c.limit, c.msg, c.msgLimit, c.levels);
      }
    } else if !FrontSafe(s, l) {
      var c := FrontAlarm(s, l, Capacity(s.i) + 1);
    } else {
      PhaseIsLastGroup(s.all);
      var c := EndAlarm(s, l);
    }
  }

  /** For every plausible arrangement of ids: the check is free of false alarms on all
      truthful histories, whatever the listings leave out, if and only if no message in
      the ring brackets l, that is, if it gives no answer. */
  lemma AnswerMeansAlarms(s: Spot, l: nat)
    requires WfSpot(s) && Plausible(s)
    ensures (forall c :: Fits(c, s, l) ==> !Alarms(c)) <==> !BracketInRing(s, l)
  {
    if BracketInRing(s, l) {
      var c := CutAlarm(s, l);
    } else {
      forall c | Fits(c, s, l) ensures !Alarms(c) {
        SameBracket(s, c.spot, l);
        NoBracketNoAnswer(c.spot, FeedAfter(StreamOf(c.spot)).book, c.msg, c.levels);
      }
    }
  }
}
