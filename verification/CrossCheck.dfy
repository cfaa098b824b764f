/** The periodic cross-check: seed a scratch book from a REST snapshot, replay the
    ring of recent events past it, and compare the top levels with the live book. */
module CrossCheck {
  import opened Events
  import opened BookSide
  import opened Book
  import opened Fragmenter
  import opened Protocol
  import opened Exchange
  import opened Feed
  import opened Reconstruction

  datatype CrossCheckResult = Match | Mismatch | Skipped

  datatype Replay = Replay(book: BookView, started: bool, skipped: bool)

  function Seeded(msg: DepthSnapshot): BookView {
    BookView(AppliedAll(Bid, [], msg.bids), AppliedAll(Ask, [], msg.asks), 0, 0)
  }

  /** Still looking for the bracket message. */
  predicate Ignores(r: Replay, ev: MarketEvent, l: nat) {
    !r.started && (ev.kind != DepthDiff || ev.finalId <= l)
  }

  predicate GivesUp(r: Replay, ev: MarketEvent, l: nat) {
    if r.started then ev.kind == Snapshot else ev.firstId > l + 1
  }

  function Replayed(r: Replay, ev: MarketEvent, l: nat): Replay {
    if r.skipped || Ignores(r, ev, l) then r
    else if GivesUp(r, ev, l) then r.(skipped := true)
    else Replay(WithEvent(r.book, ev), true, false)
  }

  function ReplayAfter(b: BookView, recent: seq<MarketEvent>, l: nat): Replay {
    if recent == [] then Replay(b, false, false)
    else Replayed(ReplayAfter(b, recent[..|recent| - 1], l), recent[|recent| - 1], l)
  }

  /** The n-th levels from the top exist in both books and agree on both sides. */
  predicate AgreeAt(a: BookView, b: BookView, n: nat) {
    && NthFromTop(a.bids, n).Some? && NthFromTop(a.bids, n) == NthFromTop(b.bids, n)
    && NthFromTop(a.asks, n).Some? && NthFromTop(a.asks, n) == NthFromTop(b.asks, n)
  }

  ghost predicate AgreeTop(a: BookView, b: BookView, levels: int) {
    forall n :: 0 <= n < levels ==> AgreeAt(a, b, n)
  }

  ghost function Compared(scratch: BookView, live: BookView, levels: int): CrossCheckResult {
    if levels < 0 || |scratch.bids| < levels || |scratch.asks| < levels then Skipped
    else if AgreeTop(scratch, live, levels) then Match
    else Mismatch
  }

  ghost function CrossChecked(live: BookView, msg: DepthSnapshot, recent: seq<MarketEvent>, levels: int)
    : CrossCheckResult
  {
    var r := ReplayAfter(Seeded(msg), recent, msg.lastId);
    if r.skipped || !r.started then Skipped else Compared(r.book, live, levels)
  }

  lemma ReplaySnoc(b: BookView, evs: seq<MarketEvent>, ev: MarketEvent, l: nat)
    ensures ReplayAfter(b, evs + [ev], l) == Replayed(ReplayAfter(b, evs, l), ev, l)
  {
    assert (evs + [ev])[..|evs|] == evs;
  }

  lemma {:induction false} SkippedStays(b: BookView, recent: seq<MarketEvent>, i: nat, l: nat)
    requires i <= |recent| && ReplayAfter(b, recent[..i], l).skipped
    ensures ReplayAfter(b, recent, l).skipped
    decreases |recent|
  {
    if i == |recent| {
      assert recent[..i] == recent;
    } else {
      assert recent[..|recent| - 1][..i] == recent[..i];
      SkippedStays(b, recent[..|recent| - 1], i, l);
    }
  }

  method Seed(scratch: L2Book, msg: DepthSnapshot)
    requires scratch.Valid()
    modifies scratch, scratch.bids, scratch.asks
    ensures scratch.Valid() && scratch.View() == Seeded(msg)
  {
    scratch.Clear();
    var i := 0;
    while i < |msg.bids|
      invariant i <= |msg.bids| && scratch.Valid()
      invariant AppliedAll(Bid, scratch.View().bids, msg.bids[i..]) == AppliedAll(Bid, [], msg.bids)
      invariant scratch.View() == EMPTY.(bids := scratch.View().bids)
    {
      assert msg.bids[i..][1..] == msg.bids[i + 1..];
      var _ := scratch.Apply(Bid, msg.bids[i].px, msg.bids[i].qty);
      i := i + 1;
    }
    i := 0;
    while i < |msg.asks|
      invariant i <= |msg.asks| && scratch.Valid()
      invariant AppliedAll(Ask, scratch.View().asks, msg.asks[i..]) == AppliedAll(Ask, [], msg.asks)
      invariant scratch.View() == Seeded(msg).(asks := scratch.View().asks)
    {
      assert msg.asks[i..][1..] == msg.asks[i + 1..];
      var _ := scratch.Apply(Ask, msg.asks[i].px, msg.asks[i].qty);
      i := i + 1;
    }
  }

  method ReplayRing(scratch: L2Book, recent: seq<MarketEvent>, l: nat) returns (started: bool, skipped: bool)
    requires scratch.Valid()
    modifies scratch, scratch.bids, scratch.asks
    ensures scratch.Valid()
    ensures skipped == ReplayAfter(old(scratch.View()), recent, l).skipped
    ensures !skipped ==> Replay(scratch.View(), started, false) == ReplayAfter(old(scratch.View()), recent, l)
  {
    started := false;
    var i := 0;
    ghost var b := scratch.View();
    while i < |recent|
      invariant i <= |recent| && scratch.Valid()
      invariant Replay(scratch.View(), started, false) == ReplayAfter(b, recent[..i], l)
    {
      var ev := recent[i];
      assert recent[..i + 1] == recent[..i] + [ev];
      ReplaySnoc(b, recent[..i], ev, l);
      i := i + 1;
      if !started {
        if ev.kind != DepthDiff { continue; }
        if ev.finalId <= l { continue; }
        if ev.firstId <= l + 1 {
          started := true;
        } else {
          SkippedStays(b, recent, i, l);
          return started, true;
        }
      }
      if ev.kind == Snapshot {
        SkippedStays(b, recent, i, l);
        return started, true;
      }
      scratch.ApplyEvent(ev);
    }
    assert recent[..i] == recent;
    return started, false;
  }

  method CompareTop(scratch: L2Book, live: L2Book, levels: int) returns (r: CrossCheckResult)
    requires scratch.Valid() && live.Valid()
    ensures r == Compared(scratch.View(), live.View(), levels)
  {
    if levels < 0 || scratch.numBids < levels || scratch.numAsks < levels { return Skipped; }
    var n := 0;
    while n < levels
      invariant 0 <= n <= levels
      invariant AgreeTop(scratch.View(), live.View(), n)
    {
      var sb := scratch.DepthAt(Bid, n);
      var lb := live.DepthAt(Bid, n);
      var sa := scratch.DepthAt(Ask, n);
      var la := live.DepthAt(Ask, n);
      if sb.None? || lb.None? || sa.None? || la.None? || sb.value != lb.value || sa.value != la.value {
        assert !AgreeAt(scratch.View(), live.View(), n);
        return Mismatch;
      }
      n := n + 1;
    }
    return Match;
  }

  /** Compare the live book with a REST snapshot. */
  method Check(live: L2Book, msg: DepthSnapshot, recent: seq<MarketEvent>, levels: int, scratch: L2Book)
    returns (r: CrossCheckResult)
    requires live.Valid() && scratch.Valid()
    requires live != scratch && {live.bids, live.asks} !! {scratch.bids, scratch.asks}
    modifies scratch, scratch.bids, scratch.asks
    ensures live.Valid() && scratch.Valid()
    ensures r == CrossChecked(live.View(), msg, recent, levels)
  {
    Seed(scratch, msg);
    var started, skipped := ReplayRing(scratch, recent, msg.lastId);
    if skipped || !started { return Skipped; }
    r := CompareTop(scratch, live, levels);
  }

  // -------------------------------------------------------- no false alarms

  function EventLevels(ev: MarketEvent, side: Side): seq<Level> {
    if side.Bid? then ev.bids else ev.asks
  }

  function AllLevels(evs: seq<MarketEvent>, side: Side): seq<Level> {
    if side.Bid? then AllBids(evs) else AllAsks(evs)
  }

  /** The updates that the replay applied on one side. */
  ghost function Taken(b: BookView, recent: seq<MarketEvent>, l: nat, side: Side): seq<Level> {
    if recent == [] then []
    else
      var pre, ev := recent[..|recent| - 1], recent[|recent| - 1];
      var r := ReplayAfter(b, pre, l);
      if r.skipped || Ignores(r, ev, l) || GivesUp(r, ev, l) then Taken(b, pre, l, side)
      else Taken(b, pre, l, side) + EventLevels(ev, side)
  }

  lemma {:induction false} TakenIsApplied(b: BookView, recent: seq<MarketEvent>, l: nat, side: Side)
    ensures SideOf(ReplayAfter(b, recent, l).book, side) == AppliedAll(side, SideOf(b, side), Taken(b, recent, l, side))
    decreases |recent|
  {
    if recent != [] {
      var pre, ev := recent[..|recent| - 1], recent[|recent| - 1];
      TakenIsApplied(b, pre, l, side);
      AppliedAllConcat(side, SideOf(b, side), Taken(b, pre, l, side), EventLevels(ev, side));
    }
  }

  lemma {:induction false} AllLevelsSnoc(evs: seq<MarketEvent>, ev: MarketEvent, side: Side)
    ensures AllLevels(evs + [ev], side) == AllLevels(evs, side) + EventLevels(ev, side)
    decreases |evs|
  {
    if evs == [] {
      assert evs + [ev] == [ev] && [ev][1..] == [];
    } else {
      AllLevelsSnoc(evs[1..], ev, side);
      assert (evs + [ev])[1..] == evs[1..] + [ev];
    }
  }

  /** How the replay treats a message: pass over it, give up, or apply it. */
  datatype Treatment = PassOver | GiveUp | Apply

  function Treat(r: Replay, g: Group, l: nat): Treatment {
    if r.skipped then GiveUp
    else if r.started then (if g.SnapGroup? then GiveUp else Apply)
    else if g.SnapGroup? || g.upd.finalId <= l then PassOver
    else if g.upd.firstId > l + 1 then GiveUp
    else Apply
  }

  lemma TakenSnoc(b: BookView, evs: seq<MarketEvent>, ev: MarketEvent, l: nat, side: Side)
    ensures var r := ReplayAfter(b, evs, l);
      Taken(b, evs + [ev], l, side) == Taken(b, evs, l, side) +
        if r.skipped || Ignores(r, ev, l) || GivesUp(r, ev, l) then [] else EventLevels(ev, side)
  {
    assert (evs + [ev])[..|evs|] == evs;
  }

  /** q is what r becomes after the first j fragments of a message treated as t. */
  ghost predicate Advanced(r: Replay, q: Replay, t: Treatment, j: nat) {
    match t
    case PassOver => q == r && !r.skipped
    case GiveUp => (j == 0 && q == r) || q.skipped
    case Apply => !q.skipped && if j == 0 then q == r else q.started
  }

  lemma FragmentTreated(r: Replay, q: Replay, g: Group, k: nat, l: nat)
    requires k < |EventsOf(g)| && Advanced(r, q, Treat(r, g, l), k)
    ensures Advanced(r, Replayed(q, EventsOf(g)[k], l), Treat(r, g, l), k + 1)
    ensures Treat(r, g, l).PassOver? ==> Ignores(q, EventsOf(g)[k], l)
    ensures Treat(r, g, l).Apply? ==> !Ignores(q, EventsOf(g)[k], l) && !GivesUp(q, EventsOf(g)[k], l)
  {
    EventsOfShape(g);
  }

  lemma ReplayOneMore(b: BookView, evs: seq<MarketEvent>, g: Group, j: nat, l: nat, r: Replay, t: Treatment)
    requires j < |EventsOf(g)| && t == Treat(r, g, l)
    requires Advanced(r, ReplayAfter(b, evs + EventsOf(g)[..j], l), t, j)
    ensures Advanced(r, ReplayAfter(b, evs + EventsOf(g)[..j + 1], l), t, j + 1)
  {
    FragmentMore(evs, g, j);
    FragmentTreated(r, ReplayAfter(b, evs + EventsOf(g)[..j], l), g, j, l);
    ReplaySnoc(b, evs + EventsOf(g)[..j], EventsOf(g)[j], l);
  }

  /** All fragments of a message that are in the ring are treated alike. */
  lemma ReplayInside(b: BookView, evs: seq<MarketEvent>, g: Group, j: nat, l: nat)
    requires j <= |EventsOf(g)|
    ensures Advanced(ReplayAfter(b, evs, l), ReplayAfter(b, evs + EventsOf(g)[..j], l),
                     Treat(ReplayAfter(b, evs, l), g, l), j)
  {
    ReplayFrom(b, evs, g, j, l, ReplayAfter(b, evs, l), Treat(ReplayAfter(b, evs, l), g, l));
  }

  lemma ReplayNone(b: BookView, evs: seq<MarketEvent>, g: Group, l: nat)
    ensures ReplayAfter(b, evs + EventsOf(g)[..0], l) == ReplayAfter(b, evs, l)
  {
    FragmentNone(evs, g);
  }

  lemma AdvancedNone(r: Replay, g: Group, l: nat)
    ensures Advanced(r, r, Treat(r, g, l), 0)
  {
  }

  lemma {:induction false} ReplayFrom(b: BookView, evs: seq<MarketEvent>, g: Group, j: nat, l: nat,
                                      r: Replay, t: Treatment)
    requires j <= |EventsOf(g)| && r == ReplayAfter(b, evs, l) && t == Treat(r, g, l)
    ensures Advanced(r, ReplayAfter(b, evs + EventsOf(g)[..j], l), t, j)
    decreases j
  {
    if j == 0 {
      ReplayNone(b, evs, g, l);
      AdvancedNone(r, g, l);
    } else {
      ReplayFrom(b, evs, g, j - 1, l, r, t);
      ReplayOneMore(b, evs, g, j - 1, l, r, t);
    }
  }

  lemma TakenOne(b: BookView, evs: seq<MarketEvent>, g: Group, j: nat, l: nat, side: Side)
    requires j < |EventsOf(g)| && !Treat(ReplayAfter(b, evs, l), g, l).GiveUp?
    ensures Taken(b, evs + EventsOf(g)[..j + 1], l, side) == Taken(b, evs + EventsOf(g)[..j], l, side) +
      if Treat(ReplayAfter(b, evs, l), g, l).Apply? then EventLevels(EventsOf(g)[j], side) else []
  {
    FragmentCounts(b, evs, g, j, l);
    FragmentMore(evs, g, j);
    TakenSnoc(b, evs + EventsOf(g)[..j], EventsOf(g)[j], l, side);
  }

  lemma FragmentCounts(b: BookView, evs: seq<MarketEvent>, g: Group, j: nat, l: nat)
    requires j < |EventsOf(g)| && !Treat(ReplayAfter(b, evs, l), g, l).GiveUp?
    ensures var q, ev := ReplayAfter(b, evs + EventsOf(g)[..j], l), EventsOf(g)[j];
      (q.skipped || Ignores(q, ev, l) || GivesUp(q, ev, l)) <==> Treat(ReplayAfter(b, evs, l), g, l).PassOver?
  {
    ReplayInside(b, evs, g, j, l);
    FragmentTreated(ReplayAfter(b, evs, l), ReplayAfter(b, evs + EventsOf(g)[..j], l), g, j, l);
  }

  lemma PassedOne(b: BookView, evs: seq<MarketEvent>, g: Group, j: nat, l: nat, side: Side)
    requires j < |EventsOf(g)| && Treat(ReplayAfter(b, evs, l), g, l).PassOver?
    ensures Taken(b, evs + EventsOf(g)[..j + 1], l, side) == Taken(b, evs + EventsOf(g)[..j], l, side)
  {
    TakenOne(b, evs, g, j, l, side);
    Associative(Taken(b, evs + EventsOf(g)[..j], l, side), [], []);
  }

  lemma TakenNone(b: BookView, evs: seq<MarketEvent>, g: Group, l: nat, side: Side)
    ensures Taken(b, evs + EventsOf(g)[..0], l, side) == Taken(b, evs, l, side)
  {
    assert evs + EventsOf(g)[..0] == evs;
  }

  lemma {:induction false} PassedInside(b: BookView, evs: seq<MarketEvent>, g: Group, j: nat, l: nat, side: Side,
                                        taken: seq<Level>)
    requires j <= |EventsOf(g)| && Treat(ReplayAfter(b, evs, l), g, l).PassOver? && taken == Taken(b, evs, l, side)
    ensures Taken(b, evs + EventsOf(g)[..j], l, side) == taken
    decreases j
  {
    if j == 0 {
      TakenNone(b, evs, g, l, side);
    } else {
      PassedInside(b, evs, g, j - 1, l, side, taken);
      PassedOne(b, evs, g, j - 1, l, side);
    }
  }

  lemma AppliedOne(b: BookView, evs: seq<MarketEvent>, g: Group, j: nat, l: nat, side: Side, taken: seq<Level>)
    requires j < |EventsOf(g)| && Treat(ReplayAfter(b, evs, l), g, l).Apply?
    requires Taken(b, evs + EventsOf(g)[..j], l, side) == taken + AllLevels(EventsOf(g)[..j], side)
    ensures Taken(b, evs + EventsOf(g)[..j + 1], l, side) == taken + AllLevels(EventsOf(g)[..j + 1], side)
  {
    TakenOne(b, evs, g, j, l, side);
    LevelsUpTo(g, j + 1, side);
    Associative(taken, AllLevels(EventsOf(g)[..j], side), EventLevels(EventsOf(g)[j], side));
  }

  lemma NoLevels(g: Group, side: Side, taken: seq<Level>)
    ensures taken + AllLevels(EventsOf(g)[..0], side) == taken
  {
    assert EventsOf(g)[..0] == [];
  }

  lemma {:induction false} AppliedInside(b: BookView, evs: seq<MarketEvent>, g: Group, j: nat, l: nat, side: Side)
    requires j <= |EventsOf(g)| && Treat(ReplayAfter(b, evs, l), g, l).Apply?
    ensures Taken(b, evs + EventsOf(g)[..j], l, side) == Taken(b, evs, l, side) + AllLevels(EventsOf(g)[..j], side)
    decreases j
  {
    var taken := Taken(b, evs, l, side);
    if j == 0 {
      TakenNone(b, evs, g, l, side);
      NoLevels(g, side, taken);
    } else {
      AppliedInside(b, evs, g, j - 1, l, side);
      AppliedOne(b, evs, g, j - 1, l, side, taken);
    }
  }

  lemma TakenInside(b: BookView, evs: seq<MarketEvent>, g: Group, j: nat, l: nat, side: Side)
    requires j <= |EventsOf(g)| && !Treat(ReplayAfter(b, evs, l), g, l).GiveUp?
    ensures Taken(b, evs + EventsOf(g)[..j], l, side) == Taken(b, evs, l, side) +
      if Treat(ReplayAfter(b, evs, l), g, l).Apply? then AllLevels(EventsOf(g)[..j], side) else []
  {
    if Treat(ReplayAfter(b, evs, l), g, l).Apply? {
      AppliedInside(b, evs, g, j, l, side);
    } else {
      PassedInside(b, evs, g, j, l, side, Taken(b, evs, l, side));
    }
  }

  lemma LevelsUpTo(g: Group, j: nat, side: Side)
    requires 0 < j <= |EventsOf(g)|
    ensures AllLevels(EventsOf(g)[..j], side)
      == AllLevels(EventsOf(g)[..j - 1], side) + EventLevels(EventsOf(g)[j - 1], side)
  {
    var es := EventsOf(g);
    AllLevelsSnoc(es[..j - 1], es[j - 1], side);
    assert es[..j] == es[..j - 1] + [es[j - 1]];
  }

  lemma Associative(a: seq<Level>, b: seq<Level>, c: seq<Level>)
    ensures (a + b) + c == a + (b + c)
    ensures a + [] == a
  {
  }

  lemma ReplayGroup(b: BookView, evs: seq<MarketEvent>, g: Group, l: nat, side: Side)
    ensures var r := ReplayAfter(b, evs, l);
      && Advanced(r, ReplayAfter(b, evs + EventsOf(g), l), Treat(r, g, l), 1)
      && (Treat(r, g, l).PassOver? ==> Taken(b, evs + EventsOf(g), l, side) == Taken(b, evs, l, side))
      && (Treat(r, g, l).Apply? ==>
            Taken(b, evs + EventsOf(g), l, side) == Taken(b, evs, l, side) + LevelsOf(g, side))
  {
    var n := |EventsOf(g)|;
    EventsOfShape(g);
    ReplayInside(b, evs, g, n, l);
    if !Treat(ReplayAfter(b, evs, l), g, l).GiveUp? { TakenInside(b, evs, g, n, l, side); }
    assert EventsOf(g)[..n] == EventsOf(g);
    GroupIsOneStep(EMPTY, g);
  }

  /** What a replay in state r that applied `taken` knows when the ring is in
      phase p: nothing, or that it has taken the exchange's state at l to the
      state at the last id seen. `any` says that p was set inside the ring. */
  ghost predicate Reached(h: seq<Change>, r: Replay, taken: seq<Level>, p: Phase, any: bool, l: nat, side: Side)
    requires l < |h|
  {
    r.skipped ||
    if r.started then
      p.Live? && l < p.prevU < |h| && UpdatedAll(Truth(h, side, l), taken) == Truth(h, side, p.prevU)
    else
      taken == [] && (any && p.Live? ==> p.prevU <= l)
  }

  lemma ReachedStep(h: seq<Change>, r: Replay, taken: seq<Level>, p: Phase, any: bool, l: nat, side: Side,
                    g: Group, q: Replay, taken': seq<Level>, limit: nat)
    requires l < |h| && Reached(h, r, taken, p, any, l, side)
    requires Admits(p, g) && TruthfulGroup(h, g, limit)
    requires Advanced(r, q, Treat(r, g, l), 1)
    requires Treat(r, g, l).PassOver? ==> taken' == taken
    requires Treat(r, g, l).Apply? ==> taken' == taken + LevelsOf(g, side)
    ensures Reached(h, q, taken', Next(p, g), true, l, side)
  {
    if Treat(r, g, l).Apply? {
      var from := if r.started then p.prevU else l;
      DiffAdvances(h, side, from, g.upd.firstId, g.upd.finalId, LevelsOf(g, side));
      UpdatedAllConcat(Truth(h, side, l), taken, LevelsOf(g, side));
    }
  }

  lemma {:induction false} ReplayReaches(h: seq<Change>, pre: seq<Group>, gs: seq<Group>, b: BookView,
                                         l: nat, side: Side, limit: nat)
    requires l < |h| && Legal(pre + gs) && TruthfulGroups(h, gs, limit)
    ensures Reached(h, ReplayAfter(b, Flatten(gs), l), Taken(b, Flatten(gs), l, side), PhaseAfter(pre + gs),
                    gs != [], l, side)
    decreases |gs|
  {
    if gs != [] {
      var gs0, g := gs[..|gs| - 1], gs[|gs| - 1];
      assert pre + gs == (pre + gs0) + [g] && gs == gs0 + [g];
      Snoc(pre + gs0, g);
      Snoc(gs0, g);
      assert TruthfulGroups(h, gs0, limit);
      ReplayReaches(h, pre, gs0, b, l, side, limit);
      var evs := Flatten(gs0);
      ReplayGroup(b, evs, g, l, side);
      ReachedStep(h, ReplayAfter(b, evs, l), Taken(b, evs, l, side), PhaseAfter(pre + gs0), gs0 != [], l, side,
                  g, ReplayAfter(b, evs + EventsOf(g), l), Taken(b, evs + EventsOf(g), l, side), limit);
    }
  }

  // --------------------------------------------------------- where the ring is cut

  /** A moment of a check: the messages in `all` were applied in full and then the
      first j events of g; the ring starts at event i of message number a, where
      number |all| is g. Both ends of the ring may lie inside a message. */
  datatype Spot = Spot(all: seq<Group>, g: Group, j: nat, a: nat, i: nat)

  predicate WfSpot(s: Spot) {
    && s.j < |EventsOf(s.g)|
    && s.a <= |s.all|
    && (s.a < |s.all| ==> s.i < |EventsOf(s.all[s.a])|)
    && (s.a == |s.all| ==> s.i < s.j || s.i == 0)
  }

  /** The message the ring starts in. */
  function Foremost(s: Spot): Group
    requires s.a <= |s.all|
  {
    if s.a < |s.all| then s.all[s.a] else s.g
  }

  /** Everything applied so far, and the part of it in the ring. */
  function StreamOf(s: Spot): seq<MarketEvent>
    requires WfSpot(s)
  {
    Flatten(s.all) + EventsOf(s.g)[..s.j]
  }

  function RingOf(s: Spot): seq<MarketEvent>
    requires WfSpot(s)
  {
    if s.a < |s.all| then EventsOf(s.all[s.a])[s.i..] + (Flatten(s.all[s.a + 1..]) + EventsOf(s.g)[..s.j])
    else EventsOf(s.g)[s.i..s.j]
  }

  /** The diff that takes a snapshot at l further. */
  predicate Brackets(g: Group, l: nat) {
    g.DiffGroup? && g.upd.firstId <= l + 1 <= g.upd.finalId
  }

  /** The bracket message has lost no event at the front of the ring. */
  predicate FrontSafe(s: Spot, l: nat)
    requires s.a <= |s.all|
  {
    s.i == 0 || !Brackets(Foremost(s), l)
  }

  /** The bracket message is not still arriving, unless it starts right at l. */
  predicate EndSafe(s: Spot, l: nat) {
    s.j == 0 || !Brackets(s.g, l) || (!PhaseAfter(s.all).Idle? && SeenId(PhaseAfter(s.all)) == l)
  }

  /** The stream is legal, and every message and the REST snapshot are truthful. */
  ghost predicate Truthful(h: seq<Change>, s: Spot, limit: nat, msg: DepthSnapshot, msgLimit: nat) {
    && Legal(s.all) && TruthfulGroups(h, s.all, limit)
    && (s.j > 0 ==> Admits(PhaseAfter(s.all), s.g) && TruthfulGroup(h, s.g, limit))
    && TruthfulSnapshot(h, msg, msgLimit)
  }

  /** The best price each book has forgotten when the check runs. */
  ghost function ScratchHorizon(msg: DepthSnapshot, msgLimit: nat, ring: seq<MarketEvent>, side: Side): Option<int> {
    var ls := if side.Bid? then msg.bids else msg.asks;
    Horizon(side, [], Cut(side, ls, msgLimit), ls + Taken(Seeded(msg), ring, msg.lastId, side))
  }

  ghost function LiveHorizon(all: seq<Group>, g: Group, j: nat, limit: nat, side: Side): Option<int>
    requires j <= |EventsOf(g)|
  {
    Horizon(side, SideOf(FeedAfter(Flatten(all)).book, side), GroupHorizon(all, side, limit),
            AllLevels(EventsOf(g)[..j], side))
  }

  /** The reference map both books refine at the time of the check: the exchange's book
      at the last id seen, with the updates of the message still arriving. */
  ghost function Reference(h: seq<Change>, k: nat, part: seq<MarketEvent>, side: Side): map<int, int>
    requires k < |h|
  {
    UpdatedAll(Truth(h, side, k), AllLevels(part, side))
  }

  lemma LiveTracks(h: seq<Change>, all: seq<Group>, g: Group, j: nat, limit: nat, side: Side)
    requires Legal(all) && all != [] && TruthfulGroups(h, all, limit) && j <= |EventsOf(g)|
    requires j > 0 ==> g.DiffGroup?
    ensures !PhaseAfter(all).Idle? && SeenId(PhaseAfter(all)) < |h|
    ensures Tracks(side, SideOf(FeedAfter(Flatten(all) + EventsOf(g)[..j]).book, side),
                   Reference(h, SeenId(PhaseAfter(all)), EventsOf(g)[..j], side),
                   LiveHorizon(all, g, j, limit, side))
  {
    GroupsTrack(h, all, limit);
    var b, part := FeedAfter(Flatten(all)).book, EventsOf(g)[..j];
    AppliedAllTracks(side, SideOf(b, side), Truth(h, side, SeenId(PhaseAfter(all))), GroupHorizon(all, side, limit),
                     AllLevels(part, side));
    if j > 0 {
      FeedInside(Flatten(all), g, j);
      WithEventsSides(b, part);
    } else {
      FragmentNone(Flatten(all), g);
    }
  }

  lemma ScratchTracks(h: seq<Change>, msg: DepthSnapshot, msgLimit: nat, ring: seq<MarketEvent>, side: Side)
    requires TruthfulSnapshot(h, msg, msgLimit)
    ensures Tracks(side, SideOf(ReplayAfter(Seeded(msg), ring, msg.lastId).book, side),
                   UpdatedAll(Truth(h, side, msg.lastId), Taken(Seeded(msg), ring, msg.lastId, side)),
                   ScratchHorizon(msg, msgLimit, ring, side))
  {
    var ls, more := if side.Bid? then msg.bids else msg.asks, Taken(Seeded(msg), ring, msg.lastId, side);
    var cut := Cut(side, ls, msgLimit);
    ListingSeeds(h, side, msg.lastId, ls, msgLimit);
    AppliedAllTracks(side, AppliedAll(side, [], ls), Truth(h, side, msg.lastId), Horizon(side, [], cut, ls), more);
    HorizonConcat(side, [], cut, ls, more);
    TakenIsApplied(Seeded(msg), ring, msg.lastId, side);
  }

  // ------------------------------------------------- rings that start on a boundary

  /** Whole messages gs, then the first j events of a message g. */
  function Ring(gs: seq<Group>, g: Group, j: nat): seq<MarketEvent>
    requires j <= |EventsOf(g)|
  {
    Flatten(gs) + EventsOf(g)[..j]
  }

  /** If the replay gets through, it has taken the exchange's book at l to the
      reference map. */
  lemma ReplayMeetsReference(h: seq<Change>, pre: seq<Group>, gs: seq<Group>, g: Group, j: nat, b: BookView, l: nat,
                             limit: nat, side: Side)
    requires l < |h| && Legal(pre + gs) && TruthfulGroups(h, gs, limit) && j <= |EventsOf(g)|
    requires j > 0 ==> Admits(PhaseAfter(pre + gs), g) && TruthfulGroup(h, g, limit)
    requires var p := PhaseAfter(pre + gs); j > 0 && Brackets(g, l) ==> !p.Idle? && SeenId(p) == l
    requires var r := ReplayAfter(b, Ring(gs, g, j), l); r.started && !r.skipped
    ensures j > 0 ==> g.DiffGroup?
    ensures !PhaseAfter(pre + gs).Idle? && SeenId(PhaseAfter(pre + gs)) < |h|
    ensures UpdatedAll(Truth(h, side, l), Taken(b, Ring(gs, g, j), l, side))
         == Reference(h, SeenId(PhaseAfter(pre + gs)), EventsOf(g)[..j], side)
  {
    ReplayReaches(h, pre, gs, b, l, side, limit);
    ReplayInside(b, Flatten(gs), g, j, l);
    var r, part := ReplayAfter(b, Flatten(gs), l), EventsOf(g)[..j];
    if j == 0 {
      FragmentNone(Flatten(gs), g);
    } else {
      assert Treat(r, g, l).Apply?;
      AppliedInside(b, Flatten(gs), g, j, l, side);
      UpdatedAllConcat(Truth(h, side, l), Taken(b, Flatten(gs), l, side), AllLevels(part, side));
    }
  }

  // ----------------------------------------------------- rings cut inside a message

  /** Events the replay passes over at the front of a ring. */
  ghost predicate PassedOver(front: seq<MarketEvent>, l: nat) {
    forall e :: e in front ==> e.kind != DepthDiff || e.finalId <= l
  }

  lemma {:induction false} FrontPassed(b: BookView, front: seq<MarketEvent>, l: nat, side: Side)
    requires PassedOver(front, l)
    ensures ReplayAfter(b, front, l) == Replay(b, false, false) && Taken(b, front, l, side) == []
    decreases |front|
  {
    if front != [] {
      assert front[|front| - 1] in front;
      FrontPassed(b, front[..|front| - 1], l, side);
    }
  }

  /** What was passed over leaves no trace. */
  lemma {:induction false} FrontDropped(b: BookView, front: seq<MarketEvent>, rest: seq<MarketEvent>,
                                        l: nat, side: Side)
    requires PassedOver(front, l)
    ensures ReplayAfter(b, front + rest, l) == ReplayAfter(b, rest, l)
    ensures Taken(b, front + rest, l, side) == Taken(b, rest, l, side)
    decreases |rest|
  {
    if rest == [] {
      FrontPassed(b, front, l, side);
      assert front + rest == front;
    } else {
      var n := |rest| - 1;
      FrontDropped(b, front, rest[..n], l, side);
      LastOfConcat(front, rest);
      ReplaySnoc(b, front + rest[..n], rest[n], l);
      TakenSnoc(b, front + rest[..n], rest[n], l, side);
      ReplaySnoc(b, rest[..n], rest[n], l);
      TakenSnoc(b, rest[..n], rest[n], l, side);
    }
  }

  lemma LastOfConcat(front: seq<MarketEvent>, rest: seq<MarketEvent>)
    requires rest != []
    ensures front + rest == front + rest[..|rest| - 1] + [rest[|rest| - 1]]
    ensures rest == rest[..|rest| - 1] + [rest[|rest| - 1]]
  {
  }

  lemma FirstReplayed(b: BookView, ring: seq<MarketEvent>, l: nat)
    requires ring != []
    ensures ReplayAfter(b, ring[..1], l) == Replayed(ReplayAfter(b, [], l), ring[0], l)
  {
    assert ring[..1] == [] + [ring[0]];
    ReplaySnoc(b, [], ring[0], l);
  }

  /** A ring whose first event is a diff beyond l + 1 is given up. */
  lemma FrontGivenUp(b: BookView, ring: seq<MarketEvent>, l: nat)
    requires ring != [] && ring[0].kind == DepthDiff && ring[0].firstId > l + 1 && ring[0].finalId > l
    ensures ReplayAfter(b, ring, l).skipped
  {
    FirstReplayed(b, ring, l);
    SkippedStays(b, ring, 1, l);
  }

  /** The same moment with the ring starting at the next message. */
  function Skipping(s: Spot): Spot
    requires s.a < |s.all|
  {
    s.(a := s.a + 1, i := 0)
  }

  lemma SkippingWf(s: Spot)
    requires WfSpot(s) && s.a < |s.all|
    ensures WfSpot(Skipping(s))
  {
    if s.a + 1 < |s.all| { EventsOfShape(s.all[s.a + 1]); }
  }

  /** The events of a message from number i on. */
  lemma TailKinds(g: Group, i: nat, k: nat, l: nat)
    requires i <= k <= |EventsOf(g)|
    ensures g.SnapGroup? || g.upd.finalId <= l ==> PassedOver(EventsOf(g)[i..k], l)
    ensures i < k && g.DiffGroup? ==>
      var e := EventsOf(g)[i]; e.kind == DepthDiff && e.firstId == g.upd.firstId && e.finalId == g.upd.finalId
  {
    EventsOfShape(g);
    forall e | e in EventsOf(g)[i..k] ensures e in EventsOf(g) {
      var n :| 0 <= n < k - i && EventsOf(g)[i..k][n] == e;
      assert e == EventsOf(g)[i + n];
    }
  }

  lemma FlattenFrom(all: seq<Group>, a: nat)
    requires a < |all|
    ensures Flatten(all[a..]) == EventsOf(all[a]) + Flatten(all[a + 1..])
  {
    FlattenCons(all[a], all[a + 1..]);
    DropOne(all, a);
  }

  lemma DropOne(all: seq<Group>, a: nat)
    requires a < |all|
    ensures all[a..] == [all[a]] + all[a + 1..]
  {
  }

  lemma WholeFront(es: seq<MarketEvent>, mid: seq<MarketEvent>, part: seq<MarketEvent>)
    ensures es[0..] + (mid + part) == (es + mid) + part
  {
  }

  lemma NothingBefore(all: seq<Group>, es: seq<MarketEvent>, j: nat)
    requires j <= |es|
    ensures Flatten(all[|all|..]) + es[..j] == es[0..j]
  {
  }

  lemma RingOnBoundary(s: Spot)
    requires WfSpot(s) && s.i == 0
    ensures RingOf(s) == Ring(s.all[s.a..], s.g, s.j)
  {
    if s.a < |s.all| {
      FlattenFrom(s.all, s.a);
      WholeFront(EventsOf(s.all[s.a]), Flatten(s.all[s.a + 1..]), EventsOf(s.g)[..s.j]);
    } else {
      NothingBefore(s.all, EventsOf(s.g), s.j);
    }
  }

  lemma SeqAssociative(a: seq<MarketEvent>, b: seq<MarketEvent>, c: seq<MarketEvent>)
    ensures (a + b) + c == a + (b + c)
  {
  }

  lemma LastSplits(g: Group, gs: seq<Group>)
    requires gs != []
    ensures var n := |gs| - 1; [g] + gs == ([g] + gs[..n]) + [gs[n]] && gs == gs[..n] + [gs[n]]
  {
  }

  lemma FlattenOne(g: Group)
    ensures Flatten([g] + []) == EventsOf(g) + Flatten([])
  {
    assert [g] + [] == [] + [g];
    Snoc([], g);
  }

  lemma {:induction false} FlattenCons(g: Group, gs: seq<Group>)
    ensures Flatten([g] + gs) == EventsOf(g) + Flatten(gs)
    decreases |gs|
  {
    if gs == [] {
      FlattenOne(g);
    } else {
      var n := |gs| - 1;
      FlattenCons(g, gs[..n]);
      Snoc([g] + gs[..n], gs[n]);
      Snoc(gs[..n], gs[n]);
      LastSplits(g, gs);
      SeqAssociative(EventsOf(g), Flatten(gs[..n]), EventsOf(gs[n]));
    }
  }

  /** Scratch book and reference map on a ring that starts on a boundary. */
  lemma BoundaryMeetsReference(h: seq<Change>, s: Spot, limit: nat, msg: DepthSnapshot, msgLimit: nat, side: Side)
    requires WfSpot(s) && s.i == 0 && Truthful(h, s, limit, msg, msgLimit) && EndSafe(s, msg.lastId)
    requires var r := ReplayAfter(Seeded(msg), RingOf(s), msg.lastId); r.started && !r.skipped
    ensures s.j > 0 ==> s.g.DiffGroup?
    ensures !PhaseAfter(s.all).Idle? && SeenId(PhaseAfter(s.all)) < |h|
    ensures UpdatedAll(Truth(h, side, msg.lastId), Taken(Seeded(msg), RingOf(s), msg.lastId, side))
         == Reference(h, SeenId(PhaseAfter(s.all)), EventsOf(s.g)[..s.j], side)
  {
    RingOnBoundary(s);
    assert s.all == s.all[..s.a] + s.all[s.a..];
    ReplayMeetsReference(h, s.all[..s.a], s.all[s.a..], s.g, s.j, Seeded(msg), msg.lastId, limit, side);
  }

  /** The ring cut inside a message is the rest of that message and the ring after it. */
  lemma CutSplits(s: Spot)
    requires WfSpot(s) && s.a < |s.all|
    ensures WfSpot(Skipping(s))
    ensures RingOf(s) == EventsOf(s.all[s.a])[s.i..] + RingOf(Skipping(s))
  {
    SkippingWf(s);
    RingOnBoundary(Skipping(s));
  }

  lemma RingStarts(s: Spot)
    requires WfSpot(s) && (s.a < |s.all| || s.j > 0)
    ensures RingOf(s) != [] && RingOf(s)[0] == EventsOf(Foremost(s))[s.i]
  {
  }

  lemma CutPassedOver(s: Spot, b: BookView, l: nat)
    requires WfSpot(s) && s.i > 0 && !Brackets(Foremost(s), l)
    requires var r := ReplayAfter(b, RingOf(s), l); r.started && !r.skipped
    ensures s.a < |s.all| && PassedOver(EventsOf(s.all[s.a])[s.i..], l)
  {
    var f := Foremost(s);
    RingStarts(s);
    if f.DiffGroup? && f.upd.finalId > l {
      TailKinds(f, s.i, s.i + 1, l);
      FrontGivenUp(b, RingOf(s), l);
    } else if s.a == |s.all| {
      TailKinds(f, s.i, s.j, l);
      FrontPassed(b, RingOf(s), l, Bid);
    } else {
      TailKinds(f, s.i, |EventsOf(f)|, l);
      assert EventsOf(f)[s.i..] == EventsOf(f)[s.i..|EventsOf(f)|];
    }
  }

  /** A ring cut inside a message that does not bracket l replays like the ring
      without that message, or is given up. */
  lemma CutFrontHarmless(s: Spot, b: BookView, l: nat, side: Side)
    requires WfSpot(s) && s.i > 0 && !Brackets(Foremost(s), l)
    requires var r := ReplayAfter(b, RingOf(s), l); r.started && !r.skipped
    ensures s.a < |s.all| && WfSpot(Skipping(s))
    ensures ReplayAfter(b, RingOf(Skipping(s)), l) == ReplayAfter(b, RingOf(s), l)
    ensures Taken(b, RingOf(Skipping(s)), l, side) == Taken(b, RingOf(s), l, side)
  {
    CutPassedOver(s, b, l);
    CutSplits(s);
    FrontDropped(b, EventsOf(s.all[s.a])[s.i..], RingOf(Skipping(s)), l, side);
  }

  /** If the bracket message is whole in the ring, or arriving right at l, and the
      replay gets through, the scratch book refines the reference map. */
  lemma ScratchMeetsReference(h: seq<Change>, s: Spot, limit: nat, msg: DepthSnapshot, msgLimit: nat, side: Side)
    requires WfSpot(s) && Truthful(h, s, limit, msg, msgLimit)
    requires FrontSafe(s, msg.lastId) && EndSafe(s, msg.lastId)
    requires var r := ReplayAfter(Seeded(msg), RingOf(s), msg.lastId); r.started && !r.skipped
    ensures s.j > 0 ==> s.g.DiffGroup?
    ensures !PhaseAfter(s.all).Idle? && SeenId(PhaseAfter(s.all)) < |h|
    ensures Tracks(side, SideOf(ReplayAfter(Seeded(msg), RingOf(s), msg.lastId).book, side),
                   Reference(h, SeenId(PhaseAfter(s.all)), EventsOf(s.g)[..s.j], side),
                   ScratchHorizon(msg, msgLimit, RingOf(s), side))
  {
    ScratchTracks(h, msg, msgLimit, RingOf(s), side);
    if s.i == 0 {
      BoundaryMeetsReference(h, s, limit, msg, msgLimit, side);
    } else {
      CutFrontHarmless(s, Seeded(msg), msg.lastId, side);
      BoundaryMeetsReference(h, Skipping(s), limit, msg, msgLimit, side);
    }
  }

  // ---------------------------------------------------------------- no false alarms

  /** The top `levels` levels of s are better than the horizon. */
  ghost predicate TopInside(side: Side, s: seq<Level>, levels: int, h: Option<int>) {
    forall n: nat :: n < levels && NthFromTop(s, n).Some? ==> Inside(side, NthFromTop(s, n).value.px, h)
  }

  lemma SameTop(side: Side, s: seq<Level>, t: seq<Level>, m: map<int, int>,
                hs: Option<int>, hl: Option<int>, levels: int)
    requires Tracks(side, s, m, hs) && Tracks(side, t, m, hl) && levels <= |s|
    requires TopInside(side, s, levels, hs) && TopInside(side, s, levels, hl)
    ensures forall n: nat :: n < levels ==> NthFromTop(t, n) == NthFromTop(s, n)
  {
    forall n: nat | n < levels ensures NthFromTop(t, n) == NthFromTop(s, n) {
      assert NthFromTop(s, n).Some?;
      var l := s[|s| - 1 - n];
      DepthExactInsideHorizon(side, s, m, hs, n, l);
      DepthExactInsideHorizon(side, t, m, hl, n, l);
    }
  }

  /** The compared levels lie inside what both books still know. */
  ghost predicate LevelsKnown(s: Spot, limit: nat, msg: DepthSnapshot, msgLimit: nat, levels: int, side: Side)
    requires WfSpot(s)
  {
    var scratch := SideOf(ReplayAfter(Seeded(msg), RingOf(s), msg.lastId).book, side);
    && TopInside(side, scratch, levels, ScratchHorizon(msg, msgLimit, RingOf(s), side))
    && TopInside(side, scratch, levels, LiveHorizon(s.all, s.g, s.j, limit, side))
  }

  lemma SideAgrees(h: seq<Change>, s: Spot, limit: nat, msg: DepthSnapshot, msgLimit: nat, levels: int, side: Side)
    requires WfSpot(s) && Truthful(h, s, limit, msg, msgLimit)
    requires FrontSafe(s, msg.lastId) && EndSafe(s, msg.lastId)
    requires LevelsKnown(s, limit, msg, msgLimit, levels, side)
    requires var r := ReplayAfter(Seeded(msg), RingOf(s), msg.lastId);
      r.started && !r.skipped && levels <= |SideOf(r.book, side)|
    ensures forall n: nat :: n < levels ==>
      NthFromTop(SideOf(FeedAfter(StreamOf(s)).book, side), n)
        == NthFromTop(SideOf(ReplayAfter(Seeded(msg), RingOf(s), msg.lastId).book, side), n)
  {
    ScratchMeetsReference(h, s, limit, msg, msgLimit, side);
    LiveTracks(h, s.all, s.g, s.j, limit, side);
    SameTop(side, SideOf(ReplayAfter(Seeded(msg), RingOf(s), msg.lastId).book, side),
            SideOf(FeedAfter(StreamOf(s)).book, side),
            Reference(h, SeenId(PhaseAfter(s.all)), EventsOf(s.g)[..s.j], side),
            ScratchHorizon(msg, msgLimit, RingOf(s), side), LiveHorizon(s.all, s.g, s.j, limit, side), levels);
  }

  lemma SidesAgreeTop(a: BookView, b: BookView, levels: int)
    requires levels <= |a.bids| && levels <= |a.asks|
    requires forall n: nat :: n < levels ==> NthFromTop(b.bids, n) == NthFromTop(a.bids, n)
    requires forall n: nat :: n < levels ==> NthFromTop(b.asks, n) == NthFromTop(a.asks, n)
    ensures AgreeTop(a, b, levels)
  {
  }

  /** The cross-check raises no false alarm on a ring whose bracket message lost no
      event at the front and is whole at the end or starts right at l. */
  lemma NoFalseAlarm(h: seq<Change>, s: Spot, limit: nat, msg: DepthSnapshot, msgLimit: nat, levels: int)
    requires WfSpot(s) && Truthful(h, s, limit, msg, msgLimit)
    requires FrontSafe(s, msg.lastId) && EndSafe(s, msg.lastId)
    requires forall side :: LevelsKnown(s, limit, msg, msgLimit, levels, side)
    ensures CrossChecked(FeedAfter(StreamOf(s)).book, msg, RingOf(s), levels) != Mismatch
  {
    var r := ReplayAfter(Seeded(msg), RingOf(s), msg.lastId);
    if r.started && !r.skipped && levels <= |r.book.bids| && levels <= |r.book.asks| {
      SideAgrees(h, s, limit, msg, msgLimit, levels, Bid);
      SideAgrees(h, s, limit, msg, msgLimit, levels, Ask);
      SidesAgreeTop(r.book, FeedAfter(StreamOf(s)).book, levels);
    }
  }

  // ---------------------------------------------------------- what an answer means

  /** The top `levels` levels of a side are the best levels of m, in order. */
  ghost predicate ShowsBest(side: Side, s: seq<Level>, m: map<int, int>, levels: int) {
    forall n: nat :: n < levels ==> NthFromTop(s, n).Some? && IsNthBest(side, m, n, NthFromTop(s, n).value)
  }

  lemma AgreesWhenBest(side: Side, scratch: seq<Level>, live: seq<Level>, m: map<int, int>,
                       hz: Option<int>, levels: int)
    requires Tracks(side, scratch, m, hz) && levels <= |scratch| && TopInside(side, scratch, levels, hz)
    ensures (forall n: nat :: n < levels ==> NthFromTop(scratch, n) == NthFromTop(live, n))
       <==> ShowsBest(side, live, m, levels)
  {
    forall n: nat | n < levels
      ensures NthFromTop(scratch, n) == NthFromTop(live, n)
         <==> NthFromTop(live, n).Some? && IsNthBest(side, m, n, NthFromTop(live, n).value)
    {
      assert NthFromTop(scratch, n).Some?;
      DepthExactInsideHorizon(side, scratch, m, hz, n, NthFromTop(scratch, n).value);
      if NthFromTop(live, n).Some? && IsNthBest(side, m, n, NthFromTop(live, n).value) {
        NthBestUnique(side, m, n, NthFromTop(scratch, n).value, NthFromTop(live, n).value);
      }
    }
  }

  lemma AgreeTopSides(a: BookView, b: BookView, levels: int)
    requires levels <= |a.bids| && levels <= |a.asks|
    ensures AgreeTop(a, b, levels) <==> forall n: nat :: n < levels ==>
      NthFromTop(a.bids, n) == NthFromTop(b.bids, n) && NthFromTop(a.asks, n) == NthFromTop(b.asks, n)
  {
    if AgreeTop(a, b, levels) {
      forall n: nat | n < levels ensures NthFromTop(a.bids, n) == NthFromTop(b.bids, n)
                                      && NthFromTop(a.asks, n) == NthFromTop(b.asks, n) {
        assert AgreeAt(a, b, n);
      }
    }
  }

  /** The top levels of the live book on a side are the best of the exchange's book with
      the arrived part of the last message. */
  ghost predicate RightOn(h: seq<Change>, s: Spot, live: BookView, levels: int, side: Side)
    requires s.j <= |EventsOf(s.g)| && !PhaseAfter(s.all).Idle? && SeenId(PhaseAfter(s.all)) < |h|
  {
    ShowsBest(side, SideOf(live, side), Reference(h, SeenId(PhaseAfter(s.all)), EventsOf(s.g)[..s.j], side), levels)
  }

  /** The scratch book has that many levels on the side and knows them. */
  ghost predicate ScratchKnows(s: Spot, msg: DepthSnapshot, msgLimit: nat, levels: int, side: Side)
    requires WfSpot(s)
  {
    var scratch := SideOf(ReplayAfter(Seeded(msg), RingOf(s), msg.lastId).book, side);
    levels <= |scratch| && TopInside(side, scratch, levels, ScratchHorizon(msg, msgLimit, RingOf(s), side))
  }

  lemma AnswerOnSide(h: seq<Change>, s: Spot, limit: nat, msg: DepthSnapshot, msgLimit: nat, levels: int,
                     live: BookView, side: Side)
    requires WfSpot(s) && Truthful(h, s, limit, msg, msgLimit)
    requires FrontSafe(s, msg.lastId) && EndSafe(s, msg.lastId) && ScratchKnows(s, msg, msgLimit, levels, side)
    requires var r := ReplayAfter(Seeded(msg), RingOf(s), msg.lastId); r.started && !r.skipped
    ensures !PhaseAfter(s.all).Idle? && SeenId(PhaseAfter(s.all)) < |h|
    ensures var scratch := ReplayAfter(Seeded(msg), RingOf(s), msg.lastId).book;
      RightOn(h, s, live, levels, side) <==>
        forall n: nat :: n < levels ==> NthFromTop(SideOf(scratch, side), n) == NthFromTop(SideOf(live, side), n)
  {
    ScratchMeetsReference(h, s, limit, msg, msgLimit, side);
    AgreesWhenBest(side, SideOf(ReplayAfter(Seeded(msg), RingOf(s), msg.lastId).book, side), SideOf(live, side),
                   Reference(h, SeenId(PhaseAfter(s.all)), EventsOf(s.g)[..s.j], side),
                   ScratchHorizon(msg, msgLimit, RingOf(s), side), levels);
  }

  /** The comparison, given what agreement means on each side. */
  lemma AnswerIs(scratch: BookView, live: BookView, levels: int, bids: bool, asks: bool)
    requires 0 <= levels <= |scratch.bids| && levels <= |scratch.asks|
    requires bids <==> forall n: nat :: n < levels ==> NthFromTop(scratch.bids, n) == NthFromTop(live.bids, n)
    requires asks <==> forall n: nat :: n < levels ==> NthFromTop(scratch.asks, n) == NthFromTop(live.asks, n)
    ensures Compared(scratch, live, levels) == if bids && asks then Match else Mismatch
  {
    AgreeTopSides(scratch, live, levels);
  }

  /** What the answer says about any live book, right or wrong: once the replay of a
      truthful REST snapshot gets through with enough levels inside its horizon, the
      answer is a match exactly when the live book shows the best levels of the
      reference map, in order, and a mismatch otherwise. */
  lemma AnswerMeansTruth(h: seq<Change>, s: Spot, limit: nat, msg: DepthSnapshot, msgLimit: nat, levels: int,
                         live: BookView)
    requires WfSpot(s) && Truthful(h, s, limit, msg, msgLimit) && levels >= 0
    requires FrontSafe(s, msg.lastId) && EndSafe(s, msg.lastId)
    requires ScratchKnows(s, msg, msgLimit, levels, Bid) && ScratchKnows(s, msg, msgLimit, levels, Ask)
    requires var r := ReplayAfter(Seeded(msg), RingOf(s), msg.lastId); r.started && !r.skipped
    ensures !PhaseAfter(s.all).Idle? && SeenId(PhaseAfter(s.all)) < |h|
    ensures CrossChecked(live, msg, RingOf(s), levels) ==
      if RightOn(h, s, live, levels, Bid) && RightOn(h, s, live, levels, Ask) then Match else Mismatch
  {
    AnswerOnSide(h, s, limit, msg, msgLimit, levels, live, Bid);
    AnswerOnSide(h, s, limit, msg, msgLimit, levels, live, Ask);
    AnswerIs(ReplayAfter(Seeded(msg), RingOf(s), msg.lastId).book, live, levels,
             RightOn(h, s, live, levels, Bid), RightOn(h, s, live, levels, Ask));
  }
}
