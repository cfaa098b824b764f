/** The snapshot-plus-diff protocol as a property of message streams: which
    messages may follow which, and what the event stream of such messages is. */
module Protocol {
  import opened Events
  import opened Fragmenter

  /** One message as it reaches the queue: all its fragments belong together. */
  datatype Group =
    | SnapGroup(snap: DepthSnapshot, ts: int)
    | DiffGroup(upd: DepthUpdate, ts: int)

  function SnapProto(snap: DepthSnapshot, ts: int): MarketEvent {
    MarketEvent(ts, 0, snap.lastId, snap.lastId, Snapshot, [], [], false, false)
  }

  function DiffProto(upd: DepthUpdate, ts: int): MarketEvent {
    MarketEvent(ts, upd.tsExchange, upd.firstId, upd.finalId, DepthDiff, [], [], false, false)
  }

  function EventsOf(g: Group): seq<MarketEvent> {
    match g
    case SnapGroup(snap, ts) => Fragments(SnapProto(snap, ts), snap.bids, snap.asks, true)
    case DiffGroup(upd, ts) => Fragments(DiffProto(upd, ts), upd.bids, upd.asks, false)
  }

  function Flatten(gs: seq<Group>): seq<MarketEvent> {
    if gs == [] then [] else Flatten(gs[..|gs| - 1]) + EventsOf(gs[|gs| - 1])
  }

  /** Where a follower of the protocol stands. */
  datatype Phase = Idle | Await(lastId: nat) | Live(prevU: nat)

  /** The bracket rule after a snapshot, and exact adjacency from then on. */
  predicate Admits(p: Phase, g: Group) {
    match g
    case SnapGroup(_, _) => true
    case DiffGroup(upd, _) =>
      match p
      case Idle => false
      case Await(l) => upd.firstId <= l + 1 <= upd.finalId
      case Live(u) => upd.firstId == u + 1
  }

  function Next(p: Phase, g: Group): Phase {
    match g
    case SnapGroup(snap, _) => Await(snap.lastId)
    case DiffGroup(upd, _) =>
      if p.Live? || (p.Await? && Admits(p, g)) then Live(upd.finalId) else p
  }

  function PhaseAfter(gs: seq<Group>): Phase {
    if gs == [] then Idle else Next(PhaseAfter(gs[..|gs| - 1]), gs[|gs| - 1])
  }

  /** Every message was admissible when it was sent. */
  ghost predicate Legal(gs: seq<Group>) {
    gs == [] || (Legal(gs[..|gs| - 1]) && Admits(PhaseAfter(gs[..|gs| - 1]), gs[|gs| - 1]))
  }

  /** evs is a legal stream, possibly cut anywhere, even inside a message. */
  ghost predicate LegalStream(evs: seq<MarketEvent>) {
    exists gs :: Legal(gs) && evs <= Flatten(gs)
  }

  lemma Snoc(gs: seq<Group>, g: Group)
    ensures Flatten(gs + [g]) == Flatten(gs) + EventsOf(g)
    ensures PhaseAfter(gs + [g]) == Next(PhaseAfter(gs), g)
    ensures Legal(gs + [g]) <==> Legal(gs) && Admits(PhaseAfter(gs), g)
  {
    assert (gs + [g])[..|gs|] == gs;
  }

  lemma {:induction false} LegalPrefix(gs: seq<Group>, k: nat)
    requires Legal(gs) && k <= |gs|
    ensures Legal(gs[..k])
    decreases |gs|
  {
    if k == |gs| {
      assert gs[..k] == gs;
    } else {
      LegalPrefix(gs[..|gs| - 1], k);
      assert gs[..|gs| - 1][..k] == gs[..k];
    }
  }

  /** Sequence continuity between neighbours, without any running state. */
  ghost predicate ContinuousAt(gs: seq<Group>, i: int)
    requires 0 <= i < |gs|
  {
    gs[i].DiffGroup? ==>
      && i > 0
      && (gs[i - 1].SnapGroup? ==> gs[i].upd.firstId <= gs[i - 1].snap.lastId + 1 <= gs[i].upd.finalId)
      && (gs[i - 1].DiffGroup? ==> gs[i].upd.firstId == gs[i - 1].upd.finalId + 1)
  }

  /** Legality is neighbour-by-neighbour continuity: the first diff after each
      snapshot brackets it and every later one starts where the last one ended. */
  lemma {:induction false} LegalIsContinuity(gs: seq<Group>)
    ensures Legal(gs) <==> forall i :: 0 <= i < |gs| ==> ContinuousAt(gs, i)
    decreases |gs|
  {
    if gs != [] {
      var n := |gs| - 1;
      var pre := gs[..n];
      LegalIsContinuity(pre);
      assert forall i :: 0 <= i < n ==> (ContinuousAt(pre, i) <==> ContinuousAt(gs, i));
      if Legal(pre) {
        PhaseIsLastGroup(pre);
        assert Admits(PhaseAfter(pre), gs[n]) <==> ContinuousAt(gs, n);
      }
    }
  }

  lemma {:induction false} PhaseIsLastGroup(gs: seq<Group>)
    requires Legal(gs)
    ensures PhaseAfter(gs) ==
      if gs == [] then Idle
      else match gs[|gs| - 1]
        case SnapGroup(snap, _) => Await(snap.lastId)
        case DiffGroup(upd, _) => Live(upd.finalId)
  {
  }

  lemma EventsOfShape(g: Group)
    ensures |EventsOf(g)| > 0
    ensures forall i :: 0 <= i < |EventsOf(g)| ==>
      var ev := EventsOf(g)[i];
      && ev.cont == (i < |EventsOf(g)| - 1)
      && ev.start == (g.SnapGroup? && i == 0)
      && (g.SnapGroup? ==> ev.kind == Snapshot && ev.firstId == g.snap.lastId && ev.finalId == g.snap.lastId)
      && (g.DiffGroup? ==> ev.kind == DepthDiff && ev.firstId == g.upd.firstId && ev.finalId == g.upd.finalId)
  {
    match g {
      case SnapGroup(snap, ts) => FragmentsFlagged(SnapProto(snap, ts), snap.bids, snap.asks, true);
      case DiffGroup(upd, ts) => FragmentsFlagged(DiffProto(upd, ts), upd.bids, upd.asks, false);
    }
  }

  /** A cut legal stream is whole legal messages, then a proper part of one more
      admissible message. */
  lemma {:induction false} CutWithin(all: seq<Group>, evs: seq<MarketEvent>)
    returns (gs: seq<Group>, g: Group, j: nat)
    requires Legal(all) && evs <= Flatten(all)
    ensures Legal(gs) && gs <= all
    ensures j <= |EventsOf(g)| && evs == Flatten(gs) + EventsOf(g)[..j]
    ensures j > 0 ==> |gs| < |all| && g == all[|gs|] && Admits(PhaseAfter(gs), g) && j < |EventsOf(g)|
    decreases |all|
  {
    if evs == Flatten(all) {
      gs, g, j := all, SnapGroup(DepthSnapshot(0, [], []), 0), 0;
    } else {
      var n := |all| - 1;
      var pre := Flatten(all[..n]);
      if |evs| > |pre| {
        gs, g, j := all[..n], all[n], |evs| - |pre|;
        assert evs == pre + EventsOf(g)[..j];
      } else {
        gs, g, j := CutWithin(all[..n], evs);
      }
    }
  }

  lemma LegalCut(evs: seq<MarketEvent>) returns (gs: seq<Group>, g: Group, j: nat)
    requires LegalStream(evs)
    ensures Legal(gs)
    ensures j <= |EventsOf(g)| && evs == Flatten(gs) + EventsOf(g)[..j]
    ensures j > 0 ==> Admits(PhaseAfter(gs), g) && j < |EventsOf(g)|
  {
    var all :| Legal(all) && evs <= Flatten(all);
    gs, g, j := CutWithin(all, evs);
  }
}
