/** End-to-end correctness of depth reconstruction: whatever legal stream of
    truthful messages reaches it, the bounded book tracks the exchange. */
module Reconstruction {
  import opened Events
  import opened BookSide
  import opened Book
  import opened Fragmenter
  import opened Protocol
  import opened Exchange
  import opened Feed
  import opened MarketData
  import opened Verifier

  /** The update id up to which a follower in phase p has seen the exchange. */
  function SeenId(p: Phase): nat
    requires !p.Idle?
  {
    if p.Await? then p.lastId else p.prevU
  }

  /** The best price forgotten on a side since the last snapshot, counting what a
      truncated snapshot listing never mentioned. */
  ghost function GroupHorizon(gs: seq<Group>, side: Side, limit: nat): Option<int> {
    if gs == [] then None
    else
      var pre, g := gs[..|gs| - 1], gs[|gs| - 1];
      if g.SnapGroup? then Horizon(side, [], Cut(side, LevelsOf(g, side), limit), LevelsOf(g, side))
      else Horizon(side, SideOf(FeedAfter(Flatten(pre)).book, side), GroupHorizon(pre, side, limit), LevelsOf(g, side))
  }

  ghost predicate TruthfulGroup(h: seq<Change>, g: Group, limit: nat) {
    match g
    case SnapGroup(snap, _) => TruthfulSnapshot(h, snap, limit)
    case DiffGroup(upd, _) => TruthfulUpdate(h, upd)
  }

  ghost predicate TruthfulGroups(h: seq<Change>, gs: seq<Group>, limit: nat) {
    forall i :: 0 <= i < |gs| ==> TruthfulGroup(h, gs[i], limit)
  }

  /** Both sides of b track the exchange at id k. */
  ghost predicate BookTracks(h: seq<Change>, b: BookView, k: nat, hb: Option<int>, ha: Option<int>) {
    && k < |h|
    && Tracks(Bid, b.bids, Truth(h, Bid, k), hb)
    && Tracks(Ask, b.asks, Truth(h, Ask, k), ha)
  }

  ghost predicate SideTracks(h: seq<Change>, gs: seq<Group>, side: Side, limit: nat)
    requires !PhaseAfter(gs).Idle?
  {
    var k := SeenId(PhaseAfter(gs));
    && k < |h|
    && Tracks(side, SideOf(FeedAfter(Flatten(gs)).book, side), Truth(h, side, k), GroupHorizon(gs, side, limit))
  }

  lemma HorizonSnoc(pre: seq<Group>, g: Group, side: Side, limit: nat)
    ensures GroupHorizon(pre + [g], side, limit) ==
      if g.SnapGroup? then Horizon(side, [], Cut(side, LevelsOf(g, side), limit), LevelsOf(g, side))
      else Horizon(side, SideOf(FeedAfter(Flatten(pre)).book, side), GroupHorizon(pre, side, limit), LevelsOf(g, side))
  {
    assert (pre + [g])[..|pre|] == pre;
  }

  lemma SnapTracksSide(h: seq<Change>, pre: seq<Group>, g: Group, side: Side, limit: nat)
    requires g.SnapGroup? && TruthfulGroup(h, g, limit)
    ensures !PhaseAfter(pre + [g]).Idle? && SideTracks(h, pre + [g], side, limit)
  {
    Snoc(pre, g);
    HorizonSnoc(pre, g, side, limit);
    FeedGroup(Flatten(pre), g, side);
    ListingSeeds(h, side, g.snap.lastId, LevelsOf(g, side), limit);
  }

  lemma DiffTracksSide(h: seq<Change>, pre: seq<Group>, g: Group, side: Side, limit: nat)
    requires g.DiffGroup? && TruthfulGroup(h, g, limit) && Admits(PhaseAfter(pre), g)
    requires SideTracks(h, pre, side, limit)
    ensures !PhaseAfter(pre + [g]).Idle? && SideTracks(h, pre + [g], side, limit)
  {
    Snoc(pre, g);
    HorizonSnoc(pre, g, side, limit);
    FeedGroup(Flatten(pre), g, side);
    DiffTracks(h, side, SideOf(FeedAfter(Flatten(pre)).book, side), GroupHorizon(pre, side, limit),
               SeenId(PhaseAfter(pre)), g.upd.firstId, g.upd.finalId, LevelsOf(g, side));
  }

  lemma GroupTracksSide(h: seq<Change>, pre: seq<Group>, g: Group, side: Side, limit: nat)
    requires TruthfulGroup(h, g, limit) && Admits(PhaseAfter(pre), g)
    requires !PhaseAfter(pre).Idle? ==> SideTracks(h, pre, side, limit)
    ensures !PhaseAfter(pre + [g]).Idle? && SideTracks(h, pre + [g], side, limit)
  {
    if g.SnapGroup? {
      SnapTracksSide(h, pre, g, side, limit);
    } else {
      DiffTracksSide(h, pre, g, side, limit);
    }
  }

  /** After any legal sequence of truthful messages, whatever resyncs it contains,
      the book tracks the exchange at the last id seen. */
  lemma {:induction false} GroupsTrack(h: seq<Change>, gs: seq<Group>, limit: nat)
    requires Legal(gs) && gs != [] && TruthfulGroups(h, gs, limit)
    ensures !PhaseAfter(gs).Idle?
    ensures BookTracks(h, FeedAfter(Flatten(gs)).book, SeenId(PhaseAfter(gs)),
                       GroupHorizon(gs, Bid, limit), GroupHorizon(gs, Ask, limit))
    ensures FeedAfter(Flatten(gs)).live <==> PhaseAfter(gs).Live?
    decreases |gs|
  {
    var pre, g := gs[..|gs| - 1], gs[|gs| - 1];
    assert gs == pre + [g];
    assert TruthfulGroups(h, pre, limit);
    if pre != [] { GroupsTrack(h, pre, limit); }
    GroupTracksSide(h, pre, g, Bid, limit);
    GroupTracksSide(h, pre, g, Ask, limit);
    FeedGroup(Flatten(pre), g, Bid);
    PhaseIsLastGroup(gs);
  }

  /** The engine's view at any point of any legal truthful stream: at every live,
      non-continuation event the kept levels have exactly the exchange's
      quantities at that event's final id, every exchange level better than the
      horizon is kept, and with an empty horizon the book is the exchange's book. */
  lemma Reconstructed(h: seq<Change>, gs: seq<Group>, evs: seq<MarketEvent>, limit: nat) returns (n: nat)
    requires Legal(gs) && TruthfulGroups(h, gs, limit)
    requires evs != [] && evs <= Flatten(gs)
    requires !evs[|evs| - 1].cont && FeedAfter(evs).live
    ensures n <= |gs| && evs == Flatten(gs[..n])
    ensures BookTracks(h, FeedAfter(evs).book, evs[|evs| - 1].finalId,
                       GroupHorizon(gs[..n], Bid, limit), GroupHorizon(gs[..n], Ask, limit))
    ensures VerifierAfter(evs).gaps == 0
  {
    n := BoundaryAt(gs, evs);
    LegalPrefix(gs, n);
    TracksAtEnd(h, gs[..n], limit);
    NeverFires(evs);
  }

  lemma TracksAtEnd(h: seq<Change>, gs: seq<Group>, limit: nat)
    requires Legal(gs) && gs != [] && TruthfulGroups(h, gs, limit)
    ensures Flatten(gs) != []
    ensures BookTracks(h, FeedAfter(Flatten(gs)).book, Flatten(gs)[|Flatten(gs)| - 1].finalId,
                       GroupHorizon(gs, Bid, limit), GroupHorizon(gs, Ask, limit))
  {
    GroupsTrack(h, gs, limit);
    LastEventId(gs);
  }

  lemma EndsAtLast(pre: seq<MarketEvent>, es: seq<MarketEvent>, evs: seq<MarketEvent>)
    requires |evs| > |pre| && evs <= pre + es && !evs[|evs| - 1].cont
    requires forall i :: 0 <= i < |es| ==> es[i].cont == (i < |es| - 1)
    ensures evs == pre + es
  {
    assert evs[|evs| - 1] == es[|evs| - 1 - |pre|];
  }

  /** A prefix of a stream that ends in a non-continuation event ends a message. */
  lemma {:induction false} BoundaryAt(gs: seq<Group>, evs: seq<MarketEvent>) returns (n: nat)
    requires evs != [] && evs <= Flatten(gs) && !evs[|evs| - 1].cont
    ensures 0 < n <= |gs| && evs == Flatten(gs[..n])
    decreases |gs|
  {
    var m := |gs| - 1;
    var pre, es := Flatten(gs[..m]), EventsOf(gs[m]);
    assert Flatten(gs) == pre + es;
    if |evs| > |pre| {
      EventsOfShape(gs[m]);
      EndsAtLast(pre, es, evs);
      n := |gs|;
      assert gs[..n] == gs;
    } else {
      n := BoundaryAt(gs[..m], evs);
      assert gs[..m][..n] == gs[..n];
    }
  }

  lemma LastEventId(gs: seq<Group>)
    requires Legal(gs) && gs != []
    ensures Flatten(gs) != [] && Flatten(gs)[|Flatten(gs)| - 1].finalId == SeenId(PhaseAfter(gs))
  {
    EventsOfShape(gs[|gs| - 1]);
    PhaseIsLastGroup(gs);
  }

  // --------------------------------------------------------- whole pipeline

  ghost predicate TruthfulInput(h: seq<Change>, i: Input, limit: nat) {
    match i
    case Fetched(snap, _) => TruthfulSnapshot(h, snap, limit)
    case Read(upd, _) => TruthfulUpdate(h, upd)
    case Reset => true
  }

  lemma {:induction false} ForwardedAreTruthful(h: seq<Change>, inputs: seq<Input>, limit: nat)
    requires forall i :: i in inputs ==> TruthfulInput(h, i, limit)
    ensures TruthfulGroups(h, Follow(inputs).sent, limit)
    decreases |inputs|
  {
    if inputs != [] {
      ForwardedAreTruthful(h, inputs[..|inputs| - 1], limit);
      assert inputs[|inputs| - 1] in inputs;
    }
  }

  /** The exchange answers every request and sends every frame truthfully. */
  ghost predicate TruthfulWorld(h: seq<Change>, w: World, limit: nat) {
    && (forall t :: w.snapshots(t).Some? ==> TruthfulSnapshot(h, w.snapshots(t).value, limit))
    && (forall t :: w.frames(t).Depth? ==> TruthfulUpdate(h, w.frames(t).upd))
  }

  /** Thread and engine together: for every run of the market-data thread in a
      truthful world, and every prefix of its output the engine has popped, the
      engine's live book tracks the exchange and the verifier is silent. */
  lemma PipelineTracks(h: seq<Change>, w: World, limit: nat, inputs: seq<Input>, pushed: seq<MarketEvent>,
                       popped: seq<MarketEvent>) returns (gs: seq<Group>)
    requires TruthfulWorld(h, w, limit) && AllDelivered(w, inputs)
    requires popped <= pushed <= Flatten(Follow(inputs).sent)
    requires popped != [] && !popped[|popped| - 1].cont && FeedAfter(popped).live
    ensures gs <= Follow(inputs).sent && popped == Flatten(gs)
    ensures BookTracks(h, FeedAfter(popped).book, popped[|popped| - 1].finalId,
                       GroupHorizon(gs, Bid, limit), GroupHorizon(gs, Ask, limit))
    ensures VerifierAfter(popped).gaps == 0
  {
    FollowIsLegal(inputs);
    forall i | i in inputs ensures TruthfulInput(h, i, limit) { assert Delivered(w, i); }
    ForwardedAreTruthful(h, inputs, limit);
    var n := Reconstructed(h, Follow(inputs).sent, popped, limit);
    gs := Follow(inputs).sent[..n];
  }

  /** With nothing forgotten since the last complete snapshot the two books are
      the same, level for level. */
  lemma ExactBook(h: seq<Change>, b: BookView, k: nat)
    requires BookTracks(h, b, k, None, None)
    ensures forall side, l :: l in SideOf(b, side) <==> l.px in Truth(h, side, k) && Truth(h, side, k)[l.px] == l.qty
    ensures |b.bids| == |Truth(h, Bid, k)| && |b.asks| == |Truth(h, Ask, k)|
  {
    ExactWhenNothingLost(Bid, b.bids, Truth(h, Bid, k));
    ExactWhenNothingLost(Ask, b.asks, Truth(h, Ask, k));
  }
}
