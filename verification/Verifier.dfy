/** The engine-side continuity oracle, which sees only the popped events. */
module Verifier {
  import opened Events
  import opened Protocol

  datatype VerifierView = VerifierView(haveSnapshot: bool, live: bool, prevCont: bool, prevU: nat,
                                       snapshotLastId: nat, gaps: nat, checked: nat)

  const FRESH: VerifierView := VerifierView(false, false, false, 0, 0, 0, 0)

  function Checked(v: VerifierView, ev: MarketEvent): (VerifierView, bool) {
    var v1 := v.(checked := v.checked + 1, prevCont := ev.cont,
                 prevU := if ev.cont then v.prevU else ev.finalId);
    if ev.kind == Snapshot then
      (if ev.start then v1.(haveSnapshot := true, live := false, snapshotLastId := ev.finalId) else v1, true)
    else if v.prevCont || !v.haveSnapshot then
      (v1, true)
    else if !v.live then
      if ev.firstId <= v.snapshotLastId + 1 <= ev.finalId then (v1.(live := true), true)
      else (v1.(gaps := v.gaps + 1), false)
    else if ev.firstId != v.prevU + 1 then
      (v1.(gaps := v.gaps + 1), false)
    else
      (v1, true)
  }

  class GapVerifier {
    var haveSnapshot: bool
    var live: bool
    var prevCont: bool
    var prevU: nat
    var snapshotLastId: nat
    var undetectedGaps: nat
    var eventsChecked: nat

    ghost function View(): VerifierView
      reads this
    {
      VerifierView(haveSnapshot, live, prevCont, prevU, snapshotLastId, undetectedGaps, eventsChecked)
    }

    constructor ()
      ensures View() == FRESH
    {
      haveSnapshot, live, prevCont := false, false, false;
      prevU, snapshotLastId, undetectedGaps, eventsChecked := 0, 0, 0, 0;
    }

    method Check(ev: MarketEvent) returns (ok: bool)
      modifies this
      ensures (View(), ok) == Checked(old(View()), ev)
    {
      eventsChecked := eventsChecked + 1;
      var continuationOfPrev := prevCont;
      if ev.kind == Snapshot {
        if ev.start {
          haveSnapshot, live, snapshotLastId := true, false, ev.finalId;
        }
        prevCont := ev.cont;
        if !ev.cont { prevU := ev.finalId; }
        return true;
      }
      ok := true;
      if continuationOfPrev {
      } else if !haveSnapshot {
      } else if !live {
        if ev.firstId <= snapshotLastId + 1 && snapshotLastId + 1 <= ev.finalId {
          live := true;
        } else {
          ok := false;
        }
      } else if ev.firstId != prevU + 1 {
        ok := false;
      }
      if !ok { undetectedGaps := undetectedGaps + 1; }
      prevCont := ev.cont;
      if !ev.cont { prevU := ev.finalId; }
    }
  }

  /** The verifier after a whole stream, from a fresh start. */
  function VerifierAfter(evs: seq<MarketEvent>): VerifierView {
    if evs == [] then FRESH else Checked(VerifierAfter(evs[..|evs| - 1]), evs[|evs| - 1]).0
  }

  /** The verifier stands where the protocol stands, at a message boundary. */
  ghost predicate Follows(v: VerifierView, p: Phase) {
    && !v.prevCont
    && (p.Idle? <==> !v.haveSnapshot)
    && (p.Await? ==> !v.live && v.snapshotLastId == p.lastId)
    && (p.Live? ==> v.live && v.prevU == p.prevU)
  }

  /** 1 if the message breaks continuity in a way the verifier can judge. */
  function Violation(p: Phase, g: Group): nat {
    if p.Idle? || Admits(p, g) then 0 else 1
  }

  lemma AfterSnoc(evs: seq<MarketEvent>, ev: MarketEvent)
    ensures VerifierAfter(evs + [ev]) == Checked(VerifierAfter(evs), ev).0
  {
    assert (evs + [ev])[..|evs|] == evs;
  }

  /** The verifier after the first k > 0 fragments of g, which it met in state v. */
  ghost predicate PartWay(v: VerifierView, w: VerifierView, p: Phase, g: Group, k: nat) {
    && w.gaps == v.gaps + Violation(p, g)
    && w.prevCont == (k < |EventsOf(g)|)
    && w.haveSnapshot == (g.SnapGroup? || !p.Idle?)
    && (Next(p, g).Await? ==> !w.live && w.snapshotLastId == Next(p, g).lastId)
    && (Next(p, g).Live? ==> w.live)
    && (k == |EventsOf(g)| && Next(p, g).Live? ==> w.prevU == Next(p, g).prevU)
  }

  lemma FirstFragmentJudged(v: VerifierView, p: Phase, g: Group)
    requires Follows(v, p) && |EventsOf(g)| > 0
    ensures PartWay(v, Checked(v, EventsOf(g)[0]).0, p, g, 1)
  {
    EventsOfShape(g);
  }

  lemma LaterFragmentSkipped(v: VerifierView, w: VerifierView, p: Phase, g: Group, k: nat)
    requires PartWay(v, w, p, g, k) && 0 < k < |EventsOf(g)|
    ensures PartWay(v, Checked(w, EventsOf(g)[k]).0, p, g, k + 1)
  {
    EventsOfShape(g);
  }

  /** Inside a message only its first fragment is judged. */
  lemma {:induction false} FollowsInside(evs: seq<MarketEvent>, p: Phase, g: Group, k: nat)
    requires Follows(VerifierAfter(evs), p)
    requires 0 < k <= |EventsOf(g)|
    ensures PartWay(VerifierAfter(evs), VerifierAfter(evs + EventsOf(g)[..k]), p, g, k)
    decreases k
  {
    var es := EventsOf(g);
    assert evs + es[..k] == (evs + es[..k - 1]) + [es[k - 1]];
    AfterSnoc(evs + es[..k - 1], es[k - 1]);
    if k == 1 {
      assert evs + es[..0] == evs;
      FirstFragmentJudged(VerifierAfter(evs), p, g);
    } else {
      FollowsInside(evs, p, g, k - 1);
      LaterFragmentSkipped(VerifierAfter(evs), VerifierAfter(evs + es[..k - 1]), p, g, k - 1);
    }
  }

  lemma FollowsGroup(evs: seq<MarketEvent>, p: Phase, g: Group)
    requires Follows(VerifierAfter(evs), p)
    ensures Follows(VerifierAfter(evs + EventsOf(g)), Next(p, g))
    ensures VerifierAfter(evs + EventsOf(g)).gaps == VerifierAfter(evs).gaps + Violation(p, g)
  {
    EventsOfShape(g);
    assert EventsOf(g)[..|EventsOf(g)|] == EventsOf(g);
    FollowsInside(evs, p, g, |EventsOf(g)|);
  }

  /** Messages that break continuity after the first snapshot. */
  function Violations(gs: seq<Group>): nat {
    if gs == [] then 0
    else Violations(gs[..|gs| - 1]) + Violation(PhaseAfter(gs[..|gs| - 1]), gs[|gs| - 1])
  }

  /** On any stream of whole messages the counter is exactly the number of
      discontinuities. */
  lemma {:induction false} CountsViolations(gs: seq<Group>)
    ensures Follows(VerifierAfter(Flatten(gs)), PhaseAfter(gs))
    ensures VerifierAfter(Flatten(gs)).gaps == Violations(gs)
    decreases |gs|
  {
    if gs != [] {
      CountsViolations(gs[..|gs| - 1]);
      FollowsGroup(Flatten(gs[..|gs| - 1]), PhaseAfter(gs[..|gs| - 1]), gs[|gs| - 1]);
    }
  }

  lemma {:induction false} LegalHasNoViolations(gs: seq<Group>)
    ensures Legal(gs) ==> Violations(gs) == 0
    ensures gs != [] && gs[0].SnapGroup? && Violations(gs) == 0 ==> Legal(gs)
    ensures gs != [] && gs[0].SnapGroup? ==> !PhaseAfter(gs).Idle?
    decreases |gs|
  {
    if gs != [] {
      var pre := gs[..|gs| - 1];
      LegalHasNoViolations(pre);
      assert pre != [] ==> pre[0] == gs[0];
      assert Violations(gs) == Violations(pre) + Violation(PhaseAfter(pre), gs[|gs| - 1]);
      assert Legal(pre) <== pre == [];
    }
  }

  /** Completeness of the oracle: on a stream of whole messages that begins with
      a snapshot, a zero counter means every message was continuous. */
  lemma ZeroGapsMeansContinuity(gs: seq<Group>)
    requires gs != [] && gs[0].SnapGroup?
    ensures VerifierAfter(Flatten(gs)).gaps == 0 <==> forall i :: 0 <= i < |gs| ==> ContinuousAt(gs, i)
  {
    CountsViolations(gs);
    LegalHasNoViolations(gs);
    LegalIsContinuity(gs);
  }

  /** The redundant verifier never fires on a legal stream, wherever it is cut. */
  lemma NeverFires(evs: seq<MarketEvent>)
    requires LegalStream(evs)
    ensures VerifierAfter(evs).gaps == 0
  {
    var gs, g, j := LegalCut(evs);
    CountsViolations(gs);
    LegalHasNoViolations(gs);
    if j > 0 {
      FollowsInside(Flatten(gs), PhaseAfter(gs), g, j);
    } else {
      assert evs == Flatten(gs);
    }
  }
}
