/** Reports of the open orders that come late: exactly which events since a report was
    taken make it unsafe, and what each of them leads to. */
module OmsReports {
  import opened Events
  import opened Oms
  import opened OmsExchange
  import opened OmsRuns
  import opened OmsConvergence

  /** Slots in good order, all of whose client ids are below the next one. */
  ghost predicate Orderly(v: OmsView, cid: nat) {
    && |v.slots| >= 3 && Distinct(v.slots) && SidesDiffer(Orders(v.slots))
    && forall c :: c in Orders(v.slots) ==> c < cid
  }

  ghost predicate NoneOn(v: OmsView, side: Side) {
    forall c :: c in Orders(v.slots) ==> Orders(v.slots)[c].side != side
  }

  lemma DistinctSidesDiffer(slots: seq<Order>)
    requires Distinct(slots)
    ensures SidesDiffer(Orders(slots))
  {
    OrdersAt(slots);
    forall c, d | c in Orders(slots) && d in Orders(slots) && c != d
      ensures Orders(slots)[c].side != Orders(slots)[d].side
    {
      var i :| 0 <= i < |slots| && slots[i] == Orders(slots)[c];
      var j :| 0 <= j < |slots| && slots[j] == Orders(slots)[d];
      assert i != j;
    }
  }

  /** Reconciling one side keeps the other side empty if it was. */
  lemma OtherSideStaysEmpty(v: OmsView, side: Side, other: Side, px: int, qty: int, cid: nat)
    requires Orderly(v, cid) && NoneOn(v, other) && other != side
    ensures var (v', cid', out) := SideReconciled(v, side, px, qty, cid);
      Orderly(v', cid') && NoneOn(v', other) && cid <= cid'
  {
    if !Found(v.slots, OnSide(side)) && px != 0 {
      PlaceElsewhere(v, side, other, px, qty, cid);
    } else if NeedsCancel(v, side, px, qty) {
      CancelElsewhere(v, side, other, px, qty, cid);
    }
  }

  lemma PlaceElsewhere(v: OmsView, side: Side, other: Side, px: int, qty: int, cid: nat)
    requires Orderly(v, cid) && NoneOn(v, other) && other != side && px != 0 && !Found(v.slots, OnSide(side))
    ensures var (v', cid', out) := SideReconciled(v, side, px, qty, cid);
      Orderly(v', cid') && NoneOn(v', other) && cid <= cid'
  {
    SidePlaces(v, side, px, qty, cid);
  }

  lemma CancelElsewhere(v: OmsView, side: Side, other: Side, px: int, qty: int, cid: nat)
    requires Orderly(v, cid) && NoneOn(v, other) && other != side && NeedsCancel(v, side, px, qty)
    ensures var (v', cid', out) := SideReconciled(v, side, px, qty, cid);
      Orderly(v', cid') && NoneOn(v', other) && cid <= cid'
  {
    SideCancels(v, side, px, qty, cid);
  }

  /** An empty side that is wanted gets a new order. */
  lemma EmptySidePlaces(v: OmsView, side: Side, px: int, qty: int, cid: nat)
    requires Orderly(v, cid) && NoneOn(v, side) && px != 0
    ensures SideReconciled(v, side, px, qty, cid).2 == [Place(v.nextSeq, cid, side, px, qty)]
  {
    OnSideFound(v.slots, side);
    SidePlaces(v, side, px, qty, cid);
  }

  // ------------------------------------------------- what happened since it was taken

  /** The order is open, or its closing is still to be reported. */
  ghost predicate Alive(w: World, c: nat) {
    c in w.open || HasTerminal(w.execs, c)
  }

  /** The state machine takes in a closing report about c. */
  predicate TakesClosing(w: World, t: Step, c: nat) {
    t.Deliver? && w.execs != [] && Terminal(w.execs[0].kind) && w.execs[0].cid == c
  }

  lemma DeliverAlive(w: World, c: nat)
    requires WorldInv(w) && w.execs != []
    ensures Alive(Delivered(w), c) <==> Alive(w, c) && !TakesClosing(w, Deliver, c)
  {
    ExecsShrink(w.execs, c);
    if TakesClosing(w, Deliver, c) {
      assert HasTerminal(w.execs, c);
      forall k | 0 <= k < |w.execs[1..]| ensures w.execs[1..][k].cid != c { assert w.execs[1..][k] == w.execs[k + 1]; }
    }
  }

  lemma CloseAlive(w: World, cid: nat, kind: ExecKind, c: nat)
    requires cid in w.open && w.open[cid].cid == cid && Terminal(kind)
    ensures Alive(Closed(w, cid, kind), c) <==> Alive(w, c)
  {
    ExecsGrow(w.execs, CloseReport(w.open[cid], kind), c);
  }

  lemma {:induction false} CloseAllAlive(w: World, order: seq<nat>, c: nat)
    requires (forall x :: x in w.open ==> w.open[x].cid == x) && forall i :: 0 <= i < |order| ==> order[i] in w.open
    requires forall i, j :: 0 <= i < j < |order| ==> order[i] != order[j]
    ensures Alive(ClosedAll(w, order), c) <==> Alive(w, c)
    decreases |order|
  {
    if order != [] {
      CloseAlive(w, order[0], Canceled, c);
      CloseAllAlive(Closed(w, order[0], Canceled), order[1..], c);
    }
  }

  /** Only a closing report taken in ends the life of an order that is not being placed. */
  lemma StepAlive(w: World, t: Step, c: nat)
    requires WorldInv(w) && Enabled(w, t) && !HasPlace(w.cmds, c)
    ensures Alive(Stepped(w, t), c) <==> Alive(w, c) && !TakesClosing(w, t, c)
  {
    match t {
      case Quote(d) =>
      case PullAll =>
      case Accept(exchId) =>
        assert HasPlace(w.cmds, w.cmds[0].cid);
        ExecsGrow(w.execs, Exec(w.cmds[0].cid, exchId, 0, Ack), c);
      case Reject =>
        assert HasPlace(w.cmds, w.cmds[0].cid);
        ExecsGrow(w.execs, Exec(w.cmds[0].cid, 0, 0, Rejected), c);
      case DoCancel => if w.cmds[0].cid in w.open { CloseAlive(w, w.cmds[0].cid, Canceled, c); }
      case DoCancelAll(order) => CloseAllAlive(w, order, c);
      case FillPart(cid, cum) => ExecsGrow(w.execs, Exec(cid, w.open[cid].exchId, cum, Partial), c);
      case FillAll(cid) => CloseAlive(w, cid, Filled, c);
      case Expire(cid) => CloseAlive(w, cid, Expired, c);
      case Deliver => DeliverAlive(w, c);
      case Capture(rows) =>
      case Refresh =>
    }
  }

  /** A closing report about an order in `taken` was taken in between states i and j. */
  ghost predicate ClosingTaken(trace: seq<World>, steps: seq<Step>, i: nat, j: nat, taken: map<nat, Row>)
    requires j <= |steps| < |trace|
  {
    exists k, c :: i <= k < j && c in taken && TakesClosing(trace[k], steps[k], c)
  }

  lemma OpenNow(trace: seq<World>, steps: seq<Step>, i: nat)
    requires Run(trace, steps) && i < |trace|
    ensures Past(SysOf(trace[i]), trace[i].open)
  {
    RunKeepsInv(trace, steps, i);
    TakenNow(SysOf(trace[i]));
  }

  lemma PastStep(trace: seq<World>, steps: seq<Step>, k: nat, taken: map<nat, Row>)
    requires Run(trace, steps) && k < |steps| && Past(SysOf(trace[k]), taken)
    ensures Past(SysOf(trace[k + 1]), taken)
  {
    assert Transition(trace[k], steps[k], trace[k + 1]);
    StepKeepsPast(trace[k], steps[k], taken);
  }

  lemma AliveStep(trace: seq<World>, steps: seq<Step>, k: nat, taken: map<nat, Row>, c: nat)
    requires Run(trace, steps) && k < |steps| && Past(SysOf(trace[k]), taken) && c in taken
    ensures Alive(trace[k + 1], c) <==> Alive(trace[k], c) && !TakesClosing(trace[k], steps[k], c)
  {
    RunKeepsInv(trace, steps, k);
    assert Transition(trace[k], steps[k], trace[k + 1]);
    StepAlive(trace[k], steps[k], c);
  }

  lemma {:induction false} PastSince(trace: seq<World>, steps: seq<Step>, i: nat, j: nat)
    requires Run(trace, steps) && i <= j < |trace|
    ensures Past(SysOf(trace[j]), trace[i].open)
    decreases j
  {
    if i == j {
      OpenNow(trace, steps, i);
    } else {
      PastSince(trace, steps, i, j - 1);
      PastStep(trace, steps, j - 1, trace[i].open);
    }
  }

  lemma {:induction false} AliveSince(trace: seq<World>, steps: seq<Step>, i: nat, j: nat, c: nat)
    requires Run(trace, steps) && i <= j < |trace| && c in trace[i].open
    ensures Alive(trace[j], c) <==> forall k :: i <= k < j ==> !TakesClosing(trace[k], steps[k], c)
    decreases j
  {
    if i < j {
      AliveSince(trace, steps, i, j - 1, c);
      PastSince(trace, steps, i, j - 1);
      AliveStep(trace, steps, j - 1, trace[i].open, c);
    }
  }

  /** Over every run, a listing of what was open at moment i may be applied at moment j
      exactly if then no placement is under way, no order accepted since is open, and no
      closing report about a listed order was taken in since. */
  lemma SafeSince(trace: seq<World>, steps: seq<Step>, i: nat, j: nat)
    requires Run(trace, steps) && i <= j < |trace|
    ensures var s, taken := SysOf(trace[j]), trace[i].open;
      OmsExchange.Inv(s.(m := OpenOrders(taken))) <==>
        && NoPlaces(trace[j].cmds) && (forall c :: c in trace[j].open ==> c in taken)
        && !ClosingTaken(trace, steps, i, j, taken)
  {
    var taken := trace[i].open;
    RunKeepsInv(trace, steps, j);
    PastSince(trace, steps, i, j);
    ReportIsSafe(SysOf(trace[j]), taken);
    forall c | c in taken
      ensures Alive(trace[j], c) <==> forall k :: i <= k < j ==> !TakesClosing(trace[k], steps[k], c)
    {
      AliveSince(trace, steps, i, j, c);
    }
  }

  // ------------------------------------------------------------ what goes wrong if not

  ghost predicate NoneListed(taken: map<nat, Row>, side: Side) {
    forall c :: c in taken ==> taken[c].side != side
  }

  lemma ReportRebuilds(w: World, r: Report)
    requires WorldInv(w) && Lists(r.taken, r.rows) && Past(SysOf(w), r.taken)
    ensures Orderly(Rebuilt(w.oms, r.rows), w.nextCid)
    ensures Orders(Rebuilt(w.oms, r.rows).slots) == OpenOrders(r.taken)
  {
    AtMostTwoOpen(SysOf(w), r.taken, r.rows);
    RebuiltOrders(w.oms, r.taken, r.rows);
    DistinctSidesDiffer(Rebuilt(w.oms, r.rows).slots);
  }

  lemma QuoteSends(w: World, d: Desired, side: Side)
    requires Orderly(w.oms, w.nextCid) && NoneOn(w.oms, side) && WantPx(d, side) != 0
    ensures var w' := Quoted(w, d);
      && w.cmds <= w'.cmds && w'.open == w.open
      && exists c2 :: c2 >= w.nextCid && ExposedOn(w', c2, side)
  {
    QuotedIsTwoSides(w, d);
    var w1 := SideQuoted(w, Bid, d.bidPx, d.bidQty);
    var w2 := SideQuoted(w1, Ask, d.askPx, d.askQty);
    if side.Bid? {
      EmptySidePlaces(w.oms, Bid, d.bidPx, d.bidQty, w.nextCid);
      assert w2.cmds[|w.cmds|] == Place(w.oms.nextSeq, w.nextCid, Bid, d.bidPx, d.bidQty);
      assert ExposedOn(w2, w.nextCid, side);
    } else {
      OtherSideStaysEmpty(w.oms, Bid, Ask, d.bidPx, d.bidQty, w.nextCid);
      EmptySidePlaces(w1.oms, Ask, d.askPx, d.askQty, w1.nextCid);
      assert w2.cmds[|w1.cmds|] == Place(w1.oms.nextSeq, w1.nextCid, Ask, d.askPx, d.askQty);
      assert ExposedOn(w2, w1.nextCid, side);
    }
  }

  lemma ExposedIsOld(w: World, c: nat, side: Side)
    requires WorldInv(w) && ExposedOn(w, c, side)
    ensures c < w.nextCid
  {
    ExposedIsKnown(w, c, side);
  }

  /** An order on its way or open that a report does not list loses its slot. If the
      report lists nothing on its side, the next quote that wants the side puts a second
      order on it. */
  lemma LateReportDoublesUp(w: World, r: Report, c: nat, side: Side, d: Desired)
    requires WorldInv(w) && Lists(r.taken, r.rows) && Past(SysOf(w), r.taken)
    requires ExposedOn(w, c, side) && c !in r.taken
    ensures !Found(Rebuilt(w.oms, r.rows).slots, WithId(c))
    ensures NoneListed(r.taken, side) && WantPx(d, side) != 0 ==>
      var w' := Quoted(w.(oms := Rebuilt(w.oms, r.rows)), d);
      ExposedOn(w', c, side) && exists c2 :: c2 != c && ExposedOn(w', c2, side)
  {
    ReportRebuilds(w, r);
    WithIdFound(Rebuilt(w.oms, r.rows).slots, c);
    if NoneListed(r.taken, side) && WantPx(d, side) != 0 {
      ExposedIsOld(w, c, side);
      QuoteSends(w.(oms := Rebuilt(w.oms, r.rows)), d, side);
      StillExposed(w, Quoted(w.(oms := Rebuilt(w.oms, r.rows)), d), c, side);
    }
  }

  lemma StillExposed(w: World, w': World, c: nat, side: Side)
    requires ExposedOn(w, c, side) && w.cmds <= w'.cmds && w'.open == w.open
    ensures ExposedOn(w', c, side)
  {
    if k :| 0 <= k < |w.cmds| && w.cmds[k].Place? && w.cmds[k].cid == c && w.cmds[k].side == side {
      assert w'.cmds[k] == w.cmds[k];
    }
  }

  /** In every state with a placement under way, a truthful report taken now followed
      by any quote that wants that side puts two orders on it. */
  lemma StaleReportDoublesUp(w: World, k: nat, rows: seq<Row>, d: Desired)
    requires WorldInv(w) && k < |w.cmds| && w.cmds[k].Place?
    requires Lists(w.open, rows) && WantPx(d, w.cmds[k].side) != 0
    ensures var c, side, w' := w.cmds[k].cid, w.cmds[k].side, Quoted(w.(oms := Rebuilt(w.oms, rows)), d);
      ExposedOn(w', c, side) && exists c2 :: c2 != c && ExposedOn(w', c2, side)
  {
    assert PlaceOk(SysOf(w), k);
    TakenNow(SysOf(w));
    LateReportDoublesUp(w, Report(rows, w.open), w.cmds[k].cid, w.cmds[k].side, d);
  }

  /** An order that is gone and known to be gone comes back: the state machine holds it
      again, and a quote that asks for just that order sends nothing, although nothing is
      on its way or open on that side. */
  lemma LateReportRevives(w: World, r: Report, c: nat, d: Desired)
    requires WorldInv(w) && Lists(r.taken, r.rows) && Past(SysOf(w), r.taken) && c in r.taken && !Alive(w, c)
    requires WantPx(d, r.taken[c].side) == r.taken[c].px != 0 && WantQty(d, r.taken[c].side) == r.taken[c].qty
    requires forall x :: !ExposedOn(w, x, r.taken[c].side)
    ensures var w' := Quoted(w.(oms := Rebuilt(w.oms, r.rows)), d);
      Found(Rebuilt(w.oms, r.rows).slots, WithId(c)) && forall x :: !ExposedOn(w', x, r.taken[c].side)
  {
    var side, w1 := r.taken[c].side, w.(oms := Rebuilt(w.oms, r.rows));
    ReportRebuilds(w, r);
    WithIdFound(w1.oms.slots, c);
    forall x ensures !ExposedOn(w1, x, side) { assert !ExposedOn(w, x, side); }
    QuoteStaysSilent(w1, side, c, d);
  }

  lemma QuoteStaysSilent(w: World, side: Side, c: nat, d: Desired)
    requires Orderly(w.oms, w.nextCid) && Holds(w.oms, side, c, WantPx(d, side), WantQty(d, side))
    requires WantPx(d, side) != 0 && forall x :: !ExposedOn(w, x, side)
    ensures forall x :: !ExposedOn(Quoted(w, d), x, side)
  {
    QuotedIsTwoSides(w, d);
    if side.Bid? {
      HeldSideSilent(w, side, c, d.bidPx, d.bidQty);
      OtherSideHides(w, Ask, side, d.askPx, d.askQty);
    } else {
      OtherSideHides(w, Bid, side, d.bidPx, d.bidQty);
      OtherSideHolds(w, Bid, side, c, d.bidPx, d.bidQty);
      HeldSideSilent(SideQuoted(w, Bid, d.bidPx, d.bidQty), side, c, d.askPx, d.askQty);
    }
  }

  /** The state machine holds just the wanted order on this side. */
  ghost predicate Holds(v: OmsView, side: Side, c: nat, px: int, qty: int) {
    && Distinct(v.slots) && c in Orders(v.slots)
    && var o := Orders(v.slots)[c]; o.side == side && o.px == px && o.qty == qty && o.state != PendingCancel
  }

  lemma HeldSideSilent(w: World, side: Side, c: nat, px: int, qty: int)
    requires Holds(w.oms, side, c, px, qty) && px != 0
    ensures SideQuoted(w, side, px, qty) == w
  {
    OnSideFound(w.oms.slots, side);
    DistinctSidesDiffer(w.oms.slots);
    assert w.cmds + [] == w.cmds;
  }

  /** Quoting one side sends nothing on the other. */
  lemma OtherSideHides(w: World, side: Side, other: Side, px: int, qty: int)
    requires other != side && forall x :: !ExposedOn(w, x, other)
    ensures forall x :: !ExposedOn(SideQuoted(w, side, px, qty), x, other)
  {
    var w' := SideQuoted(w, side, px, qty);
    forall x ensures !ExposedOn(w', x, other) {
      if ExposedOn(w', x, other) { ExposedBefore(w, side, other, px, qty, x); }
    }
  }

  lemma ExposedBefore(w: World, side: Side, other: Side, px: int, qty: int, x: nat)
    requires other != side && ExposedOn(SideQuoted(w, side, px, qty), x, other)
    ensures ExposedOn(w, x, other)
  {
    var w', out := SideQuoted(w, side, px, qty), SideReconciled(w.oms, side, px, qty, w.nextCid).2;
    assert forall i :: 0 <= i < |out| && out[i].Place? ==> out[i].side == side;
    if k :| 0 <= k < |w'.cmds| && w'.cmds[k].Place? && w'.cmds[k].cid == x && w'.cmds[k].side == other {
      assert w'.cmds == w.cmds + out;
      if k < |w.cmds| { assert w'.cmds[k] == w.cmds[k]; }
    }
  }

  lemma OtherSideHolds(w: World, side: Side, other: Side, c: nat, px: int, qty: int)
    requires other != side && |w.oms.slots| >= 3 && Orderly(w.oms, w.nextCid) && c in Orders(w.oms.slots)
    requires Orders(w.oms.slots)[c].side == other
    ensures var v' := SideQuoted(w, side, px, qty).oms;
      Distinct(v'.slots) && c in Orders(v'.slots) && Orders(v'.slots)[c] == Orders(w.oms.slots)[c]
  {
    if !Found(w.oms.slots, OnSide(side)) && px != 0 {
      SidePlaces(w.oms, side, px, qty, w.nextCid);
    } else if NeedsCancel(w.oms, side, px, qty) {
      SideCancels(w.oms, side, px, qty, w.nextCid);
    }
  }
}
