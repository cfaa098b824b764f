/** With a fixed desired quote and an exchange that accepts and does not fill, two
    rounds of reconcile-then-drain reach the desired orders and stay there. */
module OmsConvergence {
  import opened Events
  import opened Oms
  import opened OmsExchange
  import opened OmsRuns

  function WantPx(d: Desired, side: Side): int { if side.Bid? then d.bidPx else d.askPx }

  function WantQty(d: Desired, side: Side): int { if side.Bid? then d.bidQty else d.askQty }

  /** The order is the one the quote asks for on its side. */
  predicate Right(o: Order, d: Desired) {
    WantPx(d, o.side) != 0 && o.px == WantPx(d, o.side) && o.qty == WantQty(d, o.side)
  }

  function OrdersOf(w: World): map<nat, Order> { Orders(w.oms.slots) }

  // ------------------------------------------------------ what a quote does

  /** How reconciling a side may change the orders m into m'. */
  ghost predicate SideEffect(m: map<nat, Order>, m': map<nat, Order>, side: Side, px: int, qty: int) {
    && (forall c :: c in m ==>
          c in m' && (m'[c] == m[c] || (m[c].side == side && m'[c] == m[c].(state := PendingCancel))))
    && (forall c :: c in m' && c !in m ==> m'[c].side == side && m'[c].state == PendingNew)
    && (forall c :: c in m' && m'[c].side == side ==>
          m'[c].state == PendingCancel || (px != 0 && m'[c].px == px && m'[c].qty == qty))
    && (px != 0 ==> exists c :: c in m' && m'[c].side == side)
  }

  /** What the slots of a world in good order satisfy. */
  lemma SlotBasics(w: World)
    requires WorldInv(w)
    ensures |w.oms.slots| == SLOTS && Distinct(w.oms.slots) && w.nextCid !in OrdersOf(w)
    ensures SidesDiffer(OrdersOf(w))
  {
  }

  ghost predicate SidesDiffer(m: map<nat, Order>) {
    forall c, d :: c in m && d in m && c != d ==> m[c].side != m[d].side
  }

  lemma PlaceEffect(m: map<nat, Order>, o: Order, px: int, qty: int)
    requires o.cid !in m && (forall c :: c in m ==> m[c].side != o.side)
    requires px != 0 && o.px == px && o.qty == qty && o.state == PendingNew
    ensures SideEffect(m, m[o.cid := o], o.side, px, qty)
  {
    assert o.cid in m[o.cid := o];
  }

  lemma CancelEffect(m: map<nat, Order>, c: nat, px: int, qty: int)
    requires SidesDiffer(m) && c in m
    ensures SideEffect(m, m[c := m[c].(state := PendingCancel)], m[c].side, px, qty)
  {
    assert c in m[c := m[c].(state := PendingCancel)];
  }

  lemma NoEffect(m: map<nat, Order>, side: Side, px: int, qty: int, found: bool, c: nat)
    requires SidesDiffer(m)
    requires if found then c in m && m[c].side == side else px == 0 && forall k :: k in m ==> m[k].side != side
    requires found ==> m[c].state == PendingCancel || (px != 0 && m[c].px == px && m[c].qty == qty)
    ensures SideEffect(m, m, side, px, qty)
  {
  }

  lemma SideReconciledEffect(v: OmsView, side: Side, px: int, qty: int, cid: nat)
    requires |v.slots| >= 3 && Distinct(v.slots) && cid !in Orders(v.slots) && SidesDiffer(Orders(v.slots))
    ensures SideEffect(Orders(v.slots), Orders(SideReconciled(v, side, px, qty, cid).0.slots), side, px, qty)
  {
    var m := Orders(v.slots);
    if !Found(v.slots, OnSide(side)) && px != 0 {
      SidePlaces(v, side, px, qty, cid);
      PlaceEffect(m, Order(true, cid, 0, px, qty, 0, side, PendingNew), px, qty);
    } else if NeedsCancel(v, side, px, qty) {
      SideCancels(v, side, px, qty, cid);
      CancelEffect(m, v.slots[First(v.slots, OnSide(side))].cid, px, qty);
    } else {
      OnSideFound(v.slots, side);
      var found := Found(v.slots, OnSide(side));
      NoEffect(m, side, px, qty, found, if found then v.slots[First(v.slots, OnSide(side))].cid else 0);
    }
  }

  lemma SideQuotedOrders(w: World, side: Side, px: int, qty: int)
    requires WorldInv(w)
    ensures SideEffect(OrdersOf(w), OrdersOf(SideQuoted(w, side, px, qty)), side, px, qty)
  {
    SlotBasics(w);
    SideReconciledEffect(w.oms, side, px, qty, w.nextCid);
  }

  /** After a quote every order is wanted or being cancelled, and every wanted side
      has an order. */
  ghost predicate Aligned(m: map<nat, Order>, d: Desired) {
    && (forall c :: c in m ==> Right(m[c], d) || m[c].state == PendingCancel)
    && (forall side :: WantPx(d, side) != 0 ==> exists c :: c in m && m[c].side == side)
  }

  lemma TwoEffectsAlign(m: map<nat, Order>, m1: map<nat, Order>, m2: map<nat, Order>, d: Desired)
    requires SideEffect(m, m1, Bid, d.bidPx, d.bidQty) && SideEffect(m1, m2, Ask, d.askPx, d.askQty)
    ensures Aligned(m2, d)
  {
    if d.bidPx != 0 {
      var c :| c in m1 && m1[c].side == Bid;
      assert c in m2 && m2[c].side == Bid;
    }
    forall c | c in m2 ensures Right(m2[c], d) || m2[c].state == PendingCancel {
      if m2[c].side.Bid? { assert c in m1; }
    }
  }

  lemma QuotedIsAligned(w: World, d: Desired)
    requires WorldInv(w)
    ensures Aligned(OrdersOf(Quoted(w, d)), d)
  {
    QuotedIsTwoSides(w, d);
    SideQuotedOrders(w, Bid, d.bidPx, d.bidQty);
    SideQuoteKeepsInv(w, Bid, d.bidPx, d.bidQty);
    var w1 := SideQuoted(w, Bid, d.bidPx, d.bidQty);
    SideQuotedOrders(w1, Ask, d.askPx, d.askQty);
    TwoEffectsAlign(OrdersOf(w), OrdersOf(w1), OrdersOf(Quoted(w, d)), d);
  }

  // ------------------------------------------------------------------ draining

  /** The exchange accepts and cancels, reports are taken in; nothing else happens. */
  predicate Calm(t: Step) {
    t.Accept? || t.DoCancel? || t.DoCancelAll? || t.Deliver?
  }

  /** A drain in any interleaving, until both queues are empty. */
  ghost predicate Drained(trace: seq<World>, steps: seq<Step>) {
    && |trace| == |steps| + 1
    && (forall i :: 0 <= i < |steps| ==> Calm(steps[i]) && Transition(trace[i], steps[i], trace[i + 1]))
    && trace[|steps|].cmds == [] && trace[|steps|].execs == []
  }

  /** Every order is wanted or will be gone by the end of the drain. */
  ghost predicate Settling(w: World, d: Desired) {
    forall c :: c in OrdersOf(w) ==> Right(OrdersOf(w)[c], d) || Doomed(SysOf(w), c)
  }

  lemma AcceptKeepsDoom(w: World, exchId: nat, c: nat)
    requires WorldInv(w) && w.cmds != [] && w.cmds[0].Place? && Doomed(SysOf(w), c)
    ensures Doomed(SysOf(Accepted(w, exchId)), c)
  {
    CmdsShrink(w.cmds, c);
    ExecsGrow(w.execs, Exec(w.cmds[0].cid, exchId, 0, Ack), c);
  }

  lemma {:induction false} ClosedAllKeepsReports(w: World, order: seq<nat>, c: nat)
    requires forall i :: 0 <= i < |order| ==> order[i] in w.open
    requires forall i, j :: 0 <= i < j < |order| ==> order[i] != order[j]
    requires HasTerminal(w.execs, c)
    ensures HasTerminal(ClosedAll(w, order).execs, c)
    decreases |order|
  {
    if order != [] {
      ExecsGrow(w.execs, CloseReport(w.open[order[0]], Canceled), c);
      ClosedAllKeepsReports(Closed(w, order[0], Canceled), order[1..], c);
    }
  }

  /** Executing a cancel keeps every doomed order doomed. */
  lemma CancelKeepsDoom(w: World, w': World, c: nat)
    requires NoLeaks(SysOf(w')) && w.cmds != [] && !w.cmds[0].Place? && w'.cmds == w.cmds[1..]
    requires w'.oms == w.oms && c in OrdersOf(w) && Doomed(SysOf(w), c)
    requires HasTerminal(w.execs, c) ==> HasTerminal(w'.execs, c)
    requires Kills(w.cmds[0], c) ==> c !in w'.open
    ensures Doomed(SysOf(w'), c)
  {
    CmdsShrink(w.cmds, c);
  }

  lemma SettlingCarries(w: World, w': World, d: Desired)
    requires Settling(w, d) && w'.oms == w.oms
    requires forall c :: c in OrdersOf(w) && Doomed(SysOf(w), c) ==> Doomed(SysOf(w'), c)
    ensures Settling(w', d)
  {
  }

  lemma CalmKeepsSettling(w: World, t: Step, d: Desired)
    requires WorldInv(w) && Enabled(w, t) && Calm(t) && Settling(w, d)
    ensures Settling(Stepped(w, t), d)
  {
    if t.Deliver? {
      DeliverKeepsSettling(w, d);
    } else {
      var w' := Stepped(w, t);
      ExchangeKeepsAllDoom(w, t);
      SettlingCarries(w, w', d);
    }
  }

  lemma ExchangeKeepsAllDoom(w: World, t: Step)
    requires WorldInv(w) && Enabled(w, t) && Calm(t) && !t.Deliver?
    ensures Stepped(w, t).oms == w.oms
    ensures forall c :: c in OrdersOf(w) && Doomed(SysOf(w), c) ==> Doomed(SysOf(Stepped(w, t)), c)
  {
    if t.DoCancelAll? { CloseAllKeepsInv(w, t.order); }
    forall c | c in OrdersOf(w) && Doomed(SysOf(w), c) ensures Doomed(SysOf(Stepped(w, t)), c) {
      ExchangeKeepsDoom(w, t, c);
    }
  }

  lemma ExchangeKeepsDoom(w: World, t: Step, c: nat)
    requires WorldInv(w) && Enabled(w, t) && Calm(t) && !t.Deliver? && c in OrdersOf(w) && Doomed(SysOf(w), c)
    ensures Doomed(SysOf(Stepped(w, t)), c)
    ensures Stepped(w, t).oms == w.oms
  {
    match t {
      case Accept(exchId) => AcceptKeepsDoom(w, exchId, c);
      case DoCancel => DoCancelKeepsDoom(w, c);
      case DoCancelAll(order) =>
        CloseAllKeepsInv(w, order);
        DoCancelAllKeepsDoom(w, order, c);
    }
  }

  lemma CancelKeepsReports(w: World, c: nat)
    requires w.cmds != [] && w.cmds[0].Cancel?
    ensures HasTerminal(w.execs, c) ==> HasTerminal(CancelDone(w).execs, c)
  {
    var k := w.cmds[0].cid;
    if k in w.open { ExecsGrow(w.execs, CloseReport(w.open[k], Canceled), c); }
  }

  lemma DoCancelKeepsDoom(w: World, c: nat)
    requires WorldInv(w) && Enabled(w, DoCancel) && c in OrdersOf(w) && Doomed(SysOf(w), c)
    ensures Doomed(SysOf(CancelDone(w)), c)
  {
    CancelStepKeepsInv(w);
    DoneKeepsDoom(w, c);
  }

  lemma DoneKeepsDoom(w: World, c: nat)
    requires w.cmds != [] && w.cmds[0].Cancel? && NoLeaks(SysOf(CancelDone(w)))
    requires c in OrdersOf(w) && Doomed(SysOf(w), c)
    ensures Doomed(SysOf(CancelDone(w)), c)
  {
    CancelKeepsReports(w, c);
    CancelKeepsDoom(w, CancelDone(w), c);
  }

  lemma DoCancelAllKeepsDoom(w: World, order: seq<nat>, c: nat)
    requires WorldInv(w) && Enabled(w, DoCancelAll(order)) && c in OrdersOf(w) && Doomed(SysOf(w), c)
    ensures Doomed(SysOf(Stepped(w, DoCancelAll(order))), c)
  {
    StepKeepsInv(w, DoCancelAll(order));
    CloseAllKeepsInv(w, order);
    if HasTerminal(w.execs, c) { ClosedAllKeepsReports(w, order, c); }
    CancelKeepsDoom(w, Stepped(w, DoCancelAll(order)), c);
  }

  lemma DeliveredOrders(w: World)
    requires WorldInv(w) && w.execs != []
    ensures OrdersOf(Delivered(w)) == OrdersAfter(OrdersOf(w), w.execs[0])
  {
    ExecutedOrders(w.oms, w.execs[0]);
  }

  lemma DeliverKeepsSettling(w: World, d: Desired)
    requires WorldInv(w) && w.execs != [] && Settling(w, d)
    ensures Settling(Delivered(w), d)
  {
    DeliveredOrders(w);
    var m' := OrdersOf(Delivered(w));
    forall c | c in m' ensures Right(m'[c], d) || Doomed(SysOf(Delivered(w)), c) {
      OrdersAfterKeeps(OrdersOf(w), w.execs[0], c);
      ExecsShrink(w.execs, c);
    }
  }

  lemma {:induction false} DrainKeepsSettling(trace: seq<World>, steps: seq<Step>, d: Desired, i: nat)
    requires Drained(trace, steps) && i < |trace| && WorldInv(trace[0]) && Settling(trace[0], d)
    ensures WorldInv(trace[i]) && Settling(trace[i], d)
    decreases i
  {
    if i > 0 {
      DrainKeepsSettling(trace, steps, d, i - 1);
      assert Calm(steps[i - 1]) && Transition(trace[i - 1], steps[i - 1], trace[i]);
      StepKeepsInv(trace[i - 1], steps[i - 1]);
      CalmKeepsSettling(trace[i - 1], steps[i - 1], d);
    }
  }

  /** After one round nothing unwanted is left, and no cancel is pending. */
  lemma FirstRound(w: World, d: Desired, trace: seq<World>, steps: seq<Step>)
    requires WorldInv(w) && Drained(trace, steps) && trace[0] == Quoted(w, d)
    ensures var w' := trace[|steps|];
      && WorldInv(w')
      && forall c :: c in OrdersOf(w') ==> Right(OrdersOf(w')[c], d) && OrdersOf(w')[c].state != PendingCancel
  {
    StepKeepsInv(w, Quote(d));
    QuotedIsAligned(w, d);
    assert Settling(trace[0], d);
    DrainKeepsSettling(trace, steps, d, |steps|);
  }

  // ------------------------------------------------------------- second round

  /** Only placements and acknowledgements are under way; every order is wanted,
      none is being cancelled, and every wanted side has one. */
  ghost predicate Arriving(w: World, d: Desired) {
    && OnlyPlaces(w.cmds)
    && (forall k :: 0 <= k < |w.execs| ==> !Terminal(w.execs[k].kind))
    && AllWanted(OrdersOf(w), d)
  }

  ghost predicate AllWanted(m: map<nat, Order>, d: Desired) {
    && (forall c :: c in m ==> Right(m[c], d) && m[c].state != PendingCancel)
    && (forall side :: WantPx(d, side) != 0 ==> exists c :: c in m && m[c].side == side)
  }

  ghost predicate OnlyPlaces(cmds: seq<Command>) {
    forall k :: 0 <= k < |cmds| ==> cmds[k].Place?
  }

  /** Quoting a side whose order, if any, is wanted and settled sends no cancel. */
  lemma SideOnlyPlaces(w: World, side: Side, d: Desired)
    requires WorldInv(w) && OnlyPlaces(w.cmds)
    requires forall c :: c in OrdersOf(w) && OrdersOf(w)[c].side == side ==> Right(OrdersOf(w)[c], d)
    ensures var w' := SideQuoted(w, side, WantPx(d, side), WantQty(d, side));
      && OnlyPlaces(w'.cmds) && w'.execs == w.execs
      && forall c :: c in OrdersOf(w) ==> c in OrdersOf(w') && OrdersOf(w')[c] == OrdersOf(w)[c]
  {
    SlotBasics(w);
    OnSideFound(w.oms.slots, side);
    if !Found(w.oms.slots, OnSide(side)) && WantPx(d, side) != 0 {
      SidePlaces(w.oms, side, WantPx(d, side), WantQty(d, side), w.nextCid);
    }
  }

  lemma SecondQuote(w: World, d: Desired)
    requires WorldInv(w) && w.cmds == [] && w.execs == []
    requires forall c :: c in OrdersOf(w) ==> Right(OrdersOf(w)[c], d) && OrdersOf(w)[c].state != PendingCancel
    ensures WorldInv(Quoted(w, d)) && Arriving(Quoted(w, d), d)
  {
    StepKeepsInv(w, Quote(d));
    QuotedIsAligned(w, d);
    SecondQuotePlaces(w, d);
  }

  lemma SecondQuotePlaces(w: World, d: Desired)
    requires WorldInv(w) && w.cmds == [] && w.execs == []
    requires forall c :: c in OrdersOf(w) ==> Right(OrdersOf(w)[c], d) && OrdersOf(w)[c].state != PendingCancel
    ensures OnlyPlaces(Quoted(w, d).cmds) && Quoted(w, d).execs == []
    ensures var m := OrdersOf(Quoted(w, d)); forall c :: c in m ==> m[c].state != PendingCancel
  {
    var w1 := SideQuoted(w, Bid, d.bidPx, d.bidQty);
    QuotedIsTwoSides(w, d);
    SideOnlyPlaces(w, Bid, d);
    SideQuotedOrders(w, Bid, d.bidPx, d.bidQty);
    SideQuoteKeepsInv(w, Bid, d.bidPx, d.bidQty);
    SideOnlyPlaces(w1, Ask, d);
    SideQuotedOrders(w1, Ask, d.askPx, d.askQty);
  }

  lemma CalmKeepsArriving(w: World, t: Step, d: Desired)
    requires WorldInv(w) && Enabled(w, t) && Calm(t) && Arriving(w, d)
    ensures Arriving(Stepped(w, t), d)
  {
    if t.Deliver? {
      DeliverKeepsArriving(w, d);
    } else if t.Accept? {
      AcceptKeepsArriving(w, t.exchId, d);
    }
  }

  lemma AcceptKeepsArriving(w: World, exchId: nat, d: Desired)
    requires w.cmds != [] && w.cmds[0].Place? && Arriving(w, d)
    ensures Arriving(Accepted(w, exchId), d)
  {
    assert OrdersOf(Accepted(w, exchId)) == OrdersOf(w);
  }

  lemma ReportKeepsWanted(m: map<nat, Order>, e: Exec, d: Desired)
    requires AllWanted(m, d) && !Terminal(e.kind)
    ensures AllWanted(OrdersAfter(m, e), d)
  {
    var m' := OrdersAfter(m, e);
    forall c | c in m' ensures Right(m'[c], d) && m'[c].state != PendingCancel { OrdersAfterKeeps(m, e, c); }
    forall side | WantPx(d, side) != 0 ensures exists c :: c in m' && m'[c].side == side {
      var c :| c in m && m[c].side == side;
      OrdersAfterKeeps(m, e, c);
      assert c in m' && m'[c].side == side;
    }
  }

  lemma DeliverKeepsArriving(w: World, d: Desired)
    requires WorldInv(w) && w.execs != [] && Arriving(w, d)
    ensures Arriving(Delivered(w), d)
  {
    DeliveredOrders(w);
    ReportKeepsWanted(OrdersOf(w), w.execs[0], d);
  }

  lemma {:induction false} DrainKeepsArriving(trace: seq<World>, steps: seq<Step>, d: Desired, i: nat)
    requires Drained(trace, steps) && i < |trace| && WorldInv(trace[0]) && Arriving(trace[0], d)
    ensures WorldInv(trace[i]) && Arriving(trace[i], d)
    decreases i
  {
    if i > 0 {
      DrainKeepsArriving(trace, steps, d, i - 1);
      assert Calm(steps[i - 1]) && Transition(trace[i - 1], steps[i - 1], trace[i]);
      StepKeepsInv(trace[i - 1], steps[i - 1]);
      CalmKeepsArriving(trace[i - 1], steps[i - 1], d);
    }
  }

  /** Exactly the desired orders are open at the exchange. */
  ghost predicate Resting(w: World, d: Desired) {
    && (forall c :: c in w.open ==>
          WantPx(d, w.open[c].side) != 0 && w.open[c].px == WantPx(d, w.open[c].side)
          && w.open[c].qty == WantQty(d, w.open[c].side))
    && (forall side :: WantPx(d, side) != 0 ==> exists c :: c in w.open && w.open[c].side == side)
    && (forall c1, c2 :: c1 in w.open && c2 in w.open && w.open[c1].side == w.open[c2].side ==> c1 == c2)
  }

  lemma ArrivedIsResting(w: World, d: Desired)
    requires WorldInv(w) && Arriving(w, d) && w.cmds == [] && w.execs == []
    ensures Resting(w, d)
  {
    DrainedIsOpen(SysOf(w));
    WantedIsResting(w, d);
  }

  /** With both queues empty, known and open orders are the same. */
  lemma DrainedIsOpen(s: Sys)
    requires OmsExchange.Inv(s) && s.cmds == [] && s.execs == []
    ensures SameOrders(s.m, s.open) && SidesDiffer(s.m)
  {
  }

  ghost predicate SameOrders(m: map<nat, Order>, open: map<nat, Row>) {
    && (forall c :: c in m <==> c in open)
    && (forall c :: c in m ==> m[c].side == open[c].side && m[c].px == open[c].px && m[c].qty == open[c].qty)
  }

  lemma WantedIsResting(w: World, d: Desired)
    requires SameOrders(OrdersOf(w), w.open) && SidesDiffer(OrdersOf(w)) && AllWanted(OrdersOf(w), d)
    ensures Resting(w, d)
  {
    var m := OrdersOf(w);
    forall side | WantPx(d, side) != 0 ensures exists c :: c in w.open && w.open[c].side == side {
      var c :| c in m && m[c].side == side;
      assert c in w.open;
    }
  }

  lemma ArrivedIsSilent(w: World, d: Desired, cid: nat)
    requires WorldInv(w) && Arriving(w, d)
    ensures Reconciled(w.oms, d, cid) == (w.oms, cid, [])
  {
    SideIsSilent(w, Bid, d, cid);
    SideIsSilent(w, Ask, d, cid);
    var none: seq<Command> := [];
    assert none + none == none;
  }

  lemma SideIsSilent(w: World, side: Side, d: Desired, cid: nat)
    requires WorldInv(w) && Arriving(w, d)
    ensures SideReconciled(w.oms, side, WantPx(d, side), WantQty(d, side), cid) == (w.oms, cid, [])
  {
    SlotBasics(w);
    OnSideFound(w.oms.slots, side);
    if Found(w.oms.slots, OnSide(side)) {
      var o := w.oms.slots[First(w.oms.slots, OnSide(side))];
      assert Right(OrdersOf(w)[o.cid], d);
    }
  }

  /** Two rounds suffice: whatever state the run was in, after reconciling with d
      and draining twice, exactly the desired orders rest at the exchange, and
      reconciling with d again emits nothing. */
  lemma TwoRoundsConverge(w: World, d: Desired, trace1: seq<World>, steps1: seq<Step>,
                          trace2: seq<World>, steps2: seq<Step>)
    requires WorldInv(w)
    requires Drained(trace1, steps1) && trace1[0] == Quoted(w, d)
    requires Drained(trace2, steps2) && trace2[0] == Quoted(trace1[|steps1|], d)
    ensures var w' := trace2[|steps2|];
      Resting(w', d) && forall cid: nat :: Reconciled(w'.oms, d, cid) == (w'.oms, cid, [])
  {
    FirstRound(w, d, trace1, steps1);
    SecondQuote(trace1[|steps1|], d);
    DrainKeepsArriving(trace2, steps2, d, |steps2|);
    var w' := trace2[|steps2|];
    ArrivedIsResting(w', d);
    forall cid: nat ensures Reconciled(w'.oms, d, cid) == (w'.oms, cid, []) { ArrivedIsSilent(w', d, cid); }
  }

  // ----------------------------------------------------------- drains always exist

  lemma {:induction false} SetListed(s: set<nat>) returns (ids: seq<nat>)
    ensures forall i :: 0 <= i < |ids| ==> ids[i] in s
    ensures forall i, j :: 0 <= i < j < |ids| ==> ids[i] != ids[j]
    ensures forall c :: c in s ==> c in ids
    decreases |s|
  {
    if s == {} {
      ids := [];
    } else {
      var c :| c in s;
      var rest := SetListed(s - {c});
      ids := [c] + rest;
    }
  }

  lemma DrainedCons(w: World, t: Step, trace: seq<World>, steps: seq<Step>)
    requires Drained(trace, steps) && Calm(t) && Transition(w, t, trace[0])
    ensures Drained([w] + trace, [t] + steps)
  {
    var tr, st := [w] + trace, [t] + steps;
    forall i | 0 <= i < |st| ensures Calm(st[i]) && Transition(tr[i], st[i], tr[i + 1]) {
      if i > 0 { assert Transition(trace[i - 1], steps[i - 1], trace[i]); }
    }
  }

  /** The calm step that makes progress from here. */
  lemma CalmStep(w: World) returns (t: Step)
    requires w.cmds != [] || w.execs != []
    ensures Enabled(w, t) && Calm(t)
    ensures var w' := Stepped(w, t);
      |w'.cmds| < |w.cmds| || (w'.cmds == w.cmds && |w'.execs| < |w.execs|)
  {
    if w.cmds == [] {
      t := Deliver;
    } else if w.cmds[0].Place? {
      t := Accept(0);
    } else if w.cmds[0].Cancel? {
      t := DoCancel;
    } else {
      var ids := SetListed(w.open.Keys);
      t := DoCancelAll(ids);
    }
  }

  /** From every state some drain exists, so two rounds can always be completed. */
  lemma {:induction false} DrainExists(w: World) returns (trace: seq<World>, steps: seq<Step>)
    ensures Drained(trace, steps) && trace[0] == w
    decreases |w.cmds|, |w.execs|
  {
    if w.cmds == [] && w.execs == [] {
      trace, steps := [w], [];
    } else {
      var t := CalmStep(w);
      var tr, st := DrainExists(Stepped(w, t));
      DrainedCons(w, t, tr, st);
      trace, steps := [w] + tr, [t] + st;
    }
  }
}
