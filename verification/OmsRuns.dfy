/** Every run of the order state machine against a truthful exchange. */
module OmsRuns {
  import opened Events
  import opened Oms
  import opened OmsExchange

  /** A listing of the open orders on its way, and what was open when it was taken. */
  datatype Report = Report(rows: seq<Row>, taken: map<nat, Row>)

  datatype World = World(oms: OmsView, nextCid: nat, cmds: seq<Command>, open: map<nat, Row>, execs: seq<Exec>,
                         reports: seq<Report>)

  function SysOf(w: World): Sys {
    Sys(Orders(w.oms.slots), w.nextCid, w.cmds, w.open, w.execs)
  }

  /** What can happen next, on either side of the queues. */
  datatype Step =
    | Quote(d: Desired)                 // reconcile with a desired quote
    | PullAll                           // cancel-all
    | Accept(exchId: nat) | Reject      // the exchange answers the first placement
    | DoCancel                          // ... executes the first cancel
    | DoCancelAll(order: seq<nat>)      // ... or cancel-all, closing orders in some order
    | FillPart(cid: nat, cum: int) | FillAll(cid: nat) | Expire(cid: nat)
    | Deliver                           // the state machine takes in the first report
    | Capture(rows: seq<Row>)           // the exchange lists its open orders
    | Refresh                           // the state machine takes in the first listing

  function CloseReport(r: Row, kind: ExecKind): Exec {
    Exec(r.cid, r.exchId, r.cum, kind)
  }

  /** The rows list each open order exactly once. */
  ghost predicate Lists(open: map<nat, Row>, rows: seq<Row>) {
    && (forall i :: 0 <= i < |rows| ==> rows[i].cid in open && open[rows[i].cid] == rows[i])
    && (forall i, j :: 0 <= i < j < |rows| ==> rows[i].cid != rows[j].cid)
    && (forall c :: c in open ==> exists i :: 0 <= i < |rows| && rows[i].cid == c)
  }

  ghost predicate ListsIds(open: map<nat, Row>, ids: seq<nat>) {
    && (forall i :: 0 <= i < |ids| ==> ids[i] in open)
    && (forall i, j :: 0 <= i < j < |ids| ==> ids[i] != ids[j])
    && (forall c :: c in open ==> c in ids)
  }

  ghost predicate Enabled(w: World, t: Step) {
    match t
    case Quote(_) => true
    case PullAll => true
    case Accept(_) => w.cmds != [] && w.cmds[0].Place?
    case Reject => w.cmds != [] && w.cmds[0].Place?
    case DoCancel => w.cmds != [] && w.cmds[0].Cancel?
    case DoCancelAll(order) => w.cmds != [] && w.cmds[0].CancelAll? && ListsIds(w.open, order)
    case FillPart(cid, _) => cid in w.open
    case FillAll(cid) => cid in w.open
    case Expire(cid) => cid in w.open
    case Deliver => w.execs != []
    case Capture(rows) => Lists(w.open, rows)
    case Refresh => w.reports != [] && Current(SysOf(w), w.reports[0].taken)
  }

  function Closed(w: World, cid: nat, kind: ExecKind): World
    requires cid in w.open
  {
    w.(open := w.open - {cid}, execs := w.execs + [CloseReport(w.open[cid], kind)])
  }

  function ClosedAll(w: World, order: seq<nat>): World
    requires forall i :: 0 <= i < |order| ==> order[i] in w.open
    requires forall i, j :: 0 <= i < j < |order| ==> order[i] != order[j]
    decreases |order|
  {
    if order == [] then w else ClosedAll(Closed(w, order[0], Canceled), order[1..])
  }

  function SideQuoted(w: World, side: Side, px: int, qty: int): World {
    var (v, cid, out) := SideReconciled(w.oms, side, px, qty, w.nextCid);
    w.(oms := v, nextCid := cid, cmds := w.cmds + out)
  }

  function Quoted(w: World, d: Desired): World {
    var (v, cid, out) := Reconciled(w.oms, d, w.nextCid);
    w.(oms := v, nextCid := cid, cmds := w.cmds + out)
  }

  function Accepted(w: World, exchId: nat): World
    requires w.cmds != [] && w.cmds[0].Place?
  {
    var c := w.cmds[0];
    w.(cmds := w.cmds[1..], open := w.open[c.cid := Row(c.cid, exchId, c.px, c.qty, 0, c.side)],
       execs := w.execs + [Exec(c.cid, exchId, 0, Ack)])
  }

  function CancelDone(w: World): World
    requires w.cmds != [] && w.cmds[0].Cancel?
  {
    var w1 := if w.cmds[0].cid in w.open then Closed(w, w.cmds[0].cid, Canceled) else w;
    w1.(cmds := w.cmds[1..])
  }

  function Delivered(w: World): World
    requires w.execs != []
  {
    w.(oms := Executed(w.oms, w.execs[0]), execs := w.execs[1..])
  }

  ghost function Stepped(w: World, t: Step): World
    requires Enabled(w, t)
  {
    match t
    case Quote(d) => Quoted(w, d)
    case PullAll => var (v, out) := AllCancelSent(w.oms); w.(oms := v, cmds := w.cmds + out)
    case Accept(exchId) => Accepted(w, exchId)
    case Reject => w.(cmds := w.cmds[1..], execs := w.execs + [Exec(w.cmds[0].cid, 0, 0, Rejected)])
    case DoCancel => CancelDone(w)
    case DoCancelAll(order) => ClosedAll(w, order).(cmds := w.cmds[1..])
    case FillPart(cid, cum) =>
      w.(open := w.open[cid := w.open[cid].(cum := cum)],
         execs := w.execs + [Exec(cid, w.open[cid].exchId, cum, Partial)])
    case FillAll(cid) => Closed(w, cid, Filled)
    case Expire(cid) => Closed(w, cid, Expired)
    case Deliver => Delivered(w)
    case Capture(rows) => w.(reports := w.reports + [Report(rows, w.open)])
    case Refresh => w.(oms := Rebuilt(w.oms, w.reports[0].rows), reports := w.reports[1..])
  }

  ghost predicate WorldInv(w: World) {
    |w.oms.slots| == SLOTS && Distinct(w.oms.slots) && OmsExchange.Inv(SysOf(w))
  }

  /** Every listing on its way was true when it was taken. */
  ghost predicate ReportsOk(w: World) {
    forall r :: r in w.reports ==> Lists(r.taken, r.rows) && Past(SysOf(w), r.taken)
  }

  // ------------------------------------------------------------- steps keep it

  /** An empty side that is wanted gets one new order. */
  lemma SidePlaces(v: OmsView, side: Side, px: int, qty: int, cid: nat)
    requires |v.slots| >= 3 && Distinct(v.slots) && cid !in Orders(v.slots)
    requires px != 0 && !Found(v.slots, OnSide(side))
    ensures forall c :: c in Orders(v.slots) ==> Orders(v.slots)[c].side != side
    ensures var (v', cid', out) := SideReconciled(v, side, px, qty, cid);
      && Distinct(v'.slots) && |v'.slots| == |v.slots| && cid' == cid + 1
      && out == [Place(v.nextSeq, cid, side, px, qty)]
      && Orders(v'.slots) == Orders(v.slots)[cid := Order(true, cid, 0, px, qty, 0, side, PendingNew)]
  {
    FreeSlotExists(v.slots);
    OnSideFound(v.slots, side);
    OrdersAdd(v.slots, First(v.slots, Free), Order(true, cid, 0, px, qty, 0, side, PendingNew));
  }

  /** The order on this side is neither wanted as it is nor already being cancelled. */
  predicate NeedsCancel(v: OmsView, side: Side, px: int, qty: int) {
    Found(v.slots, OnSide(side)) &&
    var o := v.slots[First(v.slots, OnSide(side))];
    o.state != PendingCancel && !(px != 0 && o.px == px && o.qty == qty)
  }

  /** Such an order is marked and a cancel is sent for it. */
  lemma SideCancels(v: OmsView, side: Side, px: int, qty: int, cid: nat)
    requires Distinct(v.slots) && NeedsCancel(v, side, px, qty)
    ensures var (v', cid', out) := SideReconciled(v, side, px, qty, cid);
      var o := v.slots[First(v.slots, OnSide(side))];
      && Distinct(v'.slots) && |v'.slots| == |v.slots| && cid' == cid
      && out == [Cancel(v.nextSeq, o.cid, side)]
      && o.cid in Orders(v.slots) && Orders(v.slots)[o.cid] == o && o.side == side
      && Orders(v'.slots) == Orders(v.slots)[o.cid := o.(state := PendingCancel)]
  {
    var i := First(v.slots, OnSide(side));
    OnSideFound(v.slots, side);
    OrdersUpdate(v.slots, i, v.slots[i].(state := PendingCancel));
  }

  lemma QuotePlacesKeepsInv(w: World, side: Side, px: int, qty: int)
    requires WorldInv(w) && px != 0 && !Found(w.oms.slots, OnSide(side))
    ensures WorldInv(SideQuoted(w, side, px, qty))
  {
    SidePlaces(w.oms, side, px, qty, w.nextCid);
    var s' := PlaceKeepsInv(SysOf(w), Order(true, w.nextCid, 0, px, qty, 0, side, PendingNew),
                            Place(w.oms.nextSeq, w.nextCid, side, px, qty));
    assert SysOf(SideQuoted(w, side, px, qty)) == s';
  }

  lemma QuoteCancelsKeepsInv(w: World, side: Side, px: int, qty: int)
    requires WorldInv(w) && NeedsCancel(w.oms, side, px, qty)
    ensures WorldInv(SideQuoted(w, side, px, qty))
  {
    SideCancels(w.oms, side, px, qty, w.nextCid);
    var o := w.oms.slots[First(w.oms.slots, OnSide(side))];
    var s' := CancelKeepsInv(SysOf(w), Orders(w.oms.slots)[o.cid := o.(state := PendingCancel)],
                             Cancel(w.oms.nextSeq, o.cid, side));
    InvFrom(SideQuoted(w, side, px, qty), s');
  }

  lemma InvFrom(w: World, s: Sys)
    requires OmsExchange.Inv(s) && |w.oms.slots| == SLOTS && Distinct(w.oms.slots)
    requires Orders(w.oms.slots) == s.m && w.nextCid == s.nextCid && w.cmds == s.cmds
    requires w.open == s.open && w.execs == s.execs
    ensures WorldInv(w)
  {
    assert SysOf(w) == s;
  }

  lemma SideQuoteKeepsInv(w: World, side: Side, px: int, qty: int)
    requires WorldInv(w)
    ensures WorldInv(SideQuoted(w, side, px, qty))
  {
    if !Found(w.oms.slots, OnSide(side)) && px != 0 {
      QuotePlacesKeepsInv(w, side, px, qty);
    } else if NeedsCancel(w.oms, side, px, qty) {
      QuoteCancelsKeepsInv(w, side, px, qty);
    } else {
      assert w.cmds + [] == w.cmds;
      assert SideQuoted(w, side, px, qty) == w;
    }
  }

  lemma QuotedIsTwoSides(w: World, d: Desired)
    ensures Quoted(w, d) == SideQuoted(SideQuoted(w, Bid, d.bidPx, d.bidQty), Ask, d.askPx, d.askQty)
  {
    var (v1, cid1, c1) := SideReconciled(w.oms, Bid, d.bidPx, d.bidQty, w.nextCid);
    var (v2, cid2, c2) := SideReconciled(v1, Ask, d.askPx, d.askQty, cid1);
    assert w.cmds + (c1 + c2) == w.cmds + c1 + c2;
  }

  /** Relabelling active slots keeps the same client ids. */
  lemma RelabelledOrders(slots: seq<Order>, t: seq<Order>)
    requires Distinct(slots) && |t| == |slots|
    requires forall i :: 0 <= i < |t| ==>
      t[i].active == slots[i].active && t[i].cid == slots[i].cid && t[i].side == slots[i].side
    ensures Distinct(t) && Orders(t).Keys == Orders(slots).Keys
    ensures forall i :: 0 <= i < |t| && slots[i].active ==>
      slots[i].cid in Orders(t) && Orders(t)[slots[i].cid] == t[i]
  {
    assert Distinct(t);
    OrdersAt(t);
    assert Ids(t) == Ids(slots) by {
      forall c | c in Ids(slots) ensures c in Ids(t) {
        var i :| 0 <= i < |slots| && slots[i].active && slots[i].cid == c;
        assert t[i].active && t[i].cid == c;
      }
      forall c | c in Ids(t) ensures c in Ids(slots) {
        var i :| 0 <= i < |t| && t[i].active && t[i].cid == c;
        assert slots[i].active && slots[i].cid == c;
      }
    }
  }

  lemma AllCancelSentOrders(v: OmsView)
    requires Distinct(v.slots)
    ensures var m, m' := Orders(v.slots), Orders(AllCancelSent(v).0.slots);
      m'.Keys == m.Keys && forall c :: c in m ==> m'[c] == m[c].(state := PendingCancel)
    ensures Distinct(AllCancelSent(v).0.slots) && |AllCancelSent(v).0.slots| == |v.slots|
  {
    var slots, t := v.slots, AllCancelSent(v).0.slots;
    assert forall i :: 0 <= i < |t| ==> t[i] == if slots[i].active then slots[i].(state := PendingCancel) else slots[i];
    RelabelledOrders(slots, t);
    OrdersAt(slots);
    forall c | c in Orders(slots) ensures Orders(t)[c] == Orders(slots)[c].(state := PendingCancel) {
      var i :| 0 <= i < |slots| && slots[i] == Orders(slots)[c];
    }
  }

  lemma PullAllKeepsInv(w: World)
    requires WorldInv(w)
    ensures WorldInv(Stepped(w, PullAll))
  {
    AllCancelSentOrders(w.oms);
    var _ := CancelKeepsInv(SysOf(w), Orders(AllCancelSent(w.oms).0.slots), CancelAll(w.oms.nextSeq));
  }

  lemma DeliverStepKeepsInv(w: World)
    requires WorldInv(w) && w.execs != []
    ensures WorldInv(Delivered(w))
  {
    var s' := DeliverKeepsInv(SysOf(w));
    ExecutedOrders(w.oms, w.execs[0]);
    assert SysOf(Delivered(w)) == s';
  }

  /** What taking in a report does to the orders. */
  lemma ExecutedOrders(v: OmsView, e: Exec)
    requires Distinct(v.slots)
    ensures Distinct(Executed(v, e).slots) && |Executed(v, e).slots| == |v.slots|
    ensures Orders(Executed(v, e).slots) == OrdersAfter(Orders(v.slots), e)
  {
    WithIdFound(v.slots, e.cid);
    var i := First(v.slots, WithId(e.cid));
    if i < |v.slots| {
      if Terminal(e.kind) {
        OrdersRetire(v.slots, i, Reported(v.slots[i], e));
      } else {
        OrdersUpdate(v.slots, i, Reported(v.slots[i], e));
      }
    }
  }

  lemma CloseStepKeepsInv(w: World, cid: nat, kind: ExecKind)
    requires WorldInv(w) && cid in w.open && Terminal(kind)
    ensures WorldInv(Closed(w, cid, kind))
  {
    var _ := CloseKeepsInv(SysOf(w), CloseReport(w.open[cid], kind));
  }

  lemma {:induction false} ClosedAllOpen(w: World, order: seq<nat>)
    requires forall i :: 0 <= i < |order| ==> order[i] in w.open
    requires forall i, j :: 0 <= i < j < |order| ==> order[i] != order[j]
    ensures var w' := ClosedAll(w, order);
      && w'.cmds == w.cmds && w'.oms == w.oms && w'.nextCid == w.nextCid
      && (forall c :: c in w'.open <==> c in w.open && c !in order)
    decreases |order|
  {
    if order != [] {
      ClosedAllOpen(Closed(w, order[0], Canceled), order[1..]);
      assert order == [order[0]] + order[1..];
    }
  }

  lemma {:induction false} ClosedAllInv(w: World, order: seq<nat>)
    requires WorldInv(w)
    requires forall i :: 0 <= i < |order| ==> order[i] in w.open
    requires forall i, j :: 0 <= i < j < |order| ==> order[i] != order[j]
    ensures WorldInv(ClosedAll(w, order))
    decreases |order|
  {
    if order != [] {
      CloseStepKeepsInv(w, order[0], Canceled);
      ClosedAllInv(Closed(w, order[0], Canceled), order[1..]);
    }
  }

  lemma CloseAllKeepsInv(w: World, order: seq<nat>)
    requires WorldInv(w)
    requires forall i :: 0 <= i < |order| ==> order[i] in w.open
    requires forall i, j :: 0 <= i < j < |order| ==> order[i] != order[j]
    ensures var w' := ClosedAll(w, order);
      && WorldInv(w') && w'.cmds == w.cmds && w'.oms == w.oms && w'.nextCid == w.nextCid
      && (forall c :: c in w'.open <==> c in w.open && c !in order)
  {
    ClosedAllOpen(w, order);
    ClosedAllInv(w, order);
  }

  lemma DropKillStepKeepsInv(w: World)
    requires WorldInv(w) && w.cmds != [] && !w.cmds[0].Place?
    requires forall c :: c in w.open ==> !Kills(w.cmds[0], c)
    ensures WorldInv(w.(cmds := w.cmds[1..]))
  {
    var _ := DropKillKeepsInv(SysOf(w));
  }

  lemma TwoOfThreeShareASide(rows: seq<Row>)
    ensures |rows| > 2 ==> exists i, j :: 0 <= i < j < |rows| && rows[i].side == rows[j].side
  {
    if |rows| > 2 {
      assert rows[0].side == rows[1].side || rows[1].side == rows[2].side || rows[0].side == rows[2].side;
    }
  }

  /** The exchange never had more than one order open per side. */
  lemma AtMostTwoOpen(s: Sys, taken: map<nat, Row>, rows: seq<Row>)
    requires Past(s, taken) && Lists(taken, rows)
    ensures |rows| <= 2
    ensures forall i, j :: 0 <= i < j < |rows| ==> rows[i].side != rows[j].side
  {
    forall i, j | 0 <= i < j < |rows| ensures rows[i].side != rows[j].side {
      assert rows[i].cid in taken && rows[j].cid in taken;
    }
    TwoOfThreeShareASide(rows);
  }

  /** What the rebuilt slots hold. */
  lemma RebuiltSlots(v: OmsView, rows: seq<Row>)
    requires |rows| <= |v.slots| && |rows| <= MAX_ROWS
    ensures |Rebuilt(v, rows).slots| == |v.slots| && HoldRows(Rebuilt(v, rows).slots, rows)
  {
  }

  /** The slots hold one order per row, in front. */
  ghost predicate HoldRows(t: seq<Order>, rows: seq<Row>) {
    && |rows| <= |t|
    && (forall i :: 0 <= i < |t| ==> (t[i].active <==> i < |rows|))
    && (forall i :: 0 <= i < |rows| ==> t[i] == FromRow(rows[i]))
  }

  lemma RowsAreDistinct(t: seq<Order>, rows: seq<Row>)
    requires HoldRows(t, rows)
    requires forall i, j :: 0 <= i < j < |rows| ==> rows[i].cid != rows[j].cid && rows[i].side != rows[j].side
    ensures Distinct(t)
  {
    forall i, j | 0 <= i < j < |t| && t[i].active && t[j].active
      ensures t[i].cid != t[j].cid && t[i].side != t[j].side
    {
      assert t[i] == FromRow(rows[i]) && t[j] == FromRow(rows[j]);
    }
  }

  lemma RowHasSlot(t: seq<Order>, open: map<nat, Row>, rows: seq<Row>, c: nat)
    requires HoldRows(t, rows) && Lists(open, rows) && c in open
    ensures exists i :: 0 <= i < |t| && t[i].active && t[i].cid == c
  {
    var i :| 0 <= i < |rows| && rows[i].cid == c;
    assert t[i].active && t[i].cid == c;
  }

  /** Slots that hold one order per listed row hold exactly the open orders. */
  lemma RowsAreOrders(t: seq<Order>, open: map<nat, Row>, rows: seq<Row>)
    requires HoldRows(t, rows) && Lists(open, rows) && Distinct(t)
    ensures Orders(t) == OpenOrders(open)
  {
    var m := OpenOrders(open);
    forall c | c in m ensures exists i :: 0 <= i < |t| && t[i].active && t[i].cid == c {
      RowHasSlot(t, open, rows, c);
    }
    forall i | 0 <= i < |t| && t[i].active ensures t[i].cid in m && m[t[i].cid] == t[i] {
      assert t[i] == FromRow(rows[i]) && rows[i].cid in open;
    }
    OrdersEqual(t, m);
  }

  /** Rebuilding from a short enough listing keeps exactly the listed orders. */
  lemma RebuiltOrders(v: OmsView, open: map<nat, Row>, rows: seq<Row>)
    requires Lists(open, rows) && |rows| <= 2 <= |v.slots|
    requires forall i, j :: 0 <= i < j < |rows| ==> rows[i].side != rows[j].side
    ensures Distinct(Rebuilt(v, rows).slots) && |Rebuilt(v, rows).slots| == |v.slots|
    ensures Orders(Rebuilt(v, rows).slots) == OpenOrders(open)
  {
    RebuiltSlots(v, rows);
    RowsAreDistinct(Rebuilt(v, rows).slots, rows);
    RowsAreOrders(Rebuilt(v, rows).slots, open, rows);
  }

  lemma RefreshKeepsInv(w: World)
    requires WorldInv(w) && ReportsOk(w) && Enabled(w, Refresh)
    ensures WorldInv(Stepped(w, Refresh))
  {
    var r := w.reports[0];
    AtMostTwoOpen(SysOf(w), r.taken, r.rows);
    RebuiltOrders(w.oms, r.taken, r.rows);
    ReportIsSafe(SysOf(w), r.taken);
  }

  lemma StepKeepsInv(w: World, t: Step)
    requires WorldInv(w) && Enabled(w, t) && (t.Refresh? ==> ReportsOk(w))
    ensures WorldInv(Stepped(w, t))
  {
    match t {
      case Quote(d) =>
        QuotedIsTwoSides(w, d);
        SideQuoteKeepsInv(w, Bid, d.bidPx, d.bidQty);
        SideQuoteKeepsInv(SideQuoted(w, Bid, d.bidPx, d.bidQty), Ask, d.askPx, d.askQty);
      case PullAll => PullAllKeepsInv(w);
      case Accept(exchId) =>
        var c := w.cmds[0];
        var _ := AnswerKeepsInv(SysOf(w), Exec(c.cid, exchId, 0, Ack), Row(c.cid, exchId, c.px, c.qty, 0, c.side));
      case Reject =>
        var c := w.cmds[0];
        var _ := AnswerKeepsInv(SysOf(w), Exec(c.cid, 0, 0, Rejected), Row(c.cid, 0, c.px, c.qty, 0, c.side));
      case DoCancel => CancelStepKeepsInv(w);
      case DoCancelAll(order) => CancelAllStepKeepsInv(w, order);
      case FillPart(cid, cum) => var _ := PartialKeepsInv(SysOf(w), Exec(cid, w.open[cid].exchId, cum, Partial));
      case FillAll(cid) => CloseStepKeepsInv(w, cid, Filled);
      case Expire(cid) => CloseStepKeepsInv(w, cid, Expired);
      case Deliver => DeliverStepKeepsInv(w);
      case Capture(rows) =>
      case Refresh => RefreshKeepsInv(w);
    }
  }

  // ----------------------------------------------------------- listings on their way

  lemma SideQuotePast(w: World, side: Side, px: int, qty: int, taken: map<nat, Row>)
    requires Past(SysOf(w), taken)
    ensures Past(SysOf(SideQuoted(w, side, px, qty)), taken)
  {
    var w' := SideQuoted(w, side, px, qty);
    var out := SideReconciled(w.oms, side, px, qty, w.nextCid).2;
    forall c: nat | c < w.nextCid && HasPlace(w'.cmds, c) ensures HasPlace(w.cmds, c) { CmdsGrow(w.cmds, out, c); }
    PastStays(SysOf(w), SysOf(w'), taken);
  }

  lemma PullAllPast(w: World, taken: map<nat, Row>)
    requires Past(SysOf(w), taken)
    ensures Past(SysOf(Stepped(w, PullAll)), taken)
  {
    forall c | HasPlace(Stepped(w, PullAll).cmds, c) ensures HasPlace(w.cmds, c) {
      CmdsGrow(w.cmds, AllCancelSent(w.oms).1, c);
    }
    PastStays(SysOf(w), SysOf(Stepped(w, PullAll)), taken);
  }

  /** The exchange takes a command off the queue. */
  lemma ShrinkPast(w: World, w': World, taken: map<nat, Row>)
    requires Past(SysOf(w), taken) && w.cmds != [] && w'.cmds == w.cmds[1..] && w'.nextCid == w.nextCid
    requires forall c :: c in w'.open ==>
      (c in w.open && w'.open[c] == w.open[c]) || (w.cmds[0].Place? && w.cmds[0].cid == c)
    ensures Past(SysOf(w'), taken)
  {
    forall c | HasPlace(w'.cmds, c) ensures HasPlace(w.cmds, c) { CmdsShrink(w.cmds, c); }
    assert w.cmds[0].Place? ==> HasPlace(w.cmds, w.cmds[0].cid);
    PastStays(SysOf(w), SysOf(w'), taken);
  }

  lemma CancelAllPast(w: World, order: seq<nat>, taken: map<nat, Row>)
    requires Past(SysOf(w), taken) && Enabled(w, DoCancelAll(order))
    ensures Past(SysOf(Stepped(w, DoCancelAll(order))), taken)
  {
    ClosedAllOpen(w, order);
    ShrinkPast(w, Stepped(w, DoCancelAll(order)), taken);
  }

  /** What was once open stays a past state. */
  lemma StepKeepsPast(w: World, t: Step, taken: map<nat, Row>)
    requires Enabled(w, t) && Past(SysOf(w), taken)
    ensures Past(SysOf(Stepped(w, t)), taken)
  {
    match t {
      case Quote(d) =>
        QuotedIsTwoSides(w, d);
        SideQuotePast(w, Bid, d.bidPx, d.bidQty, taken);
        SideQuotePast(SideQuoted(w, Bid, d.bidPx, d.bidQty), Ask, d.askPx, d.askQty, taken);
      case PullAll => PullAllPast(w, taken);
      case Accept(exchId) => ShrinkPast(w, Stepped(w, t), taken);
      case Reject => ShrinkPast(w, Stepped(w, t), taken);
      case DoCancel => ShrinkPast(w, Stepped(w, t), taken);
      case DoCancelAll(order) => CancelAllPast(w, order, taken);
      case FillPart(cid, cum) => PastStays(SysOf(w), SysOf(Stepped(w, t)), taken);
      case FillAll(cid) => PastStays(SysOf(w), SysOf(Stepped(w, t)), taken);
      case Expire(cid) => PastStays(SysOf(w), SysOf(Stepped(w, t)), taken);
      case Deliver =>
      case Capture(rows) =>
      case Refresh =>
    }
  }

  lemma {:induction false} ClosedAllReports(w: World, order: seq<nat>)
    requires forall i :: 0 <= i < |order| ==> order[i] in w.open
    requires forall i, j :: 0 <= i < j < |order| ==> order[i] != order[j]
    ensures ClosedAll(w, order).reports == w.reports
    decreases |order|
  {
    if order != [] { ClosedAllReports(Closed(w, order[0], Canceled), order[1..]); }
  }

  lemma ReportsAfter(w: World, t: Step)
    requires Enabled(w, t)
    ensures Stepped(w, t).reports ==
      if t.Capture? then w.reports + [Report(t.rows, w.open)]
      else if t.Refresh? then w.reports[1..] else w.reports
  {
    if t.DoCancelAll? { ClosedAllReports(w, t.order); }
  }

  lemma StepKeepsReports(w: World, t: Step)
    requires WorldInv(w) && ReportsOk(w) && Enabled(w, t)
    ensures ReportsOk(Stepped(w, t))
  {
    var w' := Stepped(w, t);
    ReportsAfter(w, t);
    TakenNow(SysOf(w));
    forall r | r in w'.reports ensures Lists(r.taken, r.rows) && Past(SysOf(w'), r.taken) {
      assert r in w.reports || (t.Capture? && r == Report(t.rows, w.open));
      StepKeepsPast(w, t, r.taken);
    }
  }

  lemma CancelOpenKeepsInv(w: World)
    requires WorldInv(w) && w.cmds != [] && w.cmds[0].Cancel? && w.cmds[0].cid in w.open
    ensures WorldInv(Closed(w, w.cmds[0].cid, Canceled).(cmds := w.cmds[1..]))
  {
    CloseStepKeepsInv(w, w.cmds[0].cid, Canceled);
    DropKillStepKeepsInv(Closed(w, w.cmds[0].cid, Canceled));
  }

  lemma CancelStepKeepsInv(w: World)
    requires WorldInv(w) && w.cmds != [] && w.cmds[0].Cancel?
    ensures WorldInv(CancelDone(w))
  {
    if w.cmds[0].cid in w.open {
      CancelOpenKeepsInv(w);
    } else {
      DropKillStepKeepsInv(w);
    }
  }

  lemma CancelAllStepKeepsInv(w: World, order: seq<nat>)
    requires WorldInv(w) && Enabled(w, DoCancelAll(order))
    ensures WorldInv(Stepped(w, DoCancelAll(order)))
  {
    CloseAllKeepsInv(w, order);
    DropKillStepKeepsInv(ClosedAll(w, order));
  }

  // ---------------------------------------------------------------- whole runs

  ghost predicate Initial(w: World) {
    && |w.oms.slots| == SLOTS && (forall i :: 0 <= i < SLOTS ==> !w.oms.slots[i].active)
    && w.cmds == [] && w.open == map[] && w.execs == [] && w.reports == []
  }

  ghost predicate Transition(w: World, t: Step, w': World) {
    Enabled(w, t) && w' == Stepped(w, t)
  }

  ghost predicate Run(trace: seq<World>, steps: seq<Step>) {
    && |trace| == |steps| + 1 && Initial(trace[0])
    && forall i :: 0 <= i < |steps| ==> Transition(trace[i], steps[i], trace[i + 1])
  }

  lemma {:induction false} RunKeepsInv(trace: seq<World>, steps: seq<Step>, i: nat)
    requires Run(trace, steps) && i < |trace|
    ensures WorldInv(trace[i]) && ReportsOk(trace[i])
    decreases i
  {
    if i > 0 {
      RunKeepsInv(trace, steps, i - 1);
      assert Transition(trace[i - 1], steps[i - 1], trace[i]);
      StepKeepsInv(trace[i - 1], steps[i - 1]);
      StepKeepsReports(trace[i - 1], steps[i - 1]);
    }
  }

  /** The order is on its way to the exchange or open there, on this side. */
  ghost predicate ExposedOn(w: World, c: nat, side: Side) {
    (exists k :: 0 <= k < |w.cmds| && w.cmds[k].Place? && w.cmds[k].cid == c && w.cmds[k].side == side)
    || (c in w.open && w.open[c].side == side)
  }

  lemma ExposedIsKnown(w: World, c: nat, side: Side)
    requires WorldInv(w) && ExposedOn(w, c, side)
    ensures c in Orders(w.oms.slots) && Orders(w.oms.slots)[c].side == side
  {
    if k :| 0 <= k < |w.cmds| && w.cmds[k].Place? && w.cmds[k].cid == c && w.cmds[k].side == side {
      assert PlaceOk(SysOf(w), k);
    }
  }

  /** Safety over every run: at most one order per side is in flight or open, each
      has an active slot with its client id and side, and a free slot is always
      left, so the saturation branch is never taken. */
  lemma OneOrderPerSide(trace: seq<World>, steps: seq<Step>, i: nat, c: nat, d: nat, side: Side)
    requires Run(trace, steps) && i < |trace|
    requires ExposedOn(trace[i], c, side) && ExposedOn(trace[i], d, side)
    ensures c == d
    ensures var slots := trace[i].oms.slots;
      Found(slots, WithId(c)) && slots[First(slots, WithId(c))].side == side
  {
    RunKeepsInv(trace, steps, i);
    ExposedIsKnown(trace[i], c, side);
    ExposedIsKnown(trace[i], d, side);
    WithIdFound(trace[i].oms.slots, c);
  }

  lemma NeverSaturated(trace: seq<World>, steps: seq<Step>, i: nat)
    requires Run(trace, steps) && i < |trace|
    ensures Found(trace[i].oms.slots, Free)
  {
    RunKeepsInv(trace, steps, i);
    FreeSlotExists(trace[i].oms.slots);
  }

  /** Flat means flat: no active slot exactly when nothing is on its way or open, and
      every report still to come is about an order already forgotten. */
  lemma FlatMeansFlat(trace: seq<World>, steps: seq<Step>, i: nat)
    requires Run(trace, steps) && i < |trace|
    ensures var w := trace[i];
      ActiveCount(w.oms.slots) == 0 <==>
        && (forall c :: !HasPlace(w.cmds, c)) && w.open == map[]
        && forall k :: 0 <= k < |w.execs| ==> !Found(w.oms.slots, WithId(w.execs[k].cid))
  {
    RunKeepsInv(trace, steps, i);
    var w := trace[i];
    CountZero(w.oms.slots);
    NoOrdersNothingOut(SysOf(w));
    NoSlotNoOrder(w.oms.slots);
    forall k | 0 <= k < |w.execs|
      ensures Found(w.oms.slots, WithId(w.execs[k].cid)) <==> w.execs[k].cid in SysOf(w).m
    {
      WithIdFound(w.oms.slots, w.execs[k].cid);
    }
  }

  lemma NoSlotNoOrder(slots: seq<Order>)
    requires Distinct(slots)
    ensures Orders(slots) == map[] <==> forall j :: 0 <= j < |slots| ==> !slots[j].active
  {
    OrdersAt(slots);
  }

  /** The state machine holds no order exactly when nothing is out. */
  lemma NoOrdersNothingOut(s: Sys)
    requires OmsExchange.Inv(s)
    ensures s.m == map[] <==>
      (forall c :: !HasPlace(s.cmds, c)) && s.open == map[] && forall k :: 0 <= k < |s.execs| ==> s.execs[k].cid !in s.m
  {
    if s.m == map[] {
      forall c ensures !HasPlace(s.cmds, c) { PlacesNeedOrders(s, c); }
      assert forall c :: c !in s.open;
    } else {
      var c :| c in s.m;
      assert HasPlace(s.cmds, c) || c in s.open || HasTerminal(s.execs, c);
    }
  }

  lemma PlacesNeedOrders(s: Sys, c: nat)
    requires OmsExchange.Inv(s)
    ensures HasPlace(s.cmds, c) ==> s.m != map[]
  {
    if k :| 0 <= k < |s.cmds| && s.cmds[k].Place? && s.cmds[k].cid == c {
      assert PlaceOk(s, k);
    }
  }
}
