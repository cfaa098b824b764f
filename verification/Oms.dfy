/** The slot-based order state machine. */
module Oms {
  import opened Events

  datatype OrderState = PendingNew | Working | PartiallyFilled | PendingCancel

  datatype Order = Order(active: bool, cid: nat, exchId: nat, px: int, qty: int, cum: int,
                         side: Side, state: OrderState)

  datatype Command =
    | Place(seqNo: nat, cid: nat, side: Side, px: int, qty: int)
    | Cancel(seqNo: nat, cid: nat, side: Side)
    | CancelAll(seqNo: nat)

  datatype ExecKind = Ack | Partial | Filled | Canceled | Rejected | Expired

  datatype Exec = Exec(cid: nat, exchId: nat, cum: int, kind: ExecKind)

  /** One open order as the exchange reports it. */
  datatype Row = Row(cid: nat, exchId: nat, px: int, qty: int, cum: int, side: Side)

  /** The desired quote; a zero price wants no order on that side. */
  datatype Desired = Desired(bidPx: int, bidQty: int, askPx: int, askQty: int)

  const SLOTS: nat := 8
  const MAX_ROWS: nat := 16

  const NO_ORDER: Order := Order(false, 0, 0, 0, 0, 0, Bid, PendingNew)

  datatype OmsView = OmsView(slots: seq<Order>, nextSeq: nat)

  /** What a slot search looks for. */
  datatype Key = OnSide(side: Side) | WithId(cid: nat) | Free

  predicate Matches(o: Order, k: Key) {
    match k
    case OnSide(side) => o.active && o.side == side
    case WithId(cid) => o.active && o.cid == cid
    case Free => !o.active
  }

  /** The first slot that matches, or the number of slots if none does. */
  function First(slots: seq<Order>, k: Key): (r: nat)
    ensures r <= |slots|
    ensures r < |slots| ==> Matches(slots[r], k)
    ensures forall i :: 0 <= i < r ==> !Matches(slots[i], k)
  {
    if slots == [] then 0
    else if Matches(slots[0], k) then 0
    else 1 + First(slots[1..], k)
  }

  predicate Found(slots: seq<Order>, k: Key) {
    First(slots, k) < |slots|
  }

  // ------------------------------------------------------------- operations

  function Placed(v: OmsView, side: Side, px: int, qty: int, cid: nat): (OmsView, nat, seq<Command>) {
    var f := First(v.slots, Free);
    if f == |v.slots| then (v, cid, [])
    else (OmsView(v.slots[f := Order(true, cid, 0, px, qty, 0, side, PendingNew)], v.nextSeq + 1), cid + 1,
          [Place(v.nextSeq, cid, side, px, qty)])
  }

  function CancelSent(v: OmsView, i: nat): (OmsView, seq<Command>)
    requires i < |v.slots|
  {
    (OmsView(v.slots[i := v.slots[i].(state := PendingCancel)], v.nextSeq + 1),
     [Cancel(v.nextSeq, v.slots[i].cid, v.slots[i].side)])
  }

  /** Bring one side towards the wanted price and quantity. */
  function SideReconciled(v: OmsView, side: Side, px: int, qty: int, cid: nat): (OmsView, nat, seq<Command>) {
    var i := First(v.slots, OnSide(side));
    if i == |v.slots| then
      if px == 0 then (v, cid, []) else Placed(v, side, px, qty, cid)
    else if v.slots[i].state == PendingCancel || (px != 0 && v.slots[i].px == px && v.slots[i].qty == qty) then
      (v, cid, [])
    else
      var (v', cmds) := CancelSent(v, i);
      (v', cid, cmds)
  }

  function Reconciled(v: OmsView, d: Desired, cid: nat): (OmsView, nat, seq<Command>) {
    var (v1, cid1, c1) := SideReconciled(v, Bid, d.bidPx, d.bidQty, cid);
    var (v2, cid2, c2) := SideReconciled(v1, Ask, d.askPx, d.askQty, cid1);
    (v2, cid2, c1 + c2)
  }

  predicate Terminal(k: ExecKind) {
    !k.Ack? && !k.Partial?
  }

  /** An order after an execution report about it. */
  function Reported(o: Order, e: Exec): Order {
    match e.kind
    case Ack => o.(state := Working, exchId := e.exchId)
    case Partial => o.(state := PartiallyFilled, exchId := e.exchId, cum := e.cum)
    case _ => o.(active := false)
  }

  function Executed(v: OmsView, e: Exec): OmsView {
    var i := First(v.slots, WithId(e.cid));
    if i == |v.slots| then v else v.(slots := v.slots[i := Reported(v.slots[i], e)])
  }

  function FromRow(r: Row): Order {
    Order(true, r.cid, r.exchId, r.px, r.qty, r.cum, r.side, if r.cum > 0 then PartiallyFilled else Working)
  }

  /** Rebuild from exchange truth: at most MAX_ROWS rows, as many as fit the slots. */
  function Rebuilt(v: OmsView, rows: seq<Row>): OmsView {
    v.(slots := seq(|v.slots|, i requires 0 <= i < |v.slots| =>
      if i < |rows| && i < MAX_ROWS then FromRow(rows[i]) else v.slots[i].(active := false)))
  }

  function AllCancelSent(v: OmsView): (OmsView, seq<Command>) {
    (OmsView(seq(|v.slots|, i requires 0 <= i < |v.slots| =>
               if v.slots[i].active then v.slots[i].(state := PendingCancel) else v.slots[i]), v.nextSeq + 1),
     [CancelAll(v.nextSeq)])
  }

  function ActiveCount(slots: seq<Order>): nat {
    if slots == [] then 0 else (if slots[0].active then 1 else 0) + ActiveCount(slots[1..])
  }

  class Oms {
    const slots: array<Order>
    var nextSeq: nat

    ghost function View(): OmsView
      reads this, slots
    {
      OmsView(slots[..], nextSeq)
    }

    constructor ()
      ensures View() == OmsView(seq(SLOTS, _ => NO_ORDER), 1) && fresh(slots)
    {
      slots := new Order[SLOTS](_ => NO_ORDER);
      nextSeq := 1;
    }

    /** The linear slot searches. */
    method Find(k: Key) returns (i: nat)
      ensures i == First(slots[..], k)
    {
      i := 0;
      while i < slots.Length && !Matches(slots[i], k)
        invariant i <= slots.Length
        invariant forall j :: 0 <= j < i ==> !Matches(slots[j], k)
      {
        i := i + 1;
      }
      FirstUnique(slots[..], k, i);
    }

    method EmitPlace(side: Side, px: int, qty: int, cid: nat) returns (cid': nat, out: seq<Command>)
      modifies this`nextSeq, slots
      ensures (View(), cid', out) == Placed(old(View()), side, px, qty, cid)
    {
      var f := Find(Free);
      if f == slots.Length { return cid, []; }
      out := [Place(nextSeq, cid, side, px, qty)];
      nextSeq := nextSeq + 1;
      slots[f] := Order(true, cid, 0, px, qty, 0, side, PendingNew);
      cid' := cid + 1;
    }

    method EmitCancel(i: nat) returns (out: seq<Command>)
      requires i < slots.Length
      modifies this`nextSeq, slots
      ensures (View(), out) == CancelSent(old(View()), i)
    {
      out := [Cancel(nextSeq, slots[i].cid, slots[i].side)];
      nextSeq := nextSeq + 1;
      slots[i] := slots[i].(state := PendingCancel);
    }

    method ReconcileSide(side: Side, px: int, qty: int, cid: nat) returns (cid': nat, out: seq<Command>)
      modifies this`nextSeq, slots
      ensures (View(), cid', out) == SideReconciled(old(View()), side, px, qty, cid)
    {
      cid', out := cid, [];
      var cur := Find(OnSide(side));
      if px == 0 {
        if cur < slots.Length && slots[cur].state != PendingCancel { out := EmitCancel(cur); }
        return;
      }
      if cur == slots.Length {
        cid', out := EmitPlace(side, px, qty, cid);
        return;
      }
      if slots[cur].state == PendingCancel { return; }
      if slots[cur].px != px || slots[cur].qty != qty { out := EmitCancel(cur); }
    }

    method Reconcile(d: Desired, cid: nat) returns (cid': nat, out: seq<Command>)
      modifies this`nextSeq, slots
      ensures (View(), cid', out) == Reconciled(old(View()), d, cid)
    {
      var c1, o1 := ReconcileSide(Bid, d.bidPx, d.bidQty, cid);
      var c2, o2 := ReconcileSide(Ask, d.askPx, d.askQty, c1);
      return c2, o1 + o2;
    }

    method OnExec(e: Exec)
      modifies slots
      ensures View() == Executed(old(View()), e)
    {
      var i := Find(WithId(e.cid));
      if i == slots.Length { return; }
      match e.kind {
        case Ack => slots[i] := slots[i].(state := Working, exchId := e.exchId);
        case Partial => slots[i] := slots[i].(state := PartiallyFilled, exchId := e.exchId, cum := e.cum);
        case _ => slots[i] := slots[i].(active := false);
      }
    }

    method OnReconcile(rows: seq<Row>)
      modifies slots
      ensures View() == Rebuilt(old(View()), rows)
    {
      forall i | 0 <= i < slots.Length { slots[i] := slots[i].(active := false); }
      var n := if |rows| < MAX_ROWS then |rows| else MAX_ROWS;
      var i := 0;
      while i < n
        invariant 0 <= i <= n
        invariant forall j :: 0 <= j < slots.Length ==>
          slots[j] == if j < i then FromRow(rows[j]) else old(slots[j]).(active := false)
      {
        var f := Find(Free);
        if f == slots.Length { break; }
        FirstUnique(slots[..], Free, i);
        slots[f] := FromRow(rows[i]);
        i := i + 1;
      }
    }

    method CancelEverything() returns (out: seq<Command>)
      modifies this`nextSeq, slots
      ensures (View(), out) == AllCancelSent(old(View()))
    {
      out := [CancelAll(nextSeq)];
      nextSeq := nextSeq + 1;
      forall i | 0 <= i < slots.Length {
        slots[i] := if slots[i].active then slots[i].(state := PendingCancel) else slots[i];
      }
      assert slots[..] == AllCancelSent(old(View())).0.slots;
    }

    method WorkingCount() returns (n: nat)
      ensures n == ActiveCount(slots[..])
    {
      n := 0;
      var i := 0;
      while i < slots.Length
        invariant i <= slots.Length && n + ActiveCount(slots[i..]) == ActiveCount(slots[..])
      {
        assert slots[i..][1..] == slots[i + 1..];
        if slots[i].active { n := n + 1; }
        i := i + 1;
      }
    }

    method AllFlat() returns (flat: bool)
      ensures flat <==> forall i :: 0 <= i < slots.Length ==> !slots[i].active
    {
      var n := WorkingCount();
      flat := n == 0;
      CountZero(slots[..]);
    }
  }

  lemma FirstUnique(slots: seq<Order>, k: Key, i: nat)
    requires i <= |slots|
    requires forall j :: 0 <= j < i ==> !Matches(slots[j], k)
    requires i < |slots| ==> Matches(slots[i], k)
    ensures i == First(slots, k)
  {
    assert First(slots, k) <= |slots|;
  }

  lemma {:induction false} CountZero(slots: seq<Order>)
    ensures ActiveCount(slots) == 0 <==> forall i :: 0 <= i < |slots| ==> !slots[i].active
  {
    if slots != [] {
      CountZero(slots[1..]);
      assert forall i :: 0 < i < |slots| ==> slots[i] == slots[1..][i - 1];
    }
  }

  // ------------------------------------------------------------- idempotence

  /** A second pass on a side finds nothing left to do. */
  lemma SideSettles(v: OmsView, side: Side, px: int, qty: int, cid: nat, cid2: nat)
    ensures var (v', cid', _) := SideReconciled(v, side, px, qty, cid);
      SideReconciled(v', side, px, qty, cid2) == (v', cid2, [])
  {
    var i := First(v.slots, OnSide(side));
    var (v', cid', _) := SideReconciled(v, side, px, qty, cid);
    if i == |v.slots| && px != 0 {
      var f := First(v.slots, Free);
      if f < |v.slots| { FirstUnique(v'.slots, OnSide(side), f); }
    } else if i < |v.slots| {
      FirstUnique(v'.slots, OnSide(side), i);
    }
  }

  /** Reconciling one side does not disturb what is settled on the other. */
  lemma OtherSideStaysSettled(v: OmsView, side: Side, px: int, qty: int, other: Side, px2: int, qty2: int,
                              cid: nat, cid2: nat)
    requires side != other
    requires SideReconciled(v, side, px, qty, cid2) == (v, cid2, [])
    ensures var v' := SideReconciled(v, other, px2, qty2, cid).0;
      SideReconciled(v', side, px, qty, cid2) == (v', cid2, [])
  {
    var v' := SideReconciled(v, other, px2, qty2, cid).0;
    var i := First(v.slots, OnSide(side));
    FirstUnique(v'.slots, OnSide(side), i);
    if i == |v.slots| && px != 0 {
      var f := First(v.slots, Free);
      assert f == |v.slots|;
      FirstUnique(v'.slots, Free, f);
    }
  }

  /** From any state whatever, reconciling again with the same desired quote emits
      nothing and changes nothing. */
  lemma ReconcileIsIdempotent(v: OmsView, d: Desired, cid: nat, cid2: nat)
    ensures var v' := Reconciled(v, d, cid).0;
      Reconciled(v', d, cid2) == (v', cid2, [])
  {
    var (v1, cid1, _) := SideReconciled(v, Bid, d.bidPx, d.bidQty, cid);
    SideSettles(v, Bid, d.bidPx, d.bidQty, cid, cid2);
    SideSettles(v1, Ask, d.askPx, d.askQty, cid1, cid2);
    OtherSideStaysSettled(v1, Bid, d.bidPx, d.bidQty, Ask, d.askPx, d.askQty, cid1, cid2);
    var none: seq<Command> := [];
    assert none + none == none;
  }
}
