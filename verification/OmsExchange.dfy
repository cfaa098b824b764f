/** The order state machine against an exchange, with a command queue one way and
    an execution-report queue the other way. */
module OmsExchange {
  import opened Events
  import opened Oms

  // ---------------------------------------------------- slots as a set of orders

  /** No two active slots share a client id or a side. */
  ghost predicate Distinct(slots: seq<Order>) {
    forall i, j :: 0 <= i < j < |slots| && slots[i].active && slots[j].active ==>
      slots[i].cid != slots[j].cid && slots[i].side != slots[j].side
  }

  function Ids(slots: seq<Order>): set<nat> {
    set i | 0 <= i < |slots| && slots[i].active :: slots[i].cid
  }

  function OrderWith(slots: seq<Order>, cid: nat): Order {
    if Found(slots, WithId(cid)) then slots[First(slots, WithId(cid))] else NO_ORDER
  }

  /** The active orders by client id. */
  function Orders(slots: seq<Order>): map<nat, Order> {
    map c | c in Ids(slots) :: OrderWith(slots, c)
  }

  lemma OrdersAt(slots: seq<Order>)
    requires Distinct(slots)
    ensures forall i :: 0 <= i < |slots| && slots[i].active ==>
      slots[i].cid in Orders(slots) && Orders(slots)[slots[i].cid] == slots[i]
    ensures forall c :: c in Orders(slots) ==>
      Orders(slots)[c].active && Orders(slots)[c].cid == c && Orders(slots)[c] in slots
  {
    forall i | 0 <= i < |slots| && slots[i].active
      ensures slots[i].cid in Orders(slots) && Orders(slots)[slots[i].cid] == slots[i]
    {
      var f := First(slots, WithId(slots[i].cid));
      assert f <= i && Matches(slots[f], WithId(slots[i].cid));
    }
  }

  lemma OrdersEqual(slots: seq<Order>, m: map<nat, Order>)
    requires Distinct(slots)
    requires forall i :: 0 <= i < |slots| && slots[i].active ==> slots[i].cid in m && m[slots[i].cid] == slots[i]
    requires forall c :: c in m ==> exists i :: 0 <= i < |slots| && slots[i].active && slots[i].cid == c
    ensures Orders(slots) == m
  {
    OrdersAt(slots);
    forall c | c in m ensures c in Orders(slots) && Orders(slots)[c] == m[c] {
      var i :| 0 <= i < |slots| && slots[i].active && slots[i].cid == c;
    }
    forall c | c in Orders(slots) ensures c in m {
      assert Orders(slots)[c] in slots;
    }
  }

  lemma OtherOrderStays(slots: seq<Order>, i: nat, o: Order, c: nat)
    requires Distinct(slots) && i < |slots| && c in Orders(slots) && (slots[i].active ==> slots[i].cid != c)
    ensures var t := slots[i := o]; exists j :: 0 <= j < |t| && t[j].active && t[j].cid == c
  {
    OrdersAt(slots);
    var j :| 0 <= j < |slots| && slots[j] == Orders(slots)[c];
    assert slots[i := o][j] == slots[j];
  }

  /** Filling a free slot adds an order. */
  lemma OrdersAdd(slots: seq<Order>, i: nat, o: Order)
    requires Distinct(slots) && i < |slots| && !slots[i].active && o.active
    requires forall c :: c in Orders(slots) ==> c != o.cid && Orders(slots)[c].side != o.side
    ensures Distinct(slots[i := o]) && Orders(slots[i := o]) == Orders(slots)[o.cid := o]
  {
    var t, m := slots[i := o], Orders(slots)[o.cid := o];
    forall c | c in m ensures exists j :: 0 <= j < |t| && t[j].active && t[j].cid == c {
      if c == o.cid { assert t[i] == o; } else { OtherOrderStays(slots, i, o, c); }
    }
    OrdersAt(slots);
    OrdersEqual(t, m);
  }

  lemma DistinctReplace(slots: seq<Order>, i: nat, o: Order)
    requires Distinct(slots) && i < |slots| && slots[i].active && o.cid == slots[i].cid && o.side == slots[i].side
    ensures Distinct(slots[i := o])
  {
    var t := slots[i := o];
    assert forall j :: 0 <= j < |t| && j != i ==> t[j] == slots[j];
  }

  /** Replacing an order by one with the same id and side updates it. */
  lemma OrdersUpdate(slots: seq<Order>, i: nat, o: Order)
    requires Distinct(slots) && i < |slots| && slots[i].active && o.cid == slots[i].cid && o.side == slots[i].side
    requires o.active
    ensures Distinct(slots[i := o]) && Orders(slots[i := o]) == Orders(slots)[o.cid := o]
  {
    var t, m := slots[i := o], Orders(slots)[o.cid := o];
    DistinctReplace(slots, i, o);
    forall c | c in m ensures exists j :: 0 <= j < |t| && t[j].active && t[j].cid == c {
      if c == o.cid { assert t[i] == o; } else { OtherOrderStays(slots, i, o, c); }
    }
    forall j | 0 <= j < |t| && t[j].active ensures t[j].cid in m && m[t[j].cid] == t[j] {
      if j != i { OrderKept(slots, i, j); }
    }
    OrdersEqual(t, m);
  }

  lemma OrderKept(slots: seq<Order>, i: nat, j: nat)
    requires Distinct(slots) && i < |slots| && slots[i].active && j < |slots| && j != i && slots[j].active
    ensures slots[j].cid != slots[i].cid && slots[j].cid in Orders(slots) && Orders(slots)[slots[j].cid] == slots[j]
  {
    OrdersAt(slots);
  }

  /** Retiring a slot removes its order. */
  lemma OrdersRetire(slots: seq<Order>, i: nat, o: Order)
    requires Distinct(slots) && i < |slots| && slots[i].active && o.cid == slots[i].cid && o.side == slots[i].side
    requires !o.active
    ensures Distinct(slots[i := o]) && Orders(slots[i := o]) == Orders(slots) - {o.cid}
  {
    var t, m := slots[i := o], Orders(slots) - {o.cid};
    DistinctReplace(slots, i, o);
    forall c | c in m ensures exists j :: 0 <= j < |t| && t[j].active && t[j].cid == c {
      OtherOrderStays(slots, i, o, c);
    }
    forall j | 0 <= j < |t| && t[j].active ensures t[j].cid in m && m[t[j].cid] == t[j] {
      OrderKept(slots, i, j);
    }
    OrdersEqual(t, m);
  }

  lemma OnSideFound(slots: seq<Order>, side: Side)
    requires Distinct(slots)
    ensures Found(slots, OnSide(side)) <==> exists c :: c in Orders(slots) && Orders(slots)[c].side == side
    ensures Found(slots, OnSide(side)) ==>
      var o := slots[First(slots, OnSide(side))]; o.active && o.cid in Orders(slots) && Orders(slots)[o.cid] == o
  {
    OrdersAt(slots);
    if c :| c in Orders(slots) && Orders(slots)[c].side == side {
      var j :| 0 <= j < |slots| && slots[j] == Orders(slots)[c];
      assert Matches(slots[j], OnSide(side));
    }
  }

  lemma WithIdFound(slots: seq<Order>, cid: nat)
    requires Distinct(slots)
    ensures Found(slots, WithId(cid)) <==> cid in Orders(slots)
    ensures cid in Orders(slots) ==> slots[First(slots, WithId(cid))] == Orders(slots)[cid]
  {
    OrdersAt(slots);
    if cid in Orders(slots) {
      var j :| 0 <= j < |slots| && slots[j] == Orders(slots)[cid];
      assert Matches(slots[j], WithId(cid));
    }
  }

  /** Two sides, so at most two orders: with three slots or more one is free. */
  lemma FreeSlotExists(slots: seq<Order>)
    requires Distinct(slots) && |slots| >= 3
    ensures Found(slots, Free)
  {
    assert Matches(slots[0], Free) || Matches(slots[1], Free) || Matches(slots[2], Free);
  }

  // ------------------------------------------------------------- the whole system

  /** Orders known to the state machine, commands under way, orders open at the
      exchange and reports under way. */
  datatype Sys = Sys(m: map<nat, Order>, nextCid: nat, cmds: seq<Command>, open: map<nat, Row>, execs: seq<Exec>)

  ghost predicate HasPlace(cmds: seq<Command>, c: nat) {
    exists k :: 0 <= k < |cmds| && cmds[k].Place? && cmds[k].cid == c
  }

  ghost predicate HasTerminal(execs: seq<Exec>, c: nat) {
    exists k :: 0 <= k < |execs| && execs[k].cid == c && Terminal(execs[k].kind)
  }

  ghost predicate NoExec(execs: seq<Exec>, c: nat) {
    forall k :: 0 <= k < |execs| ==> execs[k].cid != c
  }

  predicate Kills(cmd: Command, c: nat) {
    cmd.CancelAll? || (cmd.Cancel? && cmd.cid == c)
  }

  /** A command that will remove c is under way, behind c's own placement. */
  ghost predicate KillUnderWay(cmds: seq<Command>, c: nat) {
    exists k :: 0 <= k < |cmds| && Kills(cmds[k], c) &&
      forall j :: k < j < |cmds| ==> !(cmds[j].Place? && cmds[j].cid == c)
  }

  /** c is bound to disappear once the queues have drained. */
  ghost predicate Doomed(s: Sys, c: nat) {
    KillUnderWay(s.cmds, c) || HasTerminal(s.execs, c)
  }

  ghost predicate OrdersOk(s: Sys) {
    && (forall c :: c in s.m ==> s.m[c].active && s.m[c].cid == c && c < s.nextCid)
    && (forall c, d :: c in s.m && d in s.m && c != d ==> s.m[c].side != s.m[d].side)
  }

  /** A placement under way belongs to a known order and nothing else has happened to it. */
  ghost predicate PlaceOk(s: Sys, k: int)
    requires 0 <= k < |s.cmds|
  {
    s.cmds[k].Place? ==>
      var c := s.cmds[k].cid;
      && c in s.m && s.m[c].side == s.cmds[k].side && s.m[c].px == s.cmds[k].px && s.m[c].qty == s.cmds[k].qty
      && c !in s.open && NoExec(s.execs, c)
      && forall j :: k < j < |s.cmds| ==> !(s.cmds[j].Place? && s.cmds[j].cid == c)
  }

  ghost predicate PlacesOk(s: Sys) {
    forall k :: 0 <= k < |s.cmds| ==> PlaceOk(s, k)
  }

  /** An open order is a known order, and no report has closed it. */
  ghost predicate OpenOk(s: Sys) {
    forall c :: c in s.open ==>
      && s.open[c].cid == c && c in s.m && !HasTerminal(s.execs, c)
      && s.m[c].side == s.open[c].side && s.m[c].px == s.open[c].px && s.m[c].qty == s.open[c].qty
  }

  /** Reports are about orders placed before, and a closing report is the last one. */
  ghost predicate ExecsOk(s: Sys) {
    && (forall k :: 0 <= k < |s.execs| ==> s.execs[k].cid < s.nextCid)
    && (forall k, j :: 0 <= k < j < |s.execs| && Terminal(s.execs[k].kind) ==> s.execs[j].cid != s.execs[k].cid)
  }

  /** Every known order is on its way, open, or closed and about to be reported. */
  ghost predicate NoLeaks(s: Sys) {
    forall c :: c in s.m ==> HasPlace(s.cmds, c) || c in s.open || HasTerminal(s.execs, c)
  }

  ghost predicate CancelsOk(s: Sys) {
    forall c :: c in s.m && s.m[c].state == PendingCancel ==> Doomed(s, c)
  }

  ghost predicate Inv(s: Sys) {
    OrdersOk(s) && PlacesOk(s) && OpenOk(s) && ExecsOk(s) && NoLeaks(s) && CancelsOk(s)
  }

  // ---------------------------------------------------- what each event preserves

  lemma CmdsGrow(cmds: seq<Command>, more: seq<Command>, c: nat)
    requires forall k :: 0 <= k < |more| ==> !(more[k].Place? && more[k].cid == c)
    ensures HasPlace(cmds, c) <==> HasPlace(cmds + more, c)
    ensures KillUnderWay(cmds, c) ==> KillUnderWay(cmds + more, c)
  {
    var all := cmds + more;
    assert forall k :: |cmds| <= k < |all| ==> all[k] == more[k - |cmds|];
    assert forall k :: 0 <= k < |cmds| ==> all[k] == cmds[k];
    if HasPlace(cmds, c) {
      var k :| 0 <= k < |cmds| && cmds[k].Place? && cmds[k].cid == c;
      assert all[k].Place? && all[k].cid == c;
    }
    if KillUnderWay(cmds, c) {
      var k :| 0 <= k < |cmds| && Kills(cmds[k], c) &&
        forall j :: k < j < |cmds| ==> !(cmds[j].Place? && cmds[j].cid == c);
      assert Kills(all[k], c);
    }
  }

  lemma ExecsGrow(execs: seq<Exec>, e: Exec, c: nat)
    ensures HasTerminal(execs + [e], c) <==> HasTerminal(execs, c) || (e.cid == c && Terminal(e.kind))
    ensures NoExec(execs + [e], c) <==> NoExec(execs, c) && e.cid != c
  {
    var es := execs + [e];
    assert es[|execs|] == e;
    assert forall k :: 0 <= k < |execs| ==> es[k] == execs[k];
    if HasTerminal(execs, c) {
      var k :| 0 <= k < |execs| && execs[k].cid == c && Terminal(execs[k].kind);
      assert es[k].cid == c && Terminal(es[k].kind);
    }
  }

  /** The state machine places a new order on a side that has none. */
  lemma PlaceKeepsInv(s: Sys, o: Order, cmd: Command) returns (s': Sys)
    requires Inv(s) && o.active && o.cid == s.nextCid && o.state == PendingNew
    requires forall c :: c in s.m ==> s.m[c].side != o.side
    requires cmd.Place? && cmd.cid == o.cid && cmd.side == o.side && cmd.px == o.px && cmd.qty == o.qty
    ensures s' == s.(m := s.m[o.cid := o], nextCid := s.nextCid + 1, cmds := s.cmds + [cmd])
    ensures Inv(s')
  {
    s' := s.(m := s.m[o.cid := o], nextCid := s.nextCid + 1, cmds := s.cmds + [cmd]);
    var n := |s.cmds|;
    assert s'.cmds[n] == cmd;
    forall k | 0 <= k < |s'.cmds| ensures PlaceOk(s', k) {
      if k < n { assert s'.cmds[k] == s.cmds[k] && PlaceOk(s, k); }
    }
    assert HasPlace(s'.cmds, o.cid);
    forall c | c in s.m ensures HasPlace(s'.cmds, c) || c in s.open || HasTerminal(s.execs, c) {
      CmdsGrow(s.cmds, [cmd], c);
    }
    forall c | c in s.m && s.m[c].state == PendingCancel ensures Doomed(s', c) {
      CmdsGrow(s.cmds, [cmd], c);
    }
  }

  /** The state machine sends a cancel for a known order, or for all of them. */
  lemma CancelKeepsInv(s: Sys, m': map<nat, Order>, cmd: Command) returns (s': Sys)
    requires Inv(s) && !cmd.Place?
    requires m'.Keys == s.m.Keys
    requires forall c :: c in s.m ==> m'[c] == s.m[c] || (Kills(cmd, c) && m'[c] == s.m[c].(state := PendingCancel))
    ensures s' == s.(m := m', cmds := s.cmds + [cmd])
    ensures Inv(s')
  {
    s' := s.(m := m', cmds := s.cmds + [cmd]);
    CancelPlaces(s, s', cmd);
    CancelLeaks(s, s', cmd);
    assert OrdersOk(s') && OpenOk(s');
  }

  /** Behind a cancel the placements are as they were. */
  lemma CancelPlaces(s: Sys, s': Sys, cmd: Command)
    requires PlacesOk(s) && !cmd.Place? && s'.cmds == s.cmds + [cmd] && s'.open == s.open && s'.execs == s.execs
    requires s'.m.Keys == s.m.Keys && forall c :: c in s.m ==>
      s'.m[c].side == s.m[c].side && s'.m[c].px == s.m[c].px && s'.m[c].qty == s.m[c].qty
    ensures PlacesOk(s')
  {
    forall k | 0 <= k < |s'.cmds| ensures PlaceOk(s', k) {
      if k < |s.cmds| { assert s'.cmds[k] == s.cmds[k] && PlaceOk(s, k); }
    }
  }

  lemma CancelLeaks(s: Sys, s': Sys, cmd: Command)
    requires NoLeaks(s) && CancelsOk(s) && !cmd.Place? && s'.cmds == s.cmds + [cmd]
    requires s'.open == s.open && s'.execs == s.execs && s'.m.Keys == s.m.Keys
    requires forall c :: c in s.m ==> s'.m[c] == s.m[c] || Kills(cmd, c)
    ensures NoLeaks(s') && CancelsOk(s')
  {
    var n := |s.cmds|;
    assert s'.cmds[n] == cmd;
    forall c | c in s'.m ensures HasPlace(s'.cmds, c) || c in s'.open || HasTerminal(s'.execs, c) {
      CmdsGrow(s.cmds, [cmd], c);
    }
    forall c | c in s'.m && s'.m[c].state == PendingCancel ensures Doomed(s', c) {
      CmdsGrow(s.cmds, [cmd], c);
      if s'.m[c] != s.m[c] { assert Kills(s'.cmds[n], c); }
    }
  }

  lemma CmdsShrink(cmds: seq<Command>, c: nat)
    requires cmds != []
    ensures HasPlace(cmds[1..], c) ==> HasPlace(cmds, c)
    ensures HasPlace(cmds, c) && !(cmds[0].Place? && cmds[0].cid == c) ==> HasPlace(cmds[1..], c)
    ensures KillUnderWay(cmds, c) && !Kills(cmds[0], c) ==> KillUnderWay(cmds[1..], c)
    ensures KillUnderWay(cmds, c) && !KillUnderWay(cmds[1..], c) ==> !HasPlace(cmds[1..], c)
  {
    var rest := cmds[1..];
    assert forall k :: 0 <= k < |rest| ==> rest[k] == cmds[k + 1];
    if HasPlace(cmds, c) && !(cmds[0].Place? && cmds[0].cid == c) {
      var k :| 0 <= k < |cmds| && cmds[k].Place? && cmds[k].cid == c;
      assert rest[k - 1] == cmds[k];
    }
    if KillUnderWay(cmds, c) {
      var k :| 0 <= k < |cmds| && Kills(cmds[k], c) &&
        forall j :: k < j < |cmds| ==> !(cmds[j].Place? && cmds[j].cid == c);
      if k > 0 {
        assert Kills(rest[k - 1], c);
      }
    }
  }

  /** The exchange answers the first placement: it accepts or rejects it. */
  lemma AnswerKeepsInv(s: Sys, e: Exec, row: Row) returns (s': Sys)
    requires Inv(s) && s.cmds != [] && s.cmds[0].Place? && e.cid == s.cmds[0].cid
    requires e.kind == Ack || e.kind == Rejected
    requires row.cid == e.cid && row.px == s.cmds[0].px && row.qty == s.cmds[0].qty && row.side == s.cmds[0].side
    ensures s' == s.(cmds := s.cmds[1..], open := if e.kind.Ack? then s.open[e.cid := row] else s.open,
                     execs := s.execs + [e])
    ensures Inv(s')
  {
    s' := s.(cmds := s.cmds[1..], open := if e.kind.Ack? then s.open[e.cid := row] else s.open,
             execs := s.execs + [e]);
    assert PlaceOk(s, 0);
    forall k | 0 <= k < |s'.cmds| ensures PlaceOk(s', k) {
      assert PlaceOk(s, k + 1);
      if s'.cmds[k].Place? { ExecsGrow(s.execs, e, s'.cmds[k].cid); }
    }
    forall c | c in s.m
      ensures (HasPlace(s'.cmds, c) || c in s'.open || HasTerminal(s'.execs, c)) &&
              (s.m[c].state == PendingCancel ==> Doomed(s', c))
    {
      CmdsShrink(s.cmds, c);
      ExecsGrow(s.execs, e, c);
    }
    forall c | c in s'.open ensures !HasTerminal(s'.execs, c) { ExecsGrow(s.execs, e, c); }
  }

  /** The exchange closes an open order: filled, canceled or expired. */
  lemma CloseKeepsInv(s: Sys, e: Exec) returns (s': Sys)
    requires Inv(s) && e.cid in s.open && Terminal(e.kind)
    ensures s' == s.(open := s.open - {e.cid}, execs := s.execs + [e])
    ensures Inv(s')
  {
    s' := s.(open := s.open - {e.cid}, execs := s.execs + [e]);
    forall k | 0 <= k < |s'.cmds| ensures PlaceOk(s', k) {
      assert PlaceOk(s, k);
      if s'.cmds[k].Place? { ExecsGrow(s.execs, e, s'.cmds[k].cid); }
    }
    forall c | c in s.m
      ensures (HasPlace(s'.cmds, c) || c in s'.open || HasTerminal(s'.execs, c)) &&
              (s.m[c].state == PendingCancel ==> Doomed(s', c))
    {
      ExecsGrow(s.execs, e, c);
    }
    forall c | c in s'.open ensures !HasTerminal(s'.execs, c) { ExecsGrow(s.execs, e, c); }
    assert forall k :: 0 <= k < |s.execs| ==> (Terminal(s.execs[k].kind) ==> s.execs[k].cid != e.cid);
  }

  /** The exchange fills part of an open order. */
  lemma PartialKeepsInv(s: Sys, e: Exec) returns (s': Sys)
    requires Inv(s) && e.cid in s.open && e.kind.Partial?
    ensures s' == s.(open := s.open[e.cid := s.open[e.cid].(cum := e.cum)], execs := s.execs + [e])
    ensures Inv(s')
  {
    s' := s.(open := s.open[e.cid := s.open[e.cid].(cum := e.cum)], execs := s.execs + [e]);
    PartialPlaces(s, e, s');
    PartialOpen(s, e);
    ReportAppends(s, e, s');
    forall c | c in s.m
      ensures (HasPlace(s'.cmds, c) || c in s'.open || HasTerminal(s'.execs, c)) &&
              (s.m[c].state == PendingCancel ==> Doomed(s', c))
    {
      ExecsGrow(s.execs, e, c);
    }
  }

  lemma PartialPlaces(s: Sys, e: Exec, s': Sys)
    requires PlacesOk(s) && e.cid in s.open
    requires s'.m == s.m && s'.cmds == s.cmds && s'.open.Keys == s.open.Keys && s'.execs == s.execs + [e]
    ensures PlacesOk(s')
  {
    forall k | 0 <= k < |s'.cmds| ensures PlaceOk(s', k) {
      assert PlaceOk(s, k);
      if s'.cmds[k].Place? { ExecsGrow(s.execs, e, s'.cmds[k].cid); }
    }
  }

  lemma PartialOpen(s: Sys, e: Exec)
    requires OpenOk(s) && e.cid in s.open && !Terminal(e.kind)
    ensures OpenOk(s.(open := s.open[e.cid := s.open[e.cid].(cum := e.cum)], execs := s.execs + [e]))
  {
    forall c | c in s.open ensures !HasTerminal(s.execs + [e], c) { ExecsGrow(s.execs, e, c); }
  }

  /** A report about an order that no report has closed may follow the others. */
  lemma ReportAppends(s: Sys, e: Exec, s': Sys)
    requires ExecsOk(s) && e.cid < s.nextCid && !HasTerminal(s.execs, e.cid)
    requires s'.nextCid == s.nextCid && s'.execs == s.execs + [e]
    ensures ExecsOk(s')
  {
    assert forall k :: 0 <= k < |s.execs| ==> (Terminal(s.execs[k].kind) ==> s.execs[k].cid != e.cid);
  }

  /** A cancel leaves the queue once none of the orders it removes is open. */
  lemma DropKillKeepsInv(s: Sys) returns (s': Sys)
    requires Inv(s) && s.cmds != [] && !s.cmds[0].Place?
    requires forall c :: c in s.open ==> !Kills(s.cmds[0], c)
    ensures s' == s.(cmds := s.cmds[1..])
    ensures Inv(s')
  {
    s' := s.(cmds := s.cmds[1..]);
    forall k | 0 <= k < |s'.cmds| ensures PlaceOk(s', k) { assert PlaceOk(s, k + 1); }
    forall c | c in s.m
      ensures (HasPlace(s'.cmds, c) || c in s'.open || HasTerminal(s'.execs, c)) &&
              (s.m[c].state == PendingCancel ==> Doomed(s', c))
    {
      CmdsShrink(s.cmds, c);
    }
  }

  lemma ExecsShrink(execs: seq<Exec>, c: nat)
    requires execs != []
    ensures HasTerminal(execs[1..], c) ==> HasTerminal(execs, c)
    ensures HasTerminal(execs, c) && !(execs[0].cid == c && Terminal(execs[0].kind)) ==> HasTerminal(execs[1..], c)
    ensures NoExec(execs, c) ==> NoExec(execs[1..], c)
  {
    var rest := execs[1..];
    assert forall k :: 0 <= k < |rest| ==> rest[k] == execs[k + 1];
    if HasTerminal(execs, c) && !(execs[0].cid == c && Terminal(execs[0].kind)) {
      var k :| 0 <= k < |execs| && execs[k].cid == c && Terminal(execs[k].kind);
      assert rest[k - 1] == execs[k];
    }
  }

  /** The known orders after a report; one about an unknown order changes nothing. */
  function OrdersAfter(m: map<nat, Order>, e: Exec): map<nat, Order> {
    if e.cid !in m then m
    else if Terminal(e.kind) then m - {e.cid}
    else m[e.cid := Reported(m[e.cid], e)]
  }

  lemma OrdersAfterKeeps(m: map<nat, Order>, e: Exec, c: nat)
    ensures c in OrdersAfter(m, e) <==> c in m && (c == e.cid ==> !Terminal(e.kind))
    ensures c in OrdersAfter(m, e) ==> var o, o' := m[c], OrdersAfter(m, e)[c];
      && (c == e.cid || o' == o) && (o'.state == PendingCancel ==> o == o')
      && o'.active == o.active && o'.cid == o.cid && o'.side == o.side && o'.px == o.px && o'.qty == o.qty
  {
  }

  lemma DeliverPlaces(s: Sys, s': Sys)
    requires PlacesOk(s) && s.execs != [] && s' == s.(m := OrdersAfter(s.m, s.execs[0]), execs := s.execs[1..])
    ensures PlacesOk(s')
  {
    forall k | 0 <= k < |s'.cmds| ensures PlaceOk(s', k) {
      assert PlaceOk(s, k);
      if s'.cmds[k].Place? {
        ExecsShrink(s.execs, s'.cmds[k].cid);
        OrdersAfterKeeps(s.m, s.execs[0], s'.cmds[k].cid);
      }
    }
  }

  lemma DeliverOpen(s: Sys, s': Sys)
    requires OpenOk(s) && s.execs != [] && s' == s.(m := OrdersAfter(s.m, s.execs[0]), execs := s.execs[1..])
    ensures OpenOk(s')
  {
    assert HasTerminal(s.execs, s.execs[0].cid) <== Terminal(s.execs[0].kind);
    forall c | c in s'.open
      ensures s'.open[c].cid == c && c in s'.m && !HasTerminal(s'.execs, c) &&
        s'.m[c].side == s'.open[c].side && s'.m[c].px == s'.open[c].px && s'.m[c].qty == s'.open[c].qty
    {
      ExecsShrink(s.execs, c);
      OrdersAfterKeeps(s.m, s.execs[0], c);
    }
  }

  lemma DeliverOrders(s: Sys, s': Sys)
    requires OrdersOk(s) && s.execs != [] && s' == s.(m := OrdersAfter(s.m, s.execs[0]), execs := s.execs[1..])
    ensures OrdersOk(s')
  {
    forall c | c in s'.m ensures s'.m[c].active && s'.m[c].cid == c && c < s'.nextCid && c in s.m {
      OrdersAfterKeeps(s.m, s.execs[0], c);
    }
    forall c, d | c in s'.m && d in s'.m && c != d ensures s'.m[c].side != s'.m[d].side {
      OrdersAfterKeeps(s.m, s.execs[0], c);
      OrdersAfterKeeps(s.m, s.execs[0], d);
    }
  }

  lemma DeliverLeaks(s: Sys, s': Sys)
    requires NoLeaks(s) && CancelsOk(s) && s.execs != []
    requires s' == s.(m := OrdersAfter(s.m, s.execs[0]), execs := s.execs[1..])
    ensures NoLeaks(s') && CancelsOk(s')
  {
    forall c | c in s'.m
      ensures (HasPlace(s'.cmds, c) || c in s'.open || HasTerminal(s'.execs, c)) &&
              (s'.m[c].state == PendingCancel ==> Doomed(s', c))
    {
      ExecsShrink(s.execs, c);
      OrdersAfterKeeps(s.m, s.execs[0], c);
    }
  }

  /** The state machine takes in the first report. */
  lemma DeliverKeepsInv(s: Sys) returns (s': Sys)
    requires Inv(s) && s.execs != []
    ensures s' == s.(m := OrdersAfter(s.m, s.execs[0]), execs := s.execs[1..])
    ensures Inv(s')
  {
    s' := s.(m := OrdersAfter(s.m, s.execs[0]), execs := s.execs[1..]);
    DeliverOrders(s, s');
    DeliverPlaces(s, s');
    DeliverOpen(s, s');
    DeliverLeaks(s, s');
  }

  // ------------------------------------------------------- a report of open orders

  ghost predicate NoPlaces(cmds: seq<Command>) {
    forall k :: 0 <= k < |cmds| ==> !cmds[k].Place?
  }

  /** The orders the exchange has open, as slots would hold them. */
  function OpenOrders(open: map<nat, Row>): map<nat, Order> {
    map c | c in open :: FromRow(open[c])
  }

  predicate SameTerms(a: Row, b: Row) {
    a.side == b.side && a.px == b.px && a.qty == b.qty
  }

  /** Some time ago the exchange had exactly these orders open. */
  ghost predicate Past(s: Sys, taken: map<nat, Row>) {
    && (forall c :: c in taken ==>
          && taken[c].cid == c && c < s.nextCid && !HasPlace(s.cmds, c)
          && (c in s.open ==> SameTerms(taken[c], s.open[c])))
    && (forall c, d :: c in taken && d in taken && c != d ==> taken[c].side != taken[d].side)
  }

  /** No placement is under way, every open order is listed, and every listed order is
      open or about to be reported closed. */
  ghost predicate Current(s: Sys, taken: map<nat, Row>) {
    && NoPlaces(s.cmds) && (forall c :: c in s.open ==> c in taken)
    && (forall c :: c in taken ==> c in s.open || HasTerminal(s.execs, c))
  }

  /** Exactly when a report of the orders that were open some time ago may replace what
      is known. */
  lemma ReportIsSafe(s: Sys, taken: map<nat, Row>)
    requires Inv(s) && Past(s, taken)
    ensures Inv(s.(m := OpenOrders(taken))) <==> Current(s, taken)
  {
    var s' := s.(m := OpenOrders(taken));
    if Current(s, taken) {
      CurrentIsSafe(s, taken);
    } else if !NoPlaces(s.cmds) {
      var k :| 0 <= k < |s.cmds| && s.cmds[k].Place?;
      assert HasPlace(s.cmds, s.cmds[k].cid);
      assert !PlaceOk(s', k);
    } else if c :| c in s.open && c !in taken {
      assert !OpenOk(s');
    } else {
      var c :| c in taken && c !in s.open && !HasTerminal(s.execs, c);
      assert c in s'.m && !HasPlace(s'.cmds, c);
      assert !NoLeaks(s');
    }
  }

  lemma CurrentIsSafe(s: Sys, taken: map<nat, Row>)
    requires Inv(s) && Past(s, taken) && Current(s, taken)
    ensures Inv(s.(m := OpenOrders(taken)))
  {
    ListedOrders(s, taken);
    ListedOpen(s, taken);
    ListedRest(s, taken);
  }

  lemma ListedOrders(s: Sys, taken: map<nat, Row>)
    requires Past(s, taken)
    ensures OrdersOk(s.(m := OpenOrders(taken)))
  {
  }

  lemma ListedOpen(s: Sys, taken: map<nat, Row>)
    requires OpenOk(s) && Past(s, taken) && forall c :: c in s.open ==> c in taken
    ensures OpenOk(s.(m := OpenOrders(taken)))
  {
  }

  lemma ListedRest(s: Sys, taken: map<nat, Row>)
    requires NoPlaces(s.cmds) && forall c :: c in taken ==> c in s.open || HasTerminal(s.execs, c)
    ensures var s' := s.(m := OpenOrders(taken)); PlacesOk(s') && NoLeaks(s') && CancelsOk(s')
  {
    var s' := s.(m := OpenOrders(taken));
    forall k | 0 <= k < |s'.cmds| ensures PlaceOk(s', k) {
    }
  }

  /** A listing taken now is a past one, and current unless a placement is under way. */
  lemma TakenNow(s: Sys)
    requires Inv(s)
    ensures Past(s, s.open) && (Current(s, s.open) <==> NoPlaces(s.cmds))
  {
    forall c ensures HasPlace(s.cmds, c) ==> c !in s.open { PlacedNotOpen(s, c); }
  }

  lemma PlacedNotOpen(s: Sys, c: nat)
    requires PlacesOk(s)
    ensures HasPlace(s.cmds, c) ==> c !in s.open
  {
    if k :| 0 <= k < |s.cmds| && s.cmds[k].Place? && s.cmds[k].cid == c {
      assert PlaceOk(s, k);
    }
  }

  /** Time passes: ids only grow, no old id is placed again, and terms do not change. */
  lemma PastStays(s: Sys, s': Sys, taken: map<nat, Row>)
    requires Past(s, taken) && s.nextCid <= s'.nextCid
    requires forall c: nat :: c < s.nextCid && HasPlace(s'.cmds, c) ==> HasPlace(s.cmds, c)
    requires forall c :: c in s'.open ==> HasPlace(s.cmds, c) || (c in s.open && SameTerms(s.open[c], s'.open[c]))
    ensures Past(s', taken)
  {
  }
}
