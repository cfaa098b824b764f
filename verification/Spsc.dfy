/** The single-producer single-consumer ring as two threads taking small steps. */
module Spsc {
  import opened Arithmetic
  import opened Events

  // ------------------------------------------------------ power-of-two masking

  /** Bitwise conjunction of two naturals. */
  function BitAnd(a: nat, b: nat): nat
    decreases a
  {
    if a == 0 || b == 0 then 0 else (if a % 2 == 1 && b % 2 == 1 then 1 else 0) + 2 * BitAnd(a / 2, b / 2)
  }

  /** Two counters less than a lap apart use different slots. */
  lemma SlotsDistinct(i: nat, j: nat, cap: nat)
    requires cap > 0 && i < j < i + cap
    ensures i % cap != j % cap
  {
    DivMod(i, cap);
    DivMod(j, cap);
    assert cap * (j / cap - i / cap) == cap * (j / cap) - cap * (i / cap);
    MultipleIsFar(cap, j / cap - i / cap);
  }

  lemma HalfMod(i: nat, c: nat)
    requires c > 0
    ensures i % (2 * c) == i % 2 + 2 * ((i / 2) % c)
  {
    var q, r := (i / 2) / c, (i / 2) % c;
    DivMod(i / 2, c);
    DivMod(i, 2);
    assert 2 * (c * q) == (2 * c) * q;
    ModUnique(i, 2 * c, q, i % 2 + 2 * r);
  }

  /** Masking with capacity - 1 is the remainder, for a power-of-two capacity. */
  lemma {:induction false} MaskIsMod(i: nat, k: nat)
    ensures BitAnd(i, Pow2(k) - 1) == i % Pow2(k)
    decreases k
  {
    if k == 0 {
      assert i % 1 == 0;
    } else {
      MaskIsMod(i / 2, k - 1);
      MaskDoubles(i, Pow2(k - 1));
    }
  }

  lemma MaskDoubles(i: nat, c: nat)
    requires c > 0 && BitAnd(i / 2, c - 1) == (i / 2) % c
    ensures BitAnd(i, 2 * c - 1) == i % (2 * c)
  {
    HalfMod(i, c);
    MaskUnfold(i, c);
  }

  lemma MaskUnfold(i: nat, c: nat)
    requires c > 0
    ensures BitAnd(i, 2 * c - 1) == i % 2 + 2 * BitAnd(i / 2, c - 1)
  {
    assert (2 * c - 1) / 2 == c - 1 && (2 * c - 1) % 2 == 1;
    if i == 0 { assert BitAnd(0, c - 1) == 0; }
  }

  // -------------------------------------------------------------- two threads

  /** Where the producer stands inside try_push. */
  datatype ProducerPc<T> = PIdle | PCheck(v: T) | PReload(v: T) | PWrite(v: T) | PPublish(v: T)

  /** Where the consumer stands inside try_pop. */
  datatype ConsumerPc<T> = CIdle | CCheck | CReload | CRead | CPublish(out: T)

  /** Shared memory, both threads' private caches and positions, and the history
      of completed operations. */
  datatype State<T> = State(
    buf: seq<T>, head: nat, tail: nat, cachedHead: nat, cachedTail: nat,
    producer: ProducerPc<T>, consumer: ConsumerPc<T>,
    pushed: seq<T>, popped: seq<T>)

  /** The atomic steps. `seen` is the value an acquire load returns: any value the
      counter has had since the last one seen. */
  datatype Step<T> =
    | PushStart(v: T) | PushCheck | PushReload(seen: nat) | PushWrite | PushPublish
    | PopStart | PopCheck | PopReload(seen: nat) | PopRead | PopPublish

  predicate Enabled<T>(s: State<T>, t: Step<T>) {
    match t
    case PushStart(_) => s.producer.PIdle?
    case PushCheck => s.producer.PCheck?
    case PushReload(seen) => s.producer.PReload? && s.cachedHead <= seen <= s.head
    case PushWrite => s.producer.PWrite?
    case PushPublish => s.producer.PPublish?
    case PopStart => s.consumer.CIdle?
    case PopCheck => s.consumer.CCheck?
    case PopReload(seen) => s.consumer.CReload? && s.cachedTail <= seen <= s.tail
    case PopRead => s.consumer.CRead?
    case PopPublish => s.consumer.CPublish?
  }

  function Slot<T>(s: State<T>, i: nat): nat
    requires |s.buf| > 0
  {
    BitAnd(i, |s.buf| - 1)
  }

  predicate LooksFull<T>(s: State<T>, head: nat) {
    s.tail - head >= |s.buf|
  }

  predicate LooksEmpty<T>(s: State<T>, tail: nat) {
    s.head >= tail
  }

  /** The ring has power-of-two capacity. */
  ghost predicate PowerOfTwo(cap: nat) {
    exists k: nat :: cap == Pow2(k)
  }

  lemma SlotIsMod<T>(s: State<T>, i: nat)
    requires PowerOfTwo(|s.buf|)
    ensures |s.buf| > 0 && Slot(s, i) == i % |s.buf|
  {
    var k: nat :| |s.buf| == Pow2(k);
    MaskIsMod(i, k);
  }

  function Stepped<T>(s: State<T>, t: Step<T>): State<T>
    requires Enabled(s, t) && |s.buf| > 0
    requires Slot(s, s.tail) < |s.buf| && Slot(s, s.head) < |s.buf|
  {
    match t
    case PushStart(v) => s.(producer := PCheck(v))
    case PushCheck => s.(producer := if LooksFull(s, s.cachedHead) then PReload(s.producer.v) else PWrite(s.producer.v))
    case PushReload(seen) =>
      s.(cachedHead := seen, producer := if LooksFull(s, seen) then PIdle else PWrite(s.producer.v))
    case PushWrite => s.(buf := s.buf[Slot(s, s.tail) := s.producer.v], producer := PPublish(s.producer.v))
    case PushPublish => s.(tail := s.tail + 1, pushed := s.pushed + [s.producer.v], producer := PIdle)
    case PopStart => s.(consumer := CCheck)
    case PopCheck => s.(consumer := if LooksEmpty(s, s.cachedTail) then CReload else CRead)
    case PopReload(seen) => s.(cachedTail := seen, consumer := if LooksEmpty(s, seen) then CIdle else CRead)
    case PopRead => s.(consumer := CPublish(s.buf[Slot(s, s.head)]))
    case PopPublish => s.(head := s.head + 1, popped := s.popped + [s.consumer.out], consumer := CIdle)
  }

  ghost predicate Initial<T>(s: State<T>) {
    && PowerOfTwo(|s.buf|)
    && s.head == 0 && s.tail == 0 && s.cachedHead == 0 && s.cachedTail == 0
    && s.producer == PIdle && s.consumer == CIdle && s.pushed == [] && s.popped == []
  }

  /** The unread slots hold the pushed values that are still to be popped. */
  ghost predicate HoldsUnread<T>(s: State<T>) {
    forall i :: s.head <= i < s.tail ==> 0 <= i < |s.pushed| && |s.buf| > 0 && s.buf[i % |s.buf|] == s.pushed[i]
  }

  ghost predicate Inv<T>(s: State<T>) {
    && PowerOfTwo(|s.buf|) && |s.buf| > 0
    && s.cachedHead <= s.head <= s.cachedTail <= s.tail <= s.cachedHead + |s.buf|
    && |s.pushed| == s.tail && |s.popped| == s.head && s.popped == s.pushed[..s.head]
    && HoldsUnread(s)
    && (s.producer.PReload? ==> s.tail == s.cachedHead + |s.buf|)
    && (s.producer.PWrite? || s.producer.PPublish? ==> s.tail < s.cachedHead + |s.buf|)
    && (s.producer.PPublish? ==> s.buf[s.tail % |s.buf|] == s.producer.v)
    && (s.consumer.CReload? ==> s.head == s.cachedTail)
    && (s.consumer.CRead? || s.consumer.CPublish? ==> s.head < s.cachedTail)
    && (s.consumer.CPublish? ==> s.consumer.out == s.pushed[s.head])
  }

  lemma InitialInv<T>(s: State<T>)
    requires Initial(s)
    ensures Inv(s)
  {
  }

  lemma SlotsInRange<T>(s: State<T>)
    requires Inv(s)
    ensures Slot(s, s.tail) == s.tail % |s.buf| < |s.buf|
    ensures Slot(s, s.head) == s.head % |s.buf| < |s.buf|
  {
    SlotIsMod(s, s.tail);
    SlotIsMod(s, s.head);
  }

  /** The producer never writes a slot that the consumer has yet to read. */
  lemma WriteHitsFreeSlot<T>(s: State<T>)
    requires Inv(s) && s.producer.PWrite?
    ensures forall i :: s.head <= i < s.tail ==> i % |s.buf| != Slot(s, s.tail)
  {
    SlotsInRange(s);
    forall i | s.head <= i < s.tail ensures i % |s.buf| != Slot(s, s.tail) {
      SlotsDistinct(i, s.tail, |s.buf|);
    }
  }

  lemma WriteKeepsInv<T>(s: State<T>)
    requires Inv(s) && s.producer.PWrite?
    ensures Slot(s, s.tail) < |s.buf| && Slot(s, s.head) < |s.buf|
    ensures Inv(Stepped(s, PushWrite))
  {
    SlotsInRange(s);
    WriteHitsFreeSlot(s);
  }

  lemma PublishKeepsInv<T>(s: State<T>)
    requires Inv(s) && s.producer.PPublish?
    ensures Slot(s, s.tail) < |s.buf| && Slot(s, s.head) < |s.buf|
    ensures Inv(Stepped(s, PushPublish))
  {
    SlotsInRange(s);
    var s' := Stepped(s, PushPublish);
    assert s'.pushed[..s.head] == s.pushed[..s.head];
  }

  lemma ReadKeepsInv<T>(s: State<T>)
    requires Inv(s) && (s.consumer.CRead? || s.consumer.CPublish?)
    ensures Slot(s, s.tail) < |s.buf| && Slot(s, s.head) < |s.buf|
    ensures Inv(Stepped(s, if s.consumer.CRead? then PopRead else PopPublish))
  {
    SlotsInRange(s);
    assert s.pushed[..s.head + 1] == s.pushed[..s.head] + [s.pushed[s.head]];
  }

  /** Every step of either thread keeps the invariant. */
  lemma StepKeepsInv<T>(s: State<T>, t: Step<T>)
    requires Inv(s) && Enabled(s, t)
    ensures Slot(s, s.tail) < |s.buf| && Slot(s, s.head) < |s.buf|
    ensures Inv(Stepped(s, t))
  {
    SlotsInRange(s);
    match t {
      case PushWrite => WriteKeepsInv(s);
      case PushPublish => PublishKeepsInv(s);
      case PopRead => ReadKeepsInv(s);
      case PopPublish => ReadKeepsInv(s);
      case _ =>
    }
  }

  ghost predicate Transition<T>(s: State<T>, t: Step<T>, s': State<T>) {
    && Enabled(s, t) && |s.buf| > 0
    && Slot(s, s.tail) < |s.buf| && Slot(s, s.head) < |s.buf|
    && s' == Stepped(s, t)
  }

  /** A run: any interleaving of enabled steps from an initial state. */
  ghost predicate Run<T>(trace: seq<State<T>>, steps: seq<Step<T>>) {
    && |trace| == |steps| + 1 && Initial(trace[0])
    && forall i :: 0 <= i < |steps| ==> Transition(trace[i], steps[i], trace[i + 1])
  }

  lemma {:induction false} RunKeepsInv<T>(trace: seq<State<T>>, steps: seq<Step<T>>, i: nat)
    requires Run(trace, steps) && i < |trace|
    ensures Inv(trace[i])
    decreases i
  {
    if i == 0 {
      InitialInv(trace[0]);
    } else {
      RunKeepsInv(trace, steps, i - 1);
      assert Transition(trace[i - 1], steps[i - 1], trace[i]);
      StepKeepsInv(trace[i - 1], steps[i - 1]);
    }
  }

  /** Safety under every interleaving: what was popped is a prefix of what was
      pushed, so nothing is lost, duplicated or reordered; the ring never holds
      more than its capacity; and a cached counter never runs ahead of the real
      one. */
  lemma QueueSafety<T>(trace: seq<State<T>>, steps: seq<Step<T>>, i: nat)
    requires Run(trace, steps) && i < |trace|
    ensures var s := trace[i];
      && s.popped <= s.pushed
      && |s.pushed| - |s.popped| <= |s.buf|
      && s.cachedHead <= s.head && s.cachedTail <= s.tail
  {
    RunKeepsInv(trace, steps, i);
  }

  /** A producer write never hits an unread slot, in any run. */
  lemma NoOverwrite<T>(trace: seq<State<T>>, steps: seq<Step<T>>, i: nat, j: nat)
    requires Run(trace, steps) && i < |steps| && steps[i].PushWrite?
    requires trace[i].head <= j < trace[i].tail
    ensures |trace[i].buf| > 0 && j % |trace[i].buf| != Slot(trace[i], trace[i].tail)
  {
    RunKeepsInv(trace, steps, i);
    assert Transition(trace[i], steps[i], trace[i + 1]);
    WriteHitsFreeSlot(trace[i]);
  }

  /** A failed push means the ring was exactly full for the head value loaded, and
      truly full if that value was current; dually for a failed pop. */
  lemma FailureIsHonest<T>(trace: seq<State<T>>, steps: seq<Step<T>>, i: nat)
    requires Run(trace, steps) && i < |steps|
    ensures steps[i].PushReload? && trace[i + 1].producer.PIdle? ==>
      trace[i].tail == steps[i].seen + |trace[i].buf| &&
      (steps[i].seen == trace[i].head ==> |trace[i].pushed| - |trace[i].popped| == |trace[i].buf|)
    ensures steps[i].PopReload? && trace[i + 1].consumer.CIdle? ==>
      trace[i].head == steps[i].seen &&
      (steps[i].seen == trace[i].tail ==> trace[i].popped == trace[i].pushed)
  {
    RunKeepsInv(trace, steps, i);
    assert Transition(trace[i], steps[i], trace[i + 1]);
  }

  // ------------------------------------------------------------- one call alone

  ghost predicate Reachable<T(!new)>(s: State<T>) {
    exists trace, steps :: Run(trace, steps) && trace[|steps|] == s
  }

  lemma ReachableInv<T(!new)>(s: State<T>)
    requires Reachable(s)
    ensures Inv(s)
  {
    var trace, steps :| Run(trace, steps) && trace[|steps|] == s;
    RunKeepsInv(trace, steps, |steps|);
  }

  lemma RunExtends<T>(trace: seq<State<T>>, steps: seq<Step<T>>, s: State<T>, t: Step<T>, s': State<T>)
    requires Run(trace, steps) && trace[|steps|] == s && Transition(s, t, s')
    ensures Run(trace + [s'], steps + [t]) && (trace + [s'])[|steps + [t]|] == s'
  {
    var trace', steps' := trace + [s'], steps + [t];
    forall i | 0 <= i < |steps'| ensures Transition(trace'[i], steps'[i], trace'[i + 1]) {
      if i < |steps| { assert Transition(trace[i], steps[i], trace[i + 1]); }
    }
  }

  lemma ReachableStep<T(!new)>(s: State<T>, t: Step<T>)
    requires Reachable(s) && Enabled(s, t)
    ensures |s.buf| > 0 && Slot(s, s.tail) < |s.buf| && Slot(s, s.head) < |s.buf|
    ensures Reachable(Stepped(s, t))
  {
    ReachableInv(s);
    SlotsInRange(s);
    var trace, steps :| Run(trace, steps) && trace[|steps|] == s;
    RunExtends(trace, steps, s, t, Stepped(s, t));
  }

  /** A whole try_push with nothing in between, its load returning the current head. */
  ghost function PushAlone<T>(s: State<T>, v: T): (r: State<T>)
    requires Inv(s) && s.producer.PIdle?
    ensures Inv(r) && r.producer.PIdle?
  {
    StepKeepsInv(s, PushStart(v));
    var s1 := Stepped(s, PushStart(v));
    StepKeepsInv(s1, PushCheck);
    var s2 := Stepped(s1, PushCheck);
    if s2.producer.PReload? then
      StepKeepsInv(s2, PushReload(s2.head));
      var s3 := Stepped(s2, PushReload(s2.head));
      if s3.producer.PIdle? then s3 else WriteAlone(s3)
    else WriteAlone(s2)
  }

  ghost function WriteAlone<T>(s: State<T>): (r: State<T>)
    requires Inv(s) && s.producer.PWrite?
    ensures Inv(r) && r.producer.PIdle?
  {
    StepKeepsInv(s, PushWrite);
    var s1 := Stepped(s, PushWrite);
    StepKeepsInv(s1, PushPublish);
    Stepped(s1, PushPublish)
  }

  ghost function PopAlone<T>(s: State<T>): (r: State<T>)
    requires Inv(s) && s.consumer.CIdle?
    ensures Inv(r) && r.consumer.CIdle?
  {
    StepKeepsInv(s, PopStart);
    var s1 := Stepped(s, PopStart);
    StepKeepsInv(s1, PopCheck);
    var s2 := Stepped(s1, PopCheck);
    if s2.consumer.CReload? then
      StepKeepsInv(s2, PopReload(s2.tail));
      var s3 := Stepped(s2, PopReload(s2.tail));
      if s3.consumer.CIdle? then s3 else ReadAlone(s3)
    else ReadAlone(s2)
  }

  ghost function ReadAlone<T>(s: State<T>): (r: State<T>)
    requires Inv(s) && s.consumer.CRead?
    ensures Inv(r) && r.consumer.CIdle?
  {
    StepKeepsInv(s, PopRead);
    var s1 := Stepped(s, PopRead);
    StepKeepsInv(s1, PopPublish);
    Stepped(s1, PopPublish)
  }

  /** The queue after a write at the tail and its publication. */
  ghost function Appended<T>(s: State<T>, cachedHead: nat, v: T): State<T>
    requires |s.buf| > 0 && Slot(s, s.tail) < |s.buf|
  {
    s.(buf := s.buf[Slot(s, s.tail) := v], cachedHead := cachedHead, tail := s.tail + 1, pushed := s.pushed + [v])
  }

  lemma PushAloneForm<T>(s: State<T>, v: T)
    requires Inv(s) && s.producer.PIdle?
    ensures Slot(s, s.tail) < |s.buf|
    ensures PushAlone(s, v) ==
      if s.tail - s.cachedHead < |s.buf| then Appended(s, s.cachedHead, v)
      else if s.tail - s.head < |s.buf| then Appended(s, s.head, v)
      else s.(cachedHead := s.head)
  {
    SlotsInRange(s);
  }

  /** The state after a pop of `out`, if there is anything, with the cached tail seen. */
  function Popped<T>(s: State<T>, out: T, seen: nat): State<T> {
    if s.head < seen then s.(head := s.head + 1, popped := s.popped + [out], cachedTail := seen)
    else s.(cachedTail := seen)
  }

  lemma PopAloneForm<T>(s: State<T>)
    requires Inv(s) && s.consumer.CIdle?
    ensures Slot(s, s.head) < |s.buf|
    ensures PopAlone(s) == Popped(s, s.buf[Slot(s, s.head)], if s.head < s.cachedTail then s.cachedTail else s.tail)
    ensures s.head < s.tail ==> s.buf[Slot(s, s.head)] == s.pushed[s.head]
  {
    SlotsInRange(s);
  }

  /** What the code relies on before it pops. */
  lemma PopReady<T>(s: State<T>)
    requires Inv(s)
    ensures s.cachedTail <= s.tail && |s.buf| > 0 && Slot(s, s.head) < |s.buf|
    ensures |s.popped| == s.head && |s.pushed| == s.tail
  {
    SlotsInRange(s);
  }

  lemma PopDone<T>(s: State<T>, s': State<T>, out: T)
    requires Inv(s) && s.consumer.CIdle? && s.head < s.tail && Slot(s, s.head) < |s.buf|
    requires out == s.buf[Slot(s, s.head)]
    requires s' == s.(head := s.head + 1, popped := s.popped + [out],
                      cachedTail := if s.head < s.cachedTail then s.cachedTail else s.tail)
    ensures s' == PopAlone(s) && s.head < |s.pushed| && out == s.pushed[s.head]
  {
    PopAloneForm(s);
  }

  lemma PopNothing<T>(s: State<T>, s': State<T>)
    requires Inv(s) && s.consumer.CIdle? && s.head >= s.tail && s' == s.(cachedTail := s.tail)
    ensures s' == PopAlone(s)
  {
    PopAloneForm(s);
  }

  /** Alone, a push succeeds exactly when fewer than all slots are taken, and then
      appends its value; otherwise it leaves the queue as it was. */
  lemma PushAloneMeaning<T>(s: State<T>, v: T)
    requires Inv(s) && s.producer.PIdle?
    ensures PushAlone(s, v).pushed == if |s.pushed| - |s.popped| < |s.buf| then s.pushed + [v] else s.pushed
    ensures PushAlone(s, v).popped == s.popped && |PushAlone(s, v).buf| == |s.buf|
    ensures PushAlone(s, v).consumer == s.consumer
  {
    PushAloneForm(s, v);
  }

  /** Alone, a pop takes the oldest unread value, and fails exactly when there is
      none. */
  lemma PopAloneMeaning<T>(s: State<T>)
    requires Inv(s) && s.consumer.CIdle?
    ensures PopAlone(s).popped == if |s.popped| < |s.pushed| then s.popped + [s.pushed[|s.popped|]] else s.popped
    ensures PopAlone(s).pushed == s.pushed && |PopAlone(s).buf| == |s.buf|
    ensures PopAlone(s).producer == s.producer
  {
    PopAloneForm(s);
  }

  lemma PushAloneReachable<T(!new)>(s: State<T>, v: T)
    requires Reachable(s) && Inv(s) && s.producer.PIdle?
    ensures Reachable(PushAlone(s, v))
  {
    ReachableStep(s, PushStart(v));
    var s1 := Stepped(s, PushStart(v));
    ReachableStep(s1, PushCheck);
    var s2 := Stepped(s1, PushCheck);
    if s2.producer.PReload? {
      ReachableStep(s2, PushReload(s2.head));
      var s3 := Stepped(s2, PushReload(s2.head));
      if s3.producer.PWrite? { WriteAloneReachable(s3); }
    } else {
      WriteAloneReachable(s2);
    }
  }

  lemma WriteAloneReachable<T(!new)>(s: State<T>)
    requires Reachable(s) && Inv(s) && s.producer.PWrite?
    ensures Reachable(WriteAlone(s))
  {
    ReachableStep(s, PushWrite);
    ReachableStep(Stepped(s, PushWrite), PushPublish);
  }

  /** All slots are usable: from any initial state any list of up to capacity many
      values can be pushed before anything is popped. */
  lemma {:induction false} AllSlotsUsable<T(!new)>(s0: State<T>, vs: seq<T>) returns (s: State<T>)
    requires Initial(s0) && |vs| <= |s0.buf|
    ensures Reachable(s) && s.pushed == vs && s.popped == [] && s.producer.PIdle? && |s.buf| == |s0.buf|
    decreases |vs|
  {
    if vs == [] {
      s := s0;
      var none: seq<Step<T>> := [];
      assert Run([s0], none) && [s0][|none|] == s0;
    } else {
      var n := |vs| - 1;
      var s1 := AllSlotsUsable(s0, vs[..n]);
      ReachableInv(s1);
      PushAloneMeaning(s1, vs[n]);
      PushAloneReachable(s1, vs[n]);
      s := PushAlone(s1, vs[n]);
      assert vs == vs[..n] + [vs[n]];
    }
  }

  /** The queue object, for calls that run to completion. */
  class SpscQueue<T> {
    const buf: array<T>
    var head: nat
    var tail: nat
    var cachedHead: nat
    var cachedTail: nat
    ghost var pushed: seq<T>
    ghost var popped: seq<T>

    ghost function View(): State<T>
      reads this, buf
    {
      State(buf[..], head, tail, cachedHead, cachedTail, PIdle, CIdle, pushed, popped)
    }

    constructor (k: nat, init: T)
      ensures Initial(View()) && buf.Length == Pow2(k) && fresh(buf)
    {
      buf := new T[Pow2(k)](_ => init);
      head, tail, cachedHead, cachedTail, pushed, popped := 0, 0, 0, 0, [], [];
    }

    method TryPush(value: T) returns (ok: bool)
      requires Inv(View())
      modifies this`tail, this`cachedHead, this`pushed, buf
      ensures View() == PushAlone(old(View()), value)
      ensures ok <==> |old(pushed)| - |old(popped)| < buf.Length
    {
      ghost var s := View();
      PushAloneForm(s, value);
      if tail - cachedHead >= buf.Length {
        cachedHead := head;
        if tail - cachedHead >= buf.Length { return false; }
      }
      buf[BitAnd(tail, buf.Length - 1)] := value;
      assert buf[..] == s.buf[Slot(s, s.tail) := value];
      tail := tail + 1;
      pushed := pushed + [value];
      return true;
    }

    /** Look at the cached tail first, and reload it only if that shows nothing. */
    method HasNext() returns (some: bool)
      requires cachedTail <= tail
      modifies this`cachedTail
      ensures some <==> head < tail
      ensures cachedTail == if head < old(cachedTail) then old(cachedTail) else tail
    {
      if head >= cachedTail {
        cachedTail := tail;
        if head >= cachedTail { return false; }
      }
      return true;
    }

    /** Copy the slot at the head and release it. */
    method ReadSlot() returns (out: T)
      requires buf.Length > 0 && BitAnd(head, buf.Length - 1) < buf.Length
      modifies this`head, this`popped
      ensures out == buf[BitAnd(old(head), buf.Length - 1)]
      ensures head == old(head) + 1 && popped == old(popped) + [out]
    {
      out := buf[BitAnd(head, buf.Length - 1)];
      head := head + 1;
      popped := popped + [out];
    }

    method TryPop() returns (r: Option<T>)
      requires Inv(View())
      modifies this`head, this`cachedTail, this`popped
      ensures View() == PopAlone(old(View()))
      ensures r == if |old(popped)| < |old(pushed)| then Some(old(pushed)[|old(popped)|]) else None
    {
      ghost var s := View();
      PopReady(s);
      var some := HasNext();
      if some {
        var out := ReadSlot();
        r := Some(out);
        PopDone(s, View(), out);
      } else {
        r := None;
        PopNothing(s, View());
      }
    }
  }
}
