/** The REST weight budget: a continuously refilled token bucket, over the reals. */
module TokenBucket {
  const SLACK: real := 0.000000001

  /** `credit` gives the tokens refilled between two clock readings. */
  datatype Bucket = Bucket(capacity: real, credit: (int, int) -> real, tokens: real, lastNs: int)

  ghost predicate Configured(b: Bucket) {
    b.capacity >= 0.0 && forall last, now :: b.credit(last, now) >= 0.0
  }

  /** Never overfull, and overdrawn by the comparison slack at most. */
  ghost predicate Bounded(b: Bucket) {
    Configured(b) && -SLACK <= b.tokens <= b.capacity
  }

  /** Seconds credited between two calls; none before the first, none backwards. */
  function Gap(last: int, now: int): (s: real)
    ensures s >= 0.0
  {
    if last == 0 || now < last then 0.0 else (now - last) as real / 1000000000.0
  }

  /** Refilling at a constant rate per second. */
  function Linear(rate: real): (int, int) -> real {
    (last, now) => Gap(last, now) * rate
  }

  function Available(b: Bucket, now: int): real {
    var refilled := b.tokens + b.credit(b.lastNs, now);
    if refilled < b.capacity then refilled else b.capacity
  }

  predicate Grants(b: Bucket, n: real, now: int) {
    Available(b, now) + SLACK >= n
  }

  function Taken(b: Bucket, n: real, now: int): Bucket {
    var t := Available(b, now);
    b.(tokens := if Grants(b, n, now) then t - n else t, lastNs := now)
  }

  function Synced(b: Bucket, used: real, now: int): Bucket {
    var left := b.capacity - used;
    b.(tokens := if left < 0.0 then 0.0 else if left > b.capacity then b.capacity else left, lastNs := now)
  }

  class TokenBucket {
    const capacity: real
    const refill: real
    var tokens: real
    var lastNs: int

    ghost function View(): Bucket
      reads this
    {
      Bucket(capacity, Linear(refill), tokens, lastNs)
    }

    constructor (capacity: real, refill: real)
      ensures View() == Bucket(capacity, Linear(refill), capacity, 0)
    {
      this.capacity, this.refill, tokens, lastNs := capacity, refill, capacity, 0;
    }

    method Level(now: int) returns (t: real)
      ensures t == Available(View(), now)
    {
      var elapsed := if lastNs == 0 then 0.0 else (now - lastNs) as real / 1000000000.0;
      var refilled := tokens + (if elapsed > 0.0 then elapsed else 0.0) * refill;
      t := if refilled < capacity then refilled else capacity;
    }

    method TryTake(n: real, now: int) returns (ok: bool)
      modifies this
      ensures ok <==> Grants(old(View()), n, now)
      ensures View() == Taken(old(View()), n, now)
    {
      var t := Level(now);
      tokens, lastNs := t, now;
      if tokens + SLACK < n { return false; }
      tokens := tokens - n;
      ok := true;
    }

    method SetUsed(used: real, now: int)
      modifies this
      ensures View() == Synced(old(View()), used, now)
    {
      var left := capacity - used;
      tokens := if left < 0.0 then 0.0 else if left > capacity then capacity else left;
      lastNs := now;
    }
  }

  // ------------------------------------------------------------------- over runs

  datatype Op = Take(n: real, now: int) | Sync(used: real, now: int)

  predicate Sane(ops: seq<Op>) {
    forall op :: op in ops && op.Take? ==> op.n >= 0.0
  }

  function Stepped(b: Bucket, op: Op): Bucket {
    match op
    case Take(n, now) => Taken(b, n, now)
    case Sync(used, now) => Synced(b, used, now)
  }

  function After(b: Bucket, ops: seq<Op>): Bucket
    decreases |ops|
  {
    if ops == [] then b else After(Stepped(b, ops[0]), ops[1..])
  }

  /** The weight one operation spends, and the total a run spends. */
  function Spent(b: Bucket, op: Op): real {
    if op.Take? && Grants(b, op.n, op.now) then op.n else 0.0
  }

  function Granted(b: Bucket, ops: seq<Op>): real
    decreases |ops|
  {
    if ops == [] then 0.0 else Spent(b, ops[0]) + Granted(Stepped(b, ops[0]), ops[1..])
  }

  lemma StepBounded(b: Bucket, op: Op)
    requires Bounded(b) && (op.Take? ==> op.n >= 0.0)
    ensures Bounded(Stepped(b, op))
  {
    assert b.credit(b.lastNs, op.now) >= 0.0;
  }

  lemma {:induction false} RunBounded(b: Bucket, ops: seq<Op>)
    requires Bounded(b) && Sane(ops)
    ensures Bounded(After(b, ops))
    decreases |ops|
  {
    if ops != [] {
      assert ops[0] in ops;
      StepBounded(b, ops[0]);
      RunBounded(Stepped(b, ops[0]), ops[1..]);
    }
  }

  predicate OnlyTakes(ops: seq<Op>) {
    forall op :: op in ops ==> op.Take?
  }

  /** Clock readings do not go backwards. */
  predicate Ordered(from: int, ops: seq<Op>)
    decreases |ops|
  {
    ops != [] ==> from <= ops[0].now && Ordered(ops[0].now, ops[1..])
  }

  function EndTime(from: int, ops: seq<Op>): int {
    if ops == [] then from else ops[|ops| - 1].now
  }

  function Seconds(from: int, to: int): real {
    (to - from) as real / 1000000000.0
  }

  /** One request spends out of what was there and what the gap refilled, and never
      more than the capacity. */
  lemma StepFunded(b: Bucket, op: Op)
    requires Configured(b) && op.Take?
    ensures Spent(b, op) + Stepped(b, op).tokens <= b.tokens + b.credit(b.lastNs, op.now)
    ensures Spent(b, op) + Stepped(b, op).tokens <= b.capacity
  {
  }

  /** The tokens refilled while the clock reads these times. */
  function Credit(credit: (int, int) -> real, from: int, ops: seq<Op>): real
    decreases |ops|
  {
    if ops == [] then 0.0 else credit(from, ops[0].now) + Credit(credit, ops[0].now, ops[1..])
  }

  /** What is spent comes out of what was there and what was refilled. */
  lemma {:induction false} SpendingIsFunded(b: Bucket, ops: seq<Op>)
    requires Configured(b) && OnlyTakes(ops)
    ensures Granted(b, ops) + After(b, ops).tokens <= b.tokens + Credit(b.credit, b.lastNs, ops)
    decreases |ops|
  {
    if ops != [] {
      var op, rest, b1 := ops[0], ops[1..], Stepped(b, ops[0]);
      assert op in ops;
      StepFunded(b, op);
      SpendingIsFunded(b1, rest);
      Chained(Spent(b, op), b1.tokens, b.tokens, b.credit(b.lastNs, op.now),
              Granted(b1, rest), After(b1, rest).tokens, Credit(b.credit, op.now, rest));
    }
  }

  lemma Chained(spent0: real, left0: real, had: real, credit0: real, spent1: real, left1: real, credit1: real)
    requires spent0 + left0 <= had + credit0 && spent1 + left1 <= left0 + credit1
    ensures (spent0 + spent1) + left1 <= had + (credit0 + credit1)
  {
  }

  /** With a forward clock the gaps add up to the window at most. */
  lemma {:induction false} CreditIsWindow(rate: real, from: int, ops: seq<Op>, end: int)
    requires rate >= 0.0 && Ordered(from, ops) && end == EndTime(from, ops)
    ensures Credit(Linear(rate), from, ops) <= rate * Seconds(from, end)
    decreases |ops|
  {
    if ops == [] {
      assert Seconds(from, end) == 0.0;
    } else {
      CreditIsWindow(rate, ops[0].now, ops[1..], end);
      Windows(rate, from, ops[0].now, end);
    }
  }

  lemma Windows(rate: real, a: int, b: int, c: int)
    requires rate >= 0.0 && a <= b
    ensures Linear(rate)(a, b) + rate * Seconds(b, c) <= rate * Seconds(a, c)
  {
    var g, x, y := Gap(a, b), Seconds(a, b), Seconds(b, c);
    assert x + y == Seconds(a, c) && g <= x;
    Distributes(rate, x, y);
    Scales(rate, g, x);
  }

  lemma Distributes(rate: real, x: real, y: real)
    ensures rate * (x + y) == rate * x + rate * y
  {
  }

  lemma Scales(rate: real, g: real, x: real)
    requires rate >= 0.0 && g <= x
    ensures g * rate <= rate * x
  {
  }

  lemma LinearIsConfigured(b: Bucket, rate: real)
    requires b.capacity >= 0.0 && rate >= 0.0 && b.credit == Linear(rate)
    ensures Configured(b)
  {
    forall last, now ensures b.credit(last, now) >= 0.0 {
      Scales(rate, 0.0, Gap(last, now));
    }
  }

  /** The rate limit. After any run, over any window of requests with a forward clock,
      the granted weight is at most the capacity plus the refill of the window. */
  lemma RateLimit(b: Bucket, rate: real, history: seq<Op>, window: seq<Op>, s: Bucket, from: int, to: int)
    requires b.capacity >= 0.0 && rate >= 0.0 && b.credit == Linear(rate) && -SLACK <= b.tokens <= b.capacity
    requires s == After(b, history) && Sane(history + window)
    requires OnlyTakes(window) && window != [] && Ordered(from, window)
    requires from == window[0].now && to == window[|window| - 1].now
    ensures Granted(s, window) <= s.capacity + rate * Seconds(from, to) + SLACK
    ensures s.capacity == b.capacity
  {
    AfterHistory(b, rate, history, window);
    WindowLimit(s, rate, window, from, to);
  }

  lemma AfterHistory(b: Bucket, rate: real, history: seq<Op>, window: seq<Op>)
    requires b.capacity >= 0.0 && rate >= 0.0 && b.credit == Linear(rate) && -SLACK <= b.tokens <= b.capacity
    requires Sane(history + window)
    ensures Sane(window) && Bounded(After(b, history))
    ensures After(b, history).capacity == b.capacity && After(b, history).credit == Linear(rate)
  {
    LinearIsConfigured(b, rate);
    SaneParts(history, window);
    RunBounded(b, history);
    ConfigKept(b, history);
  }

  lemma WindowLimit(b: Bucket, rate: real, window: seq<Op>, from: int, to: int)
    requires Bounded(b) && b.credit == Linear(rate) && rate >= 0.0 && Sane(window)
    requires OnlyTakes(window) && window != [] && Ordered(from, window)
    requires from == window[0].now && to == EndTime(0, window)
    ensures Granted(b, window) <= b.capacity + rate * Seconds(from, to) + SLACK
  {
    CreditIsWindow(rate, from, window[1..], to);
    WindowFunded(b, window, rate * Seconds(from, to));
  }

  lemma SaneParts(history: seq<Op>, window: seq<Op>)
    requires Sane(history + window)
    ensures Sane(history) && Sane(window)
  {
    assert forall op :: op in history ==> op in history + window;
    assert forall op :: op in window ==> op in history + window;
  }

  lemma WindowFunded(b: Bucket, window: seq<Op>, credit: real)
    requires Bounded(b) && Sane(window)
    requires OnlyTakes(window) && window != []
    requires Credit(b.credit, window[0].now, window[1..]) <= credit
    ensures Granted(b, window) <= b.capacity + credit + SLACK
  {
    var op, b1 := window[0], Stepped(b, window[0]);
    assert op in window;
    StepFunded(b, op);
    StepBounded(b, op);
    SpendingIsFunded(b1, window[1..]);
    RunBounded(b1, window[1..]);
  }

  lemma {:induction false} ConfigKept(b: Bucket, ops: seq<Op>)
    ensures After(b, ops).capacity == b.capacity && After(b, ops).credit == b.credit
    decreases |ops|
  {
    if ops != [] { ConfigKept(Stepped(b, ops[0]), ops[1..]); }
  }
}
