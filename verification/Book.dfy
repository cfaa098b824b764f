/** The two-sided bounded book: its value, and the in-place array implementation. */
module Book {
  import opened Events
  import opened BookSide

  datatype BookView = BookView(bids: seq<Level>, asks: seq<Level>, lastId: nat, lastTs: int)

  const EMPTY: BookView := BookView([], [], 0, 0)

  ghost predicate WfBook(b: BookView) {
    Wf(Bid, b.bids) && Wf(Ask, b.asks)
  }

  function SideOf(b: BookView, side: Side): seq<Level> {
    if side.Bid? then b.bids else b.asks
  }

  function WithSide(b: BookView, side: Side, s: seq<Level>): BookView {
    if side.Bid? then b.(bids := s) else b.(asks := s)
  }

  /** All bids of the event, then all asks, then the last-update bookkeeping. */
  function WithEvent(b: BookView, ev: MarketEvent): (r: BookView)
    ensures WfBook(b) ==> WfBook(r)
  {
    AppliedEventWf(b, ev);
    BookView(AppliedAll(Bid, b.bids, ev.bids), AppliedAll(Ask, b.asks, ev.asks), ev.finalId, ev.tsRecv)
  }

  lemma AppliedEventWf(b: BookView, ev: MarketEvent)
    ensures WfBook(b) ==> Wf(Bid, AppliedAll(Bid, b.bids, ev.bids)) && Wf(Ask, AppliedAll(Ask, b.asks, ev.asks))
  {
    if WfBook(b) {
      AppliedAllWf(Bid, b.bids, ev.bids);
      AppliedAllWf(Ask, b.asks, ev.asks);
    }
  }

  function BestOf(s: seq<Level>): Option<Level> {
    if s == [] then None else Some(s[|s| - 1])
  }

  function MidOf(b: BookView): Option<int> {
    if b.bids == [] || b.asks == [] then None
    else Some(b.bids[|b.bids| - 1].px + b.asks[|b.asks| - 1].px)
  }

  /** Fixed-size arrays, worst price first; the best level is the last active one. */
  class L2Book {
    const bids: array<Level>
    const asks: array<Level>
    var numBids: nat
    var numAsks: nat
    var lastUpdateId: nat
    var lastUpdateTs: int

    ghost predicate Valid()
      reads this, bids, asks
    {
      && bids != asks
      && bids.Length == MAX_LEVELS && asks.Length == MAX_LEVELS
      && numBids <= MAX_LEVELS && numAsks <= MAX_LEVELS
      && Wf(Bid, bids[..numBids]) && Wf(Ask, asks[..numAsks])
    }

    ghost function View(): BookView
      requires Valid()
      reads this, bids, asks
    {
      BookView(bids[..numBids], asks[..numAsks], lastUpdateId, lastUpdateTs)
    }

    constructor ()
      ensures Valid() && View() == EMPTY && fresh(bids) && fresh(asks)
    {
      bids := new Level[MAX_LEVELS](_ => Level(0, 0));
      asks := new Level[MAX_LEVELS](_ => Level(0, 0));
      numBids, numAsks, lastUpdateId, lastUpdateTs := 0, 0, 0, 0;
    }

    method Apply(side: Side, px: int, qty: int) returns (r: ApplyResult)
      requires Valid()
      modifies this, bids, asks
      ensures Valid()
      ensures (SideOf(View(), side), r) == Applied(side, old(SideOf(View(), side)), px, qty)
      ensures View() == WithSide(old(View()), side, SideOf(View(), side))
    {
      ghost var s := SideOf(View(), side);
      AppliedMembers(side, s, px, qty);
      if side.Bid? {
        numBids, r := ApplySide(side, bids, numBids, px, qty);
      } else {
        numAsks, r := ApplySide(side, asks, numAsks, px, qty);
      }
    }

    method ApplyEvent(ev: MarketEvent)
      requires Valid()
      modifies this, bids, asks
      ensures Valid()
      ensures View() == WithEvent(old(View()), ev)
    {
      var i := 0;
      while i < |ev.bids|
        invariant i <= |ev.bids| && Valid()
        invariant AppliedAll(Bid, View().bids, ev.bids[i..]) == AppliedAll(Bid, old(View()).bids, ev.bids)
        invariant View().asks == old(View()).asks
      {
        assert ev.bids[i..][1..] == ev.bids[i + 1..];
        var _ := Apply(Bid, ev.bids[i].px, ev.bids[i].qty);
        i := i + 1;
      }
      i := 0;
      while i < |ev.asks|
        invariant i <= |ev.asks| && Valid()
        invariant AppliedAll(Ask, View().asks, ev.asks[i..]) == AppliedAll(Ask, old(View()).asks, ev.asks)
        invariant View().bids == AppliedAll(Bid, old(View()).bids, ev.bids)
      {
        assert ev.asks[i..][1..] == ev.asks[i + 1..];
        var _ := Apply(Ask, ev.asks[i].px, ev.asks[i].qty);
        i := i + 1;
      }
      lastUpdateId := ev.finalId;
      lastUpdateTs := ev.tsRecv;
    }

    method Clear()
      requires Valid()
      modifies this
      ensures Valid() && View() == EMPTY
    {
      numBids, numAsks, lastUpdateId, lastUpdateTs := 0, 0, 0, 0;
    }

    method BestBid() returns (r: Option<Level>)
      requires Valid()
      ensures r == BestOf(View().bids)
    {
      r := if numBids == 0 then None else Some(bids[numBids - 1]);
    }

    method BestAsk() returns (r: Option<Level>)
      requires Valid()
      ensures r == BestOf(View().asks)
    {
      r := if numAsks == 0 then None else Some(asks[numAsks - 1]);
    }

    method MidX2() returns (r: Option<int>)
      requires Valid()
      ensures r == MidOf(View())
    {
      r := if numBids == 0 || numAsks == 0 then None
           else Some(bids[numBids - 1].px + asks[numAsks - 1].px);
    }

    method DepthAt(side: Side, n: nat) returns (r: Option<Level>)
      requires Valid()
      ensures r == NthFromTop(SideOf(View(), side), n)
    {
      if side.Bid? {
        r := if n >= numBids then None else Some(bids[numBids - 1 - n]);
      } else {
        r := if n >= numAsks then None else Some(asks[numAsks - 1 - n]);
      }
    }
  }

  /** Binary search for the first level that is not worse than px. */
  method LowerBound(side: Side, arr: array<Level>, n: nat, px: int) returns (lo: nat)
    requires n <= arr.Length && Sorted(side, arr[..n])
    ensures lo == Rank(side, arr[..n], px)
  {
    lo := 0;
    var hi := n;
    while lo < hi
      invariant lo <= hi <= n
      invariant forall i :: 0 <= i < lo ==> IsWorse(side, arr[i].px, px)
      invariant forall i :: hi <= i < n ==> !IsWorse(side, arr[i].px, px)
    {
      var mid := lo + (hi - lo) / 2;
      assert forall i, j :: 0 <= i < j < n ==> IsWorse(side, arr[..n][i].px, arr[..n][j].px);
      if IsWorse(side, arr[mid].px, px) { lo := mid + 1; } else { hi := mid; }
    }
    RankSplits(side, arr[..n], px);
    ghost var k := Rank(side, arr[..n], px);
    assert k < n ==> arr[k] == arr[..n][k];
    assert lo < n ==> arr[lo] == arr[..n][lo];
    assert lo > 0 ==> arr[lo - 1] == arr[..n][lo - 1];
    assert k > 0 ==> arr[k - 1] == arr[..n][k - 1];
  }

  /** A price already there: delete it on a zero quantity, else overwrite it. */
  method ReplaceAt(arr: array<Level>, n: nat, idx: nat, v: Level) returns (n': nat)
    requires idx < n <= arr.Length
    modifies arr
    ensures n' <= n
    ensures arr[..n'] == if v.qty == 0 then old(arr[..n])[..idx] + old(arr[..n])[idx + 1..] else old(arr[..n])[idx := v]
  {
    ghost var s := arr[..n];
    if v.qty == 0 {
      EraseAt(arr, n, idx);
      assert arr[..n - 1] == s[..idx] + s[idx + 1..];
      return n - 1;
    }
    arr[idx] := v;
    assert arr[..n] == s[idx := v];
    return n;
  }

  /** A full side: forget the worst level, then insert. */
  method EvictInsert(arr: array<Level>, n: nat, j: nat, v: Level)
    requires 0 < n <= arr.Length && j < n
    modifies arr
    ensures arr[..n] == old(arr[..n])[1..][..j] + [v] + old(arr[..n])[1..][j..]
  {
    ghost var s := arr[..n];
    EraseAt(arr, n, 0);
    assert arr[..n - 1] == s[1..];
    assert arr[..j] == s[1..][..j] && arr[j..n - 1] == s[1..][j..];
    InsertAt(arr, n - 1, j, v);
  }

  /** The update proper, on the array and count of one side. */
  method ApplySide(side: Side, arr: array<Level>, n: nat, px: int, qty: int) returns (n': nat, r: ApplyResult)
    requires arr.Length == MAX_LEVELS && n <= MAX_LEVELS && Sorted(side, arr[..n])
    modifies arr
    ensures n' <= MAX_LEVELS
    ensures (arr[..n'], r) == Applied(side, old(arr[..n]), px, qty)
  {
    n' := n;
    ghost var s := arr[..n];
    var idx := LowerBound(side, arr, n, px);
    if idx < n && arr[idx].px == px {
      r := Ok;
      n' := ReplaceAt(arr, n, idx, Level(px, qty));
    } else if qty == 0 {
      r := Noop;
    } else if n == MAX_LEVELS {
      if IsWorse(side, px, arr[0].px) {
        r := Dropped;
      } else {
        r := Ok;
        EvictInsert(arr, n, if idx > 0 then idx - 1 else 0, Level(px, qty));
      }
    } else {
      r := Ok;
      assert arr[..idx] == s[..idx] && arr[idx..n] == s[idx..];
      InsertAt(arr, n, idx, Level(px, qty));
      n' := n + 1;
    }
  }

  /** Shift the tail of [0, n) down over the level at idx. */
  method EraseAt(arr: array<Level>, n: nat, idx: nat)
    requires idx < n <= arr.Length
    modifies arr
    ensures arr[..n - 1] == old(arr[..idx] + arr[idx + 1..n])
  {
    forall i | idx <= i < n - 1 {
      arr[i] := arr[i + 1];
    }
  }

  /** Shift the tail of [0, n) up and put v at idx. */
  method InsertAt(arr: array<Level>, n: nat, idx: nat, v: Level)
    requires idx <= n < arr.Length
    modifies arr
    ensures arr[..n + 1] == old(arr[..idx]) + [v] + old(arr[idx..n])
  {
    forall i | idx < i <= n {
      arr[i] := arr[i - 1];
    }
    arr[idx] := v;
  }
}
