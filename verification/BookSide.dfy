/** One side of the bounded book as a value: what a single level update does to
    the sorted level sequence, and how the kept levels relate to an unbounded
    price-to-quantity map once some levels have been evicted or dropped. */
module BookSide {
  import opened Events

  const MAX_LEVELS: nat := 1024

  datatype ApplyResult = Ok | Noop | Dropped

  predicate IsWorse(side: Side, a: int, b: int) {
    if side.Bid? then a < b else a > b
  }

  /** Index order runs strictly from the worst price to the best one. */
  ghost predicate Sorted(side: Side, s: seq<Level>) {
    forall i, j :: 0 <= i < j < |s| ==> IsWorse(side, s[i].px, s[j].px)
  }

  ghost predicate Wf(side: Side, s: seq<Level>) {
    && Sorted(side, s)
    && |s| <= MAX_LEVELS
    && forall l :: l in s ==> l.qty != 0
  }

  /** Number of leading levels that are worse than px. */
  function Rank(side: Side, s: seq<Level>, px: int): (r: nat)
    ensures r <= |s|
  {
    if s == [] || !IsWorse(side, s[0].px, px) then 0 else 1 + Rank(side, s[1..], px)
  }

  lemma {:induction false} RankSplits(side: Side, s: seq<Level>, px: int)
    requires Sorted(side, s)
    ensures forall i :: 0 <= i < |s| ==> (IsWorse(side, s[i].px, px) <==> i < Rank(side, s, px))
  {
    if s != [] && IsWorse(side, s[0].px, px) {
      RankSplits(side, s[1..], px);
      assert forall i :: 0 < i < |s| ==> s[i] == s[1..][i - 1];
    }
  }

  /** The level sequence after one update, and the outcome reported for it. */
  function Applied(side: Side, s: seq<Level>, px: int, qty: int): (seq<Level>, ApplyResult) {
    var i := Rank(side, s, px);
    if i < |s| && s[i].px == px then
      if qty == 0 then (s[..i] + s[i + 1..], Ok) else (s[i := Level(px, qty)], Ok)
    else if qty == 0 then
      (s, Noop)
    else if |s| == MAX_LEVELS then
      if IsWorse(side, px, s[0].px) then (s, Dropped)
      else
        var j := if i > 0 then i - 1 else 0;
        (s[1..][..j] + [Level(px, qty)] + s[1..][j..], Ok)
    else
      (s[..i] + [Level(px, qty)] + s[i..], Ok)
  }

  /** The price of the level that the update makes the book forget, if any: the
      evicted worst level, or the new level itself when it is dropped. */
  ghost function Lost(side: Side, s: seq<Level>, px: int, qty: int): Option<int> {
    var i := Rank(side, s, px);
    if (i < |s| && s[i].px == px) || qty == 0 || |s| != MAX_LEVELS then None
    else if IsWorse(side, px, s[0].px) then Some(px)
    else Some(s[0].px)
  }

  // ---------------------------------------------------------------- one update

  lemma InsertedInOrder(side: Side, s: seq<Level>, l: Level, j: nat)
    requires Sorted(side, s) && j <= |s|
    requires forall i :: 0 <= i < j ==> IsWorse(side, s[i].px, l.px)
    requires forall i :: j <= i < |s| ==> IsWorse(side, l.px, s[i].px)
    ensures Sorted(side, s[..j] + [l] + s[j..])
    ensures forall k :: k in s[..j] + [l] + s[j..] <==> k in s || k == l
  {
    var t := s[..j] + [l] + s[j..];
    assert t[j] == l;
    assert forall i :: 0 <= i < j ==> t[i] == s[i];
    assert forall i :: j < i < |t| ==> t[i] == s[i - 1];
    assert forall i :: 0 <= i < |s| ==> s[i] == t[if i < j then i else i + 1];
  }

  lemma ErasedInOrder(side: Side, s: seq<Level>, i: nat)
    requires Sorted(side, s) && i < |s|
    ensures Sorted(side, s[..i] + s[i + 1..])
    ensures forall k :: k in s[..i] + s[i + 1..] <==> k in s && k.px != s[i].px
  {
    var t := s[..i] + s[i + 1..];
    assert forall j :: 0 <= j < i ==> t[j] == s[j];
    assert forall j :: i <= j < |t| ==> t[j] == s[j + 1];
    assert forall j :: 0 <= j < |s| && j != i ==> s[j] == t[if j < i then j else j - 1];
  }

  lemma ReplacedInOrder(side: Side, s: seq<Level>, i: nat, qty: int)
    requires Sorted(side, s) && i < |s|
    ensures Sorted(side, s[i := Level(s[i].px, qty)])
    ensures forall k :: k in s[i := Level(s[i].px, qty)] <==>
      if k.px == s[i].px then k.qty == qty else k in s
  {
    var t := s[i := Level(s[i].px, qty)];
    assert t[i] == Level(s[i].px, qty);
    assert forall j :: 0 <= j < |s| && j != i ==> t[j] == s[j] && s[j].px != s[i].px;
  }

  lemma EvictedInOrder(side: Side, s: seq<Level>, l: Level, i: nat)
    requires Sorted(side, s) && 0 < i <= |s|
    requires forall j :: 0 <= j < i ==> IsWorse(side, s[j].px, l.px)
    requires forall j :: i <= j < |s| ==> IsWorse(side, l.px, s[j].px)
    ensures Sorted(side, s[1..][..i - 1] + [l] + s[1..][i - 1..])
    ensures forall k :: k in s[1..][..i - 1] + [l] + s[1..][i - 1..] <==>
      (k in s && k.px != s[0].px) || k == l
  {
    assert s[..0] + s[1..] == s[1..];
    ErasedInOrder(side, s, 0);
    InsertedInOrder(side, s[1..], l, i - 1);
  }

  /** What one update does, as a statement about membership: the touched price
      carries exactly the new quantity (or is gone), every other level survives
      unless it is the one reported lost, and order and capacity are kept. */
  lemma AppliedMembers(side: Side, s: seq<Level>, px: int, qty: int)
    requires Wf(side, s)
    ensures Wf(side, Applied(side, s, px, qty).0)
    ensures forall l :: l in Applied(side, s, px, qty).0 <==>
      if l.px == px then l.qty == qty && qty != 0 && Lost(side, s, px, qty) != Some(px)
      else l in s && Lost(side, s, px, qty) != Some(l.px)
    ensures Lost(side, s, px, qty) == Some(px) <==> Applied(side, s, px, qty).1.Dropped?
    ensures Applied(side, s, px, qty).1.Noop? ==> qty == 0 && forall l :: l in s ==> l.px != px
  {
    var i := Rank(side, s, px);
    if i < |s| && s[i].px == px {
      PresentMembers(side, s, px, qty);
    } else if qty == 0 || (|s| == MAX_LEVELS && IsWorse(side, px, s[0].px)) {
      AbsentPrice(side, s, px);
    } else if |s| == MAX_LEVELS {
      EvictedMembers(side, s, px, qty);
    } else {
      InsertedMembers(side, s, px, qty);
    }
  }

  lemma PresentMembers(side: Side, s: seq<Level>, px: int, qty: int)
    requires Wf(side, s) && Rank(side, s, px) < |s| && s[Rank(side, s, px)].px == px
    ensures Wf(side, Applied(side, s, px, qty).0)
    ensures forall l :: l in Applied(side, s, px, qty).0 <==> if l.px == px then l.qty == qty && qty != 0 else l in s
  {
    var i := Rank(side, s, px);
    if qty == 0 { ErasedInOrder(side, s, i); } else { ReplacedInOrder(side, s, i, qty); }
  }

  /** Without a level at its rank, the price is absent and its place is the rank. */
  lemma AbsentPrice(side: Side, s: seq<Level>, px: int)
    requires Wf(side, s) && !(Rank(side, s, px) < |s| && s[Rank(side, s, px)].px == px)
    ensures Rank(side, s, px) <= |s|
    ensures forall j :: 0 <= j < Rank(side, s, px) ==> IsWorse(side, s[j].px, px)
    ensures forall j :: Rank(side, s, px) <= j < |s| ==> IsWorse(side, px, s[j].px)
    ensures forall l :: l in s ==> l.px != px
  {
    RankSplits(side, s, px);
  }

  lemma EvictedMembers(side: Side, s: seq<Level>, px: int, qty: int)
    requires Wf(side, s) && !(Rank(side, s, px) < |s| && s[Rank(side, s, px)].px == px)
    requires qty != 0 && |s| == MAX_LEVELS && !IsWorse(side, px, s[0].px)
    ensures Wf(side, Applied(side, s, px, qty).0)
    ensures forall l :: l in Applied(side, s, px, qty).0 <==> (l in s && l.px != s[0].px) || l == Level(px, qty)
    ensures s[0].px != px && forall l :: l in s ==> l.px != px
  {
    AbsentPrice(side, s, px);
    EvictedInOrder(side, s, Level(px, qty), Rank(side, s, px));
  }

  lemma InsertedMembers(side: Side, s: seq<Level>, px: int, qty: int)
    requires Wf(side, s) && !(Rank(side, s, px) < |s| && s[Rank(side, s, px)].px == px)
    requires qty != 0 && |s| != MAX_LEVELS
    ensures Wf(side, Applied(side, s, px, qty).0)
    ensures forall l :: l in Applied(side, s, px, qty).0 <==> l in s || l == Level(px, qty)
    ensures forall l :: l in s ==> l.px != px
  {
    AbsentPrice(side, s, px);
    InsertedInOrder(side, s, Level(px, qty), Rank(side, s, px));
  }

  // ------------------------------------------------- refinement of a plain map

  /** The unbounded reference: quantities are absolute, zero removes the price. */
  function Updated(m: map<int, int>, px: int, qty: int): map<int, int> {
    if qty == 0 then m - {px} else m[px := qty]
  }

  /** px is strictly better than everything the side has forgotten. */
  ghost predicate Inside(side: Side, px: int, h: Option<int>) {
    h.None? || IsWorse(side, h.value, px)
  }

  ghost function Widen(side: Side, h: Option<int>, lost: Option<int>): Option<int> {
    if lost.None? then h
    else if h.None? || IsWorse(side, h.value, lost.value) then lost
    else h
  }

  /** s is what a bounded side knows about m when h is the best price forgotten:
      everything kept is right, and everything inside the horizon is kept. */
  ghost predicate Tracks(side: Side, s: seq<Level>, m: map<int, int>, h: Option<int>) {
    && Wf(side, s)
    && (forall l :: l in s ==> l.px in m && m[l.px] == l.qty)
    && (forall px :: px in m && Inside(side, px, h) ==> Level(px, m[px]) in s)
  }

  lemma AppliedTracks(side: Side, s: seq<Level>, m: map<int, int>, h: Option<int>, px: int, qty: int)
    requires Tracks(side, s, m, h)
    ensures Tracks(side, Applied(side, s, px, qty).0, Updated(m, px, qty),
                   Widen(side, h, Lost(side, s, px, qty)))
  {
    AppliedMembers(side, s, px, qty);
  }

  /** Level updates in list order. */
  function AppliedAll(side: Side, s: seq<Level>, ls: seq<Level>): seq<Level>
    decreases |ls|
  {
    if ls == [] then s else AppliedAll(side, Applied(side, s, ls[0].px, ls[0].qty).0, ls[1..])
  }

  function UpdatedAll(m: map<int, int>, ls: seq<Level>): map<int, int>
    decreases |ls|
  {
    if ls == [] then m else UpdatedAll(Updated(m, ls[0].px, ls[0].qty), ls[1..])
  }

  /** The horizon after a list of updates, starting from horizon h. */
  ghost function Horizon(side: Side, s: seq<Level>, h: Option<int>, ls: seq<Level>): Option<int>
    decreases |ls|
  {
    if ls == [] then h
    else Horizon(side, Applied(side, s, ls[0].px, ls[0].qty).0,
                 Widen(side, h, Lost(side, s, ls[0].px, ls[0].qty)), ls[1..])
  }

  /** For any sequence of updates the bounded side refines the reference map. */
  lemma {:induction false} AppliedAllTracks(side: Side, s: seq<Level>, m: map<int, int>,
                                            h: Option<int>, ls: seq<Level>)
    requires Tracks(side, s, m, h)
    ensures Tracks(side, AppliedAll(side, s, ls), UpdatedAll(m, ls), Horizon(side, s, h, ls))
    decreases |ls|
  {
    if ls != [] {
      AppliedTracks(side, s, m, h, ls[0].px, ls[0].qty);
      AppliedAllTracks(side, Applied(side, s, ls[0].px, ls[0].qty).0, Updated(m, ls[0].px, ls[0].qty),
                       Widen(side, h, Lost(side, s, ls[0].px, ls[0].qty)), ls[1..]);
    }
  }

  lemma {:induction false} AppliedAllWf(side: Side, s: seq<Level>, ls: seq<Level>)
    requires Wf(side, s)
    ensures Wf(side, AppliedAll(side, s, ls))
    decreases |ls|
  {
    if ls != [] {
      AppliedMembers(side, s, ls[0].px, ls[0].qty);
      AppliedAllWf(side, Applied(side, s, ls[0].px, ls[0].qty).0, ls[1..]);
    }
  }

  /** Whatever is kept was there before or was listed. */
  lemma {:induction false} AppliedAllOrigin(side: Side, s: seq<Level>, ls: seq<Level>)
    requires Wf(side, s)
    ensures forall l :: l in AppliedAll(side, s, ls) ==> l in s || l in ls
    decreases |ls|
  {
    if ls != [] {
      AppliedMembers(side, s, ls[0].px, ls[0].qty);
      AppliedAllOrigin(side, Applied(side, s, ls[0].px, ls[0].qty).0, ls[1..]);
    }
  }

  lemma {:induction false} AppliedAllConcat(side: Side, s: seq<Level>, a: seq<Level>, b: seq<Level>)
    ensures AppliedAll(side, s, a + b) == AppliedAll(side, AppliedAll(side, s, a), b)
    decreases |a|
  {
    if a == [] {
      assert a + b == b;
    } else {
      assert (a + b)[1..] == a[1..] + b;
      AppliedAllConcat(side, Applied(side, s, a[0].px, a[0].qty).0, a[1..], b);
    }
  }

  lemma {:induction false} UpdatedAllConcat(m: map<int, int>, a: seq<Level>, b: seq<Level>)
    ensures UpdatedAll(m, a + b) == UpdatedAll(UpdatedAll(m, a), b)
    decreases |a|
  {
    if a == [] {
      assert a + b == b;
    } else {
      assert (a + b)[1..] == a[1..] + b;
      UpdatedAllConcat(Updated(m, a[0].px, a[0].qty), a[1..], b);
    }
  }

  lemma {:induction false} HorizonConcat(side: Side, s: seq<Level>, h: Option<int>, a: seq<Level>, b: seq<Level>)
    ensures Horizon(side, s, h, a + b) == Horizon(side, AppliedAll(side, s, a), Horizon(side, s, h, a), b)
    decreases |a|
  {
    if a == [] {
      assert a + b == b;
    } else {
      assert (a + b)[1..] == a[1..] + b;
      HorizonConcat(side, Applied(side, s, a[0].px, a[0].qty).0,
                    Widen(side, h, Lost(side, s, a[0].px, a[0].qty)), a[1..], b);
    }
  }

  /** With nothing forgotten the side is the map, level for level. */
  lemma ExactWhenNothingLost(side: Side, s: seq<Level>, m: map<int, int>)
    requires Tracks(side, s, m, None)
    ensures forall l :: l in s <==> l.px in m && m[l.px] == l.qty
    ensures |s| == |m|
  {
    PricesCount(side, s);
    assert Prices(s) == m.Keys by {
      forall px | px in m ensures px in Prices(s) { assert Level(px, m[px]) in s; }
    }
  }

  // ------------------------------------------------------------ n-th best level

  function Prices(s: seq<Level>): set<int> {
    set l | l in s :: l.px
  }

  lemma {:induction false} PricesCount(side: Side, s: seq<Level>)
    requires Sorted(side, s)
    ensures |Prices(s)| == |s|
    decreases |s|
  {
    if s != [] {
      PricesCount(side, s[1..]);
      assert s == [s[0]] + s[1..];
      assert Prices(s) == {s[0].px} + Prices(s[1..]);
      assert s[0].px !in Prices(s[1..]);
    }
  }

  /** Number of prices of m that are strictly better than px. */
  ghost function BetterCount(side: Side, m: map<int, int>, px: int): nat {
    |set p | p in m && IsWorse(side, px, p)|
  }

  ghost predicate IsNthBest(side: Side, m: map<int, int>, n: nat, l: Level) {
    l.px in m && m[l.px] == l.qty && BetterCount(side, m, l.px) == n
  }

  /** The n-th level from the top, n == 0 being the best. */
  function NthFromTop(s: seq<Level>, n: nat): Option<Level> {
    if n >= |s| then None else Some(s[|s| - 1 - n])
  }

  lemma KeptLevelRank(side: Side, s: seq<Level>, m: map<int, int>, h: Option<int>, i: nat)
    requires Tracks(side, s, m, h) && i < |s| && Inside(side, s[i].px, h)
    ensures IsNthBest(side, m, |s| - 1 - i, s[i])
  {
    var better := set p | p in m && IsWorse(side, s[i].px, p);
    var above := s[i + 1..];
    forall p | p in better ensures p in Prices(above) {
      assert Level(p, m[p]) in s;
      var k :| 0 <= k < |s| && s[k] == Level(p, m[p]);
      assert above[k - i - 1] == s[k];
    }
    forall p | p in Prices(above) ensures p in better {
      var l :| l in above && l.px == p;
      assert l in s;
    }
    assert better == Prices(above);
    PricesCount(side, above);
  }

  lemma NthBestUnique(side: Side, m: map<int, int>, n: nat, a: Level, b: Level)
    requires IsNthBest(side, m, n, a) && IsNthBest(side, m, n, b)
    ensures a == b
  {
    if a.px != b.px {
      var lo, hi := if IsWorse(side, a.px, b.px) then a.px else b.px,
                    if IsWorse(side, a.px, b.px) then b.px else a.px;
      var overLo := set p | p in m && IsWorse(side, lo, p);
      var overHi := set p | p in m && IsWorse(side, hi, p);
      assert overHi + {hi} <= overLo;
      CardinalityMonotone(overHi + {hi}, overLo);
      assert false;
    }
  }

  lemma {:induction false} CardinalityMonotone<T>(a: set<T>, b: set<T>)
    requires a <= b
    ensures |a| <= |b|
    decreases |a|
  {
    if a != {} {
      var x :| x in a;
      CardinalityMonotone(a - {x}, b - {x});
    }
  }

  /** The levels at px or better have their prices in `prices`. */
  ghost predicate FewFrom(side: Side, s: seq<Level>, px: int, prices: set<int>) {
    forall l :: l in s && l.qty != 0 && !IsWorse(side, l.px, px) ==> l.px in prices
  }

  lemma LossIsWorse(side: Side, s: seq<Level>, l: Level, px: int, prices: set<int>)
    requires Wf(side, s) && FewFrom(side, s, px, prices) && |prices| < MAX_LEVELS
    requires l.qty != 0 && !IsWorse(side, l.px, px) ==> l.px in prices
    ensures var lost := Lost(side, s, l.px, l.qty); lost.Some? ==> IsWorse(side, lost.value, px)
  {
    var lost := Lost(side, s, l.px, l.qty);
    if lost.Some? && !IsWorse(side, lost.value, px) {
      assert forall k :: k in s ==> k.px in prices;
      PricesCount(side, s);
      CardinalityMonotone(Prices(s), prices);
      assert false;
    }
  }

  /** A side that sees few prices from px up never forgets one of them. */
  lemma {:induction false} HorizonStaysOut(side: Side, s: seq<Level>, h: Option<int>, ls: seq<Level>, px: int,
                                           prices: set<int>)
    requires Wf(side, s) && Inside(side, px, h) && |prices| < MAX_LEVELS
    requires FewFrom(side, s, px, prices) && FewFrom(side, ls, px, prices)
    ensures Inside(side, px, Horizon(side, s, h, ls))
    decreases |ls|
  {
    if ls != [] {
      assert ls[0] in ls && forall l :: l in ls[1..] ==> l in ls;
      LossIsWorse(side, s, ls[0], px, prices);
      AppliedMembers(side, s, ls[0].px, ls[0].qty);
      HorizonStaysOut(side, Applied(side, s, ls[0].px, ls[0].qty).0,
                      Widen(side, h, Lost(side, s, ls[0].px, ls[0].qty)), ls[1..], px, prices);
    }
  }

  /** The best level of the map, if inside the horizon, is the top of the side. */
  lemma TopIsBest(side: Side, s: seq<Level>, m: map<int, int>, h: Option<int>, l: Level)
    requires Tracks(side, s, m, h) && l.px in m && m[l.px] == l.qty && Inside(side, l.px, h)
    requires forall p :: p in m ==> !IsWorse(side, l.px, p)
    ensures NthFromTop(s, 0) == Some(l)
  {
    assert (set p | p in m && IsWorse(side, l.px, p)) == {};
    DepthExactInsideHorizon(side, s, m, h, 0, l);
  }

  /** A depth query is exact for every level inside the horizon, in both
      directions: what it returns there is the reference map's n-th best level,
      and the map's n-th best level, if inside the horizon, is what it returns. */
  lemma DepthExactInsideHorizon(side: Side, s: seq<Level>, m: map<int, int>, h: Option<int>, n: nat, l: Level)
    requires Tracks(side, s, m, h)
    requires Inside(side, l.px, h)
    ensures NthFromTop(s, n) == Some(l) <==> IsNthBest(side, m, n, l)
  {
    if NthFromTop(s, n) == Some(l) {
      KeptLevelRank(side, s, m, h, |s| - 1 - n);
    }
    if IsNthBest(side, m, n, l) {
      assert l in s;
      var i :| 0 <= i < |s| && s[i] == l;
      KeptLevelRank(side, s, m, h, i);
    }
  }

  // -------------------------------------------------------- snapshot seeding

  /** s holds exactly the best MAX_LEVELS prices of m, with m's quantities. */
  ghost predicate IsTop(side: Side, s: seq<Level>, m: map<int, int>) {
    && Wf(side, s)
    && (forall l :: l in s ==> l.px in m && m[l.px] == l.qty)
    && (forall px :: px in m && Level(px, m[px]) !in s ==>
          |s| == MAX_LEVELS && IsWorse(side, px, s[0].px))
  }

  lemma InsertKeepsTop(side: Side, s: seq<Level>, m: map<int, int>, px: int, qty: int)
    requires IsTop(side, s, m) && qty != 0
    ensures IsTop(side, Applied(side, s, px, qty).0, Updated(m, px, qty))
  {
    var t, m' := Applied(side, s, px, qty).0, Updated(m, px, qty);
    AppliedMembers(side, s, px, qty);
    RankSplits(side, s, px);
    var lost := Lost(side, s, px, qty);
    if lost.None? {
      if px in m && Level(px, m[px]) !in s {
        // a price already forgotten is worse than every kept level, so re-adding it is dropped
        assert false;
      }
      assert px in m ==> Level(px, m[px]) in s;
      if |s| == MAX_LEVELS {
        var i := Rank(side, s, px);
        assert s[i].px == px;
        assert t[0].px == s[0].px;
      }
    } else if lost == Some(px) {
      assert t == s;
    } else {
      assert |t| == MAX_LEVELS;
      assert forall l :: l in t ==> IsWorse(side, s[0].px, l.px);
      assert t[0] in t;
    }
  }

  lemma {:induction false} SeedKeepsTop(side: Side, s: seq<Level>, m: map<int, int>, ls: seq<Level>)
    requires IsTop(side, s, m)
    requires forall l :: l in ls ==> l.qty != 0
    ensures IsTop(side, AppliedAll(side, s, ls), UpdatedAll(m, ls))
    decreases |ls|
  {
    if ls != [] {
      InsertKeepsTop(side, s, m, ls[0].px, ls[0].qty);
      SeedKeepsTop(side, Applied(side, s, ls[0].px, ls[0].qty).0, Updated(m, ls[0].px, ls[0].qty), ls[1..]);
    }
  }

  /** i is the last position at which px is listed. */
  ghost predicate LastListed(ls: seq<Level>, px: int, i: int) {
    0 <= i < |ls| && ls[i].px == px && forall j :: i < j < |ls| ==> ls[j].px != px
  }

  /** Folding a list of updates leaves each price with its last listed quantity. */
  lemma {:induction false} LastQuantityWins(m: map<int, int>, ls: seq<Level>, px: int)
    ensures (forall j :: 0 <= j < |ls| ==> ls[j].px != px) ==>
      (px in UpdatedAll(m, ls) <==> px in m) && (px in m ==> UpdatedAll(m, ls)[px] == m[px])
    ensures forall i :: LastListed(ls, px, i) ==>
      (px in UpdatedAll(m, ls) <==> ls[i].qty != 0) &&
      (ls[i].qty != 0 ==> UpdatedAll(m, ls)[px] == ls[i].qty)
    decreases |ls|
  {
    if ls != [] {
      var m1 := Updated(m, ls[0].px, ls[0].qty);
      LastQuantityWins(m1, ls[1..], px);
      assert forall j :: 0 < j < |ls| ==> ls[j] == ls[1..][j - 1];
      forall i | LastListed(ls, px, i)
        ensures (px in UpdatedAll(m, ls) <==> ls[i].qty != 0) &&
                (ls[i].qty != 0 ==> UpdatedAll(m, ls)[px] == ls[i].qty)
      {
        if i > 0 {
          assert LastListed(ls[1..], px, i - 1);
        } else {
          assert forall j :: 0 <= j < |ls[1..]| ==> ls[1..][j].px != px;
        }
      }
    }
  }

  /** Seeding an empty side from any list of non-zero levels, in any order and
      with repeats, keeps exactly the best MAX_LEVELS distinct listed prices,
      each with its last listed quantity. */
  lemma SeedIsTopK(side: Side, ls: seq<Level>)
    requires forall l :: l in ls ==> l.qty != 0
    ensures var s := AppliedAll(side, [], ls);
      && Wf(side, s)
      && |s| == (if |Prices(ls)| <= MAX_LEVELS then |Prices(ls)| else MAX_LEVELS)
      && (forall l :: l in s ==> exists i :: LastListed(ls, l.px, i) && ls[i] == l)
      && (forall px :: px in Prices(ls) && px !in Prices(s) ==> forall l :: l in s ==> IsWorse(side, px, l.px))
  {
    var s, m := AppliedAll(side, [], ls), UpdatedAll(map[], ls);
    SeedKeepsTop(side, [], map[], ls);
    forall px ensures px in m <==> px in Prices(ls) { ListedAreKept(ls, px); }
    assert m.Keys == Prices(ls);
    forall l | l in s ensures exists i :: LastListed(ls, l.px, i) && ls[i] == l {
      assert l.px in Prices(ls);
      var i := FindLastListed(ls, l.px);
      LastQuantityWins(map[], ls, l.px);
      assert LastListed(ls, l.px, i) && ls[i] == l;
    }
    forall px | px in Prices(ls) && px !in Prices(s)
      ensures forall l :: l in s ==> IsWorse(side, px, l.px)
    {
      assert Level(px, m[px]) !in s;
    }
    PricesCount(side, s);
    CardinalityMonotone(Prices(s), Prices(ls));
    if |s| < MAX_LEVELS {
      forall px | px in Prices(ls) ensures px in Prices(s) { assert Level(px, m[px]) in s; }
      assert Prices(s) == Prices(ls);
    }
  }

  lemma {:induction false} FindLastListed(ls: seq<Level>, px: int) returns (i: nat)
    requires px in Prices(ls)
    ensures LastListed(ls, px, i)
    decreases |ls|
  {
    var n := |ls| - 1;
    if ls[n].px == px {
      i := n;
    } else {
      assert ls == ls[..n] + [ls[n]];
      var l :| l in ls && l.px == px;
      assert l in ls[..n];
      i := FindLastListed(ls[..n], px);
    }
  }

  lemma ListedAreKept(ls: seq<Level>, px: int)
    requires forall l :: l in ls ==> l.qty != 0
    ensures px in UpdatedAll(map[], ls) <==> px in Prices(ls)
  {
    LastQuantityWins(map[], ls, px);
    if px in Prices(ls) {
      var i := FindLastListed(ls, px);
    } else {
      assert forall j :: 0 <= j < |ls| ==> ls[j] in ls;
    }
  }
}
