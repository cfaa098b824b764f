/** The exchange as a first book and a history of absolute-quantity changes numbered by
    update id, and what it means for a snapshot or a depth update to be truthful. */
module Exchange {
  import opened Events
  import opened BookSide

  /** All price levels touched under one update id. */
  datatype Change = Change(bids: seq<Level>, asks: seq<Level>)

  function ChangesOn(c: Change, side: Side): seq<Level> {
    if side.Bid? then c.bids else c.asks
  }

  /** The exchange's side after update id k. The first entry of h is the book before
      update 1, and entry k is update k. */
  function Truth(h: seq<Change>, side: Side, k: nat): map<int, int>
    requires k < |h|
  {
    UpdatedAll(if k == 0 then map[] else Truth(h, side, k - 1), ChangesOn(h[k], side))
  }

  function QtyAt(m: map<int, int>, px: int): int {
    if px in m then m[px] else 0
  }

  /** Some update with id in first..final touches px. */
  ghost predicate Touched(h: seq<Change>, side: Side, px: int, first: int, final: int) {
    exists i :: 1 <= first <= i <= final < |h| && px in Prices(ChangesOn(h[i], side))
  }

  /** The depth update lists the quantity at `final` of every price touched under
      ids first..final (and may list untouched prices as well). */
  ghost predicate TruthfulDiffSide(h: seq<Change>, side: Side, first: nat, final: nat, ls: seq<Level>)
    requires final < |h|
  {
    && (forall l :: l in ls ==> QtyAt(Truth(h, side, final), l.px) == l.qty)
    && (forall px :: Touched(h, side, px, first, final) ==> px in Prices(ls))
  }

  ghost predicate TruthfulUpdate(h: seq<Change>, upd: DepthUpdate) {
    && 1 <= upd.firstId <= upd.finalId < |h|
    && TruthfulDiffSide(h, Bid, upd.firstId, upd.finalId, upd.bids)
    && TruthfulDiffSide(h, Ask, upd.firstId, upd.finalId, upd.asks)
  }

  /** The worst listed price. */
  ghost function Worst(side: Side, ls: seq<Level>): int
    requires ls != []
  {
    if |ls| == 1 then ls[0].px
    else if IsWorse(side, ls[0].px, Worst(side, ls[1..])) then ls[0].px
    else Worst(side, ls[1..])
  }

  /** What a listing of at most `limit` levels may have left out: nothing if it is
      short of the limit, else only prices no better than its worst one. */
  ghost function Cut(side: Side, ls: seq<Level>, limit: nat): Option<int> {
    if |ls| < limit || ls == [] then None else Some(Worst(side, ls))
  }

  ghost predicate TruthfulListing(h: seq<Change>, side: Side, k: nat, ls: seq<Level>, limit: nat)
    requires k < |h|
  {
    var m := Truth(h, side, k);
    && (forall l :: l in ls ==> l.px in m && m[l.px] == l.qty)
    && (forall px :: px in m && Inside(side, px, Cut(side, ls, limit)) ==> px in Prices(ls))
  }

  ghost predicate TruthfulSnapshot(h: seq<Change>, snap: DepthSnapshot, limit: nat) {
    && snap.lastId < |h|
    && TruthfulListing(h, Bid, snap.lastId, snap.bids, limit)
    && TruthfulListing(h, Ask, snap.lastId, snap.asks, limit)
  }

  // ------------------------------------------------------------------- truth

  lemma {:induction false} TruthNonZero(h: seq<Change>, side: Side, k: nat)
    requires k < |h|
    ensures forall px :: px in Truth(h, side, k) ==> Truth(h, side, k)[px] != 0
    decreases k
  {
    if k > 0 { TruthNonZero(h, side, k - 1); }
    UpdatedAllNonZero(if k == 0 then map[] else Truth(h, side, k - 1), ChangesOn(h[k], side));
  }

  lemma {:induction false} UpdatedAllNonZero(m: map<int, int>, ls: seq<Level>)
    requires forall px :: px in m ==> m[px] != 0
    ensures forall px :: px in UpdatedAll(m, ls) ==> UpdatedAll(m, ls)[px] != 0
    decreases |ls|
  {
    if ls != [] { UpdatedAllNonZero(Updated(m, ls[0].px, ls[0].qty), ls[1..]); }
  }

  lemma {:induction false} UntouchedStays(h: seq<Change>, side: Side, px: int, k: nat, final: nat)
    requires k <= final < |h|
    requires !Touched(h, side, px, k + 1, final)
    ensures QtyAt(Truth(h, side, k), px) == QtyAt(Truth(h, side, final), px)
    decreases final
  {
    if k < final {
      assert !Touched(h, side, px, k + 1, final - 1);
      UntouchedStays(h, side, px, k, final - 1);
      var ls := ChangesOn(h[final], side);
      assert px !in Prices(ls);
      assert forall j :: 0 <= j < |ls| ==> ls[j] in ls;
      LastQuantityWins(Truth(h, side, final - 1), ls, px);
    }
  }

  /** Why the overlapping bracket message is harmless: quantities are absolute, so
      a truthful update that starts at or before k + 1 takes the state at any
      k <= final to exactly the state at final. */
  lemma DiffAdvances(h: seq<Change>, side: Side, k: nat, first: nat, final: nat, ls: seq<Level>)
    requires 1 <= first <= k + 1 && k <= final < |h|
    requires TruthfulDiffSide(h, side, first, final, ls)
    ensures UpdatedAll(Truth(h, side, k), ls) == Truth(h, side, final)
  {
    var m, t := UpdatedAll(Truth(h, side, k), ls), Truth(h, side, final);
    TruthNonZero(h, side, k);
    TruthNonZero(h, side, final);
    forall px ensures (px in m <==> px in t) && (px in m ==> m[px] == t[px]) {
      LastQuantityWins(Truth(h, side, k), ls, px);
      if px in Prices(ls) {
        var i := FindLastListed(ls, px);
        assert ls[i] in ls;
      } else {
        assert forall j :: 0 <= j < |ls| ==> ls[j] in ls;
        assert !Touched(h, side, px, k + 1, final);
        UntouchedStays(h, side, px, k, final);
      }
    }
  }

  /** A horizon splits into where it started and what was lost since. */
  lemma {:induction false} HorizonSplits(side: Side, s: seq<Level>, h: Option<int>, ls: seq<Level>, px: int)
    ensures Inside(side, px, Horizon(side, s, h, ls)) <==>
      Inside(side, px, h) && Inside(side, px, Horizon(side, s, None, ls))
    decreases |ls|
  {
    if ls != [] {
      var s1, lost := Applied(side, s, ls[0].px, ls[0].qty).0, Lost(side, s, ls[0].px, ls[0].qty);
      HorizonSplits(side, s1, Widen(side, h, lost), ls[1..], px);
      HorizonSplits(side, s1, Widen(side, None, lost), ls[1..], px);
    }
  }

  /** Seeding an empty side from a truthful listing tracks the exchange. */
  lemma ListingSeeds(h: seq<Change>, side: Side, k: nat, ls: seq<Level>, limit: nat)
    requires k < |h| && TruthfulListing(h, side, k, ls, limit)
    ensures Tracks(side, AppliedAll(side, [], ls), Truth(h, side, k),
                   Horizon(side, [], Cut(side, ls, limit), ls))
  {
    var m, t, s := UpdatedAll(map[], ls), Truth(h, side, k), AppliedAll(side, [], ls);
    TruthNonZero(h, side, k);
    AppliedAllTracks(side, [], map[], None, ls);
    forall px ensures (px in m <==> px in Prices(ls)) && (px in m ==> px in t && m[px] == t[px]) {
      ListedAreKept(ls, px);
      if px in Prices(ls) {
        LastQuantityWins(map[], ls, px);
        var i := FindLastListed(ls, px);
        assert ls[i] in ls;
      }
    }
    forall px | px in t && Inside(side, px, Horizon(side, [], Cut(side, ls, limit), ls))
      ensures Level(px, t[px]) in s
    {
      HorizonSplits(side, [], Cut(side, ls, limit), ls, px);
    }
  }

  /** Applying a truthful update keeps the bounded side on the exchange's track. */
  lemma DiffTracks(h: seq<Change>, side: Side, s: seq<Level>, hz: Option<int>, k: nat, first: nat, final: nat,
                   ls: seq<Level>)
    requires 1 <= first <= k + 1 && k <= final < |h|
    requires TruthfulDiffSide(h, side, first, final, ls)
    requires Tracks(side, s, Truth(h, side, k), hz)
    ensures Tracks(side, AppliedAll(side, s, ls), Truth(h, side, final), Horizon(side, s, hz, ls))
  {
    DiffAdvances(h, side, k, first, final, ls);
    AppliedAllTracks(side, s, Truth(h, side, k), hz, ls);
  }
}
