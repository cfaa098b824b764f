/** Small exchange histories. One bid never moves. The asks near the top change once, with
    update x, and behind them lie `deep` asks that never move. */
module Tales {
  import opened Events
  import opened BookSide
  import opened Protocol
  import opened Exchange
  import opened Feed
  import opened Reconstruction

  /** A better ask appears, or the best ask goes away and one appears behind the next. */
  datatype Tale = Appear(x: nat, last: nat, deep: nat) | Leave(x: nat, last: nat, deep: nat)

  const BID: Level := Level(9, 1)

  /** Where the asks that never move begin. */
  const FLOOR: int := 100

  predicate WfTale(t: Tale) {
    1 <= t.x <= t.last
  }

  /** The asks near the top at id k. */
  function Tops(t: Tale, k: nat): seq<Level> {
    if t.Appear? then if k < t.x then [Level(20, 1)] else [Level(19, 1), Level(20, 1)]
    else if k < t.x then [Level(20, 1), Level(21, 1)] else [Level(21, 1), Level(22, 1)]
  }

  /** What update x says. */
  function News(t: Tale): seq<Level> {
    if t.Appear? then [Level(19, 1)] else [Level(20, 0), Level(22, 1)]
  }

  function Deep(t: Tale): seq<Level> {
    seq(t.deep, (i: nat) => Level(FLOOR + i, 1))
  }

  /** Levels that come and go between two updates: n prices with nothing left at them. */
  function Pads(t: Tale, from: nat, n: nat): seq<Level> {
    seq(n, (i: nat) => Level(FLOOR + t.deep + from + i, 0))
  }

  function HistoryOf(t: Tale): seq<Change> {
    seq(t.last + 1, (k: nat) =>
      if k == 0 then Change([BID], Tops(t, 0) + Deep(t)) else Change([], if k == t.x then News(t) else []))
  }

  // --------------------------------------------------------------- the tale's truth

  /** The exchange's quantity at an ask price. */
  function Offered(t: Tale, k: nat, px: int): int {
    if FLOOR <= px < FLOOR + t.deep || Level(px, 1) in Tops(t, k) then 1 else 0
  }

  /** A price that is only ever listed with quantity q. */
  lemma QtyAfter(m: map<int, int>, ls: seq<Level>, px: int, q: int)
    requires forall l :: l in ls && l.px == px ==> l.qty == q
    ensures QtyAt(UpdatedAll(m, ls), px) == if px in Prices(ls) && q != 0 then q
                                            else if px in Prices(ls) then 0 else QtyAt(m, px)
  {
    LastQuantityWins(m, ls, px);
    if px in Prices(ls) {
      var i := FindLastListed(ls, px);
      assert ls[i] in ls;
    } else {
      assert forall j :: 0 <= j < |ls| ==> ls[j] in ls;
    }
  }

  lemma DeepPrices(t: Tale, k: nat, px: int)
    ensures px in Prices(Tops(t, k) + Deep(t)) <==> Offered(t, k, px) == 1
    ensures forall l :: l in Tops(t, k) + Deep(t) ==> l.qty == 1 && l.px >= 19
  {
    if FLOOR <= px < FLOOR + t.deep { assert Deep(t)[px - FLOOR] == Level(px, 1); }
    assert forall l :: l in Tops(t, k) + Deep(t) ==> l in Tops(t, k) || l in Deep(t);
    if Offered(t, k, px) == 1 { assert Level(px, 1) in Tops(t, k) + Deep(t); }
  }

  lemma NewsChange(t: Tale, px: int)
    requires WfTale(t)
    ensures forall l :: l in News(t) && l.px == px ==> l.qty == Offered(t, t.x, px)
    ensures px !in Prices(News(t)) ==> Offered(t, t.x, px) == Offered(t, t.x - 1, px)
  {
    if px !in Prices(News(t)) {
      assert forall l :: l in News(t) ==> l.px != px;
      assert News(t)[0] in News(t) && News(t)[|News(t)| - 1] in News(t);
    }
  }

  lemma ChangesAre(t: Tale, k: nat)
    requires 1 <= k <= t.last
    ensures ChangesOn(HistoryOf(t)[k], Ask) == if k == t.x then News(t) else []
  {
  }

  lemma {:induction false} TruthIs(t: Tale, k: nat, px: int)
    requires WfTale(t) && k <= t.last
    ensures QtyAt(Truth(HistoryOf(t), Ask, k), px) == Offered(t, k, px)
    decreases k
  {
    if k == 0 {
      DeepPrices(t, 0, px);
      QtyAfter(map[], Tops(t, 0) + Deep(t), px, 1);
    } else {
      TruthIs(t, k - 1, px);
      ChangesAre(t, k);
      if k == t.x {
        NewsChange(t, px);
        QtyAfter(Truth(HistoryOf(t), Ask, k - 1), News(t), px, Offered(t, k, px));
      }
    }
  }

  lemma OneLevel(l: Level)
    requires l.qty != 0
    ensures UpdatedAll(map[], [l]) == map[l.px := l.qty]
  {
    var none: map<int, int> := map[];
    assert [l][1..] == [] && Updated(none, l.px, l.qty) == map[l.px := l.qty];
    assert UpdatedAll(none, [l]) == UpdatedAll(Updated(none, l.px, l.qty), []);
  }

  lemma {:induction false} BidTruthIs(t: Tale, k: nat)
    requires k <= t.last
    ensures Truth(HistoryOf(t), Bid, k) == map[BID.px := BID.qty]
    decreases k
  {
    if k == 0 {
      OneLevel(BID);
    } else {
      BidTruthIs(t, k - 1);
    }
  }

  // ------------------------------------------------------------------- messages

  function ToldSnapshot(t: Tale, k: nat): DepthSnapshot {
    DepthSnapshot(k, [BID], Tops(t, k) + Deep(t))
  }

  predicate Covers(t: Tale, upd: DepthUpdate) {
    upd.firstId <= t.x <= upd.finalId
  }

  /** The news, if any, between `pre` and `post` pads. */
  function ToldAsks(t: Tale, news: bool, pre: nat, post: nat): seq<Level> {
    Pads(t, 0, pre) + (if news then News(t) else []) + Pads(t, pre, post)
  }

  function ToldUpdate(t: Tale, upd: DepthUpdate, pre: nat, post: nat): DepthUpdate {
    upd.(bids := [], asks := ToldAsks(t, Covers(t, upd), pre, post))
  }

  /** The message with the ids of g that the tale calls for. */
  function Told(t: Tale, g: Group, pre: nat, post: nat): Group {
    match g
    case SnapGroup(snap, ts) => SnapGroup(ToldSnapshot(t, snap.lastId), ts)
    case DiffGroup(upd, ts) => DiffGroup(ToldUpdate(t, upd, pre, post), ts)
  }

  /** The ids of a message are possible for an exchange that reached id `last`. */
  predicate Possible(g: Group, last: nat) {
    match g
    case SnapGroup(snap, _) => snap.lastId <= last
    case DiffGroup(upd, _) => 1 <= upd.firstId <= upd.finalId <= last
  }

  lemma ToldAsksAre(t: Tale, news: bool, pre: nat, post: nat, l: Level)
    requires l in ToldAsks(t, news, pre, post)
    ensures (news && l in News(t)) || (l.qty == 0 && l.px >= FLOOR + t.deep)
  {
    var p, n, q := Pads(t, 0, pre), if news then News(t) else [], Pads(t, pre, post);
    assert l in p || l in n || l in q;
  }

  lemma TouchedIsNews(t: Tale, side: Side, px: int, first: nat, final: nat)
    requires WfTale(t) && 1 <= first <= final <= t.last && Touched(HistoryOf(t), side, px, first, final)
    ensures side.Ask? && first <= t.x <= final && px in Prices(News(t))
  {
    var i :| 1 <= first <= i <= final < |HistoryOf(t)| && px in Prices(ChangesOn(HistoryOf(t)[i], side));
  }

  lemma NoBidTouched(t: Tale, first: nat, final: nat)
    requires WfTale(t) && 1 <= first <= final <= t.last
    ensures forall px :: !Touched(HistoryOf(t), Bid, px, first, final)
  {
    forall px ensures !Touched(HistoryOf(t), Bid, px, first, final) {
      if Touched(HistoryOf(t), Bid, px, first, final) { TouchedIsNews(t, Bid, px, first, final); }
    }
  }

  lemma NewsTold(t: Tale, pre: nat, post: nat, px: int)
    requires px in Prices(News(t))
    ensures px in Prices(ToldAsks(t, true, pre, post))
  {
    var l :| l in News(t) && l.px == px;
    assert l in ToldAsks(t, true, pre, post);
  }

  lemma UpdateIsTruthful(t: Tale, upd: DepthUpdate, pre: nat, post: nat)
    requires WfTale(t) && 1 <= upd.firstId <= upd.finalId <= t.last
    ensures TruthfulUpdate(HistoryOf(t), ToldUpdate(t, upd, pre, post))
  {
    var asks := ToldAsks(t, Covers(t, upd), pre, post);
    forall l | l in asks ensures QtyAt(Truth(HistoryOf(t), Ask, upd.finalId), l.px) == l.qty {
      TruthIs(t, upd.finalId, l.px);
      ToldAsksAre(t, Covers(t, upd), pre, post, l);
    }
    forall px | Touched(HistoryOf(t), Ask, px, upd.firstId, upd.finalId) ensures px in Prices(asks) {
      TouchedIsNews(t, Ask, px, upd.firstId, upd.finalId);
      NewsTold(t, pre, post, px);
    }
    NoBidTouched(t, upd.firstId, upd.finalId);
  }

  lemma OfferedIsTruth(t: Tale, k: nat, px: int)
    requires WfTale(t) && k <= t.last
    ensures var m := Truth(HistoryOf(t), Ask, k);
      (px in m <==> Offered(t, k, px) == 1) && (px in m ==> m[px] == 1)
  {
    TruthIs(t, k, px);
    TruthNonZero(HistoryOf(t), Ask, k);
  }

  lemma SnapshotIsTruthful(t: Tale, k: nat, limit: nat)
    requires WfTale(t) && k <= t.last
    ensures TruthfulSnapshot(HistoryOf(t), ToldSnapshot(t, k), limit)
  {
    BidTruthIs(t, k);
    var m, ls := Truth(HistoryOf(t), Ask, k), Tops(t, k) + Deep(t);
    forall l | l in ls ensures l.px in m && m[l.px] == l.qty {
      DeepPrices(t, k, l.px);
      assert l.px in Prices(ls);
      OfferedIsTruth(t, k, l.px);
    }
    forall px | px in m ensures px in Prices(ls) {
      DeepPrices(t, k, px);
      OfferedIsTruth(t, k, px);
    }
  }

  /** A REST snapshot cut after its best levels. */
  const CUT_LIMIT: nat := 1

  function CutSnapshot(l: nat): DepthSnapshot {
    DepthSnapshot(l, [BID], [Level(20, 1)])
  }

  lemma CutIsTruthful(t: Tale, l: nat)
    requires WfTale(t) && t.Leave? && l < t.x
    ensures TruthfulSnapshot(HistoryOf(t), CutSnapshot(l), CUT_LIMIT)
  {
    BidTruthIs(t, l);
    var m := Truth(HistoryOf(t), Ask, l);
    OfferedIsTruth(t, l, 20);
    forall px | px in m && Inside(Ask, px, Cut(Ask, [Level(20, 1)], CUT_LIMIT)) ensures px in Prices([Level(20, 1)]) {
      OfferedIsTruth(t, l, px);
    }
  }

  lemma ToldIsTruthful(t: Tale, g: Group, pre: nat, post: nat, limit: nat)
    requires WfTale(t) && Possible(g, t.last)
    ensures TruthfulGroup(HistoryOf(t), Told(t, g, pre, post), limit)
  {
    match g {
      case SnapGroup(snap, ts) => SnapshotIsTruthful(t, snap.lastId, limit);
      case DiffGroup(upd, ts) => UpdateIsTruthful(t, upd, pre, post);
    }
  }

  // ------------------------------------------------------------ each price once

  ghost predicate OncePerPrice(ls: seq<Level>) {
    forall i, j :: 0 <= i < j < |ls| ==> ls[i].px != ls[j].px
  }

  /** No listing of the message names a price twice. */
  ghost predicate Proper(g: Group) {
    forall side :: OncePerPrice(LevelsOf(g, side))
  }

  lemma OnceConcat(a: seq<Level>, b: seq<Level>)
    requires OncePerPrice(a) && OncePerPrice(b) && Prices(a) !! Prices(b)
    ensures OncePerPrice(a + b)
  {
    var c := a + b;
    forall i, j | 0 <= i < j < |c| ensures c[i].px != c[j].px {
      if i < |a| <= j { assert a[i].px in Prices(a) && b[j - |a|].px in Prices(b); }
    }
  }

  lemma SnapshotOnce(t: Tale, k: nat)
    ensures OncePerPrice(Tops(t, k) + Deep(t))
  {
    OnceConcat(Tops(t, k), Deep(t));
  }

  lemma AsksOnce(t: Tale, news: bool, pre: nat, post: nat)
    ensures OncePerPrice(ToldAsks(t, news, pre, post))
  {
    var p, n, q := Pads(t, 0, pre), if news then News(t) else [], Pads(t, pre, post);
    OnceConcat(p, n);
    assert Prices(p + n) !! Prices(q);
    OnceConcat(p + n, q);
  }

  lemma ToldIsProper(t: Tale, g: Group, pre: nat, post: nat)
    ensures Proper(Told(t, g, pre, post))
  {
    match g {
      case SnapGroup(snap, ts) => SnapshotOnce(t, snap.lastId);
      case DiffGroup(upd, ts) => AsksOnce(t, Covers(t, upd), pre, post);
    }
  }
}
