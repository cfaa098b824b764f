/** Paper orders, inventory and cash. */
module PaperBook {
  import opened Events
  import opened BookSide
  import opened Book

  datatype PaperQuote = PaperQuote(px: int, qty: int, active: bool)

  /** qty is signed: positive for a buy, negative for a sell. */
  datatype FillRecord = FillRecord(finalId: nat, px: int, qty: int, fee: int, inventoryAfter: int, cashAfter: int,
                                   side: Side)

  datatype CommAsset = Base | Quote | Other

  datatype ExecFill = ExecFill(side: Side, px: int, qty: int, fee: int, asset: CommAsset)

  datatype PaperView = PaperView(bid: PaperQuote, ask: PaperQuote, inventory: int, cash: int)

  const FLAT: PaperView := PaperView(PaperQuote(0, 0, false), PaperQuote(0, 0, false), 0, 0)

  function Lesser(a: int, b: int): int { if a < b then a else b }

  function Pulled(p: PaperView): PaperView {
    p.(bid := p.bid.(active := false), ask := p.ask.(active := false))
  }

  /** How much of a resting quote the displayed opposite best level fills. */
  function FillQty(q: PaperQuote, opposite: Option<Level>, crossed: bool): (n: nat)
    ensures n > 0 ==> q.active && opposite.Some? && crossed && n <= q.qty && n <= opposite.value.qty
  {
    if q.active && q.qty > 0 && opposite.Some? && crossed && Lesser(q.qty, opposite.value.qty) > 0
    then Lesser(q.qty, opposite.value.qty) else 0
  }

  function Reduced(q: PaperQuote, n: nat): PaperQuote {
    q.(qty := q.qty - n, active := q.active && q.qty != n)
  }

  function BidFill(p: PaperView, book: BookView): nat {
    var ba := BestOf(book.asks);
    FillQty(p.bid, ba, ba.Some? && ba.value.px <= p.bid.px)
  }

  function AskFill(p: PaperView, book: BookView): nat {
    var bb := BestOf(book.bids);
    FillQty(p.ask, bb, bb.Some? && bb.value.px >= p.ask.px)
  }

  function BidFilled(p: PaperView, book: BookView, fid: nat, fee: (int, int) -> int): (PaperView, seq<FillRecord>) {
    var n := BidFill(p, book);
    if n == 0 then (p, [])
    else
      var f := fee(p.bid.px, n);
      var q := PaperView(Reduced(p.bid, n), p.ask, p.inventory + n, p.cash - p.bid.px * n - f);
      (q, [FillRecord(fid, p.bid.px, n, f, q.inventory, q.cash, Bid)])
  }

  function AskFilled(p: PaperView, book: BookView, fid: nat, fee: (int, int) -> int): (PaperView, seq<FillRecord>) {
    var n: int := AskFill(p, book);
    if n == 0 then (p, [])
    else
      var f := fee(p.ask.px, n);
      var q := PaperView(p.bid, Reduced(p.ask, n), p.inventory - n, p.cash + p.ask.px * n - f);
      (q, [FillRecord(fid, p.ask.px, -n, f, q.inventory, q.cash, Ask)])
  }

  /** Buy side first, then the sell side. */
  function Filled(p: PaperView, book: BookView, fid: nat, fee: (int, int) -> int): (PaperView, seq<FillRecord>) {
    var (p1, f1) := BidFilled(p, book, fid, fee);
    var (p2, f2) := AskFilled(p1, book, fid, fee);
    (p2, f1 + f2)
  }

  function RealFilled(p: PaperView, e: ExecFill): PaperView {
    if e.qty <= 0 then p
    else
      var signed := if e.side.Bid? then e.qty else -e.qty;
      var inv, cash := p.inventory + signed, p.cash - e.px * signed;
      match e.asset
      case Quote => p.(inventory := inv, cash := cash - e.fee)
      case Base => p.(inventory := inv - e.fee, cash := cash)
      case Other => p.(inventory := inv, cash := cash)
  }

  class Paper {
    const fee: (int, int) -> int
    var bid: PaperQuote
    var ask: PaperQuote
    var inventory: int
    var cash: int

    ghost function View(): PaperView
      reads this
    {
      PaperView(bid, ask, inventory, cash)
    }

    constructor (fee: (int, int) -> int)
      ensures View() == FLAT && this.fee == fee
    {
      this.fee := fee;
      bid, ask, inventory, cash := PaperQuote(0, 0, false), PaperQuote(0, 0, false), 0, 0;
    }

    method SetQuotes(b: PaperQuote, a: PaperQuote)
      modifies this
      ensures View() == old(View()).(bid := b, ask := a)
    {
      bid, ask := b, a;
    }

    method PullQuotes()
      modifies this
      ensures View() == Pulled(old(View()))
    {
      bid, ask := bid.(active := false), ask.(active := false);
    }

    method FillBid(book: L2Book, fid: nat) returns (out: seq<FillRecord>)
      requires book.Valid()
      modifies this
      ensures (View(), out) == BidFilled(old(View()), book.View(), fid, fee)
    {
      out := [];
      if bid.active && bid.qty > 0 {
        var ba := book.BestAsk();
        if ba.Some? && ba.value.px <= bid.px {
          var fill := Lesser(bid.qty, ba.value.qty);
          if fill > 0 {
            var f := fee(bid.px, fill);
            inventory := inventory + fill;
            cash := cash - bid.px * fill;
            cash := cash - f;
            bid := bid.(qty := bid.qty - fill);
            if bid.qty == 0 { bid := bid.(active := false); }
            out := [FillRecord(fid, bid.px, fill, f, inventory, cash, Bid)];
          }
        }
      }
    }

    method FillAsk(book: L2Book, fid: nat) returns (out: seq<FillRecord>)
      requires book.Valid()
      modifies this
      ensures (View(), out) == AskFilled(old(View()), book.View(), fid, fee)
    {
      out := [];
      if ask.active && ask.qty > 0 {
        var bb := book.BestBid();
        if bb.Some? && bb.value.px >= ask.px {
          var fill := Lesser(ask.qty, bb.value.qty);
          if fill > 0 {
            var f := fee(ask.px, fill);
            inventory := inventory - fill;
            cash := cash + ask.px * fill;
            cash := cash - f;
            ask := ask.(qty := ask.qty - fill);
            if ask.qty == 0 { ask := ask.(active := false); }
            out := [FillRecord(fid, ask.px, -fill, f, inventory, cash, Ask)];
          }
        }
      }
    }

    method SimulateFills(book: L2Book, fid: nat) returns (out: seq<FillRecord>)
      requires book.Valid()
      modifies this
      ensures (View(), out) == Filled(old(View()), book.View(), fid, fee)
    {
      var buys := FillBid(book, fid);
      var sells := FillAsk(book, fid);
      out := buys + sells;
    }

    method ApplyRealFill(e: ExecFill)
      modifies this
      ensures View() == RealFilled(old(View()), e)
    {
      if e.qty <= 0 { return; }
      if e.side.Bid? {
        inventory := inventory + e.qty;
        cash := cash - e.px * e.qty;
      } else {
        inventory := inventory - e.qty;
        cash := cash + e.px * e.qty;
      }
      match e.asset {
        case Quote => cash := cash - e.fee;
        case Base => inventory := inventory - e.fee;
        case Other =>
      }
    }
  }
}
