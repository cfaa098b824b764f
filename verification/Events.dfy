/** Plain values shared by every component: sides, depth levels, market events. */
module Events {

  datatype Option<+T> = None | Some(value: T)

  datatype Side = Bid | Ask

  datatype Level = Level(px: int, qty: int)

  datatype EventKind = DepthDiff | Trade | Snapshot

  /** Shared bid+ask level budget of one event. */
  const MAX_LEVELS_PER_EVENT: nat := 64

  /** One fixed-size event of the market queue. The level array holds the bids
      first and the asks right behind them, so it is kept as two sequences.
      `cont` and `start` are the continuation and snapshot-start flag bits. */
  datatype MarketEvent = MarketEvent(
    tsRecv: int,
    tsExchange: int,
    firstId: nat,
    finalId: nat,
    kind: EventKind,
    bids: seq<Level>,
    asks: seq<Level>,
    cont: bool,
    start: bool)

  /** A REST depth snapshot, already parsed. */
  datatype DepthSnapshot = DepthSnapshot(lastId: nat, bids: seq<Level>, asks: seq<Level>)

  /** A depth-update frame, already parsed. */
  datatype DepthUpdate = DepthUpdate(firstId: nat, finalId: nat, tsExchange: int,
                                     bids: seq<Level>, asks: seq<Level>)
}
