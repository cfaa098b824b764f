/** What every consumer of the event stream does to its book: clear on a
    snapshot start, apply the event, go live on the first depth diff. */
module Feed {
  import opened Events
  import opened BookSide
  import opened Book
  import opened Fragmenter
  import opened Protocol

  datatype FeedView = FeedView(book: BookView, live: bool)

  const COLD: FeedView := FeedView(EMPTY, false)

  function Consumed(f: FeedView, ev: MarketEvent): FeedView {
    var b := if ev.start then EMPTY else f.book;
    FeedView(WithEvent(b, ev), (f.live && !ev.start) || ev.kind == DepthDiff)
  }

  function FeedAfter(evs: seq<MarketEvent>): FeedView {
    if evs == [] then COLD else Consumed(FeedAfter(evs[..|evs| - 1]), evs[|evs| - 1])
  }

  /** The book update that the engine and both replays share. */
  method FeedBook(book: L2Book, live: bool, ev: MarketEvent) returns (live': bool)
    requires book.Valid()
    modifies book, book.bids, book.asks
    ensures book.Valid()
    ensures FeedView(book.View(), live') == Consumed(FeedView(old(book.View()), live), ev)
  {
    live' := live;
    if ev.start {
      book.Clear();
      live' := false;
    }
    book.ApplyEvent(ev);
    if ev.kind == DepthDiff { live' := true; }
  }

  lemma FeedSnoc(evs: seq<MarketEvent>, ev: MarketEvent)
    ensures FeedAfter(evs + [ev]) == Consumed(FeedAfter(evs), ev)
  {
    assert (evs + [ev])[..|evs|] == evs;
  }

  lemma {:induction false} FeedWf(evs: seq<MarketEvent>)
    ensures WfBook(FeedAfter(evs).book)
    decreases |evs|
  {
    if evs != [] { FeedWf(evs[..|evs| - 1]); }
  }

  lemma {:induction false} WithEventsSnoc(b: BookView, evs: seq<MarketEvent>, ev: MarketEvent)
    ensures WithEvents(b, evs + [ev]) == WithEvent(WithEvents(b, evs), ev)
    decreases |evs|
  {
    if evs == [] {
      assert evs + [ev] == [ev];
      assert WithEvents(WithEvent(b, ev), []) == WithEvent(b, ev);
    } else {
      assert (evs + [ev])[1..] == evs[1..] + [ev];
      WithEventsSnoc(WithEvent(b, evs[0]), evs[1..], ev);
    }
  }

  /** The book a message starts from. */
  function Base(b: BookView, g: Group): BookView {
    if g.SnapGroup? then EMPTY else b
  }

  lemma FirstFragmentConsumed(f: FeedView, g: Group)
    requires |EventsOf(g)| > 0
    ensures Consumed(f, EventsOf(g)[0]) == FeedView(WithEvent(Base(f.book, g), EventsOf(g)[0]), g.DiffGroup?)
  {
    EventsOfShape(g);
  }

  lemma LaterFragmentConsumed(f: FeedView, g: Group, k: nat)
    requires 0 < k < |EventsOf(g)| && f.live == g.DiffGroup?
    ensures Consumed(f, EventsOf(g)[k]) == FeedView(WithEvent(f.book, EventsOf(g)[k]), g.DiffGroup?)
  {
    EventsOfShape(g);
  }

  /** Inside a message: only the first fragment can clear the book. */
  lemma {:induction false} FeedInside(evs: seq<MarketEvent>, g: Group, k: nat)
    requires 0 < k <= |EventsOf(g)|
    ensures FeedAfter(evs + EventsOf(g)[..k]) ==
      FeedView(WithEvents(Base(FeedAfter(evs).book, g), EventsOf(g)[..k]), g.DiffGroup?)
    decreases k
  {
    FragmentMore(evs, g, k - 1);
    FeedSnoc(evs + EventsOf(g)[..k - 1], EventsOf(g)[k - 1]);
    WithEventsSnoc(Base(FeedAfter(evs).book, g), EventsOf(g)[..k - 1], EventsOf(g)[k - 1]);
    if k == 1 {
      FragmentNone(evs, g);
      FirstFragmentConsumed(FeedAfter(evs), g);
    } else {
      FeedInside(evs, g, k - 1);
      LaterFragmentConsumed(FeedAfter(evs + EventsOf(g)[..k - 1]), g, k - 1);
    }
  }

  lemma FragmentMore(evs: seq<MarketEvent>, g: Group, j: nat)
    requires j < |EventsOf(g)|
    ensures evs + EventsOf(g)[..j + 1] == evs + EventsOf(g)[..j] + [EventsOf(g)[j]]
    ensures EventsOf(g)[..j + 1] == EventsOf(g)[..j] + [EventsOf(g)[j]]
  {
  }

  lemma FragmentNone(evs: seq<MarketEvent>, g: Group)
    ensures EventsOf(g)[..0] == [] && evs + EventsOf(g)[..0] == evs
  {
  }

  function BidsOf(g: Group): seq<Level> {
    if g.SnapGroup? then g.snap.bids else g.upd.bids
  }

  function AsksOf(g: Group): seq<Level> {
    if g.SnapGroup? then g.snap.asks else g.upd.asks
  }

  function LevelsOf(g: Group, side: Side): seq<Level> {
    if side.Bid? then BidsOf(g) else AsksOf(g)
  }

  lemma GroupIsOneStep(b: BookView, g: Group)
    ensures AllBids(EventsOf(g)) == BidsOf(g) && AllAsks(EventsOf(g)) == AsksOf(g)
    ensures WithEvents(b, EventsOf(g)).bids == AppliedAll(Bid, b.bids, BidsOf(g))
    ensures WithEvents(b, EventsOf(g)).asks == AppliedAll(Ask, b.asks, AsksOf(g))
  {
    match g {
      case SnapGroup(snap, ts) => FragmentsCarryAll(SnapProto(snap, ts), snap.bids, snap.asks, true);
      case DiffGroup(upd, ts) => FragmentsCarryAll(DiffProto(upd, ts), upd.bids, upd.asks, false);
    }
    WithEventsSides(b, EventsOf(g));
  }

  lemma FeedWhole(evs: seq<MarketEvent>, g: Group)
    ensures FeedAfter(evs + EventsOf(g)) ==
      FeedView(WithEvents(Base(FeedAfter(evs).book, g), EventsOf(g)), g.DiffGroup?)
  {
    EventsOfShape(g);
    var n := |EventsOf(g)|;
    FeedInside(evs, g, n);
    assert EventsOf(g)[..n] == EventsOf(g);
  }

  /** A whole message acts on each side as one list of updates. */
  lemma FeedGroup(evs: seq<MarketEvent>, g: Group, side: Side)
    ensures FeedAfter(evs + EventsOf(g)).live == g.DiffGroup?
    ensures SideOf(FeedAfter(evs + EventsOf(g)).book, side)
         == AppliedAll(side, SideOf(Base(FeedAfter(evs).book, g), side), LevelsOf(g, side))
  {
    FeedWhole(evs, g);
    GroupIsOneStep(Base(FeedAfter(evs).book, g), g);
  }
}
