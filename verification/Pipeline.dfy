/** The market-data thread and the engine, one after the other on the same queue. */
module Pipeline {
  import opened Events
  import opened Book
  import opened Protocol
  import opened Verifier
  import opened MarketData
  import opened Exchange
  import opened Feed
  import opened Reconstruction
  import opened Strategy
  import Spsc
  import E = Engine

  method RunThread(world: World, maxRefetch: int) returns (pushed: seq<MarketEvent>, ghost inputs: seq<Input>)
    ensures AllDelivered(world, inputs) && pushed <= Flatten(Follow(inputs).sent) && LegalStream(pushed)
  {
    var thread := new MarketDataThread(world, maxRefetch);
    thread.Run();
    pushed, inputs := thread.pushed, thread.inputs;
  }

  method RunEngine(strat: Strategy, trading: bool, logging: bool, popped: seq<MarketEvent>) returns (engine: E.Engine)
    requires strat.Valid() && strat.View() == NEW
    modifies strat, strat.paper
    ensures engine.Valid() && engine.applied == popped
    ensures FeedView(engine.book.View(), engine.bookLive) == FeedAfter(popped)
    ensures engine.verifier.View() == VerifierAfter(popped)
  {
    engine := new E.Engine(strat, trading, logging, 0);
    var _ := engine.Drain(popped);
    assert engine.applied == popped;
    E.EngineParts(engine.Conf(), popped);
  }

  /** The book tracks the exchange as of the last event popped. */
  ghost predicate Tracking(h: seq<Change>, b: BookView, popped: seq<MarketEvent>, limit: nat)
    requires popped != []
  {
    exists gs :: popped == Flatten(gs) &&
      BookTracks(h, b, popped[|popped| - 1].finalId, GroupHorizon(gs, Bid, limit), GroupHorizon(gs, Ask, limit))
  }

  lemma PrefixTracks(h: seq<Change>, w: World, limit: nat, inputs: seq<Input>, pushed: seq<MarketEvent>,
                     popped: seq<MarketEvent>)
    requires AllDelivered(w, inputs)
    requires popped <= pushed <= Flatten(Follow(inputs).sent) && LegalStream(pushed)
    ensures VerifierAfter(popped).gaps == 0
    ensures TruthfulWorld(h, w, limit) && popped != [] && !popped[|popped| - 1].cont && FeedAfter(popped).live ==>
      Tracking(h, FeedAfter(popped).book, popped, limit)
  {
    FollowIsLegal(inputs);
    assert popped <= Flatten(Follow(inputs).sent);
    NeverFires(popped);
    if TruthfulWorld(h, w, limit) && popped != [] && !popped[|popped| - 1].cont && FeedAfter(popped).live {
      var _ := PipelineTracks(h, w, limit, inputs, pushed, popped);
    }
  }

  function Front(evs: seq<MarketEvent>, count: nat): (r: seq<MarketEvent>)
    ensures r <= evs
  {
    if count < |evs| then evs[..count] else evs
  }

  /** Run the thread in any world and let the engine pop any number of the events: the
      verifier has found nothing, and in a truthful world, at a message end with the
      book live, the engine's own book tracks the exchange. */
  method RunPipeline(world: World, maxRefetch: int, strat: Strategy, trading: bool, logging: bool, count: nat,
                     ghost h: seq<Change>, ghost limit: nat) returns (engine: E.Engine)
    requires strat.Valid() && strat.View() == NEW
    modifies strat, strat.paper
    ensures engine.Valid() && engine.verifier.View().gaps == 0
    ensures var popped := engine.applied;
      TruthfulWorld(h, world, limit) && popped != [] && !popped[|popped| - 1].cont && engine.bookLive ==>
        Tracking(h, engine.book.View(), popped, limit)
  {
    ghost var inputs;
    var pushed;
    pushed, inputs := RunThread(world, maxRefetch);
    var popped := Front(pushed, count);
    PrefixTracks(h, world, limit, inputs, pushed, popped);
    engine := RunEngine(strat, trading, logging, popped);
  }

  /** The unread part of a queue. */
  ghost function Unread(q: Spsc.SpscQueue<MarketEvent>): seq<MarketEvent>
    requires |q.popped| <= |q.pushed|
    reads q
  {
    q.pushed[|q.popped|..]
  }

  lemma PopTakesFirst(s: Spsc.State<MarketEvent>)
    requires Spsc.Inv(s) && s.consumer.CIdle?
    ensures |s.popped| <= |s.pushed| && |Spsc.PopAlone(s).popped| <= |Spsc.PopAlone(s).pushed|
    ensures var t := Spsc.PopAlone(s);
      t.pushed == s.pushed && Spsc.Inv(t) &&
      if |s.popped| < |s.pushed|
      then s.pushed[|s.popped|..] == [s.pushed[|s.popped|]] + t.pushed[|t.popped|..]
      else t.popped == s.popped
  {
    Spsc.PopAloneMeaning(s);
  }

  /** One pop, as seen by the engine. */
  method Take(q: Spsc.SpscQueue<MarketEvent>) returns (r: Option<MarketEvent>)
    requires Spsc.Inv(q.View())
    modifies q`head, q`cachedTail, q`popped
    ensures Spsc.Inv(q.View()) && q.pushed == old(q.pushed)
    ensures |old(q.popped)| <= |old(q.pushed)| && |q.popped| <= |q.pushed|
    ensures r.None? ==> old(Unread(q)) == [] && Unread(q) == []
    ensures r.Some? ==> old(Unread(q)) == [r.value] + Unread(q)
  {
    PopTakesFirst(q.View());
    r := q.TryPop();
  }

  lemma Shifted(a: seq<MarketEvent>, v: MarketEvent, rest: seq<MarketEvent>)
    ensures a + ([v] + rest) == a + [v] + rest && a + [] == a
  {
  }

  /** Pop one event and handle it, if there is one. */
  method HandleNext(engine: E.Engine, q: Spsc.SpscQueue<MarketEvent>) returns (more: bool)
    requires engine.Valid() && Spsc.Inv(q.View())
    modifies q`head, q`cachedTail, q`popped
    modifies engine`ring, engine`bookLive, engine`log, engine`applied
    modifies engine.book, engine.book.bids, engine.book.asks, engine.verifier, engine.strat, engine.strat.paper
    ensures engine.Valid() && Spsc.Inv(q.View())
    ensures |old(q.popped)| <= |old(q.pushed)| && |q.popped| <= |q.pushed|
    ensures engine.applied + Unread(q) == old(engine.applied) + old(Unread(q))
    ensures if more then |Unread(q)| == |old(Unread(q))| - 1 else old(Unread(q)) == [] && Unread(q) == []
  {
    var r := Take(q);
    more := r.Some?;
    if more {
      Shifted(engine.applied, r.value, Unread(q));
      engine.PopOne(r.value);
    }
  }

  /** The drain loop on the queue itself: everything unread is applied, in order. */
  method DrainQueue(engine: E.Engine, q: Spsc.SpscQueue<MarketEvent>) returns (didWork: bool)
    requires engine.Valid() && Spsc.Inv(q.View()) && |q.popped| <= |q.pushed|
    modifies q`head, q`cachedTail, q`popped
    modifies engine`ring, engine`bookLive, engine`log, engine`applied
    modifies engine.book, engine.book.bids, engine.book.asks, engine.verifier, engine.strat, engine.strat.paper
    ensures engine.Valid() && Spsc.Inv(q.View())
    ensures |q.popped| <= |q.pushed| && Unread(q) == []
    ensures engine.applied == old(engine.applied) + old(Unread(q))
    ensures didWork <==> old(Unread(q)) != []
  {
    var more := HandleNext(engine, q);
    didWork := more;
    while more
      invariant engine.Valid() && Spsc.Inv(q.View()) && |q.popped| <= |q.pushed|
      invariant engine.applied + Unread(q) == old(engine.applied) + old(Unread(q))
      invariant !more ==> Unread(q) == []
      decreases |Unread(q)|, more
    {
      more := HandleNext(engine, q);
    }
    assert engine.applied + [] == engine.applied;
  }
}
