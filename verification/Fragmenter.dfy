/** Splitting one depth message into fixed-size chained events. */
module Fragmenter {
  import opened Events
  import opened BookSide
  import opened Book

  function Min(a: nat, b: nat): nat { if a < b then a else b }

  function BidsTaken(bids: seq<Level>): nat {
    Min(MAX_LEVELS_PER_EVENT, |bids|)
  }

  function AsksTaken(bids: seq<Level>, asks: seq<Level>): nat {
    Min(MAX_LEVELS_PER_EVENT - BidsTaken(bids), |asks|)
  }

  predicate Overflows(bids: seq<Level>, asks: seq<Level>) {
    BidsTaken(bids) < |bids| || AsksTaken(bids, asks) < |asks|
  }

  /** The first event of a chain: bids fill it first, asks take what is left of
      the level budget; `proto` carries the fields all events share. */
  function FirstFragment(proto: MarketEvent, bids: seq<Level>, asks: seq<Level>, start: bool): MarketEvent {
    proto.(bids := bids[..BidsTaken(bids)], asks := asks[..AsksTaken(bids, asks)],
           cont := Overflows(bids, asks), start := start)
  }

  /** The chain of events for one message. */
  function Fragments(proto: MarketEvent, bids: seq<Level>, asks: seq<Level>, start: bool): seq<MarketEvent>
    decreases |bids| + |asks|
  {
    var ev := FirstFragment(proto, bids, asks, start);
    if Overflows(bids, asks)
    then [ev] + Fragments(proto, bids[BidsTaken(bids)..], asks[AsksTaken(bids, asks)..], false)
    else [ev]
  }

  function AllBids(evs: seq<MarketEvent>): seq<Level> {
    if evs == [] then [] else evs[0].bids + AllBids(evs[1..])
  }

  function AllAsks(evs: seq<MarketEvent>): seq<Level> {
    if evs == [] then [] else evs[0].asks + AllAsks(evs[1..])
  }

  /** Fewest events that can carry n levels, one event being sent even for none. */
  function EventsNeeded(n: nat): nat {
    if n == 0 then 1 else (n + MAX_LEVELS_PER_EVENT - 1) / MAX_LEVELS_PER_EVENT
  }

  /** ev is proto with its own levels and flags. */
  ghost predicate SharesHeader(ev: MarketEvent, proto: MarketEvent) {
    ev == proto.(bids := ev.bids, asks := ev.asks, cont := ev.cont, start := ev.start)
  }

  lemma {:induction false} FragmentsCarryAll(proto: MarketEvent, bids: seq<Level>, asks: seq<Level>, start: bool)
    ensures AllBids(Fragments(proto, bids, asks, start)) == bids
    ensures AllAsks(Fragments(proto, bids, asks, start)) == asks
    decreases |bids| + |asks|
  {
    var evs := Fragments(proto, bids, asks, start);
    if Overflows(bids, asks) {
      var nb, na := BidsTaken(bids), AsksTaken(bids, asks);
      FragmentsCarryAll(proto, bids[nb..], asks[na..], false);
      assert evs[1..] == Fragments(proto, bids[nb..], asks[na..], false);
    } else {
      assert evs[1..] == [];
    }
  }

  lemma {:induction false} FragmentsFlagged(proto: MarketEvent, bids: seq<Level>, asks: seq<Level>, start: bool)
    ensures var evs := Fragments(proto, bids, asks, start);
      && |evs| > 0
      && forall i :: 0 <= i < |evs| ==>
           && |evs[i].bids| + |evs[i].asks| <= MAX_LEVELS_PER_EVENT
           && evs[i].cont == (i < |evs| - 1)
           && evs[i].start == (start && i == 0)
           && SharesHeader(evs[i], proto)
    decreases |bids| + |asks|
  {
    var evs := Fragments(proto, bids, asks, start);
    if Overflows(bids, asks) {
      var rest := Fragments(proto, bids[BidsTaken(bids)..], asks[AsksTaken(bids, asks)..], false);
      FragmentsFlagged(proto, bids[BidsTaken(bids)..], asks[AsksTaken(bids, asks)..], false);
      assert forall i :: 0 < i < |evs| ==> evs[i] == rest[i - 1];
    }
  }

  lemma {:induction false} FragmentsCount(proto: MarketEvent, bids: seq<Level>, asks: seq<Level>, start: bool)
    ensures |Fragments(proto, bids, asks, start)| == EventsNeeded(|bids| + |asks|)
    decreases |bids| + |asks|
  {
    if Overflows(bids, asks) {
      FragmentsCount(proto, bids[BidsTaken(bids)..], asks[AsksTaken(bids, asks)..], false);
    }
  }

  function Monus(a: nat, b: nat): nat { if a < b then 0 else a - b }

  /** How many levels k events hold. */
  function Capacity(k: nat): nat { 64 * k }

  /** How many of the bids and asks are among the levels of k events, with nb bids and na
      asks in the first one. */
  lemma PrefixCounts(bids: nat, asks: nat, nb: nat, na: nat, k: nat)
    requires k >= 1 && nb == Min(Capacity(1), bids) && na == Min(Capacity(1) - nb, asks)
    ensures nb + Min(bids - nb, Capacity(k - 1)) == Min(bids, Capacity(k))
    ensures na + Min(asks - na, Monus(Capacity(k - 1), bids - nb)) == Min(asks, Monus(Capacity(k), bids))
  {
  }

  /** k events carry the first levels, bids before asks. */
  predicate CarryFirst(evs: seq<MarketEvent>, bids: seq<Level>, asks: seq<Level>, k: nat) {
    && AllBids(evs) == bids[..Min(|bids|, Capacity(k))]
    && AllAsks(evs) == asks[..Min(|asks|, Monus(Capacity(k), |bids|))]
  }

  lemma {:induction false} FragmentsPrefix(proto: MarketEvent, bids: seq<Level>, asks: seq<Level>, start: bool, k: nat)
    requires k <= |Fragments(proto, bids, asks, start)|
    ensures CarryFirst(Fragments(proto, bids, asks, start)[..k], bids, asks, k)
    decreases k
  {
    if k > 0 {
      if Overflows(bids, asks) {
        PrefixHead(proto, bids, asks, start, k);
        FragmentsPrefix(proto, bids[BidsTaken(bids)..], asks[AsksTaken(bids, asks)..], false, k - 1);
        PrefixMore(proto, bids, asks, start, k);
      } else {
        PrefixWhole(proto, bids, asks, start, k);
      }
    }
  }

  lemma PrefixMore(proto: MarketEvent, bids: seq<Level>, asks: seq<Level>, start: bool, k: nat)
    requires 0 < k <= |Fragments(proto, bids, asks, start)| && Overflows(bids, asks)
    requires var nb, na := BidsTaken(bids), AsksTaken(bids, asks);
      var rest := Fragments(proto, bids[nb..], asks[na..], false);
      k - 1 <= |rest| && CarryFirst(rest[..k - 1], bids[nb..], asks[na..], k - 1)
    ensures CarryFirst(Fragments(proto, bids, asks, start)[..k], bids, asks, k)
  {
    var nb, na := BidsTaken(bids), AsksTaken(bids, asks);
    PrefixCounts(|bids|, |asks|, nb, na, k);
    PrefixHead(proto, bids, asks, start, k);
    PrefixStep(bids, asks, Fragments(proto, bids, asks, start)[0],
               Fragments(proto, bids[nb..], asks[na..], false)[..k - 1], nb, na,
               Min(|bids| - nb, Capacity(k - 1)), Min(|asks| - na, Monus(Capacity(k - 1), |bids| - nb)));
  }

  lemma PrefixWhole(proto: MarketEvent, bids: seq<Level>, asks: seq<Level>, start: bool, k: nat)
    requires 0 < k <= |Fragments(proto, bids, asks, start)| && !Overflows(bids, asks)
    ensures var evs := Fragments(proto, bids, asks, start)[..k]; AllBids(evs) == bids && AllAsks(evs) == asks && k == 1
    ensures Min(|bids|, Capacity(k)) == |bids| && Min(|asks|, Monus(Capacity(k), |bids|)) == |asks|
  {
    FragmentsCarryAll(proto, bids, asks, start);
    var evs := Fragments(proto, bids, asks, start);
    assert evs[..k] == evs;
  }

  lemma PrefixHead(proto: MarketEvent, bids: seq<Level>, asks: seq<Level>, start: bool, k: nat)
    requires 0 < k <= |Fragments(proto, bids, asks, start)| && Overflows(bids, asks)
    ensures var evs, nb, na := Fragments(proto, bids, asks, start), BidsTaken(bids), AsksTaken(bids, asks);
      var rest := Fragments(proto, bids[nb..], asks[na..], false);
      && evs[0].bids == bids[..nb] && evs[0].asks == asks[..na]
      && k - 1 <= |rest| && evs[..k] == [evs[0]] + rest[..k - 1]
  {
  }

  /** One more event in front carries the levels in front. */
  lemma PrefixStep(bids: seq<Level>, asks: seq<Level>, e: MarketEvent, rest: seq<MarketEvent>,
                   nb: nat, na: nat, cb: nat, ca: nat)
    requires nb + cb <= |bids| && na + ca <= |asks| && e.bids == bids[..nb] && e.asks == asks[..na]
    requires AllBids(rest) == bids[nb..][..cb] && AllAsks(rest) == asks[na..][..ca]
    ensures AllBids([e] + rest) == bids[..nb + cb] && AllAsks([e] + rest) == asks[..na + ca]
  {
    assert ([e] + rest)[1..] == rest;
    TakeTwice(bids, nb, cb);
    TakeTwice(asks, na, ca);
  }

  lemma TakeTwice(ls: seq<Level>, a: nat, b: nat)
    requires a + b <= |ls|
    ensures ls[..a] + ls[a..][..b] == ls[..a + b]
  {
  }

  lemma TailOfConcat(a: seq<MarketEvent>, b: seq<MarketEvent>)
    requires a != []
    ensures (a + b)[1..] == a[1..] + b && (a + b)[0] == a[0]
  {
  }

  lemma LevelsApart(a: seq<Level>, b: seq<Level>, c: seq<Level>)
    ensures a + (b + c) == (a + b) + c
  {
  }

  lemma {:induction false} LevelsConcat(a: seq<MarketEvent>, b: seq<MarketEvent>)
    ensures AllBids(a + b) == AllBids(a) + AllBids(b) && AllAsks(a + b) == AllAsks(a) + AllAsks(b)
    decreases |a|
  {
    if a == [] {
      assert a + b == b;
    } else {
      LevelsConcat(a[1..], b);
      TailOfConcat(a, b);
      LevelsApart(a[0].bids, AllBids(a[1..]), AllBids(b));
      LevelsApart(a[0].asks, AllAsks(a[1..]), AllAsks(b));
    }
  }

  /** Fragmentation loses nothing, uses the fewest events, respects the budget,
      chains all but the last and marks only the first. */
  lemma FragmentsLossless(proto: MarketEvent, bids: seq<Level>, asks: seq<Level>, start: bool)
    ensures var evs := Fragments(proto, bids, asks, start);
      && AllBids(evs) == bids && AllAsks(evs) == asks
      && |evs| == EventsNeeded(|bids| + |asks|)
      && forall i :: 0 <= i < |evs| ==>
           && |evs[i].bids| + |evs[i].asks| <= MAX_LEVELS_PER_EVENT
           && evs[i].cont == (i < |evs| - 1)
           && evs[i].start == (start && i == 0)
           && SharesHeader(evs[i], proto)
  {
    FragmentsCarryAll(proto, bids, asks, start);
    FragmentsFlagged(proto, bids, asks, start);
    FragmentsCount(proto, bids, asks, start);
  }

  /** No chain of budget-respecting events carrying the same levels is shorter. */
  lemma {:induction false} NoShorterChain(evs: seq<MarketEvent>)
    requires evs != []
    requires forall i :: 0 <= i < |evs| ==> |evs[i].bids| + |evs[i].asks| <= MAX_LEVELS_PER_EVENT
    ensures |evs| >= EventsNeeded(|AllBids(evs)| + |AllAsks(evs)|)
  {
    if |evs| > 1 {
      NoShorterChain(evs[1..]);
    } else {
      assert AllBids(evs[1..]) == [] && AllAsks(evs[1..]) == [];
    }
  }

  /** The book after a run of events. */
  function WithEvents(b: BookView, evs: seq<MarketEvent>): BookView
    decreases |evs|
  {
    if evs == [] then b else WithEvents(WithEvent(b, evs[0]), evs[1..])
  }

  lemma {:induction false} WithEventsSides(b: BookView, evs: seq<MarketEvent>)
    ensures WithEvents(b, evs).bids == AppliedAll(Bid, b.bids, AllBids(evs))
    ensures WithEvents(b, evs).asks == AppliedAll(Ask, b.asks, AllAsks(evs))
    decreases |evs|
  {
    if evs != [] {
      WithEventsSides(WithEvent(b, evs[0]), evs[1..]);
      AppliedAllConcat(Bid, b.bids, evs[0].bids, AllBids(evs[1..]));
      AppliedAllConcat(Ask, b.asks, evs[0].asks, AllAsks(evs[1..]));
    }
  }

  lemma {:induction false} WithEventsLast(b: BookView, evs: seq<MarketEvent>)
    requires evs != []
    ensures var last := evs[|evs| - 1];
      WithEvents(b, evs).lastId == last.finalId && WithEvents(b, evs).lastTs == last.tsRecv
    decreases |evs|
  {
    if |evs| > 1 {
      WithEventsLast(WithEvent(b, evs[0]), evs[1..]);
    }
  }

  /** Applying a chain is applying the whole message in one step. */
  lemma FragmentedApplyIsOneStep(b: BookView, proto: MarketEvent, bids: seq<Level>, asks: seq<Level>, start: bool)
    ensures WithEvents(b, Fragments(proto, bids, asks, start))
         == WithEvent(b, proto.(bids := bids, asks := asks))
  {
    var evs := Fragments(proto, bids, asks, start);
    FragmentsLossless(proto, bids, asks, start);
    WithEventsSides(b, evs);
    WithEventsLast(b, evs);
  }

  lemma GrowSlice(ls: seq<Level>, a: nat, b: nat)
    requires a <= b < |ls|
    ensures ls[a..b] + [ls[b]] == ls[a..b + 1]
  {
  }

  lemma SliceTwice(ls: seq<Level>, a: nat, b: nat)
    requires a <= b <= |ls|
    ensures ls[a..][..b - a] == ls[a..b]
  {
  }

  /** The two inner loops: copy bids, then asks, until the event is full. */
  method FillEvent(proto: MarketEvent, bids: seq<Level>, asks: seq<Level>, start: bool, b0: nat, a0: nat)
    returns (ev: MarketEvent, bi: nat, ai: nat)
    requires b0 <= |bids| && a0 <= |asks|
    ensures ev == FirstFragment(proto, bids[b0..], asks[a0..], start)
    ensures bi == b0 + BidsTaken(bids[b0..]) && ai == a0 + AsksTaken(bids[b0..], asks[a0..])
  {
    bi, ai := b0, a0;
    var slot: nat, evBids: seq<Level>, evAsks: seq<Level> := 0, [], [];
    while bi < |bids| && slot < MAX_LEVELS_PER_EVENT
      invariant b0 <= bi <= |bids| && slot == bi - b0 <= MAX_LEVELS_PER_EVENT
      invariant evBids == bids[b0..bi]
    {
      GrowSlice(bids, b0, bi);
      evBids := evBids + [bids[bi]];
      bi, slot := bi + 1, slot + 1;
    }
    while ai < |asks| && slot < MAX_LEVELS_PER_EVENT
      invariant a0 <= ai <= |asks| && slot == bi - b0 + ai - a0 <= MAX_LEVELS_PER_EVENT
      invariant evAsks == asks[a0..ai]
    {
      GrowSlice(asks, a0, ai);
      evAsks := evAsks + [asks[ai]];
      ai, slot := ai + 1, slot + 1;
    }
    SliceTwice(bids, b0, bi);
    SliceTwice(asks, a0, ai);
    ev := proto.(bids := evBids, asks := evAsks, cont := bi < |bids| || ai < |asks|, start := start);
  }

  /** What is still to be emitted once bi bids and ai asks are placed. */
  ghost function Remaining(proto: MarketEvent, bids: seq<Level>, asks: seq<Level>, bi: nat, ai: nat): seq<MarketEvent>
    requires bi <= |bids| && ai <= |asks|
  {
    if bi < |bids| || ai < |asks| then Fragments(proto, bids[bi..], asks[ai..], false) else []
  }

  lemma FragmentsUnfold(proto: MarketEvent, bids: seq<Level>, asks: seq<Level>, start: bool,
                        b0: nat, a0: nat, bi: nat, ai: nat)
    requires b0 <= |bids| && a0 <= |asks|
    requires bi == b0 + BidsTaken(bids[b0..]) && ai == a0 + AsksTaken(bids[b0..], asks[a0..])
    ensures Fragments(proto, bids[b0..], asks[a0..], start)
         == [FirstFragment(proto, bids[b0..], asks[a0..], start)] + Remaining(proto, bids, asks, bi, ai)
  {
    assert bids[b0..][bi - b0..] == bids[bi..] && asks[a0..][ai - a0..] == asks[ai..];
  }

  /** The fragmenting loop, as it stands in both the snapshot and the depth-update
      path: at least one event is emitted, even for an empty message. */
  method Fragment(proto: MarketEvent, bids: seq<Level>, asks: seq<Level>, start: bool) returns (out: seq<MarketEvent>)
    ensures out == Fragments(proto, bids, asks, start)
  {
    var ev, bi: nat, ai: nat := FillEvent(proto, bids, asks, start, 0, 0);
    assert bids[0..] == bids && asks[0..] == asks;
    FragmentsUnfold(proto, bids, asks, start, 0, 0, bi, ai);
    out := [ev];
    ghost var all := Fragments(proto, bids, asks, start);
    while bi < |bids| || ai < |asks|
      invariant bi <= |bids| && ai <= |asks|
      invariant out + Remaining(proto, bids, asks, bi, ai) == all
      decreases |bids| - bi + |asks| - ai
    {
      ghost var done, b0, a0 := out, bi, ai;
      ev, bi, ai := FillEvent(proto, bids, asks, false, bi, ai);
      FragmentsUnfold(proto, bids, asks, false, b0, a0, bi, ai);
      out := out + [ev];
      assert done + ([ev] + Remaining(proto, bids, asks, bi, ai)) == out + Remaining(proto, bids, asks, bi, ai);
    }
  }
}
