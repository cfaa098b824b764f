/** From the engine's records to a file and back: the closed log, read again and replayed,
    gives the decisions, quotes and fills that were logged. */
module LogReplay {
  import opened Events
  import opened Strategy
  import opened StrategyRuns
  import opened Replay
  import L = EventLog
  import E = Engine

  /** Payload bytes of a record, and the event in an event payload. */
  datatype Codec = Codec(enc: E.Record -> seq<L.byte>, dec: seq<L.byte> -> MarketEvent)

  function KindOf(r: E.Record): nat {
    match r
    case EventRec(_) => L.REC_EVENT
    case DecisionRec(_) => L.REC_DECISION
    case QuoteRec(_) => 3
    case FillRec(_) => 4
  }

  /** The codec keeps the record sizes and loses nothing of the logged events. */
  ghost predicate Codes(k: Codec, log: seq<E.Record>) {
    forall r :: r in log ==>
      |k.enc(r)| == L.SizeOf(KindOf(r)) && (r.EventRec? ==> k.dec(k.enc(r)) == r.ev)
  }

  function Framed(k: Codec, log: seq<E.Record>): seq<L.Record> {
    seq(|log|, i requires 0 <= i < |log| => L.Record(KindOf(log[i]), k.enc(log[i])))
  }

  function Decoded(k: Codec, payloads: seq<seq<L.byte>>): seq<MarketEvent> {
    seq(|payloads|, i requires 0 <= i < |payloads| => k.dec(payloads[i]))
  }

  lemma {:induction false} PayloadsSnoc(rs: seq<L.Record>, r: L.Record)
    ensures L.EventPayloads(rs + [r]) == L.EventPayloads(rs) + if r.kind == L.REC_EVENT then [r.payload] else []
  {
    if rs == [] {
      assert rs + [r] == [r] && [r][1..] == [];
    } else {
      assert (rs + [r])[1..] == rs[1..] + [r];
      PayloadsSnoc(rs[1..], r);
    }
  }

  lemma FramedSnoc(k: Codec, log: seq<E.Record>)
    requires log != []
    ensures var n := |log| - 1; Framed(k, log) == Framed(k, log[..n]) + [L.Record(KindOf(log[n]), k.enc(log[n]))]
  {
  }

  lemma DecodedMore(k: Codec, ps: seq<seq<L.byte>>, more: seq<seq<L.byte>>)
    ensures Decoded(k, ps + more) == Decoded(k, ps) + Decoded(k, more)
  {
  }

  /** The payloads of the event records decode to the logged events. */
  lemma {:induction false} PayloadsDecode(k: Codec, log: seq<E.Record>)
    requires Codes(k, log)
    ensures Decoded(k, L.EventPayloads(Framed(k, log))) == E.EventsIn(log)
    decreases |log|
  {
    if log != [] {
      var n := |log| - 1;
      var r := L.Record(KindOf(log[n]), k.enc(log[n]));
      PayloadsDecode(k, log[..n]);
      FramedSnoc(k, log);
      PayloadsSnoc(Framed(k, log[..n]), r);
      DecodedMore(k, L.EventPayloads(Framed(k, log[..n])), if r.kind == L.REC_EVENT then [r.payload] else []);
      assert log[n] in log;
    }
  }

  lemma FramedWf(k: Codec, log: seq<E.Record>)
    requires Codes(k, log)
    ensures forall r :: r in Framed(k, log) ==> L.WfRecord(r)
  {
    forall r | r in Framed(k, log) ensures L.WfRecord(r) {
      var i :| 0 <= i < |log| && r == L.Record(KindOf(log[i]), k.enc(log[i]));
      assert log[i] in log;
    }
  }

  /** Write all records and close the file. */
  method Save(k: Codec, log: seq<E.Record>) returns (file: seq<L.byte>)
    requires Codes(k, log)
    ensures file == L.Header() + L.EncodedAll(Framed(k, log))
  {
    FramedWf(k, log);
    var w := new L.EventLogWriter();
    for i := 0 to |log|
      invariant fresh(w) && w.Valid() && w.isOpen && w.written == Framed(k, log)[..i]
    {
      assert Framed(k, log)[i] in Framed(k, log);
      w.WriteRecord(L.Record(KindOf(log[i]), k.enc(log[i])));
    }
    w.Close();
    file := w.file;
    assert Framed(k, log)[..|log|] == Framed(k, log);
  }

  /** Open the file, read its event records and decode them. */
  method ReadBack(k: Codec, file: seq<L.byte>, ghost log: seq<E.Record>) returns (events: seq<MarketEvent>)
    requires Codes(k, log) && file == L.Header() + L.EncodedAll(Framed(k, log))
    ensures events == E.EventsIn(log)
  {
    var reader := new L.EventLogReader(file);
    var _ := reader.Open();
    var payloads := reader.ReadLogEvents();
    events := Decoded(k, payloads);
    FramedWf(k, log);
    L.ClosedLogRoundTrip(Framed(k, log));
    PayloadsDecode(k, log);
  }

  /** The file of an engine's log, read and replayed, gives the logged decisions. */
  method ReplaySaved(k: Codec, log: seq<E.Record>, ghost c: E.Config, ghost evs: seq<MarketEvent>)
    returns (decisions: seq<DecisionRecord>)
    requires c.logging && log == E.EngineAfter(c, evs).log && Codes(k, log)
    ensures decisions == E.DecisionsIn(log)
  {
    var file := Save(k, log);
    var events := ReadBack(k, file, log);
    decisions := ReplayEvents(events);
    E.LiveEqualsReplay(c, evs);
  }

  /** In paper mode it also gives the logged quotes and fills. */
  method ReplaySavedStrategy(k: Codec, log: seq<E.Record>, p: Params, m: Model, ghost c: E.Config,
                             ghost evs: seq<MarketEvent>) returns (r: StrategyReplay)
    requires c.logging && log == E.EngineAfter(c, evs).log && Codes(k, log)
    requires c.strategy == Some((p, m)) && !p.liveMode
    ensures r.quotes == E.QuotesIn(log) && r.fills == E.FillsIn(log)
  {
    var file := Save(k, log);
    var events := ReadBack(k, file, log);
    r := ReplayStrategy(events, p, m);
    E.LiveEqualsReplay(c, evs);
  }
}
