/** The append-only binary event log: buffered framing on the way out, a cursor
    on the way in. Payloads are raw bytes of fixed size per record type. */
module EventLog {
  type byte = x: int | 0 <= x < 256

  const REC_EVENT: nat := 1
  const REC_DECISION: nat := 2
  const EVENT_SIZE: nat := 1080
  const DECISION_SIZE: nat := 64
  const HEADER_SIZE: nat := 24
  const FLUSH_THRESHOLD: nat := 0x10_0000

  /** Payload size of each record type the writer produces. */
  function SizeOf(kind: nat): nat {
    match kind
    case 1 => EVENT_SIZE
    case 2 => DECISION_SIZE
    case 3 => 72
    case 4 => 56
    case 5 => 48
    case 6 => 80
    case _ => 816
  }

  datatype Record = Record(kind: nat, payload: seq<byte>)

  predicate WfRecord(r: Record) {
    1 <= r.kind <= 7 && |r.payload| == SizeOf(r.kind)
  }

  /** Little-endian 32-bit words. */
  function Enc32(n: nat): (s: seq<byte>)
    ensures |s| == 4
  {
    [n % 256, n / 256 % 256, n / 65536 % 256, n / 16777216 % 256]
  }

  function Dec32(s: seq<byte>): (n: nat)
    requires |s| == 4
    ensures n < 0x1_0000_0000
  {
    var a: int, b: int, c: int, d: int := s[0], s[1], s[2], s[3];
    a + 256 * b + 65536 * c + 16777216 * d
  }

  lemma Word32RoundTrip(n: nat)
    requires n < 0x1_0000_0000
    ensures Dec32(Enc32(n)) == n
  {
    var a := n / 256;
    var b := a / 256;
    assert n / 65536 == b && n / 16777216 == b / 256;
    assert n == 256 * a + n % 256 && a == 256 * b + a % 256 && b == 256 * (b / 256) + b % 256;
  }

  function Header(): (s: seq<byte>)
    ensures |s| == HEADER_SIZE
  {
    ['A' as int, 'S' as int, 'M' as int, 'L' as int] + Enc32(2) + Enc32(EVENT_SIZE)
    + Enc32(DECISION_SIZE) + Enc32(72) + Enc32(56)
  }

  /** One framed record. */
  function Encoded(r: Record): seq<byte> {
    Enc32(r.kind) + Enc32(|r.payload|) + r.payload
  }

  function EncodedAll(rs: seq<Record>): seq<byte> {
    if rs == [] then [] else Encoded(rs[0]) + EncodedAll(rs[1..])
  }

  lemma {:induction false} EncodedSnoc(rs: seq<Record>, r: Record)
    ensures EncodedAll(rs + [r]) == EncodedAll(rs) + Encoded(r)
  {
    if rs == [] {
      assert rs + [r] == [r] && [r][1..] == [];
    } else {
      assert (rs + [r])[1..] == rs[1..] + [r];
      EncodedSnoc(rs[1..], r);
    }
  }

  lemma Reassociated(a: seq<byte>, b: seq<byte>, c: seq<byte>, d: seq<byte>, e: seq<byte>)
    ensures a + b + (c + d) + e == a + (b + (c + d + e))
  {
  }

  lemma StreamExtends(head: seq<byte>, after: seq<byte>, rs: seq<Record>, r: Record)
    requires after == head + EncodedAll(rs) + (Enc32(r.kind) + Enc32(|r.payload|)) + r.payload
    ensures after == head + EncodedAll(rs + [r])
  {
    EncodedSnoc(rs, r);
    Reassociated(head, EncodedAll(rs), Enc32(r.kind), Enc32(|r.payload|), r.payload);
  }

  // ------------------------------------------------------------------- writer

  class EventLogWriter {
    /** What is on disk, and what is still buffered. */
    var file: seq<byte>
    var buf: seq<byte>
    var isOpen: bool
    ghost var written: seq<Record>

    /** While open, disk then buffer is exactly the header and the framed records, and
        the disk holds nothing or at least the header; once closed, all is on disk. */
    ghost predicate Valid()
      reads this
    {
      && file + (if isOpen then buf else []) == Header() + EncodedAll(written)
      && (file == [] || |file| >= HEADER_SIZE)
      && forall r :: r in written ==> WfRecord(r)
    }

    constructor ()
      ensures Valid() && isOpen && written == []
    {
      file, buf, isOpen, written := [], Header(), true, [];
    }

    method Flush()
      modifies this`file, this`buf
      ensures file + buf == old(file + buf)
      ensures isOpen ==> buf == []
      ensures !isOpen ==> file == old(file)
      ensures file == old(file) || file == old(file) + old(buf)
    {
      if isOpen && buf != [] {
        file := file + buf;
        buf := [];
      }
    }

    method Append(bytes: seq<byte>)
      modifies this`file, this`buf
      ensures file + buf == old(file) + old(buf) + bytes
      ensures file == old(file) || (isOpen && |file| >= |old(file)| + |old(buf)| + |bytes|)
    {
      buf := buf + bytes;
      assert file + buf == old(file) + old(buf) + bytes;
      if |buf| >= FLUSH_THRESHOLD { Flush(); }
    }

    /** Frame and append one record; the buffer may be written out in between. After
        Close nothing reaches the disk any more. */
    method WriteRecord(r: Record)
      requires Valid() && WfRecord(r)
      modifies this
      ensures Valid() && isOpen == old(isOpen)
      ensures written == old(written) + if isOpen then [r] else []
      ensures !isOpen ==> file == old(file)
    {
      ghost var before := file + buf;
      Append(Enc32(r.kind) + Enc32(|r.payload|));
      Append(r.payload);
      if isOpen {
        StreamExtends(Header(), file + buf, written, r);
        written := written + [r];
      }
    }

    method Close()
      requires Valid()
      modifies this
      ensures Valid() && !isOpen && written == old(written)
      ensures file == Header() + EncodedAll(written)
    {
      if isOpen {
        Flush();
        assert file + buf == file;
      }
      isOpen := false;
    }
  }

  // ------------------------------------------------------------------- reader

  /** What one call of the reader finds at the front of s: nothing more, or an
      event or decision payload and what follows it. Other records are skipped by
      their length. */
  datatype Item = End | Item(kind: nat, payload: seq<byte>, rest: seq<byte>)

  function NextItem(s: seq<byte>): (r: Item)
    ensures r.Item? ==> |r.rest| < |s|
    decreases |s|
  {
    if |s| < 8 then End
    else
      var kind, len, body := Dec32(s[..4]), Dec32(s[4..8]), s[8..];
      if kind == REC_EVENT || kind == REC_DECISION then
        if |body| < SizeOf(kind) then End else Item(kind, body[..SizeOf(kind)], body[SizeOf(kind)..])
      else if |body| < len then End
      else NextItem(body[len..])
  }

  /** The event payloads that reading to the end yields. */
  function EventsRead(s: seq<byte>): seq<seq<byte>>
    decreases |s|
  {
    var i := NextItem(s);
    if i.End? then [] else (if i.kind == REC_EVENT then [i.payload] else []) + EventsRead(i.rest)
  }

  lemma ReadUnfolds(s: seq<byte>, kind: nat, payload: seq<byte>, rest: seq<byte>, events: seq<seq<byte>>)
    requires NextItem(s) == Item(kind, payload, rest)
    ensures events + EventsRead(s)
         == (if kind == REC_EVENT then events + [payload] else events) + EventsRead(rest)
  {
    assert EventsRead(s) == (if kind == REC_EVENT then [payload] else []) + EventsRead(rest);
  }

  class EventLogReader {
    const file: seq<byte>
    var pos: nat

    constructor (file: seq<byte>)
      ensures this.file == file && pos == 0
    {
      this.file, pos := file, 0;
    }

    ghost function Rest(): seq<byte>
      reads this
    {
      if pos <= |file| then file[pos..] else []
    }

    method Fread(n: nat) returns (bytes: seq<byte>)
      modifies this`pos
      ensures |bytes| == if n <= |old(Rest())| then n else |old(Rest())|
      ensures bytes == old(Rest())[..|bytes|]
      ensures Rest() == old(Rest())[|bytes|..]
    {
      if |file| <= pos { return []; }
      var k := if n <= |file| - pos then n else |file| - pos;
      bytes := file[pos..pos + k];
      pos := pos + k;
    }

    /** Open: read and validate the file header. */
    method Open() returns (ok: bool)
      requires pos == 0
      modifies this`pos
      ensures ok <==> |file| >= HEADER_SIZE && file[..HEADER_SIZE] == Header()
      ensures ok ==> Rest() == file[HEADER_SIZE..]
    {
      var h := Fread(HEADER_SIZE);
      ok := |h| == HEADER_SIZE && h == Header();
    }

    method Next() returns (ok: bool, kind: nat, payload: seq<byte>)
      modifies this`pos
      ensures ok <==> NextItem(old(Rest())).Item?
      ensures ok ==> NextItem(old(Rest())) == Item(kind, payload, Rest())
      decreases |Rest()|
    {
      ghost var s := Rest();
      var hdr := Fread(8);
      if |hdr| != 8 { return false, 0, []; }
      kind := Dec32(hdr[..4]);
      var len := Dec32(hdr[4..8]);
      ghost var body := Rest();
      assert hdr[..4] == s[..4] && hdr[4..8] == s[4..8] && body == s[8..];
      if kind == REC_EVENT || kind == REC_DECISION {
        payload := Fread(SizeOf(kind));
        return |payload| == SizeOf(kind), kind, payload;
      }
      pos := pos + len;
      assert Rest() == if len <= |body| then body[len..] else [];
      ok, kind, payload := Next();
    }

    /** Read the whole log and keep the event records. */
    method ReadLogEvents() returns (events: seq<seq<byte>>)
      modifies this`pos
      ensures events == EventsRead(old(Rest()))
    {
      events := [];
      ghost var s := Rest();
      var ok, kind, payload := Next();
      ghost var before := s;
      while ok
        invariant events + EventsRead(before) == EventsRead(s)
        invariant ok <==> NextItem(before).Item?
        invariant ok ==> NextItem(before) == Item(kind, payload, Rest())
        decreases |before|
      {
        ReadUnfolds(before, kind, payload, Rest(), events);
        if kind == REC_EVENT { events := events + [payload]; }
        before := Rest();
        ok, kind, payload := Next();
      }
    }
  }

  // --------------------------------------------------------------- round trip

  /** The payloads of the event records, in order. */
  function EventPayloads(rs: seq<Record>): seq<seq<byte>> {
    if rs == [] then []
    else (if rs[0].kind == REC_EVENT then [rs[0].payload] else []) + EventPayloads(rs[1..])
  }

  /** A record in full: the reader takes it and goes on behind it. */
  lemma ReadsWhole(r: Record, t: seq<byte>)
    requires WfRecord(r)
    ensures EventsRead(Encoded(r) + t) == EventPayloads([r]) + EventsRead(t)
  {
    var s := Encoded(r) + t;
    Word32RoundTrip(r.kind);
    Word32RoundTrip(|r.payload|);
    assert s[..4] == Enc32(r.kind) && s[4..8] == Enc32(|r.payload|);
    assert s[8..] == r.payload + t;
    assert (r.payload + t)[..|r.payload|] == r.payload && (r.payload + t)[|r.payload|..] == t;
    assert [r][1..] == [];
  }

  /** A record cut short anywhere: the reader stops and returns nothing of it. */
  lemma StopsAtCut(r: Record, k: nat)
    requires WfRecord(r) && k < |Encoded(r)|
    ensures EventsRead(Encoded(r)[..k]) == []
  {
    var s := Encoded(r)[..k];
    Word32RoundTrip(r.kind);
    Word32RoundTrip(|r.payload|);
    if k >= 8 {
      assert s[..4] == Enc32(r.kind) && s[4..8] == Enc32(|r.payload|);
    }
  }

  /** The number of whole records in the first k bytes. */
  function WholeRecords(rs: seq<Record>, k: nat): (n: nat)
    ensures n <= |rs|
  {
    if rs == [] || k < |Encoded(rs[0])| then 0 else 1 + WholeRecords(rs[1..], k - |Encoded(rs[0])|)
  }

  /** The count is right: that many records fit in k bytes, and one more does not. */
  lemma {:induction false} WholeRecordsFit(rs: seq<Record>, k: nat)
    ensures |EncodedAll(rs[..WholeRecords(rs, k)])| <= k
    ensures WholeRecords(rs, k) < |rs| ==> k < |EncodedAll(rs[..WholeRecords(rs, k) + 1])|
  {
    if rs != [] {
      if k < |Encoded(rs[0])| {
        assert rs[..1] == [rs[0]] && [rs[0]][1..] == [];
      } else {
        var j, n := k - |Encoded(rs[0])|, WholeRecords(rs, k);
        WholeRecordsFit(rs[1..], j);
        assert rs[..n][1..] == rs[1..][..n - 1];
        if n < |rs| {
          assert rs[..n + 1][1..] == rs[1..][..n];
        }
      }
    }
  }

  /** Crash consistency: whatever byte the log was cut at, reading it yields exactly
      the events of the records wholly before the cut. */
  lemma {:induction false} CutLogReads(rs: seq<Record>, k: nat)
    requires forall r :: r in rs ==> WfRecord(r)
    requires k <= |EncodedAll(rs)|
    ensures EventsRead(EncodedAll(rs)[..k]) == EventPayloads(rs[..WholeRecords(rs, k)])
  {
    if rs != [] {
      var r, all := rs[0], EncodedAll(rs);
      if k < |Encoded(r)| {
        StopsAtCut(r, k);
        assert all[..k] == Encoded(r)[..k];
      } else {
        var j, n := k - |Encoded(r)|, WholeRecords(rs, k);
        CutLogReads(rs[1..], j);
        assert all[..k] == Encoded(r) + EncodedAll(rs[1..])[..j];
        ReadsWhole(r, EncodedAll(rs[1..])[..j]);
        assert rs[..n][1..] == rs[1..][..n - 1];
        assert [r][1..] == [];
      }
    }
  }

  lemma {:induction false} AllRecordsFit(rs: seq<Record>)
    ensures WholeRecords(rs, |EncodedAll(rs)|) == |rs|
  {
    if rs != [] { AllRecordsFit(rs[1..]); }
  }

  /** A closed log reads back exactly the events written, in order. */
  lemma ClosedLogRoundTrip(rs: seq<Record>)
    requires forall r :: r in rs ==> WfRecord(r)
    ensures EventsRead(EncodedAll(rs)) == EventPayloads(rs)
  {
    AllRecordsFit(rs);
    CutLogReads(rs, |EncodedAll(rs)|);
    assert EncodedAll(rs)[..|EncodedAll(rs)|] == EncodedAll(rs) && rs[..|rs|] == rs;
  }

  /** Read back what a writer left behind, at any moment and after any further loss of
      bytes from the end: the header check fails, or the events of the whole records
      come back, a prefix of all; nothing is lost if the writer had been closed. */
  method Recover(w: EventLogWriter, cut: nat) returns (ok: bool, events: seq<seq<byte>>)
    requires w.Valid() && cut <= |w.file|
    ensures ok <==> cut >= HEADER_SIZE
    ensures ok ==> events == EventPayloads(w.written[..WholeRecords(w.written, cut - HEADER_SIZE)])
    ensures events <= EventPayloads(w.written)
    ensures ok && !w.isOpen && cut == |w.file| ==> events == EventPayloads(w.written)
  {
    CutFile(Header(), w.file, if w.isOpen then w.buf else [], w.written, cut);
    var reader := new EventLogReader(w.file[..cut]);
    events := [];
    ok := reader.Open();
    if ok {
      events := reader.ReadLogEvents();
      CutEvents(w.written, cut - HEADER_SIZE);
    }
  }

  /** Where the bytes of a cut file come from. */
  lemma CutFile(head: seq<byte>, file: seq<byte>, buf: seq<byte>, rs: seq<Record>, cut: nat)
    requires file + buf == head + EncodedAll(rs)
    requires cut <= |file|
    ensures cut >= |head| ==> cut - |head| <= |EncodedAll(rs)|
    ensures cut >= |head| ==> file[..cut][..|head|] == head
    ensures cut >= |head| ==> file[..cut][|head|..] == EncodedAll(rs)[..cut - |head|]
  {
    assert file[..cut] == (file + buf)[..cut];
  }

  lemma CutEvents(rs: seq<Record>, k: nat)
    requires forall r :: r in rs ==> WfRecord(r)
    requires k <= |EncodedAll(rs)|
    ensures EventsRead(EncodedAll(rs)[..k]) == EventPayloads(rs[..WholeRecords(rs, k)]) <= EventPayloads(rs)
    ensures k == |EncodedAll(rs)| ==> EventsRead(EncodedAll(rs)[..k]) == EventPayloads(rs)
  {
    CutLogReads(rs, k);
    PrefixPayloads(rs, WholeRecords(rs, k));
    if k == |EncodedAll(rs)| {
      ClosedLogRoundTrip(rs);
      assert EncodedAll(rs)[..k] == EncodedAll(rs);
    }
  }

  lemma {:induction false} PrefixPayloads(rs: seq<Record>, n: nat)
    requires n <= |rs|
    ensures EventPayloads(rs[..n]) <= EventPayloads(rs)
  {
    if n > 0 {
      PrefixPayloads(rs[1..], n - 1);
      assert rs[..n][1..] == rs[1..][..n - 1];
    }
  }
}
