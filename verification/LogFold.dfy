/** The log fold: records numbered from one, read in bounded pages after a cursor. */
module LogFold {
  import opened Wrappers

  type Bytes = seq<bv8>

  datatype LogRecord = LogRecord(seqNo: int, payload: Bytes)

  datatype ReadReq = ReadReq(cursorSeq: int, maxRecords: Option<int>, maxBytes: Option<int>)

  datatype ReadResult = Data(records: seq<LogRecord>, nextCursorSeq: int) | WouldBlock(nextCursorSeq: int)

  ghost predicate Numbered(records: seq<LogRecord>) {
    forall i :: 0 <= i < |records| ==> records[i].seqNo == i + 1
  }

  /** The position after the last record a cursor covers. */
  function Covered(cursor: int, n: nat): (i: nat)
    ensures i <= n
  {
    if cursor <= 0 then 0 else if cursor <= n then cursor else n
  }

  /** The records after the cursor. */
  function Pending(records: seq<LogRecord>, cursor: int): seq<LogRecord> {
    records[Covered(cursor, |records|)..]
  }

  function Size(records: seq<LogRecord>): nat {
    if records == [] then 0 else Size(records[..|records| - 1]) + |records[|records| - 1].payload|
  }

  /** A page of the first `n` pending records respects both bounds; a single record is never too big. */
  predicate Fits(pending: seq<LogRecord>, n: nat, maxRecords: Option<int>, maxBytes: Option<int>)
    requires n <= |pending|
  {
    && (maxRecords.Some? && n > 0 ==> n <= maxRecords.value)
    && (maxBytes.Some? && n > 1 ==> Size(pending[..n]) <= maxBytes.value)
  }

  /** `page` is the longest run of pending records that fits. */
  ghost predicate IsPage(pending: seq<LogRecord>, page: seq<LogRecord>, maxRecords: Option<int>,
                         maxBytes: Option<int>) {
    && page <= pending && Fits(pending, |page|, maxRecords, maxBytes)
    && forall n :: |page| < n <= |pending| ==> !Fits(pending, n, maxRecords, maxBytes)
  }

  lemma {:induction false} SizeGrows(records: seq<LogRecord>, n: nat, m: nat)
    requires n <= m <= |records|
    ensures Size(records[..n]) <= Size(records[..m])
  {
    if n < m {
      SizeGrows(records, n, m - 1);
      assert records[..m][..m - 1] == records[..m - 1];
    }
  }

  /** The record at which a page stops keeps every longer page from fitting. */
  lemma StopsHere(pending: seq<LogRecord>, k: nat, maxRecords: Option<int>, maxBytes: Option<int>)
    requires k < |pending| && !Fits(pending, k + 1, maxRecords, maxBytes)
    ensures forall n :: k < n <= |pending| ==> !Fits(pending, n, maxRecords, maxBytes)
  {
    forall n | k < n <= |pending| ensures !Fits(pending, n, maxRecords, maxBytes) {
      SizeGrows(pending, k + 1, n);
    }
  }

  class LogBuffer {
    var records: seq<LogRecord>

    ghost predicate Valid()
      reads this
    {
      Numbered(records)
    }

    constructor ()
      ensures Valid() && records == []
    {
      records := [];
    }

    method Push(payload: Bytes) returns (rec: LogRecord)
      requires Valid()
      modifies this
      ensures Valid() && rec == LogRecord(|old(records)| + 1, payload) && records == old(records) + [rec]
    {
      rec := LogRecord(|records| + 1, payload);
      records := records + [rec];
    }

    /** The longest page after the cursor that both bounds allow, and the cursor to continue from. */
    method Read(req: ReadReq) returns (r: ReadResult)
      requires Valid()
      ensures r.Data?
              ==> r.records != [] && IsPage(Pending(records, req.cursorSeq), r.records, req.maxRecords, req.maxBytes)
      ensures r.Data? ==> r.nextCursorSeq == Covered(req.cursorSeq, |records|) + |r.records|
      ensures r.WouldBlock? ==> IsPage(Pending(records, req.cursorSeq), [], req.maxRecords, req.maxBytes)
      ensures r.WouldBlock? ==> r.nextCursorSeq == req.cursorSeq
    {
      var out: seq<LogRecord>, bytes := [], 0;
      ghost var from := Covered(req.cursorSeq, |records|);
      ghost var pending := Pending(records, req.cursorSeq);
      var i := 0;
      while i < |records|
        invariant 0 <= i <= |records|
        invariant i <= from ==> out == []
        invariant i > from ==> out == pending[..i - from]
        invariant bytes == Size(out) && Fits(pending, |out|, req.maxRecords, req.maxBytes)
      {
        var rec := records[i];
        if rec.seqNo <= req.cursorSeq { i := i + 1; continue; }
        assert pending[..|out| + 1] == out + [rec];
        assert (out + [rec])[..|out|] == out;
        if req.maxRecords.Some? && |out| >= req.maxRecords.value {
          StopsHere(pending, |out|, req.maxRecords, req.maxBytes);
          break;
        }
        if req.maxBytes.Some? && |out| > 0 && bytes + |rec.payload| > req.maxBytes.value {
          StopsHere(pending, |out|, req.maxRecords, req.maxBytes);
          break;
        }
        out := out + [rec];
        bytes := bytes + |rec.payload|;
        i := i + 1;
      }
      if out != [] {
        assert out[|out| - 1] == pending[|out| - 1];
        r := Data(out, out[|out| - 1].seqNo);
      } else {
        r := WouldBlock(req.cursorSeq);
      }
    }
  }

  // ---- what a page is -------------------------------------------------------------------------

  lemma {:induction false} SizeConcat(a: seq<LogRecord>, b: seq<LogRecord>)
    ensures Size(a + b) == Size(a) + Size(b)
    ensures |a| == 1 ==> Size(a) == |a[0].payload|
  {
    if |a| == 1 { assert a[..0] == []; }
    if b == [] {
      assert a + b == a;
    } else {
      assert (a + b)[..|a + b| - 1] == a + b[..|b| - 1];
      SizeConcat(a, b[..|b| - 1]);
    }
  }

  /** A page holds no more records than allowed, and no more bytes unless it is a single record; and the next record
      would have been one too many. */
  lemma PageBounds(pending: seq<LogRecord>, page: seq<LogRecord>, maxRecords: Option<int>, maxBytes: Option<int>)
    requires IsPage(pending, page, maxRecords, maxBytes)
    ensures page <= pending
    ensures maxRecords.Some? && page != [] ==> |page| <= maxRecords.value
    ensures maxBytes.Some? && |page| > 1 ==> Size(page) <= maxBytes.value
    ensures |page| < |pending|
            ==> || (maxRecords.Some? && maxRecords.value <= |page|)
                || (maxBytes.Some? && page != [] && maxBytes.value < Size(page) + |pending[|page|].payload|)
  {
    assert page == pending[..|page|];
    if |page| < |pending| {
      var next := pending[|page|];
      assert !Fits(pending, |page| + 1, maxRecords, maxBytes);
      assert pending[..|page| + 1] == page + [next];
      SizeConcat(page, [next]);
      SizeConcat([next], []);
    }
  }

  /** What is pending are the records numbered above the cursor, in order. */
  lemma PendingExactly(records: seq<LogRecord>, cursor: int, k: nat)
    requires Numbered(records) && k < |records|
    ensures records[k] in Pending(records, cursor) <==> cursor < records[k].seqNo
    ensures Pending(records, cursor) == records[|records| - |Pending(records, cursor)|..]
  {
    var from, pending := Covered(cursor, |records|), Pending(records, cursor);
    if from <= k { assert pending[k - from] == records[k]; }
    if records[k] in pending {
      var j :| 0 <= j < |pending| && pending[j] == records[k];
      assert records[from + j] == records[k];
    }
  }

  // ---- catching up ---------------------------------------------------------------------------

  /** A read delivers nothing exactly when nothing is pending or the caller allows no record. */
  lemma BlocksExactly(pending: seq<LogRecord>, page: seq<LogRecord>, maxRecords: Option<int>, maxBytes: Option<int>)
    requires IsPage(pending, page, maxRecords, maxBytes)
    ensures page == [] <==> pending == [] || (maxRecords.Some? && maxRecords.value < 1)
  {
    if page == [] && pending != [] {
      assert !Fits(pending, 1, maxRecords, maxBytes);
    }
  }

  /** What happens at a reader and its buffer: a record is pushed, or a page is read. */
  datatype Event = Pushed(payload: Bytes) | Paged(page: seq<LogRecord>, maxRecords: Option<int>, maxBytes: Option<int>)

  datatype Reader = Reader(records: seq<LogRecord>, cursor: int, delivered: seq<LogRecord>)

  /** One event, the next cursor fed back after each page. */
  ghost predicate Follows(s: Reader, e: Event, t: Reader) {
    match e
    case Pushed(payload) => t == s.(records := s.records + [LogRecord(|s.records| + 1, payload)])
    case Paged(page, maxRecords, maxBytes) =>
      && IsPage(Pending(s.records, s.cursor), page, maxRecords, maxBytes)
      && t == Reader(s.records, if page == [] then s.cursor
          else Covered(s.cursor, |s.records|) + |page|, s.delivered + page)
  }

  ghost predicate Run(states: seq<Reader>, events: seq<Event>) {
    && |states| == |events| + 1 && Numbered(states[0].records) && states[0].delivered == []
    && forall k :: 0 <= k < |events| ==> Follows(states[k], events[k], states[k + 1])
  }

  /** Everything after `from` that the reader's cursor covers was delivered. */
  ghost predicate Delivered(s: Reader, from: int) {
    from <= s.cursor && (s.cursor == from || s.cursor <= |s.records|)
    && s.delivered == s.records[Covered(from, |s.records|)..Covered(s.cursor, |s.records|)]
  }

  lemma StepDelivers(s: Reader, e: Event, t: Reader, from: int)
    requires Follows(s, e, t) && Delivered(s, from)
    ensures Delivered(t, from)
  {
    var n := |s.records|;
    var a, b := Covered(from, n), Covered(s.cursor, n);
    match e
    case Pushed(_) =>
      assert t.records[a..b] == s.records[a..b];
    case Paged(page, _, _) =>
      assert page == s.records[b..][..|page|] == s.records[b..b + |page|];
      assert s.records[a..b] + s.records[b..b + |page|] == s.records[a..b + |page|];
  }

  /** Whatever the interleaving and the bounds, what was delivered is exactly the records after the start
      cursor up to the current one, each once and in order. */
  lemma {:induction false} DeliveredOnceInOrder(states: seq<Reader>, events: seq<Event>)
    requires Run(states, events)
    ensures var first, last := states[0], states[|events|];
            Numbered(last.records) && first.records <= last.records && Delivered(last, first.cursor)
    decreases |events|
  {
    if events != [] {
      var k := |events| - 1;
      DeliveredOnceInOrder(states[..k + 1], events[..k]);
      assert Follows(states[k], events[k], states[k + 1]);
      assert states[k] == states[..k + 1][|events[..k]|];
      StepDelivers(states[k], events[k], states[k + 1], states[0].cursor);
    }
  }

  /** Reading until the buffer blocks: with at least one record allowed per page this ends, having
      delivered everything pending. */
  lemma {:induction false} Drained(s: Reader, maxRecords: Option<int>, maxBytes: Option<int>)
    returns (states: seq<Reader>, events: seq<Event>)
    requires Numbered(s.records) && s.delivered == []
    requires maxRecords.None? || 1 <= maxRecords.value
    ensures Run(states, events) && states[0] == s && |events| <= |Pending(s.records, s.cursor)|
    ensures forall k :: 0 <= k < |events| ==> events[k].Paged? && events[k].page != []
    ensures Pending(s.records, states[|events|].cursor) == []
    ensures states[|events|].delivered == Pending(s.records, s.cursor)
  {
    states, events := [s], [];
    var last := s;
    while Pending(s.records, last.cursor) != []
      invariant Run(states, events) && states[0] == s && last == states[|events|] && last.records == s.records
      invariant |events| + |Pending(s.records, last.cursor)| <= |Pending(s.records, s.cursor)|
      invariant forall k :: 0 <= k < |events| ==> events[k].Paged? && events[k].page != []
      decreases |Pending(s.records, last.cursor)|
    {
      var page := PageExists(Pending(s.records, last.cursor), maxRecords, maxBytes);
      BlocksExactly(Pending(s.records, last.cursor), page, maxRecords, maxBytes);
      var e := Paged(page, maxRecords, maxBytes);
      var next := Reader(s.records, Covered(last.cursor, |s.records|) + |page|, last.delivered + page);
      assert Follows(last, e, next);
      states, events, last := states + [next], events + [e], next;
    }
    DeliveredOnceInOrder(states, events);
  }

  lemma PageExists(pending: seq<LogRecord>, maxRecords: Option<int>, maxBytes: Option<int>)
    returns (page: seq<LogRecord>)
    ensures IsPage(pending, page, maxRecords, maxBytes)
  {
    var n := 0;
    while n < |pending| && Fits(pending, n + 1, maxRecords, maxBytes)
      invariant n <= |pending| && Fits(pending, n, maxRecords, maxBytes)
    {
      n := n + 1;
    }
    page := pending[..n];
    if n < |pending| { StopsHere(pending, n, maxRecords, maxBytes); }
  }
}
