/** A mounted log: every landed operation is announced in exactly one delta, from which a consumer can
    keep the whole, whatever order operations arrive in. */
module LogInstance {
  import opened Wrappers
  import opened Orders
  import opened TextOps
  import opened Store
  import opened LogFold

  type LogOp = StoredOp<Bytes>

  /** The replicas' common order: lamport, then origin, then sequence. */
  predicate Before(a: LogOp, b: LogOp) {
    a.lamport < b.lamport
    || (a.lamport == b.lamport && (StringLess(a.origin, b.origin) || (a.origin == b.origin && a.seqNo < b.seqNo)))
  }

  lemma BeforeOrders()
    ensures StrictOrder(Before)
  {
    StringLessTotal();
  }

  lemma KeysComparable(ops: seq<LogOp>)
    requires UniqueKeys(ops)
    ensures Comparable(ops, Before)
  {
    StringLessTotal();
    forall i, j | 0 <= i < j < |ops| ensures Before(ops[i], ops[j]) || Before(ops[j], ops[i]) {
      assert Key(ops[i]) != Key(ops[j]);
    }
  }

  /** The operations in the common order. */
  function SortedOps(ops: seq<LogOp>): seq<LogOp> { Sort(ops, Before) }

  lemma SortedDescribed(ops: seq<LogOp>)
    requires UniqueKeys(ops)
    ensures Ascending(SortedOps(ops), Before) && Elements(SortedOps(ops)) == Elements(ops)
    ensures |SortedOps(ops)| == |ops| && UniqueKeys(SortedOps(ops)) && KeysOf(SortedOps(ops)) == KeysOf(ops)
  {
    var sorted := SortedOps(ops);
    BeforeOrders();
    KeysComparable(ops);
    SortSorted(ops, Before);
    AscendingNoDuplicates(sorted, Before);
    forall i, j | 0 <= i < j < |sorted| ensures Key(sorted[i]) != Key(sorted[j]) {
      assert sorted[i] in Elements(ops) && sorted[j] in Elements(ops);
      var k, m :| 0 <= k < |ops| && 0 <= m < |ops| && ops[k] == sorted[i] && ops[m] == sorted[j];
      assert k != m;
    }
    SameKeys(sorted, ops);
  }

  /** Replicas holding the same operations show the same log, whatever order they arrived in. */
  lemma ReplicasAgree(a: seq<LogOp>, b: seq<LogOp>)
    requires UniqueKeys(a) && UniqueKeys(b) && Elements(a) == Elements(b)
    ensures SortedOps(a) == SortedOps(b)
  {
    SortedDescribed(a);
    SortedDescribed(b);
    BeforeOrders();
    AscendingUnique(SortedOps(a), SortedOps(b), Before);
  }

  /** One record per operation, numbered in order. */
  function Records(ops: seq<LogOp>): (r: seq<LogRecord>)
    ensures |r| == |ops| && forall i :: 0 <= i < |r| ==> r[i] == LogRecord(i + 1, ops[i].payload)
  {
    seq(|ops|, i requires 0 <= i < |ops| => LogRecord(i + 1, ops[i].payload))
  }

  /** Ascending by lamport, then by origin, then by sequence. */
  ghost predicate LogOrdered(ops: seq<LogOp>) {
    forall i, j :: 0 <= i < j < |ops| ==>
      || ops[i].lamport < ops[j].lamport
      || (ops[i].lamport == ops[j].lamport && StringLess(ops[i].origin, ops[j].origin))
      || (ops[i].lamport == ops[j].lamport && ops[i].origin == ops[j].origin && ops[i].seqNo < ops[j].seqNo)
  }

  /** `whole` numbers what is stored from 1 on, in that order. */
  ghost predicate Lists(whole: seq<LogRecord>, stored: seq<LogOp>) {
    exists ops: seq<LogOp> :: ListsAs(whole, stored, ops)
  }

  ghost predicate ListsAs(whole: seq<LogRecord>, stored: seq<LogOp>, ops: seq<LogOp>) {
    && multiset(ops) == multiset(stored) && LogOrdered(ops) && |whole| == |ops|
    && forall i :: 0 <= i < |ops| ==> whole[i] == LogRecord(i + 1, ops[i].payload)
  }

  /** The records of what is stored are those of a rearrangement of it, by lamport, origin and sequence. */
  lemma WholeLists(stored: seq<LogOp>)
    requires UniqueKeys(stored)
    ensures Lists(Records(SortedOps(stored)), stored)
  {
    SortedDescribed(stored);
    SortPermutes(stored, Before);
    assert ListsAs(Records(SortedOps(stored)), stored, SortedOps(stored));
  }

  /** What carries the highest lamport is listed last. */
  lemma LastListed(whole: seq<LogRecord>, stored: seq<LogOp>, op: LogOp)
    requires Lists(whole, stored + [op]) && forall i :: 0 <= i < |stored| ==> stored[i].lamport < op.lamport
    ensures |whole| == |stored| + 1 && whole[|stored|] == LogRecord(|stored| + 1, op.payload)
  {
    var ops: seq<LogOp> :| ListsAs(whole, stored + [op], ops);
    assert |multiset(ops)| == |multiset(stored + [op])|;
    assert op in multiset(stored + [op]) && op in multiset(ops);
    var i :| 0 <= i < |ops| && ops[i] == op;
    var last := ops[|ops| - 1];
    assert last in multiset(ops);
    assert last in stored + [op];
    if last in stored { Outranked(stored, op.lamport, last); }
  }

  lemma Outranked(held: seq<LogOp>, n: int, x: LogOp)
    requires x in held && forall i :: 0 <= i < |held| ==> held[i].lamport < n
    ensures x.lamport < n
  {
  }

  function Payloads(ops: seq<LogOp>): (r: seq<Bytes>)
    ensures |r| == |ops| && forall i :: 0 <= i < |r| ==> r[i] == ops[i].payload
  {
    seq(|ops|, i requires 0 <= i < |ops| => ops[i].payload)
  }

  function KeysOf(ops: seq<LogOp>): set<(string, int)> {
    set i | 0 <= i < |ops| :: Key(ops[i])
  }

  /** The records, in order, of the first `n` operations whose identity is not in `emitted`. */
  function NewRecords(ops: seq<LogOp>, emitted: set<(string, int)>, n: nat): seq<LogRecord>
    requires n <= |ops|
  {
    if n == 0 then []
    else
      NewRecords(ops, emitted, n - 1)
      + (if Key(ops[n - 1]) in emitted then [] else [LogRecord(n, ops[n - 1].payload)])
  }

  datatype LogEvent = LogDelta(baseSeq: int, delta: seq<LogRecord>, whole: seq<LogRecord>)

  datatype LogState = LogState(ops: seq<LogOp>, emitted: set<(string, int)>)

  /** Every announced operation is held, and none is held twice. */
  ghost predicate Proper(s: LogState) {
    UniqueKeys(s.ops) && s.emitted <= KeysOf(s.ops)
  }

  /** The delta that announces everything held but not announced. */
  function DeltaOf(ops: seq<LogOp>, emitted: set<(string, int)>): LogEvent
    requires |SortedOps(ops)| == |ops|
  {
    LogDelta(|emitted|, NewRecords(SortedOps(ops), emitted, |ops|), Records(SortedOps(ops)))
  }

  lemma NewLanded(s: LogState, ops: seq<LogOp>)
    requires Proper(s)
    ensures var all := s.ops + FreshOf(s.ops, ops);
            UniqueKeys(all) && |SortedOps(all)| == |all| && KeysOf(s.ops) <= KeysOf(all)
    ensures forall i :: 0 <= i < |FreshOf(s.ops, ops)| ==> Key(FreshOf(s.ops, ops)[i]) !in KeysOf(s.ops)
  {
    var novel := FreshOf(s.ops, ops);
    FreshDescribed(s.ops, ops);
    SortedDescribed(s.ops + novel);
    KeysConcat(s.ops, novel);
    forall i | 0 <= i < |novel| ensures Key(novel[i]) !in KeysOf(s.ops) {
      assert (s.ops + novel)[|s.ops| + i] == novel[i];
      forall j | 0 <= j < |s.ops| ensures Key(s.ops[j]) != Key(novel[i]) { assert (s.ops + novel)[j] == s.ops[j]; }
    }
  }

  lemma KeysConcat(a: seq<LogOp>, b: seq<LogOp>)
    ensures KeysOf(a + b) == KeysOf(a) + KeysOf(b)
  {
    forall k ensures k in KeysOf(a + b) <==> k in KeysOf(a) + KeysOf(b) {
      if k in KeysOf(a) { var i :| 0 <= i < |a| && Key(a[i]) == k; assert (a + b)[i] == a[i]; }
      if k in KeysOf(b) { var i :| 0 <= i < |b| && Key(b[i]) == k; assert (a + b)[|a| + i] == b[i]; }
    }
  }

  /** The state once `ops` have arrived: the log gains those not held, and when there are any nothing is
      left unannounced. */
  ghost function Landing(s: LogState, ops: seq<LogOp>): LogState {
    var all := s.ops + FreshOf(s.ops, ops);
    LogState(all, if FreshOf(s.ops, ops) == [] then s.emitted else KeysOf(all))
  }

  /** One delta when anything landed. */
  ghost function Announced(s: LogState, ops: seq<LogOp>): seq<LogEvent>
    requires Proper(s)
  {
    NewLanded(s, ops);
    if FreshOf(s.ops, ops) == [] then [] else [DeltaOf(s.ops + FreshOf(s.ops, ops), s.emitted)]
  }

  /** One event was broadcast, and its whole ends with the record of `op`, which its delta announces. */
  ghost predicate AnnouncedLast(was: seq<LogEvent>, now: seq<LogEvent>, stored: seq<LogOp>, op: LogOp) {
    && |now| == |was| + 1 && now[..|was|] == was
    && var e := now[|was|];
       && Lists(e.whole, stored + [op]) && |e.whole| == |stored| + 1
       && e.whole[|stored|] == LogRecord(|stored| + 1, op.payload) && e.whole[|stored|] in e.delta
  }

  /** A new operation that outranks everything held is announced as the last of the whole. */
  lemma WrittenLast(s: LogState, was: seq<LogEvent>, now: seq<LogEvent>, op: LogOp)
    requires Proper(s) && NextLamport(s.ops, op.lamport) && !HasKey(s.ops, Key(op))
    requires now == was + Announced(s, [op])
    ensures AnnouncedLast(was, now, s.ops, op)
  {
    var all := s.ops + [op];
    OneFresh(s.ops, op);
    NewLanded(s, [op]);
    WholeLists(all);
    LastListed(Records(SortedOps(all)), s.ops, op);
    LastAnnounced(s, op);
  }

  lemma OneFresh(held: seq<LogOp>, op: LogOp)
    requires !HasKey(held, Key(op))
    ensures FreshOf(held, [op]) == [op]
  {
    assert [op][..0] == [] && FreshOf(held, []) == [];
  }

  lemma LastAnnounced(s: LogState, op: LogOp)
    requires Proper(s) && NextLamport(s.ops, op.lamport) && UniqueKeys(s.ops + [op])
    ensures |SortedOps(s.ops + [op])| == |s.ops| + 1
    ensures LogRecord(|s.ops| + 1, op.payload) in DeltaOf(s.ops + [op], s.emitted).delta
  {
    var sorted, n := SortedOps(s.ops + [op]), |s.ops|;
    LastSorted(s.ops, op);
    NewKeyed(s, op);
    NewRecordsExact(sorted, s.emitted, n + 1, LogRecord(n + 1, op.payload));
  }

  lemma LastSorted(held: seq<LogOp>, op: LogOp)
    requires NextLamport(held, op.lamport) && UniqueKeys(held + [op])
    ensures |SortedOps(held + [op])| == |held| + 1 && SortedOps(held + [op])[|held|] == op
  {
    var all := held + [op];
    var sorted := SortedOps(all);
    SortedDescribed(all);
    assert all[|held|] == op && op in Elements(sorted);
    var i :| 0 <= i < |sorted| && sorted[i] == op;
    HighestLast(held, op, sorted, i);
  }

  lemma HighestLast(held: seq<LogOp>, op: LogOp, sorted: seq<LogOp>, i: nat)
    requires Ascending(sorted, Before) && Elements(sorted) == Elements(held + [op])
    requires NextLamport(held, op.lamport) && i < |sorted| && sorted[i] == op
    ensures sorted[|sorted| - 1] == op
  {
    var last := sorted[|sorted| - 1];
    assert last in Elements(sorted);
    assert last in held + [op];
    if last in held { Outranked(held, op.lamport, last); }
  }

  lemma NewKeyed(s: LogState, op: LogOp)
    requires Proper(s) && UniqueKeys(s.ops + [op])
    ensures Key(op) !in s.emitted
  {
    var all := s.ops + [op];
    forall i | 0 <= i < |s.ops| ensures Key(s.ops[i]) != Key(op) { assert Key(all[i]) != Key(all[|s.ops|]); }
  }

  class LogInstance {
    const store: MemoryInstanceStore<Bytes>
    const localOrigin: string
    /** The identities already announced. */
    var emitted: set<(string, int)>
    /** The events broadcast so far. */
    var events: seq<LogEvent>

    ghost predicate Valid()
      reads this, store
    {
      store.Valid() && Proper(LogState(store.ops, emitted))
    }

    constructor (store: MemoryInstanceStore<Bytes>, localOrigin: string)
      requires store.Valid()
      ensures Valid() && emitted == {} && events == []
      ensures this.store == store && this.localOrigin == localOrigin
    {
      this.store, this.localOrigin := store, localOrigin;
      emitted, events := {}, [];
    }

    /** At mount, everything persisted counts as announced. */
    method Hydrate()
      requires Valid()
      modifies this`emitted
      ensures Valid() && emitted == KeysOf(store.ops)
    {
      for i := 0 to |store.ops|
        invariant emitted == old(emitted) + KeysOf(store.ops[..i])
      {
        KeysStep(store.ops, i);
        emitted := emitted + {Key(store.ops[i])};
      }
      assert store.ops[..|store.ops|] == store.ops;
    }

    /** The whole a new subscriber is handed. */
    method Refresh() returns (whole: seq<LogRecord>)
      requires Valid()
      ensures whole == Records(SortedOps(store.ops)) && Lists(whole, store.ops)
    {
      WholeLists(store.ops);
      whole := AssembleLog(SortedOps(store.ops));
    }

    /** A local write without connectivity: one operation is minted on top of everything held. */
    method Write(payload: Bytes) returns (op: LogOp)
      requires Valid()
      modifies this, store
      ensures Valid()
      ensures op.origin == localOrigin && op.payload == payload && op.lamport == MaxLamport(old(store.ops)) + 1
      ensures op.seqNo == CountOf(old(store.ops), localOrigin) + 1 && NextLamport(old(store.ops), op.lamport)
      ensures Landed([op])
      ensures !HasKey(old(store.ops), Key(op)) ==> AnnouncedLast(old(events), events, old(store.ops), op)
    {
      ghost var before := store.ops;
      LamportNext(store.ops);
      op := StoredOp(localOrigin, CountOf(store.ops, localOrigin) + 1, MaxLamport(store.ops) + 1, [], payload);
      Land([op]);
      if !HasKey(before, Key(op)) { WrittenLast(old(State()), old(events), events, op); }
    }

    /** Operations from a session: stored unless held, and announced together. */
    method Ingest(ops: seq<LogOp>)
      requires Valid()
      modifies this, store
      ensures Valid() && Landed(ops)
      ensures events != old(events) ==> Lists(events[|events| - 1].whole, store.ops)
    {
      Land(ops);
    }

    ghost function State(): LogState
      reads this, store
    {
      LogState(store.ops, emitted)
    }

    /** What arriving operations do to the instance and what they make it announce. */
    twostate predicate Landed(new ops: seq<LogOp>)
      requires old(Valid())
      reads this, store
    {
      State() == Landing(old(State()), ops) && events == old(events) + Announced(old(State()), ops)
    }

    method Land(ops: seq<LogOp>)
      requires Valid()
      modifies this, store
      ensures Valid() && Landed(ops)
      ensures events != old(events) ==> Lists(events[|events| - 1].whole, store.ops)
    {
      ghost var before := store.ops;
      var landed := false;
      for i := 0 to |ops|
        invariant store.Valid() && store.ops == before + FreshOf(before, ops[..i])
        invariant landed <==> FreshOf(before, ops[..i]) != []
        invariant emitted == old(emitted) && events == old(events)
      {
        assert ops[..i + 1][..i] == ops[..i];
        KeyConcat(before, FreshOf(before, ops[..i]), Key(ops[i]));
        var appended := store.Append(ops[i]);
        if appended { landed := true; }
      }
      assert ops[..|ops|] == ops;
      NewLanded(old(State()), ops);
      assert store.ops + [] == store.ops;
      if landed {
        assert Key(store.ops[|before|]) !in emitted;
        FoldAndBroadcast();
      }
    }

    /** Announces, in one delta, every stored operation not announced before, if there is any. */
    method FoldAndBroadcast()
      requires Valid()
      modifies this
      ensures Valid() && emitted == KeysOf(store.ops) && |SortedOps(store.ops)| == |store.ops|
      ensures events == old(events)
              + (if KeysOf(store.ops) <= old(emitted) then [] else [DeltaOf(store.ops, old(emitted))])
      ensures events != old(events) ==> Lists(events[|events| - 1].whole, store.ops)
    {
      WholeLists(store.ops);
      var ops := SortedOps(store.ops);
      SortedDescribed(store.ops);
      var whole := AssembleLog(ops);
      var baseSeq := |emitted|;
      SomethingNew(store.ops, ops, emitted);
      var delta := CollectNew(ops, whole);
      if delta == [] { return; }
      events := events + [LogDelta(baseSeq, delta, whole)];
    }

    /** Marks every operation emitted, collecting the records of those that were not. */
    method CollectNew(ops: seq<LogOp>, whole: seq<LogRecord>) returns (delta: seq<LogRecord>)
      requires UniqueKeys(ops) && whole == Records(ops)
      modifies `emitted
      ensures emitted == old(emitted) + KeysOf(ops) && delta == NewRecords(ops, old(emitted), |ops|)
    {
      delta := [];
      for i := 0 to |ops|
        invariant emitted == old(emitted) + KeysOf(ops[..i])
        invariant delta == NewRecords(ops, old(emitted), i)
      {
        KeysStep(ops, i);
        var id := Key(ops[i]);
        KeyNotBefore(ops, i);
        if id in emitted { continue; }
        emitted := emitted + {id};
        delta := delta + [whole[i]];
      }
      assert ops[..|ops|] == ops;
    }
  }

  method AssembleLog(ops: seq<LogOp>) returns (whole: seq<LogRecord>)
    ensures whole == Records(ops)
  {
    var buf := new LogBuffer();
    for i := 0 to |ops|
      invariant fresh(buf) && buf.Valid() && buf.records == Records(ops)[..i]
    {
      var rec := buf.Push(ops[i].payload);
    }
    whole := buf.records;
  }

  lemma KeysStep(ops: seq<LogOp>, i: nat)
    requires i < |ops|
    ensures KeysOf(ops[..i + 1]) == KeysOf(ops[..i]) + {Key(ops[i])}
  {
    assert ops[..i + 1] == ops[..i] + [ops[i]];
    KeysConcat(ops[..i], [ops[i]]);
    assert KeysOf([ops[i]]) == {Key(ops[i])} by { assert [ops[i]][0] == ops[i]; }
  }

  lemma SameKeys(a: seq<LogOp>, b: seq<LogOp>)
    requires Elements(a) == Elements(b)
    ensures KeysOf(a) == KeysOf(b)
  {
    forall k ensures k in KeysOf(a) <==> k in KeysOf(b) {
      if k in KeysOf(a) { var i :| 0 <= i < |a| && Key(a[i]) == k; assert a[i] in Elements(b); }
      if k in KeysOf(b) { var i :| 0 <= i < |b| && Key(b[i]) == k; assert b[i] in Elements(a); }
    }
  }

  lemma KeyNotBefore(ops: seq<LogOp>, i: nat)
    requires UniqueKeys(ops) && i < |ops|
    ensures Key(ops[i]) !in KeysOf(ops[..i])
  {
  }

  lemma SomethingNew(ops: seq<LogOp>, sorted: seq<LogOp>, emitted: set<(string, int)>)
    requires UniqueKeys(sorted) && KeysOf(sorted) == KeysOf(ops)
    ensures NewRecords(sorted, emitted, |sorted|) == [] <==> KeysOf(ops) <= emitted
  {
    NewRecordsCount(sorted, emitted, |sorted|);
    assert sorted[..|sorted|] == sorted;
    if KeysOf(ops) <= emitted {
      assert KeysOf(ops) - emitted == {};
    } else {
      var k :| k in KeysOf(ops) && k !in emitted;
      assert k in KeysOf(ops) - emitted;
    }
  }

  lemma NewRecordsStep(ops: seq<LogOp>, emitted: set<(string, int)>, n: nat)
    requires 0 < n <= |ops|
    ensures |NewRecords(ops, emitted, n)|
         == |NewRecords(ops, emitted, n - 1)| + if Key(ops[n - 1]) in emitted then 0 else 1
  {
  }

  lemma OneMoreNew(before: set<(string, int)>, emitted: set<(string, int)>, id: (string, int))
    requires id !in before
    ensures |(before + {id}) - emitted| == |before - emitted| + if id in emitted then 0 else 1
  {
    assert id in emitted ==> (before + {id}) - emitted == before - emitted;
    assert id !in emitted ==> (before + {id}) - emitted == (before - emitted) + {id};
  }

  lemma {:induction false} NewRecordsCount(ops: seq<LogOp>, emitted: set<(string, int)>, n: nat)
    requires UniqueKeys(ops) && n <= |ops|
    ensures |NewRecords(ops, emitted, n)| == |KeysOf(ops[..n]) - emitted|
  {
    if n == 0 {
      assert KeysOf(ops[..0]) - emitted == {};
    } else {
      NewRecordsCount(ops, emitted, n - 1);
      NewRecordsStep(ops, emitted, n);
      NewKeysStep(ops, emitted, n);
    }
  }

  lemma NewKeysStep(ops: seq<LogOp>, emitted: set<(string, int)>, n: nat)
    requires UniqueKeys(ops) && 0 < n <= |ops|
    ensures |KeysOf(ops[..n]) - emitted|
         == |KeysOf(ops[..n - 1]) - emitted| + if Key(ops[n - 1]) in emitted then 0 else 1
  {
    KeysStep(ops, n - 1);
    KeyNotBefore(ops, n - 1);
    OneMoreNew(KeysOf(ops[..n - 1]), emitted, Key(ops[n - 1]));
  }

  // ---- a consumer's copy ------------------------------------------------------------------------

  /** Inserts one announced record at its place. */
  function Place(held: seq<Bytes>, r: LogRecord): seq<Bytes> {
    if 1 <= r.seqNo <= |held| + 1 then held[..r.seqNo - 1] + [r.payload] + held[r.seqNo - 1..] else held + [r.payload]
  }

  /** Inserts a delta's records in ascending order. */
  function Placed(held: seq<Bytes>, delta: seq<LogRecord>): (r: seq<Bytes>)
    ensures |r| == |held| + |delta|
  {
    if delta == [] then held else Place(Placed(held, delta[..|delta| - 1]), delta[|delta| - 1])
  }

  lemma PlaceNext(done: seq<LogOp>, op: LogOp, rest: seq<LogOp>)
    ensures Place(Payloads(done + rest), LogRecord(|done| + 1, op.payload)) == Payloads((done + [op]) + rest)
  {
    assert Payloads(done + rest)[..|done|] == Payloads(done);
    assert Payloads(done + rest)[|done|..] == Payloads(rest);
    assert Payloads((done + [op]) + rest) == Payloads(done) + [op.payload] + Payloads(rest);
  }

  lemma RestrictHead(s: seq<LogOp>, held: set<LogOp>)
    requires s != []
    ensures Restrict(s, held) == (if s[0] in held then [s[0]] else []) + Restrict(s[1..], held)
  {
  }

  /** Placing the new records of the first `n` operations completes those, in front of what was held of
      the rest. */
  lemma {:induction false} PlacedUpTo(whole: seq<LogOp>, held: set<LogOp>, emitted: set<(string, int)>, n: nat)
    requires n <= |whole| && forall i :: 0 <= i < |whole| ==> (whole[i] in held <==> Key(whole[i]) in emitted)
    ensures Placed(Payloads(Restrict(whole, held)), NewRecords(whole, emitted, n))
            == Payloads(whole[..n] + Restrict(whole[n..], held))
  {
    if n == 0 {
      assert whole[..0] + Restrict(whole[0..], held) == Restrict(whole, held) by { assert whole[0..] == whole; }
    } else {
      var k, op, rest := n - 1, whole[n - 1], Restrict(whole[n..], held);
      PlacedUpTo(whole, held, emitted, k);
      RestrictHead(whole[k..], held);
      assert whole[k..][1..] == whole[n..] && whole[..n] == whole[..k] + [op];
      if op in held {
        ShiftOne(whole[..k], op, rest);
        assert NewRecords(whole, emitted, n) == NewRecords(whole, emitted, k);
      } else {
        assert [] + rest == rest;
        PlacedNew(Payloads(Restrict(whole, held)), NewRecords(whole, emitted, k), whole[..k], op, rest);
      }
    }
  }

  lemma ShiftOne(done: seq<LogOp>, op: LogOp, rest: seq<LogOp>)
    ensures done + ([op] + rest) == (done + [op]) + rest
  {
  }

  lemma PlacedNew(held: seq<Bytes>, delta: seq<LogRecord>, done: seq<LogOp>, op: LogOp, rest: seq<LogOp>)
    requires Placed(held, delta) == Payloads(done + rest)
    ensures Placed(held, delta + [LogRecord(|done| + 1, op.payload)]) == Payloads((done + [op]) + rest)
  {
    PlaceNext(done, op, rest);
    PlacedLast(held, delta, LogRecord(|done| + 1, op.payload));
  }

  lemma PlacedLast(held: seq<Bytes>, delta: seq<LogRecord>, r: LogRecord)
    ensures Placed(held, delta + [r]) == Place(Placed(held, delta), r)
  {
    assert (delta + [r])[..|delta|] == delta;
  }

  /** A consumer holding everything announced so far, in order, holds everything held once it has placed
      the next delta's records. */
  lemma DeltaCompletes(before: seq<LogOp>, after: seq<LogOp>)
    requires UniqueKeys(before) && UniqueKeys(after) && Elements(before) <= Elements(after)
    ensures |SortedOps(after)| == |after|
    ensures Placed(Payloads(SortedOps(before)), DeltaOf(after, KeysOf(before)).delta) == Payloads(SortedOps(after))
  {
    var a, b := SortedOps(before), SortedOps(after);
    SortedDescribed(before);
    SortedDescribed(after);
    BeforeOrders();
    AscendingRestrict(a, b, Before);
    forall i | 0 <= i < |b|
      ensures b[i] in Elements(before) <==> Key(b[i]) in KeysOf(before)
    {
      HeldByKey(before, b, i);
    }
    PlacedUpTo(b, Elements(before), KeysOf(before), |b|);
    assert b[..|b|] + Restrict(b[|b|..], Elements(before)) == b;
  }

  lemma HeldByKey(before: seq<LogOp>, whole: seq<LogOp>, i: nat)
    requires UniqueKeys(whole) && Elements(before) <= Elements(whole) && i < |whole|
    ensures whole[i] in Elements(before) <==> Key(whole[i]) in KeysOf(before)
  {
    if Key(whole[i]) in KeysOf(before) {
      var j :| 0 <= j < |before| && Key(before[j]) == Key(whole[i]);
      assert before[j] in Elements(whole);
      var k :| 0 <= k < |whole| && whole[k] == before[j];
      assert k == i;
    }
  }

  // ---- one delta ----------------------------------------------------------------------------------

  /** The delta's base and its records add up to the whole. */
  lemma DeltaCounts(s: LogState, ops: seq<LogOp>)
    requires Proper(s)
    ensures forall e :: e in Announced(s, ops) ==> e.baseSeq + |e.delta| == |e.whole|
  {
    NewLanded(s, ops);
    var all := s.ops + FreshOf(s.ops, ops);
    SortedDescribed(all);
    NewRecordsCount(SortedOps(all), s.emitted, |all|);
    assert SortedOps(all)[..|all|] == SortedOps(all);
    SizeSplit(s.emitted, KeysOf(all));
    KeysCount(all);
  }

  lemma SizeSplit<T>(a: set<T>, b: set<T>)
    requires a <= b
    ensures |a| + |b - a| == |b|
  {
    assert a + (b - a) == b;
  }

  lemma {:induction false} KeysCount(ops: seq<LogOp>)
    requires UniqueKeys(ops)
    ensures |KeysOf(ops)| == |ops|
  {
    if ops != [] {
      var n := |ops| - 1;
      KeysCount(ops[..n]);
      KeysStep(ops, n);
      KeyNotBefore(ops, n);
      assert ops[..n + 1] == ops;
    }
  }

  lemma {:induction false} NewRecordsExact(whole: seq<LogOp>, emitted: set<(string, int)>, n: nat, r: LogRecord)
    requires n <= |whole|
    ensures r in NewRecords(whole, emitted, n)
            <==> 1 <= r.seqNo <= n && r == Records(whole)[r.seqNo - 1] && Key(whole[r.seqNo - 1]) !in emitted
  {
    if n > 0 {
      NewRecordsExact(whole, emitted, n - 1, r);
      var op := whole[n - 1];
      assert NewRecords(whole, emitted, n)
          == NewRecords(whole, emitted, n - 1) + if Key(op) in emitted then [] else [LogRecord(n, op.payload)];
      if r.seqNo == n { assert Records(whole)[n - 1] == LogRecord(n, op.payload); }
    }
  }

  /** The event announces the operation `key` of the whole it carries. */
  ghost predicate Announces(e: LogEvent, whole: seq<LogOp>, key: (string, int)) {
    e.whole == Records(whole) && exists i :: 0 <= i < |whole| && Key(whole[i]) == key && Records(whole)[i] in e.delta
  }

  /** A delta announces exactly the operations held but not announced before. */
  lemma DeltaAnnounces(s: LogState, ops: seq<LogOp>, key: (string, int))
    requires Proper(s) && FreshOf(s.ops, ops) != []
    ensures var all := s.ops + FreshOf(s.ops, ops);
            Announces(Announced(s, ops)[0], SortedOps(all), key) <==> key in KeysOf(all) && key !in s.emitted
  {
    NewLanded(s, ops);
    var all := s.ops + FreshOf(s.ops, ops);
    var whole := SortedOps(all);
    SortedDescribed(all);
    forall i | 0 <= i < |whole|
      ensures Records(whole)[i] in DeltaOf(all, s.emitted).delta <==> Key(whole[i]) !in s.emitted
    {
      NewRecordsExact(whole, s.emitted, |all|, Records(whole)[i]);
    }
    if key in KeysOf(all) { var i :| 0 <= i < |whole| && Key(whole[i]) == key; }
  }

  /** A subscriber that took its refresh from the log `s.ops` holds the whole after the next delta if and
      only if everything held was already announced when it subscribed, as hydrating at mount ensures. */
  lemma DeltaCompletesExactly(s: LogState, ops: seq<LogOp>)
    requires Proper(s) && FreshOf(s.ops, ops) != []
    ensures var all := s.ops + FreshOf(s.ops, ops);
            Placed(Payloads(SortedOps(s.ops)), Announced(s, ops)[0].delta) == Payloads(SortedOps(all))
            <==> s.emitted == KeysOf(s.ops)
  {
    NewLanded(s, ops);
    var all := s.ops + FreshOf(s.ops, ops);
    GrownElements(s.ops, FreshOf(s.ops, ops));
    if s.emitted == KeysOf(s.ops) {
      DeltaCompletes(s.ops, all);
    } else {
      SortedDescribed(s.ops);
      SortedDescribed(all);
      DeltaCounts(s, ops);
      assert Announced(s, ops)[0] in Announced(s, ops);
      KeysCount(s.ops);
      SizeSplit(s.emitted, KeysOf(s.ops));
    }
  }

  lemma GrownElements(a: seq<LogOp>, b: seq<LogOp>)
    ensures Elements(a) <= Elements(a + b)
  {
  }

  // ---- runs ---------------------------------------------------------------------------------------

  /** The state after a run of arrivals, each a batch from a session or one local write. */
  ghost function After(s: LogState, arrivals: seq<seq<LogOp>>): LogState {
    if arrivals == [] then s else Landing(After(s, arrivals[..|arrivals| - 1]), arrivals[|arrivals| - 1])
  }

  lemma {:induction false} StaysHydrated(s: LogState, arrivals: seq<seq<LogOp>>)
    requires UniqueKeys(s.ops) && s.emitted == KeysOf(s.ops)
    ensures var t := After(s, arrivals);
            UniqueKeys(t.ops) && t.emitted == KeysOf(t.ops) && KeysOf(s.ops) <= KeysOf(t.ops)
  {
    if arrivals != [] {
      var t := After(s, arrivals[..|arrivals| - 1]);
      StaysHydrated(s, arrivals[..|arrivals| - 1]);
      NewLanded(t, arrivals[|arrivals| - 1]);
      assert t.ops + [] == t.ops;
    }
  }

  /** What a consumer that places every announced delta holds after the run. */
  ghost function Holding(s: LogState, held: seq<Bytes>, arrivals: seq<seq<LogOp>>): seq<Bytes>
    requires UniqueKeys(s.ops) && s.emitted == KeysOf(s.ops)
  {
    if arrivals == [] then held
    else
      var init, last := arrivals[..|arrivals| - 1], arrivals[|arrivals| - 1];
      StaysHydrated(s, init);
      var events := Announced(After(s, init), last);
      if events == [] then Holding(s, held, init) else Placed(Holding(s, held, init), events[0].delta)
  }

  /** After any run, a consumer that started from a refresh of a hydrated instance holds exactly the whole. */
  lemma {:induction false} ConsumerHoldsWhole(s: LogState, arrivals: seq<seq<LogOp>>)
    requires UniqueKeys(s.ops) && s.emitted == KeysOf(s.ops)
    ensures Holding(s, Payloads(SortedOps(s.ops)), arrivals) == Payloads(SortedOps(After(s, arrivals).ops))
  {
    if arrivals != [] {
      var init, last := arrivals[..|arrivals| - 1], arrivals[|arrivals| - 1];
      var t := After(s, init);
      ConsumerHoldsWhole(s, init);
      StaysHydrated(s, init);
      if FreshOf(t.ops, last) == [] {
        assert t.ops + [] == t.ops;
      } else {
        DeltaCompletesExactly(t, last);
      }
    }
  }

  /** How many deltas of the run announce `key`. */
  ghost function TimesAnnounced(s: LogState, arrivals: seq<seq<LogOp>>, key: (string, int)): nat
    requires UniqueKeys(s.ops) && s.emitted == KeysOf(s.ops)
  {
    if arrivals == [] then 0
    else
      var init, last := arrivals[..|arrivals| - 1], arrivals[|arrivals| - 1];
      StaysHydrated(s, init);
      var t := After(s, init);
      var events := Announced(t, last);
      TimesAnnounced(s, init, key)
      + (if events != [] && Announces(events[0], SortedOps(Landing(t, last).ops), key) then 1 else 0)
  }

  /** Over any run from a hydrated instance, every operation that lands is announced in exactly one delta,
      and nothing else ever is. */
  lemma {:induction false} AnnouncedExactlyOnce(s: LogState, arrivals: seq<seq<LogOp>>, key: (string, int))
    requires UniqueKeys(s.ops) && s.emitted == KeysOf(s.ops)
    ensures TimesAnnounced(s, arrivals, key)
         == if key in KeysOf(After(s, arrivals).ops) && key !in KeysOf(s.ops) then 1 else 0
  {
    if arrivals != [] {
      var init, last := arrivals[..|arrivals| - 1], arrivals[|arrivals| - 1];
      var t := After(s, init);
      AnnouncedExactlyOnce(s, init, key);
      StaysHydrated(s, init);
      NewLanded(t, last);
      if FreshOf(t.ops, last) == [] {
        assert t.ops + [] == t.ops;
      } else {
        DeltaAnnounces(t, last, key);
      }
    }
  }
}
