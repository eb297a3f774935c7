/** Minting local operations: one at a time from the store, or a batch from running counters. */
module Minting {
  import opened Wrappers
  import opened Orders
  import opened TextOps

  /** The highest sequence held for an origin, 0 when none is. */
  function MaxSeq(ops: seq<TextOp>, origin: string): int {
    if ops == [] then 0
    else
      var m, op := MaxSeq(ops[..|ops| - 1], origin), ops[|ops| - 1];
      if op.origin == origin && op.seqNo > m then op.seqNo else m
  }

  type HeadMap = map<string, int>

  /** The latest sequence of each origin. */
  function Latest(ops: seq<TextOp>): HeadMap {
    if ops == [] then map[]
    else
      var m, op := Latest(ops[..|ops| - 1]), ops[|ops| - 1];
      if op.origin in m && op.seqNo <= m[op.origin] then m else m[op.origin := op.seqNo]
  }

  /** Heads as references, ordered by origin under the collation. */
  ghost function HeadsOf(less: (string, string) -> bool, heads: HeadMap): seq<Head>
    requires StrictTotal(less)
  {
    var origins := Listing(heads.Keys, less);
    assert forall o :: o in origins <==> o in Elements(origins);
    seq(|origins|, i requires 0 <= i < |origins| => Head(origins[i], heads[origins[i]]))
  }

  /** `mintLocal`: the next operation of `origin` on top of everything held. */
  ghost function MintLocal(less: (string, string) -> bool, origin: string, ops: seq<TextOp>, edit: TextEdit): TextOp
    requires StrictTotal(less)
  {
    StoredOp(origin, CountOf(ops, origin) + 1, MaxLamport(ops) + 1, HeadsOf(less, Latest(ops)), EditPayload(edit))
  }

  /** The operations that writing the edits one after another would mint. */
  ghost function MintEach(less: (string, string) -> bool, origin: string, ops: seq<TextOp>,
                          edits: seq<TextEdit>): seq<TextOp>
    requires StrictTotal(less)
    decreases |edits|
  {
    if edits == [] then []
    else
      var op := MintLocal(less, origin, ops, edits[0]);
      [op] + MintEach(less, origin, ops + [op], edits[1..])
  }

  /** The operations the replacement loop mints from its running sequence, lamport and heads. */
  ghost function MintRunning(less: (string, string) -> bool, origin: string, n: int, lamport: int, heads: HeadMap,
                             edits: seq<TextEdit>): seq<TextOp>
    requires StrictTotal(less)
    decreases |edits|
  {
    if edits == [] then []
    else
      [StoredOp(origin, n, lamport + 1, HeadsOf(less, heads), EditPayload(edits[0]))]
      + MintRunning(less, origin, n + 1, lamport + 1, heads[origin := n], edits[1..])
  }

  ghost function MintBatch(less: (string, string) -> bool, origin: string, ops: seq<TextOp>,
                           edits: seq<TextEdit>): seq<TextOp>
    requires StrictTotal(less)
  {
    MintRunning(less, origin, MaxSeq(ops, origin) + 1, MaxLamport(ops), Latest(ops), edits)
  }

  lemma {:induction false} LatestBelowMax(ops: seq<TextOp>, origin: string)
    ensures origin in Latest(ops) ==> Latest(ops)[origin] <= MaxSeq(ops, origin)
  {
    if ops != [] { LatestBelowMax(ops[..|ops| - 1], origin); }
  }

  lemma AppendCounts(ops: seq<TextOp>, op: TextOp)
    requires op.seqNo == MaxSeq(ops, op.origin) + 1 && op.lamport == MaxLamport(ops) + 1
    ensures CountOf(ops + [op], op.origin) == CountOf(ops, op.origin) + 1
    ensures MaxSeq(ops + [op], op.origin) == op.seqNo
    ensures MaxLamport(ops + [op]) == op.lamport
    ensures Latest(ops + [op]) == Latest(ops)[op.origin := op.seqNo]
  {
    assert (ops + [op])[..|ops|] == ops;
    LatestBelowMax(ops, op.origin);
  }

  /** While the running counters are those of what is held, each operation is the one minted from it. */
  lemma {:induction false} RunningIsEach(less: (string, string) -> bool, origin: string, n: int, lamport: int,
                                         heads: HeadMap,
                                         ops: seq<TextOp>, edits: seq<TextEdit>)
    requires StrictTotal(less) && n == CountOf(ops, origin) + 1 == MaxSeq(ops, origin) + 1
    requires lamport == MaxLamport(ops) && heads == Latest(ops)
    ensures MintRunning(less, origin, n, lamport, heads, edits) == MintEach(less, origin, ops, edits)
    decreases |edits|
  {
    if edits != [] {
      var op := MintLocal(less, origin, ops, edits[0]);
      RunningStep(less, origin, n, lamport, heads, edits, op);
      AppendCounts(ops, op);
      RunningIsEach(less, origin, n + 1, lamport + 1, heads[origin := n], ops + [op], edits[1..]);
    }
  }

  lemma RunningStep(less: (string, string) -> bool, origin: string, n: int, lamport: int, heads: HeadMap,
                    edits: seq<TextEdit>, op: TextOp)
    requires StrictTotal(less) && edits != []
    requires op == StoredOp(origin, n, lamport + 1, HeadsOf(less, heads), EditPayload(edits[0]))
    ensures MintRunning(less, origin, n, lamport, heads, edits)
         == [op] + MintRunning(less, origin, n + 1, lamport + 1, heads[origin := n], edits[1..])
  {
  }

  /** A batch mints exactly what writing its edits one by one would, if and only if as many local
      operations are held as the highest local sequence says; one path counts, the other takes the
      maximum. */
  lemma BatchIsOneByOne(less: (string, string) -> bool, origin: string, ops: seq<TextOp>, edits: seq<TextEdit>)
    requires StrictTotal(less)
    ensures MintBatch(less, origin, ops, edits) == MintEach(less, origin, ops, edits)
            <==> edits == [] || CountOf(ops, origin) == MaxSeq(ops, origin)
  {
    if CountOf(ops, origin) == MaxSeq(ops, origin) {
      RunningIsEach(less, origin, MaxSeq(ops, origin) + 1, MaxLamport(ops), Latest(ops), ops, edits);
    } else if edits != [] {
      assert MintBatch(less, origin, ops, edits)[0].seqNo == MaxSeq(ops, origin) + 1;
      assert MintEach(less, origin, ops, edits)[0].seqNo == CountOf(ops, origin) + 1;
    }
  }

  // ---- what a minted operation refers to -----------------------------------------------------

  /** Some reference is to the operation itself or to a later one of its origin. */
  predicate Refers(refs: seq<Head>, op: TextOp) {
    exists i :: 0 <= i < |refs| && refs[i].origin == op.origin && op.seqNo <= refs[i].seqNo
  }

  /** Every origin held is named once, in the order of the collation, by the last operation held of it. */
  ghost predicate AllHeads(less: (string, string) -> bool, ops: seq<TextOp>, refs: seq<Head>) {
    && (forall i, j :: 0 <= i < j < |refs| ==> less(refs[i].origin, refs[j].origin))
    && (forall i :: 0 <= i < |refs| ==> HasKey(ops, (refs[i].origin, refs[i].seqNo)))
    && forall op :: op in ops ==> Refers(refs, op)
  }

  lemma {:induction false} LatestHeld(ops: seq<TextOp>, o: string)
    requires o in Latest(ops)
    ensures HasKey(ops, (o, Latest(ops)[o]))
  {
    var init, op := ops[..|ops| - 1], ops[|ops| - 1];
    assert ops == init + [op];
    if o in Latest(init) && Latest(ops)[o] == Latest(init)[o] {
      LatestHeld(init, o);
    }
    KeyAppend(init, op, (o, Latest(ops)[o]));
  }

  lemma {:induction false} LatestAbove(ops: seq<TextOp>, op: TextOp)
    requires op in ops
    ensures op.origin in Latest(ops) && op.seqNo <= Latest(ops)[op.origin]
  {
    if op in ops[..|ops| - 1] { LatestAbove(ops[..|ops| - 1], op); }
  }

  lemma HeadsAll(less: (string, string) -> bool, ops: seq<TextOp>)
    requires StrictTotal(less)
    ensures AllHeads(less, ops, HeadsOf(less, Latest(ops)))
  {
    var latest, refs := Latest(ops), HeadsOf(less, Latest(ops));
    var origins := Listing(latest.Keys, less);
    forall i | 0 <= i < |refs| ensures HasKey(ops, (refs[i].origin, refs[i].seqNo)) {
      assert origins[i] in Elements(origins);
      LatestHeld(ops, origins[i]);
    }
    forall op | op in ops ensures Refers(refs, op) {
      LatestAbove(ops, op);
      assert op.origin in Elements(origins);
      var i :| 0 <= i < |origins| && origins[i] == op.origin;
      assert refs[i] == Head(op.origin, latest[op.origin]);
    }
  }

  /** `n` is one above every sequence held of the origin, and above 0. */
  ghost predicate NextSeq(ops: seq<TextOp>, origin: string, n: int) {
    && 0 < n && (forall op :: op in ops && op.origin == origin ==> op.seqNo < n)
    && (n == 1 || HasKey(ops, (origin, n - 1)))
  }

  lemma MaxNext(ops: seq<TextOp>, origin: string)
    ensures NextSeq(ops, origin, MaxSeq(ops, origin) + 1)
  {
    MaxWithin(ops, origin);
    if MaxSeq(ops, origin) != 0 {
      var i :| 0 <= i < |ops| && ops[i].origin == origin && ops[i].seqNo == MaxSeq(ops, origin);
      assert Key(ops[i]) == (origin, MaxSeq(ops, origin));
    }
  }

  /** `op` comes next: one above everything held of its origin and every lamport, referring to all heads. */
  ghost predicate ComesNext(less: (string, string) -> bool, ops: seq<TextOp>, op: TextOp) {
    NextSeq(ops, op.origin, op.seqNo) && NextLamport(ops, op.lamport) && AllHeads(less, ops, op.refs)
  }

  /** Each operation comes next after what is held and those before it. */
  ghost predicate ComeInTurn(less: (string, string) -> bool, ops: seq<TextOp>, more: seq<TextOp>) {
    forall k {:trigger ComesNext(less, ops + more[..k], more[k])} ::
      0 <= k < |more| ==> ComesNext(less, ops + more[..k], more[k])
  }

  /** `batch` carries the edits under the origin's next sequences, each operation referring to all heads of what
      is held and of the batch so far. */
  ghost predicate Batches(less: (string, string) -> bool, origin: string, ops: seq<TextOp>, edits: seq<TextEdit>,
                          batch: seq<TextOp>)
  {
    && |batch| == |edits| && ComeInTurn(less, ops, batch)
    && forall k :: 0 <= k < |batch| ==> batch[k].origin == origin && batch[k].payload == EditPayload(edits[k])
  }

  lemma InTurnCons(less: (string, string) -> bool, ops: seq<TextOp>, op: TextOp, rest: seq<TextOp>)
    requires ComesNext(less, ops, op) && ComeInTurn(less, ops + [op], rest)
    ensures ComeInTurn(less, ops, [op] + rest)
  {
    var more := [op] + rest;
    forall k | 0 <= k < |more| ensures ComesNext(less, ops + more[..k], more[k]) {
      if k == 0 {
        assert ops + more[..0] == ops;
      } else {
        assert ComesNext(less, (ops + [op]) + rest[..k - 1], rest[k - 1]);
        assert ops + more[..k] == (ops + [op]) + rest[..k - 1];
      }
    }
  }

  /** The first of a batch, and the batch that the rest of its edits would be. */
  lemma BatchFirst(less: (string, string) -> bool, origin: string, ops: seq<TextOp>, edits: seq<TextEdit>)
    returns (op: TextOp)
    requires StrictTotal(less) && edits != []
    ensures op == StoredOp(origin, MaxSeq(ops, origin) + 1, MaxLamport(ops) + 1, HeadsOf(less, Latest(ops)),
                           EditPayload(edits[0]))
    ensures MintBatch(less, origin, ops, edits) == [op] + MintBatch(less, origin, ops + [op], edits[1..])
  {
    op := StoredOp(origin, MaxSeq(ops, origin) + 1, MaxLamport(ops) + 1, HeadsOf(less, Latest(ops)),
                   EditPayload(edits[0]));
    AppendCounts(ops, op);
  }

  /** Every operation of a batch is the origin's next, above every lamport, and refers to all heads of what is held
      and of the batch so far. */
  lemma {:induction false} BatchComesInTurn(less: (string, string) -> bool, origin: string, ops: seq<TextOp>,
                                            edits: seq<TextEdit>)
    requires StrictTotal(less)
    ensures Batches(less, origin, ops, edits, MintBatch(less, origin, ops, edits))
    decreases |edits|
  {
    if edits != [] {
      var op := BatchFirst(less, origin, ops, edits);
      BatchComesInTurn(less, origin, ops + [op], edits[1..]);
      FirstComesNext(less, ops, op);
      BatchesCons(less, origin, ops, edits, op, MintBatch(less, origin, ops + [op], edits[1..]));
    }
  }

  lemma FirstComesNext(less: (string, string) -> bool, ops: seq<TextOp>, op: TextOp)
    requires StrictTotal(less) && op.seqNo == MaxSeq(ops, op.origin) + 1 && op.lamport == MaxLamport(ops) + 1
    requires op.refs == HeadsOf(less, Latest(ops))
    ensures ComesNext(less, ops, op)
  {
    MaxNext(ops, op.origin);
    LamportNext(ops);
    HeadsAll(less, ops);
  }

  lemma BatchesCons(less: (string, string) -> bool, origin: string, ops: seq<TextOp>, edits: seq<TextEdit>,
                    op: TextOp, rest: seq<TextOp>)
    requires edits != [] && ComesNext(less, ops, op) && Batches(less, origin, ops + [op], edits[1..], rest)
    requires op.origin == origin && op.payload == EditPayload(edits[0])
    ensures Batches(less, origin, ops, edits, [op] + rest)
  {
    InTurnCons(less, ops, op, rest);
    forall k | 0 < k <= |rest|
      ensures ([op] + rest)[k].origin == origin && ([op] + rest)[k].payload == EditPayload(edits[k])
    {
      assert ([op] + rest)[k] == rest[k - 1] && edits[k] == edits[1..][k - 1];
    }
  }

  /** A single write: numbered by how many operations of the origin are held, above every lamport, and referring to
      all heads. */
  ghost predicate WrittenNext(less: (string, string) -> bool, origin: string, ops: seq<TextOp>, op: TextOp) {
    && op.origin == origin && op.seqNo == |LocalSeqs(ops, origin)| + 1 && NextLamport(ops, op.lamport)
    && AllHeads(less, ops, op.refs)
  }

  lemma MintedLocally(less: (string, string) -> bool, origin: string, ops: seq<TextOp>, edit: TextEdit)
    requires StrictTotal(less) && UniqueKeys(ops)
    ensures WrittenNext(less, origin, ops, MintLocal(less, origin, ops, edit))
  {
    CountIsSize(ops, origin);
    LamportNext(ops);
    HeadsAll(less, ops);
  }

  // ---- when counting and taking the maximum agree ------------------------------------------

  lemma {:induction false} MaxWithin(ops: seq<TextOp>, origin: string)
    ensures forall i :: 0 <= i < |ops| && ops[i].origin == origin ==> ops[i].seqNo <= MaxSeq(ops, origin)
    ensures MaxSeq(ops, origin) == 0
            || exists i :: 0 <= i < |ops| && ops[i].origin == origin && ops[i].seqNo == MaxSeq(ops, origin)
    ensures 0 <= MaxSeq(ops, origin)
  {
    if ops != [] {
      var init := ops[..|ops| - 1];
      MaxWithin(init, origin);
      forall i | 0 <= i < |ops| && ops[i].origin == origin ensures ops[i].seqNo <= MaxSeq(ops, origin) {
        if i < |init| { assert init[i] == ops[i]; }
      }
      if MaxSeq(ops, origin) == MaxSeq(init, origin) && MaxSeq(init, origin) != 0 {
        var i :| 0 <= i < |init| && init[i].origin == origin && init[i].seqNo == MaxSeq(init, origin);
        assert ops[i] == init[i];
      }
    }
  }

  function LocalSeqs(ops: seq<TextOp>, origin: string): set<int> {
    set i | 0 <= i < |ops| && ops[i].origin == origin :: ops[i].seqNo
  }

  lemma {:induction false} CountIsSize(ops: seq<TextOp>, origin: string)
    requires UniqueKeys(ops)
    ensures CountOf(ops, origin) == |LocalSeqs(ops, origin)|
  {
    if ops != [] {
      var init, op := ops[..|ops| - 1], ops[|ops| - 1];
      CountIsSize(init, origin);
      assert ops == init + [op];
      if op.origin == origin {
        assert op.seqNo !in LocalSeqs(init, origin) by {
          assert forall i :: 0 <= i < |init| ==> Key(ops[i]) != Key(ops[|ops| - 1]);
        }
        assert LocalSeqs(ops, origin) == LocalSeqs(init, origin) + {op.seqNo} by { SeqsAppend(init, op, origin); }
      } else {
        SeqsAppend(init, op, origin);
      }
    }
  }

  lemma SeqsAppend(init: seq<TextOp>, op: TextOp, origin: string)
    ensures LocalSeqs(init + [op], origin) == LocalSeqs(init, origin) + (if op.origin == origin then {op.seqNo} else {})
  {
    var ops := init + [op];
    forall n ensures n in LocalSeqs(ops, origin)
        <==> n in LocalSeqs(init, origin) + (if op.origin == origin then {op.seqNo} else {}) {
      if n in LocalSeqs(init, origin) {
        var i :| 0 <= i < |init| && init[i].origin == origin && init[i].seqNo == n;
        assert ops[i] == init[i];
      }
      assert ops[|init|] == op;
    }
  }

  function UpTo(n: nat): (s: set<int>)
    ensures |s| == n && forall k :: k in s <==> 1 <= k <= n
  {
    if n == 0 then {} else UpTo(n - 1) + {n}
  }

  lemma SubsetSize<T>(a: set<T>, b: set<T>)
    requires a <= b && |a| == |b|
    ensures a == b
  {
    if a != b {
      var x :| x in b && x !in a;
      assert a <= b - {x};
      SubsetBound(a, b - {x});
    }
  }

  lemma {:induction false} SubsetBound<T>(a: set<T>, b: set<T>)
    requires a <= b
    ensures |a| <= |b|
    decreases |a|
  {
    if a != {} {
      var x :| x in a;
      SubsetBound(a - {x}, b - {x});
    }
  }

  /** With distinct positive local sequences, the count equals the maximum exactly when they are 1..n. */
  lemma DenseSequences(ops: seq<TextOp>, origin: string)
    requires UniqueKeys(ops) && forall i :: 0 <= i < |ops| && ops[i].origin == origin ==> 1 <= ops[i].seqNo
    ensures CountOf(ops, origin) == MaxSeq(ops, origin) <==> LocalSeqs(ops, origin) == UpTo(CountOf(ops, origin))
  {
    CountIsSize(ops, origin);
    MaxWithin(ops, origin);
    var held, n := LocalSeqs(ops, origin), CountOf(ops, origin);
    if n == MaxSeq(ops, origin) {
      SubsetSize(held, UpTo(n));
    }
    if held == UpTo(n) && n > 0 {
      assert n in held;
    }
    assert MaxSeq(ops, origin) != 0 ==> MaxSeq(ops, origin) in held;
  }
}
