/** Stored operations, text edits and the operations fed to the CRDT node. */
module TextOps {
  import opened Wrappers
  import opened AtomIds

  datatype TextEdit =
    | InsertAtom(atomId: string, after: Option<string>, text: string)
    | DeleteAtom(atomId: string)

  /** What a payload's bytes say: an edit in the profile's shape, or anything else. */
  datatype Payload = EditPayload(edit: TextEdit) | Malformed

  /** The strict profile decode: ids and inserted texts are non-empty. */
  function DecodeTextEdit(payload: Payload): Option<TextEdit> {
    match payload
    case Malformed => None
    case EditPayload(InsertAtom(id, _, text)) => if id != "" && text != "" then Some(payload.edit) else None
    case EditPayload(DeleteAtom(id)) => if id != "" then Some(payload.edit) else None
  }

  predicate ProperEdit(edit: TextEdit) {
    DecodeTextEdit(EditPayload(edit)) == Some(edit)
  }

  datatype Head = Head(origin: string, seqNo: int)

  datatype StoredOp<P> = StoredOp(origin: string, seqNo: int, lamport: int, refs: seq<Head>, payload: P)

  type TextOp = StoredOp<Payload>

  /** The identity on which the store, the assembler and the node deduplicate. */
  function Key<P>(op: StoredOp<P>): (string, int) { (op.origin, op.seqNo) }

  ghost predicate UniqueKeys<P>(ops: seq<StoredOp<P>>) {
    forall i, j :: 0 <= i < j < |ops| ==> Key(ops[i]) != Key(ops[j])
  }

  predicate HasKey<P>(ops: seq<StoredOp<P>>, key: (string, int)) {
    exists i :: 0 <= i < |ops| && Key(ops[i]) == key
  }

  /** The operations of `ops` not held yet, first arrivals only, in order. */
  function FreshOf<P>(history: seq<StoredOp<P>>, ops: seq<StoredOp<P>>): seq<StoredOp<P>> {
    if ops == [] then []
    else
      var novel, op := FreshOf(history, ops[..|ops| - 1]), ops[|ops| - 1];
      if HasKey(history, Key(op)) || HasKey(novel, Key(op)) then novel else novel + [op]
  }

  lemma {:induction false} FreshHas<P>(history: seq<StoredOp<P>>, ops: seq<StoredOp<P>>, k: (string, int))
    ensures HasKey(history + FreshOf(history, ops), k) <==> HasKey(history, k) || HasKey(ops, k)
  {
    KeyConcat(history, FreshOf(history, ops), k);
    if ops != [] {
      var init, op := ops[..|ops| - 1], ops[|ops| - 1];
      var novel := FreshOf(history, init);
      assert ops == init + [op];
      FreshHas(history, init, k);
      KeyConcat(history, novel, k);
      KeyAppend(init, op, k);
      KeyAppend(novel, op, k);
    }
  }

  lemma {:induction false} FreshDescribed<P>(history: seq<StoredOp<P>>, ops: seq<StoredOp<P>>)
    requires UniqueKeys(history)
    ensures UniqueKeys(history + FreshOf(history, ops))
    ensures forall op :: op in FreshOf(history, ops) ==> op in ops
  {
    if ops == [] {
      assert history + FreshOf(history, ops) == history;
    } else {
      var init, op := ops[..|ops| - 1], ops[|ops| - 1];
      FreshDescribed(history, init);
      var novel := FreshOf(history, init);
      assert ops == init + [op];
      KeyConcat(history, novel, Key(op));
      if !HasKey(history + novel, Key(op)) {
        assert history + FreshOf(history, ops) == (history + novel) + [op];
        assert forall i :: 0 <= i < |history + novel| ==> Key((history + novel)[i]) != Key(op);
      }
    }
  }

  /** Not held, and nothing with its identity arrived before. */
  ghost predicate FirstArrival<P>(history: seq<StoredOp<P>>, ops: seq<StoredOp<P>>, i: nat)
    requires i < |ops|
  {
    && (forall h :: 0 <= h < |history| ==> Key(history[h]) != Key(ops[i]))
    && forall j :: 0 <= j < i ==> Key(ops[j]) != Key(ops[i])
  }

  /** Operation by operation: exactly the first arrivals are new, in their order. */
  lemma FreshExactly<P>(history: seq<StoredOp<P>>, ops: seq<StoredOp<P>>, i: nat)
    requires i < |ops|
    ensures FreshOf(history, ops[..0]) == [] && FreshOf(history, ops[..|ops|]) == FreshOf(history, ops)
    ensures FreshOf(history, ops[..i + 1])
         == FreshOf(history, ops[..i]) + if FirstArrival(history, ops, i) then [ops[i]] else []
  {
    var init := ops[..i];
    assert ops[..i + 1][..i] == init && ops[..|ops|] == ops;
    FreshHas(history, init, Key(ops[i]));
    KeyConcat(history, FreshOf(history, init), Key(ops[i]));
    assert HasKey(history, Key(ops[i])) || HasKey(init, Key(ops[i])) <==> !FirstArrival(history, ops, i) by {
      if HasKey(init, Key(ops[i])) {
        var j :| 0 <= j < |init| && Key(init[j]) == Key(ops[i]);
        assert ops[j] == init[j];
      }
      if !HasKey(init, Key(ops[i])) {
        forall j | 0 <= j < i ensures Key(ops[j]) != Key(ops[i]) { assert init[j] == ops[j]; }
      }
    }
  }

  lemma KeyAppend<P>(ops: seq<StoredOp<P>>, op: StoredOp<P>, k: (string, int))
    ensures HasKey(ops + [op], k) <==> HasKey(ops, k) || Key(op) == k
  {
    if HasKey(ops, k) {
      var i :| 0 <= i < |ops| && Key(ops[i]) == k;
      assert (ops + [op])[i] == ops[i];
    }
    assert (ops + [op])[|ops|] == op;
  }

  lemma KeyConcat<P>(a: seq<StoredOp<P>>, b: seq<StoredOp<P>>, k: (string, int))
    ensures HasKey(a + b, k) <==> HasKey(a, k) || HasKey(b, k)
  {
    if HasKey(a, k) { var i :| 0 <= i < |a| && Key(a[i]) == k; assert (a + b)[i] == a[i]; }
    if HasKey(b, k) { var i :| 0 <= i < |b| && Key(b[i]) == k; assert (a + b)[|a| + i] == b[i]; }
    if HasKey(a + b, k) {
      var i :| 0 <= i < |a + b| && Key((a + b)[i]) == k;
      assert (a + b)[i] == if i < |a| then a[i] else b[i - |a|];
    }
  }

  function CountOf<P>(ops: seq<StoredOp<P>>, origin: string): nat {
    if ops == [] then 0
    else CountOf(ops[..|ops| - 1], origin) + (if ops[|ops| - 1].origin == origin then 1 else 0)
  }

  function MaxLamport<P>(ops: seq<StoredOp<P>>): (m: int)
    ensures 0 <= m
  {
    if ops == [] then 0
    else
      var m, op := MaxLamport(ops[..|ops| - 1]), ops[|ops| - 1];
      if op.lamport > m then op.lamport else m
  }

  lemma {:induction false} LamportWithin<P>(ops: seq<StoredOp<P>>, i: nat)
    requires i < |ops|
    ensures ops[i].lamport <= MaxLamport(ops)
  {
    if i < |ops| - 1 {
      LamportWithin(ops[..|ops| - 1], i);
    }
  }

  /** The highest lamport is one of those held, or 0. */
  lemma {:induction false} LamportAttained<P>(ops: seq<StoredOp<P>>)
    ensures MaxLamport(ops) == 0 || exists i :: 0 <= i < |ops| && ops[i].lamport == MaxLamport(ops)
  {
    if ops != [] {
      var init := ops[..|ops| - 1];
      LamportAttained(init);
      if MaxLamport(ops) == MaxLamport(init) && MaxLamport(init) != 0 {
        var i :| 0 <= i < |init| && init[i].lamport == MaxLamport(init);
        assert ops[i] == init[i];
      }
    }
  }

  /** `n` is one above every lamport held, and above 0. */
  ghost predicate NextLamport<P>(ops: seq<StoredOp<P>>, n: int) {
    && 0 < n && (forall i :: 0 <= i < |ops| ==> ops[i].lamport < n)
    && (n == 1 || exists i :: 0 <= i < |ops| && ops[i].lamport == n - 1)
  }

  lemma LamportNext<P>(ops: seq<StoredOp<P>>)
    ensures NextLamport(ops, MaxLamport(ops) + 1)
  {
    forall i | 0 <= i < |ops| ensures ops[i].lamport < MaxLamport(ops) + 1 { LamportWithin(ops, i); }
    LamportAttained(ops);
  }

  /** An operation as the CRDT node sees it: sequences normalised, dependencies as a clock. */
  datatype CrdtOp = CrdtOp(origin: string, seqNo: int, deps: map<string, int>, edit: TextEdit)

  function OpKey(op: CrdtOp): (string, int) { (op.origin, op.seqNo) }

  datatype Atom = Atom(after: Option<string>, text: string, origin: string, seqNo: int)

  datatype TextElement = TextElement(id: ElementId, atomId: string, text: string, deleted: bool)

  datatype TextState = TextState(text: string, elements: seq<TextElement>, visible: seq<TextElement>)
}
