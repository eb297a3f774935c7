/** Folding delivered operations into atoms and tombstones. */
module Fold {
  import opened Wrappers
  import opened Orders
  import opened Forest
  import opened TextOps

  type Atoms = map<string, Atom>

  datatype Folded = Folded(atoms: Atoms, deleted: set<string>)

  const EMPTY: Folded := Folded(map[], {})

  function AfterText(a: Atom): string { if a.after.None? then "" else a.after.value }

  /** `atomCompare(a, b) < 0`, over the collation `less`. */
  predicate AtomLess(less: (string, string) -> bool, a: Atom, b: Atom) {
    if AfterText(a) != AfterText(b) then less(AfterText(a), AfterText(b))
    else if a.text != b.text then less(a.text, b.text)
    else if a.origin != b.origin then less(a.origin, b.origin)
    else a.seqNo < b.seqNo
  }

  function Candidate(op: CrdtOp): Atom
    requires op.edit.InsertAtom?
  {
    Atom(op.edit.after, op.edit.text, op.origin, op.seqNo)
  }

  function ApplyOp(less: (string, string) -> bool, st: Folded, op: CrdtOp): Folded {
    match op.edit
    case DeleteAtom(id) => st.(deleted := st.deleted + {id})
    case InsertAtom(id, _, _) =>
      if id in st.atoms && st.atoms[id] != Candidate(op) && !AtomLess(less, Candidate(op), st.atoms[id]) then st
      else st.(atoms := st.atoms[id := Candidate(op)])
  }

  function FoldOps(less: (string, string) -> bool, st: Folded, ops: seq<CrdtOp>): Folded {
    if ops == [] then st
    else ApplyOp(less, FoldOps(less, st, ops[..|ops| - 1]), ops[|ops| - 1])
  }

  /** Carrying the atoms and tombstones from one delta to the next changes nothing. */
  lemma {:induction false} FoldConcat(less: (string, string) -> bool, st: Folded, a: seq<CrdtOp>, b: seq<CrdtOp>)
    ensures FoldOps(less, st, a + b) == FoldOps(less, FoldOps(less, st, a), b)
  {
    if b == [] {
      assert a + b == a;
    } else {
      assert (a + b)[..|a + b| - 1] == a + b[..|b| - 1];
      FoldConcat(less, st, a, b[..|b| - 1]);
    }
  }

  function FoldDeltas(less: (string, string) -> bool, st: Folded, deltas: seq<seq<CrdtOp>>): Folded
    decreases |deltas|
  {
    if deltas == [] then st else FoldDeltas(less, FoldOps(less, st, deltas[0]), deltas[1..])
  }

  function Flatten(deltas: seq<seq<CrdtOp>>): seq<CrdtOp> {
    if deltas == [] then [] else deltas[0] + Flatten(deltas[1..])
  }

  lemma {:induction false} FoldDeltasIsFold(less: (string, string) -> bool, st: Folded, deltas: seq<seq<CrdtOp>>)
    ensures FoldDeltas(less, st, deltas) == FoldOps(less, st, Flatten(deltas))
    decreases |deltas|
  {
    if deltas != [] {
      FoldDeltasIsFold(less, FoldOps(less, st, deltas[0]), deltas[1..]);
      FoldConcat(less, st, deltas[0], Flatten(deltas[1..]));
    }
  }

  // ---- what the fold holds -----------------------------------------------------------

  ghost predicate DistinctOps(ops: seq<CrdtOp>) {
    forall i, j :: 0 <= i < j < |ops| ==> OpKey(ops[i]) != OpKey(ops[j])
  }

  ghost predicate Inserts(ops: seq<CrdtOp>, id: string, op: CrdtOp) {
    op in ops && op.edit.InsertAtom? && op.edit.atomId == id
  }

  ghost predicate Deletes(ops: seq<CrdtOp>, id: string) {
    exists op :: op in ops && op.edit == DeleteAtom(id)
  }

  /** `a` is the least candidate for `id` among the inserts of `ops`. */
  ghost predicate Wins(less: (string, string) -> bool, ops: seq<CrdtOp>, id: string, a: Atom) {
    && (exists op :: Inserts(ops, id, op) && Candidate(op) == a)
    && (forall op :: Inserts(ops, id, op) ==> Candidate(op) == a || AtomLess(less, a, Candidate(op)))
  }

  /** What the fold of `ops` holds for `id`: its least candidate if it was inserted, and a tombstone
      if it was deleted. */
  ghost predicate DescribesId(less: (string, string) -> bool, ops: seq<CrdtOp>, st: Folded, id: string) {
    && (id in st.deleted <==> Deletes(ops, id))
    && (id in st.atoms <==> exists op :: Inserts(ops, id, op))
    && (id in st.atoms ==> Wins(less, ops, id, st.atoms[id]))
  }

  ghost predicate Describes(less: (string, string) -> bool, ops: seq<CrdtOp>, st: Folded) {
    forall id :: DescribesId(less, ops, st, id)
  }

  /** Two inserts of one atom in the order in which the first of them is kept: by the anchor, none counting as empty,
      then by the text, then by the origin, all under the collation, then by sequence. */
  ghost predicate Precedes(less: (string, string) -> bool, x: CrdtOp, y: CrdtOp)
    requires x.edit.InsertAtom? && y.edit.InsertAtom?
  {
    var a := if x.edit.after.Some? then x.edit.after.value else "";
    var b := if y.edit.after.Some? then y.edit.after.value else "";
    || less(a, b)
    || (a == b && less(x.edit.text, y.edit.text))
    || (a == b && x.edit.text == y.edit.text && less(x.origin, y.origin))
    || (a == b && x.edit.text == y.edit.text && x.origin == y.origin && x.seqNo < y.seqNo)
  }

  /** The insert whose anchor, text and identity are kept for `id`: one of its inserts, with none before it. */
  ghost predicate Kept(less: (string, string) -> bool, ops: seq<CrdtOp>, id: string, a: Atom, op: CrdtOp) {
    && Inserts(ops, id, op)
    && a.after == op.edit.after && a.text == op.edit.text && a.origin == op.origin && a.seqNo == op.seqNo
    && forall x :: Inserts(ops, id, x) ==> !Precedes(less, x, op)
  }

  /** Of the inserts of an atom the fold keeps the one that comes first. */
  lemma FoldKeepsFirst(less: (string, string) -> bool, ops: seq<CrdtOp>, id: string)
    requires StrictTotal(less) && DistinctOps(ops) && id in FoldOps(less, EMPTY, ops).atoms
    ensures exists op :: Kept(less, ops, id, FoldOps(less, EMPTY, ops).atoms[id], op)
  {
    FoldDescribed(less, ops);
    var a := FoldOps(less, EMPTY, ops).atoms[id];
    assert DescribesId(less, ops, FoldOps(less, EMPTY, ops), id);
    var op :| Inserts(ops, id, op) && Candidate(op) == a;
    forall x | Inserts(ops, id, x) ensures !Precedes(less, x, op) { NotBefore(less, op, x); }
    assert Kept(less, ops, id, a, op);
  }

  lemma NotBefore(less: (string, string) -> bool, op: CrdtOp, x: CrdtOp)
    requires StrictTotal(less) && op.edit.InsertAtom? && x.edit.InsertAtom?
    requires Candidate(x) == Candidate(op) || AtomLess(less, Candidate(op), Candidate(x))
    ensures !Precedes(less, x, op)
  {
  }

  lemma AtomLessTransitive(less: (string, string) -> bool, a: Atom, b: Atom, c: Atom)
    requires StrictTotal(less) && AtomLess(less, a, b) && AtomLess(less, b, c)
    ensures AtomLess(less, a, c)
  {
  }

  lemma AtomLessAsymmetric(less: (string, string) -> bool, a: Atom, b: Atom)
    requires StrictTotal(less) && AtomLess(less, a, b)
    ensures !AtomLess(less, b, a)
  {
  }

  lemma AtomLessTotal(less: (string, string) -> bool, a: Atom, b: Atom)
    requires StrictTotal(less) && (a.origin, a.seqNo) != (b.origin, b.seqNo)
    ensures AtomLess(less, a, b) || AtomLess(less, b, a)
  {
  }

  lemma InsertWins(less: (string, string) -> bool, ops: seq<CrdtOp>, st: Folded, op: CrdtOp)
    requires StrictTotal(less) && op.edit.InsertAtom? && DescribesId(less, ops, st, op.edit.atomId)
    requires forall other :: other in ops ==> OpKey(other) != OpKey(op)
    ensures Wins(less, ops + [op], op.edit.atomId, ApplyOp(less, st, op).atoms[op.edit.atomId])
  {
    var id, c, all := op.edit.atomId, Candidate(op), ops + [op];
    var a := ApplyOp(less, st, op).atoms[id];
    assert Inserts(all, id, op);
    if id in st.atoms {
      var p := st.atoms[id];
      var o :| Inserts(ops, id, o) && Candidate(o) == p;
      assert Inserts(all, id, o);
      AtomLessTotal(less, p, c);
      forall x | Inserts(all, id, x) ensures Candidate(x) == a || AtomLess(less, a, Candidate(x)) {
        if x != op {
          assert Inserts(ops, id, x);
          if a == c && Candidate(x) != p { AtomLessTransitive(less, c, p, Candidate(x)); }
        }
      }
    } else {
      assert forall x :: Inserts(all, id, x) ==> x == op || Inserts(ops, id, x);
    }
  }

  lemma StepDescribed(less: (string, string) -> bool, ops: seq<CrdtOp>, st: Folded, op: CrdtOp, id: string)
    requires StrictTotal(less) && DescribesId(less, ops, st, id)
    requires forall other :: other in ops ==> OpKey(other) != OpKey(op)
    ensures DescribesId(less, ops + [op], ApplyOp(less, st, op), id)
  {
    var all := ops + [op];
    assert forall x :: x in all <==> x in ops || x == op;
    assert Deletes(all, id) <==> Deletes(ops, id) || op.edit == DeleteAtom(id);
    if op.edit.InsertAtom? && op.edit.atomId == id {
      InsertWins(less, ops, st, op);
    } else {
      assert forall x :: Inserts(all, id, x) == Inserts(ops, id, x);
    }
  }

  lemma {:induction false} FoldDescribed(less: (string, string) -> bool, ops: seq<CrdtOp>)
    requires StrictTotal(less) && DistinctOps(ops)
    ensures Describes(less, ops, FoldOps(less, EMPTY, ops))
  {
    if ops != [] {
      var init, op := ops[..|ops| - 1], ops[|ops| - 1];
      FoldDescribed(less, init);
      assert ops == init + [op];
      forall id ensures DescribesId(less, ops, FoldOps(less, EMPTY, ops), id) {
        StepDescribed(less, init, FoldOps(less, EMPTY, init), op, id);
      }
    }
  }

  lemma SameForId(less: (string, string) -> bool, ops: seq<CrdtOp>, other: seq<CrdtOp>, s: Folded, t: Folded,
                  id: string)
    requires StrictTotal(less) && Elements(ops) == Elements(other)
    requires DescribesId(less, ops, s, id) && DescribesId(less, other, t, id)
    ensures (id in s.deleted <==> id in t.deleted) && (id in s.atoms <==> id in t.atoms)
    ensures id in s.atoms ==> s.atoms[id] == t.atoms[id]
  {
    assert forall op :: op in ops <==> op in Elements(ops);
    assert forall op :: op in other <==> op in Elements(other);
    assert forall op :: Inserts(ops, id, op) == Inserts(other, id, op);
    if id in s.atoms && s.atoms[id] != t.atoms[id] {
      AtomLessAsymmetric(less, s.atoms[id], t.atoms[id]);
    }
  }

  lemma SameDescription(less: (string, string) -> bool, ops: seq<CrdtOp>, other: seq<CrdtOp>, s: Folded, t: Folded)
    requires StrictTotal(less) && Elements(ops) == Elements(other)
    requires Describes(less, ops, s) && Describes(less, other, t)
    ensures s == t
  {
    forall id
      ensures (id in s.deleted <==> id in t.deleted) && (id in s.atoms <==> id in t.atoms)
      ensures id in s.atoms ==> s.atoms[id] == t.atoms[id]
    {
      assert DescribesId(less, ops, s, id) && DescribesId(less, other, t, id);
      SameForId(less, ops, other, s, t, id);
    }
    assert s.atoms == t.atoms && s.deleted == t.deleted;
  }

  /** Any two orders of the same operations, each cut into deltas anyhow, fold to the same atoms and
      tombstones: several inserts for one id settle on the same winner. */
  lemma FoldOrderIndependent(less: (string, string) -> bool, deltas: seq<seq<CrdtOp>>, other: seq<seq<CrdtOp>>)
    requires StrictTotal(less)
    requires DistinctOps(Flatten(deltas)) && DistinctOps(Flatten(other))
    requires Elements(Flatten(deltas)) == Elements(Flatten(other))
    ensures FoldDeltas(less, EMPTY, deltas) == FoldDeltas(less, EMPTY, other)
  {
    var a, b := Flatten(deltas), Flatten(other);
    FoldDeltasIsFold(less, EMPTY, deltas);
    FoldDeltasIsFold(less, EMPTY, other);
    FoldDescribed(less, a);
    FoldDescribed(less, b);
    SameDescription(less, a, b, FoldOps(less, EMPTY, a), FoldOps(less, EMPTY, b));
  }
}
