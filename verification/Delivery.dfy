/** Causal delivery: an operation is delivered once, when everything it depends on has been. */
module Delivery {
  import opened Orders
  import opened TextOps
  import opened Fold

  /** `delivered` only grows; its length is the revision. */
  datatype CrdtNode = CrdtNode(delivered: seq<CrdtOp>, pending: seq<CrdtOp>)

  const EMPTY_NODE: CrdtNode := CrdtNode([], [])

  predicate Has(ops: seq<CrdtOp>, origin: string, n: int) {
    exists i :: 0 <= i < |ops| && OpKey(ops[i]) == (origin, n)
  }

  /** The previous operation of the same origin and every dependency have been delivered. */
  predicate Ready(op: CrdtOp, delivered: seq<CrdtOp>) {
    && (op.seqNo == 1 || Has(delivered, op.origin, op.seqNo - 1))
    && (forall origin :: origin in op.deps ==> Has(delivered, origin, op.deps[origin]))
  }

  function FirstReady(pending: seq<CrdtOp>, delivered: seq<CrdtOp>): (k: nat)
    ensures k <= |pending|
    ensures k < |pending| ==> Ready(pending[k], delivered)
    ensures k == |pending| ==> forall op :: op in pending ==> !Ready(op, delivered)
  {
    if pending == [] then 0
    else if Ready(pending[0], delivered) then 0
    else 1 + FirstReady(pending[1..], delivered)
  }

  /** Deliver pending operations until none is ready. */
  function Drain(node: CrdtNode): CrdtNode
    decreases |node.pending|
  {
    var k := FirstReady(node.pending, node.delivered);
    if k == |node.pending| then node
    else Drain(CrdtNode(node.delivered + [node.pending[k]], node.pending[..k] + node.pending[k + 1..]))
  }

  /** Deduplicate by origin and sequence, buffer, deliver what became ready. */
  function Handle(node: CrdtNode, op: CrdtOp): CrdtNode {
    if Has(node.delivered + node.pending, op.origin, op.seqNo) then node
    else Drain(CrdtNode(node.delivered, node.pending + [op]))
  }

  function Feed(node: CrdtNode, ops: seq<CrdtOp>): CrdtNode {
    if ops == [] then node else Handle(Feed(node, ops[..|ops| - 1]), ops[|ops| - 1])
  }

  lemma {:induction false} FeedConcat(node: CrdtNode, a: seq<CrdtOp>, b: seq<CrdtOp>)
    ensures Feed(node, a + b) == Feed(Feed(node, a), b)
  {
    if b == [] {
      assert a + b == a;
    } else {
      assert (a + b)[..|a + b| - 1] == a + b[..|b| - 1];
      FeedConcat(node, a, b[..|b| - 1]);
    }
  }

  /** Every delivered operation was ready when it was delivered. */
  ghost predicate Causal(delivered: seq<CrdtOp>) {
    forall i :: 0 <= i < |delivered| ==> Ready(delivered[i], delivered[..i])
  }

  /** The node holds exactly `known`, each operation once; deliveries were causal. */
  ghost predicate Holds(node: CrdtNode, known: set<CrdtOp>) {
    && Elements(node.delivered) + Elements(node.pending) == known
    && DistinctOps(node.delivered + node.pending)
    && Causal(node.delivered)
  }

  ghost predicate Quiet(node: CrdtNode) {
    forall op :: op in node.pending ==> !Ready(op, node.delivered)
  }

  lemma MoveReady(node: CrdtNode, known: set<CrdtOp>, k: nat)
    requires Holds(node, known) && k < |node.pending| && Ready(node.pending[k], node.delivered)
    ensures Holds(CrdtNode(node.delivered + [node.pending[k]], node.pending[..k] + node.pending[k + 1..]), known)
  {
    var op, d, p := node.pending[k], node.delivered, node.pending;
    var p' := p[..k] + p[k + 1..];
    assert p == p[..k] + [op] + p[k + 1..];
    assert Elements(p) == Elements(p') + {op} by {
      forall x ensures x in p <==> x in p' || x == op {}
    }
    assert Elements(d + [op]) == Elements(d) + {op};
    forall i, j | 0 <= i < j < |d + [op] + p'| ensures OpKey((d + [op] + p')[i]) != OpKey((d + [op] + p')[j]) {
      MovedIndex(d, p, k, i);
      MovedIndex(d, p, k, j);
      var a, b := Moved(d, p, k, i), Moved(d, p, k, j);
      if a < b {
        assert OpKey((d + p)[a]) != OpKey((d + p)[b]);
      } else {
        assert OpKey((d + p)[b]) != OpKey((d + p)[a]);
      }
    }
    forall i | 0 <= i < |d + [op]| ensures Ready((d + [op])[i], (d + [op])[..i]) {
      assert (d + [op])[..i] == d[..i];
      if i == |d| { assert d[..i] == d; }
    }
  }

  /** Where position `i` after the move was before it. */
  function Moved(d: seq<CrdtOp>, p: seq<CrdtOp>, k: nat, i: nat): nat {
    if i < |d| then i else if i == |d| then |d| + k else if i <= |d| + k then i - 1 else i
  }

  lemma MovedIndex(d: seq<CrdtOp>, p: seq<CrdtOp>, k: nat, i: nat)
    requires k < |p| && i < |d| + |p|
    ensures Moved(d, p, k, i) < |d + p|
    ensures (d + [p[k]] + (p[..k] + p[k + 1..]))[i] == (d + p)[Moved(d, p, k, i)]
  {
  }

  lemma {:induction false} DrainHolds(node: CrdtNode, known: set<CrdtOp>)
    requires Holds(node, known)
    ensures Holds(Drain(node), known) && Quiet(Drain(node))
    ensures node.delivered <= Drain(node).delivered
    decreases |node.pending|
  {
    var k := FirstReady(node.pending, node.delivered);
    if k == |node.pending| {
      assert Drain(node) == node;
    } else {
      var next := CrdtNode(node.delivered + [node.pending[k]], node.pending[..k] + node.pending[k + 1..]);
      MoveReady(node, known, k);
      assert |next.pending| < |node.pending|;
      DrainHolds(next, known);
      DrainMoves(node, k);
      PrefixThrough(node.delivered, next.delivered, Drain(next).delivered);
    }
  }

  lemma DrainMoves(node: CrdtNode, k: nat)
    requires k < |node.pending| && k == FirstReady(node.pending, node.delivered)
    ensures Drain(node)
         == Drain(CrdtNode(node.delivered + [node.pending[k]], node.pending[..k] + node.pending[k + 1..]))
  {
  }

  lemma PrefixThrough(a: seq<CrdtOp>, b: seq<CrdtOp>, c: seq<CrdtOp>)
    requires a <= b <= c
    ensures a <= c
  {
  }

  lemma HandleHolds(node: CrdtNode, known: set<CrdtOp>, op: CrdtOp)
    requires Holds(node, known) && Quiet(node)
    requires forall other :: other in known ==> OpKey(other) != OpKey(op)
    ensures Holds(Handle(node, op), known + {op}) && Quiet(Handle(node, op))
    ensures node.delivered <= Handle(node, op).delivered
  {
    var all := node.delivered + node.pending;
    assert forall x :: x in all ==> x in Elements(node.delivered) + Elements(node.pending);
    forall i | 0 <= i < |all| ensures OpKey(all[i]) != OpKey(op) { assert all[i] in all; }
    assert !Has(all, op.origin, op.seqNo);
    var next := CrdtNode(node.delivered, node.pending + [op]);
    assert next.delivered + next.pending == all + [op];
    assert Elements(next.pending) == Elements(node.pending) + {op};
    DrainHolds(next, known + {op});
  }

  /** A node fed distinct operations holds exactly those, delivered causally, with nothing ready left. */
  lemma {:induction false} FeedHolds(ops: seq<CrdtOp>)
    requires DistinctOps(ops)
    ensures Holds(Feed(EMPTY_NODE, ops), Elements(ops)) && Quiet(Feed(EMPTY_NODE, ops))
  {
    if ops == [] {
      assert Elements(ops) == {} && EMPTY_NODE.delivered + EMPTY_NODE.pending == [];
    } else {
      var init, op := ops[..|ops| - 1], ops[|ops| - 1];
      FeedHolds(init);
      assert ops == init + [op];
      assert Elements(ops) == Elements(init) + {op};
      HandleHolds(Feed(EMPTY_NODE, init), Elements(init), op);
    }
  }

  /** First arrivals only: of operations with the same identity the first. */
  function Firsts(ops: seq<CrdtOp>): seq<CrdtOp> {
    if ops == [] then []
    else
      var op := ops[|ops| - 1];
      Firsts(ops[..|ops| - 1]) + if Has(ops[..|ops| - 1], op.origin, op.seqNo) then [] else [op]
  }

  lemma {:induction false} FirstsHas(ops: seq<CrdtOp>, o: string, n: int)
    ensures Has(Firsts(ops), o, n) <==> Has(ops, o, n)
  {
    if ops != [] {
      var init, op := ops[..|ops| - 1], ops[|ops| - 1];
      FirstsHas(init, o, n);
      HasAppend(init, op, o, n);
      HasAppend(Firsts(init), op, o, n);
      assert ops == init + [op] && Firsts(init) + [] == Firsts(init);
    }
  }

  lemma HasAppend(ops: seq<CrdtOp>, op: CrdtOp, o: string, n: int)
    ensures Has(ops + [op], o, n) <==> Has(ops, o, n) || OpKey(op) == (o, n)
  {
    assert (ops + [op])[|ops|] == op;
    if Has(ops, o, n) {
      var i :| 0 <= i < |ops| && OpKey(ops[i]) == (o, n);
      assert (ops + [op])[i] == ops[i];
    }
  }

  lemma {:induction false} FirstsDistinct(ops: seq<CrdtOp>)
    ensures DistinctOps(Firsts(ops))
  {
    if ops != [] {
      var init, op := ops[..|ops| - 1], ops[|ops| - 1];
      FirstsDistinct(init);
      FirstsHas(init, op.origin, op.seqNo);
    }
  }

  /** What a node holds of an identity is held whether delivered or still waiting. */
  lemma HeldAlike(node: CrdtNode, known: seq<CrdtOp>, o: string, n: int)
    requires Holds(node, Elements(known))
    ensures Has(node.delivered + node.pending, o, n) <==> Has(known, o, n)
  {
    var all := node.delivered + node.pending;
    if Has(all, o, n) {
      var i :| 0 <= i < |all| && OpKey(all[i]) == (o, n);
      assert all[i] in Elements(node.delivered) + Elements(node.pending);
      var j :| 0 <= j < |known| && known[j] == all[i];
    }
    if Has(known, o, n) {
      var j :| 0 <= j < |known| && OpKey(known[j]) == (o, n);
      assert known[j] in Elements(known) && known[j] in all;
      var i :| 0 <= i < |all| && all[i] == known[j];
    }
  }

  /** Fed again, an operation changes nothing, delivered or not: a node is left as by the first arrivals. */
  lemma {:induction false} FeedDeduplicates(ops: seq<CrdtOp>)
    ensures Feed(EMPTY_NODE, ops) == Feed(EMPTY_NODE, Firsts(ops))
    ensures Holds(Feed(EMPTY_NODE, ops), Elements(Firsts(ops)))
  {
    FirstsDistinct(ops);
    FeedHolds(Firsts(ops));
    if ops != [] {
      FeedDeduplicates(ops[..|ops| - 1]);
      FedFirst(ops[..|ops| - 1], ops[|ops| - 1], Firsts(ops[..|ops| - 1]));
    }
  }

  lemma FedFirst(init: seq<CrdtOp>, op: CrdtOp, firsts: seq<CrdtOp>)
    requires firsts == Firsts(init) && Feed(EMPTY_NODE, init) == Feed(EMPTY_NODE, firsts)
    requires Holds(Feed(EMPTY_NODE, init), Elements(firsts))
    ensures Handle(Feed(EMPTY_NODE, init), op)
         == Feed(EMPTY_NODE, firsts + if Has(init, op.origin, op.seqNo) then [] else [op])
  {
    HeldAlike(Feed(EMPTY_NODE, init), firsts, op.origin, op.seqNo);
    FirstsHas(init, op.origin, op.seqNo);
    assert (firsts + [op])[..|firsts|] == firsts && firsts + [] == firsts;
  }

  lemma {:induction false} FeedGrows(node: CrdtNode, known: set<CrdtOp>, ops: seq<CrdtOp>)
    requires Holds(node, known) && Quiet(node) && DistinctOps(ops)
    requires forall a, b :: a in known && b in ops ==> OpKey(a) != OpKey(b)
    ensures node.delivered <= Feed(node, ops).delivered
    ensures Holds(Feed(node, ops), known + Elements(ops)) && Quiet(Feed(node, ops))
  {
    if ops == [] {
      assert known + Elements(ops) == known;
    } else {
      var init, op := ops[..|ops| - 1], ops[|ops| - 1];
      assert ops == init + [op];
      FeedGrows(node, known, init);
      assert known + Elements(ops) == known + Elements(init) + {op};
      HandleHolds(Feed(node, init), known + Elements(init), op);
    }
  }

  // ---- confluence ----------------------------------------------------------------------------

  lemma ReadyMonotone(op: CrdtOp, small: seq<CrdtOp>, large: seq<CrdtOp>)
    requires Ready(op, small) && forall x :: x in small ==> x in large
    ensures Ready(op, large)
  {
    forall origin, n | Has(small, origin, n) ensures Has(large, origin, n) {
      var i :| 0 <= i < |small| && OpKey(small[i]) == (origin, n);
      assert small[i] in small;
      var j :| 0 <= j < |large| && large[j] == small[i];
    }
  }

  /** Whatever one causal run delivered, a quiet node holding the same operations has delivered too. */
  lemma {:induction false} DeliveredWithin(a: seq<CrdtOp>, node: CrdtNode, known: set<CrdtOp>)
    requires Causal(a) && Elements(a) <= known && Holds(node, known) && Quiet(node)
    ensures forall op :: op in a ==> op in node.delivered
  {
    if a != [] {
      var init, op := a[..|a| - 1], a[|a| - 1];
      assert a == init + [op];
      forall i | 0 <= i < |init| ensures Ready(init[i], init[..i]) {
        assert init[..i] == a[..i];
        assert Ready(a[i], a[..i]);
      }
      assert Elements(init) <= Elements(a);
      DeliveredWithin(init, node, known);
      assert Ready(a[|a| - 1], a[..|a| - 1]);
      ReadyMonotone(op, init, node.delivered);
      assert op in Elements(a);
      assert op in Elements(node.delivered) + Elements(node.pending);
    }
  }

  /** Causal delivery is confluent: the delivered operations do not depend on the order of arrival. */
  lemma DeliveryConfluent(a: seq<CrdtOp>, b: seq<CrdtOp>)
    requires DistinctOps(a) && DistinctOps(b) && Elements(a) == Elements(b)
    ensures Elements(Feed(EMPTY_NODE, a).delivered) == Elements(Feed(EMPTY_NODE, b).delivered)
  {
    FeedHolds(a);
    FeedHolds(b);
    DeliveredWithin(Feed(EMPTY_NODE, a).delivered, Feed(EMPTY_NODE, b), Elements(b));
    DeliveredWithin(Feed(EMPTY_NODE, b).delivered, Feed(EMPTY_NODE, a), Elements(a));
  }

  lemma DeliveredDistinct(ops: seq<CrdtOp>)
    requires DistinctOps(ops)
    ensures DistinctOps(Feed(EMPTY_NODE, ops).delivered)
  {
    FeedHolds(ops);
    var node := Feed(EMPTY_NODE, ops);
    assert forall i :: 0 <= i < |node.delivered| ==> (node.delivered + node.pending)[i] == node.delivered[i];
  }

  /** Any arrival order of the same operations folds to the same atoms and tombstones. */
  lemma ArrivalOrderIndependent(less: (string, string) -> bool, a: seq<CrdtOp>, b: seq<CrdtOp>)
    requires StrictTotal(less) && DistinctOps(a) && DistinctOps(b) && Elements(a) == Elements(b)
    ensures FoldOps(less, EMPTY, Feed(EMPTY_NODE, a).delivered) == FoldOps(less, EMPTY, Feed(EMPTY_NODE, b).delivered)
  {
    DeliveryConfluent(a, b);
    DeliveredDistinct(a);
    DeliveredDistinct(b);
    var d, e := Feed(EMPTY_NODE, a).delivered, Feed(EMPTY_NODE, b).delivered;
    FoldDescribed(less, d);
    FoldDescribed(less, e);
    SameDescription(less, d, e, FoldOps(less, EMPTY, d), FoldOps(less, EMPTY, e));
  }
}
