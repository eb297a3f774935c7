/** A text document over a run of replacements: new operations build on everything held, so they are
    delivered at once, and each replacement reads exactly the requested text. */
module Document {
  import opened Wrappers
  import opened Orders
  import opened Forest
  import opened AtomIds
  import opened TextOps
  import opened Fold
  import opened Delivery
  import opened Projection
  import opened Planner
  import opened Replacement
  import opened Normalise
  import opened Assembler
  import opened Minting

  ghost function NodeOf(ops: seq<TextOp>): CrdtNode
    requires AllValid(ops)
  {
    Feed(EMPTY_NODE, FullFeed(ops))
  }

  ghost predicate AllDelivered(ops: seq<TextOp>)
    requires AllValid(ops)
  {
    NodeOf(ops).pending == []
  }

  /** A proper log in which every operation has been delivered. */
  ghost predicate Settled(ops: seq<TextOp>) {
    AllValid(ops) && UniqueKeys(ops) && AllDelivered(ops)
  }

  /** `op` continues its origin's sequence, refers only to held operations and outranks all of them. */
  ghost predicate Follows(ops: seq<TextOp>, op: TextOp) {
    && ValidOp(op) && !HasKey(ops, Key(op))
    && MaxLamport(ops) < op.lamport
    && (op.origin in Bases(ops) ==> HasKey(ops, (op.origin, op.seqNo - 1)))
    && forall i :: 0 <= i < |op.refs| ==> HasKey(ops, (op.refs[i].origin, op.refs[i].seqNo))
  }

  ghost predicate FollowsAll(ops: seq<TextOp>, more: seq<TextOp>)
    decreases |more|
  {
    more == [] || (Follows(ops, more[0]) && FollowsAll(ops + [more[0]], more[1..]))
  }

  // ---- delivery of a following operation -----------------------------------------------------

  lemma AllInDelivered(ops: seq<TextOp>, i: nat)
    requires Settled(ops) && i < |ops|
    ensures NormaliseOp(ops[i], Bases(ops)) in NodeOf(ops).delivered
  {
    FeedDistinct(ops, Bases(ops));
    FeedHolds(FullFeed(ops));
    assert FullFeed(ops)[i] in Elements(FullFeed(ops));
    assert NormaliseOp(ops[i], Bases(ops)) in Elements(NodeOf(ops).delivered) + Elements(NodeOf(ops).pending);
  }

  lemma HeldDelivered(ops: seq<TextOp>, o: string, n: int)
    requires Settled(ops) && HasKey(ops, (o, n))
    ensures o in Bases(ops) && Bases(ops)[o] <= n
    ensures Has(NodeOf(ops).delivered, o, CrdtSequence(o, n, Bases(ops)))
  {
    var i :| 0 <= i < |ops| && Key(ops[i]) == (o, n);
    BasesDescribed(ops);
    AllInDelivered(ops, i);
    var d := NodeOf(ops).delivered;
    var k :| 0 <= k < |d| && d[k] == NormaliseOp(ops[i], Bases(ops));
  }

  lemma DeliveredOriginHeld(ops: seq<TextOp>, d: seq<CrdtOp>, o: string, n: int)
    requires AllValid(ops) && UniqueKeys(ops) && (forall x :: x in d ==> x in NodeOf(ops).delivered) && Has(d, o, n)
    ensures o in Bases(ops)
  {
    FeedDistinct(ops, Bases(ops));
    FeedHolds(FullFeed(ops));
    var k :| 0 <= k < |d| && OpKey(d[k]) == (o, n);
    assert d[k] in d && d[k] in Elements(NodeOf(ops).delivered);
    assert d[k] in FullFeed(ops);
    var i :| 0 <= i < |ops| && FullFeed(ops)[i] == d[k];
    BasesDescribed(ops);
  }

  /** When everything is delivered, every referenced origin is held. */
  lemma ReferencedHeld(ops: seq<TextOp>, o: string)
    requires Settled(ops) && o in Referenced(ops)
    ensures o in Bases(ops)
  {
    var i, j :| 0 <= i < |ops| && 0 <= j < |ops[i].refs| && ops[i].refs[j].origin == o;
    var op, bases, d := ops[i], Bases(ops), NodeOf(ops).delivered;
    assert ValidOp(op);
    if o !in bases {
      ClockDescribed(op.refs, bases);
      assert CrdtSequence(op.refs[j].origin, op.refs[j].seqNo, bases) > 0;
      var c := NormaliseOp(op, bases);
      AllInDelivered(ops, i);
      FeedDistinct(ops, bases);
      FeedHolds(FullFeed(ops));
      var k :| 0 <= k < |d| && d[k] == c;
      assert Ready(d[k], d[..k]);
      DeliveredOriginHeld(ops, d[..k], o, c.deps[o]);
    }
  }

  lemma BasesAppend(ops: seq<TextOp>, op: TextOp)
    ensures Bases(ops + [op]) == LowerBase(Bases(ops), op)
  {
    assert (ops + [op])[..|ops|] == ops;
  }

  lemma FollowsKeepsBases(ops: seq<TextOp>, op: TextOp)
    requires Settled(ops) && Follows(ops, op)
    ensures forall o :: o in Bases(ops) ==> o in Bases(ops + [op]) && Bases(ops + [op])[o] == Bases(ops)[o]
    ensures forall o :: !Shifted(Bases(ops), Referenced(ops), Bases(ops + [op]), o)
    ensures op.origin !in Bases(ops) ==> Bases(ops + [op]) == Bases(ops)[op.origin := op.seqNo]
  {
    BasesAppend(ops, op);
    if op.origin in Bases(ops) {
      HeldDelivered(ops, op.origin, op.seqNo - 1);
    } else {
      if op.origin in Referenced(ops) { ReferencedHeld(ops, op.origin); }
    }
  }

  lemma FollowsReadyDep(ops: seq<TextOp>, op: TextOp, o: string)
    requires Settled(ops) && Follows(ops, op)
    requires o in Clock(op.refs, Bases(ops + [op]))
    ensures Has(NodeOf(ops).delivered, o, Clock(op.refs, Bases(ops + [op]))[o])
  {
    var bases := Bases(ops + [op]);
    ClockDescribed(op.refs, bases);
    var i :| 0 <= i < |op.refs| && op.refs[i].origin == o
        && CrdtSequence(o, op.refs[i].seqNo, bases) == Clock(op.refs, bases)[o];
    var n := op.refs[i].seqNo;
    assert HasKey(ops, (op.refs[i].origin, op.refs[i].seqNo));
    HeldDelivered(ops, o, n);
    assert CrdtSequence(o, n, bases) == CrdtSequence(o, n, Bases(ops)) by { FollowsKeepsBases(ops, op); }
  }

  lemma FollowsReady(ops: seq<TextOp>, op: TextOp)
    requires Settled(ops) && Follows(ops, op)
    ensures Ready(NormaliseOp(op, Bases(ops + [op])), NodeOf(ops).delivered)
  {
    var c := NormaliseOp(op, Bases(ops + [op]));
    FollowsKeepsBases(ops, op);
    if op.origin in Bases(ops) { HeldDelivered(ops, op.origin, op.seqNo - 1); }
    forall o | o in c.deps ensures Has(NodeOf(ops).delivered, o, c.deps[o]) { FollowsReadyDep(ops, op, o); }
  }

  lemma DrainEmpty(delivered: seq<CrdtOp>)
    ensures Drain(CrdtNode(delivered, [])) == CrdtNode(delivered, [])
  {
  }

  lemma HandleReady(node: CrdtNode, op: CrdtOp)
    requires node.pending == [] && Ready(op, node.delivered) && !Has(node.delivered, op.origin, op.seqNo)
    ensures Handle(node, op) == CrdtNode(node.delivered + [op], [])
  {
    assert node.delivered + node.pending == node.delivered;
    assert node.pending + [op] == [op];
    assert [op][..0] + [op][1..] == [];
    DrainEmpty(node.delivered + [op]);
    assert Drain(CrdtNode(node.delivered, [op])) == Drain(CrdtNode(node.delivered + [op], []));
  }

  /** Nothing already fed changes when a following operation is added. */
  lemma FollowsFeed(ops: seq<TextOp>, op: TextOp)
    requires Settled(ops) && Follows(ops, op)
    ensures AllValid(ops + [op]) && UniqueKeys(ops + [op])
    ensures FullFeed(ops + [op]) == FullFeed(ops) + [NormaliseOp(op, Bases(ops + [op]))]
  {
    var bases := Bases(ops + [op]);
    assert forall i :: 0 <= i < |ops| ==> Key(ops[i]) != Key(op);
    FollowsKeepsBases(ops, op);
    FeedUnchanged(ops, bases);
    NormaliseConcat(ops, [op], bases);
    assert NormaliseAll([op], bases) == [NormaliseOp(op, bases)];
  }

  /** A following operation is delivered as soon as it is fed. */
  lemma FollowsDelivered(ops: seq<TextOp>, op: TextOp)
    requires Settled(ops) && Follows(ops, op)
    ensures Settled(ops + [op])
    ensures NodeOf(ops + [op]).delivered == NodeOf(ops).delivered + [NormaliseOp(op, Bases(ops + [op]))]
  {
    var c := NormaliseOp(op, Bases(ops + [op]));
    FollowsFeed(ops, op);
    FollowsReady(ops, op);
    NotYetFed(ops, op);
    FeedConcat(EMPTY_NODE, FullFeed(ops), [c]);
    FeedOne(NodeOf(ops), c);
  }

  lemma FeedOne(node: CrdtNode, c: CrdtOp)
    requires node.pending == [] && Ready(c, node.delivered) && !Has(node.delivered, c.origin, c.seqNo)
    ensures Feed(node, [c]) == CrdtNode(node.delivered + [c], [])
  {
    HandleReady(node, c);
    assert [c][..0] == [];
    assert Feed(node, []) == node;
  }

  lemma NewKey(ops: seq<TextOp>, op: TextOp, i: nat)
    requires Settled(ops) && Follows(ops, op) && i < |ops|
    ensures OpKey(NormaliseOp(ops[i], Bases(ops))) != OpKey(NormaliseOp(op, Bases(ops + [op])))
  {
    OriginHeld(ops, i);
    FollowsKeepsBases(ops, op);
    DistinctNormalised(ops[i], Bases(ops), op, Bases(ops + [op]));
  }

  lemma DistinctNormalised(a: TextOp, bases: BaseMap, b: TextOp, bases': BaseMap)
    requires ValidOp(a) && ValidOp(b) && Key(a) != Key(b)
    requires a.origin == b.origin ==> BaseFor(bases, a.origin) == BaseFor(bases', b.origin)
    ensures OpKey(NormaliseOp(a, bases)) != OpKey(NormaliseOp(b, bases'))
  {
  }

  lemma NotYetFed(ops: seq<TextOp>, op: TextOp)
    requires Settled(ops) && Follows(ops, op)
    ensures var c := NormaliseOp(op, Bases(ops + [op])); !Has(NodeOf(ops).delivered, c.origin, c.seqNo)
  {
    var d, feed, c := NodeOf(ops).delivered, FullFeed(ops), NormaliseOp(op, Bases(ops + [op]));
    FeedDistinct(ops, Bases(ops));
    FeedHolds(feed);
    forall k | 0 <= k < |d| ensures OpKey(d[k]) != OpKey(c) {
      assert d[k] in Elements(d);
      assert d[k] in feed;
      var i :| 0 <= i < |feed| && feed[i] == d[k];
      NewKey(ops, op, i);
    }
  }

  /** What a batch of operations looks like to the node. */
  ghost predicate Mirrors(feed: seq<CrdtOp>, more: seq<TextOp>) {
    |feed| == |more| && forall k :: 0 <= k < |feed| ==> DecodeTextEdit(more[k].payload) == Some(feed[k].edit)
  }

  lemma MirrorsCons(c: CrdtOp, rest: seq<CrdtOp>, more: seq<TextOp>)
    requires more != [] && Mirrors(rest, more[1..]) && DecodeTextEdit(more[0].payload) == Some(c.edit)
    ensures Mirrors([c] + rest, more)
  {
    assert forall k :: 0 < k < |more| ==> more[k] == more[1..][k - 1] && ([c] + rest)[k] == rest[k - 1];
  }

  /** Operations following one another are delivered in turn, as soon as they are fed. */
  lemma {:induction false} BatchDelivered(ops: seq<TextOp>, more: seq<TextOp>, all: seq<TextOp>)
    returns (feed: seq<CrdtOp>)
    requires Settled(ops) && FollowsAll(ops, more) && all == ops + more
    ensures Mirrors(feed, more) && Settled(all)
    ensures NodeOf(all).delivered == NodeOf(ops).delivered + feed
    decreases |more|
  {
    if more == [] {
      feed := [];
      assert all == ops;
    } else {
      var next, tail := ops + [more[0]], more[1..];
      var c := FollowsNext(ops, more[0]);
      AppendShift(ops, more, all);
      var rest := BatchDelivered(next, tail, all);
      feed := [c] + rest;
      MirrorsCons(c, rest, more);
      ConcatShift(NodeOf(ops).delivered, c, rest);
    }
  }

  lemma AppendShift(ops: seq<TextOp>, more: seq<TextOp>, all: seq<TextOp>)
    requires more != [] && all == ops + more
    ensures all == (ops + [more[0]]) + more[1..]
  {
  }

  lemma ConcatShift(d: seq<CrdtOp>, c: CrdtOp, rest: seq<CrdtOp>)
    ensures (d + [c]) + rest == d + ([c] + rest)
  {
  }

  lemma FollowsNext(ops: seq<TextOp>, op: TextOp) returns (c: CrdtOp)
    requires Settled(ops) && Follows(ops, op)
    ensures Settled(ops + [op]) && DecodeTextEdit(op.payload) == Some(c.edit)
    ensures NodeOf(ops + [op]).delivered == NodeOf(ops).delivered + [c]
  {
    c := NormaliseOp(op, Bases(ops + [op]));
    FollowsDelivered(ops, op);
  }
}
