/** Two replicas exchanging what they hold: the merged document is as sound as each of them, shows the same
    on both sides, and never reorders what either already showed. */
module Merging {
  import opened Wrappers
  import opened Orders
  import opened Forest
  import opened AtomIds
  import opened TextOps
  import opened Fold
  import opened Delivery
  import opened Projection
  import opened Normalise
  import opened Assembler
  import opened Minting
  import opened Document
  import opened Runs
  import opened Selection

  /** Equal identities name equal operations. */
  ghost predicate Agree(a: seq<TextOp>, b: seq<TextOp>) {
    forall x, y :: x in a && y in b && Key(x) == Key(y) ==> x == y
  }

  /** Both logs begin each origin they share with the same operation. */
  ghost predicate SameStarts(a: seq<TextOp>, b: seq<TextOp>) {
    forall o :: o in Bases(a) && o in Bases(b) ==> Bases(a)[o] == Bases(b)[o]
  }

  /** No two operations insert the same atom. */
  ghost predicate OncePerAtom(ops: seq<TextOp>) {
    forall x, y :: x in ops && y in ops && InsertsSame(x, y) ==> x == y
  }

  predicate InsertsSame(x: TextOp, y: TextOp) {
    x.payload.EditPayload? && y.payload.EditPayload? && x.payload.edit.InsertAtom? && y.payload.edit.InsertAtom?
    && x.payload.edit.atomId == y.payload.edit.atomId
  }

  /** `part` lies in `all` with the same sequence bases. */
  ghost predicate PartOf(part: seq<TextOp>, all: seq<TextOp>) {
    && (forall op :: op in part ==> op in all)
    && forall o :: o in Bases(part) ==> o in Bases(all) && Bases(all)[o] == Bases(part)[o]
  }

  lemma PartNormalises(part: seq<TextOp>, all: seq<TextOp>, i: nat)
    requires Settled(part) && AllValid(all) && PartOf(part, all) && i < |part|
    ensures NormaliseOp(part[i], Bases(part)) == NormaliseOp(part[i], Bases(all))
    ensures NormaliseOp(part[i], Bases(part)) in FullFeed(all)
  {
    var op := part[i];
    OriginHeld(part, i);
    assert ValidOp(part[i]);
    forall j | 0 <= j < |op.refs|
      ensures BaseFor(Bases(part), op.refs[j].origin) == BaseFor(Bases(all), op.refs[j].origin)
    {
      assert part[i].refs[j].origin in Referenced(part);
      ReferencedHeld(part, op.refs[j].origin);
    }
    ClockUnchanged(op.refs, Bases(part), Bases(all));
    assert op in all;
    var k :| 0 <= k < |all| && all[k] == op;
    assert FullFeed(all)[k] == NormaliseOp(all[k], Bases(all));
  }

  /** What one replica delivered is delivered in the merged log too. */
  lemma PartDelivered(part: seq<TextOp>, all: seq<TextOp>)
    requires Settled(part) && AllValid(all) && UniqueKeys(all) && PartOf(part, all)
    ensures forall c :: c in NodeOf(part).delivered ==> c in NodeOf(all).delivered
  {
    var d, feed := NodeOf(part).delivered, FullFeed(part);
    FeedDistinct(part, Bases(part));
    FeedDistinct(all, Bases(all));
    FeedHolds(feed);
    FeedHolds(FullFeed(all));
    forall c | c in Elements(d) ensures c in Elements(FullFeed(all)) {
      assert c in Elements(d) + Elements(NodeOf(part).pending);
      var i :| 0 <= i < |feed| && feed[i] == c;
      PartNormalises(part, all, i);
    }
    DeliveredWithin(d, NodeOf(all), Elements(FullFeed(all)));
  }

  lemma PartOpDelivered(part: seq<TextOp>, all: seq<TextOp>, op: TextOp)
    requires Settled(part) && AllValid(all) && UniqueKeys(all) && PartOf(part, all) && op in part && ValidOp(op)
    ensures NormaliseOp(op, Bases(all)) in NodeOf(all).delivered
    ensures NormaliseOp(op, Bases(all)) in NodeOf(part).delivered
  {
    var i :| 0 <= i < |part| && part[i] == op;
    AllInDelivered(part, i);
    PartNormalises(part, all, i);
    PartDelivered(part, all);
  }

  /** `all` holds exactly what `a` and `b` hold, with the bases of each. */
  ghost predicate Merges(a: seq<TextOp>, b: seq<TextOp>, all: seq<TextOp>) {
    && AllValid(all) && UniqueKeys(all) && PartOf(a, all) && PartOf(b, all)
    && forall op :: op in all ==> op in a || op in b
  }

  /** Every operation of a merged log is delivered. */
  lemma MergedSettled(a: seq<TextOp>, b: seq<TextOp>, all: seq<TextOp>)
    requires Settled(a) && Settled(b) && Merges(a, b, all)
    ensures Settled(all)
  {
    var node, feed := NodeOf(all), FullFeed(all);
    FeedDistinct(all, Bases(all));
    FeedHolds(feed);
    if node.pending != [] {
      var c := node.pending[0];
      assert c in Elements(node.delivered) + Elements(node.pending);
      var k :| 0 <= k < |feed| && feed[k] == c;
      assert ValidOp(all[k]) && all[k] in all;
      if all[k] in a { PartOpDelivered(a, all, all[k]); } else { PartOpDelivered(b, all, all[k]); }
      DeliveredNotPending(node, c);
    }
  }

  lemma DeliveredNotPending(node: CrdtNode, c: CrdtOp)
    requires DistinctOps(node.delivered + node.pending) && node.pending != [] && c == node.pending[0]
    ensures c !in node.delivered
  {
    var both := node.delivered + node.pending;
    assert both[|node.delivered|] == c;
    forall i | 0 <= i < |node.delivered| ensures node.delivered[i] != c {
      assert both[i] == node.delivered[i] && OpKey(both[i]) != OpKey(both[|node.delivered|]);
    }
  }

  lemma DeliveredFrom(ops: seq<TextOp>, c: CrdtOp) returns (i: nat)
    requires AllValid(ops) && UniqueKeys(ops) && c in NodeOf(ops).delivered
    ensures i < |ops| && FullFeed(ops)[i] == c && c == NormaliseOp(ops[i], Bases(ops))
  {
    FeedDistinct(ops, Bases(ops));
    FeedHolds(FullFeed(ops));
    assert c in Elements(NodeOf(ops).delivered) + Elements(NodeOf(ops).pending);
    i :| 0 <= i < |FullFeed(ops)| && FullFeed(ops)[i] == c;
  }

  lemma Described(profile: Profile, ops: seq<TextOp>, id: string)
    requires StrictTotal(profile.less) && AllValid(ops) && UniqueKeys(ops)
    ensures DescribesId(profile.less, NodeOf(ops).delivered, FoldOf(profile, ops), id)
  {
    FeedDistinct(ops, Bases(ops));
    DeliveredDistinct(FullFeed(ops));
    FoldDescribed(profile.less, NodeOf(ops).delivered);
  }

  /** With one operation per atom, delivered inserts of one id are one operation. */
  lemma OneInsert(ops: seq<TextOp>, id: string, c: CrdtOp, d: CrdtOp)
    requires AllValid(ops) && UniqueKeys(ops) && OncePerAtom(ops)
    requires Inserts(NodeOf(ops).delivered, id, c) && Inserts(NodeOf(ops).delivered, id, d)
    ensures c == d
  {
    var i := DeliveredFrom(ops, c);
    var j := DeliveredFrom(ops, d);
    assert ValidOp(ops[i]) && ValidOp(ops[j]);
    assert InsertsSame(ops[i], ops[j]);
  }

  /** A replica's atoms and tombstones are in the merged log's, unchanged. */
  lemma PartKept(profile: Profile, part: seq<TextOp>, all: seq<TextOp>, id: string)
    requires StrictTotal(profile.less) && Settled(part) && Settled(all) && PartOf(part, all) && OncePerAtom(all)
    ensures var s, t := FoldOf(profile, part), FoldOf(profile, all);
            && (id in s.atoms ==> id in t.atoms && t.atoms[id] == s.atoms[id])
            && (id in s.deleted ==> id in t.deleted)
  {
    var d, e, s, t := NodeOf(part).delivered, NodeOf(all).delivered, FoldOf(profile, part), FoldOf(profile, all);
    PartDelivered(part, all);
    Described(profile, part, id);
    Described(profile, all, id);
    if id in s.atoms {
      var c :| Inserts(d, id, c) && Candidate(c) == s.atoms[id];
      assert Inserts(e, id, c);
      var w :| Inserts(e, id, w) && Candidate(w) == t.atoms[id];
      OneInsert(all, id, c, w);
    }
    if id in s.deleted {
      var c :| c in d && c.edit == DeleteAtom(id);
      assert c in e;
    }
  }

  lemma FromPart(profile: Profile, part: seq<TextOp>, all: seq<TextOp>, id: string, op: TextOp)
    requires StrictTotal(profile.less) && Settled(part) && Settled(all) && PartOf(part, all) && op in part
    requires ValidOp(op)
    ensures NormaliseOp(op, Bases(all)).edit == DeleteAtom(id) ==> id in FoldOf(profile, part).deleted
    ensures Inserts([NormaliseOp(op, Bases(all))], id, NormaliseOp(op, Bases(all)))
            ==> id in FoldOf(profile, part).atoms
  {
    var c := NormaliseOp(op, Bases(all));
    PartOpDelivered(part, all, op);
    Described(profile, part, id);
    if Inserts([c], id, c) { assert Inserts(NodeOf(part).delivered, id, c); }
  }

  /** The merged log has no other atoms and tombstones than the replicas'. */
  lemma NothingElse(profile: Profile, a: seq<TextOp>, b: seq<TextOp>, all: seq<TextOp>, id: string)
    requires StrictTotal(profile.less) && Settled(a) && Settled(b) && Settled(all) && Merges(a, b, all)
    ensures id in FoldOf(profile, all).atoms ==> id in FoldOf(profile, a).atoms || id in FoldOf(profile, b).atoms
    ensures id in FoldOf(profile, all).deleted ==> id in FoldOf(profile, a).deleted || id in FoldOf(profile, b).deleted
  {
    var e := NodeOf(all).delivered;
    Described(profile, all, id);
    if id in FoldOf(profile, all).atoms {
      var c :| Inserts(e, id, c);
      FromEither(profile, a, b, all, id, c);
    }
    if id in FoldOf(profile, all).deleted {
      var c :| c in e && c.edit == DeleteAtom(id);
      FromEither(profile, a, b, all, id, c);
    }
  }

  lemma FromEither(profile: Profile, a: seq<TextOp>, b: seq<TextOp>, all: seq<TextOp>, id: string, c: CrdtOp)
    requires StrictTotal(profile.less) && Settled(a) && Settled(b) && Settled(all) && Merges(a, b, all)
    requires c in NodeOf(all).delivered
    ensures c.edit == DeleteAtom(id) ==> id in FoldOf(profile, a).deleted || id in FoldOf(profile, b).deleted
    ensures Inserts(NodeOf(all).delivered, id, c) ==> id in FoldOf(profile, a).atoms || id in FoldOf(profile, b).atoms
  {
    var i := DeliveredFrom(all, c);
    assert ValidOp(all[i]) && all[i] in all;
    if all[i] in a { FromPart(profile, a, all, id, all[i]); } else { FromPart(profile, b, all, id, all[i]); }
  }

  lemma RankedPart(encode: Encoder, part: seq<TextOp>, op: TextOp)
    requires Ranked(encode, part) && op in part
    ensures RankedOp(encode, op)
  {
    var i :| 0 <= i < |part| && part[i] == op;
    assert RankedOp(encode, part[i]);
  }

  /** The merge of two sound documents in which no atom is inserted twice is a sound document: the next
      replacement on it again reads exactly the requested text. */
  lemma MergeSound(profile: Profile, encode: Encoder, a: seq<TextOp>, b: seq<TextOp>, all: seq<TextOp>)
    requires StrictTotal(profile.less) && Sound(profile, encode, a) && Sound(profile, encode, b)
    requires Merges(a, b, all) && OncePerAtom(all)
    ensures Sound(profile, encode, all)
  {
    MergedSettled(a, b, all);
    MergedForest(profile, encode, a, b, all);
    forall i | 0 <= i < |all| ensures RankedOp(encode, all[i]) {
      assert all[i] in all;
      if all[i] in a { RankedPart(encode, a, all[i]); } else { RankedPart(encode, b, all[i]); }
    }
    forall id | id in FoldOf(profile, all).deleted ensures id in FoldOf(profile, all).atoms.Keys {
      NothingElse(profile, a, b, all, id);
      PartKept(profile, a, all, id);
      PartKept(profile, b, all, id);
    }
  }

  lemma MergedForest(profile: Profile, encode: Encoder, a: seq<TextOp>, b: seq<TextOp>, all: seq<TextOp>)
    requires StrictTotal(profile.less) && Sound(profile, encode, a) && Sound(profile, encode, b)
    requires Merges(a, b, all) && OncePerAtom(all) && Settled(all)
    ensures IsForest(Links(FoldOf(profile, all).atoms))
  {
    var f := Links(FoldOf(profile, all).atoms);
    PartContained(profile, a, all);
    PartContained(profile, b, all);
    forall id | id in f ensures Reaches(f, id) {
      NothingElse(profile, a, b, all, id);
      if id in FoldOf(profile, a).atoms {
        PathMonotone(Links(FoldOf(profile, a).atoms), f, id);
      } else {
        PathMonotone(Links(FoldOf(profile, b).atoms), f, id);
      }
    }
  }

  lemma PartContained(profile: Profile, part: seq<TextOp>, all: seq<TextOp>)
    requires StrictTotal(profile.less) && Settled(part) && Settled(all) && PartOf(part, all) && OncePerAtom(all)
    ensures Contained(Links(FoldOf(profile, part).atoms), Links(FoldOf(profile, all).atoms))
  {
    forall id | id in FoldOf(profile, part).atoms
      ensures id in FoldOf(profile, all).atoms && FoldOf(profile, all).atoms[id] == FoldOf(profile, part).atoms[id]
    {
      PartKept(profile, part, all, id);
    }
  }

  /** Merging never reorders: the merged document extends what each replica showed, tombstones included. */
  lemma MergeExtends(profile: Profile, encode: Encoder, a: seq<TextOp>, b: seq<TextOp>, all: seq<TextOp>)
    returns (at: seq<nat>)
    requires StrictTotal(profile.less) && Sound(profile, encode, a) && Sound(profile, encode, b)
    requires Merges(a, b, all) && OncePerAtom(all)
    ensures AllValid(all) && Extends(AssembleText(profile, a).elements, AssembleText(profile, all).elements, at)
  {
    MergeSound(profile, encode, a, b, all);
    var s, t := FoldOf(profile, a), FoldOf(profile, all);
    forall id
      ensures (id in s.atoms ==> id in t.atoms && t.atoms[id] == s.atoms[id]) && (id in s.deleted ==> id in t.deleted)
    {
      PartKept(profile, a, all, id);
    }
    at := LaterStatesExtend(profile.decode, s, t);
  }

  // ---- exchanging operations ---------------------------------------------------------------------------

  lemma {:induction false} FreshComplete(a: seq<TextOp>, b: seq<TextOp>)
    requires Agree(a, b) && Agree(b, b)
    ensures forall op :: op in a + FreshOf(a, b) <==> op in a || op in b
  {
    if b != [] {
      var init, op := b[..|b| - 1], b[|b| - 1];
      assert b == init + [op];
      FreshComplete(a, init);
      var novel := FreshOf(a, init);
      if HasKey(a, Key(op)) {
        var i :| 0 <= i < |a| && Key(a[i]) == Key(op);
        assert a[i] in a && op in b;
      } else if HasKey(novel, Key(op)) {
        var i :| 0 <= i < |novel| && Key(novel[i]) == Key(op);
        assert novel[i] in a + novel;
      } else {
        assert a + FreshOf(a, b) == (a + novel) + [op];
      }
    }
  }

  lemma JoinedBases(a: seq<TextOp>, b: seq<TextOp>, all: seq<TextOp>)
    requires SameStarts(a, b) && forall op :: op in all <==> op in a || op in b
    ensures PartOf(a, all) && PartOf(b, all)
  {
    BasesDescribed(a);
    BasesDescribed(b);
    BasesDescribed(all);
    forall o | o in Bases(a) ensures o in Bases(all) && Bases(all)[o] == Bases(a)[o] { JoinedBase(a, b, all, o); }
    forall o | o in Bases(b) ensures o in Bases(all) && Bases(all)[o] == Bases(b)[o] { JoinedBase(b, a, all, o); }
  }

  lemma JoinedBase(a: seq<TextOp>, b: seq<TextOp>, all: seq<TextOp>, o: string)
    requires SameStarts(a, b) && (forall op :: op in all <==> op in a || op in b) && o in Bases(a)
    ensures o in Bases(all) && Bases(all)[o] == Bases(a)[o]
  {
    BasesDescribed(a);
    BasesDescribed(b);
    BasesDescribed(all);
    var i :| 0 <= i < |a| && a[i].origin == o && a[i].seqNo == Bases(a)[o];
    assert a[i] in all;
    var k :| 0 <= k < |all| && all[k] == a[i];
    var m :| 0 <= m < |all| && all[m].origin == o && all[m].seqNo == Bases(all)[o];
    assert all[m] in all;
    if all[m] in a {
      var j :| 0 <= j < |a| && a[j] == all[m];
    } else {
      var j :| 0 <= j < |b| && b[j] == all[m];
      assert o in Bases(b);
    }
  }

  lemma MergeOf(a: seq<TextOp>, b: seq<TextOp>)
    requires AllValid(a) && AllValid(b) && UniqueKeys(a) && UniqueKeys(b) && Agree(a, b) && SameStarts(a, b)
    ensures Merges(a, b, a + FreshOf(a, b))
  {
    UniqueAgrees(b);
    FreshComplete(a, b);
    FreshDescribed(a, b);
    FreshValid(a, FreshOf(a, b), b);
    JoinedBases(a, b, a + FreshOf(a, b));
  }

  lemma UniqueAgrees(ops: seq<TextOp>)
    requires UniqueKeys(ops)
    ensures Agree(ops, ops)
  {
    forall x, y | x in ops && y in ops && Key(x) == Key(y) ensures x == y {
      var i :| 0 <= i < |ops| && ops[i] == x;
      var j :| 0 <= j < |ops| && ops[j] == y;
      SameIndex(ops, i, j);
    }
  }

  /** Two replicas that send each other what they hold end up sound and showing the same document. */
  lemma ExchangeConverges(profile: Profile, encode: Encoder, a: seq<TextOp>, b: seq<TextOp>)
    requires StrictTotal(profile.less) && Sound(profile, encode, a) && Sound(profile, encode, b)
    requires Agree(a, b) && Agree(b, a) && SameStarts(a, b) && SameStarts(b, a) && OncePerAtom(a + b)
    ensures Sound(profile, encode, a + FreshOf(a, b)) && Sound(profile, encode, b + FreshOf(b, a))
    ensures AssembleText(profile, a + FreshOf(a, b)) == AssembleText(profile, b + FreshOf(b, a))
  {
    var x, y := a + FreshOf(a, b), b + FreshOf(b, a);
    MergeOf(a, b);
    MergeOf(b, a);
    OnceIn(a, b, x);
    OnceIn(b, a, y);
    MergeSound(profile, encode, a, b, x);
    MergeSound(profile, encode, b, a, y);
    MembersMatch(x, y);
    MembersMatch(y, x);
    SameLogSameFold(profile, x, y);
  }

  lemma OnceIn(a: seq<TextOp>, b: seq<TextOp>, all: seq<TextOp>)
    requires (OncePerAtom(a + b) || OncePerAtom(b + a)) && Merges(a, b, all)
    ensures OncePerAtom(all)
  {
    assert forall op :: op in all ==> op in a + b && op in b + a;
  }

  lemma MembersMatch(x: seq<TextOp>, y: seq<TextOp>)
    requires forall op :: op in x ==> op in y
    ensures Matches(x, y)
  {
    forall i | 0 <= i < |x| ensures InLog(y, x[i]) {
      assert x[i] in y;
      var j :| 0 <= j < |y| && y[j] == x[i];
      assert SameOp(y[j], x[i]);
    }
  }
}
