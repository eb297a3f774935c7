/** The retained assembler of a text mount: it applies only what is new, and replays its history only
    when the normalisation of something already fed has changed. */
module Assembler {
  import opened Wrappers
  import opened Orders
  import opened TextOps
  import opened Fold
  import opened Delivery
  import opened Projection
  import opened Normalise

  datatype AssemblerError = InvalidOperation | CheckpointMismatch

  /** The base of `o` moved under operations already fed, or became known to references already fed. */
  predicate Shifted(old_: BaseMap, referenced: set<string>, bases: BaseMap, o: string) {
    o in bases
    && ((o in old_ && old_[o] != bases[o]) || (o !in old_ && o in referenced && bases[o] != 0))
  }

  // ---- the rebase criterion --------------------------------------------------------------------

  lemma BasesExtend(history: seq<TextOp>, novel: seq<TextOp>)
    ensures forall o ::
        o in Bases(history) ==> o in Bases(history + novel) && Bases(history + novel)[o] <= Bases(history)[o]
  {
    var all := history + novel;
    BasesDescribed(history);
    BasesDescribed(all);
    forall o | o in Bases(history) ensures o in Bases(all) && Bases(all)[o] <= Bases(history)[o] {
      var i :| 0 <= i < |history| && history[i].origin == o && history[i].seqNo == Bases(history)[o];
      assert all[i] == history[i];
    }
  }

  lemma OriginHeld(history: seq<TextOp>, i: nat)
    requires i < |history|
    ensures history[i].origin in Bases(history)
  {
    BasesDescribed(history);
  }

  lemma UnshiftedSame(history: seq<TextOp>, bases: BaseMap, i: nat)
    requires AllValid(history) && i < |history|
    requires forall o :: o in Bases(history) ==> o in bases
    requires forall o :: !Shifted(Bases(history), Referenced(history), bases, o)
    ensures NormaliseOp(history[i], Bases(history)) == NormaliseOp(history[i], bases)
  {
    var op, old_ := history[i], Bases(history);
    OriginHeld(history, i);
    assert !Shifted(old_, Referenced(history), bases, op.origin);
    forall j | 0 <= j < |op.refs| ensures BaseFor(old_, op.refs[j].origin) == BaseFor(bases, op.refs[j].origin) {
      RefUnshifted(history, bases, i, j);
    }
    ClockUnchanged(op.refs, old_, bases);
  }

  lemma RefUnshifted(history: seq<TextOp>, bases: BaseMap, i: nat, j: nat)
    requires i < |history| && j < |history[i].refs|
    requires forall o :: o in Bases(history) ==> o in bases
    requires forall o :: !Shifted(Bases(history), Referenced(history), bases, o)
    ensures BaseFor(Bases(history), history[i].refs[j].origin) == BaseFor(bases, history[i].refs[j].origin)
  {
    var o := history[i].refs[j].origin;
    assert o in Referenced(history);
    assert !Shifted(Bases(history), Referenced(history), bases, o);
  }

  lemma ShiftedDiffers(history: seq<TextOp>, bases: BaseMap, o: string) returns (i: nat)
    requires AllValid(history) && Shifted(Bases(history), Referenced(history), bases, o)
    requires 0 <= bases[o]
    ensures i < |history| && NormaliseOp(history[i], Bases(history)) != NormaliseOp(history[i], bases)
  {
    BasesDescribed(history);
    if o in Bases(history) {
      i :| 0 <= i < |history| && history[i].origin == o;
    } else {
      var k, j :| 0 <= k < |history| && 0 <= j < |history[k].refs| && history[k].refs[j].origin == o;
      i := k;
      assert ValidOp(history[k]);
      ClockChanged(history[k].refs, Bases(history), bases, o, j);
    }
  }

  lemma BaseNonNegative(ops: seq<TextOp>, o: string)
    requires AllValid(ops) && o in Bases(ops)
    ensures 0 <= Bases(ops)[o]
  {
    BasesDescribed(ops);
    var i :| 0 <= i < |ops| && ops[i].origin == o && ops[i].seqNo == Bases(ops)[o];
    assert ValidOp(ops[i]);
  }

  /** Operation `i`, already fed, would now be fed otherwise. */
  ghost predicate Renormalised(history: seq<TextOp>, novel: seq<TextOp>, i: nat)
    requires AllValid(history) && i < |history|
  {
    assert ValidOp(history[i]);
    NormaliseOp(history[i], Bases(history)) != NormaliseOp(history[i], Bases(history + novel))
  }

  /** A rebase is flagged exactly when the normalisation of some operation already fed changes. */
  lemma RebaseExact(history: seq<TextOp>, novel: seq<TextOp>)
    requires AllValid(history + novel) && AllValid(history)
    ensures (exists o :: Shifted(Bases(history), Referenced(history), Bases(history + novel), o))
            <==> (exists i :: 0 <= i < |history| && Renormalised(history, novel, i))
  {
    var bases := Bases(history + novel);
    BasesExtend(history, novel);
    if o :| Shifted(Bases(history), Referenced(history), bases, o) {
      BaseNonNegative(history + novel, o);
      var i := ShiftedDiffers(history, bases, o);
      assert Renormalised(history, novel, i);
    } else {
      forall i | 0 <= i < |history| ensures NormaliseOp(history[i], Bases(history)) == NormaliseOp(history[i], bases) {
        UnshiftedSame(history, bases, i);
      }
    }
  }

  /** Same identity, payload and references. */
  predicate SameOp(a: TextOp, b: TextOp) {
    Key(a) == Key(b) && a.payload == b.payload && a.refs == b.refs
  }

  // ---- the assembler -------------------------------------------------------------------------------

  /** The state of an assembler as a value; checkpoints are such values. */
  datatype Assembly = Assembly(
    node: CrdtNode,
    history: seq<TextOp>,
    bases: BaseMap,
    referenced: set<string>,
    carried: Folded,
    revision: int)

  const EMPTY_ASSEMBLY: Assembly := Assembly(EMPTY_NODE, [], map[], {}, EMPTY, -1)

  /** The node was fed the deduplicated history in arrival order under the history's own bases, and the
      carried atoms fold a prefix of what it delivered. */
  ghost predicate InStep(profile: Profile, a: Assembly) {
    && AllValid(a.history) && UniqueKeys(a.history)
    && a.bases == Bases(a.history)
    && a.referenced == Referenced(a.history)
    && a.node == Feed(EMPTY_NODE, FullFeed(a.history))
    && -1 <= a.revision <= |a.node.delivered|
    && a.carried == FoldOps(profile.less, EMPTY, a.node.delivered[..if a.revision < 0 then 0 else a.revision])
  }

  lemma EmptyInStep(profile: Profile)
    ensures InStep(profile, EMPTY_ASSEMBLY)
  {
  }

  lemma NormaliseConcat(a: seq<TextOp>, b: seq<TextOp>, bases: BaseMap)
    requires AllValid(a) && AllValid(b) && AllValid(a + b)
    ensures NormaliseAll(a + b, bases) == NormaliseAll(a, bases) + NormaliseAll(b, bases)
  {
  }

  /** Without a rebase, what was fed stands as it was fed. */
  lemma FeedUnchanged(history: seq<TextOp>, bases: BaseMap)
    requires AllValid(history)
    requires forall o :: o in Bases(history) ==> o in bases
    requires forall o :: !Shifted(Bases(history), Referenced(history), bases, o)
    ensures NormaliseAll(history, bases) == FullFeed(history)
  {
    forall i | 0 <= i < |history| ensures NormaliseOp(history[i], Bases(history)) == NormaliseOp(history[i], bases) {
      UnshiftedSame(history, bases, i);
    }
  }

  lemma DistinctSplit(a: seq<CrdtOp>, b: seq<CrdtOp>)
    requires DistinctOps(a + b)
    ensures DistinctOps(a) && DistinctOps(b)
    ensures forall x, y :: x in Elements(a) && y in b ==> OpKey(x) != OpKey(y)
  {
    var all := a + b;
    assert forall i :: 0 <= i < |a| ==> all[i] == a[i];
    forall i, j | 0 <= i < j < |b| ensures OpKey(b[i]) != OpKey(b[j]) {
      assert all[|a| + i] == b[i] && all[|a| + j] == b[j];
    }
    forall x, y | x in Elements(a) && y in b ensures OpKey(x) != OpKey(y) {
      var i :| 0 <= i < |a| && a[i] == x;
      var j :| 0 <= j < |b| && b[j] == y;
      assert all[i] == x && all[|a| + j] == y;
    }
  }

  lemma FeedMore(old_: seq<CrdtOp>, more: seq<CrdtOp>)
    requires DistinctOps(old_ + more)
    ensures Feed(Feed(EMPTY_NODE, old_), more) == Feed(EMPTY_NODE, old_ + more)
    ensures Feed(EMPTY_NODE, old_).delivered <= Feed(EMPTY_NODE, old_ + more).delivered
  {
    DistinctSplit(old_, more);
    FeedHolds(old_);
    FeedConcat(EMPTY_NODE, old_, more);
    FeedGrows(Feed(EMPTY_NODE, old_), Elements(old_), more);
  }

  /** Without a rebase, delivery goes on from where it was. */
  lemma DeliveryContinues(profile: Profile, a: Assembly, novel: seq<TextOp>)
    requires InStep(profile, a) && AllValid(novel) && AllValid(a.history + novel) && UniqueKeys(a.history + novel)
    requires forall o :: !Shifted(a.bases, a.referenced, Bases(a.history + novel), o)
    ensures var next := Feed(a.node, NormaliseAll(novel, Bases(a.history + novel)));
            next == Feed(EMPTY_NODE, FullFeed(a.history + novel)) && a.node.delivered <= next.delivered
    ensures FullFeed(a.history + novel) == FullFeed(a.history) + NormaliseAll(novel, Bases(a.history + novel))
  {
    var bases := Bases(a.history + novel);
    BasesExtend(a.history, novel);
    FeedUnchanged(a.history, bases);
    NormaliseConcat(a.history, novel, bases);
    FeedDistinct(a.history + novel, bases);
    FeedMore(FullFeed(a.history), NormaliseAll(novel, bases));
  }

  ghost predicate Joinable(history: seq<TextOp>, novel: seq<TextOp>) {
    AllValid(novel) && AllValid(history + novel) && UniqueKeys(history + novel)
  }

  /** `next` is `a` with `novel` joined. */
  ghost predicate Joins(a: Assembly, novel: seq<TextOp>, next: Assembly) {
    && next.history == a.history + novel && next.bases == Bases(next.history)
    && next.referenced == a.referenced + Referenced(novel)
  }

  lemma RebasedInStep(profile: Profile, a: Assembly, novel: seq<TextOp>, next: Assembly)
    requires InStep(profile, a) && Joinable(a.history, novel) && Joins(a, novel, next)
    requires next.node == Feed(EMPTY_NODE, NormaliseAll(next.history, next.bases))
    requires next.carried == EMPTY && next.revision == -1
    ensures InStep(profile, next)
  {
    ReferencedConcat(a.history, novel);
  }

  lemma ContinuedInStep(profile: Profile, a: Assembly, novel: seq<TextOp>, next: Assembly)
    requires InStep(profile, a) && Joinable(a.history, novel) && Joins(a, novel, next)
    requires next.node == Feed(a.node, NormaliseAll(novel, next.bases))
    requires next.carried == a.carried && next.revision == a.revision
    requires forall o :: !Shifted(a.bases, a.referenced, next.bases, o)
    ensures InStep(profile, next)
    ensures FullFeed(next.history) == FullFeed(a.history) + NormaliseAll(novel, next.bases)
  {
    ReferencedConcat(a.history, novel);
    DeliveryContinues(profile, a, novel);
    PrefixKept(a.node.delivered, next.node.delivered, if a.revision < 0 then 0 else a.revision);
  }

  /** Folding what was delivered since the last projection gives the fold of the whole history. */
  lemma CaughtUp(profile: Profile, a: Assembly)
    requires InStep(profile, a)
    ensures var from := if a.revision < 0 then 0 else a.revision;
            FoldOps(profile.less, if a.revision < 0 then EMPTY else a.carried, a.node.delivered[from..])
                == FoldOf(profile, a.history)
    ensures InStep(profile, a.(carried := FoldOf(profile, a.history), revision := |a.node.delivered|))
  {
    var d, from := a.node.delivered, if a.revision < 0 then 0 else a.revision;
    assert d == d[..from] + d[from..] && d[..|d|] == d;
    FoldConcat(profile.less, EMPTY, d[..from], d[from..]);
  }

  lemma ReferencedConcat(a: seq<TextOp>, b: seq<TextOp>)
    ensures Referenced(a + b) == Referenced(a) + Referenced(b)
  {
    forall o ensures o in Referenced(a + b) <==> o in Referenced(a) + Referenced(b) {
      if o in Referenced(a) {
        var i, j :| 0 <= i < |a| && 0 <= j < |a[i].refs| && a[i].refs[j].origin == o;
        assert (a + b)[i] == a[i];
      }
      if o in Referenced(b) {
        var i, j :| 0 <= i < |b| && 0 <= j < |b[i].refs| && b[i].refs[j].origin == o;
        assert (a + b)[|a| + i] == b[i];
      }
      if o in Referenced(a + b) {
        var i, j :| 0 <= i < |a + b| && 0 <= j < |(a + b)[i].refs| && (a + b)[i].refs[j].origin == o;
        assert (a + b)[i] == if i < |a| then a[i] else b[i - |a|];
      }
    }
  }

  class TextCrdtAssembler {
    const profile: Profile
    var node: CrdtNode
    var history: seq<TextOp>
    var bases: BaseMap
    var referenced: set<string>
    var carried: Folded
    var revision: int
    var value: Option<TextState>
    /** The operations handled by the current node, in order. */
    ghost var fed: seq<CrdtOp>

    ghost function Now(): Assembly
      reads this
    {
      Assembly(node, history, bases, referenced, carried, revision)
    }

    /** The invariant of every run: the current node was fed exactly what full reconstruction would feed
        a fresh one, and a retained state is the one it would project. */
    ghost predicate Valid()
      reads this
    {
      && InStep(profile, Now()) && fed == FullFeed(history)
      && (value.Some? ==> value.value == AssembleText(profile, history) && revision == |node.delivered|)
    }

    constructor (profile: Profile)
      ensures Valid() && this.profile == profile && history == []
    {
      this.profile := profile;
      node, history, bases, referenced := EMPTY_NODE, [], map[], {};
      carried, revision, value, fed := EMPTY, -1, None, [];
      new;
      EmptyInStep(profile);
    }

    /** Whether `op` is held already with the same payload and references; then it is valid. */
    method Held(op: TextOp) returns (held: bool)
      requires Valid()
      ensures held <==> exists i :: 0 <= i < |history| && SameOp(history[i], op)
      ensures held ==> ValidOp(op)
    {
      held := exists i :: 0 <= i < |history| && SameOp(history[i], op);
      if held {
        ghost var k :| 0 <= k < |history| && SameOp(history[k], op);
        assert ValidOp(history[k]);
      }
    }

    /** Rejects a batch with an invalid operation before anything changes. */
    method ValidateNew(ops: seq<TextOp>) returns (ok: bool)
      requires Valid()
      ensures ok <==> AllValid(ops)
    {
      ok := true;
      for i := 0 to |ops|
        invariant AllValid(ops[..i])
      {
        var held := Held(ops[i]);
        if !held && !ValidOp(ops[i]) {
          ok := false;
          return;
        }
      }
      assert ops[..|ops|] == ops;
    }

    /** Applies what is new: `history` gains the operations not held yet, in order, and the invariant
        holds whether or not the node had to be rebuilt. An invalid batch changes nothing. */
    method Apply(ops: seq<TextOp>) returns (r: Result<bool, AssemblerError>)
      requires Valid()
      modifies this
      ensures Valid()
      ensures r.Ok? <==> AllValid(ops)
      ensures r.Err? ==> Now() == old(Now()) && value == old(value)
      ensures r.Ok? ==> history == old(history) + FreshOf(old(history), ops)
    {
      var ok := ValidateNew(ops);
      if !ok { return Err(InvalidOperation); }
      var novel, bases' := CollectFresh(history, bases, ops);
      FreshDescribed(history, ops);
      if novel == [] { assert history + novel == history; return Ok(false); }
      FreshValid(history, novel, ops);
      ApplyFresh(novel, bases');
      return Ok(true);
    }

    method ApplyFresh(novel: seq<TextOp>, bases': BaseMap)
      requires Valid() && Joinable(history, novel) && bases' == Bases(history + novel)
      modifies this
      ensures Valid() && history == old(history) + novel
    {
      var rebase := NeedsRebase(bases, referenced, bases');
      var refs := RefsOf(novel);
      if rebase {
        Replay(novel, bases', referenced + refs);
      } else {
        Continue(novel, bases', referenced + refs);
      }
    }

    /** Rebuild the node from the whole history. */
    method Replay(novel: seq<TextOp>, bases': BaseMap, referenced': set<string>)
      requires Valid() && Joinable(history, novel) && bases' == Bases(history + novel)
      requires referenced' == referenced + Referenced(novel)
      modifies this
      ensures Valid() && history == old(history) + novel
    {
      ghost var was := Now();
      history := history + novel;
      node, fed := FeedNode(EMPTY_NODE, [], history, bases');
      bases, referenced := bases', referenced';
      carried, revision, value := EMPTY, -1, None;
      RebasedInStep(profile, was, novel, Now());
    }

    /** Feed the retained node only what is new. */
    method Continue(novel: seq<TextOp>, bases': BaseMap, referenced': set<string>)
      requires Valid() && Joinable(history, novel) && bases' == Bases(history + novel)
      requires referenced' == referenced + Referenced(novel)
      requires forall o :: !Shifted(bases, referenced, bases', o)
      modifies this
      ensures Valid() && history == old(history) + novel
    {
      ghost var was := Now();
      history := history + novel;
      node, fed := FeedNode(node, fed, novel, bases');
      bases, referenced, value := bases', referenced', None;
      ContinuedInStep(profile, was, novel, Now());
    }

    /** The current projection, folding only what was delivered since the last one. */
    method State() returns (s: TextState)
      requires Valid()
      modifies this
      ensures Valid() && s == AssembleText(profile, history)
      ensures value == Some(s) && history == old(history) && node == old(node) && bases == old(bases)
      ensures referenced == old(referenced)
    {
      if value.Some? { return value.value; }
      var reset := revision < 0;
      var delta := if reset then node.delivered else node.delivered[revision..];
      if reset { carried := EMPTY; }
      CaughtUp(profile, old(Now()));
      carried, s := ProjectIdentity(profile, delta, carried);
      revision := |node.delivered|;
      value := Some(s);
      assert Now() == old(Now()).(carried := carried, revision := revision);
    }

    method Save() returns (saved: Checkpoint)
      requires Valid()
      modifies this
      ensures Valid() && history == old(history)
      ensures saved.history == history && Genuine(profile, saved)
    {
      var s := State();
      saved := Checkpoint(1, node, history, bases, referenced, carried);
    }

    /** A fresh assembler over checkpointed state. */
    constructor FromCheckpoint(profile: Profile, saved: Checkpoint)
      requires Genuine(profile, saved)
      ensures Valid() && this.profile == profile && history == saved.history
    {
      this.profile := profile;
      node, history, bases, referenced, carried :=
          saved.node, saved.history, saved.bases, saved.referenced, saved.carried;
      revision, value, fed := |saved.node.delivered|, None, FullFeed(saved.history);
    }
  }

  // ---- the loops of `apply` ----------------------------------------------------------------------

  lemma FreshValid(history: seq<TextOp>, novel: seq<TextOp>, ops: seq<TextOp>)
    requires AllValid(history) && AllValid(ops) && forall op :: op in novel ==> op in ops
    ensures AllValid(novel) && AllValid(history + novel)
  {
    forall i | 0 <= i < |novel| ensures ValidOp(novel[i]) { assert novel[i] in ops; }
  }

  lemma PrefixKept(a: seq<CrdtOp>, b: seq<CrdtOp>, k: nat)
    requires a <= b && k <= |a|
    ensures b[..k] == a[..k]
  {
  }

  method CollectFresh(history: seq<TextOp>, bases: BaseMap, ops: seq<TextOp>)
    returns (novel: seq<TextOp>, bases': BaseMap)
    requires bases == Bases(history)
    ensures novel == FreshOf(history, ops) && bases' == Bases(history + novel)
  {
    novel, bases' := [], bases;
    var seen: set<(string, int)> := {};
    assert history + [] == history;
    for i := 0 to |ops|
      invariant novel == FreshOf(history, ops[..i]) && bases' == Bases(history + novel)
      invariant forall k :: k in seen <==> HasKey(novel, k)
    {
      var op := ops[i];
      assert ops[..i + 1][..i] == ops[..i];
      if !HasKey(history, Key(op)) && Key(op) !in seen {
        forall k ensures HasKey(novel + [op], k) <==> HasKey(novel, k) || Key(op) == k { KeyAppend(novel, op, k); }
        assert history + (novel + [op]) == (history + novel) + [op];
        assert ((history + novel) + [op])[..|history + novel|] == history + novel;
        seen := seen + {Key(op)};
        novel := novel + [op];
        bases' := LowerBase(bases', op);
      }
    }
    assert ops[..|ops|] == ops;
  }

  method NeedsRebase(old_: BaseMap, referenced: set<string>, bases: BaseMap) returns (rebase: bool)
    ensures rebase <==> exists o :: Shifted(old_, referenced, bases, o)
  {
    rebase := false;
    var todo := bases.Keys;
    while todo != {}
      invariant todo <= bases.Keys
      invariant rebase <==> exists o :: o !in todo && Shifted(old_, referenced, bases, o)
    {
      var o :| o in todo;
      todo := todo - {o};
      if (o in old_ && old_[o] != bases[o]) || (o !in old_ && o in referenced && bases[o] != 0) {
        assert Shifted(old_, referenced, bases, o);
        rebase := true;
      }
    }
  }

  method RefsOf(ops: seq<TextOp>) returns (refs: set<string>)
    ensures refs == Referenced(ops)
  {
    refs := {};
    for i := 0 to |ops|
      invariant refs == Referenced(ops[..i])
    {
      var one := [ops[i]];
      for j := 0 to |ops[i].refs|
        invariant refs == Referenced(ops[..i]) + RefOrigins(ops[i].refs[..j])
      {
        assert RefOrigins(ops[i].refs[..j + 1]) == RefOrigins(ops[i].refs[..j]) + {ops[i].refs[j].origin};
        refs := refs + {ops[i].refs[j].origin};
      }
      assert ops[i].refs[..|ops[i].refs|] == ops[i].refs;
      assert Referenced(one) == RefOrigins(ops[i].refs) by {
        forall o ensures o in Referenced(one) <==> o in RefOrigins(ops[i].refs) {
          if o in RefOrigins(ops[i].refs) {
            var j :| 0 <= j < |ops[i].refs| && ops[i].refs[j].origin == o;
            assert one[0].refs[j].origin == o;
          }
        }
      }
      ReferencedConcat(ops[..i], one);
      assert ops[..i + 1] == ops[..i] + one;
    }
    assert ops[..|ops|] == ops;
  }

  lemma FeedStep(node: CrdtNode, feed: seq<CrdtOp>, i: nat)
    requires i < |feed|
    ensures Feed(node, feed[..i + 1]) == Handle(Feed(node, feed[..i]), feed[i])
    ensures feed[..i + 1] == feed[..i] + [feed[i]]
  {
    assert feed[..i + 1][..i] == feed[..i];
  }

  method FeedNode(node: CrdtNode, ghost fed: seq<CrdtOp>, ops: seq<TextOp>, bases: BaseMap)
    returns (node': CrdtNode, ghost fed': seq<CrdtOp>)
    requires AllValid(ops)
    ensures fed' == fed + NormaliseAll(ops, bases)
    ensures node' == Feed(node, NormaliseAll(ops, bases))
  {
    node', fed' := node, fed;
    ghost var feed := NormaliseAll(ops, bases);
    for i := 0 to |ops|
      invariant fed' == fed + feed[..i] && node' == Feed(node, feed[..i])
    {
      FeedStep(node, feed, i);
      node' := Handle(node', NormaliseOp(ops[i], bases));
      fed' := fed' + [NormaliseOp(ops[i], bases)];
    }
    assert feed[..|ops|] == feed;
  }

  // ---- checkpoints --------------------------------------------------------------------------------

  /** A saved assembler; its projection was brought up to date before saving. */
  datatype Checkpoint = Checkpoint(
    version: int,
    node: CrdtNode,
    history: seq<TextOp>,
    bases: BaseMap,
    referenced: set<string>,
    carried: Folded)

  function Restored(saved: Checkpoint): Assembly {
    Assembly(saved.node, saved.history, saved.bases, saved.referenced, saved.carried, |saved.node.delivered|)
  }

  /** What `checkpoint` saves in every reachable state. */
  ghost predicate Genuine(profile: Profile, saved: Checkpoint) {
    saved.version == 1 && InStep(profile, Restored(saved))
  }

  /** Every saved operation is persisted with the same payload and references. */
  predicate Matches(saved: seq<TextOp>, persisted: seq<TextOp>) {
    forall i :: 0 <= i < |saved| ==> InLog(persisted, saved[i])
  }

  predicate InLog(log: seq<TextOp>, op: TextOp) {
    exists j :: 0 <= j < |log| && SameOp(log[j], op)
  }

  /** Saved operations are persisted when for each one of the same origin, sequence, payload and references is. */
  lemma MatchesExactly(saved: seq<TextOp>, persisted: seq<TextOp>)
    ensures Matches(saved, persisted)
            <==> forall op :: op in saved ==>
                   exists p :: p in persisted && p.origin == op.origin && p.seqNo == op.seqNo
                               && p.payload == op.payload && p.refs == op.refs
  {
    if Matches(saved, persisted) {
      forall op | op in saved
        ensures exists p :: p in persisted && p.origin == op.origin && p.seqNo == op.seqNo
                            && p.payload == op.payload && p.refs == op.refs
      {
        assert InLog(persisted, op);
        var j :| 0 <= j < |persisted| && SameOp(persisted[j], op);
        assert persisted[j] in persisted;
      }
    } else {
      var i :| 0 <= i < |saved| && !InLog(persisted, saved[i]);
      assert saved[i] in saved;
      forall p | p in persisted ensures !SameOp(p, saved[i]) {
        var j :| 0 <= j < |persisted| && persisted[j] == p;
        assert !SameOp(persisted[j], saved[i]);
      }
    }
  }

  /** Restoring and then catching up on the persisted rest gives what full reconstruction of the
      persisted log gives, though the operations reach the node in another order. */
  lemma RestoredAsReconstructed(profile: Profile, saved: seq<TextOp>, persisted: seq<TextOp>)
    requires StrictTotal(profile.less)
    requires AllValid(saved) && UniqueKeys(saved) && AllValid(persisted) && UniqueKeys(persisted)
    requires Matches(saved, persisted)
    ensures AllValid(saved + FreshOf(saved, persisted))
    ensures AssembleText(profile, saved + FreshOf(saved, persisted)) == AssembleText(profile, persisted)
  {
    FreshDescribed(saved, persisted);
    FreshValid(saved, FreshOf(saved, persisted), persisted);
    SameContents(saved, persisted);
    SameLogSameFold(profile, saved + FreshOf(saved, persisted), persisted);
  }

  /** `a` and `b` hold the same operations up to order and lamport. */
  ghost predicate SameLog(a: seq<TextOp>, b: seq<TextOp>) {
    Matches(a, b) && Matches(b, a)
  }

  lemma SameContents(saved: seq<TextOp>, persisted: seq<TextOp>)
    requires UniqueKeys(saved) && UniqueKeys(persisted) && Matches(saved, persisted)
    ensures SameLog(saved + FreshOf(saved, persisted), persisted)
  {
    var novel := FreshOf(saved, persisted);
    var all := saved + novel;
    FreshDescribed(saved, persisted);
    forall i | 0 <= i < |all| ensures InLog(persisted, all[i]) {
      if i >= |saved| {
        assert all[i] == novel[i - |saved|] && novel[i - |saved|] in persisted;
        var j :| 0 <= j < |persisted| && persisted[j] == all[i];
        assert SameOp(persisted[j], all[i]);
      } else {
        assert all[i] == saved[i];
      }
    }
    forall j | 0 <= j < |persisted| ensures InLog(all, persisted[j]) {
      FreshHas(saved, persisted, Key(persisted[j]));
      var i :| 0 <= i < |all| && Key(all[i]) == Key(persisted[j]);
      assert InLog(persisted, all[i]);
      var k :| 0 <= k < |persisted| && SameOp(persisted[k], all[i]);
      SameIndex(persisted, j, k);
      assert SameOp(all[i], persisted[j]);
    }
  }

  lemma SameIndex(ops: seq<TextOp>, j: nat, k: nat)
    requires UniqueKeys(ops) && j < |ops| && k < |ops| && Key(ops[j]) == Key(ops[k])
    ensures j == k
  {
  }

  lemma FeedWithin(a: seq<TextOp>, b: seq<TextOp>, bases: BaseMap, op: CrdtOp)
    requires AllValid(a) && AllValid(b) && op in NormaliseAll(a, bases) && Matches(a, b)
    ensures op in NormaliseAll(b, bases)
  {
    var i :| 0 <= i < |a| && NormaliseAll(a, bases)[i] == op;
    assert InLog(b, a[i]);
    var j :| 0 <= j < |b| && SameOp(b[j], a[i]);
    assert NormaliseAll(b, bases)[j] == NormaliseOp(b[j], bases) == op;
  }

  lemma SameFeeds(a: seq<TextOp>, b: seq<TextOp>, bases: BaseMap)
    requires AllValid(a) && AllValid(b) && SameLog(a, b)
    ensures Elements(NormaliseAll(a, bases)) == Elements(NormaliseAll(b, bases))
  {
    forall op ensures op in NormaliseAll(a, bases) <==> op in NormaliseAll(b, bases) {
      if op in NormaliseAll(a, bases) { FeedWithin(a, b, bases, op); }
      if op in NormaliseAll(b, bases) { FeedWithin(b, a, bases, op); }
    }
  }

  lemma KeysWithin(a: seq<TextOp>, b: seq<TextOp>)
    requires Matches(a, b)
    ensures forall i :: 0 <= i < |a| ==> HasKey(b, Key(a[i]))
  {
    forall i | 0 <= i < |a| ensures HasKey(b, Key(a[i])) { assert InLog(b, a[i]); }
  }

  lemma SameLogSameFold(profile: Profile, a: seq<TextOp>, b: seq<TextOp>)
    requires StrictTotal(profile.less) && AllValid(a) && UniqueKeys(a) && AllValid(b) && UniqueKeys(b) && SameLog(a, b)
    ensures FoldOf(profile, a) == FoldOf(profile, b)
  {
    KeysWithin(a, b);
    KeysWithin(b, a);
    BasesOfKeys(a, b);
    FeedDistinct(a, Bases(a));
    FeedDistinct(b, Bases(b));
    SameFeeds(a, b, Bases(a));
    ArrivalOrderIndependent(profile.less, FullFeed(a), FullFeed(b));
  }

  /** The persisted operations whose identity was not saved. */
  function RestOf(saved: seq<TextOp>, persisted: seq<TextOp>): seq<TextOp> {
    if persisted == [] then []
    else
      var rest, op := RestOf(saved, persisted[..|persisted| - 1]), persisted[|persisted| - 1];
      if HasKey(saved, Key(op)) then rest else rest + [op]
  }

  lemma {:induction false} FreshOfRest(saved: seq<TextOp>, persisted: seq<TextOp>)
    ensures FreshOf(saved, RestOf(saved, persisted)) == FreshOf(saved, persisted)
  {
    if persisted != [] {
      var init, op := persisted[..|persisted| - 1], persisted[|persisted| - 1];
      FreshOfRest(saved, init);
      assert (RestOf(saved, init) + [op])[..|RestOf(saved, init)|] == RestOf(saved, init);
    }
  }

  lemma {:induction false} RestMembers(saved: seq<TextOp>, persisted: seq<TextOp>)
    ensures forall op :: op in RestOf(saved, persisted) <==> op in persisted && !HasKey(saved, Key(op))
  {
    if persisted != [] {
      var init, op := persisted[..|persisted| - 1], persisted[|persisted| - 1];
      RestMembers(saved, init);
      assert persisted == init + [op];
    }
  }

  /** A persisted operation matching a saved one is as valid as the saved one was. */
  lemma RestValid(saved: seq<TextOp>, persisted: seq<TextOp>)
    requires AllValid(saved) && UniqueKeys(persisted) && Matches(saved, persisted)
    ensures AllValid(RestOf(saved, persisted)) <==> AllValid(persisted)
  {
    RestMembers(saved, persisted);
    var rest := RestOf(saved, persisted);
    if AllValid(persisted) {
      forall i | 0 <= i < |rest| ensures ValidOp(rest[i]) {
        assert rest[i] in persisted;
      }
    }
    if AllValid(rest) {
      forall j | 0 <= j < |persisted| ensures ValidOp(persisted[j]) {
        assert persisted[j] in persisted;
        if HasKey(saved, Key(persisted[j])) {
          var i :| 0 <= i < |saved| && Key(saved[i]) == Key(persisted[j]);
          assert InLog(persisted, saved[i]);
          var k :| 0 <= k < |persisted| && SameOp(persisted[k], saved[i]);
          SameIndex(persisted, j, k);
          assert ValidOp(saved[i]);
        } else {
          assert persisted[j] in rest;
        }
      }
    }
  }

  method FilterRest(saved: seq<TextOp>, persisted: seq<TextOp>) returns (rest: seq<TextOp>)
    ensures rest == RestOf(saved, persisted)
  {
    rest := [];
    for i := 0 to |persisted|
      invariant rest == RestOf(saved, persisted[..i])
    {
      assert persisted[..i + 1][..i] == persisted[..i];
      if !HasKey(saved, Key(persisted[i])) { rest := rest + [persisted[i]]; }
    }
    assert persisted[..|persisted|] == persisted;
  }

  /** `restore`: refuses a checkpoint whose operations are not all persisted unchanged; otherwise the
      restored assembler, caught up, shows what full reconstruction of the persisted log shows. */
  method Restore(profile: Profile, saved: Checkpoint, persisted: seq<TextOp>)
    returns (r: Result<TextCrdtAssembler, AssemblerError>)
    requires StrictTotal(profile.less) && UniqueKeys(persisted)
    requires saved.version == 1 ==> Genuine(profile, saved)
    ensures r.Ok? <==> saved.version == 1 && Matches(saved.history, persisted) && AllValid(persisted)
    ensures r.Ok? ==> fresh(r.value) && r.value.Valid() && r.value.profile == profile
    ensures r.Ok? ==> r.value.history == saved.history + FreshOf(saved.history, persisted)
    ensures r.Ok? ==> AssembleText(profile, r.value.history) == AssembleText(profile, persisted)
  {
    if saved.version != 1 { return Err(CheckpointMismatch); }
    for i := 0 to |saved.history|
      invariant forall k :: 0 <= k < i ==> InLog(persisted, saved.history[k])
    {
      if !InLog(persisted, saved.history[i]) { return Err(CheckpointMismatch); }
    }
    var assembler := new TextCrdtAssembler.FromCheckpoint(profile, saved);
    var rest := FilterRest(saved.history, persisted);
    var applied := assembler.Apply(rest);
    FreshOfRest(saved.history, persisted);
    RestValid(saved.history, persisted);
    if applied.Err? { return Err(applied.error); }
    RestoredAsReconstructed(profile, saved.history, persisted);
    return Ok(assembler);
  }

  /** What a mount does with its store: try the checkpoint, and fall back to the retained log. */
  method Open(profile: Profile, saved: Option<Checkpoint>, persisted: seq<TextOp>)
    returns (r: Result<TextCrdtAssembler, AssemblerError>)
    requires StrictTotal(profile.less) && UniqueKeys(persisted)
    requires saved.Some? && saved.value.version == 1 ==> Genuine(profile, saved.value)
    ensures r.Ok? <==> AllValid(persisted)
    ensures r.Ok? ==> fresh(r.value) && r.value.Valid() && r.value.profile == profile
    ensures r.Ok? ==> AssembleText(profile, r.value.history) == AssembleText(profile, persisted)
    ensures r.Ok? ==> SameLog(r.value.history, persisted)
  {
    if saved.Some? {
      r := Restore(profile, saved.value, persisted);
      if r.Ok? {
        SameContents(saved.value.history, persisted);
        return;
      }
    }
    r := Reconstruct(profile, persisted);
  }

  /** Full reconstruction: the whole log through a new assembler. */
  method Reconstruct(profile: Profile, persisted: seq<TextOp>)
    returns (r: Result<TextCrdtAssembler, AssemblerError>)
    requires StrictTotal(profile.less) && UniqueKeys(persisted)
    ensures r.Ok? <==> AllValid(persisted)
    ensures r.Ok? ==> fresh(r.value) && r.value.Valid() && r.value.profile == profile
    ensures r.Ok? ==> AssembleText(profile, r.value.history) == AssembleText(profile, persisted)
    ensures r.Ok? ==> SameLog(r.value.history, persisted)
  {
    var assembler := new TextCrdtAssembler(profile);
    var applied := assembler.Apply(persisted);
    if applied.Err? { return Err(applied.error); }
    RestoredAsReconstructed(profile, [], persisted);
    SameContents([], persisted);
    assert [] + FreshOf([], persisted) == FreshOf([], persisted);
    return Ok(assembler);
  }
}
