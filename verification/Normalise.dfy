/** Normalising stored operations for the node: each origin's sequences count from its lowest held one. */
module Normalise {
  import opened Wrappers
  import opened Orders
  import opened AtomIds
  import opened TextOps
  import opened Fold
  import opened Delivery
  import opened Projection

  /** `decodeTextEdit` and `checkedSequence` accept the operation. */
  predicate ValidOp(op: TextOp) {
    && DecodeTextEdit(op.payload).Some?
    && 0 <= op.seqNo <= MAX_SAFE
    && forall i :: 0 <= i < |op.refs| ==> 0 <= op.refs[i].seqNo <= MAX_SAFE
  }

  predicate AllValid(ops: seq<TextOp>) {
    forall i :: 0 <= i < |ops| ==> ValidOp(ops[i])
  }

  /** An operation is valid when its payload is an edit of a named atom, with text if it inserts, and every sequence
      it mentions is a safe natural number. */
  lemma ValidExactly(op: TextOp)
    ensures ValidOp(op)
            <==> op.payload.EditPayload? && op.payload.edit.atomId != ""
                 && (op.payload.edit.InsertAtom? ==> op.payload.edit.text != "")
                 && 0 <= op.seqNo <= 9_007_199_254_740_991
                 && forall i :: 0 <= i < |op.refs| ==> 0 <= op.refs[i].seqNo <= 9_007_199_254_740_991
  {
    if op.payload.EditPayload? {
      match op.payload.edit
      case InsertAtom(_, _, _) =>
      case DeleteAtom(_) =>
    }
  }

  type BaseMap = map<string, int>

  function LowerBase(bases: BaseMap, op: TextOp): BaseMap {
    if op.origin in bases && bases[op.origin] <= op.seqNo then bases else bases[op.origin := op.seqNo]
  }

  /** The lowest sequence held for each origin. */
  function Bases(ops: seq<TextOp>): BaseMap {
    if ops == [] then map[] else LowerBase(Bases(ops[..|ops| - 1]), ops[|ops| - 1])
  }

  function BaseFor(bases: BaseMap, origin: string): int {
    if origin in bases then bases[origin] else 0
  }

  function CrdtSequence(origin: string, n: int, bases: BaseMap): int {
    n - BaseFor(bases, origin) + 1
  }

  /** The causal references as a clock; references below an origin's base are dropped. */
  function Clock(refs: seq<Head>, bases: BaseMap): map<string, int> {
    if refs == [] then map[]
    else
      var prior, ref := Clock(refs[..|refs| - 1], bases), refs[|refs| - 1];
      var n := CrdtSequence(ref.origin, ref.seqNo, bases);
      if n > (if ref.origin in prior then prior[ref.origin] else 0) then prior[ref.origin := n] else prior
  }

  function NormaliseOp(op: TextOp, bases: BaseMap): CrdtOp
    requires ValidOp(op)
  {
    CrdtOp(op.origin, CrdtSequence(op.origin, op.seqNo, bases), Clock(op.refs, bases), DecodeTextEdit(op.payload).value)
  }

  function NormaliseAll(ops: seq<TextOp>, bases: BaseMap): (r: seq<CrdtOp>)
    requires AllValid(ops)
    ensures |r| == |ops| && forall i :: 0 <= i < |ops| ==> r[i] == NormaliseOp(ops[i], bases)
  {
    seq(|ops|, i requires 0 <= i < |ops| => NormaliseOp(ops[i], bases))
  }

  function RefOrigins(refs: seq<Head>): set<string> { set i | 0 <= i < |refs| :: refs[i].origin }

  /** The origins referenced by any held operation. */
  function Referenced(ops: seq<TextOp>): set<string> {
    set i, j | 0 <= i < |ops| && 0 <= j < |ops[i].refs| :: ops[i].refs[j].origin
  }

  // ---- full reconstruction -------------------------------------------------------------------

  /** What a fresh node is fed for a history. */
  function FullFeed(ops: seq<TextOp>): seq<CrdtOp>
    requires AllValid(ops)
  {
    NormaliseAll(ops, Bases(ops))
  }

  ghost function FoldOf(profile: Profile, ops: seq<TextOp>): Folded
    requires AllValid(ops)
  {
    FoldOps(profile.less, EMPTY, Feed(EMPTY_NODE, FullFeed(ops)).delivered)
  }

  /** `assembleTextCrdt`: feed a whole history to a fresh node and project. */
  ghost function AssembleText(profile: Profile, ops: seq<TextOp>): TextState
    requires AllValid(ops)
  {
    Project(profile.decode, FoldOf(profile, ops))
  }

  // ---- bases -----------------------------------------------------------------------------------

  lemma {:induction false} BasesDescribed(ops: seq<TextOp>)
    ensures forall o :: o in Bases(ops) <==> exists i :: 0 <= i < |ops| && ops[i].origin == o
    ensures forall i :: 0 <= i < |ops| ==> Bases(ops)[ops[i].origin] <= ops[i].seqNo
    ensures forall o ::
        o in Bases(ops) ==> exists i :: 0 <= i < |ops| && ops[i].origin == o && ops[i].seqNo == Bases(ops)[o]
  {
    if ops != [] {
      var init, op := ops[..|ops| - 1], ops[|ops| - 1];
      BasesDescribed(init);
      var old_, b := Bases(init), Bases(ops);
      forall o | o in b ensures exists i :: 0 <= i < |ops| && ops[i].origin == o && ops[i].seqNo == b[o] {
        if o in old_ && b[o] == old_[o] {
          var i :| 0 <= i < |init| && init[i].origin == o && init[i].seqNo == old_[o];
          assert ops[i] == init[i];
        } else {
          assert ops[|ops| - 1].origin == o;
        }
      }
      forall o | exists i :: 0 <= i < |ops| && ops[i].origin == o ensures o in b {
        var i :| 0 <= i < |ops| && ops[i].origin == o;
        if i < |init| { assert init[i].origin == o; }
      }
      forall i | 0 <= i < |ops| ensures b[ops[i].origin] <= ops[i].seqNo {
        if i < |init| { assert init[i] == ops[i]; }
      }
    }
  }

  /** Bases depend only on which (origin, sequence) pairs are held. */
  lemma BasesOfKeys(a: seq<TextOp>, b: seq<TextOp>)
    requires forall i :: 0 <= i < |a| ==> HasKey(b, Key(a[i]))
    requires forall i :: 0 <= i < |b| ==> HasKey(a, Key(b[i]))
    ensures Bases(a) == Bases(b)
  {
    BasesDescribed(a);
    BasesDescribed(b);
    forall o | o in Bases(a) ensures o in Bases(b) && Bases(b)[o] <= Bases(a)[o] { BaseHeld(a, b, o); }
    forall o | o in Bases(b) ensures o in Bases(a) && Bases(a)[o] <= Bases(b)[o] { BaseHeld(b, a, o); }
  }

  lemma BaseHeld(a: seq<TextOp>, b: seq<TextOp>, o: string)
    requires o in Bases(a) && forall i :: 0 <= i < |a| ==> HasKey(b, Key(a[i]))
    ensures o in Bases(b) && Bases(b)[o] <= Bases(a)[o]
  {
    BasesDescribed(a);
    BasesDescribed(b);
    var i :| 0 <= i < |a| && a[i].origin == o && a[i].seqNo == Bases(a)[o];
    var j :| 0 <= j < |b| && Key(b[j]) == Key(a[i]);
  }

  lemma FeedDistinct(ops: seq<TextOp>, bases: BaseMap)
    requires AllValid(ops) && UniqueKeys(ops)
    ensures DistinctOps(NormaliseAll(ops, bases))
  {
    var r := NormaliseAll(ops, bases);
    forall i, j | 0 <= i < j < |r| ensures OpKey(r[i]) != OpKey(r[j]) {
      assert Key(ops[i]) != Key(ops[j]);
    }
  }

  // ---- when a change of bases is harmless ------------------------------------------------------

  /** What clocks hold: the highest normalised reference, when positive. */
  lemma {:induction false} ClockDescribed(refs: seq<Head>, bases: BaseMap)
    ensures forall i :: 0 <= i < |refs| && CrdtSequence(refs[i].origin, refs[i].seqNo, bases) > 0 ==>
              refs[i].origin in Clock(refs, bases)
              && CrdtSequence(refs[i].origin, refs[i].seqNo, bases) <= Clock(refs, bases)[refs[i].origin]
    ensures forall o :: o in Clock(refs, bases) ==>
              exists i :: 0 <= i < |refs| && refs[i].origin == o
                          && CrdtSequence(o, refs[i].seqNo, bases) == Clock(refs, bases)[o] && Clock(refs, bases)[o] > 0
  {
    if refs != [] {
      var init, ref := refs[..|refs| - 1], refs[|refs| - 1];
      ClockDescribed(init, bases);
      var prior, c := Clock(init, bases), Clock(refs, bases);
      forall o | o in c
        ensures c[o] > 0
        ensures exists i :: 0 <= i < |refs| && refs[i].origin == o && CrdtSequence(o, refs[i].seqNo, bases) == c[o]
      {
        if o in prior && prior[o] == c[o] {
          var i :| 0 <= i < |init| && init[i].origin == o && CrdtSequence(o, init[i].seqNo, bases) == prior[o]
              && prior[o] > 0;
          assert refs[i] == init[i];
        } else {
          assert refs[|refs| - 1].origin == o;
        }
      }
      forall i | 0 <= i < |refs| && CrdtSequence(refs[i].origin, refs[i].seqNo, bases) > 0
        ensures refs[i].origin in c && CrdtSequence(refs[i].origin, refs[i].seqNo, bases) <= c[refs[i].origin]
      {
        if i < |init| { assert init[i] == refs[i]; }
      }
    }
  }

  lemma {:induction false} ClockUnchanged(refs: seq<Head>, a: BaseMap, b: BaseMap)
    requires forall i :: 0 <= i < |refs| ==> BaseFor(a, refs[i].origin) == BaseFor(b, refs[i].origin)
    ensures Clock(refs, a) == Clock(refs, b)
  {
    if refs != [] {
      ClockUnchanged(refs[..|refs| - 1], a, b);
      assert refs[|refs| - 1] in refs;
    }
  }

  /** A raised or newly non-zero base shows in the clock of every operation referring to its origin. */
  lemma ClockChanged(refs: seq<Head>, a: BaseMap, b: BaseMap, o: string, i: nat)
    requires i < |refs| && refs[i].origin == o
    requires o !in a && o in b && b[o] > 0
    requires forall k :: 0 <= k < |refs| ==> 0 <= refs[k].seqNo
    ensures Clock(refs, a) != Clock(refs, b)
  {
    ClockDescribed(refs, a);
    ClockDescribed(refs, b);
    assert CrdtSequence(o, refs[i].seqNo, a) > 0;
    if o in Clock(refs, b) {
      var k :| 0 <= k < |refs| && refs[k].origin == o && CrdtSequence(o, refs[k].seqNo, b) == Clock(refs, b)[o];
      assert CrdtSequence(refs[k].origin, refs[k].seqNo, a) <= Clock(refs, a)[o];
    }
  }
}
