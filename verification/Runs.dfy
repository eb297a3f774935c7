/** What a run of text replacements keeps, and what each of them reads. */
module Runs {
  import opened Wrappers
  import opened Orders
  import opened Forest
  import opened AtomIds
  import opened TextOps
  import opened Fold
  import opened Delivery
  import opened Projection
  import opened Planner
  import opened Replacement
  import opened Normalise
  import opened Assembler
  import opened Minting
  import opened Document

  type Encoder = string -> string

  /** `id` was composed from a rank no higher than `lamport`. */
  ghost predicate RankedId(encode: Encoder, id: string, lamport: int) {
    exists el: ElementId, order: int :: TextAtomId(encode, el, order) == Ok(id) && order <= lamport
  }

  ghost predicate RankedOp(encode: Encoder, op: TextOp) {
    match DecodeTextEdit(op.payload)
    case Some(InsertAtom(id, _, _)) => RankedId(encode, id, op.lamport)
    case _ => true
  }

  ghost predicate Ranked(encode: Encoder, ops: seq<TextOp>) {
    forall i :: 0 <= i < |ops| ==> RankedOp(encode, ops[i])
  }

  /** The invariant of a document built by replacements: everything held is delivered, the atoms form a
      forest, only atoms are deleted, and no atom outranks the operation that inserted it. */
  ghost predicate Sound(profile: Profile, encode: Encoder, ops: seq<TextOp>) {
    && Settled(ops) && Ranked(encode, ops)
    && IsForest(Links(FoldOf(profile, ops).atoms))
    && FoldOf(profile, ops).deleted <= FoldOf(profile, ops).atoms.Keys
  }

  lemma EmptySound(profile: Profile, encode: Encoder)
    ensures Sound(profile, encode, [])
  {
    assert FullFeed([]) == [];
    assert FoldOf(profile, []) == EMPTY;
  }

  // ---- ranks -----------------------------------------------------------------------------------

  lemma AtomInserted(profile: Profile, ops: seq<TextOp>, id: string) returns (i: nat)
    requires StrictTotal(profile.less) && Settled(ops) && id in FoldOf(profile, ops).atoms
    ensures i < |ops| && DecodeTextEdit(ops[i].payload).Some?
    ensures DecodeTextEdit(ops[i].payload).value.InsertAtom? && DecodeTextEdit(ops[i].payload).value.atomId == id
  {
    var d, feed := NodeOf(ops).delivered, FullFeed(ops);
    FeedDistinct(ops, Bases(ops));
    FeedHolds(feed);
    DeliveredDistinct(feed);
    FoldDescribed(profile.less, d);
    assert DescribesId(profile.less, d, FoldOf(profile, ops), id);
    var op :| Inserts(d, id, op);
    assert op in Elements(d);
    assert op in feed;
    i :| 0 <= i < |feed| && feed[i] == op;
    assert ValidOp(ops[i]);
  }

  lemma AtomRanked(profile: Profile, encode: Encoder, ops: seq<TextOp>, id: string)
    requires StrictTotal(profile.less) && Sound(profile, encode, ops) && id in FoldOf(profile, ops).atoms
    ensures RankedId(encode, id, MaxLamport(ops))
  {
    var i := AtomInserted(profile, ops, id);
    assert RankedOp(encode, ops[i]);
    LamportWithin(ops, i);
    var el, order :| TextAtomId(encode, el, order) == Ok(id) && order <= ops[i].lamport;
  }

  /** The id given to the k-th insert of a replacement. */
  function Allocator(encode: Encoder, actor: string, counter: int, order: int): nat -> string {
    (k: nat) => match TextAtomId(encode, ElementId(actor, counter + k), order + k) case Ok(id) => id case Err(_) => ""
  }

  /** No allocation throws: the actor is named, and counters and ranks stay within the safe integers. */
  predicate Allocatable(actor: string, counter: int, order: int, n: nat) {
    n == 0 || (actor != "" && 0 < counter && 0 < order && counter + n - 1 <= MAX_SAFE && order + n - 1 <= MAX_SAFE)
  }

  lemma AllocatedOk(encode: Encoder, actor: string, counter: int, order: int, n: nat, k: nat)
    requires Allocatable(actor, counter, order, n) && k < n
    ensures TextAtomId(encode, ElementId(actor, counter + k), order + k)
            == Ok(Allocator(encode, actor, counter, order)(k))
  {
  }

  /** A newly allocated id sorts before every id in use, so it is unused. */
  lemma AllocatedFirst(profile: Profile, encode: Encoder, ops: seq<TextOp>, actor: string, counter: int, n: nat,
                       k: nat, id: string)
    requires StrictTotal(profile.less) && Sound(profile, encode, ops) && id in FoldOf(profile, ops).atoms
    requires Allocatable(actor, counter, MaxLamport(ops) + 1, n) && k < n
    ensures StringLess(Allocator(encode, actor, counter, MaxLamport(ops) + 1)(k), id)
  {
    AtomRanked(profile, encode, ops, id);
    var el, order :| TextAtomId(encode, el, order) == Ok(id) && order <= MaxLamport(ops);
    AllocatedOk(encode, actor, counter, MaxLamport(ops) + 1, n, k);
    RankOrder(encode, ElementId(actor, counter + k), MaxLamport(ops) + 1 + k, el, order);
  }

  lemma AllocatedDistinct(encode: Encoder, actor: string, counter: int, order: int, n: nat)
    requires Allocatable(actor, counter, order, n)
    ensures NoDuplicates(Allocated(Allocator(encode, actor, counter, order), n))
  {
    var a := Allocator(encode, actor, counter, order);
    StringLessTotal();
    forall i, j | 0 <= i < j < n ensures a(i) != a(j) {
      AllocatedOk(encode, actor, counter, order, n, i);
      AllocatedOk(encode, actor, counter, order, n, j);
      RankOrder(encode, ElementId(actor, counter + j), order + j, ElementId(actor, counter + i), order + i);
    }
  }

  lemma AllocatedFresh(profile: Profile, encode: Encoder, ops: seq<TextOp>, anchor: Option<string>, actor: string,
                       counter: int, n: nat)
    requires StrictTotal(profile.less) && Sound(profile, encode, ops)
    requires Allocatable(actor, counter, MaxLamport(ops) + 1, n)
    ensures FreshIds(FoldOf(profile, ops), anchor, Allocated(Allocator(encode, actor, counter, MaxLamport(ops) + 1), n))
  {
    var st, a := FoldOf(profile, ops), Allocator(encode, actor, counter, MaxLamport(ops) + 1);
    var ids := Allocated(a, n);
    AllocatedDistinct(encode, actor, counter, MaxLamport(ops) + 1, n);
    StringLessTotal();
    forall id | id in ids ensures id !in st.atoms {
      var k :| 0 <= k < n && ids[k] == id;
      if id in st.atoms { AllocatedFirst(profile, encode, ops, actor, counter, n, k, id); }
    }
    if n > 0 {
      forall k | k in st.atoms
        ensures StringLess(ids[0], k)
      {
        AllocatedFirst(profile, encode, ops, actor, counter, n, 0, k);
      }
    }
  }

  // ---- one replacement ----------------------------------------------------------------------------

  ghost predicate Issues(more: seq<TextOp>, edits: seq<TextEdit>) {
    |more| == |edits| && forall k :: 0 <= k < |more| ==> more[k].payload == EditPayload(edits[k])
  }

  lemma {:induction false} LamportsRise(ops: seq<TextOp>, more: seq<TextOp>, k: nat)
    requires FollowsAll(ops, more) && k < |more|
    ensures MaxLamport(ops) + k < more[k].lamport
    decreases |more|
  {
    if k > 0 {
      assert (ops + [more[0]])[..|ops|] == ops;
      LamportsRise(ops + [more[0]], more[1..], k - 1);
    }
  }

  lemma IssuedCarries(feed: seq<CrdtOp>, more: seq<TextOp>, edits: seq<TextEdit>)
    requires Mirrors(feed, more) && Issues(more, edits)
    ensures Carries(feed, edits)
  {
    forall k | 0 <= k < |feed| ensures feed[k].edit == edits[k] {
      assert more[k].payload == EditPayload(edits[k]);
    }
  }

  /** The planned inserts rank no higher than the operations carrying them. */
  lemma IssuedRanked(encode: Encoder, ops: seq<TextOp>, more: seq<TextOp>, visible: seq<TextElement>, i: nat, j: nat,
                     text: string, actor: string, counter: int)
    requires i <= j <= |visible| && Allocatable(actor, counter, MaxLamport(ops) + 1, |text|)
    requires FollowsAll(ops, more)
    requires Issues(more, PlannedEdits(visible, i, j, text, Allocator(encode, actor, counter, MaxLamport(ops) + 1)))
    ensures Ranked(encode, more)
  {
    var order := MaxLamport(ops) + 1;
    var a := Allocator(encode, actor, counter, order);
    var edits := PlannedEdits(visible, i, j, text, a);
    forall k | 0 <= k < |more| ensures RankedOp(encode, more[k]) {
      assert more[k].payload == EditPayload(edits[k]);
      if k >= j - i {
        var m := k - (j - i);
        assert edits[k] == Chain(AnchorOf(visible, i), text, Allocated(a, |text|))[m];
        AllocatedOk(encode, actor, counter, order, |text|, m);
        LamportsRise(ops, more, k);
        assert TextAtomId(encode, ElementId(actor, counter + m), order + m) == Ok(a(m)) && order + m <= more[k].lamport;
      } else {
        assert edits[k] == Deletions(visible[i..j])[k];
      }
    }
  }

  lemma FoldAppended(profile: Profile, ops: seq<TextOp>, all: seq<TextOp>, feed: seq<CrdtOp>)
    requires AllValid(ops) && AllValid(all) && NodeOf(all).delivered == NodeOf(ops).delivered + feed
    ensures FoldOf(profile, all) == FoldOps(profile.less, FoldOf(profile, ops), feed)
  {
    FoldConcat(profile.less, EMPTY, NodeOf(ops).delivered, feed);
  }

  lemma OnlyAtomsDeleted(st: Folded, st': Folded, visible: seq<TextElement>, i: nat, j: nat, text: string,
                         ids: seq<string>)
    requires Shows(st, visible) && i <= j <= |visible| && |ids| == |text| && Replaced(st, st', visible, i, j, text, ids)
    requires st.deleted <= st.atoms.Keys
    ensures st'.deleted <= st'.atoms.Keys
  {
    ShownAreAtoms(st, visible, i, j);
  }

  /** A replacement whose operations follow what is held reads exactly the next text, and the document
      stays sound: so does every run of replacements. */
  lemma ReplacementReads(profile: Profile, encode: Encoder, ops: seq<TextOp>, more: seq<TextOp>, next: string,
                         i: nat, j: nat, text: string, actor: string, counter: int)
    requires StrictTotal(profile.less) && Sound(profile, encode, ops) && FollowsAll(ops, more)
    requires IsPlan(AssembleText(profile, ops).visible, next, i, j, text)
    requires Allocatable(actor, counter, MaxLamport(ops) + 1, |text|)
    requires Issues(more, PlannedEdits(AssembleText(profile, ops).visible, i, j, text,
                                       Allocator(encode, actor, counter, MaxLamport(ops) + 1)))
    ensures Sound(profile, encode, ops + more)
    ensures AssembleText(profile, ops + more).text == next
    ensures Replaced(FoldOf(profile, ops), FoldOf(profile, ops + more), AssembleText(profile, ops).visible, i, j, text,
                     Allocated(Allocator(encode, actor, counter, MaxLamport(ops) + 1), |text|))
  {
    ProjectedText(profile.decode, FoldOf(profile, ops));
    ShownReplaced(profile, encode, ops, more, ops + more, AssembleText(profile, ops).visible, next, i, j, text,
                  actor, counter);
  }

  lemma ShownReplaced(profile: Profile, encode: Encoder, ops: seq<TextOp>, more: seq<TextOp>, all: seq<TextOp>,
                      visible: seq<TextElement>, next: string, i: nat, j: nat, text: string, actor: string,
                      counter: int)
    requires StrictTotal(profile.less) && Sound(profile, encode, ops) && FollowsAll(ops, more) && all == ops + more
    requires Shows(FoldOf(profile, ops), visible) && IsPlan(visible, next, i, j, text)
    requires Allocatable(actor, counter, MaxLamport(ops) + 1, |text|)
    requires Issues(more, PlannedEdits(visible, i, j, text, Allocator(encode, actor, counter, MaxLamport(ops) + 1)))
    ensures Sound(profile, encode, all)
    ensures AssembleText(profile, all).text == next
    ensures Replaced(FoldOf(profile, ops), FoldOf(profile, all), visible, i, j, text,
                     Allocated(Allocator(encode, actor, counter, MaxLamport(ops) + 1), |text|))
  {
    var st := FoldOf(profile, ops);
    var feed := IssuedFeed(profile, ops, more, all,
        PlannedEdits(visible, i, j, text, Allocator(encode, actor, counter, MaxLamport(ops) + 1)));
    AllocatedFresh(profile, encode, ops, AnchorOf(visible, i), actor, counter, |text|);
    ProjectionExact(profile, st, visible, next, i, j, text, Allocator(encode, actor, counter, MaxLamport(ops) + 1),
        feed);
    OnlyAtomsDeleted(st, FoldOf(profile, all), visible, i, j, text,
        Allocated(Allocator(encode, actor, counter, MaxLamport(ops) + 1), |text|));
    IssuedRanked(encode, ops, more, visible, i, j, text, actor, counter);
    RankedConcat(encode, ops, more, all);
  }

  lemma RankedConcat(encode: Encoder, a: seq<TextOp>, b: seq<TextOp>, all: seq<TextOp>)
    requires Ranked(encode, a) && Ranked(encode, b) && all == a + b
    ensures Ranked(encode, all)
  {
    forall i | 0 <= i < |all| ensures RankedOp(encode, all[i]) {
      assert all[i] == if i < |a| then a[i] else b[i - |a|];
    }
  }

  /** What was issued is what the fold sees next. */
  lemma IssuedFeed(profile: Profile, ops: seq<TextOp>, more: seq<TextOp>, all: seq<TextOp>, edits: seq<TextEdit>)
    returns (feed: seq<CrdtOp>)
    requires Settled(ops) && FollowsAll(ops, more) && all == ops + more && Issues(more, edits)
    ensures Carries(feed, edits) && Settled(all)
    ensures FoldOf(profile, all) == FoldOps(profile.less, FoldOf(profile, ops), feed)
  {
    feed := BatchDelivered(ops, more, all);
    IssuedCarries(feed, more, edits);
    FoldAppended(profile, ops, all, feed);
  }
}
