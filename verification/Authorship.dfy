/** Who names what: each actor's atoms are inserted only by operations of its own origin, so no element is
    ever inserted twice, over runs of replacements and across replicas. */
module Authorship {
  import opened Wrappers
  import opened Orders
  import opened Forest
  import opened AtomIds
  import opened TextOps
  import opened Fold
  import opened Delivery
  import opened Projection
  import opened Planner
  import opened Normalise
  import opened Assembler
  import opened Document
  import opened Runs
  import opened Merging
  import opened Selection
  import T = TextInstance

  /** `op` inserts an atom of element `el`. */
  ghost predicate Names(encode: Encoder, op: TextOp, el: ElementId) {
    && op.payload.EditPayload? && op.payload.edit.InsertAtom?
    && exists order: int :: TextAtomId(encode, el, order) == Ok(op.payload.edit.atomId)
  }

  predicate IsInsert(op: TextOp) { op.payload.EditPayload? && op.payload.edit.InsertAtom? }

  /** Every atom is of an element of the origin that inserts it. */
  ghost predicate Authored(encode: Encoder, ops: seq<TextOp>) {
    forall op :: op in ops && IsInsert(op) ==> exists el: ElementId :: Names(encode, op, el) && el.actor == op.origin
  }

  ghost predicate OncePerElement(encode: Encoder, ops: seq<TextOp>) {
    forall x, y, el :: x in ops && y in ops && Names(encode, x, el) && Names(encode, y, el) ==> x == y
  }

  ghost predicate Owned(encode: Encoder, ops: seq<TextOp>) {
    Authored(encode, ops) && OncePerElement(encode, ops)
  }

  lemma EmptyOwned(encode: Encoder)
    ensures Owned(encode, [])
  {
  }

  lemma OneElement(encode: Encoder, decode: string -> Option<string>, op: TextOp, a: ElementId, b: ElementId)
    requires UriCodec(encode, decode) && Names(encode, op, a) && Names(encode, op, b)
    ensures a == b
  {
    var i: int :| TextAtomId(encode, a, i) == Ok(op.payload.edit.atomId);
    var j: int :| TextAtomId(encode, b, j) == Ok(op.payload.edit.atomId);
    AtomIdsInjective(encode, decode, a, i, b, j);
  }

  /** No atom is inserted by two operations. */
  lemma OwnedOnce(encode: Encoder, ops: seq<TextOp>)
    requires Owned(encode, ops)
    ensures OncePerAtom(ops)
  {
    forall x, y | x in ops && y in ops && InsertsSame(x, y) ensures x == y {
      var el: ElementId :| Names(encode, x, el) && el.actor == x.origin;
      assert Names(encode, y, el);
    }
  }

  // ---- replicas ---------------------------------------------------------------------------------------------

  /** Of each origin, one replica holds all that the other does: only its writer is ever ahead. */
  ghost predicate OneWriter(a: seq<TextOp>, b: seq<TextOp>) {
    forall o: string :: AllFrom(a, b, o) || AllFrom(b, a, o)
  }

  ghost predicate AllFrom(a: seq<TextOp>, b: seq<TextOp>, o: string) {
    forall op :: op in a && op.origin == o ==> op in b
  }

  lemma NamedByOrigin(encode: Encoder, decode: string -> Option<string>, ops: seq<TextOp>, op: TextOp, el: ElementId)
    requires UriCodec(encode, decode) && Authored(encode, ops) && op in ops && Names(encode, op, el)
    ensures el.actor == op.origin
  {
    var own: ElementId :| Names(encode, op, own) && own.actor == op.origin;
    OneElement(encode, decode, op, el, own);
  }

  lemma OwnedTogether(encode: Encoder, decode: string -> Option<string>, a: seq<TextOp>, b: seq<TextOp>)
    requires UriCodec(encode, decode) && Owned(encode, a) && Owned(encode, b) && OneWriter(a, b)
    ensures Owned(encode, a + b)
  {
    forall x, y, el | x in a + b && y in a + b && Names(encode, x, el) && Names(encode, y, el) ensures x == y {
      NamedByOrigin(encode, decode, if x in a then a else b, x, el);
      NamedByOrigin(encode, decode, if y in a then a else b, y, el);
      assert AllFrom(a, b, el.actor) || AllFrom(b, a, el.actor);
    }
  }

  lemma OwnedWithin(encode: Encoder, part: seq<TextOp>, all: seq<TextOp>)
    requires Owned(encode, all) && forall op :: op in part ==> op in all
    ensures Owned(encode, part)
  {
    forall op | op in part && IsInsert(op)
      ensures exists el: ElementId :: Names(encode, op, el) && el.actor == op.origin
    {
      assert op in all;
    }
  }

  /** Two replicas of which each origin is written by one: after exchanging what they hold both are sound, show
      the same, and again insert no element twice. */
  lemma OwnedConverges(profile: Profile, encode: Encoder, a: seq<TextOp>, b: seq<TextOp>)
    requires StrictTotal(profile.less) && UriCodec(encode, profile.decode)
    requires Sound(profile, encode, a) && Sound(profile, encode, b) && Owned(encode, a) && Owned(encode, b)
    requires Agree(a, b) && Agree(b, a) && SameStarts(a, b) && SameStarts(b, a) && OneWriter(a, b)
    ensures Sound(profile, encode, a + FreshOf(a, b)) && Sound(profile, encode, b + FreshOf(b, a))
    ensures AssembleText(profile, a + FreshOf(a, b)) == AssembleText(profile, b + FreshOf(b, a))
    ensures Owned(encode, a + FreshOf(a, b)) && Owned(encode, b + FreshOf(b, a))
  {
    OwnedTogether(encode, profile.decode, a, b);
    OwnedOnce(encode, a + b);
    ExchangeConverges(profile, encode, a, b);
    MergeOf(a, b);
    MergeOf(b, a);
    OwnedWithin(encode, a + FreshOf(a, b), a + b);
    OwnedWithin(encode, b + FreshOf(b, a), a + b);
  }

  // ---- replacements -----------------------------------------------------------------------------------------

  lemma ElementParsed(profile: Profile, encode: Encoder, st: Folded, id: string, el: ElementId, order: int)
    requires UriCodec(encode, profile.decode) && id in st.atoms && TextAtomId(encode, el, order) == Ok(id)
    ensures ElementFor(profile.decode, st, id).id == el
  {
    AtomIdRoundTrip(encode, profile.decode, el, order, st.atoms[id].origin, st.atoms[id].seqNo);
  }

  lemma AtomRendered(decode: string -> Option<string>, st: Folded, id: string) returns (e: TextElement)
    requires IsForest(Links(st.atoms)) && id in st.atoms
    ensures e in ElementsOf(decode, st) && e == ElementFor(decode, st, id)
  {
    var links := Links(st.atoms);
    ForestOrder(links);
    OrderEmitsAttachedOnce(links);
    assert id in Order(links);
    var i :| 0 <= i < |Order(links)| && Order(links)[i] == id;
    RenderAt(decode, st, Order(links), i);
    e := ElementsOf(decode, st)[i];
  }

  /** Every inserted element is shown among the elements, tombstones included. */
  lemma NamedIsElement(profile: Profile, encode: Encoder, ops: seq<TextOp>, op: TextOp, el: ElementId)
    returns (e: TextElement)
    requires StrictTotal(profile.less) && UriCodec(encode, profile.decode) && Sound(profile, encode, ops)
    requires op in ops && Names(encode, op, el)
    ensures e in AssembleText(profile, ops).elements && e.id == el
  {
    var id := op.payload.edit.atomId;
    InsertedHeld(profile, ops, op);
    e := AtomRendered(profile.decode, FoldOf(profile, ops), id);
    var order: int :| TextAtomId(encode, el, order) == Ok(id);
    ElementParsed(profile, encode, FoldOf(profile, ops), id, el, order);
  }

  lemma InsertedHeld(profile: Profile, ops: seq<TextOp>, op: TextOp)
    requires StrictTotal(profile.less) && Settled(ops) && op in ops && IsInsert(op)
    ensures op.payload.edit.atomId in FoldOf(profile, ops).atoms
  {
    var i :| 0 <= i < |ops| && ops[i] == op;
    assert ValidOp(ops[i]);
    AllInDelivered(ops, i);
    Described(profile, ops, op.payload.edit.atomId);
    assert Inserts(NodeOf(ops).delivered, op.payload.edit.atomId, NormaliseOp(op, Bases(ops)));
  }

  /** The k-th operation of a replacement deletes, or inserts the element of the next counter but so many. */
  ghost predicate NamesInTurn(encode: Encoder, more: seq<TextOp>, d: nat, actor: string, counter: int) {
    forall k :: 0 <= k < |more| && IsInsert(more[k]) ==>
      d <= k && Names(encode, more[k], ElementId(actor, counter + (k - d))) && more[k].origin == actor
  }

  lemma IssuedInTurn(encode: Encoder, more: seq<TextOp>, visible: seq<TextElement>, i: nat, j: nat, text: string,
                     actor: string, counter: int, order: int, edits: seq<TextEdit>)
    requires i <= j <= |visible| && Allocatable(actor, counter, order, |text|) && Issues(more, edits)
    requires edits == PlannedEdits(visible, i, j, text, Allocator(encode, actor, counter, order))
    requires forall op :: op in more ==> op.origin == actor
    ensures NamesInTurn(encode, more, j - i, actor, counter)
  {
    forall k | 0 <= k < |more| && IsInsert(more[k])
      ensures j - i <= k && Names(encode, more[k], ElementId(actor, counter + (k - (j - i)))) && more[k].origin == actor
    {
      var d := j - i;
      assert more[k].payload == EditPayload(edits[k]) && more[k] in more;
      T.PlannedInsert(visible, i, j, text, Allocator(encode, actor, counter, order), k);
      AllocatedOk(encode, actor, counter, order, |text|, k - d);
      assert TextAtomId(encode, ElementId(actor, counter + (k - d)), order + (k - d))
          == Ok(more[k].payload.edit.atomId);
    }
  }

  /** An element named by what is held has a lower counter than the ones named next. */
  lemma CounterBelow(profile: Profile, encode: Encoder, ops: seq<TextOp>, op: TextOp, el: ElementId)
    requires StrictTotal(profile.less) && UriCodec(encode, profile.decode) && Sound(profile, encode, ops)
    requires op in ops && Names(encode, op, el)
    ensures el.counter < T.NextTextCounter(AssembleText(profile, ops).elements, el.actor)
  {
    var e := NamedIsElement(profile, encode, ops, op, el);
  }

  lemma TurnOf(encode: Encoder, decode: string -> Option<string>, more: seq<TextOp>, d: nat, actor: string,
               counter: int,
               op: TextOp, el: ElementId) returns (k: nat)
    requires UriCodec(encode, decode) && NamesInTurn(encode, more, d, actor, counter) && op in more
    requires Names(encode, op, el)
    ensures d <= k < |more| && more[k] == op && el == ElementId(actor, counter + (k - d))
  {
    k :| 0 <= k < |more| && more[k] == op;
    OneElement(encode, decode, op, el, ElementId(actor, counter + (k - d)));
  }

  lemma InTurnOwned(profile: Profile, encode: Encoder, ops: seq<TextOp>, more: seq<TextOp>, d: nat, actor: string,
                    counter: int, elements: seq<TextElement>)
    requires StrictTotal(profile.less) && UriCodec(encode, profile.decode)
    requires Sound(profile, encode, ops) && Owned(encode, ops) && NamesInTurn(encode, more, d, actor, counter)
    requires elements == AssembleText(profile, ops).elements && counter == T.NextTextCounter(elements, actor)
    ensures Owned(encode, ops + more)
  {
    forall op | op in ops + more && IsInsert(op)
      ensures exists el: ElementId :: Names(encode, op, el) && el.actor == op.origin
    {
      if op !in ops {
        var k :| 0 <= k < |more| && more[k] == op;
        assert Names(encode, op, ElementId(actor, counter + (k - d)));
      }
    }
    forall x, y, el | x in ops + more && y in ops + more && Names(encode, x, el) && Names(encode, y, el)
      ensures x == y
    {
      NamedOnce(profile, encode, ops, more, d, actor, counter, x, y, el);
    }
  }

  lemma NamedOnce(profile: Profile, encode: Encoder, ops: seq<TextOp>, more: seq<TextOp>, d: nat, actor: string,
                  counter: int,
                  x: TextOp, y: TextOp, el: ElementId)
    requires StrictTotal(profile.less) && UriCodec(encode, profile.decode)
    requires Sound(profile, encode, ops) && Owned(encode, ops) && NamesInTurn(encode, more, d, actor, counter)
    requires counter == T.NextTextCounter(AssembleText(profile, ops).elements, actor)
    requires x in ops + more && y in ops + more && Names(encode, x, el) && Names(encode, y, el)
    ensures x == y
  {
    if x in ops && y !in ops {
      NamedAnew(profile, encode, ops, more, d, actor, counter, x, y, el, el);
    } else if x !in ops && y in ops {
      NamedAnew(profile, encode, ops, more, d, actor, counter, y, x, el, el);
    } else if x !in ops {
      var k := TurnOf(encode, profile.decode, more, d, actor, counter, x, el);
      var m := TurnOf(encode, profile.decode, more, d, actor, counter, y, el);
    }
  }

  /** What is named next is not what was named before. */
  lemma NamedAnew(profile: Profile, encode: Encoder, ops: seq<TextOp>, more: seq<TextOp>, d: nat, actor: string,
                  counter: int,
                  x: TextOp, y: TextOp, el: ElementId, next: ElementId)
    requires StrictTotal(profile.less) && UriCodec(encode, profile.decode)
    requires Sound(profile, encode, ops) && NamesInTurn(encode, more, d, actor, counter)
    requires counter == T.NextTextCounter(AssembleText(profile, ops).elements, actor)
    requires x in ops && y in more && Names(encode, x, el) && Names(encode, y, next)
    ensures el != next
  {
    CounterBelow(profile, encode, ops, x, el);
    var k := TurnOf(encode, profile.decode, more, d, actor, counter, y, next);
  }

  lemma PlanInTurn(encode: Encoder, shown: TextState, highest: int, next: string, actor: string,
                   i: nat, j: nat, text: string, edits: seq<TextEdit>, more: seq<TextOp>)
    returns (d: nat, counter: int)
    requires T.Plans(encode, shown, highest, next, actor, i, j, text, edits)
    requires T.CanAllocate(shown, highest, actor, |text|)
    requires Issues(more, edits) && forall op :: op in more ==> op.origin == actor
    ensures counter == T.NextTextCounter(shown.elements, actor) && NamesInTurn(encode, more, d, actor, counter)
  {
    d, counter := j - i, T.NextTextCounter(shown.elements, actor);
    IssuedInTurn(encode, more, shown.visible, i, j, text, actor, T.NextTextCounter(shown.elements, actor),
                 highest + 1, edits);
  }

  /** A replacement by its own origin names only elements never named before, so over any run of replacements
      no element is inserted twice. */
  lemma ReplacementOwned(profile: Profile, encode: Encoder, ops: seq<TextOp>, more: seq<TextOp>, next: string,
                         shown: TextState, actor: string, i: nat, j: nat, text: string, edits: seq<TextEdit>)
    requires StrictTotal(profile.less) && UriCodec(encode, profile.decode)
    requires Sound(profile, encode, ops) && Owned(encode, ops) && shown == AssembleText(profile, ops)
    requires T.Plans(encode, shown, MaxLamport(ops), next, actor, i, j, text, edits)
    requires T.CanAllocate(shown, MaxLamport(ops), actor, |text|)
    requires Issues(more, edits) && forall op :: op in more ==> op.origin == actor
    ensures Owned(encode, ops + more)
  {
    var d, counter := PlanInTurn(encode, shown, MaxLamport(ops), next, actor, i, j, text, edits, more);
    InTurnOwned(profile, encode, ops, more, d, actor, counter, shown.elements);
  }

  // ---- unique elements --------------------------------------------------------------------------------------

  lemma ElementNamed(profile: Profile, encode: Encoder, ops: seq<TextOp>, k: nat) returns (op: TextOp)
    requires StrictTotal(profile.less) && UriCodec(encode, profile.decode)
    requires Sound(profile, encode, ops) && Owned(encode, ops) && k < |AssembleText(profile, ops).elements|
    ensures var e := AssembleText(profile, ops).elements[k];
            op in ops && Names(encode, op, e.id) && op.payload.edit.atomId == e.atomId
  {
    var st := FoldOf(profile, ops);
    OrderEmitsAttachedOnce(Links(st.atoms));
    var id := Order(Links(st.atoms))[k];
    RenderAt(profile.decode, st, Order(Links(st.atoms)), k);
    var i := AtomInserted(profile, ops, id);
    op := ops[i];
    var el: ElementId :| Names(encode, op, el) && el.actor == op.origin;
    var order: int :| TextAtomId(encode, el, order) == Ok(id);
    ElementParsed(profile, encode, st, id, el, order);
  }

  lemma SameElementSameAtom(profile: Profile, encode: Encoder, ops: seq<TextOp>, i: nat, j: nat)
    requires StrictTotal(profile.less) && UriCodec(encode, profile.decode) && Sound(profile, encode, ops)
    requires Owned(encode, ops)
    requires i < j < |AssembleText(profile, ops).elements|
    requires AssembleText(profile, ops).elements[i].id == AssembleText(profile, ops).elements[j].id
    ensures AssembleText(profile, ops).elements[i].atomId == AssembleText(profile, ops).elements[j].atomId
  {
    var x := ElementNamed(profile, encode, ops, i);
    var y := ElementNamed(profile, encode, ops, j);
    assert x == y;
  }

  /** In every such document element ids are unique, so a caret stands for one element. */
  lemma ElementsUnique(profile: Profile, encode: Encoder, ops: seq<TextOp>)
    requires StrictTotal(profile.less) && UriCodec(encode, profile.decode) && Sound(profile, encode, ops)
    requires Owned(encode, ops)
    ensures UniqueIds(AssembleText(profile, ops).elements)
  {
    var elements := AssembleText(profile, ops).elements;
    var links := Links(FoldOf(profile, ops).atoms);
    OrderEmitsAttachedOnce(links);
    forall i, j | 0 <= i < j < |elements| ensures elements[i].id != elements[j].id {
      assert elements[i].atomId == Order(links)[i] && elements[j].atomId == Order(links)[j];
      if elements[i].id == elements[j].id { SameElementSameAtom(profile, encode, ops, i, j); }
    }
  }
}
