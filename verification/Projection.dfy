/** The identity projection: atoms and tombstones laid out as elements, in traversal order. */
module Projection {
  import opened Wrappers
  import opened Orders
  import opened Forest
  import opened AtomIds
  import opened TextOps
  import opened Fold

  /** The decoder and the collation a projection runs with. */
  datatype Profile = Profile(decode: string -> Option<string>, less: (string, string) -> bool)

  function Links(atoms: Atoms): Parents {
    map id | id in atoms :: atoms[id].after
  }

  function ElementFor(decode: string -> Option<string>, st: Folded, id: string): TextElement
    requires id in st.atoms
  {
    var atom := st.atoms[id];
    TextElement(ParseTextAtomId(decode, id, atom.origin, atom.seqNo), id, atom.text, id in st.deleted)
  }

  /** The elements of the atoms `ids`, in that order. */
  function Render(decode: string -> Option<string>, st: Folded, ids: seq<string>): (r: seq<TextElement>)
    requires forall id :: id in ids ==> id in st.atoms
    ensures |r| == |ids| && forall i :: 0 <= i < |ids| ==> r[i].atomId == ids[i]
  {
    if ids == [] then []
    else Render(decode, st, ids[..|ids| - 1]) + [ElementFor(decode, st, ids[|ids| - 1])]
  }

  /** All elements, tombstones included, in projection order. */
  ghost function ElementsOf(decode: string -> Option<string>, st: Folded): seq<TextElement> {
    OrderEmitsAttachedOnce(Links(st.atoms));
    Render(decode, st, Order(Links(st.atoms)))
  }

  function VisibleOf(elements: seq<TextElement>): seq<TextElement> {
    if elements == [] then []
    else
      VisibleOf(elements[..|elements| - 1])
      + (if elements[|elements| - 1].deleted then [] else [elements[|elements| - 1]])
  }

  /** The texts of `elements`, concatenated. */
  function Joined(elements: seq<TextElement>): string {
    if elements == [] then "" else Joined(elements[..|elements| - 1]) + elements[|elements| - 1].text
  }

  function StateOf(elements: seq<TextElement>): TextState {
    TextState(Joined(VisibleOf(elements)), elements, VisibleOf(elements))
  }

  /** The state a projection of `st` shows. */
  ghost function Project(decode: string -> Option<string>, st: Folded): TextState {
    StateOf(ElementsOf(decode, st))
  }

  lemma {:induction false} VisibleConcat(a: seq<TextElement>, b: seq<TextElement>)
    ensures VisibleOf(a + b) == VisibleOf(a) + VisibleOf(b)
  {
    if b == [] {
      assert a + b == a;
    } else {
      assert (a + b)[..|a + b| - 1] == a + b[..|b| - 1];
      VisibleConcat(a, b[..|b| - 1]);
    }
  }

  lemma {:induction false} JoinedConcat(a: seq<TextElement>, b: seq<TextElement>)
    ensures Joined(a + b) == Joined(a) + Joined(b)
  {
    if b == [] {
      assert a + b == a;
    } else {
      assert (a + b)[..|a + b| - 1] == a + b[..|b| - 1];
      JoinedConcat(a, b[..|b| - 1]);
    }
  }

  lemma {:induction false} RenderConcat(decode: string -> Option<string>, st: Folded, a: seq<string>, b: seq<string>)
    requires forall id :: id in a + b ==> id in st.atoms
    ensures forall id :: id in a || id in b ==> id in st.atoms
    ensures Render(decode, st, a + b) == Render(decode, st, a) + Render(decode, st, b)
  {
    forall id | id in a || id in b ensures id in st.atoms { assert id in a + b; }
    if b == [] {
      assert a + b == a;
    } else {
      var b' := b[..|b| - 1];
      assert (a + b)[..|a + b| - 1] == a + b';
      RenderConcat(decode, st, a, b');
    }
  }

  // ---- the projection in terms of ids -----------------------------------------------------

  /** `ids` without those in `gone`. */
  function Drop(ids: seq<string>, gone: set<string>): seq<string> {
    if ids == [] then []
    else Drop(ids[..|ids| - 1], gone) + (if ids[|ids| - 1] in gone then [] else [ids[|ids| - 1]])
  }

  /** The texts of the atoms `ids`, concatenated. */
  function Texts(atoms: Atoms, ids: seq<string>): string
    requires forall id :: id in ids ==> id in atoms
  {
    if ids == [] then "" else Texts(atoms, ids[..|ids| - 1]) + atoms[ids[|ids| - 1]].text
  }

  function IdsOf(elements: seq<TextElement>): (r: seq<string>)
    ensures |r| == |elements| && forall i :: 0 <= i < |r| ==> r[i] == elements[i].atomId
  {
    seq(|elements|, i requires 0 <= i < |elements| => elements[i].atomId)
  }

  lemma VisibleAppend(elements: seq<TextElement>, e: TextElement)
    ensures VisibleOf(elements + [e]) == VisibleOf(elements) + if e.deleted then [] else [e]
  {
    assert (elements + [e])[..|elements|] == elements;
  }

  lemma {:induction false} VisibleIds(decode: string -> Option<string>, st: Folded, ids: seq<string>)
    requires forall id :: id in ids ==> id in st.atoms
    ensures IdsOf(VisibleOf(Render(decode, st, ids))) == Drop(ids, st.deleted)
  {
    if ids != [] {
      var init, e := ids[..|ids| - 1], ElementFor(decode, st, ids[|ids| - 1]);
      VisibleIds(decode, st, init);
      VisibleAppend(Render(decode, st, init), e);
      IdsAppend(VisibleOf(Render(decode, st, init)), e);
      DropAppend(init, ids[|ids| - 1], st.deleted);
      assert ids == init + [ids[|ids| - 1]];
    }
  }

  lemma {:induction false} VisibleAtoms(decode: string -> Option<string>, st: Folded, ids: seq<string>)
    requires forall id :: id in ids ==> id in st.atoms
    ensures forall e ::
        e in VisibleOf(Render(decode, st, ids)) ==> e.atomId in st.atoms && e.text == st.atoms[e.atomId].text
  {
    if ids != [] {
      VisibleAtoms(decode, st, ids[..|ids| - 1]);
      VisibleAppend(Render(decode, st, ids[..|ids| - 1]), ElementFor(decode, st, ids[|ids| - 1]));
    }
  }

  lemma IdsAppend(elements: seq<TextElement>, e: TextElement)
    ensures IdsOf(elements + [e]) == IdsOf(elements) + [e.atomId]
    ensures elements + [] == elements && IdsOf(elements) + [] == IdsOf(elements)
  {
  }

  lemma DropAppend(ids: seq<string>, id: string, gone: set<string>)
    ensures Drop(ids + [id], gone) == Drop(ids, gone) + if id in gone then [] else [id]
  {
    assert (ids + [id])[..|ids|] == ids;
  }

  lemma {:induction false} JoinedTexts(atoms: Atoms, elements: seq<TextElement>)
    requires forall e :: e in elements ==> e.atomId in atoms && e.text == atoms[e.atomId].text
    ensures forall id :: id in IdsOf(elements) ==> id in atoms
    ensures Joined(elements) == Texts(atoms, IdsOf(elements))
  {
    if elements != [] {
      var init := elements[..|elements| - 1];
      JoinedTexts(atoms, init);
      assert IdsOf(elements)[..|elements| - 1] == IdsOf(init);
      assert elements[|elements| - 1] in elements;
    }
  }

  lemma {:induction false} TextsConcat(atoms: Atoms, a: seq<string>, b: seq<string>)
    requires forall id :: id in a || id in b ==> id in atoms
    ensures forall id :: id in a + b ==> id in atoms
    ensures Texts(atoms, a + b) == Texts(atoms, a) + Texts(atoms, b)
  {
    if b == [] {
      assert a + b == a;
    } else {
      var b', id := b[..|b| - 1], b[|b| - 1];
      TextsConcat(atoms, a, b');
      TextsNext(atoms, a + b', id);
      assert a + b == (a + b') + [id] && b == b' + [id];
    }
  }

  lemma TextsNext(atoms: Atoms, ids: seq<string>, id: string)
    requires id in atoms && forall x :: x in ids ==> x in atoms
    ensures (forall x :: x in ids + [id] ==> x in atoms)
         && Texts(atoms, ids + [id]) == Texts(atoms, ids) + atoms[id].text
  {
    assert (ids + [id])[..|ids|] == ids;
  }

  lemma {:induction false} DropConcat(a: seq<string>, b: seq<string>, gone: set<string>)
    ensures Drop(a + b, gone) == Drop(a, gone) + Drop(b, gone)
  {
    if b == [] {
      assert a + b == a;
    } else {
      assert (a + b)[..|a + b| - 1] == a + b[..|b| - 1];
      DropConcat(a, b[..|b| - 1], gone);
    }
  }

  lemma {:induction false} DropTwice(ids: seq<string>, a: set<string>, b: set<string>)
    ensures Drop(ids, a + b) == Drop(Drop(ids, a), b)
  {
    if ids != [] {
      var init, last := ids[..|ids| - 1], [ids[|ids| - 1]];
      DropTwice(init, a, b);
      DropConcat(Drop(init, a), last, b);
      if last[0] in a { assert Drop(init, a) + [] == Drop(init, a); }
    }
  }

  lemma {:induction false} DropNone(ids: seq<string>, gone: set<string>)
    requires forall id :: id in ids ==> id !in gone
    ensures Drop(ids, gone) == ids
  {
    if ids != [] { DropNone(ids[..|ids| - 1], gone); }
  }

  lemma {:induction false} DropAll(ids: seq<string>, gone: set<string>)
    requires forall id :: id in ids ==> id in gone
    ensures Drop(ids, gone) == []
  {
    if ids != [] { DropAll(ids[..|ids| - 1], gone); }
  }

  lemma {:induction false} DropMembers(ids: seq<string>, gone: set<string>)
    ensures forall id :: id in Drop(ids, gone) <==> id in ids && id !in gone
    ensures NoDuplicates(ids) ==> NoDuplicates(Drop(ids, gone))
  {
    if ids != [] {
      var init := ids[..|ids| - 1];
      DropMembers(init, gone);
      assert ids == init + [ids[|ids| - 1]];
    }
  }

  /** The text of a projection is that of its live atoms in traversal order. */
  lemma ProjectedText(decode: string -> Option<string>, st: Folded)
    ensures forall id :: id in Drop(Order(Links(st.atoms)), st.deleted) ==> id in st.atoms
    ensures IdsOf(Project(decode, st).visible) == Drop(Order(Links(st.atoms)), st.deleted)
    ensures Project(decode, st).text == Texts(st.atoms, Drop(Order(Links(st.atoms)), st.deleted))
    ensures forall e :: e in Project(decode, st).visible ==> e.atomId in st.atoms && e.text == st.atoms[e.atomId].text
    ensures IdsOf(Project(decode, st).elements) == Order(Links(st.atoms))
  {
    OrderEmitsAttachedOnce(Links(st.atoms));
    var o := Order(Links(st.atoms));
    VisibleIds(decode, st, o);
    VisibleAtoms(decode, st, o);
    JoinedTexts(st.atoms, VisibleOf(Render(decode, st, o)));
  }

  lemma {:induction false} RenderAt(decode: string -> Option<string>, st: Folded, ids: seq<string>, i: nat)
    requires (forall id :: id in ids ==> id in st.atoms) && i < |ids|
    ensures Render(decode, st, ids)[i] == ElementFor(decode, st, ids[i])
  {
    if i < |ids| - 1 { RenderAt(decode, st, ids[..|ids| - 1], i); }
  }

  /** Each element says what its atom id parses to, the atom's text, and whether the atom was deleted; the visible
      ones are those that were not, in order. */
  lemma ElementsExactly(decode: string -> Option<string>, st: Folded, k: nat)
    requires k < |Project(decode, st).elements|
    ensures var e := Project(decode, st).elements[k];
            && e.atomId in st.atoms
            && e.id == ParseTextAtomId(decode, e.atomId, st.atoms[e.atomId].origin, st.atoms[e.atomId].seqNo)
            && e.text == st.atoms[e.atomId].text && (e.deleted <==> e.atomId in st.deleted)
            && (e in Project(decode, st).visible <==> !e.deleted)
  {
    OrderEmitsAttachedOnce(Links(st.atoms));
    RenderAt(decode, st, Order(Links(st.atoms)), k);
    VisibleMembers(Project(decode, st).elements, Project(decode, st).elements[k]);
  }

  lemma {:induction false} VisibleMembers(elements: seq<TextElement>, e: TextElement)
    ensures e in VisibleOf(elements) <==> e in elements && !e.deleted
  {
    if elements != [] {
      VisibleMembers(elements[..|elements| - 1], e);
      assert elements == elements[..|elements| - 1] + [elements[|elements| - 1]];
    }
  }

  // ---- the traversal as the code runs it ------------------------------------------------

  datatype Frame = Frame(id: string, leaving: bool)

  type Children = map<Option<string>, seq<string>>

  function KidsIn(children: Children, parent: Option<string>): seq<string> {
    if parent in children then children[parent] else []
  }

  /** The ids a stack will still enter, next one first; the top of the stack is its end. */
  function Pending(stack: seq<Frame>): seq<string> {
    if stack == [] then []
    else
      var top := stack[|stack| - 1];
      (if top.leaving then [] else [top.id]) + Pending(stack[..|stack| - 1])
  }

  lemma PendingTop(rest: seq<Frame>, top: Frame)
    ensures Pending(rest + [top]) == (if top.leaving then Pending(rest) else [top.id] + Pending(rest))
  {
    assert (rest + [top])[..|rest|] == rest;
  }

  lemma PendingPop(stack: seq<Frame>)
    requires stack != []
    ensures var top, rest := stack[|stack| - 1], stack[..|stack| - 1];
            Pending(stack) == (if top.leaving then Pending(rest) else [top.id] + Pending(rest))
  {
  }

  ghost predicate SortedChildren(st: Folded, children: Children) {
    forall parent {:trigger KidsIn(children, parent)} :: Present(st, parent)
        ==> KidsIn(children, parent) == Kids(Links(st.atoms), parent)
  }

  predicate Present(st: Folded, parent: Option<string>) {
    parent.None? || parent.value in st.atoms
  }

  /** Push the children of an atom so that the smallest id ends on top. */
  method PushChildren(nested: seq<string>, base: seq<Frame>) returns (stack: seq<Frame>)
    ensures Pending(stack) == nested + Pending(base)
    ensures forall fr :: fr in base ==> fr in stack
    ensures forall fr :: fr in stack ==> fr in base || (!fr.leaving && fr.id in nested)
  {
    stack := base;
    var i := |nested|;
    while i > 0
      invariant 0 <= i <= |nested|
      invariant Pending(stack) == nested[i..] + Pending(base)
      invariant forall fr :: fr in base ==> fr in stack
      invariant forall fr :: fr in stack ==> fr in base || (!fr.leaving && fr.id in nested)
    {
      i := i - 1;
      assert (stack + [Frame(nested[i], false)])[..|stack|] == stack;
      stack := stack + [Frame(nested[i], false)];
    }
  }

  lemma RenderAppend(decode: string -> Option<string>, st: Folded, ids: seq<string>, id: string)
    requires id in st.atoms && id !in ids && forall x :: x in ids ==> x in st.atoms
    ensures forall x :: x in ids + [id] ==> x in st.atoms
    ensures Render(decode, st, ids + [id]) == Render(decode, st, ids) + [ElementFor(decode, st, id)]
    ensures Elements(ids + [id]) == Elements(ids) + {id} && id !in Elements(ids)
  {
    assert (ids + [id])[..|ids|] == ids;
  }

  lemma Emitted(st: Folded, ids: seq<string>, id: string, rest: seq<string>)
    requires id in st.atoms && id !in ids
    ensures var f := Links(st.atoms);
            Dfs(f, [id] + rest, ids) == Dfs(f, Kids(f, Some(id)) + rest, ids + [id])
  {
    assert ([id] + rest)[1..] == rest;
  }

  lemma Skipped(f: Parents, ids: seq<string>, id: string, rest: seq<string>)
    requires id in ids
    ensures Dfs(f, [id] + rest, ids) == Dfs(f, rest, ids)
  {
    assert ([id] + rest)[1..] == rest;
  }

  /** What the stack loop keeps: the atoms emitted are those on the current branch, marked on the
      stack to be left, and those already left; and what is pending leads to `goal`. */
  ghost predicate Walking(st: Folded, goal: seq<string>, stack: seq<Frame>, visiting: set<string>,
                          visited: set<string>, ids: seq<string>) {
    Marked(st, stack, visiting, visited, ids) && Dfs(Links(st.atoms), Pending(stack), ids) == goal
  }

  ghost predicate Marked(st: Folded, stack: seq<Frame>, visiting: set<string>, visited: set<string>, ids: seq<string>) {
    && (forall id :: id in ids ==> id in st.atoms)
    && (forall fr :: fr in stack ==> fr.id in st.atoms && (fr.leaving ==> fr.id in ids))
    && (forall id :: id in visiting ==> Frame(id, true) in stack)
    && (forall id :: id in ids <==> id in visiting || id in visited)
  }

  lemma PopFrame(stack: seq<Frame>)
    requires stack != []
    ensures forall fr :: fr in stack <==> fr == stack[|stack| - 1] || fr in stack[..|stack| - 1]
  {
    assert stack == stack[..|stack| - 1] + [stack[|stack| - 1]];
  }

  lemma LeaveKeeps(st: Folded, goal: seq<string>, stack: seq<Frame>, visiting: set<string>, visited: set<string>,
                   ids: seq<string>)
    requires stack != [] && Walking(st, goal, stack, visiting, visited, ids) && stack[|stack| - 1].leaving
    ensures var id := stack[|stack| - 1].id;
            Walking(st, goal, stack[..|stack| - 1], visiting - {id}, visited + {id}, ids)
  {
    LeaveMarked(st, stack[..|stack| - 1], stack[|stack| - 1], stack, visiting, visited, ids);
    PendingPop(stack);
  }

  lemma LeaveMarked(st: Folded, rest: seq<Frame>, top: Frame, stack: seq<Frame>, visiting: set<string>,
                    visited: set<string>, ids: seq<string>)
    requires stack != [] && rest == stack[..|stack| - 1] && top == stack[|stack| - 1] && top.leaving
    requires Marked(st, stack, visiting, visited, ids)
    ensures Marked(st, rest, visiting - {top.id}, visited + {top.id}, ids)
  {
    PopFrame(stack);
  }

  lemma SkipKeeps(st: Folded, goal: seq<string>, stack: seq<Frame>, visiting: set<string>, visited: set<string>,
                  ids: seq<string>)
    requires stack != [] && Walking(st, goal, stack, visiting, visited, ids) && !stack[|stack| - 1].leaving
    requires stack[|stack| - 1].id in ids
    ensures Walking(st, goal, stack[..|stack| - 1], visiting, visited, ids)
  {
    PopFrame(stack);
    PendingPop(stack);
    Skipped(Links(st.atoms), ids, stack[|stack| - 1].id, Pending(stack[..|stack| - 1]));
  }

  lemma EnterKeeps(st: Folded, goal: seq<string>, stack: seq<Frame>, visiting: set<string>, visited: set<string>,
                   ids: seq<string>, pushed: seq<Frame>)
    requires stack != [] && Walking(st, goal, stack, visiting, visited, ids) && !stack[|stack| - 1].leaving
    requires stack[|stack| - 1].id !in ids
    requires var id, rest := stack[|stack| - 1].id, stack[..|stack| - 1];
             && (forall fr :: fr in rest + [Frame(id, true)] ==> fr in pushed)
             && (forall fr :: fr in pushed ==> fr in rest + [Frame(id, true)] || (!fr.leaving && fr.id in st.atoms))
             && Pending(pushed) == Kids(Links(st.atoms), Some(id)) + Pending(rest + [Frame(id, true)])
    ensures var id := stack[|stack| - 1].id;
            Walking(st, goal, pushed, visiting + {id}, visited, ids + [id])
  {
    var id, rest := stack[|stack| - 1].id, stack[..|stack| - 1];
    PopFrame(stack);
    PendingPop(stack);
    PendingTop(rest, Frame(id, true));
    assert stack[|stack| - 1] in stack;
    Emitted(st, ids, id, Pending(rest));
    assert forall x :: x in ids + [id] <==> x in ids || x == id;
    assert forall fr :: fr in rest + [Frame(id, true)] <==> fr in rest || fr == Frame(id, true);
  }

  /** The stack loop from one root. `visiting` holds the atoms on the current branch. */
  method Visit(profile: Profile, st: Folded, children: Children, root: string, visited: set<string>,
               elements: seq<TextElement>, ghost ids: seq<string>)
    returns (visited': set<string>, elements': seq<TextElement>, ghost ids': seq<string>)
    requires SortedChildren(st, children) && root in st.atoms
    requires forall id :: id in ids ==> id in st.atoms
    requires forall id :: id in ids <==> id in visited
    requires elements == Render(profile.decode, st, ids)
    ensures ids' == Dfs(Links(st.atoms), [root], ids)
    ensures forall id :: id in Dfs(Links(st.atoms), [root], ids) ==> id in st.atoms
    ensures forall id :: id in Dfs(Links(st.atoms), [root], ids) <==> id in visited'
    ensures elements' == Render(profile.decode, st, Dfs(Links(st.atoms), [root], ids))
  {
    ghost var goal := Dfs(Links(st.atoms), [root], ids);
    var stack := [Frame(root, false)];
    assert Pending(stack) == [root];
    var visiting: set<string> := {};
    visited', elements', ids' := visited, elements, ids;
    while stack != []
      invariant Walking(st, goal, stack, visiting, visited', ids')
      invariant elements' == Render(profile.decode, st, ids')
      decreases st.atoms.Keys - Elements(ids'), |stack|
    {
      var frame, rest := stack[|stack| - 1], stack[..|stack| - 1];
      assert frame in stack;
      if frame.leaving {
        LeaveKeeps(st, goal, stack, visiting, visited', ids');
        visiting, visited' := visiting - {frame.id}, visited' + {frame.id};
        stack := rest;
      } else if frame.id in visiting || frame.id in visited' {
        // On the current branch, which closes a cycle, or already emitted.
        SkipKeeps(st, goal, stack, visiting, visited', ids');
        stack := rest;
      } else {
        var pushed := PushChildren(KidsIn(children, Some(frame.id)), rest + [Frame(frame.id, true)]);
        EnterKeeps(st, goal, stack, visiting, visited', ids', pushed);
        RenderAppend(profile.decode, st, ids', frame.id);
        visiting := visiting + {frame.id};
        elements' := elements' + [ElementFor(profile.decode, st, frame.id)];
        ids' := ids' + [frame.id];
        stack := pushed;
      }
    }
  }

  /** The children lists hold the processed atoms, each under its present parent, once. */
  ghost predicate Grouped(st: Folded, children: Children, todo: set<string>) {
    && (forall p {:trigger KidsIn(children, p)} :: NoDuplicates(KidsIn(children, p)))
    && (forall p, id {:trigger id in KidsIn(children, p)} :: id in KidsIn(children, p) <==>
          id in st.atoms && id !in todo && st.atoms[id].after == p && Present(st, p))
  }

  lemma GroupStep(st: Folded, children: Children, todo: set<string>, id: string)
    requires Grouped(st, children, todo) && id in todo && id in st.atoms
    ensures var after := st.atoms[id].after;
            Grouped(st, if Present(st, after) then children[after := KidsIn(children, after) + [id]] else children,
                    todo - {id})
  {
    var after := st.atoms[id].after;
    if Present(st, after) {
      var next := children[after := KidsIn(children, after) + [id]];
      assert id !in KidsIn(children, after);
      assert forall p {:trigger KidsIn(next, p)} ::
          KidsIn(next, p) == (if p == after then KidsIn(children, p) + [id] else KidsIn(children, p));
    }
  }

  lemma SortedIsKids(st: Folded, kids: seq<string>, p: Option<string>)
    requires Ascending(kids, StringLess)
    requires forall id :: id in kids <==> id in st.atoms && st.atoms[id].after == p
    ensures kids == Kids(Links(st.atoms), p)
  {
    StringLessTotal();
    assert Elements(kids) == Elements(Kids(Links(st.atoms), p));
    AscendingUnique(kids, Kids(Links(st.atoms), p), StringLess);
  }

  /** Children by parent, each list sorted; atoms whose parent is missing are left out. The atoms are
      met in an arbitrary order, as the order of the map's keys is of no consequence. */
  method BuildChildren(st: Folded) returns (children: Children)
    ensures SortedChildren(st, children)
  {
    var grouped: Children := map[];
    var todo := st.atoms.Keys;
    while todo != {}
      invariant todo <= st.atoms.Keys
      invariant Grouped(st, grouped, todo)
    {
      var id :| id in todo;
      GroupStep(st, grouped, todo, id);
      todo := todo - {id};
      var after := st.atoms[id].after;
      if Present(st, after) {
        grouped := grouped[after := KidsIn(grouped, after) + [id]];
      }
    }
    children := SortChildren(grouped);
    forall p | Present(st, p) ensures KidsIn(children, p) == Kids(Links(st.atoms), p) {
      SortedIsKids(st, KidsIn(children, p), p);
    }
  }

  method SortChildren(children: Children) returns (sorted: Children)
    requires forall p :: NoDuplicates(KidsIn(children, p))
    ensures forall p :: Ascending(KidsIn(sorted, p), StringLess)
    ensures forall p, id :: id in KidsIn(sorted, p) <==> id in KidsIn(children, p)
  {
    sorted := children;
    var parents := children.Keys;
    while parents != {}
      invariant parents <= children.Keys == sorted.Keys
      invariant forall p :: p !in parents ==> Ascending(KidsIn(sorted, p), StringLess)
      invariant forall p :: p in parents ==> KidsIn(sorted, p) == KidsIn(children, p)
      invariant forall p, id :: id in KidsIn(sorted, p) <==> id in KidsIn(children, p)
    {
      var p :| p in parents;
      parents := parents - {p};
      SortedSiblings(sorted[p]);
      assert NoDuplicates(KidsIn(children, p));
      sorted := sorted[p := Sort(sorted[p], StringLess)];
    }
  }

  lemma SortedSiblings(s: seq<string>)
    requires NoDuplicates(s)
    ensures Ascending(Sort(s, StringLess), StringLess)
    ensures forall id :: id in Sort(s, StringLess) <==> id in s
  {
    StringLessTotal();
    SortSorted(s, StringLess);
    assert forall id :: id in s <==> id in Elements(s);
    assert forall id :: id in Sort(s, StringLess) <==> id in Elements(Sort(s, StringLess));
  }

  /** The atoms of `list` whose parent is present. */
  ghost function AttachedOf(f: Parents, list: seq<string>): (r: seq<string>)
    ensures forall id :: id in r <==> id in list && Attached(f, id)
  {
    if list == [] then []
    else (if Attached(f, list[0]) then [list[0]] else []) + AttachedOf(f, list[1..])
  }

  lemma {:induction false} AttachedAscending(f: Parents, list: seq<string>)
    requires Ascending(list, StringLess)
    ensures Ascending(AttachedOf(f, list), StringLess)
  {
    if list != [] {
      StringLessTotal();
      AscendingTail(list, StringLess);
      AttachedAscending(f, list[1..]);
      if Attached(f, list[0]) { AscendingConcat([list[0]], AttachedOf(f, list[1..]), StringLess); }
    }
  }

  /** The sorted unvisited atoms with a present parent are the leftovers of the traversal. */
  lemma UnvisitedAreLeftover(f: Parents, list: seq<string>, done: seq<string>)
    requires Ascending(list, StringLess)
    requires forall id :: id in list <==> id in f && id !in done
    ensures AttachedOf(f, list) == Leftover(f, done)
  {
    StringLessTotal();
    AttachedAscending(f, list);
    assert Elements(AttachedOf(f, list)) == Elements(Leftover(f, done));
    AscendingUnique(AttachedOf(f, list), Leftover(f, done), StringLess);
  }

  method SortedUnvisited(atoms: Atoms, visited: set<string>) returns (list: seq<string>)
    ensures Ascending(list, StringLess)
    ensures forall id :: id in list <==> id in atoms && id !in visited
  {
    list := [];
    var todo := atoms.Keys;
    while todo != {}
      invariant todo <= atoms.Keys && NoDuplicates(list)
      invariant forall id :: id in list <==> id in atoms && id !in todo && id !in visited
    {
      var id :| id in todo;
      todo := todo - {id};
      if id !in visited { list := list + [id]; }
    }
    SortedSiblings(list);
    list := Sort(list, StringLess);
  }

  /** `projectIdentity`: fold the operations into the carried atoms and tombstones, then lay the atoms
      out as elements. */
  method ProjectIdentity(profile: Profile, operations: seq<CrdtOp>, carried: Folded)
    returns (st: Folded, state: TextState)
    ensures st == FoldOps(profile.less, carried, operations)
    ensures state == Project(profile.decode, st)
  {
    st := carried;
    for i := 0 to |operations|
      invariant st == FoldOps(profile.less, carried, operations[..i])
    {
      assert operations[..i + 1][..i] == operations[..i];
      st := ApplyOp(profile.less, st, operations[i]);
    }
    assert operations[..|operations|] == operations;

    var children := BuildChildren(st);
    ghost var f := Links(st.atoms);
    ghost var ids: seq<string> := [];
    var visited: set<string>, elements: seq<TextElement> := {}, [];

    var roots := KidsIn(children, None);
    for i := 0 to |roots|
      invariant forall id :: id in ids ==> id in st.atoms
      invariant forall id :: id in ids <==> id in visited
      invariant elements == Render(profile.decode, st, ids)
      invariant ids == Dfs(f, roots[..i], [])
    {
      assert roots[i] in roots;
      VisitNext(f, roots, i, []);
      visited, elements, ids := Visit(profile, st, children, roots[i], visited, elements, ids);
    }
    assert roots[..|roots|] == roots;

    ghost var rooted := ids;
    DfsEmits(f, roots, []);
    var rest := SortedUnvisited(st.atoms, visited);
    UnvisitedAreLeftover(f, rest, rooted);
    for i := 0 to |rest|
      invariant forall id :: id in ids ==> id in st.atoms
      invariant forall id :: id in ids <==> id in visited
      invariant elements == Render(profile.decode, st, ids)
      invariant ids == Dfs(f, AttachedOf(f, rest[..i]), rooted)
    {
      AttachedPrefix(f, rest, i, rooted);
      var after := st.atoms[rest[i]].after;
      if after.Some? && after.value in st.atoms {
        visited, elements, ids := Visit(profile, st, children, rest[i], visited, elements, ids);
      }
    }
    assert rest[..|rest|] == rest;
    OrderEmitsAttachedOnce(f);
    state := StateOf(elements);
  }

  lemma VisitNext(f: Parents, list: seq<string>, i: nat, done: seq<string>)
    requires i < |list|
    ensures Dfs(f, list[..i + 1], done) == Dfs(f, [list[i]], Dfs(f, list[..i], done))
  {
    assert list[..i + 1] == list[..i] + [list[i]];
    DfsAppend(f, list[..i], [list[i]], done);
  }

  lemma {:induction false} AttachedConcat(f: Parents, a: seq<string>, b: seq<string>)
    ensures AttachedOf(f, a + b) == AttachedOf(f, a) + AttachedOf(f, b)
  {
    if a == [] {
      assert a + b == b;
    } else {
      assert (a + b)[0] == a[0] && (a + b)[1..] == a[1..] + b;
      AttachedConcat(f, a[1..], b);
      var head := if Attached(f, a[0]) then [a[0]] else [];
      assert head + (AttachedOf(f, a[1..]) + AttachedOf(f, b)) == (head + AttachedOf(f, a[1..])) + AttachedOf(f, b);
    }
  }

  lemma AttachedPrefix(f: Parents, list: seq<string>, i: nat, done: seq<string>)
    requires i < |list|
    ensures Dfs(f, AttachedOf(f, list[..i + 1]), done)
            == Dfs(f, if Attached(f, list[i]) then [list[i]] else [], Dfs(f, AttachedOf(f, list[..i]), done))
  {
    var one := [list[i]];
    assert list[..i + 1] == list[..i] + one;
    AttachedConcat(f, list[..i], one);
    assert AttachedOf(f, one) == (if Attached(f, list[i]) then one else []);
    DfsAppend(f, AttachedOf(f, list[..i]), AttachedOf(f, one), done);
  }
}
