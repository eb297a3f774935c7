/** A planned replacement is exact: folding its edits and projecting again reads the new text. */
module Replacement {
  import opened Wrappers
  import opened Orders
  import opened Forest
  import opened TextOps
  import opened Fold
  import opened Projection
  import opened Planner

  /** What a plan needs of its ids: unused, distinct, and the first sorting before every atom already
      following the anchor. */
  ghost predicate FreshIds(st: Folded, anchor: Option<string>, ids: seq<string>) {
    && NoDuplicates(ids)
    && (forall id :: id in ids ==> id !in st.atoms && id !in st.deleted)
    && (ids != [] ==> forall k :: k in st.atoms && st.atoms[k].after == anchor ==> StringLess(ids[0], k))
  }

  /** `ops` are operations whose payloads are `edits`, whoever issued them. */
  ghost predicate Carries(ops: seq<CrdtOp>, edits: seq<TextEdit>) {
    |ops| == |edits| && forall k :: 0 <= k < |ops| ==> ops[k].edit == edits[k]
  }

  /** The k-th atom of a chain is in place. */
  ghost predicate Chained(atoms: Atoms, anchor: Option<string>, text: string, ids: seq<string>, k: nat)
    requires |ids| == |text| && k < |ids|
  {
    ids[k] in atoms && atoms[ids[k]].after == ChainAfter(anchor, ids, k) && atoms[ids[k]].text == [text[k]]
  }

  /** `st'` is `st` with the chain of single-character atoms `ids` added after `anchor`. */
  ghost predicate Extended(st: Folded, st': Folded, anchor: Option<string>, text: string, ids: seq<string>)
    requires |ids| == |text|
  {
    && st'.deleted == st.deleted
    && st'.atoms.Keys == st.atoms.Keys + Elements(ids)
    && (forall id {:trigger st'.atoms[id]} :: id in st.atoms ==> st'.atoms[id] == st.atoms[id])
    && (forall k :: 0 <= k < |ids| ==> Chained(st'.atoms, anchor, text, ids, k))
  }

  ghost function Spliced(o: seq<string>, slot: nat, ids: seq<string>): seq<string>
    requires slot <= |o|
  {
    o[..slot] + ids + o[slot..]
  }

  /** One more insert extends the chain by its last atom. */
  lemma ChainStep(st: Folded, mid: Folded, anchor: Option<string>, text: string, ids: seq<string>, atom: Atom)
    requires |ids| == |text| > 0 && FreshIds(st, anchor, ids)
    requires Extended(st, mid, anchor, text[..|text| - 1], ids[..|ids| - 1])
    requires atom.after == ChainAfter(anchor, ids, |ids| - 1) && atom.text == [text[|text| - 1]]
    ensures ids[|ids| - 1] !in mid.atoms
    ensures Extended(st, mid.(atoms := mid.atoms[ids[|ids| - 1] := atom]), anchor, text, ids)
  {
    var n := |ids| - 1;
    var init := ids[..n];
    LastIsNew(ids);
    assert ids[n] in ids;
    var next := mid.atoms[ids[n] := atom];
    forall k | 0 <= k < |ids| ensures Chained(next, anchor, text, ids, k) {
      if k < n {
        assert Chained(mid.atoms, anchor, text[..n], init, k);
        assert init[k] == ids[k] && init[k] != ids[n];
      }
    }
  }

  lemma LastIsNew(ids: seq<string>)
    requires ids != [] && NoDuplicates(ids)
    ensures ids[|ids| - 1] !in Elements(ids[..|ids| - 1])
    ensures Elements(ids) == Elements(ids[..|ids| - 1]) + {ids[|ids| - 1]}
  {
    assert ids == ids[..|ids| - 1] + [ids[|ids| - 1]];
  }

  /** Before the last insert of a fresh chain, nothing follows the insert before it. */
  lemma NothingFollows(st: Folded, mid: Folded, anchor: Option<string>, text: string, ids: seq<string>, k: string)
    requires IsForest(Links(st.atoms)) && IsAnchor(Links(st.atoms), anchor)
    requires |ids| == |text| > 1 && FreshIds(st, anchor, ids)
    requires Extended(st, mid, anchor, text[..|text| - 1], ids[..|ids| - 1]) && k in mid.atoms
    ensures mid.atoms[k].after != Some(ids[|ids| - 2])
  {
    var n := |ids| - 1;
    var init := ids[..n];
    assert ids[n - 1] in ids;
    if k in st.atoms {
      assert mid.atoms[k] == st.atoms[k];
      if st.atoms[k].after.Some? { ParentPresent(st, k); }
    } else {
      assert k in Elements(init);
      var m :| 0 <= m < |init| && init[m] == k;
      assert Chained(mid.atoms, anchor, text[..n], init, m);
      if m > 0 { assert init[m - 1] == ids[m - 1] && ids[m - 1] != ids[n - 1]; }
    }
  }

  /** Only atoms already following the anchor share a parent with the next insert. */
  lemma NextHasRoom(st: Folded, mid: Folded, anchor: Option<string>, text: string, ids: seq<string>, k: string)
    requires IsForest(Links(st.atoms)) && IsAnchor(Links(st.atoms), anchor)
    requires |ids| == |text| > 0 && FreshIds(st, anchor, ids)
    requires Extended(st, mid, anchor, text[..|text| - 1], ids[..|ids| - 1])
    requires k in mid.atoms && mid.atoms[k].after == ChainAfter(anchor, ids, |ids| - 1)
    ensures StringLess(ids[|ids| - 1], k)
  {
    if |ids| > 1 {
      NothingFollows(st, mid, anchor, text, ids, k);
    } else {
      assert Elements(ids[..0]) == {};
      assert mid.atoms[k] == st.atoms[k];
    }
  }

  lemma ParentPresent(st: Folded, k: string)
    requires IsForest(Links(st.atoms)) && k in st.atoms && st.atoms[k].after.Some?
    ensures st.atoms[k].after.value in st.atoms
  {
    var f := Links(st.atoms);
    assert Reaches(f, k);
    var p := Path(f, k);
    assert Step(f, p, |p| - 1);
    assert Step(f, p, |p| - 2);
  }

  lemma ChainPrefix(anchor: Option<string>, text: string, ids: seq<string>, ops: seq<CrdtOp>)
    requires |ids| == |text| > 0 && Carries(ops, Chain(anchor, text, ids))
    ensures Carries(ops[..|ids| - 1], Chain(anchor, text[..|ids| - 1], ids[..|ids| - 1]))
    ensures ops[|ids| - 1].edit == InsertAtom(ids[|ids| - 1], ChainAfter(anchor, ids, |ids| - 1), [text[|ids| - 1]])
  {
    var n := |ids| - 1;
    forall k | 0 <= k < n ensures ops[k].edit == Chain(anchor, text[..n], ids[..n])[k] {
      assert ops[k].edit == Chain(anchor, text, ids)[k];
    }
  }

  /** The last insert of a chain lands after the ones before it. */
  lemma ChainLandsStep(st: Folded, mid: Folded, anchor: Option<string>, text: string, ids: seq<string>,
                       at: Option<string>, slot: nat)
    requires IsForest(Links(st.atoms)) && IsAnchor(Links(st.atoms), anchor)
    requires IsSlot(Order(Links(st.atoms)), anchor, slot)
    requires |ids| == |text| > 0 && FreshIds(st, anchor, ids)
    requires Extended(st, mid, anchor, text[..|text| - 1], ids[..|ids| - 1])
    requires IsForest(Links(mid.atoms))
    requires Order(Links(mid.atoms)) == Spliced(Order(Links(st.atoms)), slot, ids[..|ids| - 1])
    requires at == ChainAfter(anchor, ids, |ids| - 1) && ids[|ids| - 1] !in mid.atoms
    ensures var f := Links(mid.atoms)[ids[|ids| - 1] := at];
            IsForest(f) && Order(f) == Spliced(Order(Links(st.atoms)), slot, ids)
  {
    var n := |ids| - 1;
    var f := Links(mid.atoms);
    SlotMoves(Order(Links(st.atoms)), anchor, slot, ids);
    NextAnchorPresent(st, mid, anchor, text, ids);
    AllHaveRoom(st, mid, anchor, text, ids);
    InsertSpliced(f, at, Order(Links(st.atoms)), slot, ids);
  }

  lemma InsertSpliced(f: Parents, at: Option<string>, o: seq<string>, slot: nat, ids: seq<string>)
    requires ids != [] && slot <= |o| && IsForest(f) && ids[|ids| - 1] !in f && IsAnchor(f, at)
    requires forall k :: k in f && f[k] == at ==> StringLess(ids[|ids| - 1], k)
    requires Order(f) == Spliced(o, slot, ids[..|ids| - 1]) && IsSlot(Order(f), at, slot + |ids| - 1)
    ensures IsForest(f[ids[|ids| - 1] := at]) && Order(f[ids[|ids| - 1] := at]) == Spliced(o, slot, ids)
  {
    InsertLandsAfterAnchor(f, at, ids[|ids| - 1], slot + |ids| - 1);
    SplicedMore(o, Order(f), slot, ids);
  }

  lemma SameForest(f: Parents, g: Parents)
    requires f == g && IsForest(g)
    ensures IsForest(f) && Order(f) == Order(g)
  {
  }

  lemma AllHaveRoom(st: Folded, mid: Folded, anchor: Option<string>, text: string, ids: seq<string>)
    requires IsForest(Links(st.atoms)) && IsAnchor(Links(st.atoms), anchor)
    requires |ids| == |text| > 0 && FreshIds(st, anchor, ids)
    requires Extended(st, mid, anchor, text[..|text| - 1], ids[..|ids| - 1])
    ensures forall k ::
        k in Links(mid.atoms) && Links(mid.atoms)[k] == ChainAfter(anchor, ids, |ids| - 1)
        ==> StringLess(ids[|ids| - 1], k)
  {
    forall k | k in Links(mid.atoms) && Links(mid.atoms)[k] == ChainAfter(anchor, ids, |ids| - 1)
      ensures StringLess(ids[|ids| - 1], k)
    {
      NextHasRoom(st, mid, anchor, text, ids, k);
    }
  }

  lemma LinksUpdate(atoms: Atoms, id: string, atom: Atom)
    ensures Links(atoms[id := atom]) == Links(atoms)[id := atom.after]
  {
  }

  lemma SlotMoves(o: seq<string>, anchor: Option<string>, slot: nat, ids: seq<string>)
    requires IsSlot(o, anchor, slot) && ids != []
    ensures IsSlot(Spliced(o, slot, ids[..|ids| - 1]), ChainAfter(anchor, ids, |ids| - 1), slot + |ids| - 1)
  {
  }

  lemma NextAnchorPresent(st: Folded, mid: Folded, anchor: Option<string>, text: string, ids: seq<string>)
    requires IsAnchor(Links(st.atoms), anchor) && |ids| == |text| > 0
    requires Extended(st, mid, anchor, text[..|text| - 1], ids[..|ids| - 1])
    ensures IsAnchor(Links(mid.atoms), ChainAfter(anchor, ids, |ids| - 1))
  {
    var n := |ids| - 1;
    if n > 0 { assert ids[..n][n - 1] in Elements(ids[..n]); }
  }

  /** A chain of fresh inserts lands as one run immediately after its anchor. */
  lemma {:induction false} ChainLands(less: (string, string) -> bool, st: Folded, anchor: Option<string>, text: string,
                                      ids: seq<string>, ops: seq<CrdtOp>, slot: nat)
    requires IsForest(Links(st.atoms)) && IsAnchor(Links(st.atoms), anchor)
    requires IsSlot(Order(Links(st.atoms)), anchor, slot)
    requires |ids| == |text| && FreshIds(st, anchor, ids) && Carries(ops, Chain(anchor, text, ids))
    ensures Extended(st, FoldOps(less, st, ops), anchor, text, ids)
    ensures var f := Links(FoldOps(less, st, ops).atoms);
            IsForest(f) && Order(f) == Spliced(Order(Links(st.atoms)), slot, ids)
    decreases |text|
  {
    if text == [] {
      var o := Order(Links(st.atoms));
      assert Spliced(o, slot, ids) == o;
      assert Elements(ids) == {};
    } else {
      var n := |text| - 1;
      PrefixFresh(st, anchor, ids);
      ChainPrefix(anchor, text, ids, ops);
      ChainLands(less, st, anchor, text[..n], ids[..n], ops[..n], slot);
      var mid := FoldOps(less, st, ops[..n]);
      ChainStep(st, mid, anchor, text, ids, Candidate(ops[n]));
      ChainLandsStep(st, mid, anchor, text, ids, ChainAfter(anchor, ids, n), slot);
      LinksUpdate(mid.atoms, ids[n], Candidate(ops[n]));
      SameForest(Links(mid.atoms[ids[n] := Candidate(ops[n])]), Links(mid.atoms)[ids[n] := ChainAfter(anchor, ids, n)]);
    }
  }

  lemma PrefixFresh(st: Folded, anchor: Option<string>, ids: seq<string>)
    requires ids != [] && FreshIds(st, anchor, ids)
    ensures FreshIds(st, anchor, ids[..|ids| - 1])
  {
  }

  lemma SplicedMore(o: seq<string>, s: seq<string>, slot: nat, ids: seq<string>)
    requires slot <= |o| && ids != [] && s == Spliced(o, slot, ids[..|ids| - 1])
    ensures s[..slot + |ids| - 1] + [ids[|ids| - 1]] + s[slot + |ids| - 1..] == Spliced(o, slot, ids)
  {
    var n := |ids| - 1;
    assert s[..slot + n] == o[..slot] + ids[..n] && s[slot + n..] == o[slot..];
    assert ids == ids[..n] + [ids[n]];
  }

  lemma {:induction false} DeletesOnly(less: (string, string) -> bool, st: Folded, gone: seq<TextElement>,
                                       ops: seq<CrdtOp>)
    requires Carries(ops, Deletions(gone))
    ensures FoldOps(less, st, ops) == st.(deleted := st.deleted + Elements(IdsOf(gone)))
    decreases |gone|
  {
    if gone == [] {
      assert Elements(IdsOf(gone)) == {};
    } else {
      var n := |gone| - 1;
      DeletesOnly(less, st, gone[..n], ops[..n]);
      assert IdsOf(gone) == IdsOf(gone[..n]) + [gone[n].atomId];
      assert Elements(IdsOf(gone)) == Elements(IdsOf(gone[..n])) + {gone[n].atomId};
    }
  }

  // ---- the resulting text ------------------------------------------------------------------

  lemma {:induction false} ChainText(st': Folded, text: string, ids: seq<string>)
    requires |ids| == |text|
    requires forall k :: 0 <= k < |ids| ==> ids[k] in st'.atoms && st'.atoms[ids[k]].text == [text[k]]
    ensures forall id :: id in ids ==> id in st'.atoms
    ensures Texts(st'.atoms, ids) == text
    decreases |text|
  {
    if text != [] {
      var n := |text| - 1;
      ChainText(st', text[..n], ids[..n]);
    }
  }

  /** Where the live atoms of an order split: everything up to the anchor, then the rest. */
  lemma LiveSplit(o: seq<string>, gone: set<string>, live: seq<string>, anchor: Option<string>, i: nat, slot: nat)
    requires NoDuplicates(o) && live == Drop(o, gone) && i <= |live| && slot <= |o|
    requires anchor == (if i == 0 then None else Some(live[i - 1])) && IsSlot(o, anchor, slot)
    ensures Drop(o[..slot], gone) == live[..i] && Drop(o[slot..], gone) == live[i..]
  {
    assert o == o[..slot] + o[slot..];
    DropConcat(o[..slot], o[slot..], gone);
    var a := Drop(o[..slot], gone);
    DropMembers(o, gone);
    if i > 0 {
      assert live[i - 1] in live;
      assert o[..slot] == o[..slot - 1] + [live[i - 1]];
      DropConcat(o[..slot - 1], [live[i - 1]], gone);
      assert a[|a| - 1] == live[i - 1];
      assert live[|a| - 1] == live[i - 1];
      assert |a| == i;
    } else {
      assert o[..slot] == [];
    }
  }

  lemma LiveLeft(a: seq<string>, gone: set<string>, live: seq<string>, i: nat, j: nat)
    requires NoDuplicates(live) && i <= j <= |live| && Drop(a, gone) == live[..i]
    ensures Drop(a, gone + Elements(live[i..j])) == live[..i]
  {
    DropTwice(a, gone, Elements(live[i..j]));
    DropNone(live[..i], Elements(live[i..j]));
  }

  lemma LiveRight(b: seq<string>, gone: set<string>, live: seq<string>, i: nat, j: nat)
    requires NoDuplicates(live) && i <= j <= |live| && Drop(b, gone) == live[i..]
    ensures Drop(b, gone + Elements(live[i..j])) == live[j..]
  {
    var cut := Elements(live[i..j]);
    DropTwice(b, gone, cut);
    assert live[i..] == live[i..j] + live[j..];
    DropConcat(live[i..j], live[j..], cut);
    DropAll(live[i..j], cut);
    DropNone(live[j..], cut);
  }

  /** Removing a run of live atoms and splicing in fresh ones, seen through the tombstones. */
  lemma LiveAfter(o: seq<string>, gone: set<string>, live: seq<string>, anchor: Option<string>, i: nat, j: nat,
                  slot: nat,
                  ids: seq<string>)
    requires NoDuplicates(o) && live == Drop(o, gone) && i <= j <= |live| && slot <= |o|
    requires anchor == (if i == 0 then None else Some(live[i - 1])) && IsSlot(o, anchor, slot)
    requires forall id :: id in ids ==> id !in o && id !in gone
    ensures Drop(Spliced(o, slot, ids), gone + Elements(live[i..j])) == live[..i] + ids + live[j..]
  {
    var all := gone + Elements(live[i..j]);
    LiveSplit(o, gone, live, anchor, i, slot);
    DropMembers(o, gone);
    LiveLeft(o[..slot], gone, live, i, j);
    LiveRight(o[slot..], gone, live, i, j);
    DropConcat(o[..slot] + ids, o[slot..], all);
    DropConcat(o[..slot], ids, all);
    DropNone(ids, all);
  }

  /** `visible` are the live atoms of `st` in traversal order. */
  ghost predicate Shows(st: Folded, visible: seq<TextElement>) {
    && IdsOf(visible) == Drop(Order(Links(st.atoms)), st.deleted)
    && forall e :: e in visible ==> e.atomId in st.atoms && e.text == st.atoms[e.atomId].text
  }

  /** The slot after the anchor of a plan. */
  lemma SlotExists(st: Folded, visible: seq<TextElement>, i: nat) returns (slot: nat)
    requires Shows(st, visible) && i <= |visible|
    ensures IsSlot(Order(Links(st.atoms)), AnchorOf(visible, i), slot)
    ensures IsAnchor(Links(st.atoms), AnchorOf(visible, i))
  {
    var o := Order(Links(st.atoms));
    if i == 0 {
      slot := 0;
    } else {
      var id := IdsOf(visible)[i - 1];
      DropMembers(o, st.deleted);
      assert id in Drop(o, st.deleted);
      var m :| 0 <= m < |o| && o[m] == id;
      slot := m + 1;
      assert visible[i - 1] in visible;
    }
  }

  lemma ShownAreAtoms(st: Folded, visible: seq<TextElement>, i: nat, j: nat)
    requires Shows(st, visible) && i <= j <= |visible|
    ensures forall id :: id in IdsOf(visible[i..j]) ==> id in st.atoms
    ensures forall id :: id in Elements(IdsOf(visible[i..j])) ==> id in st.atoms
  {
    forall id | id in IdsOf(visible[i..j]) ensures id in st.atoms {
      var m :| 0 <= m < j - i && IdsOf(visible[i..j])[m] == id;
      assert id == visible[i + m].atomId && visible[i + m] in visible;
    }
  }

  /** What a replacement leaves: the old elements in their old order, with the run of new ones spliced
      in right after the anchor, and only the planned tombstones added. */
  ghost predicate Replaced(st: Folded, st': Folded, visible: seq<TextElement>, i: nat, j: nat, text: string,
                           ids: seq<string>)
    requires i <= j <= |visible| && |ids| == |text|
  {
    && IsForest(Links(st'.atoms))
    && Extended(st.(deleted := st.deleted + Elements(IdsOf(visible[i..j]))), st', AnchorOf(visible, i), text, ids)
    && exists slot: nat ::
         && slot <= |Order(Links(st.atoms))| && IsSlot(Order(Links(st.atoms)), AnchorOf(visible, i), slot)
         && Order(Links(st'.atoms)) == Spliced(Order(Links(st.atoms)), slot, ids)
  }

  lemma EditsReplace(less: (string, string) -> bool, st: Folded, visible: seq<TextElement>, i: nat, j: nat,
                     text: string,
                     allocate: nat -> string, ops: seq<CrdtOp>)
    requires IsForest(Links(st.atoms)) && Shows(st, visible) && i <= j <= |visible|
    requires Carries(ops, PlannedEdits(visible, i, j, text, allocate))
    requires FreshIds(st, AnchorOf(visible, i), Allocated(allocate, |text|))
    ensures Replaced(st, FoldOps(less, st, ops), visible, i, j, text, Allocated(allocate, |text|))
  {
    var ids, anchor, gone := Allocated(allocate, |text|), AnchorOf(visible, i), visible[i..j];
    var slot := SlotExists(st, visible, i);
    var dels, ins := ops[..|gone|], ops[|gone|..];
    assert ops == dels + ins;
    SplitCarries(ops, Deletions(gone), Chain(anchor, text, ids));
    FoldConcat(less, st, dels, ins);
    DeletesOnly(less, st, gone, dels);
    ShownAreAtoms(st, visible, i, j);
    ChainLands(less, FoldOps(less, st, dels), anchor, text, ids, ins, slot);
  }

  lemma SplitCarries(ops: seq<CrdtOp>, a: seq<TextEdit>, b: seq<TextEdit>)
    requires Carries(ops, a + b)
    ensures Carries(ops[..|a|], a) && Carries(ops[|a|..], b)
  {
    forall k | 0 <= k < |a| ensures ops[k].edit == a[k] { assert (a + b)[k] == a[k]; }
    forall k | 0 <= k < |b| ensures ops[|a| + k].edit == b[k] { assert (a + b)[|a| + k] == b[k]; }
  }

  /** The live atoms after a replacement: the planned run gives way to the new one. */
  lemma ReplacedLive(st: Folded, st': Folded, visible: seq<TextElement>, i: nat, j: nat, text: string, ids: seq<string>)
    requires Shows(st, visible) && i <= j <= |visible| && |ids| == |text|
    requires FreshIds(st, AnchorOf(visible, i), ids) && Replaced(st, st', visible, i, j, text, ids)
    ensures Drop(Order(Links(st'.atoms)), st'.deleted)
            == IdsOf(visible[..i]) + ids + IdsOf(visible[j..])
  {
    var o, live := Order(Links(st.atoms)), IdsOf(visible);
    OrderEmitsAttachedOnce(Links(st.atoms));
    var slot: nat :| slot <= |o| && IsSlot(o, AnchorOf(visible, i), slot)
        && Order(Links(st'.atoms)) == Spliced(o, slot, ids);
    IdsOfSlices(visible, i, j);
    LiveAfter(o, st.deleted, live, AnchorOf(visible, i), i, j, slot, ids);
  }

  lemma IdsOfSlices(visible: seq<TextElement>, i: nat, j: nat)
    requires i <= j <= |visible|
    ensures IdsOf(visible)[i..j] == IdsOf(visible[i..j])
    ensures IdsOf(visible)[..i] == IdsOf(visible[..i]) && IdsOf(visible)[j..] == IdsOf(visible[j..])
  {
  }

  /** The text of a run of visible elements, read off the new atoms. */
  lemma KeptRun(st: Folded, st': Folded, run: seq<TextElement>)
    requires forall e :: e in run ==> e.atomId in st.atoms && e.text == st.atoms[e.atomId].text
    requires forall id :: id in st.atoms ==> id in st'.atoms && st'.atoms[id] == st.atoms[id]
    ensures forall id :: id in IdsOf(run) ==> id in st'.atoms
    ensures Joined(run) == Texts(st'.atoms, IdsOf(run))
  {
    JoinedTexts(st'.atoms, run);
  }

  lemma ReplacedText(decode: string -> Option<string>, st: Folded, st': Folded, visible: seq<TextElement>, i: nat,
                     j: nat,
                     text: string, ids: seq<string>)
    requires Shows(st, visible) && i <= j <= |visible| && |ids| == |text|
    requires FreshIds(st, AnchorOf(visible, i), ids) && Replaced(st, st', visible, i, j, text, ids)
    ensures Project(decode, st').text == Joined(visible[..i]) + text + Joined(visible[j..])
  {
    ReplacedLive(st, st', visible, i, j, text, ids);
    ProjectedText(decode, st');
    forall id | id in st.atoms ensures id in st'.atoms && st'.atoms[id] == st.atoms[id] {}
    KeptRun(st, st', visible[..i]);
    KeptRun(st, st', visible[j..]);
    forall k | 0 <= k < |ids| ensures ids[k] in st'.atoms && st'.atoms[ids[k]].text == [text[k]] {
      assert Chained(st'.atoms, AnchorOf(visible, i), text, ids, k);
    }
    ChainText(st', text, ids);
    TextsConcat(st'.atoms, IdsOf(visible[..i]), ids);
    TextsConcat(st'.atoms, IdsOf(visible[..i]) + ids, IdsOf(visible[j..]));
  }

  /** For every forest state and every next text, folding planned edits with fresh ids and projecting
      again yields exactly the next text; elements outside the planned run keep their ids and their
      order and stay visible. */
  lemma ReplacementExact(profile: Profile, st: Folded, next: string, i: nat, j: nat, text: string,
                         allocate: nat -> string, ops: seq<CrdtOp>)
    requires IsForest(Links(st.atoms))
    requires IsPlan(Project(profile.decode, st).visible, next, i, j, text)
    requires Carries(ops, PlannedEdits(Project(profile.decode, st).visible, i, j, text, allocate))
    requires FreshIds(st, AnchorOf(Project(profile.decode, st).visible, i), Allocated(allocate, |text|))
    ensures Project(profile.decode, FoldOps(profile.less, st, ops)).text == next
    ensures Replaced(st, FoldOps(profile.less, st, ops), Project(profile.decode, st).visible, i, j, text,
            Allocated(allocate, |text|))
    ensures IdsOf(Project(profile.decode, FoldOps(profile.less, st, ops)).visible)
            == IdsOf(Project(profile.decode, st).visible[..i]) + Allocated(allocate, |text|)
               + IdsOf(Project(profile.decode, st).visible[j..])
  {
    var visible, ids := Project(profile.decode, st).visible, Allocated(allocate, |text|);
    ProjectedText(profile.decode, st);
    ProjectionExact(profile, st, visible, next, i, j, text, allocate, ops);
  }

  lemma ProjectionExact(profile: Profile, st: Folded, visible: seq<TextElement>, next: string, i: nat, j: nat,
                        text: string,
                        allocate: nat -> string, ops: seq<CrdtOp>)
    requires IsForest(Links(st.atoms)) && Shows(st, visible) && IsPlan(visible, next, i, j, text)
    requires Carries(ops, PlannedEdits(visible, i, j, text, allocate))
    requires FreshIds(st, AnchorOf(visible, i), Allocated(allocate, |text|))
    ensures Project(profile.decode, FoldOps(profile.less, st, ops)).text == next
    ensures Replaced(st, FoldOps(profile.less, st, ops), visible, i, j, text, Allocated(allocate, |text|))
    ensures IdsOf(Project(profile.decode, FoldOps(profile.less, st, ops)).visible)
            == IdsOf(visible[..i]) + Allocated(allocate, |text|) + IdsOf(visible[j..])
  {
    var ids, st' := Allocated(allocate, |text|), FoldOps(profile.less, st, ops);
    EditsReplace(profile.less, st, visible, i, j, text, allocate, ops);
    ReplacedText(profile.decode, st, st', visible, i, j, text, ids);
    ReplacedLive(st, st', visible, i, j, text, ids);
    ProjectedText(profile.decode, st');
  }
}
