/** The tree behind an identity projection: each atom names the atom it comes after, or none.
    `Order` is the traversal order of that graph; on a forest it is recursive pre-order. */
module Forest {
  import opened Wrappers
  import opened Orders

  /** Atom id to the id it comes after; `None` for a root. */
  type Parents = map<string, Option<string>>

  /** The atoms a projection shows: roots, and atoms whose parent is present. */
  predicate Attached(f: Parents, id: string) {
    id in f && (f[id].None? || f[id].value in f)
  }

  /** Link `i` of the candidate root path `p`: a root first, then each atom after the previous one. */
  predicate Step(f: Parents, p: seq<string>, i: nat)
    requires i < |p|
  {
    p[i] in f && f[p[i]] == (if i == 0 then None else Some(p[i - 1]))
  }

  /** `p` leads from a root down to `id`. */
  ghost predicate IsPath(f: Parents, p: seq<string>, id: string) {
    p != [] && p[|p| - 1] == id && forall i :: 0 <= i < |p| ==> Step(f, p, i)
  }

  /** Following `after` from `id` reaches a root without meeting a missing atom or a cycle. */
  ghost predicate Reaches(f: Parents, id: string) {
    exists p :: IsPath(f, p, id)
  }

  ghost predicate IsForest(f: Parents) {
    forall id {:trigger Reaches(f, id)} :: id in f ==> Reaches(f, id)
  }

  /** The ids from the root down to `id`; empty for an atom that reaches no root. */
  ghost function Path(f: Parents, id: string): (p: seq<string>)
    ensures Reaches(f, id) ==> IsPath(f, p, id)
    ensures !Reaches(f, id) ==> p == []
  {
    if Reaches(f, id) then var p :| IsPath(f, p, id); p else []
  }

  lemma {:induction false} PathUnique(f: Parents, p: seq<string>, q: seq<string>, id: string)
    requires IsPath(f, p, id) && IsPath(f, q, id)
    ensures p == q
    decreases |p|
  {
    assert Step(f, p, |p| - 1) && Step(f, q, |q| - 1);
    if |p| > 1 {
      var p', q' := p[..|p| - 1], q[..|q| - 1];
      PrefixIsPath(f, p, id, |p| - 2);
      PrefixIsPath(f, q, id, |q| - 2);
      PathUnique(f, p', q', f[id].value);
      Snoc(p);
      Snoc(q);
    }
  }

  lemma Snoc(p: seq<string>)
    requires p != []
    ensures p == p[..|p| - 1] + [p[|p| - 1]]
  {
  }

  lemma PrefixIsPath(f: Parents, p: seq<string>, id: string, k: nat)
    requires IsPath(f, p, id) && k < |p|
    ensures IsPath(f, p[..k + 1], p[k])
  {
    var q := p[..k + 1];
    forall i | 0 <= i < |q| ensures Step(f, q, i) { assert Step(f, p, i); }
  }

  /** Each atom on a root path has the corresponding prefix as its own root path. */
  lemma PathPrefix(f: Parents, id: string, k: nat)
    requires Reaches(f, id) && k < |Path(f, id)|
    ensures var y := Path(f, id)[k];
            y in f && Reaches(f, y) && Path(f, y) == Path(f, id)[..k + 1]
            && f[y] == (if k == 0 then None else Some(Path(f, id)[k - 1]))
  {
    var p := Path(f, id);
    PrefixIsPath(f, p, id, k);
    PathUnique(f, Path(f, p[k]), p[..k + 1], p[k]);
    assert Step(f, p, k);
  }

  /** An atom after `id` has the root path of `id` extended by itself. */
  lemma PathStep(f: Parents, id: string, k: string)
    requires Reaches(f, id) && k in f && f[k] == Some(id)
    ensures Reaches(f, k) && Path(f, k) == Path(f, id) + [k]
  {
    var p := Path(f, id) + [k];
    forall i | 0 <= i < |p| ensures Step(f, p, i) {
      if i < |p| - 1 { assert Step(f, Path(f, id), i); }
    }
    assert IsPath(f, p, k);
    PathUnique(f, Path(f, k), p, k);
  }

  lemma RootPath(f: Parents, id: string)
    requires id in f && f[id].None?
    ensures Reaches(f, id) && Path(f, id) == [id]
  {
    assert Step(f, [id], 0);
    assert IsPath(f, [id], id);
    PathUnique(f, Path(f, id), [id], id);
  }

  /** A root path repeats no atom, so it is no longer than the number of atoms. */
  lemma PathBounded(f: Parents, id: string)
    requires Reaches(f, id)
    ensures |Path(f, id)| <= |f.Keys|
  {
    var p := Path(f, id);
    forall i, j | 0 <= i < j < |p| ensures p[i] != p[j] {
      PathPrefix(f, id, i);
      PathPrefix(f, id, j);
    }
    forall i | 0 <= i < |p| ensures p[i] in f { assert Step(f, p, i); }
    DistinctCount(p, f.Keys);
  }

  ghost predicate Contained(small: Parents, large: Parents) {
    forall id :: id in small ==> id in large && large[id] == small[id]
  }

  lemma PathMonotone(small: Parents, large: Parents, id: string)
    requires Contained(small, large) && Reaches(small, id)
    ensures Reaches(large, id) && Path(large, id) == Path(small, id)
  {
    var p := Path(small, id);
    forall i | 0 <= i < |p| ensures Step(large, p, i) { assert Step(small, p, i); }
    assert IsPath(large, p, id);
    PathUnique(large, Path(large, id), p, id);
  }

  // ---- traversal ---------------------------------------------------------------

  ghost function SortedIds(s: set<string>): (r: seq<string>)
    ensures Ascending(r, StringLess) && Elements(r) == s
  {
    StringLessTotal();
    Listing(s, StringLess)
  }

  /** The children of `parent` (the roots for `None`), sorted by id. */
  ghost function Kids(f: Parents, parent: Option<string>): (r: seq<string>)
    ensures Ascending(r, StringLess)
    ensures forall id :: id in r <==> id in f && f[id] == parent
  {
    var r := SortedIds(set id | id in f && f[id] == parent);
    assert forall id :: id in r <==> id in Elements(r);
    r
  }

  /** Depth-first traversal: `stack` holds the atoms still to be visited, next one first. */
  ghost function Dfs(f: Parents, stack: seq<string>, done: seq<string>): seq<string>
    decreases f.Keys - Elements(done), |stack|
  {
    if stack == [] then done
    else
      var id := stack[0];
      if id in done || id !in f then Dfs(f, stack[1..], done)
      else
        assert Elements(done + [id]) == Elements(done) + {id};
        Dfs(f, Kids(f, Some(id)) + stack[1..], done + [id])
  }

  /** What hangs from a missing atom or a cycle, by id: attached, but not reached from the roots. */
  ghost function Leftover(f: Parents, done: seq<string>): (r: seq<string>)
    ensures Ascending(r, StringLess)
    ensures forall id :: id in r <==> Attached(f, id) && id !in done
  {
    var r := SortedIds(set id | id in f && Attached(f, id) && id !in done);
    assert forall id :: id in r <==> id in Elements(r);
    r
  }

  /** The traversal order of the projection: everything under the roots, then the leftovers. */
  ghost function Order(f: Parents): seq<string> {
    var rooted := Dfs(f, Kids(f, None), []);
    Dfs(f, Leftover(f, rooted), rooted)
  }

  lemma {:induction false} DfsAppend(f: Parents, a: seq<string>, b: seq<string>, done: seq<string>)
    ensures Dfs(f, a + b, done) == Dfs(f, b, Dfs(f, a, done))
    decreases f.Keys - Elements(done), |a|
  {
    if a == [] {
      assert a + b == b;
    } else {
      var id := a[0];
      assert (a + b)[1..] == a[1..] + b;
      if id in done || id !in f {
        DfsAppend(f, a[1..], b, done);
      } else {
        assert Elements(done + [id]) == Elements(done) + {id};
        assert Kids(f, Some(id)) + (a[1..] + b) == (Kids(f, Some(id)) + a[1..]) + b;
        DfsAppend(f, Kids(f, Some(id)) + a[1..], b, done + [id]);
      }
    }
  }

  lemma {:induction false} DfsEmits(f: Parents, stack: seq<string>, done: seq<string>)
    requires NoDuplicates(done)
    requires forall id :: id in stack || id in done ==> Attached(f, id)
    ensures NoDuplicates(Dfs(f, stack, done))
    ensures forall id :: id in Dfs(f, stack, done) ==> Attached(f, id)
    ensures forall id :: id in stack || id in done ==> id in Dfs(f, stack, done)
    decreases f.Keys - Elements(done), |stack|
  {
    if stack != [] {
      var id := stack[0];
      assert forall x :: x in stack <==> x == id || x in stack[1..];
      if id in done {
        DfsEmits(f, stack[1..], done);
      } else {
        assert Elements(done + [id]) == Elements(done) + {id};
        DfsEmits(f, Kids(f, Some(id)) + stack[1..], done + [id]);
      }
    }
  }

  /** On every graph, with cycles and orphans, each attached atom appears exactly once and no other. */
  lemma OrderEmitsAttachedOnce(f: Parents)
    ensures NoDuplicates(Order(f))
    ensures forall id :: id in Order(f) <==> Attached(f, id)
    ensures forall id :: id in Order(f) <==> id in f && (f[id] == None || f[id].value in f)
  {
    var rooted := Dfs(f, Kids(f, None), []);
    DfsEmits(f, Kids(f, None), []);
    DfsEmits(f, Leftover(f, rooted), rooted);
  }

  // ---- pre-order on a forest ---------------------------------------------------------

  /** All of `ids` are atoms at depth `d`. */
  ghost predicate AtDepth(f: Parents, ids: seq<string>, d: nat) {
    forall id :: id in ids ==> id in f && |Path(f, id)| == d
  }

  lemma KidsDeeper(f: Parents, id: string)
    requires IsForest(f) && id in f
    ensures |Path(f, id)| <= |f.Keys|
    ensures AtDepth(f, Kids(f, Some(id)), |Path(f, id)| + 1)
  {
    assert Reaches(f, id);
    PathBounded(f, id);
    forall k | k in Kids(f, Some(id)) ensures k in f && |Path(f, k)| == |Path(f, id)| + 1 { PathStep(f, id, k); }
  }

  /** Recursive pre-order of the subtrees of `ids`, which all lie at depth `d`. */
  ghost function Preorder(f: Parents, ids: seq<string>, d: nat): seq<string>
    requires IsForest(f) && AtDepth(f, ids, d)
    decreases |f.Keys| - d, |ids|
  {
    if ids == [] then []
    else
      KidsDeeper(f, ids[0]);
      [ids[0]] + Preorder(f, Kids(f, Some(ids[0])), d + 1) + Preorder(f, ids[1..], d)
  }

  /** The order of root paths, extended to a strict total order on all ids. */
  ghost function Before(f: Parents): (string, string) -> bool {
    (x: string, y: string) =>
      PathLess(Path(f, x), Path(f, y)) || (Path(f, x) == Path(f, y) && StringLess(x, y))
  }

  lemma BeforeTotal(f: Parents)
    ensures StrictTotal(Before(f))
  {
    StringLessTotal();
    PathLessTotal();
  }

  lemma BeforeNoDuplicates(f: Parents, s: seq<string>)
    requires Ascending(s, Before(f))
    ensures NoDuplicates(s)
  {
    BeforeTotal(f);
    AscendingNoDuplicates(s, Before(f));
  }

  lemma BeforeUnique(f: Parents, s: seq<string>, t: seq<string>)
    requires Ascending(s, Before(f)) && Ascending(t, Before(f))
    requires forall x :: x in s <==> x in t
    ensures s == t
  {
    BeforeTotal(f);
    assert Elements(s) == Elements(t);
    AscendingUnique(s, t, Before(f));
  }

  /** `x` lies in the subtree of one of `ids`, whose common parent has path `p`. */
  ghost predicate Below(f: Parents, x: string, p: seq<string>, ids: seq<string>) {
    var q := Path(f, x);
    x in f && |p| < |q| && q[..|p|] == p && q[|p|] in ids
  }

  /** An atom comes before everything else in its own subtree. */
  lemma BelowChildren(f: Parents, p: seq<string>, id: string, x: string)
    requires Path(f, id) == p + [id]
    requires Below(f, x, p + [id], Kids(f, Some(id)))
    ensures Before(f)(id, x) && Below(f, x, p, [id])
  {
    var q, a := Path(f, x), p + [id];
    assert q == a + q[|a|..];
    assert LexAt([], q[|a|..], 0, StringLess);
    LexCommonPrefix(a, [], q[|a|..], StringLess);
    assert a + [] == a;
    assert q[..|p|] == a[..|p|] && q[|p|] == a[|p|];
  }

  /** The subtree of an atom comes before the subtrees of its later siblings. */
  lemma BelowSiblings(f: Parents, p: seq<string>, id: string, tail: seq<string>, x: string, y: string)
    requires Below(f, x, p, [id]) && Below(f, y, p, tail)
    requires forall t :: t in tail ==> StringLess(id, t) && t != id
    ensures Before(f)(x, y)
  {
    var q, r := Path(f, x), Path(f, y);
    assert q == p + q[|p|..] && r == p + r[|p|..];
    assert LexAt(q[|p|..], r[|p|..], 0, StringLess);
    LexCommonPrefix(p, q[|p|..], r[|p|..], StringLess);
  }

  /** An atom below `ids` is the first of them, is below its children, or is below the others. */
  lemma SubtreeSplits(f: Parents, x: string, p: seq<string>, ids: seq<string>)
    requires IsForest(f) && ids != [] && ids[0] in f && Path(f, ids[0]) == p + [ids[0]]
    ensures Below(f, x, p, ids) <==>
            x == ids[0] || Below(f, x, p + [ids[0]], Kids(f, Some(ids[0]))) || Below(f, x, p, ids[1..])
  {
    var id, q := ids[0], Path(f, x);
    assert ids == [id] + ids[1..];
    if x in f && |p| < |q| && q[..|p|] == p && q[|p|] == id {
      assert Reaches(f, x);
      assert q[..|p| + 1] == p + [id];
      if |q| > |p| + 1 { PathPrefix(f, x, |p| + 1); }
    }
    if Below(f, x, p + [id], Kids(f, Some(id))) { BelowChildren(f, p, id, x); }
  }

  /** `o` lists, in order, exactly the atoms in the subtrees of the siblings `ids` under the path `p`. */
  ghost predicate Lists(f: Parents, o: seq<string>, p: seq<string>, ids: seq<string>) {
    Ascending(o, Before(f)) && forall x :: x in o <==> Below(f, x, p, ids)
  }

  lemma JoinSubtrees(f: Parents, ids: seq<string>, p: seq<string>, below: seq<string>, right: seq<string>)
    requires IsForest(f) && ids != [] && ids[0] in f && Path(f, ids[0]) == p + [ids[0]]
    requires forall t :: t in ids[1..] ==> StringLess(ids[0], t) && t != ids[0]
    requires Lists(f, below, p + [ids[0]], Kids(f, Some(ids[0]))) && Lists(f, right, p, ids[1..])
    ensures Lists(f, [ids[0]] + below + right, p, ids)
  {
    var id := ids[0];
    forall x | x in below ensures Before(f)(id, x) { BelowChildren(f, p, id, x); }
    forall x, y | x in [id] + below && y in right ensures Before(f)(x, y) {
      if x == id { assert Below(f, x, p, [id]); } else { BelowChildren(f, p, id, x); }
      BelowSiblings(f, p, id, ids[1..], x, y);
    }
    AscendingConcat([id], below, Before(f));
    AscendingConcat([id] + below, right, Before(f));
    forall x ensures x in [id] + below + right <==> Below(f, x, p, ids) {
      SubtreeSplits(f, x, p, ids);
    }
  }

  /** `ids` are the siblings whose common parent has path `p`, some of them left out. */
  ghost predicate Siblings(f: Parents, ids: seq<string>, p: seq<string>) {
    Ascending(ids, StringLess) && forall id :: id in ids ==> id in f && Path(f, id) == p + [id]
  }

  lemma SiblingsTail(f: Parents, ids: seq<string>, p: seq<string>)
    requires Siblings(f, ids, p) && ids != []
    ensures Siblings(f, ids[1..], p) && forall t :: t in ids[1..] ==> StringLess(ids[0], t) && t != ids[0]
  {
    StringLessTotal();
    AscendingTail(ids, StringLess);
  }

  lemma {:induction false} PreorderSorted(f: Parents, ids: seq<string>, p: seq<string>)
    requires IsForest(f) && Siblings(f, ids, p)
    ensures AtDepth(f, ids, |p| + 1)
    ensures Lists(f, Preorder(f, ids, |p| + 1), p, ids)
    decreases |f.Keys| - |p|, |ids|
  {
    assert AtDepth(f, ids, |p| + 1);
    if ids != [] {
      var id, tail := ids[0], ids[1..];
      KidsDeeper(f, id);
      KidsAreSiblings(f, id);
      PreorderSorted(f, Kids(f, Some(id)), p + [id]);
      SiblingsTail(f, ids, p);
      PreorderSorted(f, tail, p);
      JoinSubtrees(f, ids, p, Preorder(f, Kids(f, Some(id)), |p| + 2), Preorder(f, tail, |p| + 1));
    }
  }

  lemma KidsAreSiblings(f: Parents, id: string)
    requires IsForest(f) && id in f
    ensures Siblings(f, Kids(f, Some(id)), Path(f, id))
  {
    assert Reaches(f, id);
    forall k | k in Kids(f, Some(id)) ensures Path(f, k) == Path(f, id) + [k] { PathStep(f, id, k); }
  }

  lemma DfsVisit(f: Parents, ids: seq<string>, rest: seq<string>, done: seq<string>)
    requires ids != [] && ids[0] in f && ids[0] !in done
    ensures Dfs(f, ids + rest, done) == Dfs(f, Kids(f, Some(ids[0])) + (ids[1..] + rest), done + [ids[0]])
  {
    assert (ids + rest)[1..] == ids[1..] + rest;
  }

  /** On a forest the stack traversal is recursive pre-order. */
  lemma {:induction false} DfsIsPreorder(f: Parents, ids: seq<string>, d: nat, rest: seq<string>, done: seq<string>)
    requires IsForest(f) && AtDepth(f, ids, d)
    requires NoDuplicates(done + Preorder(f, ids, d))
    ensures Dfs(f, ids + rest, done) == Dfs(f, rest, done + Preorder(f, ids, d))
    decreases |f.Keys| - d, |ids|
  {
    if ids == [] {
      assert ids + rest == rest && done + [] == done;
    } else {
      var id := ids[0];
      KidsDeeper(f, id);
      var kids, tail := Kids(f, Some(id)), ids[1..];
      var below, right := Preorder(f, kids, d + 1), Preorder(f, tail, d);
      SplitNoDuplicates(done, id, below, right);
      DfsVisit(f, ids, rest, done);
      DfsIsPreorder(f, kids, d + 1, tail + rest, done + [id]);
      DfsIsPreorder(f, tail, d, rest, done + [id] + below);
    }
  }

  lemma SplitNoDuplicates(done: seq<string>, id: string, below: seq<string>, right: seq<string>)
    requires NoDuplicates(done + ([id] + below + right))
    ensures id !in done
    ensures done + ([id] + below + right) == done + [id] + below + right
    ensures NoDuplicates(done + [id] + below) && NoDuplicates(done + [id] + below + right)
  {
    var all := done + ([id] + below + right);
    assert all == done + [id] + below + right && all[|done|] == id;
    assert forall i :: 0 <= i < |done + [id] + below| ==> (done + [id] + below)[i] == all[i];
    assert forall i :: 0 <= i < |done| ==> done[i] == all[i];
  }

  lemma RootsAreSiblings(f: Parents)
    requires IsForest(f)
    ensures Siblings(f, Kids(f, None), []) && AtDepth(f, Kids(f, None), 1)
    ensures forall id :: id in f ==> Below(f, id, [], Kids(f, None))
  {
    forall id | id in Kids(f, None) ensures Path(f, id) == [] + [id] && |Path(f, id)| == 1 { RootPath(f, id); }
    forall id | id in f ensures Below(f, id, [], Kids(f, None)) {
      assert Reaches(f, id);
      PathPrefix(f, id, 0);
    }
  }

  lemma PreorderCovers(f: Parents)
    requires IsForest(f)
    ensures AtDepth(f, Kids(f, None), 1)
    ensures Ascending(Preorder(f, Kids(f, None), 1), Before(f))
    ensures forall id :: id in Preorder(f, Kids(f, None), 1) <==> id in f
  {
    RootsAreSiblings(f);
    var roots := Kids(f, None);
    PreorderSorted(f, roots, []);
    var pre := Preorder(f, roots, 1);
    assert forall id :: id in pre <==> Below(f, id, [], roots);
  }

  lemma OrderIsPreorder(f: Parents, pre: seq<string>)
    requires IsForest(f) && AtDepth(f, Kids(f, None), 1) && pre == Preorder(f, Kids(f, None), 1)
    requires NoDuplicates(pre) && forall id :: id in f ==> id in pre
    ensures Order(f) == pre
  {
    var roots := Kids(f, None);
    assert [] + pre == pre && roots + [] == roots;
    DfsIsPreorder(f, roots, 1, [], []);
  }

  /** On a forest the projection order is recursive pre-order with siblings sorted by id: every atom
      appears, in strictly ascending order of root paths. */
  lemma ForestOrder(f: Parents)
    requires IsForest(f)
    ensures AtDepth(f, Kids(f, None), 1)
    ensures Order(f) == Preorder(f, Kids(f, None), 1)
    ensures Ascending(Order(f), Before(f))
    ensures forall id :: id in Order(f) <==> id in f
  {
    PreorderCovers(f);
    var pre := Preorder(f, Kids(f, None), 1);
    BeforeNoDuplicates(f, pre);
    OrderIsPreorder(f, pre);
  }

  // ---- growth ------------------------------------------------------------------------

  /** Growing a parent-closed forest never reorders the atoms it already had. */
  lemma OrderStable(small: Parents, large: Parents)
    requires IsForest(small) && IsForest(large) && Contained(small, large)
    ensures Order(small) == Restrict(Order(large), small.Keys)
  {
    ForestOrder(small);
    ForestOrder(large);
    BeforeTotal(large);
    var o, p := Order(small), Order(large);
    forall i, j | 0 <= i < j < |o| ensures Before(large)(o[i], o[j]) {
      BeforeKept(small, large, o[i], o[j]);
    }
    assert Elements(o) == small.Keys && Elements(p) == large.Keys;
    AscendingRestrict(o, p, Before(large));
  }

  lemma BeforeKept(small: Parents, large: Parents, x: string, y: string)
    requires IsForest(small) && Contained(small, large) && x in small && y in small
    ensures Before(large)(x, y) == Before(small)(x, y)
  {
    assert Reaches(small, x) && Reaches(small, y);
    PathMonotone(small, large, x);
    PathMonotone(small, large, y);
  }

  /** The position just after `anchor` in the order; the very front for no anchor. */
  ghost predicate IsSlot(o: seq<string>, anchor: Option<string>, j: nat) {
    j <= |o| && (if anchor.None? then j == 0 else 0 < j && o[j - 1] == anchor.value)
  }

  ghost function AnchorPath(f: Parents, anchor: Option<string>): seq<string> {
    if anchor.None? then [] else Path(f, anchor.value)
  }

  ghost predicate IsAnchor(f: Parents, anchor: Option<string>) {
    anchor.Some? ==> anchor.value in f
  }

  lemma InsertedLinks(f: Parents, anchor: Option<string>, n: string)
    requires IsForest(f) && n !in f && IsAnchor(f, anchor)
    ensures Contained(f, f[n := anchor]) && IsForest(f[n := anchor])
    ensures Path(f[n := anchor], n) == AnchorPath(f, anchor) + [n]
  {
    var g := f[n := anchor];
    forall id | id in f ensures Reaches(g, id) {
      assert Reaches(f, id);
      PathMonotone(f, g, id);
    }
    if anchor.None? {
      RootPath(g, n);
    } else {
      assert Reaches(f, anchor.value);
      PathMonotone(f, g, anchor.value);
      PathStep(g, anchor.value, n);
    }
  }

  /** Everything up to the anchor comes before the new atom. */
  lemma SlotBefore(f: Parents, anchor: Option<string>, n: string, x: string)
    requires IsForest(f) && n !in f && IsAnchor(f, anchor) && x in f
    requires anchor.Some? && (x == anchor.value || Before(f)(x, anchor.value))
    ensures Before(f[n := anchor])(x, n)
  {
    var g, a := f[n := anchor], AnchorPath(f, anchor);
    InsertedLinks(f, anchor, n);
    assert Reaches(f, x) && Reaches(f, anchor.value);
    PathMonotone(f, g, x);
    if x == anchor.value {
      assert LexAt(a, a + [n], |a|, StringLess);
    } else {
      LexExtendRight(Path(f, x), a, [n], StringLess);
    }
  }

  /** Everything past the anchor comes after the new atom. */
  lemma SlotAfter(f: Parents, anchor: Option<string>, n: string, x: string)
    requires IsForest(f) && n !in f && IsAnchor(f, anchor) && x in f
    requires forall k :: k in f && f[k] == anchor ==> StringLess(n, k)
    requires anchor.Some? ==> Before(f)(anchor.value, x) && x != anchor.value
    ensures Before(f[n := anchor])(n, x)
  {
    var g, a, q := f[n := anchor], AnchorPath(f, anchor), Path(f, x);
    InsertedLinks(f, anchor, n);
    assert Reaches(f, x);
    PathMonotone(f, g, x);
    if a <= q {
      SlotAfterInSubtree(f, anchor, n, x);
    } else {
      assert Reaches(f, anchor.value);
      LexExtendLeft(a, q, [n], StringLess);
    }
  }

  lemma SlotAfterInSubtree(f: Parents, anchor: Option<string>, n: string, x: string)
    requires IsForest(f) && IsAnchor(f, anchor) && Reaches(f, x)
    requires forall k :: k in f && f[k] == anchor ==> StringLess(n, k)
    requires AnchorPath(f, anchor) <= Path(f, x) && (anchor.Some? ==> x != anchor.value)
    ensures PathLess(AnchorPath(f, anchor) + [n], Path(f, x))
  {
    var a, q := AnchorPath(f, anchor), Path(f, x);
    if anchor.Some? {
      assert Reaches(f, anchor.value);
      assert a[|a| - 1] == anchor.value && q[|q| - 1] == x;
    }
    assert |a| < |q|;
    PathPrefix(f, x, |a|);
    var k := q[|a|];
    assert anchor.Some? ==> q[|a| - 1] == a[|a| - 1];
    assert f[k] == anchor && StringLess(n, k);
    assert q == a + q[|a|..];
    StringLessTotal();
    assert LexAt([n], q[|a|..], 0, StringLess);
    LexCommonPrefix(a, [n], q[|a|..], StringLess);
  }

  lemma SlotAscending(f: Parents, anchor: Option<string>, n: string, j: nat, o: seq<string>)
    requires IsForest(f) && n !in f && IsAnchor(f, anchor)
    requires forall k :: k in f && f[k] == anchor ==> StringLess(n, k)
    requires Ascending(o, Before(f)) && NoDuplicates(o) && (forall x :: x in o ==> x in f) && IsSlot(o, anchor, j)
    ensures Ascending(o[..j] + [n] + o[j..], Before(f[n := anchor]))
  {
    var g := f[n := anchor];
    InsertedLinks(f, anchor, n);
    forall i | 0 <= i < j ensures Before(g)(o[i], n) { SlotBefore(f, anchor, n, o[i]); }
    forall i | j <= i < |o| ensures Before(g)(n, o[i]) { SlotAfter(f, anchor, n, o[i]); }
    forall i, k | 0 <= i < k < |o| ensures Before(g)(o[i], o[k]) { BeforeKept(f, g, o[i], o[k]); }
    InsertedAscending(o, n, j, Before(g));
  }

  /** A new atom that sorts before all children of its anchor lands immediately after the anchor;
      everything else keeps its place. */
  lemma InsertLandsAfterAnchor(f: Parents, anchor: Option<string>, n: string, j: nat)
    requires IsForest(f) && n !in f && IsAnchor(f, anchor)
    requires forall k :: k in f && f[k] == anchor ==> StringLess(n, k)
    requires IsSlot(Order(f), anchor, j)
    ensures IsForest(f[n := anchor])
    ensures Order(f[n := anchor]) == Order(f)[..j] + [n] + Order(f)[j..]
  {
    var g, o := f[n := anchor], Order(f);
    InsertedLinks(f, anchor, n);
    ForestOrder(f);
    ForestOrder(g);
    BeforeNoDuplicates(f, o);
    SlotAscending(f, anchor, n, j, o);
    InsertedElements(o, n, j);
    BeforeUnique(g, o[..j] + [n] + o[j..], Order(g));
  }

  lemma InsertedElements(o: seq<string>, n: string, j: nat)
    requires j <= |o|
    ensures forall x :: x in o[..j] + [n] + o[j..] <==> x in o || x == n
  {
    assert o == o[..j] + o[j..];
  }

  lemma InsertedAscending(o: seq<string>, n: string, j: nat, lt: (string, string) -> bool)
    requires j <= |o| && Ascending(o, lt)
    requires forall i :: 0 <= i < j ==> lt(o[i], n)
    requires forall i :: j <= i < |o| ==> lt(n, o[i])
    ensures Ascending(o[..j] + [n] + o[j..], lt)
  {
    var c := o[..j] + [n] + o[j..];
    assert forall i :: 0 <= i < |c| ==> c[i] == (if i < j then o[i] else if i == j then n else o[i - 1]);
  }
}
