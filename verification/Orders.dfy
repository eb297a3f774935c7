/** Strict total orders, the sequences they sort, and the two orders the runtime uses:
    JavaScript's default string order and the lexicographic order of root paths. */
module Orders {

  ghost predicate StrictTotal<T(!new)>(lt: (T, T) -> bool) {
    && (forall x :: !lt(x, x))
    && (forall x, y :: x != y ==> lt(x, y) || lt(y, x))
    && (forall x, y, z :: lt(x, y) && lt(y, z) ==> lt(x, z))
  }

  ghost predicate StrictOrder<T(!new)>(lt: (T, T) -> bool) {
    && (forall x :: !lt(x, x))
    && (forall x, y, z :: lt(x, y) && lt(y, z) ==> lt(x, z))
  }

  ghost predicate Ascending<T>(s: seq<T>, lt: (T, T) -> bool) {
    forall i, j :: 0 <= i < j < |s| ==> lt(s[i], s[j])
  }

  /** Any two entries are ordered one way or the other. */
  ghost predicate Comparable<T>(s: seq<T>, lt: (T, T) -> bool) {
    forall i, j :: 0 <= i < j < |s| ==> lt(s[i], s[j]) || lt(s[j], s[i])
  }

  ghost predicate NoDuplicates<T>(s: seq<T>) {
    forall i, j :: 0 <= i < j < |s| ==> s[i] != s[j]
  }

  lemma DistinctComparable<T(!new)>(s: seq<T>, lt: (T, T) -> bool)
    requires StrictTotal(lt) && NoDuplicates(s)
    ensures Comparable(s, lt)
  {
  }

  ghost function Elements<T>(s: seq<T>): set<T> {
    set x | x in s
  }

  /** The elements of `s` that lie in `keep`, in their order in `s`. */
  ghost function Restrict<T>(s: seq<T>, keep: set<T>): (r: seq<T>)
    ensures Elements(r) == Elements(s) * keep
  {
    if s == [] then []
    else
      assert Elements(s) == {s[0]} + Elements(s[1..]);
      var rest := Restrict(s[1..], keep);
      assert Elements([s[0]] + rest) == {s[0]} + Elements(rest);
      if s[0] in keep then [s[0]] + rest else rest
  }

  lemma RestrictAppend<T>(a: seq<T>, b: seq<T>, keep: set<T>)
    ensures Restrict(a + b, keep) == Restrict(a, keep) + Restrict(b, keep)
  {
    if a == [] {
      assert a + b == b;
    } else {
      assert (a + b)[0] == a[0] && (a + b)[1..] == a[1..] + b;
      RestrictAppend(a[1..], b, keep);
    }
  }

  lemma AscendingTail<T(!new)>(s: seq<T>, lt: (T, T) -> bool)
    requires StrictOrder(lt) && Ascending(s, lt) && s != []
    ensures Ascending(s[1..], lt)
    ensures forall x :: x in s[1..] ==> lt(s[0], x) && x != s[0]
  {
    forall x | x in s[1..] ensures lt(s[0], x) && x != s[0] {
      var i :| 0 <= i < |s[1..]| && s[1..][i] == x;
      assert x == s[i + 1];
    }
  }

  /** An ascending sequence is determined by its elements: if those of `a` are the elements
      of `b` lying in some set, then `a` is `b` with the others dropped. */
  lemma {:induction false} AscendingRestrict<T(!new)>(a: seq<T>, b: seq<T>, lt: (T, T) -> bool)
    requires StrictOrder(lt) && Ascending(a, lt) && Ascending(b, lt)
    requires Elements(a) <= Elements(b)
    ensures a == Restrict(b, Elements(a))
    decreases |b|
  {
    if b == [] {
      if a != [] { assert a[0] in Elements(a); }
    } else {
      AscendingTail(b, lt);
      assert Elements(b) == {b[0]} + Elements(b[1..]);
      if a == [] {
        RestrictNone(b, {});
        assert Elements(a) == {};
      } else {
        AscendingTail(a, lt);
        assert Elements(a) == {a[0]} + Elements(a[1..]);
        assert a[0] in b;
        if a[0] == b[0] {
          forall x | x in Elements(a[1..]) ensures x in Elements(b[1..]) { assert x in Elements(a); }
          AscendingRestrict(a[1..], b[1..], lt);
          RestrictSame(b[1..], Elements(a), Elements(a[1..]));
        } else {
          assert a[0] in b[1..] && lt(b[0], a[0]);
          assert b[0] !in Elements(a);
          AscendingRestrict(a, b[1..], lt);
        }
      }
    }
  }

  lemma RestrictNone<T>(s: seq<T>, keep: set<T>)
    requires Elements(s) !! keep
    ensures Restrict(s, keep) == []
  {
    if s != [] {
      assert s[0] in Elements(s);
      assert Elements(s) == {s[0]} + Elements(s[1..]);
    }
  }

  lemma RestrictSame<T>(s: seq<T>, a: set<T>, b: set<T>)
    requires Elements(s) * a == Elements(s) * b
    ensures Restrict(s, a) == Restrict(s, b)
  {
    if s != [] {
      assert s[0] in Elements(s);
      assert Elements(s) == {s[0]} + Elements(s[1..]);
      assert s[0] in a <==> s[0] in Elements(s) * a;
      assert s[0] in b <==> s[0] in Elements(s) * b;
      forall x ensures x in Elements(s[1..]) * a <==> x in Elements(s[1..]) * b {
        assert x in Elements(s[1..]) ==> (x in a <==> x in Elements(s) * a) && (x in b <==> x in Elements(s) * b);
      }
    }
  }

  lemma RestrictAll<T>(s: seq<T>, keep: set<T>)
    requires Elements(s) <= keep
    ensures Restrict(s, keep) == s
  {
    if s != [] {
      assert s[0] in Elements(s);
      assert Elements(s) == {s[0]} + Elements(s[1..]);
    }
  }

  lemma AscendingUnique<T(!new)>(a: seq<T>, b: seq<T>, lt: (T, T) -> bool)
    requires StrictOrder(lt) && Ascending(a, lt) && Ascending(b, lt)
    requires Elements(a) == Elements(b)
    ensures a == b
  {
    AscendingRestrict(a, b, lt);
    RestrictAll(b, Elements(a));
  }

  lemma AscendingNoDuplicates<T(!new)>(s: seq<T>, lt: (T, T) -> bool)
    requires StrictOrder(lt) && Ascending(s, lt)
    ensures NoDuplicates(s)
  {
  }

  /** Distinct members of a set are no more than its size. */
  lemma {:induction false} DistinctCount<T>(s: seq<T>, within: set<T>)
    requires NoDuplicates(s) && forall x :: x in s ==> x in within
    ensures |s| <= |within|
  {
    if s != [] {
      var last := s[|s| - 1];
      DistinctCount(s[..|s| - 1], within - {last});
    }
  }

  lemma AscendingConcat<T(!new)>(a: seq<T>, b: seq<T>, lt: (T, T) -> bool)
    requires Ascending(a, lt) && Ascending(b, lt)
    requires forall x, y :: x in a && y in b ==> lt(x, y)
    ensures Ascending(a + b, lt)
  {
  }

  // ---- sorting -------------------------------------------------------------

  /** Insertion into an ascending sequence, keeping it ascending. */
  function Insert<T>(x: T, s: seq<T>, lt: (T, T) -> bool): seq<T> {
    if s == [] then [x]
    else if lt(x, s[0]) then [x] + s
    else [s[0]] + Insert(x, s[1..], lt)
  }

  /** `Array.prototype.sort` with a comparator that is a strict total order on the elements. */
  function Sort<T>(s: seq<T>, lt: (T, T) -> bool): seq<T> {
    if s == [] then [] else Insert(s[0], Sort(s[1..], lt), lt)
  }

  lemma {:induction false} InsertPermutes<T>(x: T, s: seq<T>, lt: (T, T) -> bool)
    ensures multiset(Insert(x, s, lt)) == multiset(s) + multiset{x}
  {
    if s != [] {
      assert s == [s[0]] + s[1..];
      if !lt(x, s[0]) { InsertPermutes(x, s[1..], lt); }
    }
  }

  /** Sorting rearranges. */
  lemma {:induction false} SortPermutes<T>(s: seq<T>, lt: (T, T) -> bool)
    ensures multiset(Sort(s, lt)) == multiset(s)
  {
    if s != [] {
      SortPermutes(s[1..], lt);
      InsertPermutes(s[0], Sort(s[1..], lt), lt);
      assert s == [s[0]] + s[1..];
    }
  }

  lemma {:induction false} InsertSorted<T(!new)>(x: T, s: seq<T>, lt: (T, T) -> bool)
    requires StrictOrder(lt) && Ascending(s, lt) && forall y :: y in s ==> lt(x, y) || lt(y, x)
    ensures Ascending(Insert(x, s, lt), lt)
    ensures Elements(Insert(x, s, lt)) == {x} + Elements(s)
    ensures |Insert(x, s, lt)| == |s| + 1
  {
    if s != [] && !lt(x, s[0]) {
      AscendingTail(s, lt);
      InsertSorted(x, s[1..], lt);
      var r := Insert(x, s[1..], lt);
      assert Elements(s) == {s[0]} + Elements(s[1..]);
      assert Elements([s[0]] + r) == {s[0]} + Elements(r);
      forall y | y in r ensures lt(s[0], y) { assert y in Elements(r); assert y in {x} + Elements(s[1..]); }
      AscendingConcat([s[0]], r, lt);
    } else if s != [] {
      forall y | y in s ensures lt(x, y) { }
      AscendingConcat([x], s, lt);
      assert Elements([x] + s) == {x} + Elements(s);
    } else {
      assert Elements([x]) == {x} + Elements(s);
    }
  }

  lemma {:induction false} SortSorted<T(!new)>(s: seq<T>, lt: (T, T) -> bool)
    requires StrictOrder(lt) && Comparable(s, lt)
    ensures Ascending(Sort(s, lt), lt)
    ensures Elements(Sort(s, lt)) == Elements(s)
    ensures |Sort(s, lt)| == |s|
  {
    if s != [] {
      forall i, j | 0 <= i < j < |s[1..]| ensures lt(s[1..][i], s[1..][j]) || lt(s[1..][j], s[1..][i]) {
        assert lt(s[i + 1], s[j + 1]) || lt(s[j + 1], s[i + 1]);
      }
      SortSorted(s[1..], lt);
      forall y | y in Sort(s[1..], lt) ensures lt(s[0], y) || lt(y, s[0]) {
        assert y in Elements(s[1..]);
        var j :| 0 <= j < |s[1..]| && s[1..][j] == y;
        assert y == s[j + 1];
      }
      InsertSorted(s[0], Sort(s[1..], lt), lt);
      assert Elements(s) == {s[0]} + Elements(s[1..]);
    }
  }

  /** Sorting forgets the order of its input. */
  lemma SortUnique<T(!new)>(s: seq<T>, t: seq<T>, lt: (T, T) -> bool)
    requires StrictOrder(lt) && Comparable(s, lt)
    requires Ascending(t, lt) && Elements(t) == Elements(s)
    ensures Sort(s, lt) == t
  {
    SortSorted(s, lt);
    AscendingUnique(Sort(s, lt), t, lt);
  }

  // ---- the ascending listing of a finite set --------------------------------

  lemma LeastExists<T(!new)>(s: set<T>, lt: (T, T) -> bool) returns (m: T)
    requires StrictTotal(lt) && s != {}
    ensures m in s && forall x :: x in s && x != m ==> lt(m, x)
    decreases |s|
  {
    var y :| y in s;
    if s == {y} {
      m := y;
    } else {
      var r := s - {y};
      var n := LeastExists(r, lt);
      m := if lt(n, y) then n else y;
      forall x | x in s && x != m ensures lt(m, x) {
        if x != y { assert x in r; }
      }
    }
  }

  ghost function Least<T(!new)>(s: set<T>, lt: (T, T) -> bool): (m: T)
    requires StrictTotal(lt) && s != {}
    ensures m in s && forall x :: x in s && x != m ==> lt(m, x)
  {
    assert exists m :: m in s && forall x :: x in s && x != m ==> lt(m, x) by {
      var m := LeastExists(s, lt);
    }
    var m :| m in s && forall x :: x in s && x != m ==> lt(m, x);
    m
  }

  lemma ListingStep<T(!new)>(s: set<T>, m: T, r: seq<T>, lt: (T, T) -> bool)
    requires m in s && forall x :: x in s && x != m ==> lt(m, x)
    requires Ascending(r, lt) && Elements(r) == s - {m}
    ensures Ascending([m] + r, lt) && Elements([m] + r) == s
  {
    forall y | y in r ensures lt(m, y) { assert y in Elements(r); }
    AscendingConcat([m], r, lt);
    assert Elements([m] + r) == {m} + Elements(r);
  }

  /** The elements of `s` in ascending order. */
  ghost function Listing<T(!new)>(s: set<T>, lt: (T, T) -> bool): (r: seq<T>)
    requires StrictTotal(lt)
    ensures Ascending(r, lt) && Elements(r) == s
    decreases |s|
  {
    if s == {} then []
    else
      var m := Least(s, lt);
      var r := Listing(s - {m}, lt);
      ListingStep(s, m, r, lt);
      [m] + r
  }

  // ---- lexicographic orders --------------------------------------------------

  /** `a` and `b` agree up to `k`, where `a` ends or has the smaller entry. */
  predicate LexAt<T(==)>(a: seq<T>, b: seq<T>, k: nat, lt: (T, T) -> bool) {
    k <= |a| && k < |b| && a[..k] == b[..k] && (k == |a| || (a[k] != b[k] && lt(a[k], b[k])))
  }

  /** Lexicographic order in which a proper prefix comes first. */
  predicate LexLess<T(==)>(a: seq<T>, b: seq<T>, lt: (T, T) -> bool) {
    exists k: nat :: k <= |a| && LexAt(a, b, k, lt)
  }

  lemma {:induction false} LexTotal<T(!new)>(a: seq<T>, b: seq<T>, lt: (T, T) -> bool, k: nat)
    requires StrictTotal(lt) && a != b
    requires k <= |a| && k <= |b| && a[..k] == b[..k]
    ensures LexLess(a, b, lt) || LexLess(b, a, lt)
    decreases |a| - k
  {
    if k == |a| || k == |b| || a[k] != b[k] {
      assert LexAt(a, b, k, lt) || LexAt(b, a, k, lt);
    } else {
      assert a[..k + 1] == a[..k] + [a[k]] && b[..k + 1] == b[..k] + [b[k]];
      LexTotal(a, b, lt, k + 1);
    }
  }

  lemma LexTransitive<T(!new)>(a: seq<T>, b: seq<T>, c: seq<T>, lt: (T, T) -> bool)
    requires StrictTotal(lt) && LexLess(a, b, lt) && LexLess(b, c, lt)
    ensures LexLess(a, c, lt)
  {
    var i: nat :| i <= |a| && LexAt(a, b, i, lt);
    var j: nat :| j <= |b| && LexAt(b, c, j, lt);
    var k := if i <= j then i else j;
    assert a[..k] == a[..i][..k] && b[..k] == b[..i][..k] && b[..k] == b[..j][..k] && c[..k] == c[..j][..k];
    if i < j { assert b[..j][i] == c[..j][i]; }
    if j < i { assert a[..i][j] == b[..i][j]; }
    assert LexAt(a, c, k, lt);
  }

  lemma LexStrictTotal<T(!new)>(lt: (T, T) -> bool)
    requires StrictTotal(lt)
    ensures forall a: seq<T> :: !LexLess(a, a, lt)
    ensures forall a: seq<T>, b: seq<T> :: a != b ==> LexLess(a, b, lt) || LexLess(b, a, lt)
    ensures forall a: seq<T>, b: seq<T>, c: seq<T> :: LexLess(a, b, lt) && LexLess(b, c, lt) ==> LexLess(a, c, lt)
  {
    forall a: seq<T>, b: seq<T> | a != b ensures LexLess(a, b, lt) || LexLess(b, a, lt) { LexTotal(a, b, lt, 0); }
    forall a: seq<T>, b: seq<T>, c: seq<T> | LexLess(a, b, lt) && LexLess(b, c, lt) ensures LexLess(a, c, lt) {
      LexTransitive(a, b, c, lt);
    }
  }

  /** Only what follows a common prefix matters. */
  lemma LexCommonPrefix<T(!new)>(p: seq<T>, a: seq<T>, b: seq<T>, lt: (T, T) -> bool)
    requires LexLess(a, b, lt)
    ensures LexLess(p + a, p + b, lt)
  {
    var k: nat :| k <= |a| && LexAt(a, b, k, lt);
    assert (p + a)[..|p| + k] == p + a[..k] && (p + b)[..|p| + k] == p + b[..k];
    assert LexAt(p + a, p + b, |p| + k, lt);
  }

  lemma LexExtendRight<T(!new)>(a: seq<T>, b: seq<T>, u: seq<T>, lt: (T, T) -> bool)
    requires LexLess(a, b, lt)
    ensures LexLess(a, b + u, lt)
  {
    var k: nat :| k <= |a| && LexAt(a, b, k, lt);
    assert (b + u)[..k] == b[..k];
    assert LexAt(a, b + u, k, lt);
  }

  lemma LexExtendLeft<T(!new)>(a: seq<T>, b: seq<T>, u: seq<T>, lt: (T, T) -> bool)
    requires LexLess(a, b, lt) && !(a <= b)
    ensures LexLess(a + u, b, lt)
  {
    var k: nat :| k <= |a| && LexAt(a, b, k, lt);
    assert a[..|a|] == a;
    assert (a + u)[..k] == a[..k];
    assert LexAt(a + u, b, k, lt);
  }

  predicate CharLess(a: char, b: char) { a < b }

  /** The default order of strings, used by `sort()` without a comparator and by `<`. */
  predicate StringLess(a: string, b: string) { LexLess(a, b, CharLess) }

  lemma StringLessTotal()
    ensures StrictTotal(StringLess)
  {
    LexStrictTotal(CharLess);
  }

  /** Root paths compared component by component; an ancestor's path comes before its descendants'. */
  predicate PathLess(p: seq<string>, q: seq<string>) { LexLess(p, q, StringLess) }

  lemma PathLessTotal()
    ensures StrictTotal(PathLess)
  {
    StringLessTotal();
    LexStrictTotal(StringLess);
  }
}
