/** Selections anchored to elements: where an anchored offset resolves, in the same state and in later ones. */
module Selection {
  import opened Wrappers
  import opened Orders
  import opened Forest
  import opened AtomIds
  import opened TextOps
  import opened Fold
  import opened Projection
  import opened Planner

  /** A caret: before or after an element, or at an end of an empty text. */
  datatype Cursor = Cursor(element: Option<ElementId>, before: bool)

  ghost predicate UniqueIds(elements: seq<TextElement>) {
    forall i, j :: 0 <= i < j < |elements| ==> elements[i].id != elements[j].id
  }

  /** How much text is visible in front of element `k`. */
  function ShownBefore(elements: seq<TextElement>, k: nat): nat
    requires k <= |elements|
  {
    |Joined(VisibleOf(elements[..k]))|
  }

  function Clamp(offset: int, length: nat): (o: nat)
    ensures o <= length && (0 <= offset <= length ==> o == offset)
    ensures (offset < 0 ==> o == 0) && (length < offset ==> o == length)
  {
    if offset < 0 then 0 else if offset <= length then offset else length
  }

  /** `c` sits at the first visible element reaching `offset`, on its nearer side; the start of the text is
      before the first element. */
  ghost predicate SitsAt(visible: seq<TextElement>, offset: nat, c: Cursor, i: nat) {
    && i < |visible| && c.element == Some(visible[i].id)
    && Offset(visible, i) <= offset <= Offset(visible, i + 1) && (i == 0 || Offset(visible, i) < offset)
    && (c.before <==> (i == 0 && offset == 0) || offset - Offset(visible, i) < Offset(visible, i + 1) - offset)
  }

  /** The caret for `offset`: at an element, or at the start of an empty text. */
  ghost predicate Anchored(visible: seq<TextElement>, offset: nat, c: Cursor, i: nat) {
    if visible == [] then c == Cursor(None, true) else SitsAt(visible, offset, c, i)
  }

  method CursorAtOffset(state: TextState, rawOffset: int) returns (c: Cursor, ghost i: nat)
    requires state.text == Joined(state.visible)
    ensures c.element.None? <==> state.visible == []
    ensures Anchored(state.visible, Clamp(rawOffset, |state.text|), c, i)
  {
    var visible, offset := state.visible, Clamp(rawOffset, |state.text|);
    i := 0;
    if visible == [] { return Cursor(None, true), 0; }
    assert visible[..|visible|] == visible;
    var position := 0;
    var k := 0;
    while k < |visible|
      invariant 0 <= k <= |visible| && position == Offset(visible, k) && position <= offset
      invariant k == 0 || position < offset
    {
      OffsetStep(visible, k);
      var end := position + |visible[k].text|;
      i := k;
      if offset == position && position == 0 { return Cursor(Some(visible[k].id), true), k; }
      if offset <= end {
        return Cursor(Some(visible[k].id), offset - position < end - offset), k;
      }
      position := end;
      k := k + 1;
    }
    assert false;
  }

  /** `element` is in the state at index `k` and nowhere before. */
  ghost predicate FirstAt(elements: seq<TextElement>, id: ElementId, k: nat) {
    k < |elements| && elements[k].id == id && Missing(elements, id, k)
  }

  ghost predicate Missing(elements: seq<TextElement>, id: ElementId, k: nat)
    requires k <= |elements|
  {
    forall j :: 0 <= j < k ==> elements[j].id != id
  }

  lemma MissingStep(elements: seq<TextElement>, id: ElementId, k: nat)
    requires k < |elements| && Missing(elements, id, k)
    ensures elements[k].id != id ==> Missing(elements, id, k + 1)
  {
  }

  /** The offset a cursor stands for: the text shown before its element, or through it; an end of the text
      when the element is unknown. */
  ghost function Resolution(elements: seq<TextElement>, c: Cursor): nat {
    if c.element.Some? && exists k: nat :: FirstAt(elements, c.element.value, k) then
      var k: nat :| FirstAt(elements, c.element.value, k);
      ShownBefore(elements, if c.before then k else k + 1)
    else if c.before then 0 else |Joined(VisibleOf(elements))|
  }

  lemma FirstResolves(elements: seq<TextElement>, c: Cursor, k: nat)
    requires c.element.Some? && FirstAt(elements, c.element.value, k)
    ensures Resolution(elements, c) == ShownBefore(elements, if c.before then k else k + 1)
  {
    forall m: nat | FirstAt(elements, c.element.value, m) ensures m == k {
    }
  }

  /** A caret stands for the text shown before its element's first occurrence, or through it; one at no element of
      the state stands for an end of the text. */
  lemma ResolvesExactly(elements: seq<TextElement>, c: Cursor, k: nat)
    requires k <= |elements| && (c.element.Some? ==> forall j :: 0 <= j < k ==> elements[j].id != c.element.value)
    ensures c.element.None? || k == |elements|
            ==> Resolution(elements, c) == if c.before then 0 else |Joined(VisibleOf(elements))|
    ensures c.element.Some? && k < |elements| && elements[k].id == c.element.value
            ==> Resolution(elements, c) == |Joined(VisibleOf(elements[..if c.before then k else k + 1]))|
  {
    if c.element.Some? && k < |elements| && elements[k].id == c.element.value { FirstResolves(elements, c, k); }
  }

  /** Elements are looked up by their keys. */
  predicate SameKey(a: ElementId, b: ElementId): (same: bool)
    ensures same <==> a == b
  {
    if ElementKey(a) == ElementKey(b) then
      ElementKeyInjective(a, b);
      true
    else false
  }

  method ResolveCursor(state: TextState, c: Cursor) returns (offset: nat)
    requires state.text == Joined(VisibleOf(state.elements))
    ensures offset == Resolution(state.elements, c)
  {
    var elements := state.elements;
    if c.element.None? { return if c.before then 0 else |state.text|; }
    offset := 0;
    for k := 0 to |elements|
      invariant offset == ShownBefore(elements, k)
      invariant Missing(elements, c.element.value, k)
    {
      var before := offset;
      ShownStep(elements, k);
      MissingStep(elements, c.element.value, k);
      if !elements[k].deleted { offset := offset + |elements[k].text|; }
      if SameKey(elements[k].id, c.element.value) {
        FirstResolves(elements, c, k);
        return if c.before then before else offset;
      }
    }
    offset := if c.before then 0 else |state.text|;
  }

  lemma ShownStep(elements: seq<TextElement>, k: nat)
    requires k < |elements|
    ensures ShownBefore(elements, k + 1)
         == ShownBefore(elements, k) + if elements[k].deleted then 0 else |elements[k].text|
  {
    var a, e := elements[..k], elements[k];
    assert elements[..k + 1] == a + [e];
    VisibleConcat(a, [e]);
    assert VisibleOf([]) == [] && [e][..0] == [];
    assert VisibleOf([e]) == if e.deleted then [] else [e];
    JoinedConcat(VisibleOf(a), VisibleOf([e]));
    assert Joined([e]) == Joined([]) + e.text;
  }

  lemma {:induction false} ShownAscends(elements: seq<TextElement>, i: nat, j: nat)
    requires i <= j <= |elements|
    ensures ShownBefore(elements, i) <= ShownBefore(elements, j)
    decreases j
  {
    if i < j {
      ShownAscends(elements, i, j - 1);
      ShownStep(elements, j - 1);
    }
  }

  lemma {:induction false} OffsetNonDecreasing(visible: seq<TextElement>, i: nat, j: nat)
    requires i <= j <= |visible|
    ensures Offset(visible, i) <= Offset(visible, j)
    decreases j
  {
    if i < j {
      OffsetNonDecreasing(visible, i, j - 1);
      OffsetStep(visible, j - 1);
    }
  }

  /** Where the i-th visible element is among all elements. */
  lemma {:induction false} VisibleIndex(elements: seq<TextElement>, i: nat) returns (k: nat)
    requires i < |VisibleOf(elements)|
    ensures k < |elements| && !elements[k].deleted && elements[k] == VisibleOf(elements)[i]
    ensures VisibleOf(elements[..k]) == VisibleOf(elements)[..i]
    ensures ShownBefore(elements, k) == Offset(VisibleOf(elements), i)
    ensures ShownBefore(elements, k + 1) == Offset(VisibleOf(elements), i + 1)
  {
    var n := |elements| - 1;
    var init := elements[..n];
    if i < |VisibleOf(init)| {
      k := VisibleIndex(init, i);
      assert init[..k] == elements[..k];
    } else {
      k := n;
    }
    ShownStep(elements, k);
    OffsetStep(VisibleOf(elements), i);
  }

  lemma ResolvesAt(elements: seq<TextElement>, c: Cursor, k: nat)
    requires UniqueIds(elements) && k < |elements| && c.element == Some(elements[k].id)
    ensures Resolution(elements, c) == ShownBefore(elements, if c.before then k else k + 1)
  {
    assert FirstAt(elements, c.element.value, k);
    FirstResolves(elements, c, k);
  }

  function Distance(a: int, b: int): nat { if a < b then b - a else a - b }

  /** No boundary is nearer than the side of the element the caret sits at. */
  lemma SidesNearest(visible: seq<TextElement>, offset: nat, c: Cursor, i: nat, m: nat)
    requires SitsAt(visible, offset, c, i) && m <= |visible|
    ensures Distance(Offset(visible, if c.before then i else i + 1), offset) <= Distance(Offset(visible, m), offset)
  {
    if m <= i { OffsetNonDecreasing(visible, m, i); } else { OffsetNonDecreasing(visible, i + 1, m); }
  }

  lemma AnchorAt(elements: seq<TextElement>, offset: nat, c: Cursor, i: nat)
    requires UniqueIds(elements) && Anchored(VisibleOf(elements), offset, c, i)
    ensures VisibleOf(elements) == [] ==> Resolution(elements, c) == 0
    ensures VisibleOf(elements) != []
            ==> Resolution(elements, c) == Offset(VisibleOf(elements), if c.before then i else i + 1)
  {
    if VisibleOf(elements) != [] {
      var k := VisibleIndex(elements, i);
      ResolvesAt(elements, c, k);
    }
  }

  /** Of boundaries within the text, the one nearest to a clamped offset is nearest to the offset itself. */
  lemma ClampKeepsNearest(a: nat, b: nat, length: nat, offset: int)
    requires a <= length && b <= length && Distance(a, Clamp(offset, length)) <= Distance(b, Clamp(offset, length))
    ensures Distance(a, offset) <= Distance(b, offset)
  {
  }

  /** Of two boundaries equally near, the caret sits at the later. */
  lemma SidesLast(visible: seq<TextElement>, offset: nat, c: Cursor, i: nat, m: nat)
    requires SitsAt(visible, offset, c, i) && m <= |visible|
    requires Distance(Offset(visible, m), offset) == Distance(Offset(visible, if c.before then i else i + 1), offset)
    ensures Offset(visible, m) <= Offset(visible, if c.before then i else i + 1)
  {
    if m <= i { OffsetNonDecreasing(visible, m, i); } else { OffsetNonDecreasing(visible, i + 1, m); }
  }

  lemma ClampKeepsTies(a: nat, b: nat, length: nat, offset: int)
    requires a <= length && b <= length && Distance(a, offset) == Distance(b, offset)
    ensures Distance(a, Clamp(offset, length)) == Distance(b, Clamp(offset, length))
  {
  }

  lemma WithinText(visible: seq<TextElement>, k: nat)
    requires k <= |visible|
    ensures Offset(visible, k) <= |Joined(visible)|
  {
    OffsetNonDecreasing(visible, k, |visible|);
    assert visible[..|visible|] == visible;
  }

  lemma ClampedNearest(elements: seq<TextElement>, offset: nat, c: Cursor, i: nat) returns (at: nat)
    requires UniqueIds(elements) && Anchored(VisibleOf(elements), offset, c, i)
    ensures at <= |VisibleOf(elements)| && Resolution(elements, c) == Offset(VisibleOf(elements), at)
    ensures forall k :: 0 <= k <= |VisibleOf(elements)| ==>
              Distance(Resolution(elements, c), offset) <= Distance(Offset(VisibleOf(elements), k), offset)
    ensures forall k :: 0 <= k <= |VisibleOf(elements)| ==>
              Distance(Resolution(elements, c), offset) == Distance(Offset(VisibleOf(elements), k), offset)
              ==> Offset(VisibleOf(elements), k) <= Resolution(elements, c)
  {
    var visible, r := VisibleOf(elements), Resolution(elements, c);
    AnchorAt(elements, offset, c, i);
    at := if visible == [] then 0 else if c.before then i else i + 1;
    assert r == Offset(visible, at);
    forall m | 0 <= m <= |visible| ensures Distance(r, offset) <= Distance(Offset(visible, m), offset) {
      if visible != [] { SidesNearest(visible, offset, c, i, m); }
    }
    forall m | 0 <= m <= |visible| && Distance(r, offset) == Distance(Offset(visible, m), offset)
      ensures Offset(visible, m) <= r
    {
      if visible != [] { SidesLast(visible, offset, c, i, m); }
    }
  }

  /** In the same state the caret for an offset, in the text or not, resolves to the element boundary nearest to
      it, the later of two equally near, so to itself exactly when it is one; in an empty text, to the start. */
  lemma AnchorResolvesNearest(elements: seq<TextElement>, rawOffset: int, c: Cursor, i: nat)
    requires UniqueIds(elements)
    requires Anchored(VisibleOf(elements), Clamp(rawOffset, |Joined(VisibleOf(elements))|), c, i)
    ensures var visible, r := VisibleOf(elements), Resolution(elements, c);
            && (exists k :: 0 <= k <= |visible| && r == Offset(visible, k))
            && (forall k :: 0 <= k <= |visible| ==> Distance(r, rawOffset) <= Distance(Offset(visible, k), rawOffset))
            && (forall k :: 0 <= k <= |visible| ==>
                  Distance(r, rawOffset) == Distance(Offset(visible, k), rawOffset) ==> Offset(visible, k) <= r)
    ensures Resolution(elements, c) == rawOffset
            <==> exists k :: 0 <= k <= |VisibleOf(elements)| && rawOffset == Offset(VisibleOf(elements), k)
  {
    var visible, r := VisibleOf(elements), Resolution(elements, c);
    var length := |Joined(visible)|;
    var at := ClampedNearest(elements, Clamp(rawOffset, length), c, i);
    WithinText(visible, at);
    forall k | 0 <= k <= |visible| ensures Distance(r, rawOffset) <= Distance(Offset(visible, k), rawOffset) {
      WithinText(visible, k);
      ClampKeepsNearest(r, Offset(visible, k), length, rawOffset);
    }
    forall k | 0 <= k <= |visible| && Distance(r, rawOffset) == Distance(Offset(visible, k), rawOffset)
      ensures Offset(visible, k) <= r
    {
      WithinText(visible, k);
      ClampKeepsTies(r, Offset(visible, k), length, rawOffset);
    }
    if m: nat :| m <= |visible| && rawOffset == Offset(visible, m) {
      assert Distance(r, rawOffset) <= Distance(Offset(visible, m), rawOffset);
    }
  }

  // ---- later states ---------------------------------------------------------------------------------

  /** `later` extends `elements` with inserts and tombstones: each element is still there, in order, with its
      id and text, and what was deleted stays deleted; `at` says where. */
  ghost predicate Extends(elements: seq<TextElement>, later: seq<TextElement>, at: seq<nat>) {
    && |at| == |elements|
    && (forall i, j :: 0 <= i < j < |at| ==> at[i] < at[j])
    && forall i :: 0 <= i < |at| ==> KeptAt(elements[i], later, at[i])
  }

  ghost predicate KeptAt(e: TextElement, later: seq<TextElement>, k: nat) {
    k < |later| && later[k].id == e.id && later[k].atomId == e.atomId && later[k].text == e.text
        && (e.deleted ==> later[k].deleted)
  }

  /** Where a caret's element is in a later state. */
  lemma CaretKept(elements: seq<TextElement>, later: seq<TextElement>, at: seq<nat>, o: nat, c: Cursor, i: nat)
    returns (m: nat, k: nat)
    requires UniqueIds(later) && Extends(elements, later, at) && SitsAt(VisibleOf(elements), o, c, i)
    ensures m < |elements| && k == at[m] && !elements[m].deleted && VisibleOf(elements[..m]) == VisibleOf(elements)[..i]
    ensures StandsFor(later, c, k)
  {
    m := VisibleIndex(elements, i);
    assert KeptAt(elements[m], later, at[m]);
    k := at[m];
    ResolvesAt(later, c, k);
  }

  /** The caret stands for the text shown before or through element `k`. */
  ghost predicate StandsFor(later: seq<TextElement>, c: Cursor, k: nat) {
    && k < |later| && c.element == Some(later[k].id)
    && Resolution(later, c) == ShownBefore(later, if c.before then k else k + 1)
  }

  /** Two carets keep their order in every later state, and each stands for the text then shown before or
      through its element; those of an empty text stay at the start. */
  lemma CaretsKeepOrder(elements: seq<TextElement>, later: seq<TextElement>, at: seq<nat>,
                        o: nat, c: Cursor, i: nat, o': nat, c': Cursor, i': nat) returns (k: nat, k': nat)
    requires UniqueIds(later) && Extends(elements, later, at)
    requires Anchored(VisibleOf(elements), o, c, i) && Anchored(VisibleOf(elements), o', c', i') && o <= o'
    ensures VisibleOf(elements) == [] ==> Resolution(later, c) == Resolution(later, c') == 0
    ensures VisibleOf(elements) != [] ==> StandsFor(later, c, k) && StandsFor(later, c', k')
    ensures Resolution(later, c) <= Resolution(later, c')
  {
    var visible := VisibleOf(elements);
    k, k' := 0, 0;
    if visible != [] {
      var m, m';
      m, k := CaretKept(elements, later, at, o, c, i);
      m', k' := CaretKept(elements, later, at, o', c', i');
      CaretsInOrder(visible, o, c, i, o', c', i');
      if i == i' {
        SameIndexSame(elements, i, m, m');
        ShownAscends(later, k, k + 1);
      } else {
        IndexInOrder(elements, i, m, i', m');
        ShownAscends(later, if c.before then k else k + 1, if c'.before then k' else k' + 1);
      }
    }
  }

  lemma SameIndexSame(elements: seq<TextElement>, i: nat, m: nat, m': nat)
    requires m < |elements| && m' < |elements| && !elements[m].deleted && !elements[m'].deleted
    requires i < |VisibleOf(elements)|
    requires VisibleOf(elements[..m]) == VisibleOf(elements)[..i] == VisibleOf(elements[..m'])
    ensures m == m'
  {
    if m < m' { VisibleGrows(elements, m, m'); }
    if m' < m { VisibleGrows(elements, m', m); }
  }

  lemma VisibleGrows(elements: seq<TextElement>, m: nat, n: nat)
    requires m < n <= |elements| && !elements[m].deleted
    ensures |VisibleOf(elements[..m])| < |VisibleOf(elements[..n])|
  {
    assert elements[..n] == elements[..m] + [elements[m]] + elements[m + 1..n];
    VisibleConcat(elements[..m] + [elements[m]], elements[m + 1..n]);
    VisibleConcat(elements[..m], [elements[m]]);
    assert [elements[m]][..0] == [] && VisibleOf([elements[m]]) == [elements[m]];
  }

  lemma CaretsInOrder(visible: seq<TextElement>, o: nat, c: Cursor, i: nat, o': nat, c': Cursor, i': nat)
    requires SitsAt(visible, o, c, i) && SitsAt(visible, o', c', i') && o <= o'
    ensures i <= i'
  {
    if i' < i { OffsetNonDecreasing(visible, i' + 1, i); }
  }

  lemma IndexInOrder(elements: seq<TextElement>, i: nat, m: nat, i': nat, m': nat)
    requires i < i' < |VisibleOf(elements)| && m < |elements| && m' < |elements|
    requires VisibleOf(elements[..m]) == VisibleOf(elements)[..i]
    requires VisibleOf(elements[..m']) == VisibleOf(elements)[..i']
    requires !elements[m'].deleted
    ensures m < m'
  {
    if m' < m {
      assert elements[..m] == elements[..m'] + elements[m'..m];
      VisibleConcat(elements[..m'], elements[m'..m]);
    }
    assert |VisibleOf(elements[..m])| == i && |VisibleOf(elements[..m'])| == i';
  }

  // ---- what later projections are ------------------------------------------------------------------

  /** `at` are the places of `part` in `s`. */
  ghost predicate Places(s: seq<string>, part: seq<string>, at: seq<nat>) {
    && |at| == |part| && (forall i, j :: 0 <= i < j < |at| ==> at[i] < at[j])
    && forall i :: 0 <= i < |at| ==> at[i] < |s| && s[at[i]] == part[i]
  }

  function Shift(at: seq<nat>): (r: seq<nat>)
    ensures |r| == |at| && forall i :: 0 <= i < |r| ==> r[i] == at[i] + 1
  {
    seq(|at|, i requires 0 <= i < |at| => at[i] + 1)
  }

  lemma PlacesShift(s: seq<string>, part: seq<string>, at: seq<nat>)
    requires s != [] && Places(s[1..], part, at)
    ensures Places(s, part, Shift(at))
  {
  }

  lemma PlacesFirst(s: seq<string>, part: seq<string>, at: seq<nat>)
    requires s != [] && Places(s, part, at) && forall i :: 0 <= i < |at| ==> 0 < at[i]
    ensures Places(s, [s[0]] + part, [0] + at)
  {
  }

  /** Where the restriction of a sequence lies in it. */
  lemma {:induction false} RestrictPlaces(s: seq<string>, keep: set<string>) returns (at: seq<nat>)
    ensures Places(s, Restrict(s, keep), at)
  {
    if s == [] {
      at := [];
    } else {
      at := RestrictPlaces(s[1..], keep);
      PlacesShift(s, Restrict(s[1..], keep), at);
      at := Shift(at);
      if s[0] in keep {
        PlacesFirst(s, Restrict(s[1..], keep), at);
        at := [0] + at;
      }
    }
  }

  /** Later atoms and tombstones, over forests, only extend the elements: remote edits never reorder them. */
  lemma LaterStatesExtend(decode: string -> Option<string>, st: Folded, later: Folded) returns (at: seq<nat>)
    requires IsForest(Links(st.atoms)) && IsForest(Links(later.atoms))
    requires (forall id :: id in st.atoms ==> id in later.atoms && later.atoms[id] == st.atoms[id])
    requires st.deleted <= later.deleted
    ensures Extends(ElementsOf(decode, st), ElementsOf(decode, later), at)
  {
    var small, large := Links(st.atoms), Links(later.atoms);
    OrderEmitsAttachedOnce(small);
    OrderEmitsAttachedOnce(large);
    OrderStable(small, large);
    at := RestrictPlaces(Order(large), small.Keys);
    forall i | 0 <= i < |at| ensures KeptAt(ElementsOf(decode, st)[i], ElementsOf(decode, later), at[i]) {
      RenderAt(decode, st, Order(small), i);
      RenderAt(decode, later, Order(large), at[i]);
    }
  }
}
