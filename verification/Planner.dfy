/** Turning a new text into deletes and inserts, and the proof that projecting them gives that text. */
module Planner {
  import opened Wrappers
  import opened Orders
  import opened Forest
  import opened TextOps
  import opened Fold
  import opened Projection

  datatype Range = Range(element: TextElement, start: nat, end: nat)

  /** Where visible element `k` starts in the text. */
  function Offset(visible: seq<TextElement>, k: nat): nat
    requires k <= |visible|
  {
    |Joined(visible[..k])|
  }

  /** Inserted texts are never empty, so no visible element is. */
  ghost predicate NonEmpty(visible: seq<TextElement>) {
    forall e :: e in visible ==> e.text != ""
  }

  lemma OffsetStep(visible: seq<TextElement>, k: nat)
    requires k < |visible|
    ensures Offset(visible, k + 1) == Offset(visible, k) + |visible[k].text|
  {
    assert visible[..k + 1][..k] == visible[..k];
  }

  lemma {:induction false} OffsetAscends(visible: seq<TextElement>, i: nat, j: nat)
    requires NonEmpty(visible) && i < j <= |visible|
    ensures Offset(visible, i) < Offset(visible, j)
    decreases j
  {
    OffsetStep(visible, j - 1);
    assert visible[j - 1] in visible;
    if i < j - 1 { OffsetAscends(visible, i, j - 1); }
  }

  lemma OffsetSlices(visible: seq<TextElement>, k: nat)
    requires k <= |visible|
    ensures Offset(visible, k) <= |Joined(visible)|
    ensures Joined(visible)[..Offset(visible, k)] == Joined(visible[..k])
    ensures Joined(visible)[Offset(visible, k)..] == Joined(visible[k..])
  {
    assert visible == visible[..k] + visible[k..];
    JoinedConcat(visible[..k], visible[k..]);
  }

  lemma OffsetBounded(visible: seq<TextElement>, k: nat)
    requires k <= |visible|
    ensures Offset(visible, k) <= |Joined(visible)|
  {
    OffsetSlices(visible, k);
  }

  method CodePointRanges(visible: seq<TextElement>) returns (ranges: seq<Range>)
    ensures RangesOf(visible, ranges)
  {
    var offset := 0;
    ranges := [];
    for k := 0 to |visible|
      invariant offset == Offset(visible, k) && |ranges| == k
      invariant forall m :: 0 <= m < k ==> ranges[m] == Range(visible[m], Offset(visible, m), Offset(visible, m + 1))
    {
      OffsetStep(visible, k);
      var start := offset;
      offset := offset + |visible[k].text|;
      ranges := ranges + [Range(visible[k], start, offset)];
    }
  }

  ghost predicate RangesOf(visible: seq<TextElement>, ranges: seq<Range>) {
    |ranges| == |visible|
    && forall k {:trigger ranges[k]} :: 0 <= k < |visible|
        ==> ranges[k] == Range(visible[k], Offset(visible, k), Offset(visible, k + 1))
  }

  // ---- what a plan is ---------------------------------------------------------------------

  ghost predicate LongestCommonPrefix(a: string, b: string, p: nat) {
    p <= |a| && p <= |b| && a[..p] == b[..p] && (p < |a| && p < |b| ==> a[p] != b[p])
  }

  /** `q` is the length of the longest common suffix of what follows the first `p` characters. */
  ghost predicate LongestCommonSuffix(a: string, b: string, p: nat, q: nat) {
    && p + q <= |a| && p + q <= |b| && a[|a| - q..] == b[|b| - q..]
    && (p + q < |a| && p + q < |b| ==> a[|a| - 1 - q] != b[|b| - 1 - q])
  }

  /** Element `k` reaches into the text between positions `p` and `end`. */
  ghost predicate Touched(visible: seq<TextElement>, k: nat, p: nat, end: nat)
    requires k < |visible|
  {
    p < Offset(visible, k + 1) && Offset(visible, k) < end
  }

  ghost predicate AllTouched(visible: seq<TextElement>, i: nat, j: nat, p: nat, end: nat)
    requires j <= |visible|
  {
    forall k :: i <= k < j ==> Touched(visible, k, p, end)
  }

  /** A plan replaces the visible elements from `i` to `j` by `replacement`: the result reads `next`, and
      each replaced element reaches into the span between the common prefix and the common suffix. */
  ghost predicate IsPlan(visible: seq<TextElement>, next: string, i: nat, j: nat, replacement: string) {
    && i <= j <= |visible|
    && Joined(visible[..i]) + replacement + Joined(visible[j..]) == next
    && exists p: nat, q: nat, end: nat ::
         && LongestCommonPrefix(Joined(visible), next, p) && LongestCommonSuffix(Joined(visible), next, p, q)
         && end + q == |Joined(visible)| && AllTouched(visible, i, j, p, end)
  }

  function Deletions(gone: seq<TextElement>): (r: seq<TextEdit>)
    ensures |r| == |gone|
  {
    seq(|gone|, k requires 0 <= k < |gone| => DeleteAtom(gone[k].atomId))
  }

  /** What the k-th insert of a chain comes after: the anchor, then the insert before it. */
  function ChainAfter(anchor: Option<string>, ids: seq<string>, k: nat): Option<string>
    requires k < |ids|
  {
    if k == 0 then anchor else Some(ids[k - 1])
  }

  /** One insert per character, each after the one before. */
  function Chain(anchor: Option<string>, text: string, ids: seq<string>): (r: seq<TextEdit>)
    requires |ids| == |text|
    ensures |r| == |text|
  {
    seq(|text|, k requires 0 <= k < |text| => InsertAtom(ids[k], ChainAfter(anchor, ids, k), [text[k]]))
  }

  function AnchorOf(visible: seq<TextElement>, i: nat): Option<string>
    requires i <= |visible|
  {
    if i == 0 then None else Some(visible[i - 1].atomId)
  }

  function Allocated(allocate: nat -> string, n: nat): (r: seq<string>)
    ensures |r| == n && forall k :: 0 <= k < n ==> r[k] == allocate(k)
  {
    seq(n, k requires 0 <= k < n => allocate(k))
  }

  function PlannedEdits(visible: seq<TextElement>, i: nat, j: nat, replacement: string,
                        allocate: nat -> string): seq<TextEdit>
    requires i <= j <= |visible|
  {
    Deletions(visible[i..j]) + Chain(AnchorOf(visible, i), replacement, Allocated(allocate, |replacement|))
  }

  // ---- the planner -------------------------------------------------------------------------

  lemma TakeOneMore(s: string, k: nat)
    requires k < |s|
    ensures s[..k + 1] == s[..k] + [s[k]]
  {
  }

  lemma DropOneLess(s: string, k: nat)
    requires k < |s|
    ensures s[k..] == [s[k]] + s[k + 1..]
  {
  }

  method CommonEnds(previous: string, next: string) returns (prefix: nat, suffix: nat)
    ensures LongestCommonPrefix(previous, next, prefix)
    ensures LongestCommonSuffix(previous, next, prefix, suffix)
  {
    prefix := 0;
    while prefix < |previous| && prefix < |next| && previous[prefix] == next[prefix]
      invariant prefix <= |previous| && prefix <= |next| && previous[..prefix] == next[..prefix]
    {
      TakeOneMore(previous, prefix);
      TakeOneMore(next, prefix);
      prefix := prefix + 1;
    }
    suffix := 0;
    while suffix < |previous| - prefix && suffix < |next| - prefix
          && previous[|previous| - 1 - suffix] == next[|next| - 1 - suffix]
      invariant prefix + suffix <= |previous| && prefix + suffix <= |next|
      invariant previous[|previous| - suffix..] == next[|next| - suffix..]
    {
      DropOneLess(previous, |previous| - 1 - suffix);
      DropOneLess(next, |next| - 1 - suffix);
      suffix := suffix + 1;
    }
  }

  /** Among the first `k` ranges those from `i` to `j` meet the span, and the span starts at or after `i`. */
  ghost predicate OverlapUpTo(visible: seq<TextElement>, ranges: seq<Range>, prefix: nat, oldEnd: nat, i: nat, j: nat,
                              k: nat) {
    && RangesOf(visible, ranges) && i <= j <= k <= |ranges|
    && (i == j ==> j == k && Offset(visible, k) <= prefix)
    && (i < j ==> ranges[i].start <= prefix && prefix < Offset(visible, k))
    && (i < j < k ==> oldEnd <= Offset(visible, j))
    && forall m :: 0 <= m < k ==> (i <= m < j <==> Meets(ranges[m], prefix, oldEnd))
  }

  predicate Meets(r: Range, prefix: nat, oldEnd: nat) { prefix < r.end && r.start < oldEnd }

  lemma OverlapStep(visible: seq<TextElement>, ranges: seq<Range>, prefix: nat, oldEnd: nat, i: nat, j: nat, k: nat)
    requires NonEmpty(visible) && prefix < oldEnd && OverlapUpTo(visible, ranges, prefix, oldEnd, i, j, k)
    requires k < |ranges|
    ensures Meets(ranges[k], prefix, oldEnd) ==> j == k && OverlapUpTo(visible, ranges, prefix, oldEnd, i, k + 1, k + 1)
    ensures !Meets(ranges[k], prefix, oldEnd) ==>
              if i == j then OverlapUpTo(visible, ranges, prefix, oldEnd, k + 1, k + 1, k + 1)
              else OverlapUpTo(visible, ranges, prefix, oldEnd, i, j, k + 1)
  {
    OffsetAscends(visible, k, k + 1);
    assert ranges[k] == Range(visible[k], Offset(visible, k), Offset(visible, k + 1));
    if j < k { OffsetAscends(visible, j, k); }
  }

  /** The elements meeting the open span from `prefix` to `oldEnd`, a contiguous run. */
  method Overlapping(visible: seq<TextElement>, ranges: seq<Range>, prefix: nat, oldEnd: nat)
    returns (affected: seq<Range>, ghost i: nat, ghost j: nat)
    requires NonEmpty(visible) && RangesOf(visible, ranges) && prefix < oldEnd <= |Joined(visible)|
    ensures i < j <= |ranges| && affected == ranges[i..j]
    ensures ranges[i].start <= prefix && oldEnd <= ranges[j - 1].end
    ensures forall k :: i <= k < j ==> prefix < ranges[k].end && ranges[k].start < oldEnd
    ensures forall r :: r in affected <==> r in ranges && prefix < r.end && r.start < oldEnd
  {
    affected, i, j := [], 0, 0;
    for k := 0 to |ranges|
      invariant OverlapUpTo(visible, ranges, prefix, oldEnd, i, j, k) && affected == ranges[i..j]
    {
      OverlapStep(visible, ranges, prefix, oldEnd, i, j, k);
      if prefix < ranges[k].end && ranges[k].start < oldEnd {
        affected := affected + [ranges[k]];
        RunGrows(ranges, i, k);
        j := k + 1;
      } else if i == j {
        i, j := k + 1, k + 1;
      }
    }
    OverlapEnds(visible, ranges, prefix, oldEnd, i, j);
    RunIsFilter(ranges, affected, prefix, oldEnd, i, j);
  }

  lemma OverlapEnds(visible: seq<TextElement>, ranges: seq<Range>, prefix: nat, oldEnd: nat, i: nat, j: nat)
    requires OverlapUpTo(visible, ranges, prefix, oldEnd, i, j, |ranges|) && prefix < oldEnd <= |Joined(visible)|
    ensures i < j && ranges[i].start <= prefix && oldEnd <= ranges[j - 1].end
  {
    assert visible[..|visible|] == visible;
    if i < j { assert ranges[j - 1].end == Offset(visible, j); }
  }

  lemma RunGrows(ranges: seq<Range>, i: nat, k: nat)
    requires i <= k < |ranges|
    ensures ranges[i..k] + [ranges[k]] == ranges[i..k + 1]
  {
  }

  lemma RunIsFilter(ranges: seq<Range>, affected: seq<Range>, prefix: nat, oldEnd: nat, i: nat, j: nat)
    requires i <= j <= |ranges| && affected == ranges[i..j]
    requires forall m :: 0 <= m < |ranges| ==> (i <= m < j <==> Meets(ranges[m], prefix, oldEnd))
    ensures forall r :: r in affected <==> r in ranges && Meets(r, prefix, oldEnd)
  {
    forall r | r in affected ensures r in ranges && Meets(r, prefix, oldEnd) {
      var m :| 0 <= m < |affected| && affected[m] == r;
      assert r == ranges[i + m];
    }
    forall r | r in ranges && Meets(r, prefix, oldEnd) ensures r in affected {
      var m :| 0 <= m < |ranges| && ranges[m] == r;
      assert r == affected[m - i];
    }
  }

  method Containing(visible: seq<TextElement>, ranges: seq<Range>, at: nat)
    returns (affected: seq<Range>, ghost i: nat, ghost j: nat)
    requires NonEmpty(visible) && RangesOf(visible, ranges) && at <= |Joined(visible)|
    ensures i <= j <= |ranges| && affected == ranges[i..j]
    ensures i == j ==> Offset(visible, i) == at
    ensures i < j ==> j == i + 1 && ranges[i].start < at < ranges[i].end
    ensures affected == [] ==> forall r :: r in ranges ==> !(r.start < at < r.end)
    ensures affected != [] ==> |affected| == 1 && affected[0] in ranges && affected[0].start < at < affected[0].end
  {
    affected, i, j := [], 0, 0;
    for k := 0 to |ranges|
      invariant i == j <= k && affected == []
      invariant forall m :: 0 <= m < k ==> !(ranges[m].start < at < ranges[m].end)
      invariant Offset(visible, i) <= at
      invariant i < k ==> Offset(visible, i) == at
    {
      assert ranges[k] == Range(visible[k], Offset(visible, k), Offset(visible, k + 1));
      if i < k { OffsetAscends(visible, i, k); }
      if ranges[k].start < at && ranges[k].end > at {
        assert ranges[k..k + 1] == [ranges[k]];
        affected, i, j := [ranges[k]], k, k + 1;
        return;
      }
      if i == k && ranges[k].end <= at { i, j := k + 1, k + 1; }
    }
    assert visible[..|visible|] == visible;
  }

  /** The last element ending at or before `boundary`. */
  method FindAnchor(visible: seq<TextElement>, ranges: seq<Range>, boundary: nat, ghost i: nat)
    returns (anchor: Option<string>)
    requires NonEmpty(visible) && RangesOf(visible, ranges) && i <= |visible| && Offset(visible, i) == boundary
    ensures anchor == AnchorOf(visible, i)
  {
    var k := |ranges|;
    while k > 0
      invariant i <= k <= |ranges|
    {
      k := k - 1;
      if ranges[k].end <= boundary {
        if i < k + 1 { OffsetAscends(visible, i, k + 1); }
        return Some(ranges[k].element.atomId);
      }
    }
    return None;
  }

  /** The elements an edit between `prefix` and `oldEnd` lands in: those it overlaps, or for a pure
      insertion the one containing the insertion point, if any. */
  method FindAffected(visible: seq<TextElement>, ranges: seq<Range>, prefix: nat, oldEnd: nat)
    returns (affected: seq<Range>, ghost i: nat, ghost j: nat)
    requires NonEmpty(visible) && RangesOf(visible, ranges) && prefix <= oldEnd <= |Joined(visible)|
    ensures i <= j <= |visible| && |affected| == j - i
    ensures forall k :: 0 <= k < |affected| ==> affected[k].element == visible[i + k]
    ensures Offset(visible, i) == (if affected == [] then prefix else affected[0].start)
    ensures Offset(visible, j) == (if affected == [] then oldEnd else affected[|affected| - 1].end)
    ensures Offset(visible, i) <= prefix && oldEnd <= Offset(visible, j)
    ensures AllTouched(visible, i, j, prefix, oldEnd)
  {
    if prefix < oldEnd {
      affected, i, j := Overlapping(visible, ranges, prefix, oldEnd);
    } else {
      affected, i, j := Containing(visible, ranges, prefix);
    }
    SliceTouched(visible, ranges, prefix, oldEnd, i, j);
    SliceElements(visible, ranges, affected, i, j);
  }

  lemma SliceTouched(visible: seq<TextElement>, ranges: seq<Range>, prefix: nat, oldEnd: nat, i: nat, j: nat)
    requires RangesOf(visible, ranges) && i <= j <= |ranges|
    requires forall k :: i <= k < j ==> prefix < ranges[k].end && ranges[k].start < oldEnd
    ensures AllTouched(visible, i, j, prefix, oldEnd)
  {
    forall k | i <= k < j ensures Touched(visible, k, prefix, oldEnd) {
      assert prefix < ranges[k].end && ranges[k].start < oldEnd;
    }
  }

  lemma SliceElements(visible: seq<TextElement>, ranges: seq<Range>, affected: seq<Range>, i: nat, j: nat)
    requires RangesOf(visible, ranges) && i <= j <= |ranges| && affected == ranges[i..j]
    ensures forall k :: 0 <= k < |affected| ==> affected[k].element == visible[i + k]
    ensures affected != []
            ==> affected[0].start == Offset(visible, i) && affected[|affected| - 1].end == Offset(visible, j)
  {
    forall k | 0 <= k < |affected|
      ensures affected[k] == Range(visible[i + k], Offset(visible, i + k), Offset(visible, i + k + 1))
    {
      assert affected[k] == ranges[i + k];
    }
  }

  /** `planTextReplacement`; `allocate(k)` is the k-th id it is given. */
  method PlanTextReplacement(state: TextState, next: string, allocate: nat -> string)
    returns (edits: seq<TextEdit>, ghost i: nat, ghost j: nat, ghost replacement: string)
    requires NonEmpty(state.visible) && state.text == Joined(state.visible)
    ensures next == state.text ==> edits == []
    ensures IsPlan(state.visible, next, i, j, replacement)
    ensures edits == PlannedEdits(state.visible, i, j, replacement, allocate)
  {
    var visible, previous := state.visible, state.text;
    if next == previous {
      edits, i, j, replacement := [], 0, 0, "";
      assert visible[0..] == visible && Joined(visible[..0]) + "" + Joined(visible) == next;
      assert LongestCommonPrefix(previous, next, |next|) && LongestCommonSuffix(previous, next, |next|, 0);
      assert |next| + 0 == |Joined(visible)| && AllTouched(visible, 0, 0, |next|, |next|);
      return;
    }
    var prefix, suffix := CommonEnds(previous, next);
    var oldEnd := |previous| - suffix;
    var ranges := CodePointRanges(visible);
    var affected;
    affected, i, j := FindAffected(visible, ranges, prefix, oldEnd);
    var boundaryStart := if affected == [] then prefix else affected[0].start;
    var boundaryEnd := if affected == [] then oldEnd else affected[|affected| - 1].end;
    OffsetBounded(visible, i);
    OffsetBounded(visible, j);
    var nextBoundaryEnd := |next| - (|previous| - boundaryEnd);
    SpliceReads(previous, next, prefix, suffix, boundaryStart, boundaryEnd);
    var text := next[boundaryStart..nextBoundaryEnd];
    replacement := text;
    PlanReads(visible, next, i, j, replacement, prefix, suffix, oldEnd);
    var anchor := FindAnchor(visible, ranges, boundaryStart, i);
    edits := BuildEdits(visible, affected, i, j, anchor, text, allocate);
  }

  lemma PlanReads(visible: seq<TextElement>, next: string, i: nat, j: nat, replacement: string, p: nat, q: nat,
                  end: nat)
    requires i <= j <= |visible|
    requires Offset(visible, i) <= |Joined(visible)| && Offset(visible, j) <= |Joined(visible)|
    requires Joined(visible)[..Offset(visible, i)] + replacement + Joined(visible)[Offset(visible, j)..] == next
    requires LongestCommonPrefix(Joined(visible), next, p) && LongestCommonSuffix(Joined(visible), next, p, q)
    requires end + q == |Joined(visible)| && AllTouched(visible, i, j, p, end)
    ensures IsPlan(visible, next, i, j, replacement)
  {
    OffsetSlices(visible, i);
    OffsetSlices(visible, j);
  }

  method BuildEdits(visible: seq<TextElement>, affected: seq<Range>, ghost i: nat, ghost j: nat, anchor: Option<string>,
                    text: string, allocate: nat -> string)
    returns (edits: seq<TextEdit>)
    requires i <= j <= |visible| && |affected| == j - i && anchor == AnchorOf(visible, i)
    requires forall k :: 0 <= k < |affected| ==> affected[k].element == visible[i + k]
    ensures edits == PlannedEdits(visible, i, j, text, allocate)
  {
    edits := [];
    ghost var gone := Deletions(visible[i..j]);
    for k := 0 to |affected|
      invariant edits == gone[..k]
    {
      edits := edits + [DeleteAtom(affected[k].element.atomId)];
    }
    ghost var ids := Allocated(allocate, |text|);
    var after := anchor;
    ghost var chain := Chain(anchor, text, ids);
    for k := 0 to |text|
      invariant edits == gone + chain[..k]
      invariant after == (if k == 0 then anchor else Some(ids[k - 1]))
    {
      var atomId := allocate(k);
      edits := edits + [InsertAtom(atomId, after, [text[k]])];
      after := Some(atomId);
    }
  }

  /** Keeping at most the common prefix before a cut and at most the common suffix after it splices
      exactly. */
  lemma SpliceReads(previous: string, next: string, p: nat, q: nat, start: nat, end: nat)
    requires LongestCommonPrefix(previous, next, p) && LongestCommonSuffix(previous, next, p, q)
    requires start <= p && |previous| - q <= end <= |previous|
    ensures start <= |next| - (|previous| - end) <= |next|
    ensures previous[..start] + next[start..|next| - (|previous| - end)] + previous[end..] == next
  {
    var cut := |next| - (|previous| - end);
    assert previous[..start] == previous[..p][..start] == next[..p][..start] == next[..start];
    assert previous[end..] == previous[|previous| - q..][end - (|previous| - q)..];
    assert next[cut..] == next[|next| - q..][cut - (|next| - q)..];
    assert next == next[..start] + next[start..cut] + next[cut..];
  }
}
