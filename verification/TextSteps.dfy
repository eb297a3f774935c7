/** The steps of a mounted text document: what destinations send and echo, and how the store, the
    assembler and minted operations stay in step. */
module TextSteps {
  import opened Wrappers
  import opened Orders
  import opened AtomIds
  import opened TextOps
  import opened Fold
  import opened Projection
  import opened Planner
  import opened Normalise
  import opened Assembler
  import opened Minting
  import opened Document
  import opened Runs
  import opened Store

  datatype MountError = InvalidText | AllocationFailed | SendFailed

  /** What one call of a destination's `send` does: the operations it echoes synchronously, in one callback,
      then its operation's identity, or a failure. */
  datatype Sending =
    | Sent(echoed: seq<TextOp>, origin: string, seqNo: int, lamport: int, refs: seq<Head>)
    | Failed(echoed: seq<TextOp>)

  function SentOp(s: Sending, edit: TextEdit): TextOp
    requires s.Sent?
  {
    StoredOp(s.origin, s.seqNo, s.lamport, s.refs, EditPayload(edit))
  }

  /** How many of the first `n` sends succeed before one fails or the script ends. */
  function Succeeding(sends: seq<Sending>, n: nat): (k: nat)
    ensures k <= n && k <= |sends|
    ensures forall i :: 0 <= i < k ==> sends[i].Sent?
    ensures k < n ==> k == |sends| || sends[k].Failed?
  {
    if n == 0 || sends == [] || sends[0].Failed? then 0 else 1 + Succeeding(sends[1..], n - 1)
  }

  /** The operations of the first `k` sends. */
  function SentOps(sends: seq<Sending>, edits: seq<TextEdit>, k: nat): (r: seq<TextOp>)
    requires k <= |sends| && k <= |edits| && forall i :: 0 <= i < k ==> sends[i].Sent?
    ensures |r| == k && forall i :: 0 <= i < k ==> r[i] == SentOp(sends[i], edits[i])
  {
    seq(k, i requires 0 <= i < k => SentOp(sends[i], edits[i]))
  }

  /** The batch the replacement loop collects: each send's echoes, then its operation. */
  function Collected(sends: seq<Sending>, edits: seq<TextEdit>, k: nat): seq<TextOp>
    requires k <= |sends| && k <= |edits| && forall i :: 0 <= i < k ==> sends[i].Sent?
  {
    if k == 0 then [] else Collected(sends, edits, k - 1) + sends[k - 1].echoed + [SentOp(sends[k - 1], edits[k - 1])]
  }

  /** What the send that stopped the loop had echoed before it failed. */
  function Aftermath(sends: seq<Sending>, n: nat): seq<TextOp> {
    var k := Succeeding(sends, n);
    if k < n && k < |sends| then sends[k].echoed else []
  }

  /** The whole batch: what the successful sends gave, then what the failing one echoed. */
  function Gathered(sends: seq<Sending>, edits: seq<TextEdit>): seq<TextOp> {
    Collected(sends, edits, Succeeding(sends, |edits|)) + Aftermath(sends, |edits|)
  }

  /** Send by send: what was collected before, then what it echoed, then the operation it answered with. */
  lemma {:induction false} CollectedInTurn(sends: seq<Sending>, edits: seq<TextEdit>, k: nat, i: nat)
    requires i < k <= |sends| && k <= |edits| && forall j :: 0 <= j < k ==> sends[j].Sent?
    ensures var s := sends[i];
            var op := StoredOp(s.origin, s.seqNo, s.lamport, s.refs, EditPayload(edits[i]));
            Collected(sends, edits, i) + s.echoed + [op] <= Collected(sends, edits, k)
    ensures Collected(sends, edits, 0) == []
    decreases k
  {
    if i < k - 1 { CollectedInTurn(sends, edits, k - 1, i); }
  }

  /** Every echo is of an operation sent so far, the current one included. */
  predicate OnlyEchoes(sends: seq<Sending>, edits: seq<TextEdit>, k: nat)
    requires k <= |sends| && k <= |edits| && forall i :: 0 <= i < k ==> sends[i].Sent?
  {
    forall i, j :: 0 <= i < k && 0 <= j < |sends[i].echoed| ==> sends[i].echoed[j] in SentOps(sends, edits, i + 1)
  }

  lemma {:induction false} FreshAppend(h: seq<TextOp>, a: seq<TextOp>, b: seq<TextOp>)
    ensures FreshOf(h, a + b) == FreshOf(h, a) + FreshOf(h + FreshOf(h, a), b)
  {
    if b == [] {
      assert a + b == a;
    } else {
      var init, op := b[..|b| - 1], b[|b| - 1];
      assert (a + b)[..|a + b| - 1] == a + init;
      FreshAppend(h, a, init);
      var x, y := FreshOf(h, a), FreshOf(h + FreshOf(h, a), init);
      KeyConcat(h, x, Key(op));
      KeyConcat(x, y, Key(op));
    }
  }

  lemma {:induction false} FreshNone(h: seq<TextOp>, ops: seq<TextOp>)
    requires forall op :: op in ops ==> HasKey(h, Key(op))
    ensures FreshOf(h, ops) == []
  {
    if ops != [] {
      FreshNone(h, ops[..|ops| - 1]);
      assert ops[|ops| - 1] in ops;
    }
  }

  lemma FreshNoneExactly(h: seq<TextOp>, ops: seq<TextOp>)
    ensures FreshOf(h, ops) == [] <==> AllHeld(h, ops)
  {
    if AllHeld(h, ops) { FreshNone(h, ops); }
    if FreshOf(h, ops) == [] {
      assert h + [] == h;
      forall op | op in ops ensures HasKey(h, Key(op)) {
        var i :| 0 <= i < |ops| && ops[i] == op;
        FreshHas(h, ops, Key(op));
      }
    }
  }

  predicate AllHeld(h: seq<TextOp>, ops: seq<TextOp>) {
    forall op :: op in ops ==> HasKey(h, Key(op))
  }

  /** Of operations `sent` and then `rest`, exactly `sent` lands if and only if it is all new and distinct and
      `rest` adds nothing to it. */
  lemma ExactlyFirst(h: seq<TextOp>, sent: seq<TextOp>, rest: seq<TextOp>)
    requires UniqueKeys(h)
    ensures h + FreshOf(h, sent + rest) == h + sent <==> UniqueKeys(h + sent) && AllHeld(h + sent, rest)
  {
    var novel := FreshOf(h, sent);
    FreshAppend(h, sent, rest);
    FreshDescribed(h, sent + rest);
    if UniqueKeys(h + sent) {
      FreshIsFresh(h, sent);
      FreshNoneExactly(h + sent, rest);
      SamePrefix(h, sent + FreshOf(h + sent, rest), sent);
    }
  }

  lemma SamePrefix(h: seq<TextOp>, a: seq<TextOp>, b: seq<TextOp>)
    ensures h + a == h + b <==> a == b
  {
    if h + a == h + b {
      assert a == (h + a)[|h|..] && b == (h + b)[|h|..];
    }
  }

  /** Echoes of operations sent in the same batch land once, in sending order. */
  lemma {:induction false} EchoesAddNothing(h: seq<TextOp>, sends: seq<Sending>, edits: seq<TextEdit>, k: nat)
    requires UniqueKeys(h) && k <= |sends| && k <= |edits| && forall i :: 0 <= i < k ==> sends[i].Sent?
    requires OnlyEchoes(sends, edits, k)
    ensures FreshOf(h, Collected(sends, edits, k)) == FreshOf(h, SentOps(sends, edits, k))
  {
    if k > 0 {
      var prior, op, echo := SentOps(sends, edits, k - 1), SentOp(sends[k - 1], edits[k - 1]), sends[k - 1].echoed;
      EchoesAddNothing(h, sends, edits, k - 1);
      assert SentOps(sends, edits, k) == prior + [op];
      forall x | x in echo ensures x in prior + [op] {
        var j :| 0 <= j < |echo| && echo[j] == x;
        assert sends[k - 1].echoed[j] in SentOps(sends, edits, k);
      }
      EchoStep(h, Collected(sends, edits, k - 1), prior, echo, op);
    }
  }

  lemma EchoStep(h: seq<TextOp>, c: seq<TextOp>, prior: seq<TextOp>, echo: seq<TextOp>, op: TextOp)
    requires FreshOf(h, c) == FreshOf(h, prior) && forall x :: x in echo ==> x in prior + [op]
    ensures FreshOf(h, c + echo + [op]) == FreshOf(h, prior + [op])
  {
    assert c + echo + [op] == c + (echo + [op]);
    FreshAppend(h, c, echo + [op]);
    FreshAppend(h, prior, [op]);
    forall x | x in echo ensures HasKey(h + FreshOf(h, prior), Key(x)) || x == op { EchoIsHeld(h, prior, op, x); }
    EchoedOnce(h + FreshOf(h, prior), echo, op);
  }

  lemma EchoIsHeld(h: seq<TextOp>, prior: seq<TextOp>, op: TextOp, x: TextOp)
    requires x in prior + [op]
    ensures HasKey(h + FreshOf(h, prior), Key(x)) || x == op
  {
    if x != op {
      var m :| 0 <= m < |prior| && prior[m] == x;
      FreshHas(h, prior, Key(x));
    }
  }

  lemma FreshSingle(held: seq<TextOp>, op: TextOp)
    ensures FreshOf(held, [op]) == (if HasKey(held, Key(op)) then [] else [op]) && HasKey([op], Key(op))
  {
    assert [op][..0] == [] && [op][0] == op;
    assert FreshOf(held, []) == [];
  }

  lemma {:induction false} EchoFresh(held: seq<TextOp>, echo: seq<TextOp>, op: TextOp)
    requires forall x :: x in echo ==> HasKey(held, Key(x)) || x == op
    ensures FreshOf(held, echo) == (if op in echo then FreshOf(held, [op]) else [])
  {
    if echo != [] {
      var init, x := echo[..|echo| - 1], echo[|echo| - 1];
      SplitLast(echo);
      EchoFresh(held, init, op);
      EchoNext(held, init, x, op);
    }
  }

  lemma SplitLast(ops: seq<TextOp>)
    requires ops != []
    ensures ops == ops[..|ops| - 1] + [ops[|ops| - 1]] && ops[|ops| - 1] in ops
    ensures forall y :: y in ops[..|ops| - 1] ==> y in ops
  {
  }

  lemma EchoNext(held: seq<TextOp>, init: seq<TextOp>, x: TextOp, op: TextOp)
    requires HasKey(held, Key(x)) || x == op
    requires FreshOf(held, init) == (if op in init then FreshOf(held, [op]) else [])
    ensures FreshOf(held, init + [x]) == (if op in init + [x] then FreshOf(held, [op]) else [])
  {
    FreshSingle(held, op);
    assert (init + [x])[..|init|] == init && x in init + [x];
    if x != op { assert op in init + [x] <==> op in init; }
  }

  lemma EchoedOnce(held: seq<TextOp>, echo: seq<TextOp>, op: TextOp)
    requires forall x :: x in echo ==> HasKey(held, Key(x)) || x == op
    ensures FreshOf(held, echo + [op]) == FreshOf(held, [op])
    ensures FreshOf(held, echo) == (if op in echo then FreshOf(held, [op]) else [])
  {
    FreshSingle(held, op);
    EchoFresh(held, echo, op);
    assert (echo + [op])[..|echo|] == echo;
  }

  // ---- the store and the assembler stay in step ---------------------------------------------

  lemma {:induction false} FreshSameKeys(a: seq<TextOp>, b: seq<TextOp>, ops: seq<TextOp>)
    requires forall k :: HasKey(a, k) <==> HasKey(b, k)
    ensures FreshOf(a, ops) == FreshOf(b, ops)
  {
    if ops != [] { FreshSameKeys(a, b, ops[..|ops| - 1]); }
  }

  lemma FreshLast(h: seq<TextOp>, init: seq<TextOp>, op: TextOp)
    requires FreshOf(h, init) == init && !HasKey(h + init, Key(op))
    ensures FreshOf(h, init + [op]) == init + [op]
  {
    KeyConcat(h, init, Key(op));
    assert (init + [op])[..|init|] == init;
  }

  lemma {:induction false} FreshIsFresh(h: seq<TextOp>, novel: seq<TextOp>)
    requires UniqueKeys(h + novel)
    ensures FreshOf(h, novel) == novel
    decreases |novel|
  {
    if novel != [] {
      var init, op := novel[..|novel| - 1], novel[|novel| - 1];
      assert novel == init + [op];
      assert h + novel == (h + init) + [op];
      PrefixUnique(h + init, op);
      LastKeyNew(h + init, op);
      FreshIsFresh(h, init);
      FreshLast(h, init, op);
    }
  }

  lemma PrefixUnique(init: seq<TextOp>, op: TextOp)
    requires UniqueKeys(init + [op])
    ensures UniqueKeys(init)
  {
    var all := init + [op];
    forall i, j | 0 <= i < j < |init| ensures Key(init[i]) != Key(init[j]) {
      assert all[i] == init[i] && all[j] == init[j];
    }
  }

  lemma LastKeyNew(init: seq<TextOp>, op: TextOp)
    requires UniqueKeys(init + [op])
    ensures !HasKey(init, Key(op))
  {
    var all := init + [op];
    assert forall i :: 0 <= i < |init| ==> all[i] == init[i] && Key(all[i]) != Key(all[|init|]);
  }

  lemma SameLogKeys(a: seq<TextOp>, b: seq<TextOp>)
    requires SameLog(a, b)
    ensures forall k :: HasKey(a, k) <==> HasKey(b, k)
  {
    KeysWithin(a, b);
    KeysWithin(b, a);
  }

  lemma MatchesAppend(a: seq<TextOp>, b: seq<TextOp>, novel: seq<TextOp>)
    requires Matches(a, b)
    ensures Matches(a + novel, b + novel)
  {
    forall i | 0 <= i < |a + novel| ensures InLog(b + novel, (a + novel)[i]) {
      if i < |a| {
        assert InLog(b, a[i]);
        var j :| 0 <= j < |b| && SameOp(b[j], a[i]);
        assert SameOp((b + novel)[j], (a + novel)[i]);
      } else {
        assert SameOp((b + novel)[|b| + (i - |a|)], (a + novel)[i]);
      }
    }
  }

  /** What the assembler gains from a landed delta is the delta. */
  lemma StepTogether(history: seq<TextOp>, store: seq<TextOp>, delta: seq<TextOp>)
    requires SameLog(history, store) && UniqueKeys(history) && UniqueKeys(store + delta)
    ensures history + FreshOf(history, delta) == history + delta
    ensures SameLog(history + delta, store + delta)
  {
    SameLogKeys(history, store);
    FreshSameKeys(history, store, delta);
    FreshIsFresh(store, delta);
    MatchesAppend(history, store, delta);
    MatchesAppend(store, history, delta);
  }

  // ---- inserted texts are never empty ---------------------------------------------------------

  ghost predicate ProperAtoms(st: Folded) {
    forall id :: id in st.atoms ==> id != "" && st.atoms[id].text != ""
  }

  lemma {:induction false} FoldProper(less: (string, string) -> bool, ops: seq<CrdtOp>)
    requires forall op :: op in ops ==> ProperEdit(op.edit)
    ensures ProperAtoms(FoldOps(less, EMPTY, ops))
  {
    if ops != [] {
      FoldProper(less, ops[..|ops| - 1]);
      assert ops[|ops| - 1] in ops;
    }
  }

  lemma AssembledProper(profile: Profile, ops: seq<TextOp>)
    requires AllValid(ops) && UniqueKeys(ops)
    ensures ProperAtoms(FoldOf(profile, ops))
    ensures NonEmpty(AssembleText(profile, ops).visible)
    ensures AssembleText(profile, ops).text == Joined(AssembleText(profile, ops).visible)
    ensures forall e :: e in AssembleText(profile, ops).visible ==> e.atomId != ""
  {
    var d, feed := NodeOf(ops).delivered, FullFeed(ops);
    FeedDistinct(ops, Bases(ops));
    Delivery.FeedHolds(feed);
    forall op | op in d ensures ProperEdit(op.edit) {
      assert op in Elements(d);
      assert op in feed;
      var i :| 0 <= i < |feed| && feed[i] == op;
      assert ValidOp(ops[i]);
    }
    FoldProper(profile.less, d);
    ProjectedText(profile.decode, FoldOf(profile, ops));
  }

  // ---- minted operations follow what is held -----------------------------------------------

  lemma KeyHeldValid(ops: seq<TextOp>, o: string, n: int)
    requires AllValid(ops) && HasKey(ops, (o, n))
    ensures 0 <= n <= MAX_SAFE
  {
    var i :| 0 <= i < |ops| && Key(ops[i]) == (o, n);
    assert ValidOp(ops[i]);
  }

  lemma OriginOfBase(ops: seq<TextOp>, o: string) returns (i: nat)
    requires o in Bases(ops)
    ensures i < |ops| && ops[i].origin == o
  {
    BasesDescribed(ops);
    i :| 0 <= i < |ops| && ops[i].origin == o;
  }

  lemma NextKeyNew(ops: seq<TextOp>, o: string)
    requires AllValid(ops)
    ensures !HasKey(ops, (o, MaxSeq(ops, o) + 1))
    ensures o in Bases(ops) ==> HasKey(ops, (o, MaxSeq(ops, o)))
  {
    NoneAbove(ops, o, MaxSeq(ops, o) + 1);
    if o in Bases(ops) { MaxHeld(ops, o); }
  }

  lemma NoneAbove(ops: seq<TextOp>, o: string, n: int)
    requires MaxSeq(ops, o) < n
    ensures !HasKey(ops, (o, n))
  {
    MaxWithin(ops, o);
    forall i | 0 <= i < |ops| ensures Key(ops[i]) != (o, n) {
      assert ops[i].origin == o ==> ops[i].seqNo <= MaxSeq(ops, o);
    }
  }

  lemma MaxHeld(ops: seq<TextOp>, o: string)
    requires AllValid(ops) && o in Bases(ops)
    ensures HasKey(ops, (o, MaxSeq(ops, o)))
  {
    MaxWithin(ops, o);
    if MaxSeq(ops, o) == 0 {
      var i := OriginOfBase(ops, o);
      assert ValidOp(ops[i]);
      assert Key(ops[i]) == (o, 0);
    } else {
      var i :| 0 <= i < |ops| && ops[i].origin == o && ops[i].seqNo == MaxSeq(ops, o);
      assert Key(ops[i]) == (o, MaxSeq(ops, o));
    }
  }

  lemma MintedFollows(less: (string, string) -> bool, ops: seq<TextOp>, op: TextOp)
    requires StrictTotal(less) && AllValid(ops) && op.seqNo == MaxSeq(ops, op.origin) + 1
    requires op.lamport == MaxLamport(ops) + 1
    requires op.refs == HeadsOf(less, Latest(ops)) && DecodeTextEdit(op.payload).Some? && op.seqNo <= MAX_SAFE
    ensures Follows(ops, op)
  {
    MaxWithin(ops, op.origin);
    NextKeyNew(ops, op.origin);
    HeadsAll(less, ops);
    forall i | 0 <= i < |op.refs| ensures 0 <= op.refs[i].seqNo <= MAX_SAFE {
      KeyHeldValid(ops, op.refs[i].origin, op.refs[i].seqNo);
    }
  }

  lemma {:induction false} BatchFollows(less: (string, string) -> bool, origin: string, ops: seq<TextOp>,
                                        edits: seq<TextEdit>)
    requires StrictTotal(less) && AllValid(ops) && AllValid(MintBatch(less, origin, ops, edits))
    ensures FollowsAll(ops, MintBatch(less, origin, ops, edits))
    decreases |edits|
  {
    if edits != [] {
      var batch := MintBatch(less, origin, ops, edits);
      var op := BatchFirst(less, origin, ops, edits);
      assert ValidOp(batch[0]);
      MintedFollows(less, ops, op);
      assert batch[1..] == MintBatch(less, origin, ops + [op], edits[1..]);
      forall i | 0 <= i < |batch[1..]| ensures ValidOp(batch[1..][i]) { assert ValidOp(batch[i + 1]); }
      BatchFollows(less, origin, ops + [op], edits[1..]);
    }
  }

  lemma {:induction false} FollowersUnique(ops: seq<TextOp>, more: seq<TextOp>, all: seq<TextOp>)
    requires UniqueKeys(ops) && FollowsAll(ops, more) && all == ops + more
    ensures UniqueKeys(all)
    decreases |more|
  {
    if more == [] {
      assert all == ops;
    } else {
      AppendShift(ops, more, all);
      assert forall i :: 0 <= i < |ops| ==> Key(ops[i]) != Key(more[0]);
      FollowersUnique(ops + [more[0]], more[1..], all);
    }
  }
}
