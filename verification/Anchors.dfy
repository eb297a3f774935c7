/** What an operation names is delivered before it: over runs of replicas whose operations refer to all heads, for
    a node that is fed any of them in any order. */
module Anchors {
  import opened Wrappers
  import opened Orders
  import opened AtomIds
  import opened TextOps
  import opened Fold
  import opened Delivery
  import opened Projection
  import opened Planner
  import opened Replacement
  import opened Normalise
  import opened Assembler
  import opened Minting
  import opened Document
  import opened Runs
  import opened TextSteps
  import opened Merging
  import opened Authorship
  import opened Replicas
  import T = TextInstance

  /** The atom an operation names: the one it deletes, or the one it inserts after. */
  function Named(op: TextOp): Option<string> {
    match op.payload
    case EditPayload(DeleteAtom(id)) => Some(id)
    case EditPayload(InsertAtom(_, after, _)) => after
    case Malformed => None
  }

  predicate InsertsAtom(op: TextOp, id: string) { IsInsert(op) && op.payload.edit.atomId == id }

  /** `log` holds the insert of `id`, and the operation refers to it or to a later one of its origin. */
  ghost predicate KnowsOf(log: Log, op: TextOp, id: string) {
    exists x :: x in log && InsertsAtom(x, id) && Refers(op.refs, x)
  }

  ghost predicate Known(log: Log, op: TextOp) { Named(op).Some? ==> KnowsOf(log, op, Named(op).value) }

  /** Every operation of the log refers to the insert of what it names. */
  ghost predicate Anchored(log: Log) {
    forall op {:trigger Known(log, op)} :: op in log ==> Known(log, op)
  }

  // ---- a node that is fed such operations ---------------------------------------------------------------------

  /** With an operation, everything of its origin from the first one on was delivered before. */
  lemma {:induction false} DownTheChain(d: seq<CrdtOp>, k: nat, o: string, n: int, m: int)
    requires Causal(d) && k <= |d| && Has(d[..k], o, n) && 1 <= m <= n
    ensures Has(d[..k], o, m)
    decreases n
  {
    if m < n {
      OneDown(d, k, o, n);
      DownTheChain(d, k, o, n - 1, m);
    }
  }

  lemma OneDown(d: seq<CrdtOp>, k: nat, o: string, n: int)
    requires Causal(d) && k <= |d| && Has(d[..k], o, n) && 1 < n
    ensures Has(d[..k], o, n - 1)
  {
    var j :| 0 <= j < k && OpKey(d[..k][j]) == (o, n);
    assert Ready(d[j], d[..j]);
    HasWithin(d, j, k, o, n - 1);
  }

  lemma HasWithin(d: seq<CrdtOp>, j: nat, k: nat, o: string, n: int)
    requires j <= k <= |d| && Has(d[..j], o, n)
    ensures Has(d[..k], o, n)
  {
    var i :| 0 <= i < j && OpKey(d[..j][i]) == (o, n);
    assert d[..k][i] == d[..j][i];
  }

  lemma FedFrom(part: Log, bases: BaseMap, c: CrdtOp) returns (i: nat)
    requires AllValid(part) && UniqueKeys(part) && c in Feed(EMPTY_NODE, NormaliseAll(part, bases)).delivered
    ensures i < |part| && c == NormaliseOp(part[i], bases)
  {
    var feed := NormaliseAll(part, bases);
    FeedDistinct(part, bases);
    FeedHolds(feed);
    assert c in Elements(Feed(EMPTY_NODE, feed).delivered);
    assert c in feed;
    i :| 0 <= i < |feed| && feed[i] == c;
  }

  /** The normalised sequence of `x` is among the dependencies of an operation that refers to it, or below one. */
  lemma ReferenceKept(op: TextOp, x: TextOp, bases: BaseMap)
    requires ValidOp(op) && Refers(op.refs, x) && BaseFor(bases, x.origin) <= x.seqNo
    ensures var c := NormaliseOp(op, bases);
            x.origin in c.deps && 1 <= CrdtSequence(x.origin, x.seqNo, bases) <= c.deps[x.origin]
  {
    ClockDescribed(op.refs, bases);
  }

  /** Fed in any order and normalised by any bases no higher than `x`: an operation that refers to `x` is delivered
      only after `x`, so never without it. */
  lemma ReferredFirst(part: Log, bases: BaseMap, k: nat, op: TextOp, x: TextOp) returns (j: nat)
    requires AllValid(part) && UniqueKeys(part) && ValidOp(op) && Refers(op.refs, x)
    requires (forall z :: z in part && Key(z) == Key(x) ==> z == x) && BaseFor(bases, x.origin) <= x.seqNo
    requires var d := Feed(EMPTY_NODE, NormaliseAll(part, bases)).delivered;
             k < |d| && d[k] == NormaliseOp(op, bases)
    ensures x in part && ValidOp(x) && j < k
    ensures Feed(EMPTY_NODE, NormaliseAll(part, bases)).delivered[j] == NormaliseOp(x, bases)
  {
    var d := Feed(EMPTY_NODE, NormaliseAll(part, bases)).delivered;
    FeedDistinct(part, bases);
    FeedHolds(NormaliseAll(part, bases));
    ReferenceKept(op, x, bases);
    j := DependencyAt(d, k, x.origin, CrdtSequence(x.origin, x.seqNo, bases));
    assert d[j] in d;
    var i := FedFrom(part, bases, d[j]);
    SameKey(part[i], x, bases);
    assert part[i] in part;
  }

  lemma SameKey(a: TextOp, b: TextOp, bases: BaseMap)
    requires ValidOp(a)
    requires OpKey(NormaliseOp(a, bases)) == (b.origin, CrdtSequence(b.origin, b.seqNo, bases))
    ensures Key(a) == Key(b)
  {
  }

  lemma DependencyAt(d: seq<CrdtOp>, k: nat, o: string, n: int) returns (j: nat)
    requires Causal(d) && k < |d| && o in d[k].deps && 1 <= n <= d[k].deps[o]
    ensures j < k && OpKey(d[j]) == (o, n)
  {
    assert Ready(d[k], d[..k]);
    DownTheChain(d, k, o, d[k].deps[o], n);
    j :| 0 <= j < k && OpKey(d[..k][j]) == (o, n);
  }

  // ---- a replacement knows what it names --------------------------------------------------------------------------

  lemma ShownInserted(profile: Profile, ops: Log, visible: seq<TextElement>, m: nat) returns (x: TextOp)
    requires StrictTotal(profile.less) && Settled(ops) && visible == AssembleText(profile, ops).visible && m < |visible|
    ensures x in ops && InsertsAtom(x, visible[m].atomId)
  {
    ProjectedText(profile.decode, FoldOf(profile, ops));
    assert visible[m] in visible;
    var i := AtomInserted(profile, ops, visible[m].atomId);
    x := ops[i];
  }

  /** What the k-th planned edit names was inserted by what is held, or by the operation before it. */
  lemma PlannedNames(profile: Profile, ops: Log, more: Log, visible: seq<TextElement>, i: nat, j: nat, text: string,
                     allocate: nat -> string, k: nat) returns (x: TextOp)
    requires StrictTotal(profile.less) && Settled(ops) && visible == AssembleText(profile, ops).visible
    requires i <= j <= |visible| && Issues(more, PlannedEdits(visible, i, j, text, allocate))
    requires k < |more| && Named(more[k]).Some?
    ensures InsertsAtom(x, Named(more[k]).value) && (x in ops || (0 < k && x == more[k - 1]))
  {
    EditNames(visible, i, j, text, allocate, k);
    assert more[k].payload == EditPayload(PlannedEdits(visible, i, j, text, allocate)[k]);
    if k <= j - i {
      x := ShownInserted(profile, ops, visible, if k < j - i then i + k else i - 1);
    } else {
      x := PriorInsert(more, PlannedEdits(visible, i, j, text, allocate), k);
    }
  }

  lemma PriorInsert(more: Log, edits: seq<TextEdit>, k: nat) returns (x: TextOp)
    requires Issues(more, edits) && 0 < k < |more| && edits[k].InsertAtom? && edits[k - 1].InsertAtom?
    requires edits[k].after == Some(edits[k - 1].atomId)
    ensures x == more[k - 1] && Named(more[k]).Some? && InsertsAtom(x, Named(more[k]).value)
  {
    x := more[k - 1];
    assert x.payload == EditPayload(edits[k - 1]) && more[k].payload == EditPayload(edits[k]);
  }

  /** A deletion names what it deletes, the first insert the anchor if there is one, any other the insert before. */
  lemma EditNames(visible: seq<TextElement>, i: nat, j: nat, text: string, allocate: nat -> string, k: nat)
    requires i <= j <= |visible| && k < |PlannedEdits(visible, i, j, text, allocate)|
    ensures var edits := PlannedEdits(visible, i, j, text, allocate);
            if k < j - i then edits[k] == DeleteAtom(visible[i + k].atomId)
            else
              && edits[k].InsertAtom?
              && if k == j - i then edits[k].after == if i == 0 then None else Some(visible[i - 1].atomId)
                 else edits[k - 1].InsertAtom? && edits[k].after == Some(edits[k - 1].atomId)
  {
    var edits, chain := PlannedEdits(visible, i, j, text, allocate),
                        Chain(AnchorOf(visible, i), text, Allocated(allocate, |text|));
    if k < j - i {
      assert edits[k] == Deletions(visible[i..j])[k];
    } else {
      assert edits[k] == chain[k - (j - i)];
      if k > j - i { assert edits[k - 1] == chain[k - 1 - (j - i)]; }
    }
  }

  lemma KnowsMore(log: Log, all: Log, op: TextOp)
    requires Known(log, op) && forall x :: x in log ==> x in all
    ensures Known(all, op)
  {
    if Named(op).Some? {
      var x :| x in log && InsertsAtom(x, Named(op).value) && Refers(op.refs, x);
      assert x in all;
    }
  }

  lemma NamedKnown(profile: Profile, ops: Log, more: Log, visible: seq<TextElement>, i: nat, j: nat,
                   text: string, allocate: nat -> string, k: nat)
    requires StrictTotal(profile.less) && Settled(ops) && visible == AssembleText(profile, ops).visible
    requires i <= j <= |visible| && Issues(more, PlannedEdits(visible, i, j, text, allocate))
    requires k < |more| && Named(more[k]).Some? && ComeInTurn(profile.less, ops, more)
    ensures KnowsOf(ops + more, more[k], Named(more[k]).value)
  {
    var x := PlannedNames(profile, ops, more, visible, i, j, text, allocate, k);
    assert ComesNext(profile.less, ops + more[..k], more[k]);
    if x !in ops { assert more[..k][k - 1] == x; }
    assert x in ops + more[..k] && x in ops + more;
  }

  lemma ReplacedAnchored(profile: Profile, encode: Encoder, ops: Log, next: string, more: Log, actor: string,
                         i: nat, j: nat, text: string, edits: seq<TextEdit>)
    requires StrictTotal(profile.less) && Settled(ops) && Anchored(ops)
    requires ReplacesBy(profile, encode, ops, next, more, actor, i, j, text, edits)
    requires ComeInTurn(profile.less, ops, more)
    ensures Anchored(ops + more)
  {
    var shown := AssembleText(profile, ops);
    forall op | op in ops + more ensures Known(ops + more, op) {
      if op in ops {
        assert Known(ops, op);
        KnowsMore(ops, ops + more, op);
      } else if Named(op).Some? {
        var k :| 0 <= k < |more| && more[k] == op;
        NamedKnown(profile, ops, more, shown.visible, i, j, text,
                   Allocator(encode, actor, T.NextTextCounter(shown.elements, actor), MaxLamport(ops) + 1), k);
      }
    }
  }

  // ---- runs -------------------------------------------------------------------------------------------------------

  /** The operations of the step refer to all heads of what their replica held when each was made. */
  ghost predicate Informed(less: (string, string) -> bool, sys: System, e: Event, after: System) {
    e.Replaces? ==>
      && e.replica in sys.logs && e.replica in after.logs
      && exists more: Log ::
           after.logs[e.replica] == sys.logs[e.replica] + more && ComeInTurn(less, sys.logs[e.replica], more)
  }

  /** Replacing without connectivity is such a step. */
  lemma MintedInformed(less: (string, string) -> bool, sys: System, r: string, next: string, edits: seq<TextEdit>)
    requires StrictTotal(less) && r in sys.logs
    ensures Informed(less, sys, Replaces(r, next),
                     Holding(sys, r, sys.logs[r] + MintBatch(less, r, sys.logs[r], edits)))
  {
    BatchComesInTurn(less, r, sys.logs[r], edits);
  }

  ghost predicate InformedRun(profile: Profile, encode: Encoder, systems: seq<System>, events: seq<Event>) {
    Run(profile, encode, systems, events) && forall k :: 0 < k <= |events| ==> InformedAt(profile, systems, events, k)
  }

  /** The step that led to the k-th system is such a step. */
  ghost predicate InformedAt(profile: Profile, systems: seq<System>, events: seq<Event>, k: nat)
    requires 0 < k <= |events| && k < |systems|
  {
    Informed(profile.less, systems[k - 1], events[k - 1], systems[k])
  }

  ghost predicate AllAnchored(sys: System) { forall log :: log in sys.sent ==> Anchored(log) }

  lemma ReplaceAnchors(profile: Profile, encode: Encoder, sys: System, e: Event, after: System)
    requires StrictTotal(profile.less) && Good(profile, encode, sys) && AllAnchored(sys) && e.Replaces?
    requires Step(profile, encode, sys, e, after) && Informed(profile.less, sys, e, after)
    ensures AllAnchored(after)
  {
    var ops := sys.logs[e.replica];
    var more: Log, i: nat, j: nat, text, edits :|
      && ReplacesBy(profile, encode, ops, e.next, more, e.replica, i, j, text, edits)
      && after == Holding(sys, e.replica, ops + more);
    InformedMore(profile.less, sys, e, after, more);
    ReplacedFromGood(profile, encode, sys, e, more, i, j, text, edits);
    HoldingAnchored(sys, e.replica, ops + more, after);
  }

  lemma HoldingAnchored(sys: System, r: string, log: Log, after: System)
    requires AllAnchored(sys) && Anchored(log) && after == Holding(sys, r, log)
    ensures AllAnchored(after)
  {
  }

  lemma InformedMore(less: (string, string) -> bool, sys: System, e: Event, after: System, more: Log)
    requires e.Replaces? && Informed(less, sys, e, after)
    requires after == Holding(sys, e.replica, sys.logs[e.replica] + more)
    ensures ComeInTurn(less, sys.logs[e.replica], more)
  {
    var ops := sys.logs[e.replica];
    var same: Log :| after.logs[e.replica] == ops + same && ComeInTurn(less, ops, same);
    SamePrefix(ops, more, same);
  }

  lemma ReplacedFromGood(profile: Profile, encode: Encoder, sys: System, e: Event, more: Log,
                         i: nat, j: nat, text: string, edits: seq<TextEdit>)
    requires StrictTotal(profile.less) && Good(profile, encode, sys) && AllAnchored(sys) && e.Replaces?
    requires e.replica in sys.logs && AllValid(sys.logs[e.replica])
    requires ReplacesBy(profile, encode, sys.logs[e.replica], e.next, more, e.replica, i, j, text, edits)
    requires ComeInTurn(profile.less, sys.logs[e.replica], more)
    ensures Anchored(sys.logs[e.replica] + more)
  {
    assert Fine(profile, encode, sys.logs[e.replica]);
    ReplacedAnchored(profile, encode, sys.logs[e.replica], e.next, more, e.replica, i, j, text, edits);
  }

  lemma ReceivedAnchored(a: Log, b: Log, all: Log)
    requires Anchored(a) && Anchored(b) && Both(a, b, all)
    ensures Anchored(all)
  {
    forall op | op in all ensures Known(all, op) {
      assert Known(a, op) || Known(b, op);
      KnowsMore(if op in a then a else b, all, op);
    }
  }

  lemma ReceiveAnchors(profile: Profile, encode: Encoder, sys: System, e: Event, after: System)
    requires StrictTotal(profile.less) && UriCodec(encode, profile.decode)
    requires Good(profile, encode, sys) && AllAnchored(sys) && e.Receives?
    requires Step(profile, encode, sys, e, after)
    ensures AllAnchored(after)
  {
    var a := sys.logs[e.replica];
    ReceivedBoth(profile, encode, sys, a, e.log);
    ReceivedAnchored(a, e.log, a + FreshOf(a, e.log));
    HoldingAnchored(sys, e.replica, a + FreshOf(a, e.log), after);
  }

  lemma ReceivedBoth(profile: Profile, encode: Encoder, sys: System, a: Log, b: Log)
    requires StrictTotal(profile.less) && UriCodec(encode, profile.decode) && Good(profile, encode, sys)
    requires a in sys.sent && b in sys.sent
    ensures Both(a, b, a + FreshOf(a, b))
  {
    SentRelated(profile, encode, sys, a, b);
    assert Fine(profile, encode, a) && Fine(profile, encode, b);
    ReceivedFine(profile, encode, a, b);
  }

  lemma InformedStep(profile: Profile, encode: Encoder, systems: seq<System>, events: seq<Event>, k: nat)
    requires InformedRun(profile, encode, systems, events) && 0 < k < |systems|
    ensures Step(profile, encode, systems[k - 1], events[k - 1], systems[k])
    ensures Informed(profile.less, systems[k - 1], events[k - 1], systems[k])
  {
    assert Step(profile, encode, systems[k - 1], events[k - 1], systems[k - 1 + 1]);
    assert InformedAt(profile, systems, events, k);
  }

  lemma StepAnchors(profile: Profile, encode: Encoder, sys: System, e: Event, after: System)
    requires StrictTotal(profile.less) && UriCodec(encode, profile.decode)
    requires Good(profile, encode, sys) && AllAnchored(sys)
    requires Step(profile, encode, sys, e, after) && Informed(profile.less, sys, e, after)
    ensures AllAnchored(after)
  {
    if e.Replaces? {
      ReplaceAnchors(profile, encode, sys, e, after);
    } else {
      ReceiveAnchors(profile, encode, sys, e, after);
    }
  }

  /** Every log ever held has, for whatever an operation names, the insert it refers to. */
  lemma {:induction false} RunAnchored(profile: Profile, encode: Encoder, systems: seq<System>, events: seq<Event>,
                                       k: nat)
    requires StrictTotal(profile.less) && UriCodec(encode, profile.decode)
    requires InformedRun(profile, encode, systems, events) && k < |systems|
    ensures AllAnchored(systems[k])
  {
    if k == 0 {
      EmptyAnchored(systems[0]);
    } else {
      RunAnchored(profile, encode, systems, events, k - 1);
      AnchoredAt(profile, encode, systems, events, k);
    }
  }

  lemma EmptyAnchored(sys: System)
    requires Empty(sys)
    ensures AllAnchored(sys)
  {
  }

  lemma AnchoredAt(profile: Profile, encode: Encoder, systems: seq<System>, events: seq<Event>, k: nat)
    requires StrictTotal(profile.less) && UriCodec(encode, profile.decode)
    requires InformedRun(profile, encode, systems, events) && 0 < k < |systems| && AllAnchored(systems[k - 1])
    ensures AllAnchored(systems[k])
  {
    ReachableGood(profile, encode, systems, events, k - 1);
    InformedStep(profile, encode, systems, events, k);
    StepAnchors(profile, encode, systems[k - 1], events[k - 1], systems[k]);
  }

  /** Some log ever held has the operation. */
  ghost predicate Written(sys: System, op: TextOp) { exists log :: log in sys.sent && op in log }

  /** The logs ever held are valid, name their own elements, and agree on what they share. */
  ghost predicate Coherent(encode: Encoder, sent: set<Log>) {
    forall a, b :: a in sent && b in sent ==> AllValid(a) && Owned(encode, a) && Owned(encode, b) && Related(a, b)
  }

  lemma GoodCoherent(profile: Profile, encode: Encoder, sys: System)
    requires Good(profile, encode, sys)
    ensures Coherent(encode, sys.sent)
  {
    forall a, b | a in sys.sent && b in sys.sent
      ensures AllValid(a) && Owned(encode, a) && Owned(encode, b) && Related(a, b)
    {
      SentRelated(profile, encode, sys, a, b);
      assert Fine(profile, encode, a) && Fine(profile, encode, b);
    }
  }

  /** Operations of the run are one when they share their identity, or insert the same atom. */
  lemma WrittenOnce(profile: Profile, encode: Encoder, sys: System, x: TextOp, y: TextOp)
    requires UriCodec(encode, profile.decode) && Coherent(encode, sys.sent)
    requires Written(sys, x) && Written(sys, y) && (Key(x) == Key(y) || InsertsSame(x, y))
    ensures x == y && ValidOp(x)
  {
    var a :| a in sys.sent && x in a;
    var b :| b in sys.sent && y in b;
    assert AllValid(a) && Owned(encode, a) && Owned(encode, b) && Related(a, b);
    OnceAcross(profile, encode, a, b, x, y);
    MemberValid(a, x);
  }

  lemma OnceAcross(profile: Profile, encode: Encoder, a: Log, b: Log, x: TextOp, y: TextOp)
    requires UriCodec(encode, profile.decode) && Owned(encode, a) && Owned(encode, b) && Related(a, b)
    requires x in a && y in b && (Key(x) == Key(y) || InsertsSame(x, y))
    ensures x == y
  {
    if InsertsSame(x, y) {
      OwnedTogether(encode, profile.decode, a, b);
      OwnedOnce(encode, a + b);
    }
  }

  lemma MemberValid(log: Log, op: TextOp)
    requires AllValid(log) && op in log
    ensures ValidOp(op)
  {
    var i :| 0 <= i < |log| && log[i] == op;
  }

  /** The insert of what a written operation names, which the operation refers to. */
  lemma ReferredInsert(profile: Profile, encode: Encoder, sys: System, op: TextOp, x: TextOp)
    requires UriCodec(encode, profile.decode) && Coherent(encode, sys.sent)
    requires AllAnchored(sys) && Written(sys, op) && Written(sys, x)
    requires Named(op).Some? && InsertsAtom(x, Named(op).value)
    ensures Refers(op.refs, x) && ValidOp(op)
  {
    var y := KnownInsert(sys, op);
    WrittenOnce(profile, encode, sys, y, x);
    WrittenOnce(profile, encode, sys, op, op);
  }

  lemma KnownInsert(sys: System, op: TextOp) returns (y: TextOp)
    requires AllAnchored(sys) && Written(sys, op) && Named(op).Some?
    ensures Written(sys, y) && InsertsAtom(y, Named(op).value) && Refers(op.refs, y)
  {
    var log :| log in sys.sent && op in log;
    assert Known(log, op);
    y :| y in log && InsertsAtom(y, Named(op).value) && Refers(op.refs, y);
  }

  /** What a node fed `part` delivers, in order. */
  function Delivered(part: Log): seq<CrdtOp>
    requires AllValid(part)
  {
    Feed(EMPTY_NODE, NormaliseAll(part, Bases(part))).delivered
  }

  ghost predicate DeliveredBefore(part: Log, x: TextOp, k: nat)
    requires AllValid(part) && k <= |Delivered(part)|
  {
    ValidOp(x) && exists j :: 0 <= j < k && Delivered(part)[j] == NormaliseOp(x, Bases(part))
  }

  lemma BaseOfMember(part: Log, x: TextOp)
    requires x in part
    ensures BaseFor(Bases(part), x.origin) <= x.seqNo
  {
    BaseBelow(part, x);
  }

  /** In every run in which operations refer to all heads, for a node fed any of the operations ever written, in any
      order: where a delivered operation names an atom, the operation inserting it was delivered before, if and
      only if the node was not given later operations of that one's origin without it. */
  lemma AnchorsFirstExactly(profile: Profile, encode: Encoder, systems: seq<System>, events: seq<Event>, n: nat,
                            part: Log, k: nat, op: TextOp, x: TextOp)
    requires StrictTotal(profile.less) && UriCodec(encode, profile.decode)
    requires InformedRun(profile, encode, systems, events) && n < |systems|
    requires AllValid(part) && UniqueKeys(part) && forall z :: z in part ==> Written(systems[n], z)
    requires k < |Delivered(part)| && op in part && ValidOp(op)
    requires Delivered(part)[k] == NormaliseOp(op, Bases(part))
    requires Written(systems[n], x) && Named(op).Some? && InsertsAtom(x, Named(op).value)
    ensures DeliveredBefore(part, x, k) <==> BaseFor(Bases(part), x.origin) <= x.seqNo
    ensures x in part ==> DeliveredBefore(part, x, k)
  {
    ReachableGood(profile, encode, systems, events, n);
    GoodCoherent(profile, encode, systems[n]);
    RunAnchored(profile, encode, systems, events, n);
    ReferredInsert(profile, encode, systems[n], op, x);
    if x in part { BaseOfMember(part, x); }
    if BaseFor(Bases(part), x.origin) <= x.seqNo {
      forall z | z in part && Key(z) == Key(x) ensures z == x {
        WrittenOnce(profile, encode, systems[n], z, x);
      }
      var j := ReferredFirst(part, Bases(part), k, op, x);
    }
    NotWithout(part, x, k);
  }

  /** A node given a later operation of an insert's origin without the insert delivers what another origin inserted
      after it, as if nothing were missing. */
  lemma LaterAlone(x: TextOp, later: TextOp, op: TextOp)
    requires ValidOp(later) && ValidOp(op) && op.origin != x.origin
    requires later.origin == x.origin && later.seqNo == x.seqNo + 1
    requires later.refs == [Head(x.origin, x.seqNo)] && op.refs == [Head(x.origin, x.seqNo)]
    requires Named(op).Some? && InsertsAtom(x, Named(op).value)
    ensures AllValid([later, op]) && |Delivered([later, op])| == 2 && Refers(op.refs, x)
    ensures Delivered([later, op])[1] == NormaliseOp(op, Bases([later, op])) && !DeliveredBefore([later, op], x, 1)
  {
    var part := [later, op];
    TwoBases(later, op);
    OneBelow(x, Bases(part));
    FedTwo(NormaliseOp(later, Bases(part)), NormaliseOp(op, Bases(part)));
    assert NormaliseAll(part, Bases(part)) == [NormaliseOp(later, Bases(part)), NormaliseOp(op, Bases(part))];
    assert op.refs[0].origin == x.origin;
    NotWithout(part, x, 1);
  }

  lemma TwoBases(a: TextOp, b: TextOp)
    requires a.origin != b.origin
    ensures Bases([a, b]) == map[a.origin := a.seqNo, b.origin := b.seqNo]
  {
    assert [a, b][..1] == [a] && [a][..0] == [];
    assert Bases([a]) == map[a.origin := a.seqNo];
  }

  lemma OneBelow(x: TextOp, bases: BaseMap)
    requires x.seqNo < BaseFor(bases, x.origin)
    ensures Clock([Head(x.origin, x.seqNo)], bases) == map[]
  {
    assert [Head(x.origin, x.seqNo)][..0] == [];
  }

  lemma FedTwo(c: CrdtOp, d: CrdtOp)
    requires c.origin != d.origin && c.seqNo == 1 && d.seqNo == 1 && c.deps == map[] && d.deps == map[]
    ensures Feed(EMPTY_NODE, [c, d]).delivered == [c, d]
  {
    FeedOne(EMPTY_NODE, c);
    FeedOne(CrdtNode([c], []), d);
    FeedConcat(EMPTY_NODE, [c], [d]);
    assert [c] + [d] == [c, d];
  }

  lemma NotWithout(part: Log, x: TextOp, k: nat)
    requires AllValid(part) && UniqueKeys(part) && k <= |Delivered(part)|
    ensures DeliveredBefore(part, x, k) ==> BaseFor(Bases(part), x.origin) <= x.seqNo
  {
    if DeliveredBefore(part, x, k) {
      var j :| 0 <= j < k && Delivered(part)[j] == NormaliseOp(x, Bases(part));
      assert Delivered(part)[j] in Delivered(part);
      var i := FedFrom(part, Bases(part), Delivered(part)[j]);
      BaseOfMember(part, part[i]);
    }
  }
}
