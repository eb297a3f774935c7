/** Any number of replicas, each writing under its own origin, exchanging what any of them held at any time. */
module Replicas {
  import opened Wrappers
  import opened Orders
  import opened AtomIds
  import opened TextOps
  import opened Projection
  import opened Planner
  import opened Normalise
  import opened Assembler
  import opened Minting
  import opened Document
  import opened Runs
  import opened TextSteps
  import opened Merging
  import opened Selection
  import opened Authorship
  import T = TextInstance

  type Log = seq<TextOp>

  /** What every replica holds, by its origin, and every log any of them ever held: what was sent may arrive
      late, again, or never. */
  datatype System = System(logs: map<string, Log>, sent: set<Log>)

  datatype Event =
    | Replaces(replica: string, next: string)
    | Receives(replica: string, log: Log)

  /** `more` are `actor`'s operations for replacing the text by `next`. */
  ghost predicate ReplacesBy(profile: Profile, encode: Encoder, ops: Log, next: string, more: Log,
                             actor: string, i: nat, j: nat, text: string, edits: seq<TextEdit>)
    requires AllValid(ops)
  {
    var shown := AssembleText(profile, ops);
    && T.Plans(encode, shown, MaxLamport(ops), next, actor, i, j, text, edits)
    && T.CanAllocate(shown, MaxLamport(ops), actor, |text|)
    && FollowsAll(ops, more) && Issues(more, edits) && forall op :: op in more ==> op.origin == actor
  }

  /** What an unconnected document mints for a replacement is such operations. */
  lemma MintedReplaces(profile: Profile, encode: Encoder, ops: Log, next: string, actor: string,
                       i: nat, j: nat, text: string, edits: seq<TextEdit>)
    requires StrictTotal(profile.less) && AllValid(ops) && UniqueKeys(ops)
    requires var shown := AssembleText(profile, ops);
             && T.Plans(encode, shown, MaxLamport(ops), next, actor, i, j, text, edits)
             && T.CanAllocate(shown, MaxLamport(ops), actor, |text|)
    requires T.CanNumber(ops, actor, |edits|)
    ensures ReplacesBy(profile, encode, ops, next, MintBatch(profile.less, actor, ops, edits), actor, i, j, text, edits)
  {
    T.PlansNamed(encode, AssembleText(profile, ops), MaxLamport(ops), next, actor, i, j, text, edits);
    T.PlansProper(profile, encode, ops, AssembleText(profile, ops), next, actor, i, j, text, edits);
    T.BatchValid(profile.less, actor, ops, edits);
    BatchFollows(profile.less, actor, ops, edits);
    BatchComesInTurn(profile.less, actor, ops, edits);
  }

  function Holding(sys: System, r: string, log: Log): System {
    System(sys.logs[r := log], sys.sent + {log})
  }

  ghost predicate Step(profile: Profile, encode: Encoder, sys: System, e: Event, after: System) {
    e.replica in sys.logs
    && match e
       case Replaces(r, next) =>
         && AllValid(sys.logs[r])
         && exists more: Log, i: nat, j: nat, text, edits ::
              && ReplacesBy(profile, encode, sys.logs[r], next, more, r, i, j, text, edits)
              && after == Holding(sys, r, sys.logs[r] + more)
       case Receives(r, log) =>
         log in sys.sent && after == Holding(sys, r, sys.logs[r] + FreshOf(sys.logs[r], log))
  }

  /** Nobody holds anything. */
  predicate Empty(sys: System) {
    sys.sent == {[]} && forall r :: r in sys.logs ==> sys.logs[r] == []
  }

  ghost predicate Run(profile: Profile, encode: Encoder, systems: seq<System>, events: seq<Event>) {
    && |systems| == |events| + 1 && Empty(systems[0])
    && forall k :: 0 <= k < |events| ==> Step(profile, encode, systems[k], events[k], systems[k + 1])
  }

  // ---- what every run keeps -----------------------------------------------------------------------------------

  /** A writer numbers its operations without gaps. */
  ghost predicate NoGaps(log: Log, o: string) {
    forall x, y :: Succeeds(log, o, x, y)
  }

  /** Holding `x` and a later operation `y`, the log holds the one right after `x`. */
  ghost predicate Succeeds(log: Log, o: string, x: TextOp, y: TextOp) {
    x in log && y in log && x.origin == o && y.origin == o && x.seqNo < y.seqNo ==> HasKey(log, (o, x.seqNo + 1))
  }

  /** `log` holds an initial stretch of what `writer` wrote under `o`. */
  ghost predicate Begins(writer: Log, log: Log, o: string) {
    forall op :: op in log && op.origin == o ==>
      op in writer && forall z :: z in writer && z.origin == o && z.seqNo <= op.seqNo ==> z in log
  }

  /** Of every origin, `log` holds an initial stretch of what its writer holds. */
  ghost predicate Held(logs: map<string, Log>, log: Log) {
    (forall op :: op in log ==> op.origin in logs) && forall o :: o in logs ==> Begins(logs[o], log, o)
  }

  ghost predicate Fine(profile: Profile, encode: Encoder, log: Log) {
    Sound(profile, encode, log) && Owned(encode, log)
  }

  ghost predicate AllFine(profile: Profile, encode: Encoder, sent: set<Log>) {
    forall log :: log in sent ==> Fine(profile, encode, log)
  }

  ghost predicate AllHeldByWriters(sys: System) {
    forall log :: log in sys.sent ==> Held(sys.logs, log)
  }

  ghost predicate Writers(logs: map<string, Log>, sent: set<Log>) {
    forall r :: r in logs ==> logs[r] in sent && NoGaps(logs[r], r)
  }

  /** Every log ever held is sound and names no element twice, and holds of each origin what its writer wrote
      first. */
  ghost predicate Good(profile: Profile, encode: Encoder, sys: System) {
    AllFine(profile, encode, sys.sent) && AllHeldByWriters(sys) && Writers(sys.logs, sys.sent)
  }

  // ---- any two logs -------------------------------------------------------------------------------------------

  lemma HeldByWriter(logs: map<string, Log>, log: Log, op: TextOp)
    requires Held(logs, log) && op in log
    ensures op.origin in logs && op in logs[op.origin]
  {
    assert Begins(logs[op.origin], log, op.origin);
  }

  lemma HeldAgree(logs: map<string, Log>, a: Log, b: Log)
    requires Held(logs, a) && Held(logs, b) && forall r :: r in logs ==> UniqueKeys(logs[r])
    ensures Agree(a, b)
  {
    forall x, y | x in a && y in b && Key(x) == Key(y) ensures x == y {
      HeldByWriter(logs, a, x);
      HeldByWriter(logs, b, y);
      UniqueAgrees(logs[x.origin]);
    }
  }

  lemma HeldBefore(logs: map<string, Log>, a: Log, b: Log, x: TextOp, y: TextOp)
    requires Held(logs, a) && Held(logs, b) && x in a && y in b && x.origin == y.origin && x.seqNo <= y.seqNo
    ensures x in b
  {
    HeldByWriter(logs, a, x);
    assert Begins(logs[x.origin], b, x.origin);
  }

  lemma HeldOneWriter(logs: map<string, Log>, a: Log, b: Log)
    requires Held(logs, a) && Held(logs, b)
    ensures OneWriter(a, b)
  {
    forall o: string ensures AllFrom(a, b, o) || AllFrom(b, a, o) {
      if !AllFrom(a, b, o) {
        var x :| x in a && x.origin == o && x !in b;
        forall y | y in b && y.origin == o ensures y in a {
          if x.seqNo <= y.seqNo { HeldBefore(logs, a, b, x, y); } else { HeldBefore(logs, b, a, y, x); }
        }
      }
    }
  }

  lemma FirstOf(log: Log, o: string) returns (x: TextOp)
    requires o in Bases(log)
    ensures x in log && x.origin == o && x.seqNo == Bases(log)[o]
  {
    BasesDescribed(log);
    var i :| 0 <= i < |log| && log[i].origin == o && log[i].seqNo == Bases(log)[o];
    x := log[i];
  }

  lemma BaseBelow(log: Log, x: TextOp)
    requires x in log
    ensures x.origin in Bases(log) && Bases(log)[x.origin] <= x.seqNo
  {
    BasesDescribed(log);
    var i :| 0 <= i < |log| && log[i] == x;
  }

  lemma HeldSameStarts(logs: map<string, Log>, a: Log, b: Log)
    requires Held(logs, a) && Held(logs, b)
    ensures SameStarts(a, b)
  {
    forall o | o in Bases(a) && o in Bases(b) ensures Bases(a)[o] == Bases(b)[o] {
      var x := FirstOf(a, o);
      var y := FirstOf(b, o);
      if x.seqNo <= y.seqNo {
        HeldBefore(logs, a, b, x, y);
        BaseBelow(b, x);
      } else {
        HeldBefore(logs, b, a, y, x);
        BaseBelow(a, y);
      }
    }
  }

  /** Any two logs ever held agree on what they share. */
  ghost predicate Related(a: Log, b: Log) {
    Agree(a, b) && Agree(b, a) && SameStarts(a, b) && SameStarts(b, a) && OneWriter(a, b)
  }

  lemma SentRelated(profile: Profile, encode: Encoder, sys: System, a: Log, b: Log)
    requires Good(profile, encode, sys) && a in sys.sent && b in sys.sent
    ensures Related(a, b)
  {
    forall r | r in sys.logs ensures UniqueKeys(sys.logs[r]) { assert Fine(profile, encode, sys.logs[r]); }
    HeldAgree(sys.logs, a, b);
    HeldAgree(sys.logs, b, a);
    HeldSameStarts(sys.logs, a, b);
    HeldSameStarts(sys.logs, b, a);
    HeldOneWriter(sys.logs, a, b);
  }

  // ---- a replica replaces -------------------------------------------------------------------------------------

  /** Everything of `o` in `log` is numbered below `n`. */
  ghost predicate AllBelow(log: Log, o: string, n: int) {
    forall op :: op in log && op.origin == o ==> op.seqNo < n
  }

  lemma HeldKey(log: Log, op: TextOp)
    requires op in log
    ensures HasKey(log, Key(op))
  {
    var i :| 0 <= i < |log| && log[i] == op;
  }

  lemma PriorHeld(log: Log, op: TextOp, y: TextOp) returns (z: TextOp)
    requires Follows(log, op) && y in log && y.origin == op.origin
    ensures z in log && z.origin == op.origin && z.seqNo == op.seqNo - 1
  {
    BaseBelow(log, y);
    var i :| 0 <= i < |log| && Key(log[i]) == (op.origin, op.seqNo - 1);
    z := log[i];
  }

  lemma NextAbove(log: Log, op: TextOp, y: TextOp)
    requires NoGaps(log, op.origin) && Follows(log, op) && y in log && y.origin == op.origin
    ensures y.seqNo < op.seqNo
  {
    HeldKey(log, y);
    var z := PriorHeld(log, op, y);
    assert Succeeds(log, op.origin, z, y);
  }

  lemma NextNumber(log: Log, op: TextOp)
    requires NoGaps(log, op.origin) && Follows(log, op)
    ensures AllBelow(log, op.origin, op.seqNo) && NoGaps(log + [op], op.origin)
  {
    forall y | y in log && y.origin == op.origin ensures y.seqNo < op.seqNo { NextAbove(log, op, y); }
    forall x, y ensures Succeeds(log + [op], op.origin, x, y) { NextKey(log, op, x, y); }
  }

  lemma NextKey(log: Log, op: TextOp, x: TextOp, y: TextOp)
    requires NoGaps(log, op.origin) && Follows(log, op) && AllBelow(log, op.origin, op.seqNo)
    ensures Succeeds(log + [op], op.origin, x, y)
  {
    if x in log + [op] && y in log + [op] && x.origin == op.origin && y.origin == op.origin && x.seqNo < y.seqNo {
      KeyAppend(log, op, (op.origin, x.seqNo + 1));
      assert Succeeds(log, op.origin, x, y);
      if y !in log { NextBelow(log, op, x); }
    }
  }

  lemma NextBelow(log: Log, op: TextOp, x: TextOp)
    requires NoGaps(log, op.origin) && Follows(log, op) && x in log && x.origin == op.origin && x.seqNo < op.seqNo
    ensures HasKey(log, (op.origin, x.seqNo + 1)) || x.seqNo + 1 == op.seqNo
  {
    var z := PriorHeld(log, op, x);
    assert Succeeds(log, op.origin, x, z);
  }

  lemma {:induction false} NextNumbers(log: Log, more: Log, all: Log, o: string)
    requires NoGaps(log, o) && FollowsAll(log, more) && all == log + more && forall op :: op in more ==> op.origin == o
    ensures NoGaps(all, o)
    ensures forall z :: z in more ==> AllBelow(log, o, z.seqNo)
    decreases |more|
  {
    if more == [] {
      assert all == log;
    } else {
      var op := more[0];
      NextNumber(log, op);
      AppendShift(log, more, all);
      NextNumbers(log + [op], more[1..], all, o);
      forall z | z in more ensures AllBelow(log, o, z.seqNo) {
        if z != op { assert z in more[1..] && AllBelow(log + [op], o, z.seqNo); }
      }
    }
  }

  /** What others hold of a writer stays an initial stretch as it writes on. */
  lemma BeginsOn(log: Log, more: Log, other: Log, o: string)
    requires Begins(log, other, o) && forall z :: z in more ==> AllBelow(log, o, z.seqNo)
    ensures Begins(log + more, other, o)
  {
  }

  lemma BeginsItself(log: Log, o: string)
    ensures Begins(log, log, o)
  {
  }

  lemma BeginsBeside(writer: Log, log: Log, more: Log, o: string)
    requires Begins(writer, log, o) && forall op :: op in more ==> op.origin != o
    ensures Begins(writer, log + more, o)
  {
  }

  lemma ReplacedHeld(sys: System, r: string, more: Log, log: Log)
    requires r in sys.logs && AllHeldByWriters(sys) && sys.logs[r] in sys.sent && NoGaps(sys.logs[r], r)
    requires FollowsAll(sys.logs[r], more) && forall op :: op in more ==> op.origin == r
    requires log in sys.sent || log == sys.logs[r] + more
    ensures Held(sys.logs[r := sys.logs[r] + more], log)
  {
    var w := sys.logs[r];
    var logs := sys.logs[r := w + more];
    NextNumbers(w, more, w + more, r);
    assert Held(sys.logs, if log in sys.sent then log else w);
    forall o | o in logs ensures Begins(logs[o], log, o) {
      if log in sys.sent {
        assert Begins(sys.logs[o], log, o);
        if o == r { BeginsOn(w, more, log, r); }
      } else if o == r {
        BeginsItself(w + more, r);
      } else {
        assert Begins(sys.logs[o], w, o);
        BeginsBeside(sys.logs[o], w, more, o);
      }
    }
  }

  lemma ReplacedWriters(sys: System, r: string, more: Log)
    requires r in sys.logs && Writers(sys.logs, sys.sent)
    requires FollowsAll(sys.logs[r], more) && forall op :: op in more ==> op.origin == r
    ensures Writers(sys.logs[r := sys.logs[r] + more], sys.sent + {sys.logs[r] + more})
  {
    NextNumbers(sys.logs[r], more, sys.logs[r] + more, r);
  }

  lemma ReplacedFine(profile: Profile, encode: Encoder, ops: Log, next: string, more: Log,
                     r: string, i: nat, j: nat, text: string, edits: seq<TextEdit>)
    requires StrictTotal(profile.less) && UriCodec(encode, profile.decode) && Fine(profile, encode, ops)
    requires ReplacesBy(profile, encode, ops, next, more, r, i, j, text, edits)
    ensures Fine(profile, encode, ops + more) && AssembleText(profile, ops + more).text == next
  {
    var shown := AssembleText(profile, ops);
    T.IssuedReads(profile, encode, ops, more, next, shown, r, i, j, text, edits);
    ReplacementOwned(profile, encode, ops, more, next, shown, r, i, j, text, edits);
  }

  lemma HoldingGood(profile: Profile, encode: Encoder, sys: System, r: string, log: Log, after: System)
    requires after == Holding(sys, r, log) && AllFine(profile, encode, sys.sent) && Fine(profile, encode, log)
    requires AllHeldByWriters(after) && Writers(after.logs, after.sent)
    ensures Good(profile, encode, after)
  {
    forall l | l in after.sent ensures Fine(profile, encode, l) { assert l in sys.sent || l == log; }
  }

  lemma ReplacedAllHeld(sys: System, r: string, more: Log)
    requires r in sys.logs && AllHeldByWriters(sys) && Writers(sys.logs, sys.sent)
    requires FollowsAll(sys.logs[r], more) && forall op :: op in more ==> op.origin == r
    ensures var after := Holding(sys, r, sys.logs[r] + more); AllHeldByWriters(after) && Writers(after.logs, after.sent)
  {
    var log := sys.logs[r] + more;
    forall l | l in sys.sent + {log} ensures Held(sys.logs[r := log], l) { ReplacedHeld(sys, r, more, l); }
    ReplacedWriters(sys, r, more);
  }

  lemma ReplaceKeeps(profile: Profile, encode: Encoder, sys: System, r: string, next: string, more: Log,
                     i: nat, j: nat, text: string, edits: seq<TextEdit>)
    requires StrictTotal(profile.less) && UriCodec(encode, profile.decode) && Good(profile, encode, sys)
    requires r in sys.logs && AllValid(sys.logs[r])
    requires ReplacesBy(profile, encode, sys.logs[r], next, more, r, i, j, text, edits)
    ensures Good(profile, encode, Holding(sys, r, sys.logs[r] + more))
    ensures AllValid(sys.logs[r] + more) && AssembleText(profile, sys.logs[r] + more).text == next
  {
    assert Fine(profile, encode, sys.logs[r]);
    ReplacedFine(profile, encode, sys.logs[r], next, more, r, i, j, text, edits);
    ReplacedAllHeld(sys, r, more);
    HoldingGood(profile, encode, sys, r, sys.logs[r] + more, Holding(sys, r, sys.logs[r] + more));
  }

  // ---- a replica receives -------------------------------------------------------------------------------------

  /** `all` holds what `a` and `b` hold, and nothing else. */
  ghost predicate Both(a: Log, b: Log, all: Log) {
    forall op :: op in all <==> op in a || op in b
  }

  lemma ReceivedFine(profile: Profile, encode: Encoder, a: Log, b: Log)
    requires StrictTotal(profile.less) && UriCodec(encode, profile.decode)
    requires Fine(profile, encode, a) && Fine(profile, encode, b) && Related(a, b)
    ensures Fine(profile, encode, a + FreshOf(a, b)) && Both(a, b, a + FreshOf(a, b))
  {
    OwnedConverges(profile, encode, a, b);
    UniqueAgrees(b);
    FreshComplete(a, b);
  }

  /** Both hold the same operations of `o`. */
  ghost predicate SameOf(a: Log, b: Log, o: string) {
    forall op: TextOp :: op.origin == o ==> (op in a <==> op in b)
  }

  /** A writer's own operations are all it can be sent of its origin. */
  lemma OwnUnchanged(logs: map<string, Log>, r: string, b: Log, all: Log)
    requires r in logs && Held(logs, b) && Both(logs[r], b, all)
    ensures SameOf(all, logs[r], r)
  {
    forall op | op in b && op.origin == r ensures op in logs[r] { HeldByWriter(logs, b, op); }
  }

  lemma BeginsBoth(writer: Log, a: Log, b: Log, all: Log, o: string)
    requires Begins(writer, a, o) && Begins(writer, b, o) && Both(a, b, all)
    ensures Begins(writer, all, o)
  {
  }

  lemma BeginsSame(writer: Log, writer': Log, log: Log, o: string)
    requires Begins(writer, log, o) && SameOf(writer', writer, o)
    ensures Begins(writer', log, o)
  {
  }

  lemma ReceivedHeld(sys: System, r: string, b: Log, all: Log, log: Log)
    requires r in sys.logs && AllHeldByWriters(sys) && sys.logs[r] in sys.sent && b in sys.sent
    requires Both(sys.logs[r], b, all) && (log in sys.sent || log == all)
    ensures Held(sys.logs[r := all], log)
  {
    var a, logs := sys.logs[r], sys.logs[r := all];
    assert Held(sys.logs, a) && Held(sys.logs, b) && (log in sys.sent ==> Held(sys.logs, log));
    OwnUnchanged(sys.logs, r, b, all);
    forall o | o in logs ensures Begins(logs[o], log, o) {
      if log !in sys.sent { BeginsBoth(sys.logs[o], a, b, all, o); }
      BeginsSame(sys.logs[o], logs[o], log, o);
    }
  }

  lemma SameNoGaps(log: Log, all: Log, o: string)
    requires NoGaps(log, o) && SameOf(all, log, o)
    ensures NoGaps(all, o)
  {
    forall x, y ensures Succeeds(all, o, x, y) { SameSucceeds(log, all, o, x, y); }
  }

  lemma SameSucceeds(log: Log, all: Log, o: string, x: TextOp, y: TextOp)
    requires Succeeds(log, o, x, y) && SameOf(all, log, o)
    ensures Succeeds(all, o, x, y)
  {
    if x in all && y in all && x.origin == o && y.origin == o && x.seqNo < y.seqNo {
      var i :| 0 <= i < |log| && Key(log[i]) == (o, x.seqNo + 1);
      assert log[i] in log && log[i] in all;
      HeldKey(all, log[i]);
    }
  }

  lemma ReceiveKeeps(profile: Profile, encode: Encoder, sys: System, r: string, b: Log)
    requires StrictTotal(profile.less) && UriCodec(encode, profile.decode) && Good(profile, encode, sys)
    requires r in sys.logs && b in sys.sent
    ensures Good(profile, encode, Holding(sys, r, sys.logs[r] + FreshOf(sys.logs[r], b)))
  {
    SentRelated(profile, encode, sys, sys.logs[r], b);
    assert Fine(profile, encode, sys.logs[r]) && Fine(profile, encode, b);
    ReceivedFine(profile, encode, sys.logs[r], b);
    HoldingBoth(profile, encode, sys, r, b, sys.logs[r] + FreshOf(sys.logs[r], b));
  }

  lemma HoldingBoth(profile: Profile, encode: Encoder, sys: System, r: string, b: Log, all: Log)
    requires Good(profile, encode, sys) && r in sys.logs && b in sys.sent
    requires Fine(profile, encode, all) && Both(sys.logs[r], b, all)
    ensures Good(profile, encode, Holding(sys, r, all))
  {
    ReceivedAllHeld(sys, r, b, all);
    HoldingGood(profile, encode, sys, r, all, Holding(sys, r, all));
  }

  lemma ReceivedAllHeld(sys: System, r: string, b: Log, all: Log)
    requires r in sys.logs && b in sys.sent && AllHeldByWriters(sys) && Writers(sys.logs, sys.sent)
    requires Both(sys.logs[r], b, all)
    ensures var after := Holding(sys, r, all); AllHeldByWriters(after) && Writers(after.logs, after.sent)
  {
    forall l | l in sys.sent + {all} ensures Held(sys.logs[r := all], l) { ReceivedHeld(sys, r, b, all, l); }
    OwnUnchanged(sys.logs, r, b, all);
    SameNoGaps(sys.logs[r], all, r);
  }

  // ---- runs ---------------------------------------------------------------------------------------------------

  lemma EmptyGood(profile: Profile, encode: Encoder, sys: System)
    requires Empty(sys)
    ensures Good(profile, encode, sys)
  {
    EmptySound(profile, encode);
    EmptyOwned(encode);
    assert Fine(profile, encode, []);
  }

  lemma StepKeepsGood(profile: Profile, encode: Encoder, sys: System, e: Event, after: System)
    requires StrictTotal(profile.less) && UriCodec(encode, profile.decode)
    requires Good(profile, encode, sys) && Step(profile, encode, sys, e, after)
    ensures Good(profile, encode, after)
    ensures e.Replaces? ==> Reads(after, e, profile)
  {
    match e
    case Replaces(r, next) =>
      var more: Log, i: nat, j: nat, text, edits :|
        && ReplacesBy(profile, encode, sys.logs[r], next, more, r, i, j, text, edits)
        && after == Holding(sys, r, sys.logs[r] + more);
      ReplaceKeeps(profile, encode, sys, r, next, more, i, j, text, edits);
    case Receives(r, log) =>
      ReceiveKeeps(profile, encode, sys, r, log);
  }

  lemma StepGood(profile: Profile, encode: Encoder, systems: seq<System>, events: seq<Event>, k: nat)
    requires StrictTotal(profile.less) && UriCodec(encode, profile.decode)
    requires Run(profile, encode, systems, events) && 0 < k < |systems| && Good(profile, encode, systems[k - 1])
    ensures Good(profile, encode, systems[k])
    ensures events[k - 1].Replaces? ==> Reads(systems[k], events[k - 1], profile)
  {
    assert Step(profile, encode, systems[k - 1], events[k - 1], systems[k]);
    StepKeepsGood(profile, encode, systems[k - 1], events[k - 1], systems[k]);
  }

  /** The replica reads the text it was asked to replace its own by. */
  ghost predicate Reads(sys: System, e: Event, profile: Profile)
    requires e.Replaces?
  {
    && e.replica in sys.logs && AllValid(sys.logs[e.replica])
    && AssembleText(profile, sys.logs[e.replica]).text == e.next
  }

  lemma {:induction false} ReachableGood(profile: Profile, encode: Encoder, systems: seq<System>, events: seq<Event>,
                                         k: nat)
    requires StrictTotal(profile.less) && UriCodec(encode, profile.decode)
    requires Run(profile, encode, systems, events) && k < |systems|
    ensures Good(profile, encode, systems[k])
  {
    if k == 0 {
      EmptyGood(profile, encode, systems[0]);
    } else {
      ReachableGood(profile, encode, systems, events, k - 1);
      StepGood(profile, encode, systems, events, k);
    }
  }

  /** In every run every replica's document is sound and no two of its elements share an id. */
  lemma RunSound(profile: Profile, encode: Encoder, systems: seq<System>, events: seq<Event>, k: nat, r: string)
    requires StrictTotal(profile.less) && UriCodec(encode, profile.decode)
    requires Run(profile, encode, systems, events) && k < |systems| && r in systems[k].logs
    ensures Sound(profile, encode, systems[k].logs[r]) && Owned(encode, systems[k].logs[r])
    ensures UniqueIds(AssembleText(profile, systems[k].logs[r]).elements)
  {
    ReachableGood(profile, encode, systems, events, k);
    assert Fine(profile, encode, systems[k].logs[r]);
    ElementsUnique(profile, encode, systems[k].logs[r]);
  }

  /** And every replacement leaves its replica reading exactly the text asked for. */
  lemma RunReads(profile: Profile, encode: Encoder, systems: seq<System>, events: seq<Event>, k: nat)
    requires StrictTotal(profile.less) && UriCodec(encode, profile.decode)
    requires Run(profile, encode, systems, events) && 0 < k < |systems| && events[k - 1].Replaces?
    ensures Reads(systems[k], events[k - 1], profile)
  {
    ReachableGood(profile, encode, systems, events, k - 1);
    StepGood(profile, encode, systems, events, k);
  }

  /** And any two replicas that send each other what they hold show the same. */
  lemma RunConverges(profile: Profile, encode: Encoder, systems: seq<System>, events: seq<Event>, k: nat,
                     r: string, s: string)
    requires StrictTotal(profile.less) && UriCodec(encode, profile.decode)
    requires Run(profile, encode, systems, events) && k < |systems| && r in systems[k].logs && s in systems[k].logs
    ensures var a, b := systems[k].logs[r], systems[k].logs[s];
            && AllValid(a + FreshOf(a, b)) && AllValid(b + FreshOf(b, a))
            && AssembleText(profile, a + FreshOf(a, b)) == AssembleText(profile, b + FreshOf(b, a))
  {
    var a, b := systems[k].logs[r], systems[k].logs[s];
    ReachableGood(profile, encode, systems, events, k);
    SentRelated(profile, encode, systems[k], a, b);
    assert Fine(profile, encode, a) && Fine(profile, encode, b);
    OwnedConverges(profile, encode, a, b);
  }
}
