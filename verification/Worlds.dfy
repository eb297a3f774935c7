/** One consumer, the suppliers of any number of generations, and every answer any of them gave: an answer may
    be lost, late, or delivered again to any later call it fits. */
module Worlds {
  import opened Wrappers
  import opened Authorities
  import opened Pairing
  import S = AssistanceSteps
  import C = ConsumerSteps

  datatype Answer = Answer(generation: string, request: S.Request, reply: S.Reply)

  datatype World = World(consumer: C.Sys, suppliers: map<string, S.Sys>, answers: set<Answer>)

  datatype Event =
    | Opens(start: S.State)
    | Supplies(generation: string, s: S.Event)
    | Consumes(c: C.Event)

  // ---- what may happen --------------------------------------------------------------------------------------

  /** The id the step asks `runtime.id()` for, if any. */
  function Named(e: S.Event): Option<string> {
    match e
    case Arrives(_, _, id, _) => Some(id)
    case SignsProof(_, _, _, id, _) => Some(id)
    case _ => None
  }

  /** No supplier of any generation knows the token. */
  ghost predicate Unused(w: World, token: string) {
    forall g :: g in w.suppliers ==> token !in w.suppliers[g].state.offers
  }

  /** The request was one for this call: the same operation, for the consumer and the token. */
  predicate Fits(r: S.Request, consumer: string, kind: C.Kind, token: string) {
    && r.consumer == consumer
    && match kind
       case OfferCall => r.operation.OfferOp?
       case StatusCall => r.operation.StatusOp? && r.token == token
       case ReadCall => r.operation.ReadOp? && r.token == token
       case InvokeCall => r.operation.InvokeOp? && r.token == token
  }

  ghost predicate AnsweredCall(w: World, kind: C.Kind, token: string, out: C.Out) {
    exists a :: a in w.answers && Fits(a.request, w.consumer.state.consumer, kind, token) && out == Read(a.reply)
  }

  ghost predicate AnsweredResume(w: World, f: C.Frame, out: C.Out)
    requires f.Resuming?
  {
    exists a :: a in w.answers && a.generation == f.to.generation && a.request.operation.ResumeOp?
        && out == Read(a.reply)
  }

  ghost predicate AnsweredEver(w: World, out: C.Out) {
    exists a :: a in w.answers && out == Read(a.reply)
  }

  /** The channel delivers what some supplier answered to such a request, or that it does not know; what the
      host adopts was answered to somebody. */
  ghost predicate Delivers(w: World, e: C.Event) {
    match e
    case Replies(f, reply) =>
      reply.None? || reply == Some(C.UNKNOWN) || (f.Calling? && AnsweredCall(w, f.kind, f.token, reply.value))
    case Answers(f, reply) =>
      reply.None? || reply == Some(C.UNKNOWN) || (f.Resuming? && AnsweredResume(w, f, reply.value))
    case Adopts(out) => AnsweredEver(w, out)
    case _ => true
  }

  ghost predicate Enabled(w: World, e: Event) {
    match e
    case Opens(start) => S.Fresh(start) && start.identity.generation !in w.suppliers
    case Supplies(g, s) =>
      && g in w.suppliers && S.Enabled(w.suppliers[g], s)
      && (Named(s).Some? ==> Unused(w, Named(s).value))
    case Consumes(c) => C.Enabled(w.consumer, c) && Delivers(w, c)
  }

  ghost function Next(w: World, e: Event): World
    requires Enabled(w, e)
  {
    match e
    case Opens(start) => w.(suppliers := w.suppliers[start.identity.generation := S.Sys(start, multiset{}, [])])
    case Supplies(g, s) => Supplied(w, g, S.Next(w.suppliers[g], s), S.Said(w.suppliers[g], s))
    case Consumes(c) => w.(consumer := C.Next(w.consumer, c))
  }

  function Supplied(w: World, g: string, next: S.Sys, said: Option<(S.Request, S.Reply)>): World {
    w.(suppliers := w.suppliers[g := next],
       answers := if said.Some? then w.answers + {Answer(g, said.value.0, said.value.1)} else w.answers)
  }

  ghost predicate Step(w: World, e: Event, next: World) { Enabled(w, e) && next == Next(w, e) }

  /** A run from before the consumer's first call and the first supplier's construction. */
  ghost predicate Run(worlds: seq<World>, events: seq<Event>) {
    && |worlds| == |events| + 1
    && (exists identity, consumer :: worlds[0] == World(C.Sys(C.Start(identity, consumer), multiset{}), map[], {}))
    && forall k :: 0 <= k < |events| ==> Step(worlds[k], events[k], worlds[k + 1])
  }

  // ---- what every grant rests on ----------------------------------------------------------------------------

  predicate BackedBy(s: S.State, token: string, expires: Option<int>) {
    token in s.offers && !s.offers[token].status.Pending? && expires == Some(s.offers[token].deadline)
  }

  /** Some supplier accepted the offer, with that expiry. */
  ghost predicate Backed(w: World, token: string, expires: Option<int>) {
    exists g :: g in w.suppliers && BackedBy(w.suppliers[g].state, token, expires)
  }

  predicate Knows(w: World, g: string, token: string) {
    g in w.suppliers && token in w.suppliers[g].state.offers
  }

  ghost predicate OneGeneration(w: World) {
    forall g, h, token :: Knows(w, g, token) && Knows(w, h, token) ==> g == h
  }

  ghost predicate OutBacked(w: World, out: C.Out) {
    out.status.AcceptedOut? ==> Backed(w, out.token, out.expires)
  }

  ghost predicate FrameBacked(w: World, f: C.Frame) {
    (f.Returned? ==> OutBacked(w, f.out)) && (f.Verifying? ==> OutBacked(w, f.out))
  }

  ghost predicate GrantBacked(w: World, s: C.State) {
    s.grant.Some? ==> Backed(w, s.grant.value.token, s.grant.value.expires)
  }

  ghost predicate ConsumerBacked(w: World, c: C.Sys) {
    GrantBacked(w, c.state) && forall f :: f in c.frames ==> FrameBacked(w, f)
  }

  /** A status that grants is of the token that was asked for. */
  predicate Echoes(r: S.Request, reply: S.Reply) {
    r.operation.StatusOp? && reply.GrantReply? ==> reply.token == r.token
  }

  ghost predicate AnswersBacked(w: World) {
    forall a :: a in w.answers ==> OutBacked(w, Read(a.reply)) && Echoes(a.request, a.reply)
  }

  ghost predicate SuppliersFaithful(w: World) {
    forall g :: g in w.suppliers ==> AllFaithful(w.suppliers[g])
  }

  /** The consumer is well formed, tokens belong to one generation, and every grant held, on its way or ever
      answered was accepted by a supplier with that expiry. */
  ghost predicate Sound(w: World) {
    && C.Good(w.consumer) && OneGeneration(w) && SuppliersFaithful(w)
    && AnswersBacked(w) && ConsumerBacked(w, w.consumer)
  }

  lemma OneExpiry(w: World, token: string, e: Option<int>, e': Option<int>)
    requires OneGeneration(w) && Backed(w, token, e) && Backed(w, token, e')
    ensures e == e'
  {
    var g :| g in w.suppliers && BackedBy(w.suppliers[g].state, token, e);
    var h :| h in w.suppliers && BackedBy(w.suppliers[h].state, token, e');
    assert Knows(w, g, token) && Knows(w, h, token);
  }

  // ---- suppliers move ---------------------------------------------------------------------------------------

  /** Whatever was backed still is. */
  ghost predicate Keeps(w: World, next: World) {
    forall token, expires :: Backed(w, token, expires) ==> Backed(next, token, expires)
  }

  lemma KeepsSound(w: World, next: World)
    requires Sound(w) && Keeps(w, next) && next.consumer == w.consumer && OneGeneration(next) && SuppliersFaithful(next)
    requires forall a ::
        a in next.answers ==> a in w.answers || (OutBacked(next, Read(a.reply)) && Echoes(a.request, a.reply))
    ensures Sound(next)
  {
    forall f | f in next.consumer.frames ensures FrameBacked(next, f) { assert FrameBacked(w, f); }
    forall a | a in next.answers ensures OutBacked(next, Read(a.reply)) {
      if a in w.answers { assert OutBacked(w, Read(a.reply)); }
    }
  }

  lemma BackedLasts(s: S.State, t: S.State, token: string, expires: Option<int>)
    requires S.Rises(s, t) && BackedBy(s, token, expires)
    ensures BackedBy(t, token, expires)
  {
    assert S.LastsAs(s.offers[token], t.offers[token]);
  }

  lemma SuppliedKeeps(w: World, g: string, next: S.Sys, said: Option<(S.Request, S.Reply)>)
    requires g in w.suppliers && S.Rises(w.suppliers[g].state, next.state)
    ensures Keeps(w, Supplied(w, g, next, said))
  {
    var v := Supplied(w, g, next, said);
    forall token, expires | Backed(w, token, expires) ensures Backed(v, token, expires) {
      var h :| h in w.suppliers && BackedBy(w.suppliers[h].state, token, expires);
      if h == g { BackedLasts(w.suppliers[g].state, next.state, token, expires); }
      assert h in v.suppliers && BackedBy(v.suppliers[h].state, token, expires);
    }
  }

  lemma OpenedKeeps(w: World, start: S.State)
    requires Enabled(w, Opens(start))
    ensures Keeps(w, Next(w, Opens(start)))
  {
    var v := Next(w, Opens(start));
    forall token, expires | Backed(w, token, expires) ensures Backed(v, token, expires) {
      var h :| h in w.suppliers && BackedBy(w.suppliers[h].state, token, expires);
      assert h in v.suppliers && BackedBy(v.suppliers[h].state, token, expires);
    }
  }

  /** The only token a supplier's step can add is the one it was named. */
  predicate AddsNamed(s: S.State, t: S.State, name: Option<string>) {
    forall token :: token in t.offers ==> token in s.offers || name == Some(token)
  }

  lemma FinishAdds(s: S.State, tokens: set<string>, reason: string)
    ensures S.Finish(s, tokens, reason).offers.Keys == s.offers.Keys
  {
    S.FinishShape(s, tokens, reason);
  }

  lemma AcceptAdds(x: S.State, now: int, token: string, secret: int)
    ensures S.AcceptNow(x, now, token, secret).offers.Keys == x.offers.Keys
  {
    if S.Acceptable(x, token) {
      var o := x.offers[token].(status := S.Accepted, epoch := x.epoch + 1, deadline := now + x.grantMs);
      FinishAdds(S.Grant(x, token, o, secret), S.Pendings(S.Grant(x, token, o, secret)), "busy");
    }
  }

  lemma OperatorAdds(s: S.State, e: S.Event)
    requires !e.Arrives? && !e.ChecksProof? && !e.SignsProof? && !e.Prepares?
    ensures S.Next(S.Sys(s, multiset{}, []), e).state.offers.Keys == s.offers.Keys
  {
    match e
    case Enables(on) => FinishAdds(s.(enabled := on), s.offers.Keys, "disabled");
    case Readies(on) => FinishAdds(s.(ready := on), s.offers.Keys, "disconnected");
    case Accepts(now, token, secret) =>
      FinishAdds(s, S.Due(s, now), "expired");
      AcceptAdds(S.Expire(s, now), now, token, secret);
    case Declines(token) => FinishAdds(s, {token}, "declined");
    case Ends(reason) => FinishAdds(s, s.offers.Keys, reason);
    case Looks(now) => FinishAdds(s, S.Due(s, now), "expired");
  }

  lemma NowAdds(x: S.State, now: int, r: S.Request, id: string, read: Option<S.Observation>)
    ensures AddsNamed(x, S.ReceiveNow(x, now, r, id, read).state, Some(id))
  {
    FinishAdds(x, {r.token}, "consumer ended");
  }

  lemma StepAdds(sys: S.Sys, e: S.Event)
    requires S.Enabled(sys, e)
    ensures AddsNamed(sys.state, S.Next(sys, e).state, Named(e))
  {
    match e
    case Arrives(now, r, id, read) =>
      FinishAdds(sys.state, S.Due(sys.state, now), "expired");
      NowAdds(S.Expire(sys.state, now), now, r, id, read);
    case ChecksProof(f, ok) =>
    case SignsProof(f, ok, now, id, secret) =>
    case Prepares(f, ok, now, read, throws) =>
      S.PreparedState(sys.state, f, ok, now, read, throws);
      FinishAdds(sys.state, S.Due(sys.state, now), "expired");
    case _ =>
      OperatorAdds(sys.state, e);
  }

  /** A reply that grants says what the state it leaves says. */
  predicate Truthful(t: S.State, reply: Option<S.Reply>) {
    reply.Some? && reply.value.GrantReply? && reply.value.accepted
    ==> BackedBy(t, reply.value.token, Some(reply.value.expires))
  }

  lemma StatusTruthful(s: S.State, token: string)
    requires token in s.offers
    ensures Truthful(s, Some(S.StatusOf(s, token)))
  {
  }

  lemma EndedTruthful(x: S.State, token: string)
    requires token in x.offers
    ensures var t := S.Finish(x, {token}, "consumer ended");
            token in t.offers && Truthful(t, Some(S.StatusOf(t, token)))
  {
    FinishAdds(x, {token}, "consumer ended");
    StatusTruthful(S.Finish(x, {token}, "consumer ended"), token);
  }

  lemma OfferTruthful(x: S.State, now: int, r: S.Request, id: string)
    ensures var o := S.ReceiveOffer(x, now, r, id); Truthful(o.state, o.reply)
  {
  }

  lemma NowTruthful(x: S.State, now: int, r: S.Request, id: string, read: Option<S.Observation>)
    ensures var o := S.ReceiveNow(x, now, r, id, read); Truthful(o.state, o.reply)
  {
    if S.Addressed(x, r) && now < r.deadline {
      if r.operation.OfferOp? {
        OfferTruthful(x, now, r, id);
      } else if r.token in x.offers {
        EndedTruthful(x, r.token);
        StatusTruthful(x, r.token);
      }
    }
  }

  lemma PreparedTruthful(s: S.State, f: S.Frame, ok: bool, now: int, read: Option<S.Observation>, throws: bool)
    requires f.Preparing?
    ensures var o := S.Prepared(s, f, ok, now, read, throws).0; Truthful(o.state, o.reply)
  {
  }

  lemma SaidTruthful(sys: S.Sys, e: S.Event)
    requires S.Enabled(sys, e)
    ensures S.Said(sys, e).Some? ==> Truthful(S.Next(sys, e).state, Some(S.Said(sys, e).value.1))
  {
    match e
    case Arrives(now, r, id, read) => NowTruthful(S.Expire(sys.state, now), now, r, id, read);
    case ChecksProof(f, ok) =>
    case SignsProof(f, ok, now, id, secret) =>
    case Prepares(f, ok, now, read, throws) => PreparedTruthful(sys.state, f, ok, now, read, throws);
    case _ =>
  }

  lemma NowEchoes(x: S.State, now: int, r: S.Request, id: string, read: Option<S.Observation>)
    requires r.operation.StatusOp?
    ensures var o := S.ReceiveNow(x, now, r, id, read); o.reply.Some? ==> Echoes(r, o.reply.value)
  {
  }

  lemma PreparedEchoes(s: S.State, f: S.Frame, ok: bool, now: int, read: Option<S.Observation>, throws: bool)
    requires f.Preparing?
    ensures var o := S.Prepared(s, f, ok, now, read, throws).0; o.reply.Some? ==> !o.reply.value.GrantReply?
  {
  }

  lemma SaidEchoes(sys: S.Sys, e: S.Event)
    requires S.Enabled(sys, e) && AllFaithful(sys)
    ensures S.Said(sys, e).Some? ==> Echoes(S.Said(sys, e).value.0, S.Said(sys, e).value.1)
  {
    match e
    case Arrives(now, r, id, read) =>
      if r.operation.StatusOp? { NowEchoes(S.Expire(sys.state, now), now, r, id, read); }
    case ChecksProof(f, ok) => assert Faithful(sys.state, f);
    case SignsProof(f, ok, now, id, secret) => assert Faithful(sys.state, f);
    case Prepares(f, ok, now, read, throws) => PreparedEchoes(sys.state, f, ok, now, read, throws);
    case _ =>
  }

  lemma SuppliedOne(w: World, g: string, next: S.Sys, said: Option<(S.Request, S.Reply)>, name: Option<string>)
    requires g in w.suppliers && OneGeneration(w) && AddsNamed(w.suppliers[g].state, next.state, name)
    requires name.Some? ==> Unused(w, name.value)
    ensures OneGeneration(Supplied(w, g, next, said))
  {
    var v := Supplied(w, g, next, said);
    forall h, h', token | Knows(v, h, token) && Knows(v, h', token) ensures h == h' {
      assert h != g ==> Knows(w, h, token);
      assert h' != g ==> Knows(w, h', token);
      assert token in w.suppliers[g].state.offers ==> Knows(w, g, token);
    }
  }

  lemma SupplyKeepsSound(w: World, g: string, s: S.Event)
    requires Sound(w) && Enabled(w, Supplies(g, s))
    ensures Sound(Next(w, Supplies(g, s))) && Keeps(w, Next(w, Supplies(g, s)))
  {
    var sys := w.suppliers[g];
    var next, said := S.Next(sys, s), S.Said(sys, s);
    S.StepRises(sys, s);
    SuppliedKeeps(w, g, next, said);
    StepAdds(sys, s);
    SuppliedOne(w, g, next, said, Named(s));
    SaidTruthful(sys, s);
    SaidBacked(w, g, next, said);
    SaidEchoes(sys, s);
    StepFaithful(sys, s);
    KeepsSound(w, Supplied(w, g, next, said));
  }

  lemma SaidBacked(w: World, g: string, next: S.Sys, said: Option<(S.Request, S.Reply)>)
    requires said.Some? ==> Truthful(next.state, Some(said.value.1))
    ensures said.Some? ==> OutBacked(Supplied(w, g, next, said), Read(said.value.1))
  {
    var v := Supplied(w, g, next, said);
    assert g in v.suppliers && v.suppliers[g] == next;
  }

  lemma OpenKeepsSound(w: World, start: S.State)
    requires Sound(w) && Enabled(w, Opens(start))
    ensures Sound(Next(w, Opens(start))) && Keeps(w, Next(w, Opens(start)))
  {
    OpenedKeeps(w, start);
    OpenedOne(w, start);
    KeepsSound(w, Next(w, Opens(start)));
  }

  lemma OpenedOne(w: World, start: S.State)
    requires OneGeneration(w) && Enabled(w, Opens(start))
    ensures OneGeneration(Next(w, Opens(start)))
  {
    var v := Next(w, Opens(start));
    forall h, h', token | Knows(v, h, token) && Knows(v, h', token) ensures h == h' {
      assert Knows(w, h, token) && Knows(w, h', token);
    }
  }

  // ---- the consumer moves -----------------------------------------------------------------------------------

  lemma AdoptBacked(w: World, s: C.State, out: C.Out)
    requires GrantBacked(w, s) && OutBacked(w, out)
    ensures GrantBacked(w, C.Adopt(s, out))
  {
  }

  ghost predicate OutcomeBacked(w: World, o: C.Outcome) {
    GrantBacked(w, o.state) && (o.frame.Some? ==> FrameBacked(w, o.frame.value))
  }

  lemma CallBacked(w: World, s: C.State, kind: C.Kind, token: string, reply: Option<C.Out>)
    requires GrantBacked(w, s) && (reply.Some? ==> OutBacked(w, reply.value))
    ensures OutcomeBacked(w, C.Request(s, kind, token)) && OutcomeBacked(w, C.Replied(s, kind, token, reply))
  {
  }

  lemma LocalBacked(w: World, s: C.State, token: string, to: Identity, nonce: string, now: int)
    requires GrantBacked(w, s)
    ensures OutcomeBacked(w, C.Done(C.Abandon(s))) && OutcomeBacked(w, C.Done(C.Disconnect(s)))
    ensures OutcomeBacked(w, C.End(s, token)) && OutcomeBacked(w, C.Resume(s, to, nonce, now))
    ensures OutcomeBacked(w, C.Read(s)) && OutcomeBacked(w, C.Invoke(s)) && OutcomeBacked(w, C.Done(s))
    ensures OutcomeBacked(w, C.Done(s.(resuming := false)))
  {
  }

  lemma ResumeBacked(w: World, s: C.State, f: C.Frame, ok: bool, reply: Option<C.Out>)
    requires GrantBacked(w, s) && (reply.Some? ==> OutBacked(w, reply.value))
    ensures f.Signing? ==> OutcomeBacked(w, C.Signed(s, f, ok))
    ensures f.Resuming? ==> OutcomeBacked(w, C.Answered(s, f, reply))
  {
  }

  lemma VerifiedBacked(w: World, s: C.State, f: C.Frame, ok: bool)
    requires GrantBacked(w, s) && f.Verifying? && OutBacked(w, f.out)
    ensures OutcomeBacked(w, C.Verified(s, f, ok))
  {
    if ok && C.Proven(s, f) && !s.disconnected && C.Unreplaced(s, f.original) {
      AdoptBacked(w, s.(identity := f.to), f.out);
    }
  }

  lemma DeliveredBacked(w: World, e: C.Event)
    requires AnswersBacked(w) && C.Enabled(w.consumer, e) && Delivers(w, e)
    ensures e.Replies? && e.reply.Some? ==> OutBacked(w, e.reply.value)
    ensures e.Answers? && e.reply.Some? ==> OutBacked(w, e.reply.value)
    ensures e.Adopts? ==> OutBacked(w, e.out)
  {
  }

  lemma EffectBacked(w: World, e: C.Event)
    requires Sound(w) && C.Enabled(w.consumer, e) && Delivers(w, e)
    ensures OutcomeBacked(w, C.Effect(w.consumer, e))
  {
    var s := w.consumer.state;
    DeliveredBacked(w, e);
    match e
    case Offers => CallBacked(w, s, C.OfferCall, C.GrantToken(s), None);
    case Asks(token) => CallBacked(w, s, C.StatusCall, token, None);
    case Adopts(out) => AdoptBacked(w, s, out);
    case Ends(token) => LocalBacked(w, s, token, s.identity, "", 0);
    case Resumes(to, nonce, now) => LocalBacked(w, s, "", to, nonce, now);
    case Replies(f, reply) => CallBacked(w, s, f.kind, f.token, reply);
    case Continues(f) =>
      assert FrameBacked(w, f);
      AdoptBacked(w, s, f.out);
    case Signs(f, ok) => ResumeBacked(w, s, f, ok, None);
    case Answers(f, reply) => ResumeBacked(w, s, f, true, reply);
    case Verifies(f, ok) =>
      assert FrameBacked(w, f);
      VerifiedBacked(w, s, f, ok);
    case _ => LocalBacked(w, s, "", s.identity, "", 0);
  }

  lemma ConsumeKeepsSound(w: World, c: C.Event)
    requires Sound(w) && Enabled(w, Consumes(c))
    ensures Sound(Next(w, Consumes(c))) && Keeps(w, Next(w, Consumes(c)))
  {
    var v := Next(w, Consumes(c));
    C.StepKeepsGood(w.consumer, c);
    EffectBacked(w, c);
    SameSuppliers(w, v);
    forall f | f in v.consumer.frames ensures FrameBacked(w, f) {
      assert f in w.consumer.frames || C.Effect(w.consumer, c).frame == Some(f);
    }
    AsBacked(w, v);
  }

  lemma SameSuppliers(w: World, v: World)
    requires v.suppliers == w.suppliers
    ensures Keeps(w, v) && (OneGeneration(w) ==> OneGeneration(v))
  {
    forall token, expires | Backed(w, token, expires) ensures Backed(v, token, expires) {
      var g :| g in w.suppliers && BackedBy(w.suppliers[g].state, token, expires);
      assert g in v.suppliers && BackedBy(v.suppliers[g].state, token, expires);
    }
    if OneGeneration(w) {
      forall h, h', token | Knows(v, h, token) && Knows(v, h', token) ensures h == h' {
        assert Knows(w, h, token) && Knows(w, h', token);
      }
    }
  }

  lemma AsBacked(w: World, v: World)
    requires AnswersBacked(w) && ConsumerBacked(w, v.consumer) && Keeps(w, v) && v.answers == w.answers
    requires SuppliersFaithful(w) && v.suppliers == w.suppliers
    ensures AnswersBacked(v) && ConsumerBacked(v, v.consumer) && SuppliersFaithful(v)
  {
    forall f | f in v.consumer.frames ensures FrameBacked(v, f) { assert FrameBacked(w, f); }
    forall a | a in v.answers ensures OutBacked(v, Read(a.reply)) { assert OutBacked(w, Read(a.reply)); }
  }

  lemma StepKeepsSound(w: World, e: Event)
    requires Sound(w) && Enabled(w, e)
    ensures Sound(Next(w, e)) && Keeps(w, Next(w, e))
  {
    match e
    case Opens(start) => OpenKeepsSound(w, start);
    case Supplies(g, s) => SupplyKeepsSound(w, g, s);
    case Consumes(c) => ConsumeKeepsSound(w, c);
  }

  /** Every grant the consumer ever holds was accepted by a supplier, with that expiry. */
  lemma {:induction false} ReachableSound(worlds: seq<World>, events: seq<Event>, k: nat)
    requires Run(worlds, events) && k < |worlds|
    ensures Sound(worlds[k])
  {
    if k > 0 {
      ReachableSound(worlds, events, k - 1);
      StepSound(worlds[k - 1], events[k - 1], worlds[k]);
    }
  }

  lemma StepSound(w: World, e: Event, v: World)
    requires Sound(w) && Step(w, e, v)
    ensures Sound(v) && Keeps(w, v)
  {
    StepKeepsSound(w, e);
  }

  lemma {:induction false} BackedOn(worlds: seq<World>, events: seq<Event>, i: nat, j: nat, token: string,
                                    expires: Option<int>)
    requires Run(worlds, events) && i <= j < |worlds| && Backed(worlds[i], token, expires)
    ensures Backed(worlds[j], token, expires)
    decreases j
  {
    if i < j {
      BackedOn(worlds, events, i, j - 1, token, expires);
      ReachableSound(worlds, events, j - 1);
      StepSound(worlds[j - 1], events[j - 1], worlds[j]);
    }
  }

  // ---- one expiry through the whole chain --------------------------------------------------------------------

  function HeldIn(w: World): Option<C.Grant> { w.consumer.state.grant }

  ghost predicate HeldSince(worlds: seq<World>, i: nat, k: nat, token: string)
    requires i <= k < |worlds|
  {
    exists m :: i <= m <= k && HeldIn(worlds[m]).Some? && HeldIn(worlds[m]).value.token == token
  }

  /** What status results and the host hand over between `i` and `j` was held at some point since `i`. */
  ghost predicate OnlyPolled(worlds: seq<World>, events: seq<Event>, i: nat, j: nat)
    requires i <= j < |worlds| && |worlds| == |events| + 1
  {
    forall k :: i <= k < j && events[k].Consumes? && C.Hands(worlds[k].consumer.state, events[k].c) ==>
      HeldSince(worlds, i, k, C.Handed(events[k].c).token)
  }

  predicate Expires(w: World, expires: Option<int>) { HeldIn(w).Some? ==> HeldIn(w).value.expires == expires }

  /** Handing over a token held before hands over its expiry. */
  lemma PolledExpiry(worlds: seq<World>, events: seq<Event>, m: nat, k: nat, c: C.Event)
    requires Run(worlds, events) && m <= k < |events| && events[k] == Consumes(c)
    requires C.Hands(worlds[k].consumer.state, c)
    requires HeldIn(worlds[m]).Some? && HeldIn(worlds[m]).value.token == C.Handed(c).token
    ensures HeldIn(worlds[k + 1]).Some? && HeldIn(worlds[k + 1]).value.expires == HeldIn(worlds[m]).value.expires
  {
    assert Step(worlds[k], events[k], worlds[k + 1]);
    C.HandedHeld(worlds[k].consumer, c);
    var token, out := HeldIn(worlds[m]).value.token, C.Handed(c);
    ReachableSound(worlds, events, m);
    ReachableSound(worlds, events, k + 1);
    BackedOn(worlds, events, m, k + 1, token, HeldIn(worlds[m]).value.expires);
    OneExpiry(worlds[k + 1], token, HeldIn(worlds[m]).value.expires, HeldIn(worlds[k + 1]).value.expires);
  }

  lemma StepExpires(worlds: seq<World>, events: seq<Event>, i: nat, k: nat, expires: Option<int>)
    requires Run(worlds, events) && i <= k < |events| && OnlyPolled(worlds, events, i, k + 1)
    requires forall m :: i <= m <= k ==> Expires(worlds[m], expires)
    ensures Expires(worlds[k + 1], expires)
  {
    var w, e := worlds[k], events[k];
    assert Step(w, e, worlds[k + 1]);
    if e.Consumes? {
      if C.Hands(w.consumer.state, e.c) {
        var m :| i <= m <= k && HeldIn(worlds[m]).Some? && HeldIn(worlds[m]).value.token == C.Handed(e.c).token;
        PolledExpiry(worlds, events, m, k, e.c);
        assert Expires(worlds[m], expires);
      } else {
        ReachableSound(worlds, events, k);
        C.ExpiryKept(w.consumer, e.c);
        assert Expires(worlds[k], expires);
      }
    } else {
      assert worlds[k + 1].consumer == w.consumer && Expires(worlds[k], expires);
    }
  }

  /** Through any number of resumes, if all that was handed over had been held: a grant continued from another
      has exactly the first one's expiry. */
  lemma {:induction false} PolledExpiryKept(worlds: seq<World>, events: seq<Event>, i: nat, j: nat)
    requires Run(worlds, events) && i <= j < |worlds| && OnlyPolled(worlds, events, i, j)
    requires HeldIn(worlds[i]).Some?
    ensures forall m :: i <= m <= j ==> Expires(worlds[m], HeldIn(worlds[i]).value.expires)
    decreases j
  {
    if i < j {
      PolledExpiryKept(worlds, events, i, j - 1);
      StepExpires(worlds, events, i, j - 1, HeldIn(worlds[i]).value.expires);
    }
  }

  // ---- polls for what is held --------------------------------------------------------------------------------

  /** What a status call in flight asks for, or what it is about to hand over. */
  function Polled(f: C.Frame): Option<string> {
    if f.Calling? && f.kind.StatusCall? then Some(f.token)
    else if f.Returned? && f.kind.StatusCall? && f.out.status.AcceptedOut? then Some(f.out.token)
    else None
  }

  /** Every status call in flight is for a token held since `i`. */
  ghost predicate PollsHeld(worlds: seq<World>, i: nat, k: nat)
    requires i <= k < |worlds|
  {
    forall f :: f in worlds[k].consumer.frames && Polled(f).Some? ==> HeldSince(worlds, i, k, Polled(f).value)
  }

  /** Between `i` and `j` the host asks for, and adopts, only tokens held since `i`. */
  ghost predicate AsksHeld(worlds: seq<World>, events: seq<Event>, i: nat, j: nat)
    requires i <= j < |worlds| && |worlds| == |events| + 1
  {
    forall k :: i <= k < j && events[k].Consumes? ==>
      && (events[k].c.Asks? ==> HeldSince(worlds, i, k, events[k].c.token))
      && (C.HostAdopts(worlds[k].consumer.state, events[k].c) ==> HeldSince(worlds, i, k, events[k].c.out.token))
  }

  /** A status call in flight was asked for, and its answer is of the token it asked for. */
  lemma PolledBefore(w: World, c: C.Event, f: C.Frame)
    requires Sound(w) && Enabled(w, Consumes(c)) && C.Effect(w.consumer, c).frame == Some(f) && Polled(f).Some?
    ensures (c.Asks? && Polled(f).value == c.token)
            || (c.Replies? && Polled(c.f) == Polled(f))
  {
  }

  lemma HeldOn(worlds: seq<World>, i: nat, k: nat, token: string)
    requires i <= k < |worlds| - 1 && HeldSince(worlds, i, k, token)
    ensures HeldSince(worlds, i, k + 1, token)
  {
  }

  lemma PollsStep(worlds: seq<World>, events: seq<Event>, i: nat, k: nat)
    requires Run(worlds, events) && i <= k < |events| && PollsHeld(worlds, i, k) && AsksHeld(worlds, events, i, k + 1)
    ensures PollsHeld(worlds, i, k + 1)
  {
    var w, e := worlds[k], events[k];
    assert Step(w, e, worlds[k + 1]);
    ReachableSound(worlds, events, k);
    forall f | f in worlds[k + 1].consumer.frames && Polled(f).Some?
      ensures HeldSince(worlds, i, k + 1, Polled(f).value)
    {
      if f !in w.consumer.frames { PolledBefore(w, e.c, f); }
      HeldOn(worlds, i, k, Polled(f).value);
    }
  }

  lemma {:induction false} PollsOn(worlds: seq<World>, events: seq<Event>, i: nat, j: nat)
    requires Run(worlds, events) && i <= j < |worlds| && PollsHeld(worlds, i, i) && AsksHeld(worlds, events, i, j)
    ensures PollsHeld(worlds, i, j)
    decreases j
  {
    if i < j {
      PollsOn(worlds, events, i, j - 1);
      PollsStep(worlds, events, i, j - 1);
    }
  }

  lemma HandsPolled(worlds: seq<World>, events: seq<Event>, i: nat, k: nat, c: C.Event)
    requires Run(worlds, events) && i <= k < |events| && PollsHeld(worlds, i, k) && AsksHeld(worlds, events, i, k + 1)
    requires events[k] == Consumes(c) && C.Hands(worlds[k].consumer.state, c)
    ensures HeldSince(worlds, i, k, C.Handed(c).token)
  {
    assert Step(worlds[k], events[k], worlds[k + 1]);
    if c.Continues? { assert Polled(c.f) == Some(c.f.out.token); }
  }

  lemma AsksPolled(worlds: seq<World>, events: seq<Event>, i: nat, j: nat)
    requires Run(worlds, events) && i <= j < |worlds| && PollsHeld(worlds, i, i) && AsksHeld(worlds, events, i, j)
    ensures OnlyPolled(worlds, events, i, j)
  {
    forall k | i <= k < j && events[k].Consumes? && C.Hands(worlds[k].consumer.state, events[k].c)
      ensures HeldSince(worlds, i, k, C.Handed(events[k].c).token)
    {
      PollsOn(worlds, events, i, k);
      HandsPolled(worlds, events, i, k, events[k].c);
    }
  }

  /** Through any number of resumes, to any generations, with any polls of the grant's status between and during
      them, and whatever the channel loses, delays or repeats: as long as only tokens held since are asked for
      or adopted, every grant has exactly the first one's expiry. */
  lemma FirstExpiryKept(worlds: seq<World>, events: seq<Event>, i: nat, j: nat)
    requires Run(worlds, events) && i <= j < |worlds| && HeldIn(worlds[i]).Some? && HeldIn(worlds[j]).Some?
    requires PollsHeld(worlds, i, i) && AsksHeld(worlds, events, i, j)
    ensures HeldIn(worlds[j]).value.expires == HeldIn(worlds[i]).value.expires
  {
    AsksPolled(worlds, events, i, j);
    PolledExpiryKept(worlds, events, i, j);
    assert Expires(worlds[j], HeldIn(worlds[i]).value.expires);
  }

  // ---- authority travels with its expiry ---------------------------------------------------------------------

  predicate OutBound(out: C.Out) { out.status.AcceptedOut? ==> Bound(out) }

  predicate FrameBound(f: C.Frame) { f.Returned? || f.Verifying? ==> OutBound(f.out) }

  predicate GrantBound(s: C.State) {
    s.grant.Some? && s.grant.value.resume.Some? ==> s.grant.value.expires == Some(s.grant.value.resume.value.expires)
  }

  ghost predicate ConsumerBound(c: C.Sys) {
    GrantBound(c.state) && forall f :: f in c.frames ==> FrameBound(f)
  }

  /** All authority retained, answered, on its way or held expires with its grant. */
  ghost predicate AllBound(w: World) {
    && (forall g :: g in w.suppliers ==> Retained(w.suppliers[g].state))
    && (forall a :: a in w.answers ==> OutBound(Read(a.reply))) && ConsumerBound(w.consumer)
  }

  lemma StatusOutBound(s: S.State, token: string)
    requires Retained(s) && token in s.offers
    ensures OutBound(Read(S.StatusOf(s, token)))
  {
  }

  lemma EndedBound(x: S.State, token: string)
    requires Retained(x) && token in x.offers
    ensures var t := S.Finish(x, {token}, "consumer ended"); token in t.offers && OutBound(Read(S.StatusOf(t, token)))
  {
    FinishAdds(x, {token}, "consumer ended");
    FinishRetains(x, {token}, "consumer ended");
    StatusOutBound(S.Finish(x, {token}, "consumer ended"), token);
  }

  lemma OfferBound(x: S.State, now: int, r: S.Request, id: string)
    requires Retained(x)
    ensures var o := S.ReceiveOffer(x, now, r, id); o.reply.Some? && OutBound(Read(o.reply.value))
  {
  }

  lemma NowBound(x: S.State, now: int, r: S.Request, id: string, read: Option<S.Observation>)
    requires Retained(x)
    ensures var o := S.ReceiveNow(x, now, r, id, read); o.reply.Some? ==> OutBound(Read(o.reply.value))
  {
    if S.Addressed(x, r) && now < r.deadline {
      if r.operation.OfferOp? {
        OfferBound(x, now, r, id);
      } else if r.token in x.offers {
        EndedBound(x, r.token);
        StatusOutBound(x, r.token);
      }
    }
  }

  lemma SaidBound(sys: S.Sys, e: S.Event)
    requires S.Enabled(sys, e) && AllFaithful(sys) && Retained(sys.state)
    ensures S.Said(sys, e).Some? ==> OutBound(Read(S.Said(sys, e).value.1))
  {
    match e
    case Arrives(now, r, id, read) =>
      FinishRetains(sys.state, S.Due(sys.state, now), "expired");
      FinishAdds(sys.state, S.Due(sys.state, now), "expired");
      NowBound(S.Expire(sys.state, now), now, r, id, read);
    case ChecksProof(f, ok) =>
    case SignsProof(f, ok, now, id, secret) =>
      assert Faithful(sys.state, f);
      SignedInKind(sys.state, f, ok, now, id, secret);
    case Prepares(f, ok, now, read, throws) => PreparedEchoes(sys.state, f, ok, now, read, throws);
    case _ =>
  }

  lemma SupplyKeepsBound(w: World, g: string, s: S.Event)
    requires Sound(w) && AllBound(w) && Enabled(w, Supplies(g, s))
    ensures AllBound(Next(w, Supplies(g, s)))
  {
    SaidBound(w.suppliers[g], s);
    StepRetains(w.suppliers[g], s);
    SuppliedBound(w, g, S.Next(w.suppliers[g], s), S.Said(w.suppliers[g], s));
  }

  lemma SuppliedBound(w: World, g: string, next: S.Sys, said: Option<(S.Request, S.Reply)>)
    requires AllBound(w) && g in w.suppliers && Retained(next.state) && (said.Some? ==> OutBound(Read(said.value.1)))
    ensures AllBound(Supplied(w, g, next, said))
  {
  }

  predicate OutcomeBound(o: C.Outcome) {
    GrantBound(o.state) && (o.frame.Some? ==> FrameBound(o.frame.value))
  }

  lemma CallBound(s: C.State, kind: C.Kind, token: string, reply: Option<C.Out>)
    requires GrantBound(s) && (reply.Some? ==> OutBound(reply.value))
    ensures OutcomeBound(C.Request(s, kind, token)) && OutcomeBound(C.Replied(s, kind, token, reply))
  {
  }

  lemma LocalBound(s: C.State, token: string, to: Identity, nonce: string, now: int)
    requires GrantBound(s)
    ensures OutcomeBound(C.Done(C.Abandon(s))) && OutcomeBound(C.Done(C.Disconnect(s)))
    ensures OutcomeBound(C.End(s, token)) && OutcomeBound(C.Resume(s, to, nonce, now))
    ensures OutcomeBound(C.Read(s)) && OutcomeBound(C.Invoke(s)) && OutcomeBound(C.Done(s))
    ensures OutcomeBound(C.Done(s.(resuming := false)))
  {
  }

  lemma ResumeBound(s: C.State, f: C.Frame, ok: bool, reply: Option<C.Out>)
    requires GrantBound(s) && (reply.Some? ==> OutBound(reply.value)) && FrameBound(f)
    ensures f.Signing? ==> OutcomeBound(C.Signed(s, f, ok))
    ensures f.Resuming? ==> OutcomeBound(C.Answered(s, f, reply))
    ensures f.Verifying? ==> OutcomeBound(C.Verified(s, f, ok))
  {
  }

  lemma DeliveredBound(w: World, e: C.Event)
    requires AllBound(w) && C.Enabled(w.consumer, e) && Delivers(w, e)
    ensures e.Replies? && e.reply.Some? ==> OutBound(e.reply.value)
    ensures e.Answers? && e.reply.Some? ==> OutBound(e.reply.value)
    ensures e.Adopts? ==> OutBound(e.out)
  {
  }

  lemma EffectBound(w: World, e: C.Event)
    requires AllBound(w) && C.Enabled(w.consumer, e) && Delivers(w, e)
    ensures OutcomeBound(C.Effect(w.consumer, e))
  {
    var s := w.consumer.state;
    DeliveredBound(w, e);
    match e
    case Offers => CallBound(s, C.OfferCall, C.GrantToken(s), None);
    case Asks(token) => CallBound(s, C.StatusCall, token, None);
    case Ends(token) => LocalBound(s, token, s.identity, "", 0);
    case Resumes(to, nonce, now) => LocalBound(s, "", to, nonce, now);
    case Replies(f, reply) => CallBound(s, f.kind, f.token, reply);
    case Continues(f) => assert FrameBound(f);
    case Adopts(out) =>
    case Signs(f, ok) => ResumeBound(s, f, ok, None);
    case Answers(f, reply) => ResumeBound(s, f, true, reply);
    case Verifies(f, ok) =>
      assert FrameBound(f);
      ResumeBound(s, f, ok, None);
    case _ => LocalBound(s, "", s.identity, "", 0);
  }

  lemma ConsumeKeepsBound(w: World, c: C.Event)
    requires AllBound(w) && Enabled(w, Consumes(c))
    ensures AllBound(Next(w, Consumes(c)))
  {
    EffectBound(w, c);
    var next := C.Next(w.consumer, c);
    forall f | f in next.frames ensures FrameBound(f) {
      assert f in w.consumer.frames || C.Effect(w.consumer, c).frame == Some(f);
    }
  }

  predicate Configured(e: Event) { e.Opens? ==> e.start.keeps || e.start.authority.None? }

  lemma StepKeepsBound(w: World, e: Event, v: World)
    requires Sound(w) && AllBound(w) && Step(w, e, v) && Configured(e)
    ensures AllBound(v)
  {
    match e
    case Opens(start) =>
    case Supplies(g, s) => SupplyKeepsBound(w, g, s);
    case Consumes(c) => ConsumeKeepsBound(w, c);
  }

  /** If every supplier either retains authority for others or starts with none, whatever authority the consumer
      holds expires with its grant, so a resume from it is answered in kind. */
  lemma {:induction false} GrantsCarryBound(worlds: seq<World>, events: seq<Event>, k: nat)
    requires Run(worlds, events) && k < |worlds| && forall n :: 0 <= n < |events| ==> Configured(events[n])
    ensures AllBound(worlds[k])
  {
    if k > 0 {
      GrantsCarryBound(worlds, events, k - 1);
      ReachableSound(worlds, events, k - 1);
      StepKeepsBound(worlds[k - 1], events[k - 1], worlds[k]);
    }
  }

  // ---- an honest resume is adopted --------------------------------------------------------------------------

  /** The consumer still holds the grant its resume in flight began from, the supplier it was sent to is about to
      answer that very resume from the authority the consumer signed with, and nothing it rests on changed. */
  ghost predicate AboutToResume(w: World, c: C.Frame, f: S.Frame, now: int, id: string) {
    var s := w.consumer.state;
    && c in w.consumer.frames && c.Resuming? && C.Unreplaced(s, c.original) && !s.disconnected && id !in s.ended
    && c.to.generation in w.suppliers
    && var sys := w.suppliers[c.to.generation];
       && sys.state.identity == c.to && f in sys.frames && f.Signing?
       && f.authority == c.r && f.nonce == c.nonce && f.r.consumer == s.consumer
       && S.StillResumable(sys.state, now, f) && id != "" && Unused(w, id)
  }

  function GrantedReply(w: World, c: C.Frame, f: S.Frame, now: int, id: string, secret: int): S.Outcome
    requires c.Resuming? && c.to.generation in w.suppliers && f.Signing?
  {
    S.Signed(w.suppliers[c.to.generation].state, f, true, now, id, secret)
  }

  /** The supplier grants, in kind. */
  lemma AnswersResume(w: World, c: C.Frame, f: S.Frame, now: int, id: string, secret: int)
    returns (e: Event, v: World, out: C.Out)
    requires Sound(w) && AllBound(w) && AboutToResume(w, c, f, now, id)
    ensures e == Supplies(c.to.generation, S.SignsProof(f, true, now, id, secret)) && Step(w, e, v)
    ensures v.consumer == w.consumer && InKind(out, id, f, c.to) && AnsweredResume(v, c, out)
  {
    var g := c.to.generation;
    e := Supplies(g, S.SignsProof(f, true, now, id, secret));
    assert Faithful(w.suppliers[g].state, f);
    SignedInKind(w.suppliers[g].state, f, true, now, id, secret);
    v := Next(w, e);
    out := Read(GrantedReply(w, c, f, now, id, secret).reply.value);
    assert Answer(g, f.r, GrantedReply(w, c, f, now, id, secret).reply.value) in v.answers;
  }

  /** The consumer takes the answer up and finds it proven. */
  lemma TakesAnswer(v: World, c: C.Frame, f: S.Frame, id: string, out: C.Out)
    returns (x: World, d: C.Frame, y: World)
    requires c.Resuming? && f.Signing? && AnsweredResume(v, c, out) && InKind(out, id, f, c.to)
    requires C.Good(v.consumer) && ConsumerBound(v.consumer)
    requires c in v.consumer.frames && C.Unreplaced(v.consumer.state, c.original) && !v.consumer.state.disconnected
    requires id != "" && id !in v.consumer.state.ended
    requires f.authority == c.r && f.nonce == c.nonce && f.r.consumer == v.consumer.state.consumer
    ensures Step(v, Consumes(C.Answers(c, Some(out))), x) && Step(x, Consumes(C.Verifies(d, true)), y)
    ensures HeldIn(y).Some? && HeldIn(y).value.token == id && HeldIn(y).value.expires == c.original.expires
    ensures y.consumer.state.identity == c.to
  {
    assert C.Remembers(v.consumer.state, c);
    d := C.Verifying(c.to, c.original, c.r, c.nonce, out);
    x := Next(v, Consumes(C.Answers(c, Some(out))));
    assert x.consumer == C.Sys(v.consumer.state, v.consumer.frames - multiset{c} + multiset{d});
    VerifiesAnswer(x, d, id);
    y := Next(x, Consumes(C.Verifies(d, true)));
  }

  lemma VerifiesAnswer(x: World, d: C.Frame, id: string)
    requires d in x.consumer.frames && d.Verifying? && C.Proven(x.consumer.state, d) && d.out.status.AcceptedOut?
    requires C.Unreplaced(x.consumer.state, d.original) && !x.consumer.state.disconnected
    requires d.out.token == id && id != "" && id !in x.consumer.state.ended && d.out.expires == d.original.expires
    ensures var y := Next(x, Consumes(C.Verifies(d, true)));
            && Step(x, Consumes(C.Verifies(d, true)), y)
            && HeldIn(y).Some? && HeldIn(y).value.token == id && HeldIn(y).value.expires == d.original.expires
            && y.consumer.state.identity == d.to
  {
  }

  /** In every run in which authority is bound to its grants, an honest answer is never refused: three steps more
      and the consumer holds what the supplier granted, with the expiry of the grant it continues, at the new
      generation. */
  lemma HonestResumeAdopted(worlds: seq<World>, events: seq<Event>, k: nat, c: C.Frame, f: S.Frame, now: int,
                            id: string, secret: int)
    returns (v: World, out: C.Out, x: World, d: C.Frame, y: World)
    requires Run(worlds, events) && k < |worlds| && forall n :: 0 <= n < |events| ==> Configured(events[n])
    requires AboutToResume(worlds[k], c, f, now, id)
    ensures Step(worlds[k], Supplies(c.to.generation, S.SignsProof(f, true, now, id, secret)), v)
    ensures Step(v, Consumes(C.Answers(c, Some(out))), x) && Step(x, Consumes(C.Verifies(d, true)), y)
    ensures HeldIn(y).Some? && HeldIn(y).value.token == id && HeldIn(y).value.expires == c.original.expires
    ensures y.consumer.state.identity == c.to
  {
    ReachableSound(worlds, events, k);
    GrantsCarryBound(worlds, events, k);
    var e;
    e, v, out := AnswersResume(worlds[k], c, f, now, id, secret);
    x, d, y := TakesAnswer(v, c, f, id, out);
  }
}
