/** What a supplier's answers mean to a consumer: authority bound to the grant it comes with, and resumes
    answered in kind. */
module Pairing {
  import opened Wrappers
  import opened Authorities
  import S = AssistanceSteps
  import C = ConsumerSteps

  /** A supplier's reply as the consumer reads it. */
  function Read(reply: S.Reply): C.Out {
    match reply
    case GrantReply(token, accepted, epoch, expires, resume, proof) =>
      C.Out(if accepted then C.AcceptedOut else C.OtherOut, token, Some(epoch), Some(expires), resume, proof)
    case EndedReply(token, _) => C.Out(C.EndedOut, token, None, None, None, None)
    case UnknownReply => C.UNKNOWN
    case _ => C.Out(C.OtherOut, "", None, None, None, None)
  }

  /** The consumer hears of a grant exactly when one was accepted, of an end exactly when the offer ended, and that the
      outcome is unknown exactly when the supplier does not know it; a grant keeps its terms. */
  lemma ReadsExactly(reply: S.Reply)
    ensures Read(reply).status.AcceptedOut? <==> reply.GrantReply? && reply.accepted
    ensures Read(reply).status.EndedOut? <==> reply.EndedReply?
    ensures Read(reply).status.UnknownOut? <==> reply.UnknownReply?
    ensures reply.GrantReply? ==> && Read(reply).token == reply.token && Read(reply).epoch == Some(reply.epoch)
                                  && Read(reply).expires == Some(reply.expires)
                                  && Read(reply).resume == reply.resume && Read(reply).proof == reply.proof
    ensures reply.EndedReply? ==> Read(reply).token == reply.token
  {
    match reply
    case GrantReply(_, _, _, _, _, _) =>
    case EndedReply(_, _) =>
    case _ =>
  }

  // ---- authority bound to its grant -------------------------------------------------------------------------

  /** The authority a reply carries expires with the grant it carries. */
  predicate Bound(out: C.Out) {
    out.resume.Some? ==> out.expires == Some(out.resume.value.expires)
  }

  /** What is retained expires with the active offer; without `saveResume` nothing is retained at all. */
  ghost predicate Retained(s: S.State) {
    && (s.keeps || s.authority.None?)
    && (s.active.Some? && s.active.value in s.offers && s.authority.Some?
        ==> s.authority.value.expires == s.offers[s.active.value].deadline)
  }

  lemma FinishRetains(s: S.State, tokens: set<string>, reason: string)
    requires Retained(s)
    ensures Retained(S.Finish(s, tokens, reason))
  {
  }

  lemma AcceptRetains(s: S.State, now: int, token: string, secret: int)
    requires Retained(s)
    ensures Retained(S.Accept(s, now, token, secret))
  {
    var x := S.Expire(s, now);
    FinishRetains(s, S.Due(s, now), "expired");
    if S.Acceptable(x, token) {
      var o := x.offers[token].(status := S.Accepted, epoch := x.epoch + 1, deadline := now + x.grantMs);
      FinishRetains(S.Grant(x, token, o, secret), S.Pendings(S.Grant(x, token, o, secret)), "busy");
    }
  }

  lemma ReceiveRetains(s: S.State, now: int, r: S.Request, id: string, read: Option<S.Observation>)
    requires Retained(s) && id !in s.offers
    ensures Retained(S.ReceiveNow(s, now, r, id, read).state)
  {
    FinishRetains(s, {r.token}, "consumer ended");
  }

  /** Every step of a supplier keeps what is retained bound to the active offer. */
  lemma StepRetains(sys: S.Sys, e: S.Event)
    requires Retained(sys.state) && S.Enabled(sys, e)
    ensures Retained(S.Next(sys, e).state)
  {
    var s := sys.state;
    match e
    case Accepts(now, token, secret) => AcceptRetains(s, now, token, secret);
    case Declines(token) => FinishRetains(s, {token}, "declined");
    case Looks(now) => FinishRetains(s, S.Due(s, now), "expired");
    case Arrives(now, r, id, read) =>
      FinishRetains(s, S.Due(s, now), "expired");
      ReceiveRetains(S.Expire(s, now), now, r, id, read);
    case Prepares(f, ok, now, read, throws) =>
      FinishRetains(s, S.Due(s, now), "expired");
      S.PreparedState(s, f, ok, now, read, throws);
    case _ =>
  }

  lemma {:induction false} RunRetains(start: S.State, states: seq<S.Sys>, events: seq<S.Event>, k: nat)
    requires S.Fresh(start) && (start.keeps || start.authority.None?) && S.Run(start, states, events) && k < |states|
    ensures Retained(states[k].state)
  {
    if k > 0 {
      RunRetains(start, states, events, k - 1);
      assert S.Step(states[k - 1], events[k - 1], states[k]);
      StepRetains(states[k - 1], events[k - 1]);
    }
  }

  /** Every status a supplier could give carries authority that expires with its grant. */
  ghost predicate StatusesBound(s: S.State) {
    forall token :: token in s.offers ==> Bound(Read(S.StatusOf(s, token)))
  }

  /** Without `saveResume`, but constructed with retained authority: an offer accepted at any time but the one
      gives a status that carries that authority, though the offer expires at another time. */
  lemma StatusUnbound(start: S.State, now: int) returns (states: seq<S.Sys>, events: seq<S.Event>)
    requires S.Fresh(start) && !start.keeps && start.authority.Some?
    requires now + start.grantMs != start.authority.value.expires
    ensures S.Run(start, states, events) && !StatusesBound(states[|events|].state)
    ensures |events| == 4 && events[3] == S.Accepts(now, "b", 0)
  {
    var r := S.Request(1, start.identity, "c", S.OfferOp, now + 1, "", None);
    var s0 := S.Sys(start, multiset{}, []);
    var s1 := S.Sys(start.(enabled := true), multiset{}, []);
    var s2 := S.Sys(start.(enabled := true, ready := true), multiset{}, []);
    var s3, s4 := OfferedAccepted(s2, now, r);
    states := [s0, s1, s2, s3, s4];
    events := [S.Enables(true), S.Readies(true), S.Arrives(now, r, "b", None), S.Accepts(now, "b", 0)];
    assert S.Step(s0, events[0], s1) && S.Step(s1, events[1], s2);
    assert !Bound(Read(S.StatusOf(s4.state, "b")));
  }

  lemma OfferedAccepted(sys: S.Sys, now: int, r: S.Request) returns (x: S.Sys, y: S.Sys)
    requires var s := sys.state; s.enabled && s.ready && s.active.None? && s.offers == map[] && !s.keeps
    requires S.Addressed(sys.state, r) && r.operation.OfferOp? && r.deadline == now + 1
    ensures S.Step(sys, S.Arrives(now, r, "b", None), x) && S.Step(x, S.Accepts(now, "b", 0), y)
    ensures y.state.active == Some("b") && y.state.authority == sys.state.authority
    ensures "b" in y.state.offers && y.state.offers["b"].status.Accepted?
    ensures y.state.offers["b"].deadline == now + sys.state.grantMs
  {
    S.NothingDue(sys.state, now);
    x := S.Next(sys, S.Arrives(now, r, "b", None));
    assert x.state == sys.state.(offers := map["b" := S.Offer(r.consumer, now + 1, 0, S.Pending)]);
    S.NothingDue(x.state, now);
    y := S.Next(x, S.Accepts(now, "b", 0));
  }

  /** Every status in every run carries authority that expires with its grant if and only if `saveResume` is
      configured or the supplier was constructed without retained authority. */
  lemma StatusBound(start: S.State)
    requires S.Fresh(start)
    ensures (forall states: seq<S.Sys>, events: seq<S.Event> ::
               S.Run(start, states, events) ==> StatusesBound(states[|events|].state))
            <==> start.keeps || start.authority.None?
  {
    if start.keeps || start.authority.None? {
      forall states: seq<S.Sys>, events: seq<S.Event> | S.Run(start, states, events)
        ensures StatusesBound(states[|events|].state)
      {
        RunRetains(start, states, events, |events|);
      }
    } else {
      var states, events := StatusUnbound(start, start.authority.value.expires - start.grantMs + 1);
    }
  }

  // ---- what a resume is answered ----------------------------------------------------------------------------

  /** The retained authority is another object, or the same value. */
  predicate SameAuthority(s: S.State, t: S.State) {
    s.serial <= t.serial && (t.serial == s.serial ==> t.authority == s.authority)
  }

  /** A resume in flight began with authority for its own consumer, and knows when that is still the object. */
  predicate Faithful(s: S.State, f: S.Frame) {
    f.Checking? || f.Signing? ==>
      && f.r.operation.ResumeOp? && f.authority.consumer == f.r.consumer && f.serial <= s.serial
      && (f.serial == s.serial ==> s.authority == Some(f.authority))
  }

  ghost predicate AllFaithful(sys: S.Sys) {
    forall f :: f in sys.frames ==> Faithful(sys.state, f)
  }

  predicate Answered(s: S.State, o: S.Outcome) {
    SameAuthority(s, o.state) && (o.frame.Some? ==> Faithful(o.state, o.frame.value))
  }

  lemma FinishSame(s: S.State, tokens: set<string>, reason: string)
    ensures SameAuthority(s, S.Finish(s, tokens, reason))
  {
  }

  lemma AcceptSame(x: S.State, now: int, token: string, secret: int)
    ensures SameAuthority(x, S.AcceptNow(x, now, token, secret))
  {
    if S.Acceptable(x, token) {
      var o := x.offers[token].(status := S.Accepted, epoch := x.epoch + 1, deadline := now + x.grantMs);
      FinishSame(S.Grant(x, token, o, secret), S.Pendings(S.Grant(x, token, o, secret)), "busy");
    }
  }

  lemma OperatorSame(s: S.State, e: S.Event)
    requires !e.Arrives? && !e.ChecksProof? && !e.SignsProof? && !e.Prepares?
    ensures SameAuthority(s, S.Next(S.Sys(s, multiset{}, []), e).state)
  {
    match e
    case Enables(on) => FinishSame(s.(enabled := on), s.offers.Keys, "disabled");
    case Readies(on) => FinishSame(s.(ready := on), s.offers.Keys, "disconnected");
    case Accepts(now, token, secret) =>
      FinishSame(s, S.Due(s, now), "expired");
      AcceptSame(S.Expire(s, now), now, token, secret);
    case Declines(token) => FinishSame(s, {token}, "declined");
    case Ends(reason) => FinishSame(s, s.offers.Keys, reason);
    case Looks(now) => FinishSame(s, S.Due(s, now), "expired");
  }

  lemma NowAnswered(x: S.State, now: int, r: S.Request, id: string, read: Option<S.Observation>)
    ensures Answered(x, S.ReceiveNow(x, now, r, id, read))
  {
    if S.Addressed(x, r) && now < r.deadline {
      if r.operation.ResumeOp? {
        ResumeOpenAnswered(x, now, r);
      } else if r.operation.OfferOp? {
        assert Answered(x, S.ReceiveOffer(x, now, r, id));
      } else if r.token in x.offers && x.offers[r.token].consumer == r.consumer {
        if r.operation.EndOp? {
          FinishSame(x, {r.token}, "consumer ended");
        } else if r.operation.InvokeOp? {
          assert Answered(x, S.ReceiveInvoke(x, r, r.operation.input, read));
        }
      }
    }
  }

  lemma ResumeOpenAnswered(x: S.State, now: int, r: S.Request)
    requires r.operation.ResumeOp?
    ensures Answered(x, S.ReceiveResume(x, now, r, r.operation.signed))
  {
  }

  lemma ArrivalAnswered(s: S.State, now: int, r: S.Request, id: string, read: Option<S.Observation>)
    ensures Answered(s, S.Receive(s, now, r, id, read))
  {
    FinishSame(s, S.Due(s, now), "expired");
    NowAnswered(S.Expire(s, now), now, r, id, read);
  }

  lemma ResumeAnswered(s: S.State, f: S.Frame, ok: bool, now: int, id: string, secret: int)
    requires Faithful(s, f)
    ensures f.Checking? ==> Answered(s, S.Checked(s, f, ok))
    ensures f.Signing? ==> Answered(s, S.Signed(s, f, ok, now, id, secret))
  {
  }

  lemma FaithfulAfter(sys: S.Sys, rest: multiset<S.Frame>, o: S.Outcome)
    requires AllFaithful(sys) && Answered(sys.state, o) && forall f :: f in rest ==> f in sys.frames
    ensures AllFaithful(S.After(sys, rest, o))
  {
    forall f | f in S.After(sys, rest, o).frames ensures Faithful(o.state, f) {
      if f in rest { assert Faithful(sys.state, f); }
    }
  }

  lemma StepFaithful(sys: S.Sys, e: S.Event)
    requires AllFaithful(sys) && S.Enabled(sys, e)
    ensures AllFaithful(S.Next(sys, e))
  {
    match e
    case Arrives(now, r, id, read) =>
      ArrivalAnswered(sys.state, now, r, id, read);
      FaithfulAfter(sys, sys.frames, S.Receive(sys.state, now, r, id, read));
    case ChecksProof(f, ok) =>
      assert Faithful(sys.state, f);
      ResumeAnswered(sys.state, f, ok, 0, "", 0);
      FaithfulAfter(sys, sys.frames - multiset{f}, S.Checked(sys.state, f, ok));
    case SignsProof(f, ok, now, id, secret) =>
      assert Faithful(sys.state, f);
      ResumeAnswered(sys.state, f, ok, now, id, secret);
      FaithfulAfter(sys, sys.frames - multiset{f}, S.Signed(sys.state, f, ok, now, id, secret));
    case Prepares(f, ok, now, read, throws) =>
      S.PreparedState(sys.state, f, ok, now, read, throws);
      FinishSame(sys.state, S.Due(sys.state, now), "expired");
      FaithfulAfter(sys, sys.frames - multiset{f}, S.Prepared(sys.state, f, ok, now, read, throws).0);
    case _ =>
      OperatorSame(sys.state, e);
      forall f | f in sys.frames ensures Faithful(S.Next(sys, e).state, f) { assert Faithful(sys.state, f); }
  }

  lemma {:induction false} RunFaithful(start: S.State, states: seq<S.Sys>, events: seq<S.Event>, k: nat)
    requires S.Run(start, states, events) && k < |states|
    ensures AllFaithful(states[k])
  {
    if k > 0 {
      RunFaithful(start, states, events, k - 1);
      assert S.Step(states[k - 1], events[k - 1], states[k]);
      StepFaithful(states[k - 1], events[k - 1]);
    }
  }

  /** The answer continues the authority: same expiry, authority of the same expiry for the same consumer, and
      the proof the consumer expects. */
  predicate InKind(out: C.Out, id: string, f: S.Frame, identity: Identity)
    requires f.Signing?
  {
    && out.status.AcceptedOut? && out.token == id && out.expires == Some(f.authority.expires)
    && out.resume.Some? && out.resume.value.expires == f.authority.expires && out.resume.value.consumer == f.r.consumer
    && out.proof == Some(Proof(f.authority.secret, "response", identity, f.r.consumer, f.nonce))
  }

  lemma SignedInKind(s: S.State, f: S.Frame, ok: bool, now: int, id: string, secret: int)
    requires f.Signing? && Faithful(s, f)
    ensures var o := S.Signed(s, f, ok, now, id, secret);
            && o.reply.Some? && (o.reply.value.GrantReply? <==> ok && S.StillResumable(s, now, f))
            && (o.reply.value.GrantReply? ==> InKind(Read(o.reply.value), id, f, s.identity))
  {
  }

  /** In every run of every supplier, `saveResume` or not: what is granted to a resume expires exactly when the
      authority it began with does, carries authority of that expiry, and proves itself. */
  lemma ResumeAnswersInKind(start: S.State, states: seq<S.Sys>, events: seq<S.Event>, k: nat)
    requires S.Run(start, states, events) && k < |events| && events[k].SignsProof?
    ensures var s, e := states[k].state, events[k];
            && e.f.Signing? && S.Signed(s, e.f, e.ok, e.now, e.id, e.secret).reply.Some?
            && var reply := S.Signed(s, e.f, e.ok, e.now, e.id, e.secret).reply.value;
            && (reply.GrantReply? <==> e.ok && S.StillResumable(s, e.now, e.f))
            && (reply.GrantReply? ==> InKind(Read(reply), e.id, e.f, s.identity))
  {
    RunFaithful(start, states, events, k);
    var e := events[k];
    assert S.Step(states[k], e, states[k + 1]);
    assert Faithful(states[k].state, e.f);
    SignedInKind(states[k].state, e.f, e.ok, e.now, e.id, e.secret);
  }
}
