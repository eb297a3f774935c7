/** The assistance supplier's object. Each method is the code between two awaits. */
module AssistanceSupplier {
  import opened Wrappers
  import opened Authorities
  import opened AssistanceSteps

  lemma EndInMore(offers: map<string, Offer>, done: set<string>, k: string, reason: string)
    ensures EndIn(EndIn(offers, done, reason), {k}, reason) == EndIn(offers, done + {k}, reason)
  {
  }

  /** Finishing offers one at a time adds up. */
  lemma FinishMore(s: State, done: set<string>, k: string, reason: string)
    ensures Finish(Finish(s, done, reason), {k}, reason) == Finish(s, done + {k}, reason)
  {
    EndInMore(s.offers, done, k, reason);
    var t := Finish(s, done, reason);
    if EndsActive(s, done) {
      assert EndsActive(s, done + {k}) && !EndsActive(t, {k});
    } else {
      assert EndsActive(s, done + {k}) <==> EndsActive(t, {k});
    }
  }

  lemma FinishNone(s: State, reason: string)
    ensures Finish(s, {}, reason) == s
  {
    assert EndIn(s.offers, {}, reason) == s.offers;
  }

  /** Finishing an offer that is unknown or has ended changes nothing. */
  lemma FinishEnded(s: State, k: string, reason: string)
    requires k in s.offers ==> !Live(s.offers[k])
    ensures Finish(s, {k}, reason) == s
  {
    assert EndIn(s.offers, {k}, reason) == s.offers;
  }

  class AssistanceSupplier {
    const identity: Identity
    const scope: string
    const actions: set<string>
    const grantMs: int
    const keeps: bool
    var enabled: bool
    var ready: bool
    var epoch: int
    var active: Option<string>
    var offers: map<string, Offer>
    var committing: bool
    var resuming: bool
    var authority: Option<Authority>
    /** How often the retained authority was assigned: the identity of the object held. */
    var serial: nat
    /** What `saveResume` was last given. */
    var saved: Option<Authority>

    function Now(): State
      reads this
    {
      State(identity, scope, actions, grantMs, keeps, enabled, ready, epoch, active, offers, committing, resuming,
          authority, serial)
    }

    constructor (identity: Identity, scope: string, actions: set<string>, grantMs: int, keeps: bool,
                 resume: Option<Authority>, now: int)
      ensures Now() == Start(identity, scope, actions, grantMs, keeps, resume, now)
    {
      this.identity, this.scope, this.actions, this.grantMs, this.keeps := identity, scope, actions, grantMs, keeps;
      enabled, ready, epoch, active, offers, committing, resuming := false, false, 0, None, map[], false, false;
      authority, serial, saved := None, 0, None;
      new;
      if resume.Some? && resume.value.place == PlaceOf(Now()) && now < resume.value.expires { authority := resume; }
    }

    method SetAuthority(a: Option<Authority>)
      modifies this
      ensures Now() == SaveResume(old(Now()), a) && (keeps ==> saved == a)
    {
      authority, serial := a, serial + 1;
      if keeps { saved := a; }
    }

    method FinishOne(token: string, reason: string)
      requires token in offers
      modifies this
      ensures Now() == Finish(old(Now()), {token}, reason)
    {
      if !offers[token].status.Ended? {
        offers := offers[token := offers[token].(status := Ended(reason))];
        if active == Some(token) {
          active := None;
          SetAuthority(None);
        }
        assert offers == EndIn(old(offers), {token}, reason);
      } else {
        FinishEnded(Now(), token, reason);
      }
    }

    method ExpireOne(token: string, now: int)
      requires token in offers
      modifies this
      ensures Now() == if now >= old(offers)[token].deadline then Finish(old(Now()), {token}, "expired") else old(Now())
    {
      if offers[token].status.Ended? { FinishEnded(Now(), token, "expired"); }
      if !offers[token].status.Ended? && now >= offers[token].deadline { FinishOne(token, "expired"); }
    }

    method ExpireNext(ghost s: State, ghost gone: set<string>, k: string, now: int) returns (ghost more: set<string>)
      requires k in s.offers && Now() == Finish(s, gone, "expired")
      modifies this
      ensures more == (if k in Due(s, now) then gone + {k} else gone) && Now() == Finish(s, more, "expired")
    {
      ExpireMore(s, gone, k, now, Now());
      ExpireOne(k, now);
      more := if k in Due(s, now) then gone + {k} else gone;
    }

    method ExpireOffers(now: int)
      modifies this
      ensures Now() == Expire(old(Now()), now)
    {
      ghost var s, due, gone: set<string> := Now(), Due(Now(), now), {};
      var todo := offers.Keys;
      FinishNone(s, "expired");
      while todo != {}
        invariant todo <= s.offers.Keys && gone == due - todo
        invariant Now() == Finish(s, gone, "expired")
      {
        var k :| k in todo;
        todo := todo - {k};
        gone := ExpireNext(s, gone, k, now);
      }
      assert gone == due;
    }

    /** `finish` on each offer that passes the test, which ending others does not change. */
    method FinishEach(tokens: set<string>, reason: string)
      requires tokens <= offers.Keys
      modifies this
      ensures Now() == Finish(old(Now()), tokens, reason)
    {
      ghost var s, gone: set<string> := Now(), {};
      var todo := tokens;
      FinishNone(s, reason);
      while todo != {}
        invariant todo <= tokens && gone == tokens - todo
        invariant Now() == Finish(s, gone, reason)
      {
        var k :| k in todo;
        todo := todo - {k};
        FinishMore(s, gone, k, reason);
        FinishKeeps(s, gone, k, reason);
        FinishOne(k, reason);
        gone := gone + {k};
      }
      assert gone == tokens;
    }

    method End(reason: string)
      modifies this
      ensures Now() == EndAll(old(Now()), reason)
    {
      FinishEach(offers.Keys, reason);
      SetAuthority(None);
    }

    method Enable(on: bool)
      modifies this
      ensures Now() == AssistanceSteps.Enable(old(Now()), on)
    {
      enabled := on;
      if !on { End("disabled"); }
    }

    method SetReady(on: bool)
      modifies this
      ensures Now() == AssistanceSteps.SetReady(old(Now()), on)
    {
      ready := on;
      if !on { End("disconnected"); }
    }

    method Decline(token: string)
      modifies this
      ensures Now() == AssistanceSteps.Decline(old(Now()), token)
    {
      if token in offers { FinishOne(token, "declined"); }
    }

    method RememberOffer(o: Offer, secret: int)
      modifies this
      ensures Now() == Remember(old(Now()), o, secret)
    {
      if keeps { SetAuthority(Some(Authority(PlaceOf(Now()), o.consumer, o.deadline, secret))); }
    }

    method GrantOffer(token: string, o: Offer, secret: int)
      modifies this
      ensures Now() == Grant(old(Now()), token, o, secret)
    {
      epoch := epoch + 1;
      offers := offers[token := o];
      active := Some(token);
      RememberOffer(o, secret);
    }

    method Accept(token: string, now: int, secret: int)
      modifies this
      ensures Now() == AssistanceSteps.Accept(old(Now()), now, token, secret)
    {
      ExpireOffers(now);
      AcceptPending(token, now, secret);
    }

    method AcceptPending(token: string, now: int, secret: int)
      modifies this
      ensures Now() == AcceptNow(old(Now()), now, token, secret)
    {
      if token !in offers || !offers[token].status.Pending? || !enabled || !ready || active.Some? { return; }
      GrantOffer(token, offers[token].(status := Accepted, epoch := epoch + 1, deadline := now + grantMs), secret);
      RefuseOthers();
    }

    method RefuseOthers()
      modifies this
      ensures Now() == Finish(old(Now()), Pendings(old(Now())), "busy")
    {
      FinishEach(Pendings(Now()), "busy");
    }

    /** The pending offers an operator may accept, after expiry. */
    method Pending(now: int) returns (tokens: set<string>)
      modifies this
      ensures Now() == Expire(old(Now()), now) && tokens == Pendings(Now())
    {
      ExpireOffers(now);
      tokens := Pendings(Now());
    }

    method IsPaired(now: int) returns (paired: bool)
      modifies this
      ensures Now() == Expire(old(Now()), now) && paired == Now().active.Some?
    {
      ExpireOffers(now);
      paired := active.Some?;
    }

    /** `receive` up to its first await or its return. */
    method Receive(r: Request, now: int, id: string, read: Option<Observation>)
      returns (frame: Option<Frame>, reply: Option<Reply>)
      modifies this
      ensures Outcome(Now(), frame, reply) == AssistanceSteps.Receive(old(Now()), now, r, id, read)
    {
      ExpireOffers(now);
      frame, reply := ReceiveCurrent(r, now, id, read);
    }

    method ReceiveCurrent(r: Request, now: int, id: string, read: Option<Observation>)
      returns (frame: Option<Frame>, reply: Option<Reply>)
      modifies this
      ensures Outcome(Now(), frame, reply) == ReceiveNow(old(Now()), now, r, id, read)
    {
      if r.version != 1 || r.identity != identity || r.consumer == "" { return None, Some(Refused); }
      if now >= r.deadline { return None, Some(ExpiredReply); }
      if r.operation.ResumeOp? {
        frame, reply := BeginResume(r, now, r.operation.signed);
        return;
      }
      if r.operation.OfferOp? {
        reply := MakeOffer(r, now, id);
        return None, reply;
      }
      if r.token !in offers || offers[r.token].consumer != r.consumer { return None, Some(Refused); }
      if r.operation.EndOp? {
        FinishOne(r.token, "consumer ended");
        return None, Some(StatusOf(Now(), r.token));
      }
      if r.operation.StatusOp? || offers[r.token].status.Ended? { return None, Some(StatusOf(Now(), r.token)); }
      if !Permitted(Now(), now, r) { return None, Some(Refused); }
      if r.operation.ReadOp? { return None, Some(if read.Some? then Observed(read.value) else Refused); }
      if !r.operation.InvokeOp? { return None, Some(Unsupported); }
      frame, reply := BeginInvoke(r, r.operation.input, read);
    }

    method BeginResume(r: Request, now: int, input: Option<(string, Proof)>)
      returns (frame: Option<Frame>, reply: Option<Reply>)
      modifies this
      ensures Outcome(Now(), frame, reply) == ReceiveResume(old(Now()), now, r, input)
    {
      if !enabled || !ready || active.Some? || resuming || authority.None? { return None, Some(Refused); }
      var held := authority.value;
      if held.consumer != r.consumer || held.expires <= now { return None, Some(Refused); }
      if input.None? || |input.value.0| > 128 { return None, Some(Refused); }
      resuming := true;
      return Some(Checking(r, input.value.0, input.value.1, held, serial)), None;
    }

    method MakeOffer(r: Request, now: int, id: string) returns (reply: Option<Reply>)
      modifies this
      ensures Outcome(Now(), None, reply) == ReceiveOffer(old(Now()), now, r, id)
    {
      if !enabled || !ready { return Some(Unavailable); }
      if active.Some? { return Some(Busy); }
      if |offers| >= CAPACITY { return Some(Unavailable); }
      var deadline := if r.deadline < now + 60_000 then r.deadline else now + 60_000;
      offers := offers[id := Offer(r.consumer, deadline, 0, AssistanceSteps.Pending)];
      return Some(StatusOf(Now(), id));
    }

    method BeginInvoke(r: Request, input: Option<Invocation>, read: Option<Observation>)
      returns (frame: Option<Frame>, reply: Option<Reply>)
      modifies this
      ensures Outcome(Now(), frame, reply) == ReceiveInvoke(old(Now()), r, input, read)
    {
      if committing { return None, Some(Busy); }
      if input.None? { return None, Some(Invalid); }
      if input.value.action !in actions { return None, Some(Unsupported); }
      if read.None? { return None, None; }
      if input.value.expected != read { return None, Some(Conflict); }
      committing := true;
      return Some(Preparing(r, input.value.action, read.value)), None;
    }

    /** A resume after its first await. */
    method ProofChecked(f: Frame, ok: bool) returns (frame: Option<Frame>, reply: Option<Reply>)
      requires f.Checking?
      modifies this
      ensures Outcome(Now(), frame, reply) == Checked(old(Now()), f, ok)
    {
      if !ok || f.claimed != Proof(f.authority.secret, "request", identity, f.r.consumer, f.nonce) {
        resuming := false;
        return None, Some(Refused);
      }
      return Some(Signing(f.r, f.nonce, f.authority, f.serial)), None;
    }

    /** A resume after its second await: permission is checked again before anything is granted. */
    method ProofSigned(f: Frame, ok: bool, now: int, id: string, secret: int) returns (reply: Reply)
      requires f.Signing?
      modifies this
      ensures Answer(Now(), reply) == Signed(old(Now()), f, ok, now, id, secret)
    {
      resuming := false;
      if !ok || !enabled || !ready || serial != f.serial { return Refused; }
      if f.authority.expires <= now || now >= f.r.deadline { return Refused; }
      var o := Offer(f.r.consumer, f.authority.expires, epoch + 1, Accepted);
      GrantOffer(id, o, secret);
      return GrantReply(id, true, epoch, o.deadline, authority,
                        Some(Proof(f.authority.secret, "response", identity, f.r.consumer, f.nonce)));
    }

    /** An invocation after its preparation: no await separates the final check from the commit. */
    method PreparationSettled(f: Frame, ok: bool, now: int, read: Option<Observation>, throws: bool)
      returns (reply: Reply, commit: Option<Commit>)
      requires f.Preparing?
      modifies this
      ensures (Answer(Now(), reply), commit) == Prepared(old(Now()), f, ok, now, read, throws)
    {
      if !ok {
        committing := false;
        return Invalid, None;
      }
      ExpireOffers(now);
      var here := Now();
      committing := false;
      if !Permitted(here, now, f.r) {
        var over := f.r.token in offers && offers[f.r.token].status.Ended?;
        reply := if over then StatusOf(here, f.r.token) else ExpiredReply;
        return reply, None;
      }
      if read.None? { return UnknownReply, None; }
      if read.value != f.expected { return Conflict, None; }
      return if throws then UnknownReply else Applied, Some(Commit(now, f.r, here, f.expected, read.value));
    }
  }

  lemma ExpireMore(s: State, gone: set<string>, k: string, now: int, here: State)
    requires k in s.offers && here == Finish(s, gone, "expired")
    ensures k in here.offers && here.offers[k].deadline == s.offers[k].deadline
    ensures now >= s.offers[k].deadline
            ==> k in Due(s, now) && Finish(here, {k}, "expired") == Finish(s, gone + {k}, "expired")
    ensures now < s.offers[k].deadline ==> k !in Due(s, now)
  {
    FinishMore(s, gone, k, "expired");
    FinishKeeps(s, gone, k, "expired");
  }

  lemma FinishKeeps(s: State, tokens: set<string>, k: string, reason: string)
    requires k in s.offers
    ensures k in Finish(s, tokens, reason).offers
    ensures Finish(s, tokens, reason).offers[k].deadline == s.offers[k].deadline
  {
  }
}
