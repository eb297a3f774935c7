/** The assistance consumer's object. Each method is the code between two awaits; what it returns is the
    frame it suspends as. */
module AssistanceConsumer {
  import opened Wrappers
  import opened Authorities
  import opened ConsumerSteps

  class AssistanceConsumer {
    var identity: Identity
    const consumer: string
    var grant: Option<Grant>
    /** How many grants were adopted: the identity of the one held. */
    var serial: nat
    var ended: set<string>
    var unresolved: bool
    var disconnected: bool
    var resuming: bool
    var resumeUnresolved: bool
    var attempted: set<string>
    /** What was sent, in order. */
    var sent: seq<Sent>

    function Now(): State
      reads this
    {
      State(identity, consumer, grant, serial, ended, unresolved, disconnected, resuming, resumeUnresolved,
            attempted, sent)
    }

    /** The grant held was never ended. */
    ghost predicate Valid()
      reads this
    {
      GrantFine(Now())
    }

    constructor (identity: Identity, consumer: string)
      ensures Valid() && Now() == Start(identity, consumer)
    {
      this.identity, this.consumer := identity, consumer;
      grant, serial, ended, unresolved, disconnected := None, 0, {}, false, false;
      resuming, resumeUnresolved, attempted, sent := false, false, {}, [];
    }

    method Adopt(out: Out)
      requires Valid()
      modifies `grant, `serial
      ensures Now() == ConsumerSteps.Adopt(old(Now()), out)
      ensures Valid() && Keeps(old(Now()), Done(Now()))
    {
      AdoptKeeps(Now(), out);
      if out.status.AcceptedOut? && out.token != "" && out.token !in ended {
        grant, serial := Some(Grant(out.token, out.epoch, out.expires, out.resume, serial)), serial + 1;
      }
    }

    method Request(kind: Kind, token: string) returns (f: Frame)
      requires Valid()
      modifies `sent
      ensures Outcome(Now(), Some(f)) == ConsumerSteps.Request(old(Now()), kind, token)
      ensures Valid() && Keeps(old(Now()), Outcome(Now(), Some(f)))
    {
      RequestKeeps(Now(), kind, token);
      if token != "" && token in ended { return Returned(kind, ENDED); }
      if disconnected { return Returned(kind, ENDED); }
      sent := sent + [Requested(kind, token)];
      return Calling(kind, token);
    }

    /** `request` after its await. */
    method Replied(kind: Kind, token: string, reply: Option<Out>) returns (f: Frame)
      requires Valid()
      modifies `ended, `grant
      ensures Outcome(Now(), Some(f)) == ConsumerSteps.Replied(old(Now()), kind, token, reply)
      ensures Valid() && Keeps(old(Now()), Outcome(Now(), Some(f)))
    {
      RepliedKeeps(Now(), kind, token, reply);
      if reply.None? { return Returned(kind, UNKNOWN); }
      if token != "" && token in ended { return Returned(kind, ENDED); }
      if disconnected { return Returned(kind, ENDED); }
      if reply.value.status.EndedOut? && token != "" {
        ended := ended + {token};
        grant := None;
      }
      return Returned(kind, reply.value);
    }

    /** The caller of `request` after its await. */
    method Continue(kind: Kind, out: Out)
      requires Valid()
      modifies `grant, `serial, `unresolved
      ensures Now() == ConsumerSteps.Continue(old(Now()), kind, out)
      ensures Valid() && Keeps(old(Now()), Done(Now()))
    {
      ContinueKeeps(Now(), kind, out);
      if kind.StatusCall? {
        Adopt(out);
      } else if kind.InvokeCall? && !out.status.UnknownOut? {
        unresolved := false;
      }
    }

    method Invoke() returns (f: Option<Frame>)
      requires Valid()
      modifies `unresolved, `sent
      ensures Outcome(Now(), f) == ConsumerSteps.Invoke(old(Now()))
      ensures Valid() && Keeps(old(Now()), Outcome(Now(), f))
    {
      InvokeKeeps(Now());
      if grant.None? { return None; }
      if unresolved { return None; }
      unresolved := true;
      var g := Request(InvokeCall, grant.value.token);
      return Some(g);
    }

    method Read() returns (f: Option<Frame>)
      requires Valid()
      modifies `sent
      ensures Outcome(Now(), f) == ConsumerSteps.Read(old(Now()))
      ensures Valid() && Keeps(old(Now()), Outcome(Now(), f))
    {
      ReadKeeps(Now());
      if grant.None? { return None; }
      var g := Request(ReadCall, grant.value.token);
      return Some(g);
    }

    method Abandon()
      requires Valid()
      modifies `unresolved
      ensures Now() == ConsumerSteps.Abandon(old(Now()))
      ensures Valid() && Keeps(old(Now()), Done(Now()))
    {
      LocalKeeps(Now(), "");
      unresolved := false;
    }

    method Disconnect()
      requires Valid()
      modifies this
      ensures Now() == ConsumerSteps.Disconnect(old(Now()))
      ensures Valid() && Keeps(old(Now()), Done(Now()))
    {
      LocalKeeps(Now(), "");
      disconnected := true;
      if grant.Some? && grant.value.token != "" { ended := ended + {grant.value.token}; }
      grant := None;
      unresolved := false;
    }

    method End(token: string) returns (f: Option<Frame>)
      requires Valid()
      modifies this
      ensures Outcome(Now(), f) == ConsumerSteps.End(old(Now()), token)
      ensures Valid() && Keeps(old(Now()), Outcome(Now(), f))
    {
      LocalKeeps(Now(), token);
      if token in ended { return None; }
      ended := ended + {token};
      grant := None;
      unresolved := false;
      sent := sent + [EndSent(token)];
      return Some(Ending(token));
    }

    method Resume(to: Identity, nonce: string, now: int) returns (f: Option<Frame>)
      requires Valid()
      modifies `attempted, `resuming
      ensures Outcome(Now(), f) == ConsumerSteps.Resume(old(Now()), to, nonce, now)
      ensures Valid() && Keeps(old(Now()), Outcome(Now(), f))
    {
      ResumeKeeps(Now(), to, nonce, now);
      if resumeUnresolved || grant.None? || grant.value.resume.None? { return None; }
      var r := grant.value.resume.value;
      if disconnected || resuming || to.generation in attempted { return None; }
      if r.consumer != consumer || r.expires <= now { return None; }
      if r.place.application != to.application || r.place.workspace != to.workspace { return None; }
      if r.place.supplier != to.supplier { return None; }
      if to.generation == identity.generation { return None; }
      attempted := attempted + {to.generation};
      resuming := true;
      return Some(Signing(to, grant.value, r, nonce));
    }

    method ProofSigned(f: Frame, ok: bool) returns (g: Option<Frame>)
      requires Valid() && f.Signing? && Remembers(Now(), f)
      modifies this
      ensures Outcome(Now(), g) == Signed(old(Now()), f, ok)
      ensures Valid() && Keeps(old(Now()), Outcome(Now(), g))
    {
      SignedKeeps(Now(), f, ok, None);
      if !ok {
        GiveUp();
        return None;
      }
      sent := sent + [ResumeSent(f.to.generation)];
      return Some(Resuming(f.to, f.original, f.r, f.nonce));
    }

    /** The outcome of a resume is not known: only an explicit pairing helps. */
    method GiveUp()
      requires Valid()
      modifies `resumeUnresolved, `resuming
      ensures Now() == Stuck(old(Now()))
      ensures Valid() && Keeps(old(Now()), Done(Now()))
    {
      StuckKeeps(Now());
      resumeUnresolved := true;
      resuming := false;
    }

    method ResumeAnswered(f: Frame, reply: Option<Out>) returns (g: Option<Frame>)
      requires Valid() && f.Resuming? && Remembers(Now(), f)
      modifies this
      ensures Outcome(Now(), g) == Answered(old(Now()), f, reply)
      ensures Valid() && Keeps(old(Now()), Outcome(Now(), g))
    {
      SignedKeeps(Now(), f, true, reply);
      if reply.None? || reply.value.status.UnknownOut? {
        GiveUp();
        return None;
      }
      var out := reply.value;
      if !out.status.AcceptedOut? || out.token == "" || out.expires != f.original.expires {
        resuming := false;
        return None;
      }
      return Some(Verifying(f.to, f.original, f.r, f.nonce, out));
    }

    method ProofVerified(f: Frame, ok: bool) returns (g: Option<Frame>)
      requires Valid() && f.Verifying? && Remembers(Now(), f)
      modifies this
      ensures Outcome(Now(), g) == Verified(old(Now()), f, ok)
      ensures Valid() && Keeps(old(Now()), Outcome(Now(), g))
    {
      VerifiedKeeps(Now(), f, ok);
      if !ok {
        GiveUp();
        return None;
      }
      if f.out.proof != Some(Proof(f.r.secret, "response", f.to, consumer, f.nonce)) {
        resuming := false;
        return None;
      }
      if disconnected || grant.None? || grant.value.serial != f.original.serial {
        sent := sent + [EndSent(f.out.token)];
        return Some(Revoking);
      }
      identity := f.to;
      Adopt(f.out);
      resuming := false;
      return None;
    }
  }
}
