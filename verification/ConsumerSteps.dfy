/** The assistance consumer as a state machine whose steps are the stretches of code between awaits. Replies
    are whatever the channel delivers, in any order, late or not at all. */
module ConsumerSteps {
  import opened Wrappers
  import opened Authorities

  /** An adopted grant; `serial` tells this object from any other. */
  datatype Grant = Grant(token: string, epoch: Option<int>, expires: Option<int>, resume: Option<Authority>,
      serial: nat)

  datatype OutStatus = AcceptedOut | EndedOut | UnknownOut | OtherOut

  /** A result as the consumer reads it. */
  datatype Out = Out(status: OutStatus, token: string, epoch: Option<int>, expires: Option<int>,
      resume: Option<Authority>, proof: Option<Proof>)

  const ENDED: Out := Out(EndedOut, "", None, None, None, None)
  const UNKNOWN: Out := Out(UnknownOut, "", None, None, None, None)

  datatype Kind = OfferCall | StatusCall | ReadCall | InvokeCall

  datatype Sent = Requested(kind: Kind, token: string) | ResumeSent(generation: string) | EndSent(token: string)

  /** A suspended call: a request awaiting its reply, a caller awaiting its request, a resume at each of its
      awaits, or an end awaiting confirmation. */
  datatype Frame =
    | Calling(kind: Kind, token: string)
    | Returned(kind: Kind, out: Out)
    | Signing(to: Identity, original: Grant, r: Authority, nonce: string)
    | Resuming(to: Identity, original: Grant, r: Authority, nonce: string)
    | Verifying(to: Identity, original: Grant, r: Authority, nonce: string, out: Out)
    | Revoking
    | Ending(token: string)

  /** The consumer's fields; the empty token stands for none. */
  datatype State = State(identity: Identity, consumer: string, grant: Option<Grant>, serial: nat, ended: set<string>,
                         unresolved: bool, disconnected: bool, resuming: bool, resumeUnresolved: bool,
                         attempted: set<string>, sent: seq<Sent>)

  function Start(identity: Identity, consumer: string): State {
    State(identity, consumer, None, 0, {}, false, false, false, false, {}, [])
  }

  datatype Outcome = Outcome(state: State, frame: Option<Frame>)

  function Done(s: State): Outcome { Outcome(s, None) }

  predicate Adoptable(s: State, out: Out) {
    out.status.AcceptedOut? && out.token != "" && out.token !in s.ended
  }

  function Adopt(s: State, out: Out): State {
    if !Adoptable(s, out) then s
    else s.(grant := Some(Grant(out.token, out.epoch, out.expires, out.resume, s.serial)), serial := s.serial + 1)
  }

  function GrantToken(s: State): string { if s.grant.Some? then s.grant.value.token else "" }

  /** `request` up to its await. */
  function Request(s: State, kind: Kind, token: string): Outcome {
    if (token != "" && token in s.ended) || s.disconnected then Outcome(s, Some(Returned(kind, ENDED)))
    else Outcome(s.(sent := s.sent + [Requested(kind, token)]), Some(Calling(kind, token)))
  }

  /** `request` once the call replied, or threw. */
  function Replied(s: State, kind: Kind, token: string, reply: Option<Out>): Outcome {
    if reply.None? then Outcome(s, Some(Returned(kind, UNKNOWN)))
    else if (token != "" && token in s.ended) || s.disconnected then Outcome(s, Some(Returned(kind, ENDED)))
    else if reply.value.status.EndedOut? && token != "" then
      Outcome(s.(ended := s.ended + {token}, grant := None), Some(Returned(kind, reply.value)))
    else Outcome(s, Some(Returned(kind, reply.value)))
  }

  /** The caller of `request` goes on with its result. */
  function Continue(s: State, kind: Kind, out: Out): State {
    match kind
    case StatusCall => Adopt(s, out)
    case InvokeCall => if out.status.UnknownOut? then s else s.(unresolved := false)
    case _ => s
  }

  function Offer(s: State): Outcome { Request(s, OfferCall, GrantToken(s)) }

  function Status(s: State, token: string): Outcome { Request(s, StatusCall, token) }

  function Read(s: State): Outcome { if s.grant.None? then Done(s) else Request(s, ReadCall, GrantToken(s)) }

  function Invoke(s: State): Outcome {
    if s.grant.None? || s.unresolved then Done(s) else Request(s.(unresolved := true), InvokeCall, GrantToken(s))
  }

  function Abandon(s: State): State { s.(unresolved := false) }

  function Disconnect(s: State): State {
    var ended := if GrantToken(s) != "" then s.ended + {GrantToken(s)} else s.ended;
    s.(disconnected := true, ended := ended, grant := None, unresolved := false)
  }

  function End(s: State, token: string): Outcome {
    if token in s.ended then Done(s)
    else
      var t := s.(ended := s.ended + {token}, grant := None, unresolved := false, sent := s.sent + [EndSent(token)]);
      Outcome(t, Some(Ending(token)))
  }

  predicate MayResume(s: State, to: Identity, now: int) {
    && !s.resumeUnresolved && !s.disconnected && !s.resuming && to.generation !in s.attempted
    && s.grant.Some? && s.grant.value.resume.Some?
    && var r := s.grant.value.resume.value;
       && r.consumer == s.consumer && now < r.expires
       && r.place.application == to.application && r.place.workspace == to.workspace && r.place.supplier == to.supplier
       && to.generation != s.identity.generation
  }

  function Resume(s: State, to: Identity, nonce: string, now: int): Outcome {
    if !MayResume(s, to, now) then Done(s)
    else
      Outcome(s.(attempted := s.attempted + {to.generation}, resuming := true),
              Some(Signing(to, s.grant.value, s.grant.value.resume.value, nonce)))
  }

  function Stuck(s: State): State { s.(resumeUnresolved := true, resuming := false) }

  /** The request's proof is computed, or computing it threw. */
  function Signed(s: State, f: Frame, ok: bool): Outcome
    requires f.Signing?
  {
    if !ok then Done(Stuck(s))
    else Outcome(s.(sent := s.sent + [ResumeSent(f.to.generation)]), Some(Resuming(f.to, f.original, f.r, f.nonce)))
  }

  /** The resume's reply: only a grant of the same expiry is worth verifying. */
  function Answered(s: State, f: Frame, reply: Option<Out>): Outcome
    requires f.Resuming?
  {
    if reply.None? || reply.value.status.UnknownOut? then Done(Stuck(s))
    else if !reply.value.status.AcceptedOut? || reply.value.token == "" || reply.value.expires != f.original.expires
    then Done(s.(resuming := false))
    else Outcome(s, Some(Verifying(f.to, f.original, f.r, f.nonce, reply.value)))
  }

  /** The grant is still the object the resume began with. */
  predicate Unreplaced(s: State, original: Grant) { s.grant.Some? && s.grant.value.serial == original.serial }

  predicate Proven(s: State, f: Frame)
    requires f.Verifying?
  {
    f.out.proof == Some(Proof(f.r.secret, "response", f.to, s.consumer, f.nonce))
  }

  /** The expected proof is computed: adopt, unless revoked meanwhile, in which case the new grant is ended. */
  function Verified(s: State, f: Frame, ok: bool): Outcome
    requires f.Verifying?
  {
    if !ok then Done(Stuck(s))
    else if !Proven(s, f) then Done(s.(resuming := false))
    else if s.disconnected || !Unreplaced(s, f.original) then
      Outcome(s.(sent := s.sent + [EndSent(f.out.token)]), Some(Revoking))
    else Done(Adopt(s.(identity := f.to), f.out).(resuming := false))
  }

  // ---- interleavings ------------------------------------------------------------------------------------------

  datatype Sys = Sys(state: State, frames: multiset<Frame>)

  datatype Event =
    | Offers | Reads | Invokes | Abandons | Disconnects
    | Asks(token: string)
    | Adopts(out: Out)
    | Ends(token: string)
    | Resumes(to: Identity, nonce: string, now: int)
    | Replies(f: Frame, reply: Option<Out>)
    | Continues(f: Frame)
    | Signs(f: Frame, ok: bool)
    | Answers(f: Frame, reply: Option<Out>)
    | Verifies(f: Frame, ok: bool)
    | Settles(f: Frame)

  predicate Enabled(sys: Sys, e: Event) {
    match e
    case Replies(f, _) => f in sys.frames && f.Calling?
    case Continues(f) => f in sys.frames && f.Returned?
    case Signs(f, _) => f in sys.frames && f.Signing?
    case Answers(f, _) => f in sys.frames && f.Resuming?
    case Verifies(f, _) => f in sys.frames && f.Verifying?
    case Settles(f) => f in sys.frames && (f.Revoking? || f.Ending?)
    case _ => true
  }

  function After(frames: multiset<Frame>, o: Outcome): Sys {
    Sys(o.state, if o.frame.Some? then frames + multiset{o.frame.value} else frames)
  }

  /** What an event makes of the state, and the frames it leaves alone. */
  function Effect(sys: Sys, e: Event): Outcome
    requires Enabled(sys, e)
  {
    var s := sys.state;
    match e
    case Offers => Offer(s)
    case Reads => Read(s)
    case Invokes => Invoke(s)
    case Abandons => Done(Abandon(s))
    case Disconnects => Done(Disconnect(s))
    case Asks(token) => Status(s, token)
    case Adopts(out) => Done(Adopt(s, out))
    case Ends(token) => End(s, token)
    case Resumes(to, nonce, now) => Resume(s, to, nonce, now)
    case Replies(f, reply) => Replied(s, f.kind, f.token, reply)
    case Continues(f) => Done(Continue(s, f.kind, f.out))
    case Signs(f, ok) => Signed(s, f, ok)
    case Answers(f, reply) => Answered(s, f, reply)
    case Verifies(f, ok) => Verified(s, f, ok)
    case Settles(f) => Done(if f.Revoking? then s.(resuming := false) else s)
  }

  function Rest(sys: Sys, e: Event): multiset<Frame> {
    if e.Replies? || e.Continues? || e.Signs? || e.Answers? || e.Verifies? || e.Settles? then
      sys.frames - multiset{e.f}
    else sys.frames
  }

  function Next(sys: Sys, e: Event): Sys
    requires Enabled(sys, e)
  {
    After(Rest(sys, e), Effect(sys, e))
  }

  ghost predicate Step(sys: Sys, e: Event, next: Sys) { Enabled(sys, e) && next == Next(sys, e) }

  ghost predicate Steps(states: seq<Sys>, events: seq<Event>) {
    |states| == |events| + 1 && forall k :: 0 <= k < |events| ==> Step(states[k], events[k], states[k + 1])
  }

  ghost predicate Run(states: seq<Sys>, events: seq<Event>) {
    Steps(states, events) && exists identity, consumer :: states[0] == Sys(Start(identity, consumer), multiset{})
  }

  // ---- what every interleaving keeps ----------------------------------------------------------------------------

  /** A resume in flight remembers a grant that was adopted; if that object is still the grant, it is it.
      It signs with the authority that came with it, and a reply worth verifying carries its expiry. */
  ghost predicate Remembers(s: State, f: Frame) {
    && (f.Signing? || f.Resuming? || f.Verifying?
        ==> f.original.serial < s.serial && (Unreplaced(s, f.original) ==> s.grant.value == f.original))
    && (f.Signing? || f.Resuming? || f.Verifying? ==> f.original.resume == Some(f.r))
    && (f.Verifying? ==> f.out.expires == f.original.expires)
  }

  /** The grant was never ended. */
  ghost predicate GrantFine(s: State) {
    s.grant.Some? ==> s.grant.value.token !in s.ended && s.grant.value.token != "" && s.grant.value.serial < s.serial
  }

  ghost predicate Good(sys: Sys) {
    GrantFine(sys.state) && forall f :: f in sys.frames ==> Remembers(sys.state, f)
  }

  /** Tokens stay ended, serials rise, and the same serial is the same grant. */
  ghost predicate Moves(s: State, t: State) {
    && s.ended <= t.ended && s.serial <= t.serial
    && (t.grant.Some? ==> t.grant == s.grant || s.serial <= t.grant.value.serial)
    && t.consumer == s.consumer && (s.disconnected ==> t.disconnected) && s.sent <= t.sent
  }

  /** What one stretch of code keeps: the grant, and what it leaves suspended. */
  ghost predicate Keeps(s: State, o: Outcome) {
    Moves(s, o.state) && GrantFine(o.state) && (o.frame.Some? ==> Remembers(o.state, o.frame.value))
  }

  lemma RequestKeeps(s: State, kind: Kind, token: string)
    requires GrantFine(s)
    ensures Keeps(s, Request(s, kind, token))
  {
  }

  lemma InvokeKeeps(s: State)
    requires GrantFine(s)
    ensures Keeps(s, Invoke(s))
  {
    RequestKeeps(s.(unresolved := true), InvokeCall, GrantToken(s));
    LocalKeeps(s, "");
  }

  lemma ReadKeeps(s: State)
    requires GrantFine(s)
    ensures Keeps(s, Read(s))
  {
    RequestKeeps(s, ReadCall, GrantToken(s));
    LocalKeeps(s, "");
  }

  lemma StuckKeeps(s: State)
    requires GrantFine(s)
    ensures Keeps(s, Done(Stuck(s)))
  {
  }

  lemma RepliedKeeps(s: State, kind: Kind, token: string, reply: Option<Out>)
    requires GrantFine(s)
    ensures Keeps(s, Replied(s, kind, token, reply))
  {
  }

  lemma AdoptKeeps(s: State, out: Out)
    requires GrantFine(s)
    ensures Keeps(s, Done(Adopt(s, out)))
  {
  }

  lemma ContinueKeeps(s: State, kind: Kind, out: Out)
    requires GrantFine(s)
    ensures Keeps(s, Done(Continue(s, kind, out)))
  {
    AdoptKeeps(s, out);
  }

  lemma LocalKeeps(s: State, token: string)
    requires GrantFine(s)
    ensures Keeps(s, Done(Abandon(s))) && Keeps(s, Done(Disconnect(s))) && Keeps(s, End(s, token))
    ensures Keeps(s, Done(s.(resuming := false)))
    ensures Keeps(s, Done(s))
  {
  }

  lemma ResumeKeeps(s: State, to: Identity, nonce: string, now: int)
    requires GrantFine(s)
    ensures Keeps(s, Resume(s, to, nonce, now))
  {
  }

  lemma SignedKeeps(s: State, f: Frame, ok: bool, reply: Option<Out>)
    requires GrantFine(s) && Remembers(s, f)
    ensures f.Signing? ==> Keeps(s, Signed(s, f, ok))
    ensures f.Resuming? ==> Keeps(s, Answered(s, f, reply))
  {
  }

  lemma VerifiedKeeps(s: State, f: Frame, ok: bool)
    requires GrantFine(s) && Remembers(s, f) && f.Verifying?
    ensures Keeps(s, Verified(s, f, ok))
  {
    if ok && Proven(s, f) && !s.disconnected && Unreplaced(s, f.original) {
      AdoptKeeps(s.(identity := f.to, resuming := false), f.out);
      assert Verified(s, f, ok).state == Adopt(s.(identity := f.to, resuming := false), f.out);
    }
  }

  lemma KeptGood(sys: Sys, rest: multiset<Frame>, o: Outcome)
    requires Good(sys) && Keeps(sys.state, o) && forall f :: f in rest ==> f in sys.frames
    ensures Good(After(rest, o))
  {
    forall f | f in rest ensures Remembers(o.state, f) { assert Remembers(sys.state, f); }
  }

  lemma EffectKeeps(sys: Sys, e: Event)
    requires Good(sys) && Enabled(sys, e)
    ensures Keeps(sys.state, Effect(sys, e))
  {
    var s := sys.state;
    match e
    case Offers => RequestKeeps(s, OfferCall, GrantToken(s));
    case Reads => ReadKeeps(s);
    case Invokes => InvokeKeeps(s);
    case Abandons => LocalKeeps(s, "");
    case Disconnects => LocalKeeps(s, "");
    case Asks(token) => RequestKeeps(s, StatusCall, token);
    case Adopts(out) => AdoptKeeps(s, out);
    case Ends(token) => LocalKeeps(s, token);
    case Resumes(to, nonce, now) => ResumeKeeps(s, to, nonce, now);
    case Replies(f, reply) => RepliedKeeps(s, f.kind, f.token, reply);
    case Continues(f) => ContinueKeeps(s, f.kind, f.out);
    case Signs(f, ok) => SignedKeeps(s, f, ok, None);
    case Answers(f, reply) => SignedKeeps(s, f, true, reply);
    case Verifies(f, ok) => VerifiedKeeps(s, f, ok);
    case Settles(f) => LocalKeeps(s, "");
  }

  lemma StepKeepsGood(sys: Sys, e: Event)
    requires Good(sys) && Enabled(sys, e)
    ensures Good(Next(sys, e)) && Moves(sys.state, Next(sys, e).state)
  {
    EffectKeeps(sys, e);
    KeptGood(sys, Rest(sys, e), Effect(sys, e));
  }

  lemma {:induction false} ReachableGood(states: seq<Sys>, events: seq<Event>, k: nat)
    requires Run(states, events) && k < |states|
    ensures Good(states[k])
  {
    if k > 0 {
      ReachableGood(states, events, k - 1);
      assert Step(states[k - 1], events[k - 1], states[k]);
      StepKeepsGood(states[k - 1], events[k - 1]);
    }
  }

  lemma RunStep(states: seq<Sys>, events: seq<Event>, k: nat)
    requires Run(states, events) && k < |events|
    ensures Good(states[k]) && Moves(states[k].state, states[k + 1].state)
  {
    ReachableGood(states, events, k);
    StepMoves(states[k], events[k], states[k + 1]);
  }

  ghost predicate Moving(ss: seq<State>) {
    forall k :: 0 <= k < |ss| - 1 ==> Moves(ss[k], ss[k + 1])
  }

  lemma {:induction false} MovingThrough(ss: seq<State>, i: nat, j: nat)
    requires Moving(ss) && i <= j < |ss|
    ensures Moves(ss[i], ss[j])
    decreases j
  {
    if i < j {
      MovingThrough(ss, i, j - 1);
      assert Moves(ss[j - 1], ss[j]);
      MovesThrough(ss[i], ss[j - 1], ss[j]);
    }
  }

  lemma StepsMove(states: seq<Sys>, events: seq<Event>, i: nat, j: nat)
    requires Run(states, events) && i <= j < |states|
    ensures Moves(states[i].state, states[j].state)
  {
    var ss := seq(|states|, k requires 0 <= k < |states| => states[k].state);
    forall k | 0 <= k < |ss| - 1 ensures Moves(ss[k], ss[k + 1]) { RunStep(states, events, k); }
    MovingThrough(ss, i, j);
  }

  lemma StepMoves(sys: Sys, e: Event, next: Sys)
    requires Good(sys) && Step(sys, e, next)
    ensures Moves(sys.state, next.state)
  {
    StepKeepsGood(sys, e);
  }

  lemma MovesThrough(s: State, t: State, u: State)
    requires Moves(s, t) && Moves(t, u)
    ensures Moves(s, u)
  {
  }

  /** A token once recorded as ended is never the grant again, whatever replies still arrive. */
  lemma EndedForGood(states: seq<Sys>, events: seq<Event>, i: nat, j: nat, token: string)
    requires Run(states, events) && i <= j < |states| && token in states[i].state.ended
    ensures token in states[j].state.ended
    ensures (states[j].state.grant.Some? ==> states[j].state.grant.value.token != token)
  {
    StepsMove(states, events, i, j);
    ReachableGood(states, events, j);
  }

  // ---- the chain of resumes -------------------------------------------------------------------------------------

  /** A grant left behind has the expiry of the grant before. */
  ghost predicate SameExpiry(s: State, t: State) {
    t.grant.Some? ==> s.grant.Some? && t.grant.value.expires == s.grant.value.expires
  }

  lemma VerifiedSameExpiry(s: State, f: Frame, ok: bool)
    requires f.Verifying? && Remembers(s, f)
    ensures SameExpiry(s, Verified(s, f, ok).state)
  {
  }

  lemma RepliedSameExpiry(s: State, kind: Kind, token: string, reply: Option<Out>, out: Out)
    ensures SameExpiry(s, Replied(s, kind, token, reply).state)
    ensures !kind.StatusCall? ==> SameExpiry(s, Continue(s, kind, out))
  {
  }

  lemma LocalSameExpiry(s: State, token: string, to: Identity, nonce: string, now: int)
    ensures SameExpiry(s, Offer(s).state) && SameExpiry(s, Read(s).state) && SameExpiry(s, Invoke(s).state)
    ensures SameExpiry(s, Abandon(s)) && SameExpiry(s, Disconnect(s)) && SameExpiry(s, Status(s, token).state)
    ensures SameExpiry(s, End(s, token).state) && SameExpiry(s, Resume(s, to, nonce, now).state)
  {
  }

  lemma ResumingSameExpiry(s: State, f: Frame, ok: bool, reply: Option<Out>)
    ensures f.Signing? ==> SameExpiry(s, Signed(s, f, ok).state)
    ensures f.Resuming? ==> SameExpiry(s, Answered(s, f, reply).state)
  {
  }

  /** A status result on its way back to its caller that would still be adopted. */
  predicate WouldAdopt(s: State, f: Frame) {
    f.Returned? && f.kind.StatusCall? && Adoptable(s, f.out)
  }

  /** The step adopts `Handed(e)` for the asking: as a status result, or by the host's own call. */
  predicate Hands(s: State, e: Event) {
    (e.Adopts? && Adoptable(s, e.out)) || (e.Continues? && WouldAdopt(s, e.f))
  }

  function Handed(e: Event): Out
    requires e.Adopts? || (e.Continues? && e.f.Returned?)
  {
    if e.Adopts? then e.out else e.f.out
  }

  /** What is handed over expires with the grant it replaces. */
  predicate Agrees(s: State, e: Event) {
    Hands(s, e) ==> s.grant.Some? && Handed(e).expires == s.grant.value.expires
  }

  /** Only a status result or the host can start a new chain: any other step leaves a grant with the expiry of
      the grant before it, or none. */
  lemma ExpiryKept(sys: Sys, e: Event)
    requires Good(sys) && Enabled(sys, e) && !Hands(sys.state, e)
    ensures SameExpiry(sys.state, Effect(sys, e).state)
  {
    var s := sys.state;
    match e
    case Asks(token) => LocalSameExpiry(s, token, s.identity, "", 0);
    case Adopts(out) =>
    case Ends(token) => LocalSameExpiry(s, token, s.identity, "", 0);
    case Resumes(to, nonce, now) => LocalSameExpiry(s, "", to, nonce, now);
    case Replies(f, reply) => RepliedSameExpiry(s, f.kind, f.token, reply, ENDED);
    case Continues(f) => if !f.kind.StatusCall? { RepliedSameExpiry(s, f.kind, "", None, f.out); }
    case Signs(f, ok) => ResumingSameExpiry(s, f, ok, None);
    case Answers(f, reply) => ResumingSameExpiry(s, f, true, reply);
    case Verifies(f, ok) =>
      assert Remembers(s, f);
      VerifiedSameExpiry(s, f, ok);
    case Settles(f) =>
    case _ => LocalSameExpiry(s, "", s.identity, "", 0);
  }

  lemma StepKeepsExpiry(sys: Sys, e: Event, next: Sys)
    requires Good(sys) && Step(sys, e, next) && Agrees(sys.state, e)
    ensures SameExpiry(sys.state, next.state)
  {
    if !Hands(sys.state, e) { ExpiryKept(sys, e); }
  }

  ghost predicate KeepsExpiry(ss: seq<State>, i: nat, j: nat)
    requires i <= j < |ss|
  {
    forall k :: i <= k < j ==> SameExpiry(ss[k], ss[k + 1])
  }

  lemma {:induction false} ExpiryThrough(ss: seq<State>, i: nat, j: nat)
    requires i <= j < |ss| && KeepsExpiry(ss, i, j)
    ensures SameExpiry(ss[i], ss[j])
    decreases j
  {
    if i < j {
      ExpiryThrough(ss, i, j - 1);
      assert SameExpiry(ss[j - 1], ss[j]);
    }
  }

  /** However many resumes there are between two states, through however many generations and whatever is
      answered to them, the grant has exactly the expiry of the first, as long as what status results and the
      host hand over agrees with the grant then held. */
  lemma ChainKeepsExpiry(states: seq<Sys>, events: seq<Event>, i: nat, j: nat)
    requires Run(states, events) && i <= j < |states|
    requires forall k :: i <= k < j ==> Agrees(states[k].state, events[k])
    ensures SameExpiry(states[i].state, states[j].state)
  {
    var ss := seq(|states|, k requires 0 <= k < |states| => states[k].state);
    forall k | i <= k < j ensures SameExpiry(ss[k], ss[k + 1]) {
      ReachableGood(states, events, k);
      StepKeepsExpiry(states[k], events[k], states[k + 1]);
    }
    ExpiryThrough(ss, i, j);
  }

  // ---- unknown invocations -----------------------------------------------------------------------------------------

  /** An invocation whose reply could still clear `unresolved`. */
  predicate InvokeInFlight(f: Frame) {
    (f.Calling? && f.kind.InvokeCall?) || (f.Returned? && f.kind.InvokeCall? && !f.out.status.UnknownOut?)
  }

  /** The last invocation is unresolved and no other is in flight. */
  ghost predicate Blocked(sys: Sys) {
    sys.state.unresolved && forall f :: f in sys.frames ==> !InvokeInFlight(f)
  }

  /** The explicit ways out: abandoning, disconnecting, ending. */
  predicate Clears(e: Event) { e.Abandons? || e.Disconnects? || e.Ends? }

  predicate IsInvoke(x: Sent) { x.Requested? && x.kind.InvokeCall? }

  function InvokesSent(sent: seq<Sent>): nat {
    if sent == [] then 0 else InvokesSent(sent[..|sent| - 1]) + if IsInvoke(sent[|sent| - 1]) then 1 else 0
  }

  lemma OneMoreSent(sent: seq<Sent>, x: Sent)
    ensures InvokesSent(sent + [x]) == InvokesSent(sent) + if IsInvoke(x) then 1 else 0
  {
    assert (sent + [x])[..|sent|] == sent;
  }

  lemma BlockedStep(sys: Sys, e: Event, next: Sys)
    requires Blocked(sys) && Step(sys, e, next) && !Clears(e)
    ensures Blocked(next) && InvokesSent(next.state.sent) == InvokesSent(sys.state.sent)
  {
    BlockedEffect(sys, e);
    forall f | f in next.frames
      ensures !InvokeInFlight(f)
    {
      assert f in sys.frames || Effect(sys, e).frame == Some(f);
    }
  }

  /** The state stays unresolved, no invocation goes out, and none is left in flight. */
  ghost predicate StaysBlocked(s: State, o: Outcome) {
    && o.state.unresolved && InvokesSent(o.state.sent) == InvokesSent(s.sent)
    && (o.frame.Some? ==> !InvokeInFlight(o.frame.value))
  }

  lemma RequestStaysBlocked(s: State, kind: Kind, token: string)
    requires s.unresolved && !kind.InvokeCall?
    ensures StaysBlocked(s, Request(s, kind, token))
  {
    OneMoreSent(s.sent, Requested(kind, token));
  }

  lemma ReplyStaysBlocked(s: State, f: Frame, reply: Option<Out>)
    requires s.unresolved && !InvokeInFlight(f)
    ensures f.Calling? ==> StaysBlocked(s, Replied(s, f.kind, f.token, reply))
    ensures f.Returned? ==> StaysBlocked(s, Done(Continue(s, f.kind, f.out)))
  {
  }

  lemma ResumeStaysBlocked(s: State, f: Frame, ok: bool, reply: Option<Out>)
    requires s.unresolved
    ensures f.Signing? ==> StaysBlocked(s, Signed(s, f, ok))
    ensures f.Resuming? ==> StaysBlocked(s, Answered(s, f, reply))
    ensures f.Verifying? ==> StaysBlocked(s, Verified(s, f, ok))
  {
    if f.Signing? { OneMoreSent(s.sent, ResumeSent(f.to.generation)); }
    if f.Verifying? { OneMoreSent(s.sent, EndSent(f.out.token)); }
  }

  lemma BlockedEffect(sys: Sys, e: Event)
    requires Blocked(sys) && Enabled(sys, e) && !Clears(e)
    ensures StaysBlocked(sys.state, Effect(sys, e))
  {
    var s := sys.state;
    match e
    case Offers => RequestStaysBlocked(s, OfferCall, GrantToken(s));
    case Reads => RequestStaysBlocked(s, ReadCall, GrantToken(s));
    case Invokes =>
    case Asks(token) => RequestStaysBlocked(s, StatusCall, token);
    case Adopts(out) =>
    case Resumes(to, nonce, now) =>
    case Replies(f, reply) => ReplyStaysBlocked(s, f, reply);
    case Continues(f) => ReplyStaysBlocked(s, f, None);
    case Signs(f, ok) => ResumeStaysBlocked(s, f, ok, None);
    case Answers(f, reply) => ResumeStaysBlocked(s, f, true, reply);
    case Verifies(f, ok) => ResumeStaysBlocked(s, f, ok, None);
    case Settles(f) =>
  }

  /** While the last invocation is unresolved and no other is in flight, no invocation is sent until the
      consumer abandons, ends or disconnects. */
  lemma {:induction false} UnknownHolds(states: seq<Sys>, events: seq<Event>)
    requires Steps(states, events) && Blocked(states[0]) && forall k :: 0 <= k < |events| ==> !Clears(events[k])
    ensures Blocked(states[|events|]) && InvokesSent(states[|events|].state.sent) == InvokesSent(states[0].state.sent)
    decreases |events|
  {
    if events != [] {
      var n := |events| - 1;
      UnknownHolds(states[..n + 1], events[..n]);
      assert Step(states[n], events[n], states[n + 1]);
      assert states[n] == states[..n + 1][n];
      BlockedStep(states[n], events[n], states[n + 1]);
    }
  }

  ghost predicate FreeToInvoke(sys: Sys) {
    Good(sys) && sys.state.grant.Some? && !sys.state.disconnected
  }

  lemma LateReply(sys: Sys, f: Frame, x: Sys, g: Frame)
    requires FreeToInvoke(sys) && f in sys.frames && f.Calling? && f.kind.InvokeCall? && g.Returned?
    requires var o := Replied(sys.state, InvokeCall, f.token, Some(Out(OtherOut, "", None, None, None, None)));
             x == After(sys.frames - multiset{f}, o) && o.frame == Some(g)
    ensures FreeToInvoke(x) && g in x.frames && InvokeInFlight(g) && x.state == sys.state
  {
    StepKeepsGood(sys, Replies(f, Some(Out(OtherOut, "", None, None, None, None))));
  }

  lemma LateContinue(sys: Sys, g: Frame, y: Sys)
    requires FreeToInvoke(sys) && g in sys.frames && g.Returned? && InvokeInFlight(g) && y == Next(sys, Continues(g))
    ensures FreeToInvoke(y) && !y.state.unresolved && y.state.sent == sys.state.sent
  {
    StepKeepsGood(sys, Continues(g));
  }

  /** A stretch without a clearing event that sends one invocation. */
  ghost predicate SendsUncleared(sys: Sys, states: seq<Sys>, events: seq<Event>) {
    && Steps(states, events) && states[0] == sys && (forall k :: 0 <= k < |events| ==> !Clears(events[k]))
    && InvokesSent(states[|events|].state.sent) == InvokesSent(sys.state.sent) + 1
  }

  lemma ReturnedUnblocks(sys: Sys, g: Frame) returns (states: seq<Sys>, events: seq<Event>)
    requires FreeToInvoke(sys) && g in sys.frames && g.Returned? && InvokeInFlight(g)
    ensures SendsUncleared(sys, states, events)
  {
    var y := Next(sys, Continues(g));
    LateContinue(sys, g, y);
    states, events := InvokesNow(y);
    StepFirst(sys, Continues(g), y, states, events);
    states, events := [sys] + states, [Continues(g)] + events;
  }

  lemma InvokesNow(sys: Sys) returns (states: seq<Sys>, events: seq<Event>)
    requires FreeToInvoke(sys) && !sys.state.unresolved
    ensures SendsUncleared(sys, states, events)
  {
    SendsOne(sys);
    states, events := [sys, Next(sys, Invokes)], [Invokes];
  }

  lemma StepFirst(sys: Sys, e: Event, x: Sys, states: seq<Sys>, events: seq<Event>)
    requires Step(sys, e, x) && !Clears(e) && x.state.sent == sys.state.sent && SendsUncleared(x, states, events)
    ensures SendsUncleared(sys, [sys] + states, [e] + events)
  {
    forall k | 0 <= k < |events| + 1
      ensures Step(([sys] + states)[k], ([e] + events)[k], ([sys] + states)[k + 1]) && !Clears(([e] + events)[k])
    {
      FirstAmong(sys, e, x, states, events, k);
    }
    assert ([sys] + states)[|events| + 1] == states[|events|];
  }

  lemma FirstAmong(sys: Sys, e: Event, x: Sys, states: seq<Sys>, events: seq<Event>, k: nat)
    requires Step(sys, e, x) && !Clears(e) && SendsUncleared(x, states, events) && k <= |events|
    ensures Step(([sys] + states)[k], ([e] + events)[k], ([sys] + states)[k + 1]) && !Clears(([e] + events)[k])
  {
    assert ([sys] + states)[k + 1] == states[k];
    if k > 0 {
      assert ([sys] + states)[k] == states[k - 1] && ([e] + events)[k] == events[k - 1];
      assert Step(states[k - 1], events[k - 1], states[k]);
    }
  }

  /** A late reply to another invocation clears the way for a new one. */
  lemma LateReplyUnblocks(sys: Sys, f: Frame) returns (states: seq<Sys>, events: seq<Event>)
    requires FreeToInvoke(sys) && f in sys.frames && InvokeInFlight(f)
    ensures SendsUncleared(sys, states, events)
  {
    if f.Calling? {
      var e := Replies(f, Some(Out(OtherOut, "", None, None, None, None)));
      var x, g := Next(sys, e), Effect(sys, e).frame.value;
      LateReply(sys, f, x, g);
      states, events := ReturnedUnblocks(x, g);
      StepFirst(sys, e, x, states, events);
      states, events := [sys] + states, [e] + events;
    } else {
      states, events := ReturnedUnblocks(sys, f);
    }
  }

  lemma SendsOne(sys: Sys)
    requires FreeToInvoke(sys) && !sys.state.unresolved
    ensures InvokesSent(Next(sys, Invokes).state.sent) == InvokesSent(sys.state.sent) + 1
  {
    OneMoreSent(sys.state.sent, Requested(InvokeCall, GrantToken(sys.state)));
  }

  ghost predicate NoInvokeUntilCleared(sys: Sys) {
    forall states: seq<Sys>, events: seq<Event> ::
      Steps(states, events) && states[0] == sys && (forall k :: 0 <= k < |events| ==> !Clears(events[k]))
      ==> InvokesSent(states[|events|].state.sent) == InvokesSent(sys.state.sent)
  }

  /** A holder that is not blocked can still send one. */
  lemma Unblocks(sys: Sys) returns (states: seq<Sys>, events: seq<Event>)
    requires FreeToInvoke(sys) && !Blocked(sys)
    ensures SendsUncleared(sys, states, events)
  {
    if !sys.state.unresolved {
      states, events := InvokesNow(sys);
    } else {
      var f :| f in sys.frames && InvokeInFlight(f);
      states, events := LateReplyUnblocks(sys, f);
    }
  }

  lemma {:induction false} LengthBound(tokens: set<string>) returns (n: nat)
    ensures forall t :: t in tokens ==> |t| <= n
    decreases |tokens|
  {
    n := 0;
    if tokens != {} {
      var t :| t in tokens;
      var m := LengthBound(tokens - {t});
      n := if m < |t| then |t| else m;
    }
  }

  lemma NewToken(tokens: set<string>) returns (t: string)
    ensures t != "" && t !in tokens
  {
    var n := LengthBound(tokens);
    t := seq(n + 1, _ => 'a');
  }

  /** A connected consumer without a grant is one `adopt` away from one. */
  lemma Regrants(sys: Sys) returns (e: Event, x: Sys)
    requires Good(sys) && !sys.state.disconnected && sys.state.grant.None?
    ensures Step(sys, e, x) && !Clears(e) && x.state.sent == sys.state.sent && FreeToInvoke(x)
    ensures x.frames == sys.frames && x.state.unresolved == sys.state.unresolved
  {
    var token := NewToken(sys.state.ended);
    e := Adopts(Out(AcceptedOut, token, Some(1), Some(0), None, None));
    x := Next(sys, e);
    StepKeepsGood(sys, e);
  }

  lemma Sends(sys: Sys) returns (states: seq<Sys>, events: seq<Event>)
    requires Good(sys) && !Blocked(sys) && !sys.state.disconnected
    ensures SendsUncleared(sys, states, events)
  {
    if sys.state.grant.Some? {
      states, events := Unblocks(sys);
    } else {
      var e, x := Regrants(sys);
      states, events := Unblocks(x);
      StepFirst(sys, e, x, states, events);
      states, events := [sys] + states, [e] + events;
    }
  }

  /** What a disconnected consumer does sends no invocation. */
  ghost predicate StaysSilent(s: State, o: Outcome) {
    o.state.disconnected && InvokesSent(o.state.sent) == InvokesSent(s.sent)
  }

  lemma CallsStaySilent(s: State, kind: Kind, token: string, reply: Option<Out>)
    requires s.disconnected
    ensures StaysSilent(s, Request(s, kind, token)) && StaysSilent(s, Replied(s, kind, token, reply))
    ensures StaysSilent(s, End(s, token)) && StaysSilent(s, Invoke(s)) && StaysSilent(s, Done(Disconnect(s)))
  {
    OneMoreSent(s.sent, EndSent(token));
  }

  lemma ResumesStaySilent(s: State, f: Frame, ok: bool, reply: Option<Out>)
    requires s.disconnected
    ensures f.Signing? ==> StaysSilent(s, Signed(s, f, ok))
    ensures f.Resuming? ==> StaysSilent(s, Answered(s, f, reply))
    ensures f.Verifying? ==> StaysSilent(s, Verified(s, f, ok))
  {
    if f.Signing? { OneMoreSent(s.sent, ResumeSent(f.to.generation)); }
    if f.Verifying? { OneMoreSent(s.sent, EndSent(f.out.token)); }
  }

  lemma SilentEffect(sys: Sys, e: Event)
    requires sys.state.disconnected && Enabled(sys, e)
    ensures StaysSilent(sys.state, Effect(sys, e))
  {
    var s := sys.state;
    match e
    case Offers => CallsStaySilent(s, OfferCall, GrantToken(s), None);
    case Reads => CallsStaySilent(s, ReadCall, GrantToken(s), None);
    case Invokes => CallsStaySilent(s, InvokeCall, "", None);
    case Disconnects => CallsStaySilent(s, OfferCall, "", None);
    case Asks(token) => CallsStaySilent(s, StatusCall, token, None);
    case Ends(token) => CallsStaySilent(s, OfferCall, token, None);
    case Replies(f, reply) => CallsStaySilent(s, f.kind, f.token, reply);
    case Signs(f, ok) => ResumesStaySilent(s, f, ok, None);
    case Answers(f, reply) => ResumesStaySilent(s, f, true, reply);
    case Verifies(f, ok) => ResumesStaySilent(s, f, ok, None);
    case _ =>
  }

  lemma SilentStep(sys: Sys, e: Event, next: Sys)
    requires sys.state.disconnected && Step(sys, e, next)
    ensures StaysSilent(sys.state, Done(next.state))
  {
    SilentEffect(sys, e);
  }

  /** Once disconnected no invocation is sent, whatever happens. */
  lemma {:induction false} SilentForGood(states: seq<Sys>, events: seq<Event>, k: nat)
    requires Steps(states, events) && states[0].state.disconnected && k < |states|
    ensures StaysSilent(states[0].state, Done(states[k].state))
  {
    if k > 0 {
      SilentForGood(states, events, k - 1);
      SilentStep(states[k - 1], events[k - 1], states[k]);
    }
  }

  /** In every reachable state: no further invocation is sent until the consumer abandons, ends or disconnects if
      and only if its last one is unresolved and no other is in flight, or it is disconnected. A late reply to an
      abandoned invocation would otherwise lift the block. */
  lemma UnknownHoldsExactly(sys: Sys)
    requires Good(sys)
    ensures NoInvokeUntilCleared(sys) <==> Blocked(sys) || sys.state.disconnected
  {
    if Blocked(sys) || sys.state.disconnected {
      forall states: seq<Sys>, events: seq<Event> |
        Steps(states, events) && states[0] == sys && (forall k :: 0 <= k < |events| ==> !Clears(events[k]))
        ensures InvokesSent(states[|events|].state.sent) == InvokesSent(sys.state.sent)
      {
        if Blocked(sys) { UnknownHolds(states, events); } else { SilentForGood(states, events, |events|); }
      }
    } else {
      var states, events := Sends(sys);
    }
  }

  // ---- a run in which the block is lifted -----------------------------------------------------------------------

  /** The state of a consumer that asked for `token`'s status. */
  function Asking(identity: Identity, consumer: string, token: string): State {
    Start(identity, consumer).(sent := [Requested(StatusCall, token)])
  }

  /** A status was asked for and its reply is on the way back to the caller. */
  lemma Told(identity: Identity, consumer: string, token: string, out: Out)
    returns (states: seq<Sys>, events: seq<Event>)
    requires !out.status.EndedOut?
    ensures Run(states, events) && |events| == 2
    ensures states[2] == Sys(Asking(identity, consumer, token), multiset{Returned(StatusCall, out)})
  {
    var s, t := Start(identity, consumer), Asking(identity, consumer, token);
    var asked := Calling(StatusCall, token);
    events := [Asks(token), Replies(asked, Some(out))];
    states := [Sys(s, multiset{}), Sys(t, multiset{asked}), Sys(t, multiset{Returned(StatusCall, out)})];
    assert s.sent + [Requested(StatusCall, token)] == t.sent;
    assert Step(states[0], events[0], states[1]);
    assert multiset{asked} - multiset{asked} == multiset{};
    assert Step(states[1], events[1], states[2]);
  }

  lemma Paired(identity: Identity, consumer: string, token: string)
    returns (states: seq<Sys>, events: seq<Event>, g: Grant)
    requires token != ""
    ensures Run(states, events) && |events| == 3 && g.token == token
    ensures states[3] == Sys(Asking(identity, consumer, token).(grant := Some(g), serial := 1), multiset{})
  {
    var out := Out(AcceptedOut, token, Some(1), Some(0), None, None);
    g := Grant(token, Some(1), Some(0), None, 0);
    states, events := Told(identity, consumer, token, out);
    var next := Sys(Asking(identity, consumer, token).(grant := Some(g), serial := 1), multiset{});
    TakenUp(states[2], out, next);
    RunOn(states, events, Continues(Returned(StatusCall, out)), next);
    states, events := states + [next], events + [Continues(Returned(StatusCall, out))];
  }

  lemma TakenUp(sys: Sys, out: Out, next: Sys)
    requires sys.frames == multiset{Returned(StatusCall, out)} && next == Sys(Adopt(sys.state, out), multiset{})
    ensures Step(sys, Continues(Returned(StatusCall, out)), next)
  {
    var told := Returned(StatusCall, out);
    assert multiset{told} - multiset{told} == multiset{};
  }

  lemma Invoked(sys: Sys, g: Grant) returns (next: Sys)
    requires sys.state.grant == Some(g) && !sys.state.disconnected && !sys.state.unresolved
    requires g.token !in sys.state.ended
    ensures Step(sys, Invokes, next) && next.frames == sys.frames + multiset{Calling(InvokeCall, g.token)}
    ensures next.state.unresolved && next.state.grant == Some(g) && next.state.ended == sys.state.ended
    ensures !next.state.disconnected
  {
    next := Next(sys, Invokes);
  }

  lemma InvokedTwice(sys: Sys, g: Grant) returns (a: Sys, b: Sys, c: Sys)
    requires sys.frames == multiset{} && sys.state.grant == Some(g) && !sys.state.disconnected && !sys.state.unresolved
    requires g.token !in sys.state.ended
    ensures Step(sys, Invokes, a) && Step(a, Abandons, b) && Step(b, Invokes, c)
    ensures c.frames == multiset{Calling(InvokeCall, g.token), Calling(InvokeCall, g.token)} && c.state.unresolved
    ensures c.state.grant == Some(g) && !c.state.disconnected
  {
    a := Invoked(sys, g);
    b := Next(a, Abandons);
    c := Invoked(b, g);
  }

  lemma SecondUnknown(c: Sys, token: string) returns (d: Sys, e: Sys)
    requires c.frames == multiset{Calling(InvokeCall, token), Calling(InvokeCall, token)}
    ensures Step(c, Replies(Calling(InvokeCall, token), None), d)
    ensures Step(d, Continues(Returned(InvokeCall, UNKNOWN)), e)
    ensures e == Sys(c.state, multiset{Calling(InvokeCall, token)})
  {
    var f, u := Calling(InvokeCall, token), Returned(InvokeCall, UNKNOWN);
    d := Next(c, Replies(f, None));
    assert d == Sys(c.state, multiset{f, u});
    e := Next(d, Continues(u));
    assert multiset{f, u} - multiset{u} == multiset{f};
  }

  lemma RunOn(states: seq<Sys>, events: seq<Event>, e: Event, next: Sys)
    requires Run(states, events) && Step(states[|events|], e, next)
    ensures Run(states + [next], events + [e])
  {
    StepsOn(states, events, e, next);
    assert (states + [next])[0] == states[0];
  }

  lemma StepsOn(states: seq<Sys>, events: seq<Event>, e: Event, next: Sys)
    requires Steps(states, events) && Step(states[|events|], e, next)
    ensures Steps(states + [next], events + [e])
  {
    forall k | 0 <= k < |events| + 1 ensures Step((states + [next])[k], (events + [e])[k], (states + [next])[k + 1]) {
      StepAmong(states, events, e, next, k);
    }
  }

  lemma StepAmong(states: seq<Sys>, events: seq<Event>, e: Event, next: Sys, k: nat)
    requires Steps(states, events) && Step(states[|events|], e, next) && k <= |events|
    ensures Step((states + [next])[k], (events + [e])[k], (states + [next])[k + 1])
  {
    assert (states + [next])[k] == states[k];
    if k < |events| {
      assert (states + [next])[k + 1] == states[k + 1] && (events + [e])[k] == events[k];
      assert Step(states[k], events[k], states[k + 1]);
    }
  }

  lemma RunTwoInvokes(identity: Identity, consumer: string, token: string)
    returns (states: seq<Sys>, events: seq<Event>)
    requires token != ""
    ensures Run(states, events)
    ensures states[|events|].frames == multiset{Calling(InvokeCall, token), Calling(InvokeCall, token)}
    ensures states[|events|].state.unresolved && states[|events|].state.grant.Some?
    ensures !states[|events|].state.disconnected
  {
    var g;
    states, events, g := Paired(identity, consumer, token);
    var a, b, c := InvokedTwice(states[3], g);
    RunOn(states, events, Invokes, a);
    states, events := states + [a], events + [Invokes];
    RunOn(states, events, Abandons, b);
    states, events := states + [b], events + [Abandons];
    RunOn(states, events, Invokes, c);
    states, events := states + [c], events + [Invokes];
  }

  /** The block is lifted in a reachable run: an invocation is abandoned, the next one's outcome is unknown,
      and the first one's reply is still to come. */
  lemma UnknownWithAnotherInFlight(identity: Identity, consumer: string, token: string)
    returns (states: seq<Sys>, events: seq<Event>)
    requires token != ""
    ensures Run(states, events) && events != [] && events[|events| - 1] == Continues(Returned(InvokeCall, UNKNOWN))
    ensures states[|events|].state.unresolved && FreeToInvoke(states[|events|])
    ensures !NoInvokeUntilCleared(states[|events|])
  {
    states, events := RunTwoInvokes(identity, consumer, token);
    var c := states[|events|];
    var d, e := SecondUnknown(c, token);
    RunOn(states, events, Replies(Calling(InvokeCall, token), None), d);
    states, events := states + [d], events + [Replies(Calling(InvokeCall, token), None)];
    RunOn(states, events, Continues(Returned(InvokeCall, UNKNOWN)), e);
    states, events := states + [e], events + [Continues(Returned(InvokeCall, UNKNOWN))];
    ReachableGood(states, events, |events|);
    LiftedAt(e, token);
  }

  lemma LiftedAt(e: Sys, token: string)
    requires FreeToInvoke(e) && e.frames == multiset{Calling(InvokeCall, token)}
    ensures !NoInvokeUntilCleared(e)
  {
    assert Calling(InvokeCall, token) in e.frames && InvokeInFlight(Calling(InvokeCall, token));
    UnknownHoldsExactly(e);
  }

  // ---- disconnecting --------------------------------------------------------------------------------------------

  /** The host itself hands over an accepted grant whose token has not ended. */
  predicate HostAdopts(s: State, e: Event) { e.Adopts? && Adoptable(s, e.out) }

  /** Nothing is held, and nothing still to come on its own would be adopted. */
  ghost predicate Gone(sys: Sys) {
    sys.state.disconnected && sys.state.grant.None? && forall f :: f in sys.frames ==> !WouldAdopt(sys.state, f)
  }

  lemma GoneStep(sys: Sys, e: Event, next: Sys)
    requires Gone(sys) && Step(sys, e, next) && !HostAdopts(sys.state, e)
    ensures Gone(next)
  {
    GoneEffect(sys, e);
    forall f | f in next.frames ensures !WouldAdopt(next.state, f) {
      assert f in sys.frames || Effect(sys, e).frame == Some(f);
      if f in sys.frames { assert !WouldAdopt(sys.state, f); }
    }
  }

  ghost predicate StaysGone(s: State, o: Outcome) {
    o.state.disconnected && o.state.grant.None? && s.ended <= o.state.ended
        && (o.frame.Some? ==> !WouldAdopt(o.state, o.frame.value))
  }

  lemma CallsStayGone(s: State, kind: Kind, token: string, reply: Option<Out>)
    requires s.disconnected && s.grant.None?
    ensures StaysGone(s, Request(s, kind, token)) && StaysGone(s, Replied(s, kind, token, reply))
    ensures StaysGone(s, End(s, token))
  {
  }

  lemma ResumesStayGone(s: State, f: Frame, ok: bool, reply: Option<Out>)
    requires s.disconnected && s.grant.None?
    ensures f.Signing? ==> StaysGone(s, Signed(s, f, ok))
    ensures f.Resuming? ==> StaysGone(s, Answered(s, f, reply))
    ensures f.Verifying? ==> StaysGone(s, Verified(s, f, ok))
  {
  }

  lemma GoneEffect(sys: Sys, e: Event)
    requires Gone(sys) && Enabled(sys, e) && !HostAdopts(sys.state, e)
    ensures StaysGone(sys.state, Effect(sys, e))
  {
    var s := sys.state;
    match e
    case Offers => CallsStayGone(s, OfferCall, GrantToken(s), None);
    case Asks(token) => CallsStayGone(s, StatusCall, token, None);
    case Ends(token) => CallsStayGone(s, OfferCall, token, None);
    case Replies(f, reply) => CallsStayGone(s, f.kind, f.token, reply);
    case Continues(f) => assert !WouldAdopt(s, f);
    case Signs(f, ok) => ResumesStayGone(s, f, ok, None);
    case Answers(f, reply) => ResumesStayGone(s, f, true, reply);
    case Verifies(f, ok) => ResumesStayGone(s, f, ok, None);
    case _ =>
  }

  /** A stretch from `sys` in which the host adopts nothing. */
  ghost predicate Unaided(sys: Sys, states: seq<Sys>, events: seq<Event>) {
    && Steps(states, events) && states[0] == sys
    && forall k :: 0 <= k < |events| ==> !HostAdopts(states[k].state, events[k])
  }

  lemma {:induction false} GoneForGood(states: seq<Sys>, events: seq<Event>)
    requires |states| > 0 && Unaided(states[0], states, events) && Gone(states[0])
    ensures Gone(states[|events|])
    decreases |events|
  {
    if events != [] {
      var n := |events| - 1;
      assert Unaided(states[0], states[..n + 1], events[..n]);
      GoneForGood(states[..n + 1], events[..n]);
      assert states[n] == states[..n + 1][n];
      assert Step(states[n], events[n], states[n + 1]) && !HostAdopts(states[n].state, events[n]);
      GoneStep(states[n], events[n], states[n + 1]);
    }
  }

  /** A disconnected consumer without a grant never has one again until its host adopts one, if and only if no
      status result was on its way back to its caller: adopting does not look at the disconnection. */
  lemma DisconnectedExactly(sys: Sys)
    requires sys.state.disconnected && sys.state.grant.None?
    ensures (forall states: seq<Sys>, events: seq<Event> ::
               Unaided(sys, states, events) ==> states[|events|].state.grant.None?)
            <==> Gone(sys)
  {
    if Gone(sys) {
      forall states: seq<Sys>, events: seq<Event> | Unaided(sys, states, events)
        ensures states[|events|].state.grant.None?
      {
        GoneForGood(states, events);
      }
    } else {
      var f :| f in sys.frames && WouldAdopt(sys.state, f);
      var states, events := StillAdopts(sys, f);
    }
  }

  lemma StillAdopts(sys: Sys, f: Frame) returns (states: seq<Sys>, events: seq<Event>)
    requires f in sys.frames && WouldAdopt(sys.state, f)
    ensures Unaided(sys, states, events) && states[|events|].state.grant.Some?
  {
    states, events := [sys, Next(sys, Continues(f))], [Continues(f)];
  }

  /** A stretch from a disconnected consumer without a grant, whoever adopts: it holds a grant somewhere if and
      only if some step handed it one whose token had not ended. */
  lemma HeldAgainExactly(states: seq<Sys>, events: seq<Event>)
    requires Steps(states, events) && Disconnected(states[0].state)
    ensures (exists k :: 0 <= k < |states| && states[k].state.grant.Some?)
            <==> (exists k :: 0 <= k < |events| && Hands(states[k].state, events[k]))
  {
    if n :| 0 <= n < |events| && Hands(states[n].state, events[n]) {
      assert Step(states[n], events[n], states[n + 1]);
      HandedHeld(states[n], events[n]);
    } else {
      forall k | 0 <= k < |states| ensures states[k].state.grant.None? { NeverHanded(states, events, k); }
    }
  }

  predicate Disconnected(s: State) { s.disconnected && s.grant.None? }

  lemma HandedHeld(sys: Sys, e: Event)
    requires Enabled(sys, e) && Hands(sys.state, e)
    ensures Effect(sys, e).state.grant.Some? && Effect(sys, e).state.disconnected == sys.state.disconnected
    ensures Effect(sys, e).state.grant.value.token == Handed(e).token
    ensures Effect(sys, e).state.grant.value.expires == Handed(e).expires
  {
  }

  lemma UnhandedStays(sys: Sys, e: Event)
    requires Disconnected(sys.state) && Enabled(sys, e) && !Hands(sys.state, e)
    ensures Disconnected(Effect(sys, e).state)
  {
    var s := sys.state;
    match e
    case Offers => CallsStayGone(s, OfferCall, GrantToken(s), None);
    case Asks(token) => CallsStayGone(s, StatusCall, token, None);
    case Ends(token) => CallsStayGone(s, OfferCall, token, None);
    case Replies(f, reply) => CallsStayGone(s, f.kind, f.token, reply);
    case Signs(f, ok) => ResumesStayGone(s, f, ok, None);
    case Answers(f, reply) => ResumesStayGone(s, f, true, reply);
    case Verifies(f, ok) => ResumesStayGone(s, f, ok, None);
    case _ =>
  }

  lemma {:induction false} NeverHanded(states: seq<Sys>, events: seq<Event>, k: nat)
    requires Steps(states, events) && Disconnected(states[0].state) && k < |states|
    requires forall n :: 0 <= n < |events| ==> !Hands(states[n].state, events[n])
    ensures Disconnected(states[k].state)
  {
    if k > 0 {
      NeverHanded(states, events, k - 1);
      assert Step(states[k - 1], events[k - 1], states[k]) && !Hands(states[k - 1].state, events[k - 1]);
      UnhandedStays(states[k - 1], events[k - 1]);
    }
  }

  const GRANTED := Out(AcceptedOut, "t", Some(1), Some(0), None, None)

  /** Reachable: a status result comes back after the disconnection and is adopted. */
  lemma LateStatusAdopted(identity: Identity, consumer: string) returns (states: seq<Sys>, events: seq<Event>)
    ensures Run(states, events) && Disconnects in events
    ensures states[|events|].state.disconnected && states[|events|].state.grant.Some?
  {
    states, events := Told(identity, consumer, "t", GRANTED);
    var x := states[2].(state := Disconnect(states[2].state));
    var y := Sys(Adopt(x.state, GRANTED), multiset{});
    RunOn(states, events, Disconnects, x);
    states, events := states + [x], events + [Disconnects];
    TakenUp(x, GRANTED, y);
    RunOn(states, events, Continues(Returned(StatusCall, GRANTED)), y);
    states, events := states + [y], events + [Continues(Returned(StatusCall, GRANTED))];
  }

  /** Reachable: the host adopts a grant after the disconnection. */
  lemma HostAdoptsLate(identity: Identity, consumer: string) returns (states: seq<Sys>, events: seq<Event>)
    ensures Run(states, events) && events == [Disconnects, Adopts(GRANTED)]
    ensures states[2].state.disconnected && states[2].state.grant.Some?
  {
    var a := Sys(Start(identity, consumer), multiset{});
    var b := Next(a, Disconnects);
    events := [Disconnects, Adopts(GRANTED)];
    states := [a, b, Next(b, Adopts(GRANTED))];
  }

  // ---- what a run tells ------------------------------------------------------------------------------------------

  /** The step ends `t`: the host ends it, the consumer disconnects while it holds it, or a connected consumer hears
      that it ended in reply to a request for it. */
  predicate EndsToken(s: State, e: Event, t: string) {
    match e
    case Ends(u) => u == t
    case Disconnects => t != "" && s.grant.Some? && s.grant.value.token == t
    case Replies(f, reply) =>
      && t != "" && f.Calling? && f.token == t && reply.Some? && reply.value.status.EndedOut? && !s.disconnected
    case _ => false
  }

  /** Some step before state `k` ended `t`. */
  ghost predicate Over(states: seq<Sys>, events: seq<Event>, k: nat, t: string)
    requires |states| == |events| + 1 && k <= |events|
  {
    k > 0 && (Over(states, events, k - 1, t) || EndsToken(states[k - 1].state, events[k - 1], t))
  }

  /** The consumer disconnected before state `k`. */
  ghost predicate Severed(events: seq<Event>, k: nat)
    requires k <= |events|
  {
    k > 0 && (Severed(events, k - 1) || events[k - 1].Disconnects?)
  }

  lemma Recorded(sys: Sys, e: Event, t: string)
    requires Enabled(sys, e)
    ensures t in Effect(sys, e).state.ended <==> t in sys.state.ended || EndsToken(sys.state, e, t)
    ensures Effect(sys, e).state.disconnected <==> sys.state.disconnected || e.Disconnects?
  {
    match e
    case Verifies(f, ok) =>
    case Continues(f) =>
    case _ =>
  }

  lemma RecordedBy(sys: Sys, e: Event, next: Sys, t: string)
    requires Step(sys, e, next)
    ensures t in next.state.ended <==> t in sys.state.ended || EndsToken(sys.state, e, t)
    ensures next.state.disconnected <==> sys.state.disconnected || e.Disconnects?
  {
    Recorded(sys, e, t);
  }

  /** The tokens recorded as ended are those some step has ended. */
  lemma {:induction false} EndedExactly(states: seq<Sys>, events: seq<Event>, k: nat, t: string)
    requires Run(states, events) && k < |states|
    ensures t in states[k].state.ended <==> Over(states, events, k, t)
    ensures states[k].state.disconnected <==> Severed(events, k)
  {
    if k > 0 {
      EndedExactly(states, events, k - 1, t);
      RecordedBy(states[k - 1], events[k - 1], states[k], t);
    }
  }

  /** The request the host's call makes, and for which token. */
  function Asked(s: State, e: Event): Option<(Kind, string)> {
    match e
    case Offers => Some((OfferCall, if s.grant.Some? then s.grant.value.token else ""))
    case Reads => if s.grant.Some? then Some((ReadCall, s.grant.value.token)) else None
    case Invokes => if s.grant.Some? && !s.unresolved then Some((InvokeCall, s.grant.value.token)) else None
    case Asks(token) => Some((StatusCall, token))
    case _ => None
  }

  /** The call is answered at once, as ended. */
  ghost predicate Refuses(sys: Sys, kind: Kind, next: Sys) {
    next.state.sent == sys.state.sent && next.frames == sys.frames + multiset{Returned(kind, ENDED)}
  }

  ghost predicate Calls(sys: Sys, kind: Kind, t: string, next: Sys) {
    && next.state.sent == sys.state.sent + [Requested(kind, t)]
    && next.frames == sys.frames + multiset{Calling(kind, t)}
  }

  ghost predicate CallsOrRefuses(sys: Sys, kind: Kind, t: string, next: Sys) {
    if (t != "" && t in sys.state.ended) || sys.state.disconnected then Refuses(sys, kind, next)
    else Calls(sys, kind, t, next)
  }

  lemma CallStep(sys: Sys, e: Event, next: Sys)
    requires Step(sys, e, next) && Asked(sys.state, e).Some?
    ensures CallsOrRefuses(sys, Asked(sys.state, e).value.0, Asked(sys.state, e).value.1, next)
  {
    if e.Offers? {
      OfferCalls(sys, next);
    } else if e.Asks? {
      StatusCalls(sys, e.token, next);
    } else {
      HolderCalls(sys, e, next);
    }
  }

  lemma OfferCalls(sys: Sys, next: Sys)
    requires next == After(sys.frames, Offer(sys.state))
    ensures CallsOrRefuses(sys, OfferCall, GrantToken(sys.state), next)
  {
    CallDoes(sys, sys.state, OfferCall, GrantToken(sys.state));
  }

  lemma StatusCalls(sys: Sys, token: string, next: Sys)
    requires next == After(sys.frames, Status(sys.state, token))
    ensures CallsOrRefuses(sys, StatusCall, token, next)
  {
    CallDoes(sys, sys.state, StatusCall, token);
  }

  lemma HolderCalls(sys: Sys, e: Event, next: Sys)
    requires Step(sys, e, next) && sys.state.grant.Some? && (e.Reads? || (e.Invokes? && !sys.state.unresolved))
    ensures CallsOrRefuses(sys, if e.Reads? then ReadCall else InvokeCall, sys.state.grant.value.token, next)
  {
    if e.Reads? {
      CallDoes(sys, sys.state, ReadCall, sys.state.grant.value.token);
    } else {
      CallDoes(sys, sys.state.(unresolved := true), InvokeCall, sys.state.grant.value.token);
    }
  }

  lemma CallDoes(sys: Sys, s: State, kind: Kind, t: string)
    requires s.sent == sys.state.sent && s.ended == sys.state.ended && s.disconnected == sys.state.disconnected
    ensures CallsOrRefuses(sys, kind, t, After(sys.frames, Request(s, kind, t)))
  {
  }

  /** A request goes out if and only if the consumer is connected and nothing has ended its token; otherwise it is
      answered as ended at once. */
  lemma CallsExactly(states: seq<Sys>, events: seq<Event>, k: nat)
    requires Run(states, events) && k < |events| && Asked(states[k].state, events[k]).Some?
    ensures var (kind, t) := Asked(states[k].state, events[k]).value;
            if (t != "" && Over(states, events, k, t)) || Severed(events, k)
            then Refuses(states[k], kind, states[k + 1])
            else Calls(states[k], kind, t, states[k + 1])
  {
    EndedExactly(states, events, k, Asked(states[k].state, events[k]).value.1);
    CallStep(states[k], events[k], states[k + 1]);
  }

  lemma ReplyStep(sys: Sys, f: Frame, reply: Option<Out>)
    requires Enabled(sys, Replies(f, reply))
    ensures var next := Next(sys, Replies(f, reply));
            var over := (f.token != "" && f.token in sys.state.ended) || sys.state.disconnected;
            && next.frames == sys.frames - multiset{f} + multiset{Returned(f.kind,
                                if reply.None? then UNKNOWN else if over then ENDED else reply.value)}
            && next.state.sent == sys.state.sent
  {
  }

  /** What a request returns once its reply is there: the reply itself, unless the call threw or its token ended or
      the consumer disconnected meanwhile. */
  lemma RepliesExactly(states: seq<Sys>, events: seq<Event>, k: nat)
    requires Run(states, events) && k < |events| && events[k].Replies?
    ensures var f, reply := events[k].f, events[k].reply;
            f.Calling?
            && var over := (f.token != "" && Over(states, events, k, f.token)) || Severed(events, k);
               && states[k + 1].frames
                  == states[k].frames - multiset{f}
                     + multiset{Returned(f.kind, if reply.None? then UNKNOWN else if over then ENDED else reply.value)}
               && states[k + 1].state.sent == states[k].state.sent
  {
    assert Step(states[k], events[k], states[k + 1]);
    EndedExactly(states, events, k, events[k].f.token);
    ReplyStep(states[k], events[k].f, events[k].reply);
  }

  // ---- ended for good --------------------------------------------------------------------------------------------

  /** Between the two nothing was requested for `t`. */
  ghost predicate NoneRequested(t: string, before: seq<Sent>, after: seq<Sent>) {
    before <= after && forall n :: |before| <= n < |after| ==> !(after[n].Requested? && after[n].token == t)
  }

  lemma NoneSent(sys: Sys, e: Event, t: string)
    requires Enabled(sys, e) && t != "" && t in sys.state.ended
    ensures NoneRequested(t, sys.state.sent, Effect(sys, e).state.sent)
  {
    match e
    case Verifies(f, ok) =>
    case Continues(f) =>
    case _ =>
  }

  lemma NoneStep(sys: Sys, e: Event, next: Sys, t: string)
    requires Step(sys, e, next) && t != "" && t in sys.state.ended
    ensures NoneRequested(t, sys.state.sent, next.state.sent)
  {
    NoneSent(sys, e, t);
  }

  lemma NoneThrough(t: string, a: seq<Sent>, b: seq<Sent>, c: seq<Sent>)
    requires NoneRequested(t, a, b) && NoneRequested(t, b, c)
    ensures NoneRequested(t, a, c)
  {
  }

  lemma {:induction false} NoneRequestedAfter(states: seq<Sys>, events: seq<Event>, i: nat, j: nat, t: string)
    requires Run(states, events) && i <= j < |states| && t != "" && Over(states, events, i, t)
    ensures NoneRequested(t, states[i].state.sent, states[j].state.sent) && Over(states, events, j, t)
    decreases j
  {
    if i < j {
      NoneRequestedAfter(states, events, i, j - 1, t);
      NoneRequestedAt(states, events, j, t);
      NoneThrough(t, states[i].state.sent, states[j - 1].state.sent, states[j].state.sent);
    }
  }

  lemma NoneRequestedAt(states: seq<Sys>, events: seq<Event>, k: nat, t: string)
    requires Run(states, events) && 0 < k < |states| && t != "" && Over(states, events, k - 1, t)
    ensures NoneRequested(t, states[k - 1].state.sent, states[k].state.sent)
  {
    EndedExactly(states, events, k - 1, t);
    NoneStep(states[k - 1], events[k - 1], states[k], t);
  }

  /** A call for `t`, or the reply to an earlier one, returns that it ended, or that the outcome is not known. */
  ghost predicate HearsEnded(sys: Sys, e: Event, next: Sys, t: string) {
    && (e == Asks(t) ==> next.frames == sys.frames + multiset{Returned(StatusCall, ENDED)})
    && (e.Replies? && e.f.Calling? && e.f.token == t
        ==> next.frames
            == sys.frames - multiset{e.f} + multiset{Returned(e.f.kind, if e.reply.None? then UNKNOWN else ENDED)})
    && ENDED.status.EndedOut? && UNKNOWN.status.UnknownOut?
  }

  /** Once a step has ended a token, in every later state it is not the grant, it is never requested again, and
      whatever comes back for it says that it ended or that the outcome is not known. */
  lemma OverForGood(states: seq<Sys>, events: seq<Event>, i: nat, j: nat, t: string)
    requires Run(states, events) && i < j < |states| && EndsToken(states[i].state, events[i], t)
    ensures states[j].state.grant.Some? ==> states[j].state.grant.value.token != t
    ensures t != "" ==> NoneRequested(t, states[i + 1].state.sent, states[j].state.sent)
    ensures t != "" && j < |events| ==> HearsEnded(states[j], events[j], states[j + 1], t)
  {
    assert Over(states, events, i + 1, t);
    NotHeldAfter(states, events, i + 1, j, t);
    if t != "" {
      NoneRequestedAfter(states, events, i + 1, j, t);
      if j < |events| { HeardAt(states, events, j, t); }
    }
  }

  lemma NotHeldAfter(states: seq<Sys>, events: seq<Event>, i: nat, j: nat, t: string)
    requires Run(states, events) && i <= j < |states| && Over(states, events, i, t)
    ensures states[j].state.grant.Some? ==> states[j].state.grant.value.token != t
  {
    EndedExactly(states, events, i, t);
    EndedForGood(states, events, i, j, t);
  }

  lemma HeardAt(states: seq<Sys>, events: seq<Event>, j: nat, t: string)
    requires Run(states, events) && j < |events| && t != "" && Over(states, events, j, t)
    ensures HearsEnded(states[j], events[j], states[j + 1], t)
  {
    if events[j] == Asks(t) { CallsExactly(states, events, j); }
    if events[j].Replies? { RepliesExactly(states, events, j); }
  }

  // ---- the grant -------------------------------------------------------------------------------------------------

  /** What the step would adopt: what the host hands over, a status result, or the grant of a resume whose proof is
      right, of a connected consumer that still holds the grant it began with. */
  function Adopting(s: State, e: Event): Option<Out> {
    match e
    case Adopts(out) => Some(out)
    case Continues(f) => if f.Returned? && f.kind.StatusCall? then Some(f.out) else None
    case Verifies(f, ok) =>
      if f.Verifying? && ok && f.out.proof == Some(Proof(f.r.secret, "response", f.to, s.consumer, f.nonce))
         && !s.disconnected && s.grant.Some? && s.grant.value.serial == f.original.serial
      then Some(f.out)
      else None
    case _ => None
  }

  predicate Revokes(s: State, e: Event) {
    || e.Disconnects?
    || (e.Ends? && e.token !in s.ended)
    || (e.Replies? && e.f.Calling? && EndsToken(s, e, e.f.token) && e.f.token !in s.ended)
  }

  lemma GrantStep(sys: Sys, e: Event)
    requires Enabled(sys, e)
    ensures var s, g := sys.state, Effect(sys, e).state.grant;
            match Adopting(s, e)
            case Some(out) =>
              if out.status.AcceptedOut? && out.token != "" && out.token !in s.ended
              then g == Some(Grant(out.token, out.epoch, out.expires, out.resume, s.serial)) else g == s.grant
            case None => g == if Revokes(s, e) then None else s.grant
  {
    match e
    case Verifies(f, ok) =>
    case Continues(f) =>
    case _ =>
  }

  /** The grant is replaced exactly by what is adopted and has not ended, and lost exactly when the consumer
      disconnects, ends a token for the first time or first hears that one ended. */
  lemma GrantExactly(states: seq<Sys>, events: seq<Event>, k: nat)
    requires Run(states, events) && k < |events|
    ensures var s, e, g := states[k].state, events[k], states[k + 1].state.grant;
            match Adopting(s, e)
            case Some(out) =>
              if out.status.AcceptedOut? && out.token != "" && !Over(states, events, k, out.token)
              then g == Some(Grant(out.token, out.epoch, out.expires, out.resume, s.serial)) else g == s.grant
            case None =>
              g == if e.Disconnects? || ((e.Ends? || e.Replies?) && EndsFirst(states, events, k)) then None else s.grant
  {
    var s, e := states[k].state, events[k];
    assert Step(states[k], e, states[k + 1]);
    GrantStep(states[k], e);
    if Adopting(s, e).Some? { EndedExactly(states, events, k, Adopting(s, e).value.token); }
    if e.Ends? { EndedExactly(states, events, k, e.token); }
    if e.Replies? { EndedExactly(states, events, k, e.f.token); }
  }

  /** The step is the first to end its token. */
  ghost predicate EndsFirst(states: seq<Sys>, events: seq<Event>, k: nat)
    requires |states| == |events| + 1 && k < |events|
  {
    match events[k]
    case Ends(t) => !Over(states, events, k, t)
    case Replies(f, _) =>
      f.Calling? && EndsToken(states[k].state, events[k], f.token) && !Over(states, events, k, f.token)
    case _ => false
  }

  lemma EndStep(sys: Sys, t: string)
    ensures var next := Next(sys, Ends(t));
            if t in sys.state.ended then next == sys
            else next.state.sent == sys.state.sent + [EndSent(t)] && next.frames == sys.frames + multiset{Ending(t)}
                 && !next.state.unresolved
  {
  }

  /** The first end of a token is sent on, and settles a pending invocation; a repeated one changes nothing. */
  lemma EndsExactly(states: seq<Sys>, events: seq<Event>, k: nat)
    requires Run(states, events) && k < |events| && events[k].Ends?
    ensures var t, sys, next := events[k].token, states[k], states[k + 1];
            if Over(states, events, k, t) then next == sys
            else next.state.sent == sys.state.sent + [EndSent(t)] && next.frames == sys.frames + multiset{Ending(t)}
                 && !next.state.unresolved
  {
    assert Step(states[k], events[k], states[k + 1]);
    EndedExactly(states, events, k, events[k].token);
    EndStep(states[k], events[k].token);
  }

  /** An invocation stays unresolved until its outcome is known, or the host abandons, ends or disconnects. */
  lemma UnresolvedExactly(sys: Sys, e: Event)
    requires Enabled(sys, e)
    ensures var s := sys.state;
            Effect(sys, e).state.unresolved
            == match e
                 case Invokes => s.unresolved || s.grant.Some?
                 case Abandons => false
                 case Disconnects => false
                 case Ends(t) => s.unresolved && t in s.ended
                 case Continues(Returned(InvokeCall, out)) => s.unresolved && out.status.UnknownOut?
                 case _ => s.unresolved
  {
    match e
    case Signs(f, ok) => ResumeUnresolved(sys.state, f, ok, None);
    case Answers(f, reply) => ResumeUnresolved(sys.state, f, true, reply);
    case Verifies(f, ok) => ResumeUnresolved(sys.state, f, ok, None);
    case _ =>
  }

  lemma ResumeUnresolved(s: State, f: Frame, ok: bool, reply: Option<Out>)
    ensures f.Signing? ==> Signed(s, f, ok).state.unresolved == s.unresolved
    ensures f.Resuming? ==> Answered(s, f, reply).state.unresolved == s.unresolved
    ensures f.Verifying? ==> Verified(s, f, ok).state.unresolved == s.unresolved
  {
  }

  // ---- one resume at a time ----------------------------------------------------------------------------------------

  predicate OfResume(f: Frame) { f.Signing? || f.Resuming? || f.Verifying? || f.Revoking? }

  /** At most one resume is under way, and the consumer knows of it. */
  ghost predicate OneResume(sys: Sys) {
    && (forall f, g :: f in sys.frames && g in sys.frames && OfResume(f) && OfResume(g) ==> f == g)
    && (forall f :: f in sys.frames && OfResume(f) ==> sys.frames[f] == 1)
    && (sys.state.resuming <==> exists f :: f in sys.frames && OfResume(f))
  }

  /** The step lets the resume go on, ends it, or leaves it alone. */
  lemma ResumeStep(sys: Sys, e: Event, o: Outcome)
    requires Enabled(sys, e) && o == Effect(sys, e)
    ensures o.frame.Some? && OfResume(o.frame.value)
            ==> (e.Resumes? && o.state.resuming)
                || ((e.Signs? || e.Answers? || e.Verifies?) && o.state.resuming == sys.state.resuming)
    ensures e.Resumes? && o.frame.Some? ==> !sys.state.resuming && OfResume(o.frame.value)
    ensures !e.Resumes? && (o.frame.None? || !OfResume(o.frame.value))
            ==> o.state.resuming == (sys.state.resuming && !EndsResume(e))
    ensures e.Resumes? && o.frame.None? ==> o.state.resuming == sys.state.resuming
    ensures (e.Signs? || e.Answers? || e.Verifies?) && o.frame.Some?
            ==> OfResume(o.frame.value) && o.state.resuming == sys.state.resuming
  {
  }

  predicate EndsResume(e: Event) {
    e.Signs? || e.Answers? || e.Verifies? || (e.Settles? && e.f.Revoking?)
  }

  lemma EndedResume(sys: Sys, e: Event)
    requires Enabled(sys, e) && OneResume(sys) && EndsResume(e)
    ensures forall g :: g in Rest(sys, e) ==> !OfResume(g)
  {
    forall g | g in Rest(sys, e) ensures !OfResume(g) {
      assert g in sys.frames && e.f in sys.frames && OfResume(e.f);
    }
  }

  lemma OneResumeStep(sys: Sys, e: Event, next: Sys)
    requires Step(sys, e, next) && OneResume(sys)
    ensures OneResume(next)
  {
    var o := Effect(sys, e);
    ResumeStep(sys, e, o);
    if EndsResume(e) {
      EndedResume(sys, e);
      OneLeft(Rest(sys, e), o);
    } else if e.Resumes? && o.frame.Some? {
      OneLeft(sys.frames, o);
    } else {
      NoneAdded(sys, e, o);
    }
  }

  /** With no other resume among the frames, the outcome's frame is the only one. */
  lemma OneLeft(rest: multiset<Frame>, o: Outcome)
    requires forall g :: g in rest ==> !OfResume(g)
    requires o.state.resuming <==> o.frame.Some? && OfResume(o.frame.value)
    ensures OneResume(After(rest, o))
  {
    if o.state.resuming { assert o.frame.value in After(rest, o).frames; }
  }

  lemma NoneAdded(sys: Sys, e: Event, o: Outcome)
    requires Enabled(sys, e) && OneResume(sys) && !EndsResume(e) && (o.frame.Some? ==> !OfResume(o.frame.value))
    requires o.state.resuming == sys.state.resuming
    ensures OneResume(After(Rest(sys, e), o))
  {
    var next := After(Rest(sys, e), o);
    forall f | OfResume(f) ensures next.frames[f] == sys.frames[f] {}
    if sys.state.resuming {
      var f :| f in sys.frames && OfResume(f);
      assert f in next.frames;
    }
    forall f | f in next.frames && OfResume(f) ensures f in sys.frames {}
  }

  /** In every run at most one resume is under way at a time. */
  lemma {:induction false} OneResumeAtATime(states: seq<Sys>, events: seq<Event>, k: nat)
    requires Run(states, events) && k < |states|
    ensures OneResume(states[k])
  {
    if k > 0 {
      OneResumeAtATime(states, events, k - 1);
      OneResumeStep(states[k - 1], events[k - 1], states[k]);
    }
  }

  /** A resume began. */
  predicate Begins(sys: Sys, e: Event, next: Sys) { e.Resumes? && next.frames != sys.frames }

  /** Before state `k` a resume to generation `g` began. */
  ghost predicate Tried(states: seq<Sys>, events: seq<Event>, k: nat, g: string)
    requires |states| == |events| + 1 && k <= |events|
  {
    && k > 0
    && (Tried(states, events, k - 1, g)
        || (Begins(states[k - 1], events[k - 1], states[k]) && events[k - 1].to.generation == g))
  }

  /** The outcome of a resume is not known: a proof could not be computed, or no answer came. */
  predicate Loses(e: Event) {
    match e
    case Signs(_, ok) => !ok
    case Verifies(_, ok) => !ok
    case Answers(_, reply) => reply.None? || reply.value.status.UnknownOut?
    case _ => false
  }

  ghost predicate Lost(events: seq<Event>, k: nat)
    requires k <= |events|
  {
    k > 0 && (Lost(events, k - 1) || Loses(events[k - 1]))
  }

  lemma NotTried(sys: Sys, e: Event)
    requires Enabled(sys, e) && !e.Resumes?
    ensures Effect(sys, e).state.attempted == sys.state.attempted
  {
    match e
    case Verifies(f, ok) =>
    case Continues(f) =>
    case _ =>
  }

  lemma TriedBy(sys: Sys, e: Event, next: Sys, g: string)
    requires Step(sys, e, next)
    ensures g in next.state.attempted
            <==> g in sys.state.attempted || (Begins(sys, e, next) && e.to.generation == g)
  {
    if e.Resumes? { BeginStep(sys, e.to, e.nonce, e.now); } else { NotTried(sys, e); }
  }

  lemma LosesBy(sys: Sys, e: Event)
    requires Enabled(sys, e)
    ensures Effect(sys, e).state.resumeUnresolved <==> sys.state.resumeUnresolved || Loses(e)
  {
    match e
    case Verifies(f, ok) =>
    case Continues(f) =>
    case _ =>
  }

  lemma LostBy(sys: Sys, e: Event, next: Sys)
    requires Step(sys, e, next)
    ensures next.state.resumeUnresolved <==> sys.state.resumeUnresolved || Loses(e)
  {
    LosesBy(sys, e);
  }

  lemma {:induction false} TriedExactly(states: seq<Sys>, events: seq<Event>, k: nat, g: string)
    requires Run(states, events) && k < |states|
    ensures g in states[k].state.attempted <==> Tried(states, events, k, g)
    ensures states[k].state.resumeUnresolved <==> Lost(events, k)
  {
    if k > 0 {
      TriedExactly(states, events, k - 1, g);
      TriedBy(states[k - 1], events[k - 1], states[k], g);
      LostBy(states[k - 1], events[k - 1], states[k]);
    }
  }

  /** The grant held carries authority for this place, not yet expired, and the supplier there is another
      generation than the one it came from. */
  predicate Resumable(s: State, to: Identity, now: int) {
    && s.grant.Some? && s.grant.value.resume.Some?
    && var r := s.grant.value.resume.value;
       && r.consumer == s.consumer && now < r.expires
       && r.place.application == to.application && r.place.workspace == to.workspace && r.place.supplier == to.supplier
       && to.generation != s.identity.generation
  }

  lemma BeginStep(sys: Sys, to: Identity, nonce: string, now: int)
    ensures var s, e := sys.state, Event.Resumes(to, nonce, now);
            Begins(sys, e, Next(sys, e))
            <==> Resumable(s, to, now) && !s.disconnected && !s.resuming && to.generation !in s.attempted
                 && !s.resumeUnresolved
    ensures var s, e := sys.state, Event.Resumes(to, nonce, now);
            Begins(sys, e, Next(sys, e)) ==> SignsFor(sys, e, Next(sys, e))
    ensures var s, e := sys.state, Event.Resumes(to, nonce, now);
            Next(sys, e).state.attempted
            == if Begins(sys, e, Next(sys, e)) then s.attempted + {to.generation} else s.attempted
  {
    var e := Event.Resumes(to, nonce, now);
    var o := Resume(sys.state, to, nonce, now);
    if o.frame.Some? { assert Next(sys, e).frames[o.frame.value] == sys.frames[o.frame.value] + 1; }
  }

  /** The resume signs its request with the authority of the grant held, and remembers that grant. */
  ghost predicate SignsFor(sys: Sys, e: Event, next: Sys) {
    && e.Resumes? && sys.state.grant.Some? && sys.state.grant.value.resume.Some?
    && next.frames
       == sys.frames + multiset{Signing(e.to, sys.state.grant.value, sys.state.grant.value.resume.value, e.nonce)}
  }

  /** A resume begins if and only if the grant held can be resumed there, the consumer is connected, no resume is
      under way, none to this generation was tried before, and none was ever lost. */
  lemma BeginsExactly(states: seq<Sys>, events: seq<Event>, k: nat)
    requires Run(states, events) && k < |events| && events[k].Resumes?
    ensures var sys, e, next := states[k], events[k], states[k + 1];
            Begins(sys, e, next)
            <==> Resumable(sys.state, e.to, e.now) && !Severed(events, k) && !Lost(events, k)
                 && !Tried(states, events, k, e.to.generation) && forall f :: f in sys.frames ==> !OfResume(f)
    ensures var sys, e, next := states[k], events[k], states[k + 1];
            Begins(sys, e, next)
            ==> SignsFor(sys, e, next)
  {
    var sys, e, next := states[k], events[k], states[k + 1];
    assert Step(sys, e, next);
    OneResumeAtATime(states, events, k);
    EndedExactly(states, events, k, "");
    TriedExactly(states, events, k, e.to.generation);
    BeginStep(sys, e.to, e.nonce, e.now);
  }

  /** What becomes of a resume at each of its awaits: the request goes out once signed; only a grant of the same
      expiry is verified; a proven one that came too late is ended. */
  lemma ResumesGoOn(sys: Sys, e: Event, next: Sys)
    requires Step(sys, e, next) && (e.Signs? || e.Answers? || e.Verifies?)
    ensures var s, f, rest := sys.state, e.f, sys.frames - multiset{e.f};
            match e
            case Signs(_, ok) =>
              && next.state.sent == (if ok then s.sent + [ResumeSent(f.to.generation)] else s.sent)
              && next.frames == (if ok then rest + multiset{Resuming(f.to, f.original, f.r, f.nonce)} else rest)
            case Answers(_, reply) =>
              && next.state.sent == s.sent
              && next.frames
                 == if reply.Some? && reply.value.status.AcceptedOut? && reply.value.token != ""
                       && reply.value.expires == f.original.expires
                    then rest + multiset{Verifying(f.to, f.original, f.r, f.nonce, reply.value)}
                    else rest
            case Verifies(_, ok) =>
              var late := ok && f.out.proof == Some(Proof(f.r.secret, "response", f.to, s.consumer, f.nonce))
                          && (s.disconnected || s.grant.None? || s.grant.value.serial != f.original.serial);
              && next.state.sent == (if late then s.sent + [EndSent(f.out.token)] else s.sent)
              && next.frames == if late then rest + multiset{Revoking} else rest
  {
    match e
    case Signs(f, ok) => SignsOn(sys, f, ok, Signed(sys.state, f, ok));
    case Answers(f, reply) => AnswersOn(sys, f, reply, Answered(sys.state, f, reply));
    case Verifies(f, ok) => VerifiesOn(sys, f, ok, Verified(sys.state, f, ok));
  }

  lemma SignsOn(sys: Sys, f: Frame, ok: bool, o: Outcome)
    requires f.Signing? && o == Signed(sys.state, f, ok)
    ensures o.state.sent == if ok then sys.state.sent + [ResumeSent(f.to.generation)] else sys.state.sent
    ensures o.frame == if ok then Some(Resuming(f.to, f.original, f.r, f.nonce)) else None
  {
  }

  lemma AnswersOn(sys: Sys, f: Frame, reply: Option<Out>, o: Outcome)
    requires f.Resuming? && o == Answered(sys.state, f, reply)
    ensures o.state.sent == sys.state.sent
    ensures o.frame == if reply.Some? && reply.value.status.AcceptedOut? && reply.value.token != ""
                          && reply.value.expires == f.original.expires
                       then Some(Verifying(f.to, f.original, f.r, f.nonce, reply.value)) else None
  {
  }

  lemma VerifiesOn(sys: Sys, f: Frame, ok: bool, o: Outcome)
    requires f.Verifying? && o == Verified(sys.state, f, ok)
    ensures var s := sys.state;
            var late := ok && f.out.proof == Some(Proof(f.r.secret, "response", f.to, s.consumer, f.nonce))
                        && (s.disconnected || s.grant.None? || s.grant.value.serial != f.original.serial);
            && o.state.sent == (if late then s.sent + [EndSent(f.out.token)] else s.sent)
            && o.frame == if late then Some(Revoking) else None
  {
  }

  /** Only a resume that is adopted moves the consumer to another generation of the supplier. */
  lemma IdentityExactly(sys: Sys, e: Event)
    requires Enabled(sys, e)
    ensures Effect(sys, e).state.identity
            == if e.Verifies? && Adopting(sys.state, e).Some? then e.f.to else sys.state.identity
  {
    match e
    case Continues(f) =>
    case Verifies(f, ok) =>
    case _ =>
  }
}
