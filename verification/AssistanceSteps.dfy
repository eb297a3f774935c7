/** The assistance supplier as a state machine whose steps are the stretches of code between awaits. */
module AssistanceSteps {
  import opened Wrappers
  import opened Authorities

  datatype OfferStatus = Pending | Accepted | Ended(reason: string)

  datatype Offer = Offer(consumer: string, deadline: int, epoch: int, status: OfferStatus)

  datatype Observation = Observation(sequence: int, revision: string)

  /** What an invoke's payload says; `expected` may be missing. */
  datatype Invocation = Invocation(action: string, expected: Option<Observation>)

  datatype Operation =
    | ResumeOp(signed: Option<(string, Proof)>)
    | OfferOp
    | EndOp
    | StatusOp
    | ReadOp
    | InvokeOp(input: Option<Invocation>)
    | OtherOp

  datatype Request = Request(version: int, identity: Identity, consumer: string, operation: Operation, deadline: int,
                             token: string, epoch: Option<int>)

  datatype Reply =
    | Refused | ExpiredReply | Unavailable | Busy | Conflict | Invalid | Unsupported | Applied | UnknownReply
    | Observed(seen: Observation)
    | EndedReply(token: string, reason: string)
    | GrantReply(token: string, accepted: bool, epoch: int, expires: int, resume: Option<Authority>,
        proof: Option<Proof>)

  /** A suspended `receive`: awaiting the proof to compare with, the response's proof, or the provider's
      preparation. A resume holds the authority it began with; `serial` tells that object from any other. */
  datatype Frame =
    | Checking(r: Request, nonce: string, claimed: Proof, authority: Authority, serial: nat)
    | Signing(r: Request, nonce: string, authority: Authority, serial: nat)
    | Preparing(r: Request, action: string, expected: Observation)

  /** The supplier's fields. `serial` counts the assignments to the retained authority, so two reads saw the
      same object exactly when the count is the same. */
  datatype State = State(identity: Identity, scope: string, actions: set<string>, grantMs: int, keeps: bool,
                         enabled: bool, ready: bool, epoch: int, active: Option<string>, offers: map<string, Offer>,
                         committing: bool, resuming: bool, authority: Option<Authority>, serial: nat)

  const CAPACITY := 128

  function PlaceOf(s: State): Place {
    Place(s.identity.application, s.identity.workspace, s.identity.supplier, s.scope)
  }

  /** `structuredClone(options.resume)` when it was issued for this place and has not expired. */
  function Start(identity: Identity, scope: string, actions: set<string>, grantMs: int, keeps: bool,
                 saved: Option<Authority>, now: int): State {
    var s := State(identity, scope, actions, grantMs, keeps, false, false, 0, None, map[], false, false, None, 0);
    s.(authority := if saved.Some? && saved.value.place == PlaceOf(s) && now < saved.value.expires then saved else None)
  }

  // ---- ending offers --------------------------------------------------------------------------------

  predicate Live(o: Offer) { !o.status.Ended? }

  function EndOffer(o: Offer, reason: string): Offer { if Live(o) then o.(status := Ended(reason)) else o }

  function SaveResume(s: State,
                      authority: Option<Authority>): State { s.(authority := authority, serial := s.serial + 1) }

  function EndIn(offers: map<string, Offer>, tokens: set<string>, reason: string): map<string, Offer> {
    map k | k in offers :: if k in tokens then EndOffer(offers[k], reason) else offers[k]
  }

  /** The active offer is live and among `tokens`. */
  predicate EndsActive(s: State, tokens: set<string>) {
    s.active.Some? && s.active.value in tokens && s.active.value in s.offers && Live(s.offers[s.active.value])
  }

  /** `finish` on every live offer of `tokens`; ending the active one forgets the retained authority. */
  function Finish(s: State, tokens: set<string>, reason: string): State {
    var t := s.(offers := EndIn(s.offers, tokens, reason));
    if EndsActive(s, tokens) then SaveResume(t.(active := None), None) else t
  }

  function Due(s: State, now: int): set<string> {
    set k | k in s.offers && now >= s.offers[k].deadline
  }

  function Expire(s: State, now: int): State { Finish(s, Due(s, now), "expired") }

  function EndAll(s: State, reason: string): State { SaveResume(Finish(s, s.offers.Keys, reason), None) }

  // ---- the operator's calls ---------------------------------------------------------------------------

  function Enable(s: State, on: bool): State {
    var t := s.(enabled := on);
    if on then t else EndAll(t, "disabled")
  }

  function SetReady(s: State, on: bool): State {
    var t := s.(ready := on);
    if on then t else EndAll(t, "disconnected")
  }

  function Decline(s: State, token: string): State { if token in s.offers then Finish(s, {token}, "declined") else s }

  function Remember(s: State, o: Offer, secret: int): State {
    if s.keeps then SaveResume(s, Some(Authority(PlaceOf(s), o.consumer, o.deadline, secret))) else s
  }

  /** One offer becomes the accepted one, under a new epoch. */
  function Grant(s: State, token: string, o: Offer, secret: int): State {
    Remember(s.(epoch := s.epoch + 1, offers := s.offers[token := o], active := Some(token)), o, secret)
  }

  predicate Acceptable(s: State, token: string) {
    token in s.offers && s.offers[token].status.Pending? && s.enabled && s.ready && s.active.None?
  }

  function Pendings(s: State): set<string> {
    set k | k in s.offers && s.offers[k].status.Pending?
  }

  function Accept(s: State, now: int, token: string,
                  secret: int): State { AcceptNow(Expire(s, now), now, token, secret) }

  function AcceptNow(x: State, now: int, token: string, secret: int): State {
    if !Acceptable(x, token) then x
    else
      var o := x.offers[token].(status := Accepted, epoch := x.epoch + 1, deadline := now + x.grantMs);
      var t := Grant(x, token, o, secret);
      Finish(t, Pendings(t), "busy")
  }

  // ---- requests ----------------------------------------------------------------------------------------

  function StatusOf(s: State, token: string): Reply
    requires token in s.offers
  {
    var o := s.offers[token];
    match o.status
    case Ended(reason) => EndedReply(token, reason)
    case _ =>
      var resume := if s.active == Some(token) then s.authority else None;
      GrantReply(token, o.status.Accepted?, o.epoch, o.deadline, resume, None)
  }

  /** Reads after `expire`: the request's offer is the active accepted one, its epoch the request's, and the
      request is not late. */
  predicate Permitted(s: State, now: int, r: Request) {
    && s.enabled && s.ready && s.active == Some(r.token) && r.token in s.offers
    && s.offers[r.token].status.Accepted? && r.epoch == Some(s.offers[r.token].epoch) && now < r.deadline
  }

  datatype Outcome = Outcome(state: State, frame: Option<Frame>, reply: Option<Reply>)

  function Answer(s: State, reply: Reply): Outcome { Outcome(s, None, Some(reply)) }

  predicate Addressed(s: State, r: Request) { r.version == 1 && r.identity == s.identity && r.consumer != "" }

  predicate ResumeOpen(s: State, now: int, r: Request) {
    && s.enabled && s.ready && s.active.None? && !s.resuming && s.authority.Some?
    && s.authority.value.consumer == r.consumer && now < s.authority.value.expires
  }

  /** `receive` up to its first await or its return. `id` is what `runtime.id()` gives, `read` what the
      provider's projection gives, if it does not throw; a throwing read makes `current` reject the call. */
  function Receive(s: State, now: int, r: Request, id: string, read: Option<Observation>): Outcome {
    ReceiveNow(Expire(s, now), now, r, id, read)
  }

  function ReceiveNow(s: State, now: int, r: Request, id: string, read: Option<Observation>): Outcome {
    if !Addressed(s, r) then Answer(s, Refused)
    else if now >= r.deadline then Answer(s, ExpiredReply)
    else if r.operation.ResumeOp? then ReceiveResume(s, now, r, r.operation.signed)
    else if r.operation.OfferOp? then ReceiveOffer(s, now, r, id)
    else if r.token !in s.offers || s.offers[r.token].consumer != r.consumer then Answer(s, Refused)
    else if r.operation.EndOp? then
      var t := Finish(s, {r.token}, "consumer ended");
      Answer(t, StatusOf(t, r.token))
    else if r.operation.StatusOp? || !Live(s.offers[r.token]) then Answer(s, StatusOf(s, r.token))
    else if !Permitted(s, now, r) then Answer(s, Refused)
    else if r.operation.ReadOp? then Answer(s, if read.Some? then Observed(read.value) else Refused)
    else if !r.operation.InvokeOp? then Answer(s, Unsupported)
    else ReceiveInvoke(s, r, r.operation.input, read)
  }

  /** A nonce longer than 128 characters, or an unreadable payload, is refused at once. */
  function ReceiveResume(s: State, now: int, r: Request, input: Option<(string, Proof)>): Outcome {
    if !ResumeOpen(s, now, r) || input.None? || |input.value.0| > 128 then Answer(s, Refused)
    else
      var f := Checking(r, input.value.0, input.value.1, s.authority.value, s.serial);
      Outcome(s.(resuming := true), Some(f), None)
  }

  function ReceiveOffer(s: State, now: int, r: Request, id: string): Outcome {
    if !s.enabled || !s.ready then Answer(s, Unavailable)
    else if s.active.Some? then Answer(s, Busy)
    else if |s.offers| >= CAPACITY then Answer(s, Unavailable)
    else
      var o := Offer(r.consumer, if r.deadline < now + 60_000 then r.deadline else now + 60_000, 0, Pending);
      var t := s.(offers := s.offers[id := o]);
      Answer(t, StatusOf(t, id))
  }

  function ReceiveInvoke(s: State, r: Request, input: Option<Invocation>, read: Option<Observation>): Outcome {
    if s.committing then Answer(s, Busy)
    else if input.None? then Answer(s, Invalid)
    else if input.value.action !in s.actions then Answer(s, Unsupported)
    else if read.None? then Outcome(s, None, None)
    else if input.value.expected != read then Answer(s, Conflict)
    else Outcome(s.(committing := true), Some(Preparing(r, input.value.action, read.value)), None)
  }

  /** The request's proof is computed, or computing it failed. */
  function Checked(s: State, f: Frame, ok: bool): Outcome
    requires f.Checking?
  {
    if !ok || f.claimed != Proof(f.authority.secret, "request", s.identity, f.r.consumer, f.nonce)
    then Answer(s.(resuming := false), Refused)
    else Outcome(s, Some(Signing(f.r, f.nonce, f.authority, f.serial)), None)
  }

  /** Permission may have changed meanwhile: the retained authority must still be the same object. */
  predicate StillResumable(s: State, now: int, f: Frame)
    requires f.Signing?
  {
    s.enabled && s.ready && s.serial == f.serial && now < f.authority.expires && now < f.r.deadline
  }

  /** The response's proof is computed: a resumed offer is accepted at once, with the retained expiry. */
  function Signed(s: State, f: Frame, ok: bool, now: int, id: string, secret: int): Outcome
    requires f.Signing?
  {
    var d := s.(resuming := false);
    if !ok || !StillResumable(s, now, f) then Answer(d, Refused)
    else
      var o := Offer(f.r.consumer, f.authority.expires, s.epoch + 1, Accepted);
      var t := Grant(d, id, o, secret);
      Answer(t, GrantReply(id, true, o.epoch, o.deadline, t.authority,
                           Some(Proof(f.authority.secret, "response", s.identity, f.r.consumer, f.nonce))))
  }

  /** An application commit: when it ran, for which request, in which state and with what just read. */
  datatype Commit = Commit(now: int, r: Request, state: State, expected: Observation, seen: Observation)

  /** The preparation settled; the final check and the commit follow without an await. `throws` says whether
      the commit threw: it may have taken effect, so it counts. */
  function Prepared(s0: State, f: Frame, ok: bool, now: int, read: Option<Observation>, throws: bool): (Outcome,
                    Option<Commit>)
    requires f.Preparing?
  {
    var s := Expire(s0, now);
    var d := s.(committing := false);
    if !ok then (Answer(s0.(committing := false), Invalid), None)
    else if !Permitted(s, now, f.r) then
      var ended := f.r.token in s.offers && s.offers[f.r.token].status.Ended?;
      (Answer(d, if ended then StatusOf(s, f.r.token) else ExpiredReply), None)
    else if read.None? then (Answer(d, UnknownReply), None)
    else if read.value != f.expected then (Answer(d, Conflict), None)
    else (Answer(d, if throws then UnknownReply else Applied), Some(Commit(now, f.r, s, f.expected, read.value)))
  }

  // ---- interleavings ---------------------------------------------------------------------------------------

  datatype Sys = Sys(state: State, frames: multiset<Frame>, commits: seq<Commit>)

  datatype Event =
    | Enables(on: bool)
    | Readies(on: bool)
    | Accepts(now: int, token: string, secret: int)
    | Declines(token: string)
    | Ends(reason: string)
    | Looks(now: int)
    | Arrives(now: int, r: Request, id: string, read: Option<Observation>)
    | ChecksProof(f: Frame, ok: bool)
    | SignsProof(f: Frame, ok: bool, now: int, id: string, secret: int)
    | Prepares(f: Frame, ok: bool, now: int, read: Option<Observation>, throws: bool)

  /** `runtime.id()` never repeats an id. */
  predicate Enabled(sys: Sys, e: Event) {
    match e
    case Arrives(_, _, id, _) => id !in sys.state.offers
    case ChecksProof(f, _) => f in sys.frames && f.Checking?
    case SignsProof(f, _, _, id, _) => f in sys.frames && f.Signing? && id !in sys.state.offers
    case Prepares(f, _, _, _, _) => f in sys.frames && f.Preparing?
    case _ => true
  }

  function After(sys: Sys, frames: multiset<Frame>, o: Outcome): Sys {
    Sys(o.state, if o.frame.Some? then frames + multiset{o.frame.value} else frames, sys.commits)
  }

  function Concluded(sys: Sys, f: Frame, r: (Outcome, Option<Commit>)): Sys {
    After(sys, sys.frames - multiset{f}, r.0).(commits := if r.1.Some? then sys.commits + [r.1.value] else sys.commits)
  }

  function Next(sys: Sys, e: Event): Sys
    requires Enabled(sys, e)
  {
    match e
    case Enables(on) => sys.(state := Enable(sys.state, on))
    case Readies(on) => sys.(state := SetReady(sys.state, on))
    case Accepts(now, token, secret) => sys.(state := Accept(sys.state, now, token, secret))
    case Declines(token) => sys.(state := Decline(sys.state, token))
    case Ends(reason) => sys.(state := EndAll(sys.state, reason))
    case Looks(now) => sys.(state := Expire(sys.state, now))
    case Arrives(now, r, id, read) => After(sys, sys.frames, Receive(sys.state, now, r, id, read))
    case ChecksProof(f, ok) => After(sys, sys.frames - multiset{f}, Checked(sys.state, f, ok))
    case SignsProof(f, ok, now, id, secret) =>
      After(sys, sys.frames - multiset{f}, Signed(sys.state, f, ok, now, id, secret))
    case Prepares(f, ok, now, read, throws) =>
      Concluded(sys, f, Prepared(sys.state, f, ok, now, read, throws))
  }

  /** The request a step answers, and the reply. */
  function Said(sys: Sys, e: Event): Option<(Request, Reply)>
    requires Enabled(sys, e)
  {
    match e
    case Arrives(now, r, id, read) => With(r, Receive(sys.state, now, r, id, read))
    case ChecksProof(f, ok) => With(f.r, Checked(sys.state, f, ok))
    case SignsProof(f, ok, now, id, secret) => With(f.r, Signed(sys.state, f, ok, now, id, secret))
    case Prepares(f, ok, now, read, throws) => With(f.r, Prepared(sys.state, f, ok, now, read, throws).0)
    case _ => None
  }

  function With(r: Request, o: Outcome): Option<(Request, Reply)> {
    if o.reply.Some? then Some((r, o.reply.value)) else None
  }

  // ---- ending ------------------------------------------------------------------------------------------------

  /** What every step keeps of an offer: an ended one never changes. */
  ghost predicate KeepsEnded(s: State, t: State) {
    forall k :: k in s.offers && s.offers[k].status.Ended? ==> k in t.offers && t.offers[k] == s.offers[k]
  }

  // ---- the lifecycle -----------------------------------------------------------------------------------------

  /** An offer is accepted exactly when it is the active one, and its epoch was handed out. */
  ghost predicate CoherentAt(s: State, k: string)
    requires k in s.offers
  {
    (s.offers[k].status.Accepted? <==> s.active == Some(k)) && 0 <= s.offers[k].epoch <= s.epoch
  }

  ghost predicate Coherent(s: State) {
    (s.active.Some? ==> s.active.value in s.offers) && forall k :: k in s.offers ==> CoherentAt(s, k)
  }

  ghost predicate AllEnded(s: State) {
    s.active.None? && forall k :: k in s.offers ==> s.offers[k].status.Ended?
  }

  /** At most one offer is accepted, and it is the active one; while the supplier is not both enabled and
      ready every offer is ended and none is active. */
  ghost predicate Paired(s: State) {
    Coherent(s) && (!s.enabled || !s.ready ==> AllEnded(s))
  }

  /** An offer accepted later was accepted already, or carries an epoch above all before. */
  ghost predicate GrantsRise(s: State, t: State) {
    forall k :: k in t.offers && t.offers[k].status.Accepted?
        ==> (k in s.offers && s.offers[k] == t.offers[k]) || s.epoch < t.offers[k].epoch
  }

  /** No request can resume: nothing is retained, or it is for no possible consumer. */
  predicate Blocked(s: State) { s.authority.Some? ==> s.authority.value.consumer == "" }

  /** Nothing but offers, the active one and the retained authority changed, and no authority was replaced
      behind the back of what was active. */
  ghost predicate Onward(s: State, t: State) {
    && s.serial <= t.serial && s.epoch <= t.epoch && KeepsEnded(s, t)
    && t.resuming == s.resuming && t.committing == s.committing && t.keeps == s.keeps
    && (t.serial == s.serial ==> t.active == s.active)
    && GrantsRise(s, t) && (Blocked(s) ==> Blocked(t))
  }

  /** What a step that may hand out a grant keeps. */
  ghost predicate Moves(s: State, t: State) {
    && KeepsEnded(s, t) && s.epoch <= t.epoch && s.serial <= t.serial
    && t.keeps == s.keeps && (s.keeps && t.serial == s.serial ==> t.active == s.active)
    && GrantsRise(s, t) && (!s.keeps && Blocked(s) ==> Blocked(t))
  }

  predicate SameFlags(s: State, t: State) { t.resuming == s.resuming && t.committing == s.committing }

  lemma FinishOnward(s: State, tokens: set<string>, reason: string)
    requires Coherent(s)
    ensures var t := Finish(s, tokens, reason);
            && Coherent(t) && Onward(s, t) && t.enabled == s.enabled && t.ready == s.ready
            && t.offers.Keys == s.offers.Keys && t.epoch == s.epoch && (t.active == s.active || t.active.None?)
            && (forall k :: k in t.offers ==>
                  t.offers[k] == if k in tokens then EndOffer(s.offers[k], reason) else s.offers[k])
            && (AllEnded(s) ==> AllEnded(t))
  {
    FinishCoherent(s, tokens, reason);
    FinishMoves(s, tokens, reason);
    FinishShape(s, tokens, reason);
    FinishStaysEnded(s, tokens, reason);
  }

  lemma FinishShape(s: State, tokens: set<string>, reason: string)
    ensures var t := Finish(s, tokens, reason);
            && t.offers == EndIn(s.offers, tokens, reason) && t.offers.Keys == s.offers.Keys
            && s.serial <= t.serial && t.epoch == s.epoch && t.resuming == s.resuming && t.committing == s.committing
            && t.keeps == s.keeps
            && t.enabled == s.enabled && t.ready == s.ready && (t.active == s.active || t.active.None?)
            && (t.serial == s.serial ==> t.active == s.active) && (Blocked(s) ==> Blocked(t))
  {
  }

  lemma FinishStaysEnded(s: State, tokens: set<string>, reason: string)
    ensures AllEnded(s) ==> AllEnded(Finish(s, tokens, reason))
  {
  }

  lemma FinishCoherent(s: State, tokens: set<string>, reason: string)
    requires Coherent(s)
    ensures Coherent(Finish(s, tokens, reason))
  {
    var t := Finish(s, tokens, reason);
    forall k | k in t.offers ensures CoherentAt(t, k) { FinishCoherentAt(s, tokens, reason, k); }
  }

  lemma FinishedAt(s: State, tokens: set<string>, reason: string, k: string)
    requires k in s.offers
    ensures var t := Finish(s, tokens, reason);
            && k in t.offers && t.offers[k] == (if k in tokens then EndOffer(s.offers[k], reason) else s.offers[k])
            && t.epoch == s.epoch && t.active == if EndsActive(s, tokens) then None else s.active
  {
  }

  lemma FinishCoherentAt(s: State, tokens: set<string>, reason: string, k: string)
    requires Coherent(s) && k in s.offers
    ensures k in Finish(s, tokens, reason).offers && CoherentAt(Finish(s, tokens, reason), k)
  {
    FinishedAt(s, tokens, reason, k);
    assert CoherentAt(s, k);
    if s.active.Some? { assert CoherentAt(s, s.active.value); }
  }

  lemma FinishMoves(s: State, tokens: set<string>, reason: string)
    requires Coherent(s)
    ensures KeepsEnded(s, Finish(s, tokens, reason)) && GrantsRise(s, Finish(s, tokens, reason))
  {
  }

  lemma FinishAllEnds(s: State, reason: string)
    requires Coherent(s)
    ensures AllEnded(Finish(s, s.offers.Keys, reason))
  {
    if s.active.Some? { assert CoherentAt(s, s.active.value); }
  }

  lemma ForgetCoherent(f: State, authority: Option<Authority>)
    requires Coherent(f)
    ensures Coherent(SaveResume(f, authority)) && (AllEnded(f) ==> AllEnded(SaveResume(f, authority)))
  {
    var t := SaveResume(f, authority);
    forall k | k in t.offers ensures CoherentAt(t, k) { assert CoherentAt(f, k); }
  }

  lemma EndAllPaired(s: State, reason: string)
    requires Coherent(s)
    ensures var t := EndAll(s, reason);
            Paired(t) && AllEnded(t) && s.serial < t.serial && KeepsEnded(s, t) && Onward(s, t)
  {
    var f := Finish(s, s.offers.Keys, reason);
    FinishOnward(s, s.offers.Keys, reason);
    FinishAllEnds(s, reason);
    ForgetCoherent(f, None);
    OnwardForget(s, f);
  }

  lemma OnwardForget(s: State, f: State)
    requires Onward(s, f)
    ensures Onward(s, SaveResume(f, None))
  {
  }

  lemma ExpirePaired(s: State, now: int)
    requires Paired(s)
    ensures Paired(Expire(s, now)) && Onward(s, Expire(s, now))
    ensures Expire(s, now).enabled == s.enabled && Expire(s, now).ready == s.ready
  {
    FinishOnward(s, Due(s, now), "expired");
  }

  lemma GrantCoherent(s: State, token: string, o: Offer, secret: int)
    requires Coherent(s) && s.active.None? && s.enabled && s.ready && o.status.Accepted? && o.epoch == s.epoch + 1
    requires 0 <= s.epoch
    requires token in s.offers ==> !s.offers[token].status.Ended?
    ensures var t := Grant(s, token, o, secret);
            && Paired(t) && Moves(s, t) && t.active == Some(token) && t.epoch == s.epoch + 1
  {
    var t := Grant(s, token, o, secret);
    forall k | k in t.offers ensures CoherentAt(t, k) {
      if k != token { assert CoherentAt(s, k); }
    }
  }

  lemma MovesThrough(s: State, t: State, u: State)
    requires Moves(s, t) && Moves(t, u)
    ensures Moves(s, u)
  {
  }

  lemma AcceptIs(x: State, now: int, token: string, secret: int, g: State)
    requires Acceptable(x, token)
    requires var o := x.offers[token].(status := Accepted, epoch := x.epoch + 1, deadline := now + x.grantMs);
             g == Grant(x, token, o, secret)
    ensures AcceptNow(x, now, token, secret) == Finish(g, Pendings(g), "busy")
  {
  }

  lemma AcceptNowPaired(x: State, now: int, token: string, secret: int)
    requires Paired(x) && 0 <= x.epoch
    ensures Paired(AcceptNow(x, now, token, secret)) && Moves(x, AcceptNow(x, now, token, secret))
    ensures SameFlags(x, AcceptNow(x, now, token, secret))
  {
    if Acceptable(x, token) {
      var o := x.offers[token].(status := Accepted, epoch := x.epoch + 1, deadline := now + x.grantMs);
      var g := Grant(x, token, o, secret);
      GrantCoherent(x, token, o, secret);
      BusyPaired(x, g);
      AcceptIs(x, now, token, secret, g);
    } else {
      UnmovedPaired(x, x);
    }
  }

  lemma BusyPaired(x: State, g: State)
    requires Paired(g) && Moves(x, g) && SameFlags(x, g)
    ensures var t := Finish(g, Pendings(g), "busy"); Paired(t) && Moves(x, t) && SameFlags(x, t)
  {
    FinishOnward(g, Pendings(g), "busy");
    MovesThrough(x, g, Finish(g, Pendings(g), "busy"));
  }

  /** `t` has just accepted `token` from `x`: it is the active grant, under the next epoch, and no rival is
      left pending. */
  ghost predicate Granted(x: State, now: int, token: string, t: State) {
    && token in x.offers && token in t.offers && t.active == Some(token) && t.epoch == x.epoch + 1 && Pendings(t) == {}
    && t.offers[token] == x.offers[token].(status := Accepted, epoch := x.epoch + 1, deadline := now + x.grantMs)
  }

  lemma AcceptGrants(x: State, now: int, token: string, secret: int)
    requires Acceptable(x, token)
    ensures Granted(x, now, token, AcceptNow(x, now, token, secret))
  {
    var o := x.offers[token].(status := Accepted, epoch := x.epoch + 1, deadline := now + x.grantMs);
    var g := Grant(x, token, o, secret);
    var t := Finish(g, Pendings(g), "busy");
    assert token !in Pendings(g);
    assert t.offers == EndIn(g.offers, Pendings(g), "busy");
  }

  /** Accepting keeps the lifecycle; an acceptable offer becomes the one active grant and leaves no rival. */
  lemma AcceptPaired(s: State, now: int, token: string, secret: int)
    requires Paired(s) && 0 <= s.epoch
    ensures Paired(Accept(s, now, token, secret)) && Moves(s, Accept(s, now, token, secret))
    ensures SameFlags(s, Accept(s, now, token, secret))
    ensures Acceptable(Expire(s, now), token) ==> Granted(Expire(s, now), now, token, Accept(s, now, token, secret))
    ensures !Acceptable(Expire(s, now), token) ==> Accept(s, now, token, secret) == Expire(s, now)
  {
    if Acceptable(Expire(s, now), token) { AcceptGrants(Expire(s, now), now, token, secret); }
    ExpirePaired(s, now);
    AcceptNowPaired(Expire(s, now), now, token, secret);
    MovesThrough(s, Expire(s, now), Accept(s, now, token, secret));
  }

  // ---- receiving -----------------------------------------------------------------------------------------

  /** A preparation is for an invoke whose payload names the observation just made. */
  predicate Wanted(f: Frame) {
    f.Preparing? && f.r.operation.InvokeOp? && f.r.operation.input.Some?
        && f.r.operation.input.value.expected == Some(f.expected)
  }

  /** What a stretch of `receive` does to the supplier and leaves suspended. */
  ghost predicate Received(s: State, now: int, o: Outcome) {
    && Paired(o.state) && Moves(s, o.state) && o.state.epoch == s.epoch
    && (o.frame.None? ==> SameFlags(s, o.state))
    && (o.frame.Some? && o.frame.value.Checking? ==>
          && !s.resuming && o.state.resuming && o.state.committing == s.committing
          && o.frame.value.serial == o.state.serial && o.state.active.None? && !Blocked(o.state))
    && (o.frame.Some? && o.frame.value.Preparing? ==>
          !s.committing && o.state.committing && o.state.resuming == s.resuming && Wanted(o.frame.value))
    && (o.frame.Some? ==> !o.frame.value.Signing?)
  }

  lemma UnmovedPaired(s: State, t: State)
    requires Paired(s) && t == s.(resuming := t.resuming, committing := t.committing)
    ensures Paired(t) && Moves(s, t)
  {
    forall k | k in t.offers ensures CoherentAt(t, k) { assert CoherentAt(s, k); }
  }

  lemma ResumeReceived(s: State, now: int, r: Request, input: Option<(string, Proof)>)
    requires Paired(s) && Addressed(s, r)
    ensures Received(s, now, ReceiveResume(s, now, r, input))
  {
    UnmovedPaired(s, ReceiveResume(s, now, r, input).state);
  }

  lemma InvokeReceived(s: State, now: int, r: Request, input: Option<Invocation>, read: Option<Observation>)
    requires Paired(s) && r.operation.InvokeOp? && r.operation.input == input
    ensures Received(s, now, ReceiveInvoke(s, r, input, read))
  {
    UnmovedPaired(s, ReceiveInvoke(s, r, input, read).state);
  }

  lemma OfferReceived(s: State, now: int, r: Request, id: string)
    requires Paired(s) && id !in s.offers && 0 <= s.epoch
    ensures Received(s, now, ReceiveOffer(s, now, r, id))
  {
    var t := ReceiveOffer(s, now, r, id).state;
    if t != s {
      forall k | k in t.offers ensures CoherentAt(t, k) {
        if k != id { assert CoherentAt(s, k); }
      }
    }
  }

  lemma EndReceived(s: State, now: int, r: Request)
    requires Paired(s) && r.token in s.offers
    ensures var t := Finish(s, {r.token}, "consumer ended");
            r.token in t.offers && Received(s, now, Answer(t, StatusOf(t, r.token)))
  {
    FinishOnward(s, {r.token}, "consumer ended");
  }

  lemma NowReceived(s: State, now: int, r: Request, id: string, read: Option<Observation>)
    requires Paired(s) && id !in s.offers && 0 <= s.epoch
    ensures Received(s, now, ReceiveNow(s, now, r, id, read))
  {
    if !Addressed(s, r) || now >= r.deadline {
    } else if r.operation.ResumeOp? {
      ResumeReceived(s, now, r, r.operation.signed);
    } else if r.operation.OfferOp? {
      OfferReceived(s, now, r, id);
    } else if r.token in s.offers && s.offers[r.token].consumer == r.consumer {
      if r.operation.EndOp? {
        EndReceived(s, now, r);
      } else if r.operation.InvokeOp? && Permitted(s, now, r) {
        InvokeReceived(s, now, r, r.operation.input, read);
      }
    }
  }

  lemma ArrivalReceived(s: State, now: int, r: Request, id: string, read: Option<Observation>)
    requires Paired(s) && id !in s.offers && 0 <= s.epoch
    ensures Received(s, now, Receive(s, now, r, id, read))
  {
    ExpirePaired(s, now);
    var x := Expire(s, now);
    FinishOnward(s, Due(s, now), "expired");
    NowReceived(x, now, r, id, read);
    ReceivedThrough(s, x, now, Receive(s, now, r, id, read));
  }

  lemma ReceivedThrough(s: State, x: State, now: int, o: Outcome)
    requires Onward(s, x) && x.epoch == s.epoch && Received(x, now, o)
    ensures Received(s, now, o)
  {
  }

  // ---- what every interleaving keeps -------------------------------------------------------------------------

  predicate IsResume(f: Frame) { !f.Preparing? }

  /** At most one frame is a resume's (or, for `resume` false, an invocation's). */
  ghost predicate AtMostOne(frames: multiset<Frame>, resume: bool) {
    forall f, g :: f in frames && g in frames && IsResume(f) == resume && IsResume(g) == resume
        ==> f == g && frames[f] == 1
  }

  ghost predicate NoneOf(frames: multiset<Frame>, resume: bool) {
    forall f :: f in frames ==> IsResume(f) != resume
  }

  /** A resume in flight blocks others, and while the retained authority is still the object it began with,
      nothing is active. */
  ghost predicate ResumeSafe(s: State, f: Frame) {
    IsResume(f) ==> s.resuming && f.serial <= s.serial && (f.serial == s.serial ==> s.active.None?)
  }

  ghost predicate FrameSafe(s: State, f: Frame) {
    ResumeSafe(s, f) && (f.Preparing? ==> s.committing && Wanted(f))
  }

  /** The commit ran while the supplier was enabled and ready, for the active accepted offer with the
      request's epoch and before its deadline, before the request's deadline, and on the observation the
      request expected. */
  ghost predicate Gated(c: Commit) {
    && c.state.enabled && c.state.ready && c.state.active == Some(c.r.token) && c.r.token in c.state.offers
    && c.state.offers[c.r.token].status.Accepted? && c.r.epoch == Some(c.state.offers[c.r.token].epoch)
    && c.now < c.state.offers[c.r.token].deadline && c.now < c.r.deadline
    && c.r.operation.InvokeOp? && c.r.operation.input.Some? && c.r.operation.input.value.expected == Some(c.seen)
  }

  ghost predicate Good(sys: Sys) {
    && Paired(sys.state) && 0 <= sys.state.epoch
    && (sys.state.keeps || (Blocked(sys.state) && NoneOf(sys.frames, true)))
    && AtMostOne(sys.frames, true) && AtMostOne(sys.frames, false)
    && (forall f :: f in sys.frames ==> FrameSafe(sys.state, f))
    && (forall c :: c in sys.commits ==> Gated(c))
  }

  lemma Removed(frames: multiset<Frame>, f: Frame)
    requires f in frames && AtMostOne(frames, true) && AtMostOne(frames, false)
    ensures var rest := frames - multiset{f};
            && AtMostOne(rest, true) && AtMostOne(rest, false) && NoneOf(rest, IsResume(f))
            && forall g :: g in rest ==> g in frames
  {
    var rest := frames - multiset{f};
    forall g | g in rest ensures g in frames && IsResume(g) != IsResume(f) && rest[g] == frames[g] {
    }
  }

  lemma Added(frames: multiset<Frame>, f: Frame)
    requires AtMostOne(frames, true) && AtMostOne(frames, false) && NoneOf(frames, IsResume(f))
    ensures var more := frames + multiset{f}; AtMostOne(more, true) && AtMostOne(more, false)
  {
    var more := frames + multiset{f};
    forall g | g in more ensures if g == f then more[g] == 1 else g in frames && more[g] == frames[g] {
    }
  }

  /** The frames left behind stay safe when the state moves on and the flags they rely on stay set. */
  lemma FramesStaySafe(s: State, t: State, frames: multiset<Frame>)
    requires (s.keeps || NoneOf(frames, true)) && Moves(s, t) && (forall f :: f in frames ==> FrameSafe(s, f))
    requires (s.resuming ==> t.resuming) || NoneOf(frames, true)
    requires (s.committing ==> t.committing) || NoneOf(frames, false)
    ensures forall f :: f in frames ==> FrameSafe(t, f)
  {
  }

  /** A step that suspends nothing. */
  lemma QuietStep(sys: Sys, t: State)
    requires Good(sys) && Paired(t) && Moves(sys.state, t) && SameFlags(sys.state, t)
    ensures Good(sys.(state := t))
  {
    FramesStaySafe(sys.state, t, sys.frames);
  }

  lemma ArrivalStep(sys: Sys, now: int, r: Request, id: string, read: Option<Observation>)
    requires Good(sys) && id !in sys.state.offers
    ensures Good(After(sys, sys.frames, Receive(sys.state, now, r, id, read)))
  {
    var o := Receive(sys.state, now, r, id, read);
    ArrivalReceived(sys.state, now, r, id, read);
    ArrivedGood(sys, now, o);
  }

  lemma ArrivedGood(sys: Sys, now: int, o: Outcome)
    requires Good(sys) && Received(sys.state, now, o)
    ensures Good(After(sys, sys.frames, o))
  {
    FramesStaySafe(sys.state, o.state, sys.frames);
    if o.frame.Some? {
      var f := o.frame.value;
      forall g | g in sys.frames ensures IsResume(g) != IsResume(f) { assert FrameSafe(sys.state, g); }
      Added(sys.frames, f);
    }
  }

  lemma CheckedStep(sys: Sys, f: Frame, ok: bool)
    requires Good(sys) && f in sys.frames && f.Checking?
    ensures Good(After(sys, sys.frames - multiset{f}, Checked(sys.state, f, ok)))
  {
    var o, rest := Checked(sys.state, f, ok), sys.frames - multiset{f};
    Removed(sys.frames, f);
    UnmovedPaired(sys.state, o.state);
    FramesStaySafe(sys.state, o.state, rest);
    assert FrameSafe(sys.state, f);
    if o.frame.Some? { Added(rest, o.frame.value); }
  }

  /** A resume that survives both awaits makes the new offer the active grant, with the retained expiry and
      the next epoch, and touches no other offer; one that does not changes no offer at all. */
  lemma SignedMoves(s: State, f: Frame, ok: bool, now: int, id: string, secret: int)
    requires Paired(s) && 0 <= s.epoch && f.Signing? && id !in s.offers && (f.serial == s.serial ==> s.active.None?)
    ensures var o := Signed(s, f, ok, now, id, secret);
            Paired(o.state) && Moves(s, o.state) && o.frame.None? && o.state.committing == s.committing
    ensures var t := Signed(s, f, ok, now, id, secret).state;
            if ok && StillResumable(s, now, f) then
              t.active == Some(id)
              && t.offers == s.offers[id := Offer(f.r.consumer, f.authority.expires, s.epoch + 1, Accepted)]
            else t.offers == s.offers && t.active == s.active
  {
    var d := s.(resuming := false);
    UnmovedPaired(s, d);
    if ok && StillResumable(s, now, f) {
      var o := Offer(f.r.consumer, f.authority.expires, d.epoch + 1, Accepted);
      GrantCoherent(d, id, o, secret);
      assert Signed(s, f, ok, now, id, secret).state == Grant(d, id, o, secret);
      MovesThrough(s, d, Grant(d, id, o, secret));
    } else {
      assert Signed(s, f, ok, now, id, secret).state == d;
    }
  }

  lemma SignedStep(sys: Sys, f: Frame, ok: bool, now: int, id: string, secret: int)
    requires Good(sys) && f in sys.frames && f.Signing? && id !in sys.state.offers
    ensures Good(After(sys, sys.frames - multiset{f}, Signed(sys.state, f, ok, now, id, secret)))
    ensures Moves(sys.state, Signed(sys.state, f, ok, now, id, secret).state)
  {
    assert FrameSafe(sys.state, f);
    SignedMoves(sys.state, f, ok, now, id, secret);
    ResumeSettled(sys, f, Signed(sys.state, f, ok, now, id, secret));
  }

  lemma ResumeSettled(sys: Sys, f: Frame, o: Outcome)
    requires Good(sys) && f in sys.frames && IsResume(f)
    requires Paired(o.state) && Moves(sys.state, o.state) && o.frame.None? && o.state.committing == sys.state.committing
    ensures Good(After(sys, sys.frames - multiset{f}, o))
  {
    Removed(sys.frames, f);
    FramesStaySafe(sys.state, o.state, sys.frames - multiset{f});
  }

  lemma ExpiredOver(s: State, now: int, k: string)
    requires k in Expire(s, now).offers && Live(Expire(s, now).offers[k])
    ensures now < Expire(s, now).offers[k].deadline
  {
  }

  lemma PreparedState(s: State, f: Frame, ok: bool, now: int, read: Option<Observation>, throws: bool)
    requires f.Preparing?
    ensures var (o, c) := Prepared(s, f, ok, now, read, throws);
            o.frame.None? && o.state == (if ok then Expire(s, now) else s).(committing := false)
  {
  }

  lemma PreparedMoves(s: State, ok: bool, now: int, t: State)
    requires Paired(s) && t == (if ok then Expire(s, now) else s).(committing := false)
    ensures Paired(t) && Moves(s, t) && !t.committing && t.resuming == s.resuming
  {
    var x := if ok then Expire(s, now) else s;
    ExpirePaired(s, now);
    assert Paired(x) && Moves(s, x) && x.resuming == s.resuming;
    UnmovedPaired(x, t);
    MovesThrough(s, x, t);
  }

  /** Every commit passed the gate. */
  lemma CommitGated(s: State, f: Frame, ok: bool, now: int, read: Option<Observation>, throws: bool)
    requires f.Preparing? && Wanted(f)
    ensures var (o, c) := Prepared(s, f, ok, now, read, throws);
            c.Some? ==> Gated(c.value) && c.value.r == f.r && c.value.now == now && Some(c.value.seen) == read
  {
    var (o, c) := Prepared(s, f, ok, now, read, throws);
    if c.Some? { ExpiredOver(s, now, f.r.token); }
  }

  // ---- what an invocation is answered -----------------------------------------------------------------------

  /** Once what is due has expired, the request's offer is the active accepted one, of the request's epoch, and
      neither its deadline nor the request's has come. */
  predicate MayCommit(s: State, now: int, r: Request) {
    && s.enabled && s.ready && s.active == Some(r.token) && r.token in s.offers
    && s.offers[r.token].status.Accepted? && r.epoch == Some(s.offers[r.token].epoch)
    && now < s.offers[r.token].deadline && now < r.deadline
  }

  /** Why the offer is over once what is due has expired, if it is. */
  function OverFor(s: State, now: int, token: string): Option<string> {
    if token !in s.offers then None
    else match s.offers[token].status
      case Ended(reason) => Some(reason)
      case _ => if now >= s.offers[token].deadline then Some("expired") else None
  }

  lemma ExpiredOffer(s: State, now: int, token: string)
    requires token in s.offers
    ensures var o, x := s.offers[token], Expire(s, now);
            && token in x.offers
            && x.offers[token] == (if now >= o.deadline then EndOffer(o, "expired") else o)
            && (now < s.offers[token].deadline ==> (x.active == Some(token) <==> s.active == Some(token)))
  {
    FinishedAt(s, Due(s, now), "expired", token);
  }

  lemma PermittedExactly(s: State, now: int, r: Request)
    ensures Permitted(Expire(s, now), now, r) <==> MayCommit(s, now, r)
  {
    FinishShape(s, Due(s, now), "expired");
    if r.token in s.offers { ExpiredOffer(s, now, r.token); }
  }

  /** The commit happens exactly when the preparation succeeded, the supplier still permits it and the observation
      just read is the one expected; and the reply says exactly what happened. */
  ghost predicate AnsweredAsCommitted(s: State, f: Frame, ok: bool, now: int, read: Option<Observation>, throws: bool,
                                      reply: Reply, committed: bool)
    requires f.Preparing?
  {
    var may := ok && MayCommit(s, now, f.r);
    && (committed <==> may && read == Some(f.expected))
    && (reply == Applied <==> committed && !throws)
    && (reply == Conflict <==> may && read.Some? && read != Some(f.expected))
    && (reply == UnknownReply <==> (committed && throws) || (may && read.None?))
    && (reply == Invalid <==> !ok)
    && (reply == ExpiredReply <==> ok && !may && OverFor(s, now, f.r.token).None?)
    && (reply.EndedReply? <==> ok && !may && OverFor(s, now, f.r.token).Some?)
    && (reply.EndedReply? ==> reply == EndedReply(f.r.token, OverFor(s, now, f.r.token).value))
  }

  /** An invocation is answered as it was committed. */
  lemma PreparedAnswers(s: State, f: Frame, ok: bool, now: int, read: Option<Observation>, throws: bool)
    requires f.Preparing?
    ensures var (o, c) := Prepared(s, f, ok, now, read, throws);
            o.reply.Some? && AnsweredAsCommitted(s, f, ok, now, read, throws, o.reply.value, c.Some?)
  {
    PermittedExactly(s, now, f.r);
    FinishShape(s, Due(s, now), "expired");
    if f.r.token in s.offers { ExpiredOffer(s, now, f.r.token); }
  }

  lemma PreparedStep(sys: Sys, f: Frame, ok: bool, now: int, read: Option<Observation>, throws: bool)
    requires Good(sys) && f in sys.frames && f.Preparing?
    ensures Good(Concluded(sys, f, Prepared(sys.state, f, ok, now, read, throws)))
  {
    assert FrameSafe(sys.state, f);
    var r := Prepared(sys.state, f, ok, now, read, throws);
    CommitGated(sys.state, f, ok, now, read, throws);
    PreparedState(sys.state, f, ok, now, read, throws);
    PreparedMoves(sys.state, ok, now, r.0.state);
    SettledGood(sys, f, r);
  }

  lemma SettledGood(sys: Sys, f: Frame, r: (Outcome, Option<Commit>))
    requires Good(sys) && f in sys.frames && f.Preparing? && (r.1.Some? ==> Gated(r.1.value))
    requires Paired(r.0.state) && Moves(sys.state, r.0.state) && r.0.frame.None?
    requires r.0.state.resuming == sys.state.resuming
    ensures Good(Concluded(sys, f, r))
  {
    Removed(sys.frames, f);
    FramesStaySafe(sys.state, r.0.state, sys.frames - multiset{f});
  }

  lemma OperatorPaired(s: State, e: Event)
    requires Paired(s) && 0 <= s.epoch && !e.Arrives? && !e.ChecksProof? && !e.SignsProof? && !e.Prepares?
    ensures var t := Next(Sys(s, multiset{}, []), e).state; Paired(t) && Moves(s, t) && SameFlags(s, t)
  {
    match e
    case Enables(on) => SwitchPaired(s, s.(enabled := on), on, "disabled");
    case Readies(on) => SwitchPaired(s, s.(ready := on), on, "disconnected");
    case Accepts(now, token, secret) => AcceptPaired(s, now, token, secret);
    case Declines(token) => if token in s.offers { FinishOnward(s, {token}, "declined"); }
    case Ends(reason) => EndAllPaired(s, reason);
    case Looks(now) => ExpirePaired(s, now);
  }

  lemma SwitchPaired(s: State, t: State, on: bool, reason: string)
    requires Paired(s) && (t == s.(enabled := on) || t == s.(ready := on))
    ensures var u := if on then t else EndAll(t, reason); Paired(u) && Moves(s, u) && SameFlags(s, u)
  {
    forall k | k in t.offers ensures CoherentAt(t, k) { assert CoherentAt(s, k); }
    if !on { EndAllPaired(t, reason); }
  }

  /** Every step keeps the invariant: lifecycle, resumes across their awaits, one invocation between its
      preparation and its commit, and the gate at every commit. */
  lemma StepKeepsGood(sys: Sys, e: Event)
    requires Good(sys) && Enabled(sys, e)
    ensures Good(Next(sys, e)) && Moves(sys.state, Next(sys, e).state)
  {
    match e
    case Arrives(now, r, id, read) =>
      ArrivalReceived(sys.state, now, r, id, read);
      ArrivalStep(sys, now, r, id, read);
    case ChecksProof(f, ok) =>
      CheckedStep(sys, f, ok);
      UnmovedPaired(sys.state, Checked(sys.state, f, ok).state);
    case SignsProof(f, ok, now, id, secret) => SignedStep(sys, f, ok, now, id, secret);
    case Prepares(f, ok, now, read, throws) =>
      PreparedState(sys.state, f, ok, now, read, throws);
      PreparedMoves(sys.state, ok, now, Prepared(sys.state, f, ok, now, read, throws).0.state);
      PreparedStep(sys, f, ok, now, read, throws);
    case _ =>
      OperatorPaired(sys.state, e);
      QuietStep(sys, Next(sys, e).state);
  }

  // ---- the commit gate, in every configuration -------------------------------------------------------------------

  /** At most one invocation is between its preparation and its commit, and every commit was gated. */
  ghost predicate Guarded(sys: Sys) {
    && AtMostOne(sys.frames, false)
    && (forall f :: f in sys.frames && f.Preparing? ==> sys.state.committing && Wanted(f))
    && (forall c :: c in sys.commits ==> Gated(c))
  }

  /** What a stretch of `receive` does to the commit flag. */
  ghost predicate FlagReceived(s: State, o: Outcome) {
    if o.frame.Some? && o.frame.value.Preparing? then !s.committing && o.state.committing && Wanted(o.frame.value)
    else o.state.committing == s.committing
  }

  lemma FinishFlag(s: State, tokens: set<string>, reason: string)
    ensures Finish(s, tokens, reason).committing == s.committing
  {
    FinishShape(s, tokens, reason);
  }

  lemma RequestFlag(s: State, now: int, r: Request, id: string, read: Option<Observation>)
    ensures r.operation.ResumeOp? ==> FlagReceived(s, ReceiveResume(s, now, r, r.operation.signed))
    ensures FlagReceived(s, ReceiveOffer(s, now, r, id))
    ensures r.operation.InvokeOp? ==> FlagReceived(s, ReceiveInvoke(s, r, r.operation.input, read))
  {
  }

  lemma NowFlag(s: State, now: int, r: Request, id: string, read: Option<Observation>)
    ensures FlagReceived(s, ReceiveNow(s, now, r, id, read))
  {
    RequestFlag(s, now, r, id, read);
    FinishFlag(s, {r.token}, "consumer ended");
  }

  lemma FlagThrough(s: State, x: State, o: Outcome)
    requires x.committing == s.committing && FlagReceived(x, o)
    ensures FlagReceived(s, o)
  {
  }

  lemma ArrivalFlag(s: State, now: int, r: Request, id: string, read: Option<Observation>)
    ensures FlagReceived(s, Receive(s, now, r, id, read))
  {
    FinishFlag(s, Due(s, now), "expired");
    NowFlag(Expire(s, now), now, r, id, read);
    FlagThrough(s, Expire(s, now), Receive(s, now, r, id, read));
  }

  lemma AcceptFlag(x: State, now: int, token: string, secret: int)
    ensures AcceptNow(x, now, token, secret).committing == x.committing
  {
    if Acceptable(x, token) {
      var o := x.offers[token].(status := Accepted, epoch := x.epoch + 1, deadline := now + x.grantMs);
      var g := Grant(x, token, o, secret);
      FinishFlag(g, Pendings(g), "busy");
    }
  }

  lemma OperatorFlag(s: State, e: Event)
    requires !e.Arrives? && !e.ChecksProof? && !e.SignsProof? && !e.Prepares?
    ensures Next(Sys(s, multiset{}, []), e).state.committing == s.committing
  {
    match e
    case Enables(on) => FinishFlag(s.(enabled := on), s.offers.Keys, "disabled");
    case Readies(on) => FinishFlag(s.(ready := on), s.offers.Keys, "disconnected");
    case Accepts(now, token, secret) =>
      FinishFlag(s, Due(s, now), "expired");
      AcceptFlag(Expire(s, now), now, token, secret);
    case Declines(token) => FinishFlag(s, {token}, "declined");
    case Ends(reason) => FinishFlag(s, s.offers.Keys, reason);
    case Looks(now) => FinishFlag(s, Due(s, now), "expired");
  }

  lemma ResumeFlag(s: State, f: Frame, ok: bool, now: int, id: string, secret: int)
    ensures f.Checking? ==> FlagReceived(s, Checked(s, f, ok))
    ensures f.Signing? ==> FlagReceived(s, Signed(s, f, ok, now, id, secret))
  {
  }

  lemma FramesOut(frames: multiset<Frame>, f: Frame)
    requires AtMostOne(frames, false) && f in frames
    ensures AtMostOne(frames - multiset{f}, false) && (forall g :: g in frames - multiset{f} ==> g in frames)
    ensures f.Preparing? ==> NoneOf(frames - multiset{f}, false)
  {
    forall g | g in frames - multiset{f} && g.Preparing?
      ensures g in frames && (frames - multiset{f})[g] == frames[g] && g != f
    {
    }
  }

  lemma GuardedAfter(sys: Sys, rest: multiset<Frame>, o: Outcome)
    requires Guarded(sys) && FlagReceived(sys.state, o) && AtMostOne(rest, false)
    requires forall f :: f in rest ==> f in sys.frames
    ensures Guarded(After(sys, rest, o))
  {
    var next := After(sys, rest, o);
    if o.frame.Some? && o.frame.value.Preparing? {
      assert NoneOf(rest, false);
      forall g | g in next.frames && g.Preparing? ensures g == o.frame.value && next.frames[g] == 1 { }
    } else {
      forall g | g in next.frames && g.Preparing? ensures g in rest && next.frames[g] == rest[g] { }
    }
  }

  lemma GuardedConcluded(sys: Sys, f: Frame, r: (Outcome, Option<Commit>))
    requires Guarded(sys) && f in sys.frames && f.Preparing? && r.0.frame.None? && (r.1.Some? ==> Gated(r.1.value))
    ensures Guarded(Concluded(sys, f, r))
  {
    FramesOut(sys.frames, f);
  }

  /** Every step of every supplier keeps the gate. */
  lemma StepKeepsGate(sys: Sys, e: Event)
    requires Guarded(sys) && Enabled(sys, e)
    ensures Guarded(Next(sys, e))
  {
    match e
    case Arrives(now, r, id, read) =>
      ArrivalFlag(sys.state, now, r, id, read);
      GuardedAfter(sys, sys.frames, Receive(sys.state, now, r, id, read));
    case ChecksProof(f, ok) =>
      FramesOut(sys.frames, f);
      ResumeFlag(sys.state, f, ok, 0, "", 0);
      GuardedAfter(sys, sys.frames - multiset{f}, Checked(sys.state, f, ok));
    case SignsProof(f, ok, now, id, secret) =>
      FramesOut(sys.frames, f);
      ResumeFlag(sys.state, f, ok, now, id, secret);
      GuardedAfter(sys, sys.frames - multiset{f}, Signed(sys.state, f, ok, now, id, secret));
    case Prepares(f, ok, now, read, throws) =>
      CommitGated(sys.state, f, ok, now, read, throws);
      PreparedState(sys.state, f, ok, now, read, throws);
      GuardedConcluded(sys, f, Prepared(sys.state, f, ok, now, read, throws));
    case _ =>
      OperatorFlag(sys.state, e);
  }

  // ---- ended for good, in every configuration -----------------------------------------------------------------

  // ---- everything ends with the supplier off, in every configuration ---------------------------------------------

  /** The active offer is an accepted one; while the supplier is not both enabled and ready every offer is ended
      and none is active. */
  ghost predicate Switched(s: State) {
    && (s.active.Some? ==> s.active.value in s.offers && s.offers[s.active.value].status.Accepted?)
    && (!s.enabled || !s.ready ==> AllEnded(s))
  }

  lemma FinishSwitched(s: State, tokens: set<string>, reason: string)
    requires Switched(s)
    ensures Switched(Finish(s, tokens, reason))
  {
    FinishShape(s, tokens, reason);
    FinishStaysEnded(s, tokens, reason);
    if s.active.Some? { FinishedAt(s, tokens, reason, s.active.value); }
  }

  lemma EndAllSwitched(s: State, reason: string)
    requires s.active.Some? ==> s.active.value in s.offers && s.offers[s.active.value].status.Accepted?
    ensures Switched(EndAll(s, reason))
  {
    var t := Finish(s, s.offers.Keys, reason);
    forall k | k in t.offers ensures t.offers[k].status.Ended? { FinishedAt(s, s.offers.Keys, reason, k); }
    if s.active.Some? { FinishedAt(s, s.offers.Keys, reason, s.active.value); }
  }

  lemma SwitchSwitched(s: State, on: bool)
    requires Switched(s)
    ensures Switched(Enable(s, on)) && Switched(SetReady(s, on))
  {
    EndAllSwitched(s.(enabled := on), "disabled");
    EndAllSwitched(s.(ready := on), "disconnected");
  }

  lemma GrantSwitched(s: State, token: string, o: Offer, secret: int)
    requires Switched(s) && s.enabled && s.ready && o.status.Accepted?
    ensures Switched(Grant(s, token, o, secret))
  {
  }

  lemma AcceptSwitched(x: State, now: int, token: string, secret: int)
    requires Switched(x)
    ensures Switched(AcceptNow(x, now, token, secret))
  {
    if Acceptable(x, token) {
      var o := x.offers[token].(status := Accepted, epoch := x.epoch + 1, deadline := now + x.grantMs);
      var g := Grant(x, token, o, secret);
      GrantSwitched(x, token, o, secret);
      FinishSwitched(g, Pendings(g), "busy");
    }
  }

  lemma OperatorSwitched(s: State, e: Event)
    requires Switched(s) && !e.Arrives? && !e.ChecksProof? && !e.SignsProof? && !e.Prepares?
    ensures Switched(Next(Sys(s, multiset{}, []), e).state)
  {
    match e
    case Enables(on) => SwitchSwitched(s, on);
    case Readies(on) => SwitchSwitched(s, on);
    case Accepts(now, token, secret) =>
      FinishSwitched(s, Due(s, now), "expired");
      AcceptSwitched(Expire(s, now), now, token, secret);
    case Declines(token) => if token in s.offers { FinishSwitched(s, {token}, "declined"); }
    case Ends(reason) => EndAllSwitched(s, reason);
    case Looks(now) => FinishSwitched(s, Due(s, now), "expired");
  }

  lemma StillSwitched(x: State, t: State)
    requires Switched(x) && t == x.(resuming := t.resuming, committing := t.committing)
    ensures Switched(t)
  {
  }

  lemma OfferSwitched(x: State, now: int, r: Request, id: string)
    requires Switched(x) && id !in x.offers
    ensures Switched(ReceiveOffer(x, now, r, id).state)
  {
  }

  lemma NowSwitched(x: State, now: int, r: Request, id: string, read: Option<Observation>)
    requires Switched(x) && id !in x.offers
    ensures Switched(ReceiveNow(x, now, r, id, read).state)
  {
    if Addressed(x, r) && now < r.deadline {
      if r.operation.ResumeOp? {
        StillSwitched(x, ReceiveResume(x, now, r, r.operation.signed).state);
      } else if r.operation.OfferOp? {
        OfferSwitched(x, now, r, id);
      } else if r.token in x.offers && x.offers[r.token].consumer == r.consumer {
        if r.operation.EndOp? {
          FinishSwitched(x, {r.token}, "consumer ended");
        } else if r.operation.InvokeOp? && Permitted(x, now, r) {
          StillSwitched(x, ReceiveInvoke(x, r, r.operation.input, read).state);
        }
      }
    }
  }

  lemma ArrivalSwitched(s: State, now: int, r: Request, id: string, read: Option<Observation>)
    requires Switched(s) && id !in s.offers
    ensures Switched(Receive(s, now, r, id, read).state)
  {
    FinishShape(s, Due(s, now), "expired");
    FinishSwitched(s, Due(s, now), "expired");
    NowSwitched(Expire(s, now), now, r, id, read);
  }

  lemma SignedSwitched(s: State, f: Frame, ok: bool, now: int, id: string, secret: int)
    requires Switched(s) && f.Signing?
    ensures Switched(Signed(s, f, ok, now, id, secret).state)
  {
    var d := s.(resuming := false);
    StillSwitched(s, d);
    if ok && StillResumable(s, now, f) {
      GrantSwitched(d, id, Offer(f.r.consumer, f.authority.expires, d.epoch + 1, Accepted), secret);
    }
  }

  lemma PreparedSwitched(s: State, ok: bool, now: int, t: State)
    requires Switched(s) && t == (if ok then Expire(s, now) else s).(committing := false)
    ensures Switched(t)
  {
    FinishSwitched(s, Due(s, now), "expired");
    StillSwitched(if ok then Expire(s, now) else s, t);
  }

  /** Every step of every supplier keeps what is off ended. */
  lemma StepKeepsSwitched(sys: Sys, e: Event)
    requires Switched(sys.state) && Enabled(sys, e)
    ensures Switched(Next(sys, e).state)
  {
    match e
    case Arrives(now, r, id, read) => ArrivalSwitched(sys.state, now, r, id, read);
    case ChecksProof(f, ok) => StillSwitched(sys.state, Checked(sys.state, f, ok).state);
    case SignsProof(f, ok, now, id, secret) => SignedSwitched(sys.state, f, ok, now, id, secret);
    case Prepares(f, ok, now, read, throws) =>
      PreparedState(sys.state, f, ok, now, read, throws);
      PreparedSwitched(sys.state, ok, now, Prepared(sys.state, f, ok, now, read, throws).0.state);
    case _ => OperatorSwitched(sys.state, e);
  }

  predicate AcceptedIn(s: State, k: string) { k in s.offers && s.offers[k].status.Accepted? }

  /** An accepted offer keeps its consumer, deadline and epoch whatever becomes of it, and an ended one
      keeps its reason too. */
  ghost predicate Lasts(s: State, t: State) {
    forall k :: k in s.offers && !s.offers[k].status.Pending? ==>
      k in t.offers && LastsAs(s.offers[k], t.offers[k])
  }

  predicate LastsAs(o: Offer, p: Offer) {
    && !p.status.Pending? && p.consumer == o.consumer && p.deadline == o.deadline && p.epoch == o.epoch
    && (o.status.Ended? ==> p == o)
  }

  /** What is settled lasts, and what is accepted later was so before or has a later epoch than all before. */
  ghost predicate Rises(s: State, t: State) {
    && Lasts(s, t) && s.epoch <= t.epoch
    && forall k :: AcceptedIn(t, k)
        ==> (k in s.offers && s.offers[k] == t.offers[k]) || s.epoch < t.offers[k].epoch <= t.epoch
  }

  lemma FinishRises(s: State, tokens: set<string>, reason: string)
    ensures Rises(s, Finish(s, tokens, reason))
  {
    FinishShape(s, tokens, reason);
    EndInRises(s, Finish(s, tokens, reason), tokens, reason);
  }

  lemma EndInRises(s: State, t: State, tokens: set<string>, reason: string)
    requires t.offers == EndIn(s.offers, tokens, reason) && t.epoch == s.epoch
    ensures Rises(s, t)
  {
  }

  lemma RisesThrough(s: State, t: State, u: State)
    requires Rises(s, t) && Rises(t, u)
    ensures Rises(s, u)
  {
    forall k | k in s.offers && !s.offers[k].status.Pending?
      ensures k in u.offers && LastsAs(s.offers[k], u.offers[k])
    {
      assert LastsAs(s.offers[k], t.offers[k]);
    }
  }

  lemma GrantRises(s: State, token: string, o: Offer, secret: int)
    requires token in s.offers ==> s.offers[token].status.Pending?
    requires o.epoch == s.epoch + 1
    ensures Rises(s, Grant(s, token, o, secret))
  {
  }

  lemma AcceptRises(x: State, now: int, token: string, secret: int)
    ensures Rises(x, AcceptNow(x, now, token, secret))
  {
    if Acceptable(x, token) {
      var o := x.offers[token].(status := Accepted, epoch := x.epoch + 1, deadline := now + x.grantMs);
      GrantRises(x, token, o, secret);
      BusyRises(x, Grant(x, token, o, secret));
    }
  }

  lemma BusyRises(x: State, g: State)
    requires Rises(x, g)
    ensures Rises(x, Finish(g, Pendings(g), "busy"))
  {
    FinishRises(g, Pendings(g), "busy");
    RisesThrough(x, g, Finish(g, Pendings(g), "busy"));
  }

  lemma StillRises(x: State, t: State)
    requires t.offers == x.offers && t.epoch == x.epoch
    ensures Rises(x, t)
  {
  }

  lemma OfferRises(x: State, now: int, r: Request, id: string)
    requires id !in x.offers
    ensures Rises(x, ReceiveOffer(x, now, r, id).state)
  {
  }

  lemma ReceiveRises(x: State, now: int, r: Request, id: string, read: Option<Observation>)
    requires id !in x.offers
    ensures Rises(x, ReceiveNow(x, now, r, id, read).state)
  {
    StillRises(x, x);
    if Addressed(x, r) && now < r.deadline {
      if r.operation.ResumeOp? {
        StillRises(x, ReceiveResume(x, now, r, r.operation.signed).state);
      } else if r.operation.OfferOp? {
        OfferRises(x, now, r, id);
      } else if r.token in x.offers && x.offers[r.token].consumer == r.consumer {
        if r.operation.EndOp? {
          FinishRises(x, {r.token}, "consumer ended");
        } else if r.operation.InvokeOp? && Permitted(x, now, r) {
          StillRises(x, ReceiveInvoke(x, r, r.operation.input, read).state);
        }
      }
    }
  }

  lemma ExpireRises(s: State, now: int, u: State)
    requires Rises(Expire(s, now), u)
    ensures Rises(s, u)
  {
    FinishRises(s, Due(s, now), "expired");
    RisesThrough(s, Expire(s, now), u);
  }

  lemma SignedRises(s: State, f: Frame, ok: bool, now: int, id: string, secret: int)
    requires f.Signing? && id !in s.offers
    ensures Rises(s, Signed(s, f, ok, now, id, secret).state)
  {
    if ok && StillResumable(s, now, f) {
      var d := s.(resuming := false);
      GrantRises(d, id, Offer(f.r.consumer, f.authority.expires, d.epoch + 1, Accepted), secret);
    }
  }

  lemma EndAllRises(s: State, t: State, reason: string)
    requires t.offers == s.offers && t.epoch == s.epoch
    ensures Rises(s, EndAll(t, reason))
  {
    FinishRises(t, t.offers.Keys, reason);
    StillRises(s, t);
    RisesThrough(s, t, Finish(t, t.offers.Keys, reason));
    StillRises(Finish(t, t.offers.Keys, reason), EndAll(t, reason));
    RisesThrough(s, Finish(t, t.offers.Keys, reason), EndAll(t, reason));
  }

  lemma SwitchRises(s: State, on: bool)
    ensures Rises(s, Enable(s, on)) && Rises(s, SetReady(s, on))
  {
    if on {
      StillRises(s, s.(enabled := on));
      StillRises(s, s.(ready := on));
    } else {
      EndAllRises(s, s.(enabled := on), "disabled");
      EndAllRises(s, s.(ready := on), "disconnected");
    }
  }

  lemma AcceptedRises(s: State, now: int, token: string, secret: int)
    ensures Rises(s, Accept(s, now, token, secret))
  {
    AcceptRises(Expire(s, now), now, token, secret);
    ExpireRises(s, now, Accept(s, now, token, secret));
  }

  lemma DeclineRises(s: State, token: string)
    ensures Rises(s, Decline(s, token))
  {
    if token in s.offers { FinishRises(s, {token}, "declined"); } else { StillRises(s, s); }
  }

  lemma OperatorRises(s: State, e: Event)
    requires !e.Arrives? && !e.ChecksProof? && !e.SignsProof? && !e.Prepares?
    ensures Rises(s, Next(Sys(s, multiset{}, []), e).state)
  {
    match e
    case Enables(on) => SwitchRises(s, on);
    case Readies(on) => SwitchRises(s, on);
    case Accepts(now, token, secret) => AcceptedRises(s, now, token, secret);
    case Declines(token) => DeclineRises(s, token);
    case Ends(reason) => EndAllRises(s, s, reason);
    case Looks(now) => FinishRises(s, Due(s, now), "expired");
  }

  lemma ArrivalRises(s: State, now: int, r: Request, id: string, read: Option<Observation>)
    requires id !in s.offers
    ensures Rises(s, Receive(s, now, r, id, read).state)
  {
    FinishShape(s, Due(s, now), "expired");
    ReceiveRises(Expire(s, now), now, r, id, read);
    ExpireRises(s, now, Receive(s, now, r, id, read).state);
  }

  lemma PreparedRises(s: State, ok: bool, now: int, t: State)
    requires t == (if ok then Expire(s, now) else s).(committing := false)
    ensures Rises(s, t)
  {
    FinishRises(s, Due(s, now), "expired");
  }

  /** No step of any supplier changes what an accepted offer was granted, or anything of an ended one. */
  lemma StepRises(sys: Sys, e: Event)
    requires Enabled(sys, e)
    ensures Rises(sys.state, Next(sys, e).state)
  {
    match e
    case Arrives(now, r, id, read) => ArrivalRises(sys.state, now, r, id, read);
    case ChecksProof(f, ok) =>
    case SignsProof(f, ok, now, id, secret) => SignedRises(sys.state, f, ok, now, id, secret);
    case Prepares(f, ok, now, read, throws) =>
      PreparedState(sys.state, f, ok, now, read, throws);
      PreparedRises(sys.state, ok, now, Prepared(sys.state, f, ok, now, read, throws).0.state);
    case _ => OperatorRises(sys.state, e);
  }

  // ---- runs ---------------------------------------------------------------------------------------------------

  ghost predicate Step(sys: Sys, e: Event, next: Sys) {
    Enabled(sys, e) && next == Next(sys, e)
  }

  /** A run of a supplier from its construction. */
  ghost predicate Run(start: State, states: seq<Sys>, events: seq<Event>) {
    && |states| == |events| + 1 && states[0] == Sys(start, multiset{}, [])
    && forall k :: 0 <= k < |events| ==> Step(states[k], events[k], states[k + 1])
  }

  ghost predicate Fresh(s: State) {
    && !s.enabled && !s.ready && s.epoch == 0 && s.active.None? && s.offers == map[] && !s.committing && !s.resuming
  }

  /** Every reachable interleaving keeps the lifecycle and gates every commit, provided `saveResume` is
      configured or no possible consumer can resume. */
  lemma {:induction false} ReachableGood(start: State, states: seq<Sys>, events: seq<Event>, k: nat)
    requires Fresh(start) && (start.keeps || Blocked(start)) && Run(start, states, events) && k < |states|
    ensures Good(states[k])
  {
    if k > 0 {
      ReachableGood(start, states, events, k - 1);
      assert Step(states[k - 1], events[k - 1], states[k]);
      StepKeepsGood(states[k - 1], events[k - 1]);
    }
  }

  /** In every run of every supplier, two accepted offers included, at most one invocation is between its
      preparation and its commit, and every commit was gated. */
  lemma {:induction false} OneInvocationGated(start: State, states: seq<Sys>, events: seq<Event>, k: nat)
    requires Fresh(start) && Run(start, states, events) && k < |states|
    ensures Guarded(states[k])
  {
    if k > 0 {
      OneInvocationGated(start, states, events, k - 1);
      assert Step(states[k - 1], events[k - 1], states[k]);
      StepKeepsGate(states[k - 1], events[k - 1]);
    }
  }

  /** In every run of every supplier an accepted offer keeps what it was granted, an ended one keeps its
      reason, and whatever is accepted later carries an epoch above all handed out before. */
  lemma {:induction false} RunMoves(start: State, states: seq<Sys>, events: seq<Event>, i: nat, j: nat)
    requires Run(start, states, events) && i <= j < |states|
    ensures Rises(states[i].state, states[j].state)
    decreases j
  {
    if i < j {
      RunMoves(start, states, events, i, j - 1);
      assert Step(states[j - 1], events[j - 1], states[j]);
      StepRises(states[j - 1], events[j - 1]);
      RisesThrough(states[i].state, states[j - 1].state, states[j].state);
    }
  }

  /** Two grants of one run: the later was there already, unchanged, or carries the higher epoch. */
  lemma EpochsIncrease(start: State, states: seq<Sys>, events: seq<Event>, i: nat, j: nat, k: string, m: string)
    requires Fresh(start) && Run(start, states, events) && i <= j < |states|
    requires AcceptedIn(states[i].state, k) && AcceptedIn(states[j].state, m)
    ensures (AcceptedIn(states[i].state, m) && states[j].state.offers[m] == states[i].state.offers[m])
            || states[i].state.offers[k].epoch < states[j].state.offers[m].epoch
    ensures (start.keeps || Blocked(start)) && AcceptedIn(states[i].state, m) ==> k == m
  {
    RunMoves(start, states, events, 0, i);
    RunMoves(start, states, events, i, j);
    if start.keeps || Blocked(start) {
      ReachableGood(start, states, events, i);
      CoherentIsOne(states[i].state);
    }
  }

  /** In every run every invocation whose preparation settles is answered `Applied` if and only if it was committed
      and the commit did not throw, `Conflict` if and only if it was still permitted but what it expected had
      changed, and so on; it is committed, once, if and only if it was permitted, on what it expected. */
  lemma InvocationsAnswered(start: State, states: seq<Sys>, events: seq<Event>, k: nat)
    requires Run(start, states, events) && k < |events| && events[k].Prepares?
    ensures Step(states[k], events[k], states[k + 1])
    ensures var s, e, said := states[k].state, events[k], Said(states[k], events[k]);
            && e.f.Preparing? && said.Some? && said.value.0 == e.f.r
            && AnsweredAsCommitted(s, e.f, e.ok, e.now, e.read, e.throws, said.value.1,
                                   states[k + 1].commits != states[k].commits)
            && (states[k + 1].commits != states[k].commits ==>
                  && |states[k + 1].commits| == |states[k].commits| + 1
                  && states[k + 1].commits[..|states[k].commits|] == states[k].commits
                  && states[k + 1].commits[|states[k].commits|].r == e.f.r
                  && states[k + 1].commits[|states[k].commits|].now == e.now)
            && !states[k + 1].state.committing
  {
    var s, e := states[k].state, events[k];
    assert Step(states[k], e, states[k + 1]);
    PreparedAnswers(s, e.f, e.ok, e.now, e.read, e.throws);
    PreparedState(s, e.f, e.ok, e.now, e.read, e.throws);
    PreparedCommit(s, e.f, e.ok, e.now, e.read, e.throws);
  }

  lemma PreparedCommit(s: State, f: Frame, ok: bool, now: int, read: Option<Observation>, throws: bool)
    requires f.Preparing?
    ensures var (o, c) := Prepared(s, f, ok, now, read, throws);
            c.Some? ==> c.value.r == f.r && c.value.now == now
  {
  }

  /** Nothing but such a settled preparation commits. */
  lemma OnlyPreparedCommits(start: State, states: seq<Sys>, events: seq<Event>, k: nat)
    requires Run(start, states, events) && k < |events| && !events[k].Prepares?
    ensures states[k + 1].commits == states[k].commits
  {
    assert Step(states[k], events[k], states[k + 1]);
  }

  /** In every run of every supplier, two accepted offers included, every offer is ended and none is active while
      the supplier is not both enabled and ready. */
  lemma {:induction false} EndedWhileOff(start: State, states: seq<Sys>, events: seq<Event>, k: nat)
    requires Fresh(start) && Run(start, states, events) && k < |states|
    ensures Switched(states[k].state)
  {
    if k > 0 {
      EndedWhileOff(start, states, events, k - 1);
      assert Step(states[k - 1], events[k - 1], states[k]);
      StepKeepsSwitched(states[k - 1], events[k - 1]);
    }
  }

  // ---- without saveResume ---------------------------------------------------------------------------------------

  ghost predicate OneAccepted(s: State) {
    forall k, m :: AcceptedIn(s, k) && AcceptedIn(s, m) ==> k == m
  }

  lemma NothingDue(s: State, now: int)
    requires Due(s, now) == {}
    ensures Expire(s, now) == s
  {
    assert Expire(s, now).offers == s.offers;
  }

  function Resuming(s: State, a: Authority): Request {
    var proof := Proof(a.secret, "request", s.identity, a.consumer, "n");
    Request(1, s.identity, a.consumer, ResumeOp(Some(("n", proof))), a.expires, "", None)
  }

  function Offering(s: State, a: Authority): Request {
    Request(1, s.identity, "c", OfferOp, a.expires, "", None)
  }

  lemma RunOn(start: State, states: seq<Sys>, events: seq<Event>, e: Event, next: Sys)
    requires Run(start, states, events) && Step(states[|events|], e, next)
    ensures Run(start, states + [next], events + [e])
  {
  }

  /** The retained consumer's resume, up to its second await. */
  lemma ResumeUnderway(sys: Sys, a: Authority) returns (e: Event, x: Sys, e': Event, y: Sys)
    requires var s := sys.state;
             s.enabled && s.ready && s.active.None? && s.offers == map[] && !s.resuming && s.authority == Some(a)
    requires a.consumer != "" && sys.frames == multiset{}
    ensures Step(sys, e, x) && Step(x, e', y)
    ensures y == Sys(sys.state.(resuming := true), multiset{Signing(Resuming(sys.state, a), "n", a, sys.state.serial)},
            sys.commits)
  {
    var now, r := a.expires - 1, Resuming(sys.state, a);
    var f := Checking(r, "n", r.operation.signed.value.1, a, sys.state.serial);
    NothingDue(sys.state, now);
    e := Arrives(now, r, "a", None);
    x := Next(sys, e);
    assert x == Sys(sys.state.(resuming := true), multiset{f}, sys.commits);
    e' := ChecksProof(f, true);
    y := Next(x, e');
    assert multiset{f} - multiset{f} == multiset{};
  }

  /** The two operator switches, then the resume. */
  lemma ResumeBegins(start: State, a: Authority) returns (states: seq<Sys>, events: seq<Event>)
    requires Fresh(start) && start.authority == Some(a) && a.consumer != ""
    ensures Run(start, states, events) && |events| == 4
    ensures states[4].state == start.(enabled := true, ready := true, resuming := true)
    ensures states[4].frames == multiset{Signing(Resuming(start, a), "n", a, start.serial)}
  {
    var s0 := Sys(start, multiset{}, []);
    var s1 := Sys(start.(enabled := true), multiset{}, []);
    var s2 := Sys(start.(enabled := true, ready := true), multiset{}, []);
    assert Step(s0, Enables(true), s1) && Step(s1, Readies(true), s2);
    var e, x, e', y := ResumeUnderway(s2, a);
    states, events := [s0, s1, s2, x, y], [Enables(true), Readies(true), e, e'];
  }

  /** Meanwhile another consumer's offer is made and accepted. */
  lemma OtherAccepted(sys: Sys, a: Authority) returns (x: Sys, y: Sys)
    requires var s := sys.state; s.enabled && s.ready && s.active.None? && s.offers == map[] && !s.keeps
    ensures Step(sys, Arrives(a.expires - 1, Offering(sys.state, a), "b", None), x)
    ensures Step(x, Accepts(a.expires - 1, "b", 0), y)
    ensures y.frames == sys.frames && AcceptedIn(y.state, "b") && y.state.offers.Keys == {"b"}
    ensures y.state.enabled && y.state.ready && y.state.serial == sys.state.serial
  {
    var now, s := a.expires - 1, sys.state;
    NothingDue(s, now);
    x := Next(sys, Arrives(now, Offering(s, a), "b", None));
    assert x.state == s.(offers := map["b" := Offer("c", a.expires, 0, Pending)]);
    NothingDue(x.state, now);
    y := Next(x, Accepts(now, "b", 0));
  }

  lemma SignedAnyway(sys: Sys, f: Frame, now: int, next: Sys)
    requires f.Signing? && f in sys.frames && StillResumable(sys.state, now, f) && "a" !in sys.state.offers
    requires AcceptedIn(sys.state, "b")
    requires next == Next(sys, SignsProof(f, true, now, "a", 0))
    ensures AcceptedIn(next.state, "a") && AcceptedIn(next.state, "b")
  {
  }

  /** Without `saveResume`, accepting an offer does not change the retained authority, so a resume already
      under way is not stopped by it: two offers end up accepted. */
  lemma TwoAccepted(start: State) returns (states: seq<Sys>, events: seq<Event>)
    requires Fresh(start) && !start.keeps && !Blocked(start)
    ensures Run(start, states, events) && !OneAccepted(states[|events|].state)
  {
    var a := start.authority.value;
    var now := a.expires - 1;
    states, events := ResumeBegins(start, a);
    var sys := states[4];
    var x, y := OtherAccepted(sys, a);
    var f := Signing(Resuming(start, a), "n", a, start.serial);
    var z := Next(y, SignsProof(f, true, now, "a", 0));
    SignedAnyway(y, f, now, z);
    RunOn(start, states, events, Arrives(now, Offering(sys.state, a), "b", None), x);
    states, events := states + [x], events + [Arrives(now, Offering(sys.state, a), "b", None)];
    RunOn(start, states, events, Accepts(now, "b", 0), y);
    states, events := states + [y], events + [Accepts(now, "b", 0)];
    RunOn(start, states, events, SignsProof(f, true, now, "a", 0), z);
    states, events := states + [z], events + [SignsProof(f, true, now, "a", 0)];
  }

  /** At most one offer is accepted in every run if and only if `saveResume` is configured or no consumer
      holds authority to resume with. */
  lemma OneAcceptedExactly(start: State)
    requires Fresh(start)
    ensures (forall states: seq<Sys>, events: seq<Event> ::
               Run(start, states, events) ==> OneAccepted(states[|events|].state))
            <==> start.keeps || Blocked(start)
  {
    if start.keeps || Blocked(start) {
      forall states: seq<Sys>, events: seq<Event> | Run(start, states, events)
        ensures OneAccepted(states[|events|].state)
      {
        ReachableGood(start, states, events, |events|);
        CoherentIsOne(states[|events|].state);
      }
    } else {
      var states, events := TwoAccepted(start);
    }
  }

  lemma CoherentIsOne(s: State)
    requires Coherent(s)
    ensures OneAccepted(s)
  {
    forall k, m | AcceptedIn(s, k) && AcceptedIn(s, m) ensures k == m {
      assert CoherentAt(s, k) && CoherentAt(s, m);
    }
  }
}
