/** What every event of an assistance supplier does, offer by offer and field by field, and what every request is
    answered, in terms of what was held before anything due expired. */
module Offers {
  import opened Wrappers
  import opened Authorities
  import opened AssistanceSteps

  /** A new supplier is off, holds no offer, and keeps saved authority that was issued for it and has not expired. */
  lemma StartsExactly(identity: Identity, scope: string, actions: set<string>, grantMs: int, keeps: bool,
                      saved: Option<Authority>, now: int)
    ensures var s := Start(identity, scope, actions, grantMs, keeps, saved, now);
            && s.identity == identity && s.scope == scope && s.actions == actions && s.grantMs == grantMs
            && s.keeps == keeps
            && !s.enabled && !s.ready && s.epoch == 0 && s.active == None && s.offers == map[]
            && !s.committing && !s.resuming
            && s.authority == if saved.Some? && saved.value.place.application == identity.application
                                 && saved.value.place.workspace == identity.workspace
                                 && saved.value.place.supplier == identity.supplier && saved.value.place.scope == scope
                                 && now < saved.value.expires
                              then saved else None
  {
  }

  // ---- what is due -----------------------------------------------------------------------------------------

  /** The offer is live and its deadline has come. */
  predicate Lapsed(s: State, now: int, k: string) {
    k in s.offers && !s.offers[k].status.Ended? && s.offers[k].deadline <= now
  }

  predicate HolderLapsed(s: State, now: int) { s.active.Some? && Lapsed(s, now, s.active.value) }

  /** Nobody is paired once what is due is over. */
  predicate Unpaired(s: State, now: int) { s.active.None? || HolderLapsed(s, now) }

  /** What a lapse leaves: each lapsed offer is over, and with the holder's the pairing and what was retained for it. */
  lemma ExpiresExactly(s: State, now: int)
    ensures var x := Expire(s, now);
            && x == s.(offers := x.offers, active := x.active, authority := x.authority, serial := x.serial)
            && x.offers.Keys == s.offers.Keys
            && x.active == (if HolderLapsed(s, now) then None else s.active)
            && x.authority == (if HolderLapsed(s, now) then None else s.authority)
            && x.serial == s.serial + if HolderLapsed(s, now) then 1 else 0
  {
    FinishExactly(s, Due(s, now), "expired");
    assert EndsActive(s, Due(s, now)) <==> HolderLapsed(s, now);
  }

  lemma FinishExactly(s: State, tokens: set<string>, reason: string)
    ensures var t := Finish(s, tokens, reason);
            && t == s.(offers := t.offers, active := t.active, authority := t.authority, serial := t.serial)
            && t.offers.Keys == s.offers.Keys
            && t.active == (if EndsActive(s, tokens) then None else s.active)
            && t.authority == (if EndsActive(s, tokens) then None else s.authority)
            && t.serial == s.serial + if EndsActive(s, tokens) then 1 else 0
  {
  }

  lemma ExpiredAt(s: State, now: int, k: string)
    requires k in s.offers
    ensures var o := s.offers[k];
            k in Expire(s, now).offers
            && Expire(s, now).offers[k] == if Lapsed(s, now, k) then o.(status := Ended("expired")) else o
  {
    FinishedAt(s, Due(s, now), "expired", k);
  }

  // ---- the events --------------------------------------------------------------------------------------------

  /** The time at which the step first ends what is due, if it does. */
  function LooksAt(e: Event): Option<int> {
    match e
    case Looks(now) => Some(now)
    case Accepts(now, _, _) => Some(now)
    case Arrives(now, _, _, _) => Some(now)
    case Prepares(_, ok, now, _, _) => if ok then Some(now) else None
    case _ => None
  }

  /** The operator's acceptance takes effect: the offer is pending and not due, the supplier enabled and ready, and
      nobody else is paired. */
  predicate Accepting(s: State, e: Event) {
    && e.Accepts? && e.token in s.offers && s.offers[e.token].status.Pending? && e.now < s.offers[e.token].deadline
    && s.enabled && s.ready && Unpaired(s, e.now)
  }

  /** The request is for this supplier, names its consumer and is in time. */
  predicate InTime(s: State, now: int, r: Request) {
    r.version == 1 && r.identity == s.identity && r.consumer != "" && now < r.deadline
  }

  /** The request names an offer of its consumer. */
  predicate OwnOffer(s: State, r: Request) { r.token in s.offers && s.offers[r.token].consumer == r.consumer }

  /** A consumer ends its own offer. */
  predicate EndsOwn(s: State, e: Event) {
    e.Arrives? && e.r.operation.EndOp? && InTime(s, e.now, e.r) && OwnOffer(s, e.r)
  }

  /** A new offer is taken: the supplier is enabled, ready and unpaired, and holds fewer than 128. */
  predicate Offering(s: State, e: Event) {
    && e.Arrives? && e.r.operation.OfferOp? && InTime(s, e.now, e.r)
    && s.enabled && s.ready && Unpaired(s, e.now) && |s.offers| < 128
  }

  /** A resume goes through: its proof was computed, the supplier is still enabled and ready, and what it rests on was
      not replaced and has not expired. */
  predicate Resuming(s: State, e: Event) {
    && e.SignsProof? && e.f.Signing? && e.ok && s.enabled && s.ready && s.serial == e.f.serial
    && e.now < e.f.authority.expires && e.now < e.f.r.deadline
  }

  /** Everything ends at once. */
  function EndsEverything(e: Event): Option<string> {
    match e
    case Enables(on) => if on then None else Some("disabled")
    case Readies(on) => if on then None else Some("disconnected")
    case Ends(reason) => Some(reason)
    case _ => None
  }

  /** Why the step ends a live offer, if it does. */
  function WhyEnded(s: State, e: Event, k: string): Option<string>
    requires k in s.offers
  {
    if EndsEverything(e).Some? then EndsEverything(e)
    else if e.Declines? && e.token == k then Some("declined")
    else if LooksAt(e).Some? && s.offers[k].deadline <= LooksAt(e).value then Some("expired")
    else if Accepting(s, e) && k != e.token && s.offers[k].status.Pending? then Some("busy")
    else if EndsOwn(s, e) && k == e.r.token then Some("consumer ended")
    else None
  }

  /** What the step makes of an offer held before: an ended one never changes; a live one ends for its reason, is
      accepted under the next epoch for the duration granted, or stays as it is. */
  function Becomes(s: State, e: Event, k: string): Offer
    requires k in s.offers
  {
    var o := s.offers[k];
    if o.status.Ended? then o
    else if WhyEnded(s, e, k).Some? then o.(status := Ended(WhyEnded(s, e, k).value))
    else if Accepting(s, e) && k == e.token then
      o.(status := Accepted, epoch := s.epoch + 1, deadline := e.now + s.grantMs)
    else o
  }

  /** The offer the step adds, if any: a pending one for at most a minute, or a resumed one for what was left of the
      retained authority. */
  function Adds(s: State, e: Event): Option<(string, Offer)> {
    if Offering(s, e) then
      var deadline := if e.r.deadline < e.now + 60_000 then e.r.deadline else e.now + 60_000;
      Some((e.id, Offer(e.r.consumer, deadline, 0, Pending)))
    else if Resuming(s, e) then Some((e.id, Offer(e.f.r.consumer, e.f.authority.expires, s.epoch + 1, Accepted)))
    else None
  }

  ghost predicate OffersMove(s: State, e: Event, t: State) {
    && t.offers.Keys == s.offers.Keys + (if Adds(s, e).Some? then {Adds(s, e).value.0} else {})
    && (Adds(s, e).Some? ==>
          Adds(s, e).value.0 in t.offers && t.offers[Adds(s, e).value.0] == Adds(s, e).value.1)
    && forall k :: k in s.offers ==> k in t.offers && t.offers[k] == Becomes(s, e, k)
  }

  /** The holder's own offer ends. */
  predicate HolderEnds(s: State, e: Event) {
    && s.active.Some? && s.active.value in s.offers && !s.offers[s.active.value].status.Ended?
    && WhyEnded(s, e, s.active.value).Some?
  }

  /** The new grant's consumer and expiry. */
  function GrantedTo(s: State, e: Event): (string, int)
    requires Accepting(s, e) || Resuming(s, e)
  {
    if Accepting(s, e) then (s.offers[e.token].consumer, e.now + s.grantMs) else (e.f.r.consumer, e.f.authority.expires)
  }

  /** Who is paired, under which epoch, and what is retained for it: a grant is retained when the host keeps
      authorities, and forgotten with the holder's offer or when everything ends; only so is it ever replaced. */
  ghost predicate PairingMoves(s: State, e: Event, t: State) {
    var grants, over := Accepting(s, e) || Resuming(s, e), EndsEverything(e).Some? || HolderEnds(s, e);
    && t.active == (if Accepting(s, e) then Some(e.token) else if Resuming(s, e) then Some(e.id)
                    else if HolderEnds(s, e) then None else s.active)
    && t.epoch == s.epoch + (if grants then 1 else 0)
    && t.authority == (if grants && s.keeps then Some(Retained(s, e)) else if over then None else s.authority)
    && s.serial <= t.serial && (s.serial < t.serial <==> (grants && s.keeps) || over)
  }

  /** What is retained for the new grant. */
  function Retained(s: State, e: Event): Authority
    requires Accepting(s, e) || Resuming(s, e)
  {
    var (consumer, expires) := GrantedTo(s, e);
    Authority(Place(s.identity.application, s.identity.workspace, s.identity.supplier, s.scope), consumer, expires,
              e.secret)
  }

  /** Both speak only of offers, pairing, epoch and retained authority. */
  lemma MovesAlike(s: State, e: Event, t: State, u: State)
    requires u.offers == t.offers && u.active == t.active && u.epoch == t.epoch && u.authority == t.authority
    requires u.serial == t.serial
    ensures OffersMove(s, e, t) ==> OffersMove(s, e, u)
    ensures PairingMoves(s, e, t) ==> PairingMoves(s, e, u)
  {
  }

  // ---- the operator --------------------------------------------------------------------------------------------

  lemma EndAllAt(u: State, reason: string, k: string)
    requires k in u.offers
    ensures var o := u.offers[k];
            k in EndAll(u, reason).offers
            && EndAll(u, reason).offers[k] == if o.status.Ended? then o else o.(status := Ended(reason))
  {
    FinishedAt(u, u.offers.Keys, reason, k);
  }

  lemma EndsAllMoves(s: State, u: State, e: Event)
    requires EndsEverything(e).Some? && u == s.(enabled := u.enabled, ready := u.ready)
    ensures var t := EndAll(u, EndsEverything(e).value); OffersMove(s, e, t) && PairingMoves(s, e, t)
  {
    EndsAllOffers(s, u, e, EndAll(u, EndsEverything(e).value));
    FinishExactly(u, u.offers.Keys, EndsEverything(e).value);
    assert EndsActive(u, u.offers.Keys) <==> HolderEnds(s, e);
  }

  lemma EndsAllOffers(s: State, u: State, e: Event, t: State)
    requires EndsEverything(e).Some? && u.offers == s.offers && t == EndAll(u, EndsEverything(e).value)
    ensures OffersMove(s, e, t)
  {
    FinishExactly(u, u.offers.Keys, EndsEverything(e).value);
    forall k | k in s.offers ensures k in t.offers && t.offers[k] == Becomes(s, e, k) {
      EndAllAt(u, EndsEverything(e).value, k);
    }
  }

  lemma DeclinesMoves(s: State, e: Event)
    requires e.Declines?
    ensures OffersMove(s, e, Decline(s, e.token)) && PairingMoves(s, e, Decline(s, e.token))
  {
    DeclinesOffers(s, e, Decline(s, e.token));
    FinishExactly(s, {e.token}, "declined");
    assert EndsActive(s, {e.token}) <==> HolderEnds(s, e);
  }

  lemma DeclinesOffers(s: State, e: Event, t: State)
    requires e.Declines? && t == Decline(s, e.token)
    ensures OffersMove(s, e, t)
  {
    FinishExactly(s, {e.token}, "declined");
    forall k | k in s.offers ensures k in t.offers && t.offers[k] == Becomes(s, e, k) {
      FinishedAt(s, {e.token}, "declined", k);
    }
  }

  /** The step does no more than end what is due. */
  predicate OnlyLooks(s: State, e: Event) {
    LooksAt(e).Some? && !Accepting(s, e) && !EndsOwn(s, e) && !Offering(s, e)
  }

  lemma OnlyExpires(s: State, e: Event)
    requires OnlyLooks(s, e)
    ensures OffersMove(s, e, Expire(s, LooksAt(e).value)) && PairingMoves(s, e, Expire(s, LooksAt(e).value))
  {
    ExpiredOffers(s, e, Expire(s, LooksAt(e).value));
    ExpiredPairing(s, e, Expire(s, LooksAt(e).value));
  }

  lemma ExpiredPairing(s: State, e: Event, x: State)
    requires OnlyLooks(s, e) && x == Expire(s, LooksAt(e).value)
    ensures PairingMoves(s, e, x)
  {
    ExpiresExactly(s, LooksAt(e).value);
    assert HolderLapsed(s, LooksAt(e).value) <==> HolderEnds(s, e);
  }

  lemma ExpiredOffers(s: State, e: Event, x: State)
    requires OnlyLooks(s, e) && x == Expire(s, LooksAt(e).value)
    ensures OffersMove(s, e, x)
  {
    ExpiresExactly(s, LooksAt(e).value);
    forall k | k in s.offers ensures k in x.offers && x.offers[k] == Becomes(s, e, k) { ExpiredBecomes(s, e, x, k); }
  }

  lemma ExpiredBecomes(s: State, e: Event, x: State, k: string)
    requires OnlyLooks(s, e) && x == Expire(s, LooksAt(e).value) && k in s.offers
    ensures k in x.offers && x.offers[k] == Becomes(s, e, k)
  {
    ExpiredAt(s, LooksAt(e).value, k);
  }

  lemma AcceptableExactly(s: State, e: Event)
    requires e.Accepts?
    ensures Acceptable(Expire(s, e.now), e.token) <==> Accepting(s, e)
  {
    ExpiresExactly(s, e.now);
    if e.token in s.offers { ExpiredAt(s, e.now, e.token); }
  }

  lemma AcceptedAt(x: State, now: int, token: string, secret: int, k: string)
    requires Acceptable(x, token) && k in x.offers
    ensures var t, o := AcceptNow(x, now, token, secret), x.offers[k];
            k in t.offers
            && t.offers[k]
               == if k == token then o.(status := Accepted, epoch := x.epoch + 1, deadline := now + x.grantMs)
                  else if o.status.Pending? then o.(status := Ended("busy")) else o
  {
    var o := x.offers[token].(status := Accepted, epoch := x.epoch + 1, deadline := now + x.grantMs);
    var g := Grant(x, token, o, secret);
    AcceptIs(x, now, token, secret, g);
    FinishedAt(g, Pendings(g), "busy", k);
  }

  lemma AcceptedPairing(x: State, now: int, token: string, secret: int)
    requires Acceptable(x, token)
    ensures var t := AcceptNow(x, now, token, secret);
            && t.active == Some(token) && t.epoch == x.epoch + 1 && t.offers.Keys == x.offers.Keys
            && t.serial == x.serial + (if x.keeps then 1 else 0)
            && t.authority
               == if x.keeps then Some(Authority(PlaceOf(x), x.offers[token].consumer, now + x.grantMs, secret))
                  else x.authority
  {
    var o := x.offers[token].(status := Accepted, epoch := x.epoch + 1, deadline := now + x.grantMs);
    var g := Grant(x, token, o, secret);
    AcceptIs(x, now, token, secret, g);
    FinishExactly(g, Pendings(g), "busy");
    assert g.active == Some(token) && token !in Pendings(g);
  }

  lemma AcceptingMoves(s: State, e: Event, x: State, t: State)
    requires Accepting(s, e) && x == Expire(s, e.now) && t == AcceptNow(x, e.now, e.token, e.secret)
    ensures OffersMove(s, e, t) && PairingMoves(s, e, t)
  {
    AcceptableExactly(s, e);
    ExpiresExactly(s, e.now);
    AcceptedPairing(x, e.now, e.token, e.secret);
    ExpiredAt(s, e.now, e.token);
    forall k | k in s.offers ensures k in t.offers && t.offers[k] == Becomes(s, e, k) { AcceptingAt(s, e, x, t, k); }
  }

  lemma AcceptingAt(s: State, e: Event, x: State, t: State, k: string)
    requires Accepting(s, e) && x == Expire(s, e.now) && t == AcceptNow(x, e.now, e.token, e.secret) && k in s.offers
    ensures k in t.offers && t.offers[k] == Becomes(s, e, k)
  {
    AcceptableExactly(s, e);
    ExpiresExactly(s, e.now);
    ExpiredAt(s, e.now, k);
    AcceptedAt(x, e.now, e.token, e.secret, k);
  }

  lemma AcceptsMoves(s: State, e: Event)
    requires e.Accepts?
    ensures var t := Accept(s, e.now, e.token, e.secret); OffersMove(s, e, t) && PairingMoves(s, e, t)
  {
    AcceptableExactly(s, e);
    if Accepting(s, e) {
      AcceptingMoves(s, e, Expire(s, e.now), Accept(s, e.now, e.token, e.secret));
    } else {
      OnlyExpires(s, e);
    }
  }

  // ---- requests ------------------------------------------------------------------------------------------------

  lemma OfferingMoves(s: State, e: Event, x: State, t: State)
    requires Offering(s, e) && x == Expire(s, e.now) && t.active == x.active && t.epoch == x.epoch
    requires t.authority == x.authority && t.serial == x.serial && e.id !in s.offers
    requires t.offers == x.offers[e.id := Adds(s, e).value.1]
    ensures OffersMove(s, e, t) && PairingMoves(s, e, t)
  {
    ExpiresExactly(s, e.now);
    assert HolderLapsed(s, e.now) <==> HolderEnds(s, e);
    forall k | k in s.offers ensures k in t.offers && t.offers[k] == Becomes(s, e, k) { OfferingAt(s, e, x, k); }
  }

  lemma OfferingAt(s: State, e: Event, x: State, k: string)
    requires Offering(s, e) && x == Expire(s, e.now) && k in s.offers
    ensures k in x.offers && x.offers[k] == Becomes(s, e, k)
  {
    ExpiredAt(s, e.now, k);
  }

  lemma EndsOwnMoves(s: State, e: Event, x: State)
    requires EndsOwn(s, e) && x == Expire(s, e.now)
    ensures var t := Finish(x, {e.r.token}, "consumer ended"); OffersMove(s, e, t) && PairingMoves(s, e, t)
  {
    EndsOwnOffers(s, e, x, Finish(x, {e.r.token}, "consumer ended"));
    EndsOwnPairing(s, e, x, Finish(x, {e.r.token}, "consumer ended"));
  }

  lemma EndsOwnPairing(s: State, e: Event, x: State, t: State)
    requires EndsOwn(s, e) && x == Expire(s, e.now) && t == Finish(x, {e.r.token}, "consumer ended")
    ensures PairingMoves(s, e, t)
  {
    ExpiresExactly(s, e.now);
    FinishExactly(x, {e.r.token}, "consumer ended");
    ExpiredAt(s, e.now, e.r.token);
    assert HolderLapsed(s, e.now) || EndsActive(x, {e.r.token}) <==> HolderEnds(s, e);
  }

  lemma EndsOwnOffers(s: State, e: Event, x: State, t: State)
    requires EndsOwn(s, e) && x == Expire(s, e.now) && t == Finish(x, {e.r.token}, "consumer ended")
    ensures OffersMove(s, e, t)
  {
    ExpiresExactly(s, e.now);
    FinishExactly(x, {e.r.token}, "consumer ended");
    forall k | k in s.offers ensures k in t.offers && t.offers[k] == Becomes(s, e, k) { EndsOwnAt(s, e, x, t, k); }
  }

  lemma EndsOwnAt(s: State, e: Event, x: State, t: State, k: string)
    requires EndsOwn(s, e) && x == Expire(s, e.now) && t == Finish(x, {e.r.token}, "consumer ended") && k in s.offers
    ensures k in t.offers && t.offers[k] == Becomes(s, e, k)
  {
    ExpiredAt(s, e.now, k);
    FinishedAt(x, {e.r.token}, "consumer ended", k);
  }

  lemma ResumingMoves(s: State, e: Event, t: State)
    requires Resuming(s, e) && e.id !in s.offers && t == Signed(s, e.f, e.ok, e.now, e.id, e.secret).state
    ensures OffersMove(s, e, t) && PairingMoves(s, e, t)
  {
  }

  /** A resume is let in: unpaired from the start, none under way, and the consumer's retained authority unexpired. */
  predicate Opens(s: State, now: int, r: Request) {
    && InTime(s, now, r) && r.operation.ResumeOp? && r.operation.signed.Some? && |r.operation.signed.value.0| <= 128
    && s.enabled && s.ready && s.active.None? && !s.resuming
    && s.authority.Some? && s.authority.value.consumer == r.consumer && now < s.authority.value.expires
  }

  /** An invocation is let in: permitted, none under way, its action known, and what it expects just observed. */
  predicate Starts(s: State, now: int, r: Request, read: Option<Observation>) {
    && InTime(s, now, r) && OwnOffer(s, r) && MayCommit(s, now, r) && !s.committing
    && r.operation.InvokeOp? && r.operation.input.Some? && r.operation.input.value.action in s.actions
    && read.Some? && r.operation.input.value.expected == read
  }

  /** The status of an offer: over and why, or on what terms it stands, with what is retained for the holder. */
  function StatusTold(s: State, now: int, token: string): Reply
    requires token in s.offers
  {
    var o := s.offers[token];
    match OverFor(s, now, token)
    case Some(reason) => EndedReply(token, reason)
    case None =>
      GrantReply(token, o.status.Accepted?, o.epoch, o.deadline, if s.active == Some(token) then s.authority else None,
                 None)
  }

  function InvokeAnswer(s: State, r: Request, input: Option<Invocation>, read: Option<Observation>): Option<Reply> {
    if s.committing then Some(Busy)
    else if input.None? then Some(Invalid)
    else if input.value.action !in s.actions then Some(Unsupported)
    else if read.Some? && input.value.expected != read then Some(Conflict)
    else None
  }

  /** What a new offer is answered: the offer's own status, when it is taken. */
  function OfferAnswer(s: State, now: int, r: Request, id: string): Reply {
    if !s.enabled || !s.ready then Unavailable
    else if !Unpaired(s, now) then Busy
    else if |s.offers| >= 128 then Unavailable
    else GrantReply(id, false, 0, if r.deadline < now + 60_000 then r.deadline else now + 60_000, None, None)
  }

  /** What a request about an offer of its own is answered. */
  function OwnAnswer(s: State, now: int, r: Request, read: Option<Observation>): Option<Reply>
    requires OwnOffer(s, r)
  {
    if OverFor(s, now, r.token).Some? then Some(EndedReply(r.token, OverFor(s, now, r.token).value))
    else if r.operation.EndOp? then Some(EndedReply(r.token, "consumer ended"))
    else if r.operation.StatusOp? then Some(StatusTold(s, now, r.token))
    else if !MayCommit(s, now, r) then Some(Refused)
    else if r.operation.ReadOp? then Some(if read.Some? then Observed(read.value) else Refused)
    else if r.operation.InvokeOp? then InvokeAnswer(s, r, r.operation.input, read)
    else Some(Unsupported)
  }

  /** What a request is answered when it arrives; nothing while it waits, or when the provider's read throws. */
  function AnswerTo(s: State, now: int, r: Request, id: string, read: Option<Observation>): Option<Reply> {
    if !(r.version == 1 && r.identity == s.identity && r.consumer != "") then Some(Refused)
    else if r.deadline <= now then Some(ExpiredReply)
    else if r.operation.ResumeOp? then if Opens(s, now, r) then None else Some(Refused)
    else if r.operation.OfferOp? then Some(OfferAnswer(s, now, r, id))
    else if !OwnOffer(s, r) then Some(Refused)
    else OwnAnswer(s, now, r, read)
  }

  function WaitsAs(s: State, now: int, r: Request, read: Option<Observation>): Option<Frame> {
    if Opens(s, now, r) then
      Some(Checking(r, r.operation.signed.value.0, r.operation.signed.value.1, s.authority.value, s.serial))
    else if Starts(s, now, r, read) then Some(Preparing(r, r.operation.input.value.action, read.value))
    else None
  }

  lemma LiveAfter(s: State, now: int, token: string)
    requires token in s.offers
    ensures var x := Expire(s, now);
            && token in x.offers && x.offers[token].consumer == s.offers[token].consumer
            && StatusOf(x, token) == StatusTold(s, now, token)
            && (x.offers[token].status.Ended? <==> OverFor(s, now, token).Some?)
            && (OverFor(s, now, token).None? ==> x.offers[token] == s.offers[token])
  {
    ExpiresExactly(s, now);
    ExpiredAt(s, now, token);
  }

  lemma SizeKept(s: State, now: int)
    ensures |Expire(s, now).offers| == |s.offers|
  {
    ExpiresExactly(s, now);
    assert |s.offers.Keys| == |s.offers|;
    assert |Expire(s, now).offers.Keys| == |Expire(s, now).offers|;
  }

  lemma ResumeAnswered(s: State, now: int, r: Request, x: State, o: Outcome)
    requires InTime(s, now, r) && r.operation.ResumeOp? && x == Expire(s, now)
    requires o == ReceiveResume(x, now, r, r.operation.signed)
    ensures o.reply == (if Opens(s, now, r) then None else Some(Refused)) && o.frame == WaitsAs(s, now, r, None)
    ensures o.state == x.(resuming := x.resuming || Opens(s, now, r))
  {
    ExpiresExactly(s, now);
  }

  lemma OfferAnswered(s: State, now: int, r: Request, id: string, x: State, o: Outcome)
    requires InTime(s, now, r) && r.operation.OfferOp? && x == Expire(s, now) && id !in s.offers
    requires o == ReceiveOffer(x, now, r, id)
    ensures o.reply == AnswerTo(s, now, r, id, None) && o.frame == None
    ensures var e := Arrives(now, r, id, None);
            o.state == if Offering(s, e) then x.(offers := x.offers[id := Adds(s, e).value.1]) else x
  {
    ExpiresExactly(s, now);
    SizeKept(s, now);
  }

  lemma EndAnswered(s: State, now: int, r: Request, x: State)
    requires InTime(s, now, r) && OwnOffer(s, r) && r.operation.EndOp? && x == Expire(s, now)
    ensures var t := Finish(x, {r.token}, "consumer ended");
            r.token in t.offers && Some(StatusOf(t, r.token)) == AnswerTo(s, now, r, "", None)
  {
    LiveAfter(s, now, r.token);
    FinishedAt(x, {r.token}, "consumer ended", r.token);
  }

  lemma InvokeAnswered(s: State, now: int, r: Request, read: Option<Observation>, x: State, o: Outcome)
    requires InTime(s, now, r) && OwnOffer(s, r) && MayCommit(s, now, r) && r.operation.InvokeOp? && x == Expire(s, now)
    requires o == ReceiveInvoke(x, r, r.operation.input, read)
    ensures o.reply == InvokeAnswer(s, r, r.operation.input, read) && o.frame == WaitsAs(s, now, r, read)
    ensures o.state == x.(committing := x.committing || Starts(s, now, r, read))
  {
    ExpiresExactly(s, now);
  }

  /** A request that neither offers, ends nor waits leaves what expiring leaves. */
  lemma PlainAnswered(s: State, now: int, r: Request, id: string, read: Option<Observation>, x: State, o: Outcome)
    requires InTime(s, now, r) && OwnOffer(s, r) && x == Expire(s, now) && o == ReceiveNow(x, now, r, id, read)
    requires r.operation.StatusOp? || r.operation.ReadOp? || r.operation.OtherOp?
             || (r.operation.InvokeOp? && !MayCommit(s, now, r))
    ensures o == Outcome(x, None, AnswerTo(s, now, r, id, read)) && WaitsAs(s, now, r, read) == None
  {
    LiveAfter(s, now, r.token);
    PermittedExactly(s, now, r);
    ExpiresExactly(s, now);
  }

  /** What the arrival of a request leaves: the answer, or what it waits as, and the state. */
  ghost predicate Answered(s: State, e: Event, o: Outcome)
    requires e.Arrives?
  {
    && o.reply == AnswerTo(s, e.now, e.r, e.id, e.read) && o.frame == WaitsAs(s, e.now, e.r, e.read)
    && OffersMove(s, e, o.state) && PairingMoves(s, e, o.state)
    && o.state.resuming == (s.resuming || Opens(s, e.now, e.r))
    && o.state.committing == (s.committing || Starts(s, e.now, e.r, e.read))
    && SameSetting(s, o.state)
  }

  /** Nothing of the configuration changed, nor the operator's switches. */
  predicate SameSetting(s: State, t: State) {
    && t.identity == s.identity && t.scope == s.scope && t.actions == s.actions && t.grantMs == s.grantMs
    && t.keeps == s.keeps && t.enabled == s.enabled && t.ready == s.ready
  }

  lemma UnansweredOrLate(s: State, now: int, r: Request, id: string, read: Option<Observation>, x: State, o: Outcome)
    requires x == Expire(s, now) && o == ReceiveNow(x, now, r, id, read)
    requires !InTime(s, now, r) || (!r.operation.ResumeOp? && !r.operation.OfferOp? && !OwnOffer(s, r))
    ensures o == Outcome(x, None, AnswerTo(s, now, r, id, read)) && WaitsAs(s, now, r, read) == None
  {
    ExpiresExactly(s, now);
    if r.token in s.offers { LiveAfter(s, now, r.token); }
  }

  lemma KeepsSetting(s: State, now: int)
    ensures SameSetting(s, Expire(s, now)) && SameFlags(s, Expire(s, now))
  {
    ExpiresExactly(s, now);
  }

  /** The requests that change no more than what expiring does, flags aside. */
  lemma QuietAnswered(s: State, e: Event, x: State, o: Outcome)
    requires e.Arrives? && OnlyLooks(s, e) && x == Expire(s, e.now)
    requires o.state == x.(resuming := s.resuming || Opens(s, e.now, e.r),
                           committing := s.committing || Starts(s, e.now, e.r, e.read))
    requires o.reply == AnswerTo(s, e.now, e.r, e.id, e.read) && o.frame == WaitsAs(s, e.now, e.r, e.read)
    ensures Answered(s, e, o)
  {
    OnlyExpires(s, e);
    MovesAlike(s, e, x, o.state);
    KeepsSetting(s, e.now);
  }

  lemma OfferArrives(s: State, e: Event, x: State, o: Outcome)
    requires e.Arrives? && InTime(s, e.now, e.r) && e.r.operation.OfferOp? && e.id !in s.offers
    requires x == Expire(s, e.now) && o == ReceiveOffer(x, e.now, e.r, e.id)
    ensures Answered(s, e, o)
  {
    OfferAnswered(s, e.now, e.r, e.id, x, o);
    KeepsSetting(s, e.now);
    if Offering(s, e) { OfferingMoves(s, e, x, o.state); } else { OnlyExpires(s, e); }
  }

  lemma EndArrives(s: State, e: Event, x: State, o: Outcome)
    requires EndsOwn(s, e) && x == Expire(s, e.now) && o == ReceiveNow(x, e.now, e.r, e.id, e.read)
    ensures Answered(s, e, o)
  {
    LiveAfter(s, e.now, e.r.token);
    ExpiresExactly(s, e.now);
    EndAnswered(s, e.now, e.r, x);
    EndsOwnMoves(s, e, x);
    FinishExactly(x, {e.r.token}, "consumer ended");
  }

  lemma InvokeArrives(s: State, e: Event, x: State, o: Outcome)
    requires e.Arrives? && InTime(s, e.now, e.r) && OwnOffer(s, e.r) && e.r.operation.InvokeOp?
    requires MayCommit(s, e.now, e.r) && x == Expire(s, e.now) && o == ReceiveNow(x, e.now, e.r, e.id, e.read)
    ensures Answered(s, e, o)
  {
    LiveAfter(s, e.now, e.r.token);
    PermittedExactly(s, e.now, e.r);
    ExpiresExactly(s, e.now);
    InvokeAnswered(s, e.now, e.r, e.read, x, o);
    QuietAnswered(s, e, x, o);
  }

  lemma ResumeArrives(s: State, e: Event, x: State, o: Outcome)
    requires e.Arrives? && InTime(s, e.now, e.r) && e.r.operation.ResumeOp?
    requires x == Expire(s, e.now) && o == ReceiveResume(x, e.now, e.r, e.r.operation.signed)
    ensures Answered(s, e, o)
  {
    ResumeAnswered(s, e.now, e.r, x, o);
    ExpiresExactly(s, e.now);
    QuietAnswered(s, e, x, o);
  }

  /** Every request is answered, waits and changes what is held exactly as spelled out here, though the supplier
      first lets expire what is due and only then reads the request. */
  lemma ArrivesExactly(s: State, e: Event)
    requires e.Arrives? && e.id !in s.offers
    ensures Answered(s, e, Receive(s, e.now, e.r, e.id, e.read))
  {
    var x, o, op := Expire(s, e.now), Receive(s, e.now, e.r, e.id, e.read), e.r.operation;
    KeepsSetting(s, e.now);
    if !InTime(s, e.now, e.r) || (!op.ResumeOp? && !op.OfferOp? && !OwnOffer(s, e.r)) {
      UnansweredOrLate(s, e.now, e.r, e.id, e.read, x, o);
      QuietAnswered(s, e, x, o);
    } else if op.ResumeOp? {
      ResumeArrives(s, e, x, o);
    } else if op.OfferOp? {
      OfferArrives(s, e, x, o);
    } else if op.EndOp? {
      EndArrives(s, e, x, o);
    } else if op.InvokeOp? && MayCommit(s, e.now, e.r) {
      InvokeArrives(s, e, x, o);
    } else {
      PlainAnswered(s, e.now, e.r, e.id, e.read, x, o);
      QuietAnswered(s, e, x, o);
    }
  }

  // ---- resumes and preparations ----------------------------------------------------------------------------------

  /** The request's proof is right. */
  predicate ProofRight(s: State, e: Event) {
    && e.ChecksProof? && e.f.Checking? && e.ok
    && e.f.claimed == Proof(e.f.authority.secret, "request", s.identity, e.f.r.consumer, e.f.nonce)
  }

  /** A resume goes on only with the right proof, and is refused otherwise. */
  lemma ChecksExactly(s: State, e: Event)
    requires e.ChecksProof? && e.f.Checking?
    ensures var o := Checked(s, e.f, e.ok);
            && o.reply == (if ProofRight(s, e) then None else Some(Refused))
            && o.frame
               == (if ProofRight(s, e) then Some(Signing(e.f.r, e.f.nonce, e.f.authority, e.f.serial)) else None)
            && o.state == s.(resuming := s.resuming && ProofRight(s, e))
  {
  }

  /** It is granted exactly when nothing it rests on changed, under the next epoch, with the retained expiry and the
      response's proof. */
  lemma SignsExactly(s: State, e: Event)
    requires e.SignsProof? && e.f.Signing? && e.id !in s.offers
    ensures var o := Signed(s, e.f, e.ok, e.now, e.id, e.secret);
            && o.frame == None && OffersMove(s, e, o.state) && PairingMoves(s, e, o.state) && !o.state.resuming
            && o.state.committing == s.committing && SameSetting(s, o.state)
            && o.reply
               == Some(
                    if Resuming(s, e) then
                      GrantReply(e.id, true, s.epoch + 1, e.f.authority.expires, o.state.authority,
                                 Some(Proof(e.f.authority.secret, "response", s.identity, e.f.r.consumer, e.f.nonce)))
                    else Refused)
  {
    var t := Signed(s, e.f, e.ok, e.now, e.id, e.secret).state;
    if Resuming(s, e) { ResumingMoves(s, e, t); } else { StaysPut(s, e, t); }
  }

  /** A settled preparation leaves what expiring leaves, or everything when it failed, and no invocation under way. */
  lemma PreparesExactly(s: State, e: Event)
    requires e.Prepares? && e.f.Preparing?
    ensures var o := Prepared(s, e.f, e.ok, e.now, e.read, e.throws).0;
            && o.frame == None && OffersMove(s, e, o.state) && PairingMoves(s, e, o.state) && !o.state.committing
            && o.state.resuming == s.resuming && SameSetting(s, o.state)
  {
    KeepsSetting(s, e.now);
    PreparedState(s, e.f, e.ok, e.now, e.read, e.throws);
    if e.ok {
      OnlyExpires(s, e);
      MovesAlike(s, e, Expire(s, e.now), Prepared(s, e.f, e.ok, e.now, e.read, e.throws).0.state);
    } else {
      StaysPut(s, e, s.(committing := false));
    }
  }

  lemma SwitchesExactly(s: State, on: bool)
    ensures OffersMove(s, Enables(on), Enable(s, on)) && PairingMoves(s, Enables(on), Enable(s, on))
    ensures OffersMove(s, Readies(on), SetReady(s, on)) && PairingMoves(s, Readies(on), SetReady(s, on))
  {
    if on {
      StaysPut(s, Enables(on), Enable(s, on));
      StaysPut(s, Readies(on), SetReady(s, on));
    } else {
      EndsAllMoves(s, s.(enabled := false), Enables(on));
      EndsAllMoves(s, s.(ready := false), Readies(on));
    }
  }

  /** The step neither ends nor grants anything. */
  predicate Idle(s: State, e: Event) {
    EndsEverything(e).None? && LooksAt(e).None? && !e.Declines? && !Resuming(s, e)
  }

  lemma StaysPut(s: State, e: Event, t: State)
    requires Idle(s, e)
    requires t.offers == s.offers && t.active == s.active && t.epoch == s.epoch && t.authority == s.authority
    requires t.serial == s.serial
    ensures OffersMove(s, e, t) && PairingMoves(s, e, t)
  {
  }

  /** In every run every step does to every offer, to the pairing and to what is retained exactly what its event calls
      for. */
  lemma StepsExactly(start: State, states: seq<Sys>, events: seq<Event>, k: nat)
    requires Run(start, states, events) && k < |events|
    ensures OffersMove(states[k].state, events[k], states[k + 1].state)
    ensures PairingMoves(states[k].state, events[k], states[k + 1].state)
  {
    StepExactly(states[k], events[k], states[k + 1]);
  }

  /** In every run every request that arrives is answered as spelled out, or waits. */
  lemma ArrivalsAnswered(start: State, states: seq<Sys>, events: seq<Event>, k: nat)
    requires Run(start, states, events) && k < |events| && events[k].Arrives?
    ensures Step(states[k], events[k], states[k + 1])
    ensures var s, e := states[k].state, events[k];
            var reply, frame := AnswerTo(s, e.now, e.r, e.id, e.read), WaitsAs(s, e.now, e.r, e.read);
            && Said(states[k], e) == (if reply.Some? then Some((e.r, reply.value)) else None)
            && states[k + 1].frames
               == states[k].frames + if frame.Some? then multiset{frame.value} else multiset{}
  {
    assert Step(states[k], events[k], states[k + 1]);
    ArrivesExactly(states[k].state, events[k]);
  }

  lemma StepExactly(sys: Sys, e: Event, next: Sys)
    requires Step(sys, e, next)
    ensures OffersMove(sys.state, e, next.state) && PairingMoves(sys.state, e, next.state)
  {
    var s := sys.state;
    match e
    case Arrives(_, _, _, _) => ArrivesExactly(s, e);
    case ChecksProof(_, _) => ChecksExactly(s, e);
    case SignsProof(_, _, _, _, _) => SignsExactly(s, e);
    case Prepares(_, _, _, _, _) => PreparesExactly(s, e);
    case Enables(on) => SwitchesExactly(s, on);
    case Readies(on) => SwitchesExactly(s, on);
    case Accepts(_, _, _) => AcceptsMoves(s, e);
    case Declines(_) => DeclinesMoves(s, e);
    case Ends(_) => EndsAllMoves(s, s, e);
    case Looks(_) => OnlyExpires(s, e);
  }

  lemma EndAllSetting(u: State, reason: string)
    ensures SameSetting(u, EndAll(u, reason)) && SameFlags(u, EndAll(u, reason))
  {
    FinishExactly(u, u.offers.Keys, reason);
  }

  lemma AcceptSetting(s: State, now: int, token: string, secret: int)
    ensures SameSetting(s, Accept(s, now, token, secret)) && SameFlags(s, Accept(s, now, token, secret))
  {
    var x := Expire(s, now);
    KeepsSetting(s, now);
    if Acceptable(x, token) {
      var o := x.offers[token].(status := Accepted, epoch := x.epoch + 1, deadline := now + x.grantMs);
      var g := Grant(x, token, o, secret);
      AcceptIs(x, now, token, secret, g);
      FinishExactly(g, Pendings(g), "busy");
    }
  }

  /** The operator's switches are what they were last set to; no operator's call touches a request under way. */
  lemma OperatorSetting(sys: Sys, e: Event, next: Sys)
    requires Step(sys, e, next)
    requires e.Enables? || e.Readies? || e.Accepts? || e.Declines? || e.Ends? || e.Looks?
    ensures next.state.enabled == (if e.Enables? then e.on else sys.state.enabled)
    ensures next.state.ready == (if e.Readies? then e.on else sys.state.ready)
    ensures SameSetting(sys.state, next.state.(enabled := sys.state.enabled, ready := sys.state.ready))
    ensures SameFlags(sys.state, next.state) && next.frames == sys.frames && next.commits == sys.commits
  {
    var s := sys.state;
    match e
    case Enables(on) => if !on { EndAllSetting(s.(enabled := false), "disabled"); }
    case Readies(on) => if !on { EndAllSetting(s.(ready := false), "disconnected"); }
    case Accepts(now, token, secret) => AcceptSetting(s, now, token, secret);
    case Declines(token) => FinishExactly(s, {token}, "declined");
    case Ends(reason) => EndAllSetting(s, reason);
    case Looks(now) => KeepsSetting(s, now);
  }
}
