/** A supplier as a state machine whose steps are the stretches of code between awaits: what each step does,
    and what every interleaving of acks, failures, drops, timers and detaches keeps. */
module SupplierSteps {
  import opened Wrappers

  /** A serving; `installed` are the generations captured by the handlers the session still holds for it,
      `hook` is the one its unsubscribe would remove, `served` the generations `onServe` was called for. */
  datatype ServingState = ServingState(share: bool, generation: nat, detached: bool, hook: Option<nat>,
                                       installed: multiset<nat>, served: seq<nat>)

  /** The async function a suspended frame belongs to. */
  datatype Caller = One | All

  /** A suspended frame: awaiting the hello, awaiting the subscribe's ack for a generation, or with the
      attach settled and the caller yet to resume. `Greeting(All)` carries no serving. */
  datatype Frame =
    | Greeting(s: nat)
    | GreetingAll
    | Subscribing(caller: Caller, s: nat, generation: nat)
    | Resuming(caller: Caller, s: nat, threw: bool)

  datatype Core = Core(servings: seq<ServingState>, registered: set<nat>, timers: set<nat>, cancel: Option<nat>,
                       nextTimer: nat, attempt: nat, helloed: bool, detached: bool, hellos: nat)

  const NEW_CORE: Core := Core([], {}, {}, None, 0, 0, false, false, 0)

  // ---- a serving ------------------------------------------------------------------------------------

  function Unhooked(x: ServingState): ServingState {
    x.(hook := None, installed := if x.hook.Some? then x.installed - multiset{x.hook.value} else x.installed)
  }

  /** `attach` up to its await, and the generation it then waits for. */
  function Attach(x: ServingState): (ServingState, Option<nat>) {
    if x.detached then (x, None)
    else (Unhooked(x).(generation := x.generation + 1), Some(x.generation + 1))
  }

  predicate Current(x: ServingState, g: nat) { !x.detached && g == x.generation }

  /** The ack of generation `g`. */
  function Acked(x: ServingState, g: nat): ServingState {
    if !Current(x, g) then x
    else
      var served := if x.share then x.served + [g] else x.served;
      x.(hook := Some(g), installed := x.installed + multiset{g}, served := served)
  }

  function Dropped(x: ServingState): ServingState { x.(generation := x.generation + 1, hook := None) }

  function Detached(x: ServingState): ServingState { Unhooked(x).(detached := true, generation := x.generation + 1) }

  // ---- the supplier ----------------------------------------------------------------------------------

  predicate ValidCore(c: Core) {
    && (forall s :: s in c.registered ==> s < |c.servings|)
    && (forall s :: 0 <= s < |c.servings| ==> (s in c.registered <==> !c.servings[s].detached))
    && (forall t :: t in c.timers ==> t < c.nextTimer)
    && (c.cancel.Some? ==> c.cancel.value < c.nextTimer)
  }

  function Scheduled(c: Core): Core {
    if c.detached then c
    else c.(timers := c.timers + {c.nextTimer}, cancel := Some(c.nextTimer), nextTimer := c.nextTimer + 1)
  }

  function BeginAttach(c: Core, caller: Caller, s: nat): (Core, Option<Frame>)
    requires s < |c.servings|
  {
    var (x, g) := Attach(c.servings[s]);
    (c.(servings := c.servings[s := x]),
        Some(if g.Some? then Subscribing(caller, s, g.value) else Resuming(caller, s, false)))
  }

  /** The first registered serving from `from` on, in registration order. */
  function NextRegistered(registered: set<nat>, from: nat, n: nat): (r: Option<nat>)
    requires forall s :: s in registered ==> s < n
    ensures r.Some? ==> from <= r.value && r.value in registered
    ensures r.Some? ==> forall s :: s in registered && from <= s ==> r.value <= s
    ensures r.None? ==> forall s :: s in registered ==> s < from
    decreases n - from
  {
    if n <= from then None else if from in registered then Some(from) else NextRegistered(registered, from + 1, n)
  }

  /** `reattachAll`'s loop from `from` on. */
  function Continue(c: Core, from: nat): (Core, Option<Frame>)
    requires ValidCore(c)
  {
    match NextRegistered(c.registered, from, |c.servings|)
    case Some(s) => BeginAttach(c, All, s)
    case None => (c.(attempt := 0), None)
  }

  /** `ensureHello` up to its await: a connection is greeted once. */
  function Hello(c: Core): Core {
    if c.helloed then c else c.(helloed := true, hellos := c.hellos + 1)
  }

  function Enlisted(c: Core, share: bool): Core {
    c.(servings := c.servings + [ServingState(share, 0, false, None, multiset{}, [])],
       registered := c.registered + {|c.servings|})
  }

  /** A new serving is registered and `attachOne` runs up to its first await. */
  function Register(c: Core, share: bool): (Core, Option<Frame>) {
    var s := |c.servings|;
    (Hello(Enlisted(c, share)), Some(Greeting(s)))
  }

  /** A frame awaiting something already settled runs up to its next await, or ends. */
  function Resume(c: Core, f: Frame): (Core, Option<Frame>)
    requires ValidCore(c) && !f.Subscribing? && (f.GreetingAll? || f.s < |c.servings|)
  {
    match f
    case Greeting(s) => BeginAttach(c, One, s)
    case GreetingAll => Continue(c, 0)
    case Resuming(One, s, threw) =>
      (if !threw then c.(attempt := 0) else if s in c.registered then Scheduled(c) else c, None)
    case Resuming(All, s, threw) =>
      if !threw then Continue(c, s + 1) else (Scheduled(c.(attempt := c.attempt + 1, helloed := false)), None)
  }

  /** The subscribe of a frame is acked, `onServe` throwing or not, or rejected. */
  function Settle(c: Core, f: Frame, ok: bool, serveThrows: bool): (Core, Option<Frame>)
    requires f.Subscribing? && f.s < |c.servings|
  {
    var x := c.servings[f.s];
    if ok then
      (c.(servings := c.servings[f.s := Acked(x, f.generation)]),
       Some(Resuming(f.caller, f.s, Current(x, f.generation) && x.share && serveThrows)))
    else (c, Some(Resuming(f.caller, f.s, Current(x, f.generation))))
  }

  /** A reattach timer fires: `reattachAll` runs up to its first await. */
  function Fire(c: Core, t: nat): (Core, Option<Frame>) {
    var d := c.(timers := c.timers - {t});
    if c.detached then (d, None) else (Hello(d), Some(GreetingAll))
  }

  function DropAll(c: Core): Core {
    if c.detached then c
    else
      Scheduled(c.(servings := MapRegistered(c.servings, c.registered, Dropped), helloed := false, attempt := 0))
  }

  function MapRegistered(servings: seq<ServingState>, registered: set<nat>,
                         f: ServingState -> ServingState): (r: seq<ServingState>)
    ensures |r| == |servings|
    ensures forall s :: 0 <= s < |r| ==> r[s] == if s in registered then f(servings[s]) else servings[s]
  {
    seq(|servings|, s requires 0 <= s < |servings| => if s in registered then f(servings[s]) else servings[s])
  }

  /** A registration handle's `detach`. */
  function DetachOne(c: Core, s: nat): Core
    requires s < |c.servings|
  {
    c.(registered := c.registered - {s}, servings := c.servings[s := Detached(c.servings[s])])
  }

  function DetachAll(c: Core): Core {
    c.(detached := true, timers := if c.cancel.Some? then c.timers - {c.cancel.value} else c.timers, cancel := None,
       servings := MapRegistered(c.servings, c.registered, Detached), registered := {})
  }

  // ---- interleavings --------------------------------------------------------------------------------

  datatype Sys = Sys(core: Core, frames: multiset<Frame>)

  const START: Sys := Sys(NEW_CORE, multiset{})

  datatype Event =
    | Serve(share: bool)
    | Detaches(s: nat)
    | DetachesAll
    | Drops
    | Fires(t: nat)
    | Resumes(f: Frame)
    | Settles(f: Frame, ok: bool, serveThrows: bool)

  predicate Enabled(sys: Sys, e: Event) {
    match e
    case Serve(_) => true
    case Detaches(s) => s < |sys.core.servings|
    case DetachesAll => true
    case Drops => true
    case Fires(t) => t in sys.core.timers
    case Resumes(f) => f in sys.frames && !f.Subscribing?
    case Settles(f, _, _) => f in sys.frames && f.Subscribing?
  }

  /** Frames only mention servings that exist. */
  predicate ValidSys(sys: Sys) {
    && ValidCore(sys.core)
    && forall f :: f in sys.frames && !f.GreetingAll? ==> f.s < |sys.core.servings|
  }

  function Then(frames: multiset<Frame>, r: (Core, Option<Frame>)): Sys {
    Sys(r.0, if r.1.Some? then frames + multiset{r.1.value} else frames)
  }

  function Next(sys: Sys, e: Event): Sys
    requires ValidSys(sys) && Enabled(sys, e)
  {
    match e
    case Serve(share) => Then(sys.frames, Register(sys.core, share))
    case Detaches(s) => sys.(core := DetachOne(sys.core, s))
    case DetachesAll => sys.(core := DetachAll(sys.core))
    case Drops => sys.(core := DropAll(sys.core))
    case Fires(t) => Then(sys.frames, Fire(sys.core, t))
    case Resumes(f) => Then(sys.frames - multiset{f}, Resume(sys.core, f))
    case Settles(f, ok, serveThrows) => Then(sys.frames - multiset{f}, Settle(sys.core, f, ok, serveThrows))
  }

  // ---- what every interleaving keeps -----------------------------------------------------------------

  /** How many frames wait for the ack of generation `g` of serving `s`. */
  function InFlight(frames: multiset<Frame>, s: nat, g: nat): nat {
    frames[Subscribing(One, s, g)] + frames[Subscribing(All, s, g)]
  }

  /** Nothing is installed or awaited for a future generation; for the current one at most one handler is
      installed or awaited; the unsubscribe held, if any, is that of the current generation. */
  ghost predicate Fenced(frames: multiset<Frame>, x: ServingState, s: nat) {
    && (forall g :: g in x.installed ==> g <= x.generation)
    && (forall g: nat :: InFlight(frames, s, g) > 0 ==> g <= x.generation)
    && InFlight(frames, s, x.generation) + x.installed[x.generation] <= 1
    && (if x.generation in x.installed then x.hook == Some(x.generation) && !x.detached else x.hook == None)
  }

  ghost predicate Good(sys: Sys) {
    ValidSys(sys) && AllFenced(sys.frames, sys.core.servings)
  }

  /** Work on serving `s` is still going on somewhere: it is hooked at its current generation, its ack is
      awaited, a running `attachOne` or `reattachAll` is still to reach it or to schedule a retry, or a
      reattach timer is pending. */
  ghost predicate Tended(sys: Sys, s: nat)
    requires s < |sys.core.servings|
  {
    var x := sys.core.servings[s];
    || x.hook == Some(x.generation)
    || InFlight(sys.frames, s, x.generation) > 0
    || StillToReach(sys.frames, s)
    || sys.core.timers != {}
  }

  ghost predicate StillToReach(frames: multiset<Frame>, s: nat) {
    exists f :: f in frames && Reaches(f, s)
  }

  /** The frame will attach `s`, or schedule a retry, before it ends. */
  predicate Reaches(f: Frame, s: nat) {
    match f
    case Greeting(r) => r == s
    case GreetingAll => true
    case Subscribing(All, r, _) => r < s
    case Subscribing(One, _, _) => false
    case Resuming(One, r, threw) => r == s && threw
    case Resuming(All, r, threw) => threw || r < s
  }

  ghost predicate Progress(sys: Sys) {
    forall s :: s in sys.core.registered && s < |sys.core.servings| ==> Tended(sys, s)
  }

  predicate Awaits(f: Frame, s: nat, g: nat) {
    f.Subscribing? && f.s == s && f.generation == g
  }

  lemma InFlightAdd(frames: multiset<Frame>, f: Frame, s: nat, g: nat)
    ensures InFlight(frames + multiset{f}, s, g) == InFlight(frames, s, g) + if Awaits(f, s, g) then 1 else 0
  {
    assert Awaits(f, s, g) ==> f == Subscribing(f.caller, s, g) && (f.caller == One || f.caller == All);
  }

  lemma InFlightRemove(frames: multiset<Frame>, f: Frame, s: nat, g: nat)
    requires f in frames
    ensures InFlight(frames - multiset{f}, s, g) == InFlight(frames, s, g) - if Awaits(f, s, g) then 1 else 0
  {
    InFlightAdd(frames - multiset{f}, f, s, g);
    assert frames - multiset{f} + multiset{f} == frames;
  }

  /** A frame that awaits nothing of `s` may come or go. */
  lemma FencedAdd(frames: multiset<Frame>, f: Frame, x: ServingState, s: nat)
    requires Fenced(frames, x, s) && !(f.Subscribing? && f.s == s)
    ensures Fenced(frames + multiset{f}, x, s)
  {
    forall g: nat
      ensures InFlight(frames + multiset{f}, s, g) == InFlight(frames, s, g)
    {
      InFlightAdd(frames, f, s, g);
    }
  }

  lemma FencedRemove(frames: multiset<Frame>, f: Frame, x: ServingState, s: nat)
    requires Fenced(frames, x, s) && f in frames
    ensures Fenced(frames - multiset{f}, x, s)
  {
    forall g: nat
      ensures InFlight(frames - multiset{f}, s, g) <= InFlight(frames, s, g)
    {
      InFlightRemove(frames, f, s, g);
    }
  }

  lemma FencedAttach(frames: multiset<Frame>, x: ServingState, s: nat, caller: Caller)
    requires Fenced(frames, x, s)
    ensures var (y, g) := Attach(x);
            Fenced(frames + multiset{if g.Some? then Subscribing(caller, s, g.value) else Resuming(caller, s, false)},
                y, s)
  {
    if x.detached {
      FencedAdd(frames, Resuming(caller, s, false), x, s);
    } else {
      FencedNext(frames, x, s, Subscribing(caller, s, x.generation + 1));
    }
  }

  lemma FencedNext(frames: multiset<Frame>, x: ServingState, s: nat, f: Frame)
    requires Fenced(frames, x, s) && !x.detached && Awaits(f, s, x.generation + 1)
    ensures Fenced(frames + multiset{f}, Attach(x).0, s)
  {
    assert InFlight(frames, s, x.generation + 1) == 0;
    forall g: nat
      ensures InFlight(frames + multiset{f}, s, g) == InFlight(frames, s, g) + if g == x.generation + 1 then 1 else 0
    {
      InFlightAdd(frames, f, s, g);
    }
  }

  lemma FencedBump(frames: multiset<Frame>, x: ServingState, s: nat)
    requires Fenced(frames, x, s)
    ensures Fenced(frames, Dropped(x), s) && Fenced(frames, Detached(x), s)
  {
    assert InFlight(frames, s, x.generation + 1) == 0;
  }

  lemma FencedAck(frames: multiset<Frame>, f: Frame, x: ServingState)
    requires f.Subscribing? && Fenced(frames, x, f.s) && f in frames
    ensures Fenced(frames - multiset{f}, Acked(x, f.generation), f.s)
  {
    FencedRemove(frames, f, x, f.s);
    InFlightRemove(frames, f, f.s, x.generation);
  }

  ghost predicate AllFenced(frames: multiset<Frame>, servings: seq<ServingState>) {
    forall s :: 0 <= s < |servings| ==> Fenced(frames, servings[s], s)
  }

  lemma BeginAttachFenced(frames: multiset<Frame>, c: Core, caller: Caller, s: nat)
    requires s < |c.servings| && AllFenced(frames, c.servings)
    ensures var r := BeginAttach(c, caller, s);
            r.1.Some? && AllFenced(frames + multiset{r.1.value}, r.0.servings)
  {
    var (d, f) := BeginAttach(c, caller, s);
    forall t | 0 <= t < |d.servings| ensures Fenced(frames + multiset{f.value}, d.servings[t], t) {
      if t == s {
        FencedAttach(frames, c.servings[s], s, caller);
      } else {
        FencedAdd(frames, f.value, c.servings[t], t);
      }
    }
  }

  lemma ContinueFenced(frames: multiset<Frame>, c: Core, from: nat)
    requires ValidCore(c) && AllFenced(frames, c.servings)
    ensures var next := Then(frames, Continue(c, from)); AllFenced(next.frames, next.core.servings)
  {
    var n := NextRegistered(c.registered, from, |c.servings|);
    if n.Some? { BeginAttachFenced(frames, c, All, n.value); }
  }

  lemma ResumeFenced(frames: multiset<Frame>, c: Core, f: Frame)
    requires ValidCore(c) && AllFenced(frames, c.servings) && !f.Subscribing? && (f.GreetingAll? || f.s < |c.servings|)
    ensures var next := Then(frames, Resume(c, f)); AllFenced(next.frames, next.core.servings)
  {
    if f.Greeting? {
      BeginAttachFenced(frames, c, One, f.s);
    } else if f.GreetingAll? {
      ContinueFenced(frames, c, 0);
    } else if f.caller.All? && !f.threw {
      ContinueFenced(frames, c, f.s + 1);
    } else {
      ResumeEnds(c, f);
    }
  }

  lemma ResumeEnds(c: Core, f: Frame)
    requires ValidCore(c) && f.Resuming? && f.s < |c.servings| && (f.caller.One? || f.threw)
    ensures Resume(c, f).1 == None && Resume(c, f).0.servings == c.servings && Resume(c, f).0.registered == c.registered
    ensures Resume(c, f).0.detached == c.detached && c.timers <= Resume(c, f).0.timers
    ensures f.threw && !c.detached && (f.caller.All? || f.s in c.registered) ==> Resume(c, f).0.timers != {}
  {
    if f.threw && !c.detached && (f.caller.All? || f.s in c.registered) {
      assert c.nextTimer in Resume(c, f).0.timers;
    }
  }

  lemma RemoveFenced(frames: multiset<Frame>, f: Frame, servings: seq<ServingState>)
    requires AllFenced(frames, servings) && f in frames
    ensures AllFenced(frames - multiset{f}, servings)
  {
    forall s | 0 <= s < |servings|
      ensures Fenced(frames - multiset{f}, servings[s], s)
    {
      FencedRemove(frames, f, servings[s], s);
    }
  }

  lemma SettleFenced(frames: multiset<Frame>, c: Core, f: Frame, ok: bool, serveThrows: bool)
    requires AllFenced(frames, c.servings) && f in frames && f.Subscribing? && f.s < |c.servings|
    ensures var next := Then(frames - multiset{f}, Settle(c, f, ok, serveThrows));
            AllFenced(next.frames, next.core.servings)
  {
    var (d, g) := Settle(c, f, ok, serveThrows);
    var rest := frames - multiset{f};
    forall s | 0 <= s < |d.servings| ensures Fenced(rest + multiset{g.value}, d.servings[s], s) {
      FencedRemove(frames, f, c.servings[s], s);
      if s == f.s { FencedAck(frames, f, c.servings[s]); }
      FencedAdd(rest, g.value, d.servings[s], s);
    }
  }

  lemma BumpedFenced(frames: multiset<Frame>, c: Core)
    requires AllFenced(frames, c.servings)
    ensures AllFenced(frames, MapRegistered(c.servings, c.registered, Dropped))
    ensures AllFenced(frames, MapRegistered(c.servings, c.registered, Detached))
  {
    forall s | 0 <= s < |c.servings|
      ensures Fenced(frames, Dropped(c.servings[s]), s) && Fenced(frames, Detached(c.servings[s]), s)
    {
      FencedBump(frames, c.servings[s], s);
    }
  }

  lemma RegisterFenced(sys: Sys, share: bool)
    requires Good(sys)
    ensures var next := Then(sys.frames, Register(sys.core, share)); AllFenced(next.frames, next.core.servings)
  {
    var (d, f) := Register(sys.core, share);
    var n := |sys.core.servings|;
    forall s | 0 <= s < |d.servings| ensures Fenced(sys.frames + multiset{f.value}, d.servings[s], s) {
      if s == n {
        forall g: nat ensures InFlight(sys.frames, n, g) == 0 {
          assert Subscribing(One, n, g) !in sys.frames && Subscribing(All, n, g) !in sys.frames;
        }
      }
      FencedAdd(sys.frames, f.value, d.servings[s], s);
    }
  }

  /** Every step keeps the fence around every serving. */
  lemma StepKeepsFence(sys: Sys, e: Event)
    requires Good(sys) && Enabled(sys, e)
    ensures AllFenced(Next(sys, e).frames, Next(sys, e).core.servings)
  {
    match e
    case Serve(share) => RegisterFenced(sys, share);
    case Detaches(s) => FencedBump(sys.frames, sys.core.servings[s], s);
    case DetachesAll => BumpedFenced(sys.frames, sys.core);
    case Drops => BumpedFenced(sys.frames, sys.core);
    case Fires(t) =>
      if !sys.core.detached {
        forall s | 0 <= s < |sys.core.servings|
          ensures Fenced(sys.frames + multiset{GreetingAll}, sys.core.servings[s], s)
        {
          FencedAdd(sys.frames, GreetingAll, sys.core.servings[s], s);
        }
      }
    case Resumes(f) =>
      RemoveFenced(sys.frames, f, sys.core.servings);
      ResumeFenced(sys.frames - multiset{f}, sys.core, f);
    case Settles(f, ok, serveThrows) => SettleFenced(sys.frames, sys.core, f, ok, serveThrows);
  }

  lemma BeginAttachValid(c: Core, caller: Caller, s: nat)
    requires ValidCore(c) && s < |c.servings|
    ensures var (d, f) := BeginAttach(c, caller, s);
            && ValidCore(d) && d == c.(servings := d.servings) && |d.servings| == |c.servings|
            && f.Some? && !f.value.GreetingAll? && f.value.s == s
            && (forall t :: 0 <= t < |c.servings| && t != s ==> d.servings[t] == c.servings[t])
            && (s in c.registered ==> f == Some(Subscribing(caller, s, d.servings[s].generation)))
            && (f.value.Resuming? ==> f.value.caller == caller)
  {
  }

  lemma ResumeValid(c: Core, f: Frame)
    requires ValidCore(c) && !f.Subscribing? && (f.GreetingAll? || f.s < |c.servings|)
    ensures var (d, g) := Resume(c, f);
            ValidCore(d) && |d.servings| == |c.servings| && d.detached == c.detached && d.registered == c.registered
                && c.timers <= d.timers
            && (g.Some? ==> !g.value.GreetingAll? && g.value.s < |d.servings|)
  {
    if f.Greeting? {
      BeginAttachValid(c, One, f.s);
    } else if f.GreetingAll? {
      ContinueValid(c, 0);
    } else if f.caller.All? && !f.threw {
      ContinueValid(c, f.s + 1);
    }
  }

  lemma ContinueValid(c: Core, from: nat)
    requires ValidCore(c)
    ensures var (d, g) := Continue(c, from);
            ValidCore(d) && |d.servings| == |c.servings| && d.detached == c.detached && d.registered == c.registered
                && c.timers <= d.timers
            && (g.Some? ==> !g.value.GreetingAll? && g.value.s < |d.servings|)
  {
    var n := NextRegistered(c.registered, from, |c.servings|);
    if n.Some? { BeginAttachValid(c, All, n.value); }
  }

  lemma DropAllValid(c: Core)
    requires ValidCore(c)
    ensures ValidCore(DropAll(c)) && |DropAll(c).servings| == |c.servings| && DropAll(c).detached == c.detached
    ensures ValidCore(DetachAll(c)) && |DetachAll(c).servings| == |c.servings|
    ensures !c.detached ==> DropAll(c).timers != {}
  {
    if !c.detached {
      assert c.nextTimer in DropAll(c).timers;
    }
  }

  lemma SimpleStepsValid(c: Core, share: bool, s: nat, t: nat)
    requires ValidCore(c)
    ensures ValidCore(Register(c, share).0) && |Register(c, share).0.servings| == |c.servings| + 1
    ensures s < |c.servings| ==> ValidCore(DetachOne(c, s)) && |DetachOne(c, s).servings| == |c.servings|
    ensures ValidCore(Fire(c, t).0) && |Fire(c, t).0.servings| == |c.servings|
  {
  }

  lemma SettleValid(c: Core, f: Frame, ok: bool, serveThrows: bool)
    requires ValidCore(c) && f.Subscribing? && f.s < |c.servings|
    ensures var (d, g) := Settle(c, f, ok, serveThrows);
            ValidCore(d) && |d.servings| == |c.servings| && g.Some? && !g.value.GreetingAll? && g.value.s == f.s
  {
  }

  /** Every step keeps the system well formed and the fence around every serving. */
  lemma StepKeepsGood(sys: Sys, e: Event)
    requires Good(sys) && Enabled(sys, e)
    ensures Good(Next(sys, e)) && |sys.core.servings| <= |Next(sys, e).core.servings|
  {
    StepKeepsFence(sys, e);
    StepKeepsValid(sys, e);
  }

  lemma StepKeepsValid(sys: Sys, e: Event)
    requires ValidSys(sys) && Enabled(sys, e)
    ensures ValidSys(Next(sys, e)) && |sys.core.servings| <= |Next(sys, e).core.servings|
  {
    match e
    case Serve(share) => SimpleStepsValid(sys.core, share, 0, 0);
    case Detaches(s) => SimpleStepsValid(sys.core, false, s, 0);
    case DetachesAll => DropAllValid(sys.core);
    case Drops => DropAllValid(sys.core);
    case Fires(t) => SimpleStepsValid(sys.core, false, 0, t);
    case Resumes(f) =>
      ResumeValid(sys.core, f);
      ThenValid(sys, f, Resume(sys.core, f));
    case Settles(f, ok, serveThrows) =>
      SettleValid(sys.core, f, ok, serveThrows);
      ThenValid(sys, f, Settle(sys.core, f, ok, serveThrows));
  }

  lemma ThenValid(sys: Sys, f: Frame, r: (Core, Option<Frame>))
    requires ValidSys(sys) && f in sys.frames && ValidCore(r.0) && |r.0.servings| == |sys.core.servings|
    requires r.1.Some? ==> !r.1.value.GreetingAll? && r.1.value.s < |r.0.servings|
    ensures ValidSys(Then(sys.frames - multiset{f}, r))
  {
  }

  // ---- progress -----------------------------------------------------------------------------------

  /** The frame either awaits the ack of the serving's generation or will still reach it. */
  predicate Carries(f: Frame, x: ServingState, s: nat) {
    Awaits(f, s, x.generation) || Reaches(f, s)
  }

  lemma CarriedTended(sys: Sys, f: Frame, s: nat)
    requires s < |sys.core.servings| && f in sys.frames && Carries(f, sys.core.servings[s], s)
    ensures Tended(sys, s)
  {
    var g := sys.core.servings[s].generation;
    if Awaits(f, s, g) {
      match f.caller
      case One => assert f == Subscribing(One, s, g);
      case All => assert f == Subscribing(All, s, g);
      assert InFlight(sys.frames, s, g) > 0;
    }
  }

  lemma CarrierOf(sys: Sys, s: nat) returns (f: Frame)
    requires s < |sys.core.servings| && Tended(sys, s) && sys.core.servings[s].hook.None? && sys.core.timers == {}
    ensures f in sys.frames && Carries(f, sys.core.servings[s], s)
  {
    var g := sys.core.servings[s].generation;
    if InFlight(sys.frames, s, g) > 0 {
      f := if Subscribing(One, s, g) in sys.frames then Subscribing(One, s, g) else Subscribing(All, s, g);
    } else {
      f :| f in sys.frames && Reaches(f, s);
    }
  }

  /** `reattachAll` going on from `from` takes care of every registered serving from there on. */
  lemma ContinueCarries(c: Core, from: nat, s: nat)
    requires ValidCore(c) && s in c.registered && from <= s
    ensures var (d, f) := Continue(c, from);
            |d.servings| == |c.servings| && f.Some? && Carries(f.value, d.servings[s], s)
  {
    var n := NextRegistered(c.registered, from, |c.servings|);
    BeginAttachValid(c, All, n.value);
  }

  /** A frame that carries a registered serving leaves it carried, or a retry scheduled, when it runs on. */
  lemma ResumeCarries(c: Core, f: Frame, s: nat)
    requires ValidCore(c) && !c.detached && !f.Subscribing? && (f.GreetingAll? || f.s < |c.servings|)
    requires s in c.registered && Reaches(f, s)
    ensures var (d, g) := Resume(c, f);
            |d.servings| == |c.servings| && (d.timers != {} || (g.Some? && Carries(g.value, d.servings[s], s)))
  {
    if f.Greeting? {
      BeginAttachValid(c, One, f.s);
    } else if f.GreetingAll? {
      ContinueCarries(c, 0, s);
    } else if f.caller.All? && !f.threw {
      ContinueCarries(c, f.s + 1, s);
    } else {
      ResumeEnds(c, f);
    }
  }

  /** A frame running on disturbs a serving only by awaiting a new ack for it. */
  lemma ResumeDisturbs(c: Core, f: Frame, s: nat)
    requires ValidCore(c) && !f.Subscribing? && (f.GreetingAll? || f.s < |c.servings|) && s in c.registered
    ensures var (d, g) := Resume(c, f);
            |d.servings| == |c.servings|
                && (d.servings[s] == c.servings[s] || (g.Some? && Awaits(g.value, s, d.servings[s].generation)))
  {
    if f.Greeting? {
      BeginAttachValid(c, One, f.s);
    } else if f.GreetingAll? {
      ContinueDisturbs(c, 0, s);
    } else if f.caller.All? && !f.threw {
      ContinueDisturbs(c, f.s + 1, s);
    } else {
      ResumeEnds(c, f);
    }
  }

  lemma ContinueDisturbs(c: Core, from: nat, s: nat)
    requires ValidCore(c) && s in c.registered
    ensures var (d, g) := Continue(c, from);
            |d.servings| == |c.servings|
                && (d.servings[s] == c.servings[s] || (g.Some? && Awaits(g.value, s, d.servings[s].generation)))
  {
    var n := NextRegistered(c.registered, from, |c.servings|);
    if n.Some? { BeginAttachValid(c, All, n.value); }
  }

  lemma ResumeTends(sys: Sys, f: Frame, s: nat)
    requires Good(sys) && Enabled(sys, Resumes(f)) && !sys.core.detached && s in sys.core.registered && Tended(sys, s)
    requires s < |Next(sys, Resumes(f)).core.servings|
    ensures Tended(Next(sys, Resumes(f)), s)
  {
    var next, rest := Next(sys, Resumes(f)), sys.frames - multiset{f};
    var (d, g) := Resume(sys.core, f);
    ResumeValid(sys.core, f);
    ResumeDisturbs(sys.core, f, s);
    if d.servings[s] != sys.core.servings[s] {
      CarriedTended(next, g.value, s);
    } else if sys.core.servings[s].hook.None? && d.timers == {} {
      var h := CarrierOf(sys, s);
      if h == f {
        ResumeCarries(sys.core, f, s);
        CarriedTended(next, g.value, s);
      } else {
        assert h in rest;
        CarriedTended(next, h, s);
      }
    }
  }

  lemma SettleTends(sys: Sys, f: Frame, ok: bool, serveThrows: bool, s: nat)
    requires Good(sys) && Enabled(sys, Settles(f, ok, serveThrows)) && s in sys.core.registered && Tended(sys, s)
    requires s < |Next(sys, Settles(f, ok, serveThrows)).core.servings|
    ensures Tended(Next(sys, Settles(f, ok, serveThrows)), s)
  {
    var next := Next(sys, Settles(f, ok, serveThrows));
    var x, y := sys.core.servings[s], next.core.servings[s];
    var g := Settle(sys.core, f, ok, serveThrows).1.value;
    assert y.generation == x.generation && (x.hook.Some? ==> y.hook.Some?);
    if y.hook.None? && sys.core.timers == {} {
      var h := CarrierOf(sys, s);
      if h == f {
        assert Reaches(g, s);
        CarriedTended(next, g, s);
      } else {
        assert h in sys.frames - multiset{f};
        CarriedTended(next, h, s);
      }
    } else if y.hook.Some? {
      HookCurrent(sys, f, ok, serveThrows, s);
    }
  }

  lemma HookCurrent(sys: Sys, f: Frame, ok: bool, serveThrows: bool, s: nat)
    requires Good(sys) && Enabled(sys, Settles(f, ok, serveThrows)) && s < |sys.core.servings|
    ensures var y := Settle(sys.core, f, ok, serveThrows).0.servings[s]; y.hook.Some? ==> y.hook == Some(y.generation)
  {
    assert Fenced(sys.frames, sys.core.servings[s], s);
  }

  /** Every step of a supplier that is not detached keeps every registered serving tended. */
  lemma StepKeepsProgress(sys: Sys, e: Event)
    requires Good(sys) && Enabled(sys, e) && (!sys.core.detached ==> Progress(sys))
    ensures !Next(sys, e).core.detached ==> Progress(Next(sys, e))
  {
    var next := Next(sys, e);
    StepKeepsGood(sys, e);
    if !next.core.detached {
      forall s | s in next.core.registered ensures Tended(next, s) { TendedKept(sys, e, s); }
    }
  }

  lemma TendedKept(sys: Sys, e: Event, s: nat)
    requires Good(sys) && Enabled(sys, e) && (!sys.core.detached ==> Progress(sys)) && !Next(sys, e).core.detached
    requires s in Next(sys, e).core.registered && s < |Next(sys, e).core.servings|
    ensures Tended(Next(sys, e), s)
  {
    var next := Next(sys, e);
    match e
    case Serve(_) =>
      if s == |sys.core.servings| {
        assert Greeting(s) in next.frames && Reaches(Greeting(s), s);
      } else {
        TendedMore(sys, next, s);
      }
    case Detaches(r) => TendedMore(sys, next, s);
    case DetachesAll =>
    case Drops => DropAllValid(sys.core);
    case Fires(_) => assert GreetingAll in next.frames && Reaches(GreetingAll, s);
    case Resumes(f) =>
      ResumeValid(sys.core, f);
      ResumeTends(sys, f, s);
    case Settles(f, ok, serveThrows) => SettleTends(sys, f, ok, serveThrows, s);
  }

  lemma TendedMore(sys: Sys, next: Sys, s: nat)
    requires s < |sys.core.servings| && s < |next.core.servings| && Tended(sys, s)
    requires next.core.servings[s] == sys.core.servings[s] && sys.frames <= next.frames
    requires sys.core.timers <= next.core.timers
    ensures Tended(next, s)
  {
    if StillToReach(sys.frames, s) {
      var f :| f in sys.frames && Reaches(f, s);
      assert f in next.frames;
    }
    var g := sys.core.servings[s].generation;
    assert InFlight(sys.frames, s, g) <= InFlight(next.frames, s, g);
  }

  // ---- fencing --------------------------------------------------------------------------------------

  /** How many installed handlers would act on what arrives. */
  function Effective(x: ServingState): nat {
    if x.detached then 0 else x.installed[x.generation]
  }

  /** At most one handler of a serving is effective, it was installed for the current generation, and it is
      the one the serving would unhook. */
  lemma OneEffectiveHandler(sys: Sys, s: nat)
    requires Good(sys) && s < |sys.core.servings|
    ensures var x := sys.core.servings[s];
            Effective(x) <= 1 && (Effective(x) == 1 <==> x.hook.Some?)
                && (x.hook.Some? ==> x.hook.value == x.generation)
  {
    assert Fenced(sys.frames, sys.core.servings[s], s);
  }

  /** Nothing was hooked, served or left to retry between two states of a detached serving. */
  ghost predicate Quiet(x: ServingState, y: ServingState) {
    y.detached && y.hook == None && y.installed <= x.installed && y.served == x.served && Effective(y) == 0
  }

  lemma DetachedIsQuiet(sys: Sys, s: nat)
    requires Good(sys) && s < |sys.core.servings| && sys.core.servings[s].detached
    ensures Quiet(sys.core.servings[s], sys.core.servings[s])
  {
    assert Fenced(sys.frames, sys.core.servings[s], s);
  }

  lemma DetachedQuiet(sys: Sys, e: Event, s: nat)
    requires Good(sys) && Enabled(sys, e) && s < |sys.core.servings| && sys.core.servings[s].detached
    ensures s < |Next(sys, e).core.servings| && Quiet(sys.core.servings[s], Next(sys, e).core.servings[s])
    ensures e.Settles? && e.f.s == s ==> Next(sys, e).core.timers == sys.core.timers
                                         && Next(sys, e).frames
                                             == sys.frames - multiset{e.f} + multiset{Resuming(e.f.caller, s, false)}
    ensures e.Resumes? && e.f.Resuming? && e.f.s == s && e.f.caller == One
            ==> Next(sys, e).core.timers == sys.core.timers
  {
    DetachedIsQuiet(sys, s);
    match e
    case Resumes(f) => ResumeQuiet(sys.core, f, s);
    case Settles(f, _, _) => assert !Current(sys.core.servings[s], f.generation);
    case _ =>
  }

  lemma ResumeQuiet(c: Core, f: Frame, s: nat)
    requires ValidCore(c) && !f.Subscribing? && (f.GreetingAll? || f.s < |c.servings|) && s < |c.servings|
    requires c.servings[s].detached
    ensures |Resume(c, f).0.servings| == |c.servings| && Resume(c, f).0.servings[s] == c.servings[s]
  {
    if f.Greeting? {
      BeginAttachValid(c, One, f.s);
    } else if f.GreetingAll? {
      ContinueQuiet(c, 0, s);
    } else if f.caller.All? && !f.threw {
      ContinueQuiet(c, f.s + 1, s);
    } else {
      ResumeEnds(c, f);
    }
  }

  lemma ContinueQuiet(c: Core, from: nat, s: nat)
    requires ValidCore(c) && s < |c.servings| && c.servings[s].detached
    ensures |Continue(c, from).0.servings| == |c.servings| && Continue(c, from).0.servings[s] == c.servings[s]
  {
    var n := NextRegistered(c.registered, from, |c.servings|);
    if n.Some? { BeginAttachValid(c, All, n.value); }
  }

  /** `detachAll` detaches everything ever served, leaves nothing registered, and from then on no timer is
      ever scheduled and no `reattachAll` starts. */
  lemma DetachedSupplier(sys: Sys, e: Event)
    requires Good(sys) && Enabled(sys, e)
    ensures e.DetachesAll? ==> Next(sys, e).core.detached && Next(sys, e).core.registered == {}
                               && forall s :: 0 <= s < |sys.core.servings| ==> Next(sys, e).core.servings[s].detached
    ensures sys.core.detached ==> Next(sys, e).core.detached && Next(sys, e).core.timers <= sys.core.timers
    ensures sys.core.detached ==> Next(sys, e).frames[GreetingAll] <= sys.frames[GreetingAll]
  {
    if e.Resumes? {
      ResumeDetached(sys.core, e.f);
      NoneGreets(sys, e.f);
    }
  }

  lemma NoneGreets(sys: Sys, f: Frame)
    requires Good(sys) && Enabled(sys, Resumes(f))
    ensures Next(sys, Resumes(f)).frames[GreetingAll] <= sys.frames[GreetingAll]
  {
    ResumeDetached(sys.core, f);
  }

  lemma ResumeDetached(c: Core, f: Frame)
    requires ValidCore(c) && !f.Subscribing? && (f.GreetingAll? || f.s < |c.servings|)
    ensures Resume(c, f).1 != Some(GreetingAll) && Resume(c, f).0.detached == c.detached
    ensures c.detached ==> Resume(c, f).0.timers == c.timers
  {
    ResumeValid(c, f);
    if f.Greeting? {
      BeginAttachValid(c, One, f.s);
    } else if f.GreetingAll? {
      ContinueTimers(c, 0);
    } else if f.caller.All? && !f.threw {
      ContinueTimers(c, f.s + 1);
    }
  }

  lemma ContinueTimers(c: Core, from: nat)
    requires ValidCore(c)
    ensures Continue(c, from).0.timers == c.timers
  {
    var n := NextRegistered(c.registered, from, |c.servings|);
    if n.Some? { BeginAttachValid(c, All, n.value); }
  }

  // ---- what a step does to a serving -----------------------------------------------------------------------------

  /** What becomes of a serving in one step. */
  datatype Happening = Nothing | Attaches | Hooks | Drops | Detaches

  /** Each happening, field by field. */
  ghost predicate Happened(x: ServingState, h: Happening, y: ServingState) {
    && y.share == x.share
    && match h
       case Nothing => y == x
       case Attaches =>
         // The previous handler is unhooked, and a new generation is awaited.
         && !x.detached && !y.detached && y.generation == x.generation + 1 && y.hook == None && y.served == x.served
         && y.installed == (if x.hook.Some? then x.installed - multiset{x.hook.value} else x.installed)
       case Hooks =>
         // One handler more, for the current generation; a share is served.
         && !x.detached && !y.detached && y.generation == x.generation && y.hook == Some(x.generation)
         && y.installed == x.installed + multiset{x.generation}
         && y.served == (if x.share then x.served + [x.generation] else x.served)
       case Drops =>
         // The old connection's handler is forgotten, not unhooked.
         && y.detached == x.detached && y.generation == x.generation + 1 && y.hook == None && y.served == x.served
         && y.installed == x.installed
       case Detaches =>
         && y.detached && x.generation < y.generation && y.hook == None && y.served == x.served
         && y.installed == (if x.hook.Some? then x.installed - multiset{x.hook.value} else x.installed)
  }

  /** The serving a resumed frame attaches next, if any: its own, or the next registered one of the loop. */
  ghost predicate AttachesNext(c: Core, f: Frame, s: nat) {
    match f
    case Greeting(r) => r == s
    case GreetingAll => s in c.registered && forall r :: r in c.registered ==> s <= r
    case Resuming(All, from, false) =>
      s in c.registered && from < s && forall r :: r in c.registered && from < r ==> s <= r
    case _ => false
  }

  ghost function WhatHappens(sys: Sys, e: Event, s: nat): Happening
    requires ValidSys(sys) && Enabled(sys, e) && s < |sys.core.servings|
  {
    var x := sys.core.servings[s];
    match e
    case Detaches(r) => if r == s then Happening.Detaches else Nothing
    case DetachesAll => if s in sys.core.registered then Happening.Detaches else Nothing
    case Drops => if s in sys.core.registered && !sys.core.detached then Happening.Drops else Nothing
    case Resumes(f) => if AttachesNext(sys.core, f, s) && !x.detached then Happening.Attaches else Nothing
    case Settles(f, ok, _) =>
      if f.s == s && ok && !x.detached && f.generation == x.generation then Happening.Hooks else Nothing
    case _ => Nothing
  }

  lemma AttachHappens(x: ServingState)
    ensures Happened(x, if x.detached then Nothing else Happening.Attaches, Attach(x).0)
  {
  }

  lemma BeginAttachHappens(c: Core, caller: Caller, r: nat, s: nat)
    requires r < |c.servings| && s < |c.servings|
    ensures |BeginAttach(c, caller, r).0.servings| == |c.servings|
    ensures Happened(c.servings[s], if r == s && !c.servings[s].detached then Happening.Attaches else Nothing,
                     BeginAttach(c, caller, r).0.servings[s])
  {
    AttachHappens(c.servings[s]);
  }

  ghost predicate FirstFrom(registered: set<nat>, from: nat, s: nat) {
    s in registered && from <= s && forall r :: r in registered && from <= r ==> s <= r
  }

  lemma ContinueHappens(c: Core, from: nat, s: nat)
    requires ValidCore(c) && s < |c.servings|
    ensures |Continue(c, from).0.servings| == |c.servings|
    ensures Happened(c.servings[s], if FirstFrom(c.registered, from, s) then Happening.Attaches else Nothing,
                     Continue(c, from).0.servings[s])
  {
    var n := NextRegistered(c.registered, from, |c.servings|);
    if n.Some? {
      assert FirstFrom(c.registered, from, s) <==> s == n.value;
      BeginAttachHappens(c, All, n.value, s);
    }
  }

  lemma ResumeHappens(c: Core, f: Frame, s: nat)
    requires ValidCore(c) && !f.Subscribing? && (f.GreetingAll? || f.s < |c.servings|) && s < |c.servings|
    ensures |Resume(c, f).0.servings| == |c.servings|
    ensures Happened(c.servings[s],
                     if AttachesNext(c, f, s) && !c.servings[s].detached then Happening.Attaches else Nothing,
                     Resume(c, f).0.servings[s])
  {
    if f.Greeting? {
      BeginAttachHappens(c, One, f.s, s);
    } else if f.GreetingAll? {
      assert AttachesNext(c, f, s) <==> FirstFrom(c.registered, 0, s);
      ContinueHappens(c, 0, s);
    } else if f.caller.All? && !f.threw {
      assert AttachesNext(c, f, s) <==> FirstFrom(c.registered, f.s + 1, s);
      ContinueHappens(c, f.s + 1, s);
    } else {
      ResumeEnds(c, f);
    }
  }

  /** Every step does to every serving exactly what the event calls for, and to a newly registered one nothing. */
  lemma ServingMoves(sys: Sys, e: Event, s: nat)
    requires Good(sys) && Enabled(sys, e) && s < |sys.core.servings|
    ensures s < |Next(sys, e).core.servings|
    ensures Happened(sys.core.servings[s], WhatHappens(sys, e, s), Next(sys, e).core.servings[s])
  {
    match e
    case Resumes(f) => ResumeHappens(sys.core, f, s);
    case Settles(f, ok, serveThrows) => SettleHappens(sys.core, f, ok, serveThrows, s);
    case _ =>
  }

  lemma SettleHappens(c: Core, f: Frame, ok: bool, serveThrows: bool, s: nat)
    requires f.Subscribing? && f.s < |c.servings| && s < |c.servings|
    ensures var x, y := c.servings[s], Settle(c, f, ok, serveThrows).0.servings[s];
            |Settle(c, f, ok, serveThrows).0.servings| == |c.servings|
            && Happened(x, if f.s == s && ok && !x.detached && f.generation == x.generation then Happening.Hooks
                        else Nothing, y)
  {
  }

  /** A new serving is registered, neither hooked nor served yet; no other step makes or revives one. */
  lemma ServingsMade(sys: Sys, e: Event)
    requires Good(sys) && Enabled(sys, e)
    ensures var c, d, n := sys.core, Next(sys, e).core, |sys.core.servings|;
            && |d.servings| == n + (if e.Serve? then 1 else 0)
            && (e.Serve? ==> d.servings[n] == ServingState(e.share, 0, false, None, multiset{}, []))
            && d.registered == match e
                               case Serve(_) => c.registered + {n}
                               case Detaches(s) => c.registered - {s}
                               case DetachesAll => {}
                               case _ => c.registered
  {
    if e.Resumes? { ResumeValid(sys.core, e.f); }
  }

  /** What a resumed frame suspends as next: awaiting the ack of the serving it attaches, in the function it belongs
      to; a detached one has nothing to await, and with nothing to attach the function ends. */
  lemma FramesExactly(sys: Sys, e: Event)
    requires Good(sys) && Enabled(sys, e) && !e.Settles?
    ensures var c, frames := sys.core, Next(sys, e).frames;
            match e
            case Serve(_) => frames == sys.frames + multiset{Greeting(|c.servings|)}
            case Fires(_) => frames == sys.frames + if c.detached then multiset{} else multiset{GreetingAll}
            case Resumes(f) =>
              exists g :: SuspendsAs(c, f, g) && frames == sys.frames - multiset{f} + Awaited(g)
            case _ => frames == sys.frames
  {
    if e.Resumes? {
      ResumeAwaits(sys.core, e.f);
      assert SuspendsAs(sys.core, e.f, Resume(sys.core, e.f).1);
    }
  }

  function Awaited(g: Option<Frame>): multiset<Frame> { if g.Some? then multiset{g.value} else multiset{} }

  /** `g` is the frame awaiting the one serving that is attached; none if none is. */
  ghost predicate SuspendsAs(c: Core, f: Frame, g: Option<Frame>) {
    && (forall s :: 0 <= s < |c.servings| && AttachesNext(c, f, s) ==> g == Some(Awaiting(c, f, s)))
    && (g == None || exists s :: 0 <= s < |c.servings| && AttachesNext(c, f, s))
  }

  ghost function Awaiting(c: Core, f: Frame, s: nat): Frame
    requires s < |c.servings|
  {
    var x, caller := c.servings[s], if f.Greeting? then One else All;
    if x.detached then Resuming(caller, s, false) else Subscribing(caller, s, x.generation + 1)
  }

  lemma ResumeAwaits(c: Core, f: Frame)
    requires ValidCore(c) && !f.Subscribing? && (f.GreetingAll? || f.s < |c.servings|)
    ensures SuspendsAs(c, f, Resume(c, f).1)
  {
    if f.Greeting? {
      GreetingAwaits(c, f.s);
    } else if f.GreetingAll? {
      ContinueAwaits(c, f, 0);
    } else if f.caller.All? && !f.threw {
      ContinueAwaits(c, f, f.s + 1);
    } else {
      ResumeEnds(c, f);
    }
  }

  lemma GreetingAwaits(c: Core, s: nat)
    requires s < |c.servings|
    ensures SuspendsAs(c, Greeting(s), BeginAttach(c, One, s).1)
  {
    assert AttachesNext(c, Greeting(s), s);
  }

  lemma ContinueAwaits(c: Core, f: Frame, from: nat)
    requires ValidCore(c) && (f == GreetingAll || (f.Resuming? && f.caller.All? && !f.threw))
    requires from == if f.GreetingAll? then 0 else f.s + 1
    ensures SuspendsAs(c, f, Continue(c, from).1)
  {
    var n := NextRegistered(c.registered, from, |c.servings|);
    if n.Some? {
      assert AttachesNext(c, f, n.value);
      BeginAttachValid(c, All, n.value);
    }
  }

  // ---- retries and greetings -------------------------------------------------------------------------------------

  /** The step is a reason to try again: the link dropped, a whole reattach failed, or the attach of a serving
      that is still registered did. */
  predicate Retries(c: Core, e: Event) {
    match e
    case Drops => true
    case Resumes(Resuming(All, _, threw)) => threw
    case Resumes(Resuming(One, s, threw)) => threw && s in c.registered
    case _ => false
  }

  /** Exactly a reason to try again schedules a timer, unless the supplier is detached; a fired timer is gone, and
      `detachAll` cancels the one scheduled last. */
  lemma TimersExactly(sys: Sys, e: Event)
    requires Good(sys) && Enabled(sys, e)
    ensures var c, d := sys.core, Next(sys, e).core;
            if Retries(c, e) && !c.detached then
              && d.timers == c.timers + {c.nextTimer} && c.nextTimer !in c.timers && d.cancel == Some(c.nextTimer)
              && d.nextTimer == c.nextTimer + 1
            else if e.Fires? then d.timers == c.timers - {e.t} && d.cancel == c.cancel && d.nextTimer == c.nextTimer
            else if e.DetachesAll? then
              && d.timers == (if c.cancel.Some? then c.timers - {c.cancel.value} else c.timers) && d.cancel == None
              && d.nextTimer == c.nextTimer
            else d.timers == c.timers && d.cancel == c.cancel && d.nextTimer == c.nextTimer
  {
    if e.Resumes? { ResumeTimers(sys.core, e.f); }
  }

  lemma ResumeTimers(c: Core, f: Frame)
    requires ValidCore(c) && !f.Subscribing? && (f.GreetingAll? || f.s < |c.servings|)
    ensures var d := Resume(c, f).0;
            && (!(f.Resuming? && f.threw) ==>
                  d.timers == c.timers && d.cancel == c.cancel && d.nextTimer == c.nextTimer)
            && d.hellos == c.hellos && d.helloed == (c.helloed && !(f.Resuming? && f.caller.All? && f.threw))
  {
    if f.Greeting? {
      BeginAttachValid(c, One, f.s);
    } else if f.GreetingAll? {
      ContinueKeeps(c, 0);
    } else if f.caller.All? && !f.threw {
      ContinueKeeps(c, f.s + 1);
    }
  }

  lemma ContinueKeeps(c: Core, from: nat)
    requires ValidCore(c)
    ensures var d := Continue(c, from).0;
            && d.timers == c.timers && d.cancel == c.cancel && d.nextTimer == c.nextTimer
            && d.hellos == c.hellos && d.helloed == c.helloed
  {
    var n := NextRegistered(c.registered, from, |c.servings|);
    if n.Some? { BeginAttachValid(c, All, n.value); }
  }

  /** A settled subscribe throws exactly if its generation is still current and it was refused, or serving the
      share threw; its caller hears of it. */
  lemma SettlesExactly(sys: Sys, f: Frame, ok: bool, serveThrows: bool)
    requires Good(sys) && Enabled(sys, Settles(f, ok, serveThrows))
    ensures var x := sys.core.servings[f.s];
            var threw := !x.detached && f.generation == x.generation && (!ok || (x.share && serveThrows));
            Next(sys, Settles(f, ok, serveThrows)).frames
            == sys.frames - multiset{f} + multiset{Resuming(f.caller, f.s, threw)}
  {
  }

  /** The backoff starts over when the link drops, when one attach succeeds and when a whole reattach gets through,
      and grows by one when a reattach fails. */
  lemma BackoffExactly(sys: Sys, e: Event)
    requires Good(sys) && Enabled(sys, e)
    ensures var c, d := sys.core, Next(sys, e).core;
            d.attempt == match e
                         case Drops => if c.detached then c.attempt else 0
                         case Resumes(Resuming(One, _, threw)) => if threw then c.attempt else 0
                         case Resumes(Resuming(All, from, threw)) =>
                           if threw then c.attempt + 1
                           else if forall r :: r in c.registered ==> r <= from then 0 else c.attempt
                         case Resumes(GreetingAll) => if c.registered == {} then 0 else c.attempt
                         case _ => c.attempt
  {
    match e
    case Resumes(Greeting(s)) => BeginAttachValid(sys.core, One, s);
    case Resumes(GreetingAll) => ContinueBackoff(sys.core, 0);
    case Resumes(Resuming(All, s, false)) => ContinueBackoff(sys.core, s + 1);
    case _ =>
  }

  lemma ContinueBackoff(c: Core, from: nat)
    requires ValidCore(c)
    ensures Continue(c, from).0.attempt == if forall r :: r in c.registered ==> r < from then 0 else c.attempt
  {
    var n := NextRegistered(c.registered, from, |c.servings|);
    if n.Some? { BeginAttachValid(c, All, n.value); }
  }

  /** The step makes sure the connection was greeted: a serving is registered, or a timer starts reattaching. */
  predicate Greets(c: Core, e: Event) { e.Serve? || (e.Fires? && !c.detached) }

  /** The step forgets that it was: the link dropped, or reattaching failed. */
  predicate Forgets(c: Core, e: Event) {
    (e.Drops? && !c.detached) || (e.Resumes? && e.f.Resuming? && e.f.caller.All? && e.f.threw)
  }

  /** A hello goes out exactly when one is called for and none has since the connection was lost. */
  lemma GreetsExactly(sys: Sys, e: Event)
    requires Good(sys) && Enabled(sys, e)
    ensures var c, d := sys.core, Next(sys, e).core;
            && d.hellos == c.hellos + (if Greets(c, e) && !c.helloed then 1 else 0)
            && d.helloed == (Greets(c, e) || (c.helloed && !Forgets(c, e)))
  {
    if e.Resumes? { ResumeTimers(sys.core, e.f); }
  }

  // ---- the link drops --------------------------------------------------------------------------------------------

  /** After a drop no registered serving is hooked, every generation in flight or installed is superseded, a retry
      is due, and the next attach greets again. */
  lemma DropSupersedes(sys: Sys, next: Sys)
    requires Good(sys) && Step(sys, Event.Drops, next) && !sys.core.detached
    ensures forall s :: s in sys.core.registered ==> s < |next.core.servings| && Superseded(next, s)
    ensures !next.core.helloed && next.core.attempt == 0 && next.core.timers != {} && next.frames == sys.frames
  {
    StepKeepsGood(sys, Event.Drops);
    TimersExactly(sys, Event.Drops);
    assert sys.core.nextTimer in next.core.timers;
    forall s | s in sys.core.registered ensures s < |next.core.servings| && Superseded(next, s) {
      ServingMoves(sys, Event.Drops, s);
      assert Fenced(sys.frames, sys.core.servings[s], s);
    }
  }

  /** Not hooked, and above every generation awaited or installed. */
  ghost predicate Superseded(sys: Sys, s: nat)
    requires s < |sys.core.servings|
  {
    var x := sys.core.servings[s];
    && x.hook == None && Effective(x) == 0
    && (forall g: nat :: InFlight(sys.frames, s, g) > 0 ==> g < x.generation)
    && (forall g :: g in x.installed ==> g < x.generation)
  }

  /** The frame waits for an ack that no longer counts. */
  ghost predicate Stale(sys: Sys, f: Frame) {
    && f.Subscribing? && f.s < |sys.core.servings|
    && (sys.core.servings[f.s].detached || f.generation < sys.core.servings[f.s].generation)
  }

  lemma StaleStays(sys: Sys, e: Event, next: Sys, f: Frame)
    requires Good(sys) && Step(sys, e, next) && Stale(sys, f)
    ensures Stale(next, f)
  {
    ServingMoves(sys, e, f.s);
  }

  /** The ack or refusal of a stale frame hooks, serves, throws and schedules nothing. */
  lemma StaleIgnored(sys: Sys, f: Frame, ok: bool, serveThrows: bool, next: Sys)
    requires Good(sys) && Step(sys, Settles(f, ok, serveThrows), next) && Stale(sys, f)
    ensures next.core == sys.core
    ensures next.frames == sys.frames - multiset{f} + multiset{Resuming(f.caller, f.s, false)}
  {
    assert next.core.servings == sys.core.servings;
  }

  // ---- runs -----------------------------------------------------------------------------------------

  ghost predicate Step(sys: Sys, e: Event, next: Sys) {
    ValidSys(sys) && Enabled(sys, e) && next == Next(sys, e)
  }

  ghost predicate Run(states: seq<Sys>, events: seq<Event>) {
    && |states| == |events| + 1 && states[0] == START
    && forall k :: 0 <= k < |events| ==> Step(states[k], events[k], states[k + 1])
  }

  /** Every reachable interleaving is fenced, and tended unless the supplier was detached. */
  lemma {:induction false} ReachableGood(states: seq<Sys>, events: seq<Event>, k: nat)
    requires Run(states, events) && k < |states|
    ensures Good(states[k]) && (!states[k].core.detached ==> Progress(states[k]))
  {
    if k > 0 {
      ReachableGood(states, events, k - 1);
      assert Step(states[k - 1], events[k - 1], states[k]);
      StepKeepsGood(states[k - 1], events[k - 1]);
      StepKeepsProgress(states[k - 1], events[k - 1]);
    }
  }

  /** Serving `s` was `x` and has been left alone since. */
  ghost predicate StillQuiet(sys: Sys, s: nat, x: ServingState) {
    s < |sys.core.servings| && Quiet(x, sys.core.servings[s])
  }

  lemma QuietThrough(x: ServingState, y: ServingState, z: ServingState)
    requires Quiet(x, y) && Quiet(y, z)
    ensures Quiet(x, z)
  {
  }

  lemma StepQuiet(sys: Sys, e: Event, next: Sys, s: nat, x: ServingState)
    requires Good(sys) && Step(sys, e, next) && StillQuiet(sys, s, x)
    ensures StillQuiet(next, s, x)
  {
    DetachedQuiet(sys, e, s);
    QuietThrough(x, sys.core.servings[s], next.core.servings[s]);
  }

  // ---- serving through a detached supplier ------------------------------------------------------------

  ghost predicate Has(sys: Sys, s: nat, x: ServingState, f: Frame) {
    Good(sys) && sys.core.detached && s < |sys.core.servings| && sys.core.servings[s] == x && f in sys.frames
  }

  lemma LateServe(sys: Sys, share: bool, next: Sys)
    requires Good(sys) && sys.core.detached && next == Next(sys, Serve(share))
    ensures Has(next, |sys.core.servings|, ServingState(share, 0, false, None, multiset{}, []),
            Greeting(|sys.core.servings|))
    ensures next.frames == sys.frames + multiset{Greeting(|sys.core.servings|)} && next.core.timers == sys.core.timers
    ensures |sys.core.servings| in next.core.registered
  {
    StepKeepsGood(sys, Serve(share));
    assert multiset{Greeting(|sys.core.servings|)} <= next.frames;
  }

  lemma LateGreeting(sys: Sys, s: nat, x: ServingState, next: Sys)
    requires Has(sys, s, x, Greeting(s)) && x == ServingState(x.share, 0, false, None, multiset{}, [])
    requires next == Next(sys, Resumes(Greeting(s)))
    ensures Has(next, s, x.(generation := 1), Subscribing(One, s, 1))
    ensures next.frames == sys.frames - multiset{Greeting(s)} + multiset{Subscribing(One, s, 1)}
    ensures next.core.timers == sys.core.timers
    ensures next.core.registered == sys.core.registered
  {
    StepKeepsGood(sys, Resumes(Greeting(s)));
    assert multiset{Subscribing(One, s, 1)} <= next.frames;
  }

  lemma LateAck(sys: Sys, s: nat, x: ServingState, next: Sys)
    requires Has(sys, s, x, Subscribing(One, s, 1)) && x == ServingState(x.share, 1, false, None, multiset{}, [])
    requires next == Next(sys, Settles(Subscribing(One, s, 1), true, false))
    ensures next.core.detached && s < |next.core.servings|
    ensures Effective(next.core.servings[s]) == 1 && next.core.servings[s].served == if x.share then [1] else []
  {
  }

  /** A serving registered through a supplier that was already detached still attaches: it is hooked and
      served. */
  lemma LateServingAttaches(sys: Sys, share: bool) returns (a: Sys, b: Sys, c: Sys)
    requires Good(sys) && sys.core.detached
    ensures var n := |sys.core.servings|;
            && Step(sys, Serve(share), a) && Step(a, Resumes(Greeting(n)), b)
            && Step(b, Settles(Subscribing(One, n, 1), true, false), c)
            && c.core.detached && n < |c.core.servings|
            && Effective(c.core.servings[n]) == 1 && c.core.servings[n].served == if share then [1] else []
  {
    var n, x := |sys.core.servings|, ServingState(share, 0, false, None, multiset{}, []);
    a := Next(sys, Serve(share));
    LateServe(sys, share, a);
    b := Next(a, Resumes(Greeting(n)));
    LateGreeting(a, n, x, b);
    c := Next(b, Settles(Subscribing(One, n, 1), true, false));
    LateAck(b, n, x.(generation := 1), c);
  }

  lemma LateRefused(sys: Sys, s: nat, x: ServingState, next: Sys)
    requires Has(sys, s, x, Subscribing(One, s, 1)) && x == ServingState(x.share, 1, false, None, multiset{}, [])
    requires next == Next(sys, Settles(Subscribing(One, s, 1), false, false))
    ensures Has(next, s, x, Resuming(One, s, true))
    ensures next.frames == sys.frames - multiset{Subscribing(One, s, 1)} + multiset{Resuming(One, s, true)}
    ensures next.core == sys.core
  {
    StepKeepsGood(sys, Settles(Subscribing(One, s, 1), false, false));
  }

  lemma LateGivenUp(sys: Sys, s: nat, x: ServingState, next: Sys)
    requires Has(sys, s, x, Resuming(One, s, true)) && next == Next(sys, Resumes(Resuming(One, s, true)))
    ensures next.core == sys.core && next.frames == sys.frames - multiset{Resuming(One, s, true)}
  {
  }

  // ---- paths --------------------------------------------------------------------------------------------------

  /** What happens from some state on, and the states it goes through. */
  datatype Path = Path(states: seq<Sys>, events: seq<Event>)

  ghost predicate Leads(p: Path, sys: Sys) {
    && |p.states| == |p.events| + 1 && p.states[0] == sys
    && forall k :: 0 <= k < |p.events| ==> Step(p.states[k], p.events[k], p.states[k + 1])
  }

  function End(p: Path): Sys
    requires |p.states| > 0
  {
    p.states[|p.states| - 1]
  }

  /** How many servings are registered on the way. */
  function Serves(events: seq<Event>): nat {
    if events == [] then 0
    else Serves(events[..|events| - 1]) + if events[|events| - 1].Serve? then 1 else 0
  }

  /** Every registered serving is tended in every state on the way. */
  ghost predicate AllTended(p: Path) {
    forall k :: 0 <= k < |p.states| ==> Progress(p.states[k])
  }

  lemma {:induction false} ServesAdd(a: seq<Event>, b: seq<Event>)
    ensures Serves(a + b) == Serves(a) + Serves(b)
    decreases |b|
  {
    if b == [] {
      assert a + b == a;
    } else {
      var n := |b| - 1;
      ServesAdd(a, b[..n]);
      assert (a + b)[..|a| + n] == a + b[..n];
    }
  }

  lemma Only(sys: Sys, e: Event, next: Sys) returns (p: Path)
    requires Step(sys, e, next)
    ensures p == Path([sys, next], [e]) && Leads(p, sys) && End(p) == next
    ensures Serves(p.events) == if e.Serve? then 1 else 0
  {
    p := Path([sys, next], [e]);
    assert [e][..0] == [];
  }

  lemma Joined(p: Path, sys: Sys, q: Path, r: Path)
    requires Leads(p, sys) && Leads(q, End(p))
    requires r == Path(p.states + q.states[1..], p.events + q.events)
    ensures Leads(r, sys)
  {
    var n := |p.events|;
    forall k | 0 <= k < |r.events| ensures Step(r.states[k], r.events[k], r.states[k + 1]) {
      if k < n { assert Step(p.states[k], p.events[k], p.states[k + 1]); }
      else { assert Step(q.states[k - n], q.events[k - n], q.states[k - n + 1]); }
    }
  }

  lemma Join(p: Path, sys: Sys, q: Path) returns (r: Path)
    requires Leads(p, sys) && Leads(q, End(p))
    ensures Leads(r, sys) && End(r) == End(q) && Serves(r.events) == Serves(p.events) + Serves(q.events)
    ensures AllTended(r) ==> Progress(End(p)) && Progress(End(q))
  {
    r := Path(p.states + q.states[1..], p.events + q.events);
    Joined(p, sys, q, r);
    ServesAdd(p.events, q.events);
    assert r.states[|p.events|] == End(p) && r.states[|r.events|] == End(q);
  }

  lemma StepGood(sys: Sys, e: Event, next: Sys)
    requires Good(sys) && Step(sys, e, next)
    ensures Good(next) && |sys.core.servings| <= |next.core.servings|
  {
    StepKeepsGood(sys, e);
  }

  lemma {:induction false} PathGood(p: Path, sys: Sys, k: nat)
    requires Good(sys) && Leads(p, sys) && k < |p.states|
    ensures Good(p.states[k]) && |sys.core.servings| <= |p.states[k].core.servings|
  {
    if k > 0 {
      PathGood(p, sys, k - 1);
      StepGood(p.states[k - 1], p.events[k - 1], p.states[k]);
    }
  }

  // ---- draining a detached supplier ---------------------------------------------------------------------------

  /** How long a frame of a detached supplier with `n` servings can still run. */
  function Weight(f: Frame, n: nat): int {
    match f
    case Greeting(_) => 3
    case GreetingAll => 3 * n + 3
    case Subscribing(One, _, _) => 2
    case Resuming(One, _, _) => 1
    case Subscribing(All, s, _) => 3 * (n - s) + 2
    case Resuming(All, s, _) => 3 * (n - s) + 1
  }

  lemma ContinueLighter(c: Core, from: nat)
    requires ValidCore(c)
    ensures var f := Continue(c, from).1;
            f.Some? ==> 0 < Weight(f.value, |c.servings|) <= 3 * (|c.servings| - from) + 2
  {
    var n := NextRegistered(c.registered, from, |c.servings|);
    if n.Some? { BeginAttachValid(c, All, n.value); }
  }

  lemma ResumeLighter(c: Core, f: Frame)
    requires ValidCore(c) && !f.Subscribing? && (f.GreetingAll? || f.s < |c.servings|)
    ensures var g := Resume(c, f).1; g.Some? ==> 0 < Weight(g.value, |c.servings|) < Weight(f, |c.servings|)
  {
    if f.Greeting? {
      BeginAttachValid(c, One, f.s);
    } else if f.GreetingAll? {
      ContinueLighter(c, 0);
    } else if f.caller.All? && !f.threw {
      ContinueLighter(c, f.s + 1);
    }
  }

  /** The event that lets a frame run on. */
  function Runs(f: Frame): Event { if f.Subscribing? then Settles(f, false, false) else Resumes(f) }

  /** A detached supplier's frame runs on without scheduling anything. */
  lemma RunsOn(sys: Sys, f: Frame) returns (next: Sys, g: Option<Frame>)
    requires Good(sys) && sys.core.detached && f in sys.frames
    ensures Step(sys, Runs(f), next) && Good(next) && next.core.detached && next.core.timers == sys.core.timers
    ensures |next.core.servings| == |sys.core.servings|
    ensures next.frames == sys.frames - multiset{f} + (if g.Some? then multiset{g.value} else multiset{})
    ensures g.Some? ==> 0 < Weight(g.value, |sys.core.servings|) < Weight(f, |sys.core.servings|)
  {
    next := Next(sys, Runs(f));
    StepKeepsGood(sys, Runs(f));
    if f.Subscribing? {
      g := Settle(sys.core, f, false, false).1;
    } else {
      g := Resume(sys.core, f).1;
      ResumeValid(sys.core, f);
      ResumeDetached(sys.core, f);
      ResumeLighter(sys.core, f);
    }
  }

  /** What draining comes to. */
  ghost predicate Drained(sys: Sys, end: Sys, frames: multiset<Frame>, timers: set<nat>) {
    && Good(end) && end.core.detached && end.frames == frames && end.core.timers == timers
    && |end.core.servings| == |sys.core.servings|
  }

  ghost predicate Drains(p: Path, sys: Sys, frames: multiset<Frame>, timers: set<nat>) {
    Leads(p, sys) && Serves(p.events) == 0 && Drained(sys, End(p), frames, timers)
  }

  lemma DrainOn(p: Path, sys: Sys, q: Path, frames: multiset<Frame>, timers: set<nat>) returns (r: Path)
    requires Leads(p, sys) && Serves(p.events) == 0 && |End(p).core.servings| == |sys.core.servings|
    requires Drains(q, End(p), frames, timers)
    ensures Drains(r, sys, frames, timers)
  {
    r := Join(p, sys, q);
  }

  lemma {:induction false} DrainFrame(sys: Sys, f: Frame) returns (p: Path)
    requires Good(sys) && sys.core.detached && f in sys.frames
    ensures Drains(p, sys, sys.frames - multiset{f}, sys.core.timers)
    decreases Weight(f, |sys.core.servings|)
  {
    var next, g := RunsOn(sys, f);
    p := Only(sys, Runs(f), next);
    if g.Some? {
      var q := DrainFrame(next, g.value);
      assert next.frames - multiset{g.value} == sys.frames - multiset{f};
      p := DrainOn(p, sys, q, sys.frames - multiset{f}, sys.core.timers);
    }
  }

  lemma {:induction false} DrainFrames(sys: Sys) returns (p: Path)
    requires Good(sys) && sys.core.detached
    ensures Drains(p, sys, multiset{}, sys.core.timers)
    decreases |sys.frames|
  {
    if sys.frames == multiset{} {
      p := Path([sys], []);
    } else {
      var f :| f in sys.frames;
      p := DrainFrame(sys, f);
      var q := DrainFrames(End(p));
      p := DrainOn(p, sys, q, multiset{}, sys.core.timers);
    }
  }

  lemma {:induction false} DrainTimers(sys: Sys) returns (p: Path)
    requires Good(sys) && sys.core.detached
    ensures Drains(p, sys, sys.frames, {})
    decreases |sys.core.timers|
  {
    if sys.core.timers == {} {
      p := Path([sys], []);
    } else {
      var t :| t in sys.core.timers;
      var next := Next(sys, Fires(t));
      StepKeepsGood(sys, Fires(t));
      p := Only(sys, Fires(t), next);
      var q := DrainTimers(next);
      p := DrainOn(p, sys, q, sys.frames, {});
    }
  }

  /** Everything at work in a detached supplier comes to an end without another serving. */
  lemma Drain(sys: Sys) returns (p: Path)
    requires Good(sys) && sys.core.detached
    ensures Drains(p, sys, multiset{}, {})
  {
    p := DrainTimers(sys);
    var q := DrainFrames(End(p));
    p := DrainOn(p, sys, q, multiset{}, {});
  }

  // ---- abandoned ----------------------------------------------------------------------------------------------

  /** And if its subscribe is refused nothing is scheduled to try it again: once the frames at work before
      are gone it stays registered and untended. */
  lemma Abandoned(sys: Sys, share: bool) returns (a: Sys, b: Sys, c: Sys, d: Sys)
    requires Good(sys) && sys.core.detached && sys.frames == multiset{} && sys.core.timers == {}
    ensures var n := |sys.core.servings|;
            && Step(sys, Serve(share), a) && Step(a, Resumes(Greeting(n)), b)
            && Step(b, Settles(Subscribing(One, n, 1), false, false), c) && Step(c, Resumes(Resuming(One, n, true)), d)
            && !Progress(d)
  {
    var n, x := |sys.core.servings|, ServingState(share, 0, false, None, multiset{}, []);
    a := Next(sys, Serve(share));
    LateServe(sys, share, a);
    b := Next(a, Resumes(Greeting(n)));
    LateGreeting(a, n, x, b);
    assert b.frames == multiset{Subscribing(One, n, 1)};
    c, d := RefusedAndGivenUp(b, n, x.(generation := 1));
    assert n in d.core.registered && n < |d.core.servings|;
  }

  lemma RefusedAndGivenUp(b: Sys, n: nat, x: ServingState) returns (c: Sys, d: Sys)
    requires Has(b, n, x, Subscribing(One, n, 1)) && x == ServingState(x.share, 1, false, None, multiset{}, [])
    requires b.frames == multiset{Subscribing(One, n, 1)} && b.core.timers == {}
    ensures Step(b, Settles(Subscribing(One, n, 1), false, false), c) && Step(c, Resumes(Resuming(One, n, true)), d)
    ensures d.core == b.core && !Tended(d, n)
  {
    c := Next(b, Settles(Subscribing(One, n, 1), false, false));
    LateRefused(b, n, x, c);
    assert c.frames == multiset{Resuming(One, n, true)};
    d := Next(c, Resumes(Resuming(One, n, true)));
    LateGivenUp(c, n, x, d);
    assert d.frames == multiset{};
  }

  lemma PathOf(a: Sys, e: Event, b: Sys, e': Event, c: Sys) returns (p: Path)
    requires Step(a, e, b) && Step(b, e', c)
    ensures Leads(p, a) && End(p) == c && Serves(p.events) == (if e.Serve? then 1 else 0) + if e'.Serve? then 1 else 0
  {
    p := Only(a, e, b);
    var q := Only(b, e', c);
    p := Join(p, a, q);
  }

  lemma AbandonedPath(sys: Sys, share: bool) returns (p: Path)
    requires Good(sys) && sys.core.detached && sys.frames == multiset{} && sys.core.timers == {}
    ensures Leads(p, sys) && Serves(p.events) == 1 && !Progress(End(p))
  {
    var n := |sys.core.servings|;
    var a, b, c, d := Abandoned(sys, share);
    p := PathOf(sys, Serve(share), a, Resumes(Greeting(n)), b);
    var q := PathOf(b, Settles(Subscribing(One, n, 1), false, false), c, Resumes(Resuming(One, n, true)), d);
    p := Join(p, sys, q);
  }

  /** From any state of a detached supplier, whatever is still at work: one more serving, refused, ends up
      registered and untended. */
  lemma LateServingAbandoned(sys: Sys, share: bool) returns (p: Path)
    requires Good(sys) && sys.core.detached
    ensures Leads(p, sys) && Serves(p.events) == 1 && !Progress(End(p))
  {
    p := Drain(sys);
    var q := AbandonedPath(End(p), share);
    p := Join(p, sys, q);
  }

  // ---- tended exactly -----------------------------------------------------------------------------------------

  /** No serving is registered after a `detachAll`. */
  ghost predicate NoLateServe(events: seq<Event>) {
    forall a, b :: 0 <= a < b < |events| && events[a].DetachesAll? ==> !events[b].Serve?
  }

  /** Detached, with nothing registered. */
  ghost predicate Closed(sys: Sys) { sys.core.detached && sys.core.registered == {} }

  lemma ClosedStays(sys: Sys, e: Event, next: Sys)
    requires Good(sys) && Closed(sys) && Step(sys, e, next) && !e.Serve?
    ensures Closed(next)
  {
    DetachedSupplier(sys, e);
    if e.Resumes? { ResumeValid(sys.core, e.f); }
  }

  lemma Closes(sys: Sys, e: Event, next: Sys)
    requires Good(sys) && Step(sys, e, next)
    ensures next.core.detached ==> sys.core.detached || (e.DetachesAll? && Closed(next))
  {
    DetachedSupplier(sys, e);
    if e.Resumes? { ResumeValid(sys.core, e.f); }
  }

  ghost predicate DetachedBefore(events: seq<Event>, k: nat)
    requires k <= |events|
  {
    exists a :: 0 <= a < k && events[a].DetachesAll?
  }

  /** Nothing registered is left behind; once detached, nothing is registered at all. */
  ghost predicate Timely(sys: Sys, detachedBefore: bool) {
    Progress(sys) && (sys.core.detached ==> Closed(sys) && detachedBefore)
  }

  lemma ClosedNext(sys: Sys, e: Event, next: Sys, late: bool)
    requires Good(sys) && Step(sys, e, next) && Timely(sys, late) && (late ==> !e.Serve?)
    ensures Timely(next, late || e.DetachesAll?)
  {
    StepKeepsProgress(sys, e);
    if sys.core.detached { ClosedStays(sys, e, next); } else { Closes(sys, e, next); }
  }

  /** In every run in which nothing is registered after a `detachAll`, every registered serving is tended in
      every state, detached or not. */
  lemma {:induction false} TendedUnlessLate(states: seq<Sys>, events: seq<Event>, k: nat)
    requires Run(states, events) && k < |states| && NoLateServe(events)
    ensures Timely(states[k], DetachedBefore(events, k))
  {
    if k > 0 {
      TendedUnlessLate(states, events, k - 1);
      ReachableGood(states, events, k - 1);
      NotLate(events, k - 1);
      ClosedNext(states[k - 1], events[k - 1], states[k], DetachedBefore(events, k - 1));
    }
  }

  lemma NotLate(events: seq<Event>, k: nat)
    requires NoLateServe(events) && k < |events|
    ensures DetachedBefore(events, k) ==> !events[k].Serve?
    ensures DetachedBefore(events, k + 1) <==> DetachedBefore(events, k) || events[k].DetachesAll?
  {
    if DetachedBefore(events, k) {
      var a :| 0 <= a < k && events[a].DetachesAll?;
      assert a < k + 1;
    }
  }

  lemma {:induction false} ClosedPath(p: Path, sys: Sys, k: nat)
    requires Good(sys) && Closed(sys) && Leads(p, sys) && k < |p.states|
    requires forall n :: 0 <= n < |p.events| ==> !p.events[n].Serve?
    ensures Closed(p.states[k])
  {
    if k > 0 {
      ClosedPath(p, sys, k - 1);
      PathGood(p, sys, k - 1);
      ClosedStays(p.states[k - 1], p.events[k - 1], p.states[k]);
    }
  }

  lemma {:induction false} NoneServed(events: seq<Event>, n: nat)
    requires Serves(events) == 0 && n < |events|
    ensures !events[n].Serve?
    decreases |events|
  {
    if n < |events| - 1 { NoneServed(events[..|events| - 1], n); }
  }

  lemma {:induction false} ServeOn(sys: Sys, n: nat) returns (p: Path)
    requires Good(sys)
    ensures Leads(p, sys) && Serves(p.events) == n && Good(End(p)) && End(p).core.detached == sys.core.detached
    ensures |End(p).core.servings| == |sys.core.servings| + n
    decreases n
  {
    if n == 0 {
      p := Path([sys], []);
    } else {
      var next := Next(sys, Serve(false));
      StepKeepsGood(sys, Serve(false));
      p := Only(sys, Serve(false), next);
      var q := ServeOn(next, n - 1);
      p := Join(p, sys, q);
    }
  }

  lemma AbandonedAmong(sys: Sys, n: nat) returns (p: Path)
    requires Good(sys) && sys.core.detached && 0 < n
    ensures Leads(p, sys) && Serves(p.events) == n && !AllTended(p)
  {
    p := LateServingAbandoned(sys, false);
    PathGood(p, sys, |p.events|);
    var q := ServeOn(End(p), n - 1);
    p := Join(p, sys, q);
  }

  /** After `detachAll`: every registered serving stays tended, whatever happens, if and only if no further
      serving is registered. */
  lemma TendedExactly(sys: Sys, n: nat)
    requires Good(sys) && Closed(sys)
    ensures (forall p: Path :: Leads(p, sys) && Serves(p.events) == n ==> AllTended(p)) <==> n == 0
  {
    if n == 0 {
      forall p: Path | Leads(p, sys) && Serves(p.events) == 0 ensures AllTended(p) {
        forall m | 0 <= m < |p.events| ensures !p.events[m].Serve? { NoneServed(p.events, m); }
        forall k | 0 <= k < |p.states| ensures Progress(p.states[k]) { ClosedPath(p, sys, k); }
      }
    } else {
      var p := AbandonedAmong(sys, n);
    }
  }

  // ---- after a drop -------------------------------------------------------------------------------------------

  lemma {:induction false} StalePath(p: Path, sys: Sys, f: Frame, k: nat)
    requires Good(sys) && Leads(p, sys) && k < |p.states| && Stale(sys, f)
    ensures Stale(p.states[k], f)
  {
    if k > 0 {
      StalePath(p, sys, f, k - 1);
      PathGood(p, sys, k - 1);
      StaleStays(p.states[k - 1], p.events[k - 1], p.states[k], f);
    }
  }

  lemma DropStales(sys: Sys, next: Sys, f: Frame)
    requires Good(sys) && Step(sys, Event.Drops, next) && !sys.core.detached && f in sys.frames && f.Subscribing?
    ensures Stale(next, f)
  {
    ServingMoves(sys, Event.Drops, f.s);
    assert Fenced(sys.frames, sys.core.servings[f.s], f.s);
    match f.caller
    case One => assert f == Subscribing(One, f.s, f.generation);
    case All => assert f == Subscribing(All, f.s, f.generation);
    assert InFlight(sys.frames, f.s, f.generation) > 0;
  }

  /** Whatever happens after a drop, the ack or refusal of a subscribe that was in flight at the drop hooks, serves,
      throws and schedules nothing. */
  lemma DroppedAcksIgnored(sys: Sys, next: Sys, p: Path, k: nat, f: Frame)
    requires Good(sys) && Step(sys, Event.Drops, next) && !sys.core.detached && f in sys.frames && f.Subscribing?
    requires Leads(p, next) && k < |p.events| && p.events[k].Settles? && p.events[k].f == f
    ensures p.states[k + 1].core == p.states[k].core
    ensures p.states[k + 1].frames == p.states[k].frames - multiset{f} + multiset{Resuming(f.caller, f.s, false)}
  {
    StepGood(sys, Event.Drops, next);
    DropStales(sys, next, f);
    StalePath(p, next, f, k);
    PathGood(p, next, k);
    assert Step(p.states[k], p.events[k], p.states[k + 1]);
    StaleIgnored(p.states[k], f, p.events[k].ok, p.events[k].serveThrows, p.states[k + 1]);
  }

  lemma GreetsStep(sys: Sys, e: Event, next: Sys)
    requires Good(sys) && Step(sys, e, next)
    ensures next.core.hellos == sys.core.hellos + (if Greets(sys.core, e) && !sys.core.helloed then 1 else 0)
    ensures next.core.helloed == (Greets(sys.core, e) || (sys.core.helloed && !Forgets(sys.core, e)))
  {
    GreetsExactly(sys, e);
  }

  /** Up to the first step that attaches again nothing is greeted, and that step greets. */
  lemma {:induction false} GreetsAgain(p: Path, sys: Sys, k: nat)
    requires Good(sys) && Leads(p, sys) && k <= |p.events| && !sys.core.helloed
    requires forall n :: 0 <= n < k ==> !Greets(p.states[n].core, p.events[n])
    ensures !p.states[k].core.helloed && p.states[k].core.hellos == sys.core.hellos
    ensures k < |p.events| && Greets(p.states[k].core, p.events[k])
            ==> p.states[k + 1].core.hellos == sys.core.hellos + 1 && p.states[k + 1].core.helloed
  {
    if k > 0 {
      GreetsAgain(p, sys, k - 1);
      PathGood(p, sys, k - 1);
      GreetsStep(p.states[k - 1], p.events[k - 1], p.states[k]);
    }
    if k < |p.events| {
      PathGood(p, sys, k);
      GreetsStep(p.states[k], p.events[k], p.states[k + 1]);
    }
  }

  /** A connection that was greeted is not greeted again until it drops or reattaching fails. */
  lemma {:induction false} GreetedOnce(p: Path, sys: Sys, k: nat)
    requires Good(sys) && Leads(p, sys) && k <= |p.events| && sys.core.helloed
    requires forall n :: 0 <= n < k ==> !Forgets(p.states[n].core, p.events[n])
    ensures p.states[k].core.helloed && p.states[k].core.hellos == sys.core.hellos
  {
    if k > 0 {
      GreetedOnce(p, sys, k - 1);
      PathGood(p, sys, k - 1);
      GreetsStep(p.states[k - 1], p.events[k - 1], p.states[k]);
    }
  }

  // ---- hooked exactly -----------------------------------------------------------------------------------------

  ghost predicate Hooked(sys: Sys, s: nat) {
    s < |sys.core.servings| && Effective(sys.core.servings[s]) == 1
  }

  lemma QuietNext(p: Path, sys: Sys, s: nat, k: nat, x: ServingState)
    requires Good(sys) && Leads(p, sys) && k < |p.events| && StillQuiet(p.states[k], s, x)
    ensures StillQuiet(p.states[k + 1], s, x)
  {
    PathGood(p, sys, k);
    StepQuiet(p.states[k], p.events[k], p.states[k + 1], s, x);
  }

  lemma {:induction false} QuietPath(p: Path, sys: Sys, s: nat, k: nat, x: ServingState)
    requires Good(sys) && Leads(p, sys) && k < |p.states| && StillQuiet(sys, s, x)
    ensures StillQuiet(p.states[k], s, x)
  {
    if k > 0 {
      QuietPath(p, sys, s, k - 1, x);
      QuietNext(p, sys, s, k - 1, x);
    }
  }

  /** Once a serving is detached, no later ack hooks or serves it again, in any run. */
  lemma DetachedForGood(states: seq<Sys>, events: seq<Event>, i: nat, j: nat, s: nat)
    requires Run(states, events) && i <= j < |states|
    requires s < |states[i].core.servings| && states[i].core.servings[s].detached
    ensures s < |states[j].core.servings| && Quiet(states[i].core.servings[s], states[j].core.servings[s])
  {
    ReachableGood(states, events, i);
    var p := Path(states[i..], events[i..]);
    forall k | 0 <= k < |p.events| ensures Step(p.states[k], p.events[k], p.states[k + 1]) {
      assert Step(states[i + k], events[i + k], states[i + k + 1]);
    }
    DetachedIsQuiet(states[i], s);
    QuietPath(p, states[i], s, j - i, states[i].core.servings[s]);
  }

  lemma LateHooks(sys: Sys, s: nat) returns (p: Path)
    requires Good(sys) && sys.core.detached && |sys.core.servings| <= s
    ensures Leads(p, sys) && Hooked(End(p), s)
  {
    var served := ServeOn(sys, s - |sys.core.servings|);
    p := LateHookOn(sys, served, s);
  }

  lemma LateHookOn(sys: Sys, p: Path, s: nat) returns (r: Path)
    requires Leads(p, sys) && Good(End(p)) && End(p).core.detached && |End(p).core.servings| == s
    ensures Leads(r, sys) && Hooked(End(r), s)
  {
    var q := LateHook(End(p));
    r := Join(p, sys, q);
  }

  lemma LateHook(sys: Sys) returns (p: Path)
    requires Good(sys) && sys.core.detached
    ensures Leads(p, sys) && Hooked(End(p), |sys.core.servings|)
  {
    var s := |sys.core.servings|;
    var a, b, c := LateServingAttaches(sys, false);
    p := ThreeSteps(sys, Serve(false), a, Resumes(Greeting(s)), b, Settles(Subscribing(One, s, 1), true, false), c);
  }

  lemma ThreeSteps(a: Sys, e: Event, b: Sys, e': Event, c: Sys, e'': Event, d: Sys) returns (p: Path)
    requires Step(a, e, b) && Step(b, e', c) && Step(c, e'', d)
    ensures Leads(p, a) && End(p) == d
  {
    p := PathOf(a, e, b, e', c);
    var q := Only(c, e'', d);
    p := Join(p, a, q);
  }

  /** After `detachAll` a serving can still come to be hooked if and only if it is registered after it. */
  lemma HookedExactly(sys: Sys, end: Sys, s: nat)
    requires Good(sys) && Step(sys, DetachesAll, end)
    ensures (exists p: Path :: Leads(p, end) && Hooked(End(p), s)) <==> |sys.core.servings| <= s
  {
    StepKeepsGood(sys, DetachesAll);
    DetachedSupplier(sys, DetachesAll);
    if s < |sys.core.servings| {
      DetachedIsQuiet(end, s);
      forall p: Path | Leads(p, end) ensures !Hooked(End(p), s) {
        QuietPath(p, end, s, |p.events|, end.core.servings[s]);
      }
    } else {
      var p := LateHooks(end, s);
    }
  }
}
