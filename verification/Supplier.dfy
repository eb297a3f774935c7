/** The supplier's objects: servings and the supplier that reattaches them. Each method is the code between
    two awaits; what it returns is the frame it suspends as. */
module Supplier {
  import opened Wrappers
  import opened SupplierSteps

  datatype Shape = Exchange | Value | Log

  datatype PublishError = WrongShape | ServingDetached

  datatype Published = Published(shape: Shape, payload: seq<bv8>)

  /** An exchange provider or a share publisher; the two differ in `onServe` and in publishing. */
  class Serving {
    const shape: Shape
    var generation: nat
    var detached: bool
    /** The generation whose handler the stored unsubscribe removes. */
    var hook: Option<nat>
    /** The generations of the handlers the session holds for this serving. */
    var installed: multiset<nat>
    var served: seq<nat>
    /** What the session was asked to append. */
    var appended: seq<Published>

    function State(): ServingState
      reads this
    {
      ServingState(shape != Exchange, generation, detached, hook, installed, served)
    }

    constructor (shape: Shape)
      ensures State() == ServingState(shape != Exchange, 0, false, None, multiset{}, []) && this.shape == shape
      ensures appended == []
    {
      this.shape := shape;
      generation, detached, hook, installed, served, appended := 0, false, None, multiset{}, [], [];
    }

    method Unhook()
      modifies this
      ensures State() == Unhooked(old(State())) && appended == old(appended)
    {
      if hook.Some? { installed := installed - multiset{hook.value}; }
      hook := None;
    }

    /** Up to the await of the subscribe; returns the generation it waits for, if any. */
    method Begin() returns (g: Option<nat>)
      modifies this
      ensures (State(), g) == Attach(old(State())) && appended == old(appended)
    {
      if detached { return None; }
      generation := generation + 1;
      Unhook();
      return Some(generation);
    }

    /** After the subscribe settled: hook and serve unless superseded; throw only if still current. */
    method Settled(g: nat, ok: bool, serveThrows: bool) returns (threw: bool)
      modifies this
      ensures State() == if ok then Acked(old(State()), g) else old(State())
      ensures threw <==> Current(old(State()), g) && (ok ==> shape != Exchange && serveThrows)
      ensures appended == old(appended)
    {
      if !ok { return !detached && g == generation; }
      if detached || g != generation { return false; }
      installed := installed + multiset{g};
      hook := Some(g);
      if shape == Exchange { return false; }
      served := served + [g];
      return serveThrows;
    }

    method MarkDropped()
      modifies this
      ensures State() == Dropped(old(State())) && appended == old(appended)
    {
      generation := generation + 1;
      hook := None;
    }

    method Detach()
      modifies this
      ensures State() == Detached(old(State())) && appended == old(appended)
    {
      detached := true;
      generation := generation + 1;
      Unhook();
    }

    /** The share controller: a value is set, a log appended to, and a detached serving publishes nothing. */
    method Publish(asShape: Shape, payload: seq<bv8>) returns (r: Result<Published, PublishError>)
      requires asShape != Exchange
      modifies this`appended
      ensures r.Ok? <==> shape == asShape && !detached
      ensures r.Ok? ==> r.value == Published(shape, payload) && appended == old(appended) + [r.value]
      ensures r.Err?
              ==> appended == old(appended) && r.error == if shape != asShape then WrongShape else ServingDetached
    {
      if shape != asShape { return Err(WrongShape); }
      if detached { return Err(ServingDetached); }
      appended := appended + [Published(shape, payload)];
      return Ok(Published(shape, payload));
    }
  }

  function States(servings: seq<Serving>): (r: seq<ServingState>)
    reads servings
    ensures |r| == |servings| && forall i :: 0 <= i < |r| ==> r[i] == servings[i].State()
  {
    if servings == [] then [] else States(servings[..|servings| - 1]) + [servings[|servings| - 1].State()]
  }

  ghost predicate Distinct(servings: seq<Serving>) {
    forall i, j :: 0 <= i < j < |servings| ==> servings[i] != servings[j]
  }

  class Supplier {
    /** Every serving ever made, in registration order; `registered` are those still in the set. */
    var servings: seq<Serving>
    var registered: set<nat>
    /** Timers scheduled and not fired; `cancel` is the one the stored cancel function refers to. */
    var timers: set<nat>
    var cancel: Option<nat>
    var nextTimer: nat
    var attempt: nat
    var helloed: bool
    var detached: bool
    /** How many hellos went out. */
    var hellos: nat

    function State(): Core
      reads this, servings
    {
      Core(States(servings), registered, timers, cancel, nextTimer, attempt, helloed, detached, hellos)
    }

    /** The servings are distinct objects; that the state is also a `ValidCore` is kept by every step. */
    ghost predicate Valid()
      reads this
    {
      Distinct(servings)
    }

    constructor ()
      ensures Valid() && State() == NEW_CORE && servings == []
    {
      servings, registered, timers, cancel, nextTimer := [], {}, {}, None, 0;
      attempt, helloed, detached, hellos := 0, false, false, 0;
    }

    /** `ensureHello` up to its await. */
    method EnsureHello()
      modifies `helloed, `hellos
      ensures State() == Hello(old(State()))
    {
      if helloed { return; }
      helloed := true;
      hellos := hellos + 1;
    }

    method ScheduleReattach()
      modifies `timers, `cancel, `nextTimer
      ensures State() == Scheduled(old(State()))
    {
      if detached { return; }
      timers, cancel, nextTimer := timers + {nextTimer}, Some(nextTimer), nextTimer + 1;
    }

    /** `s.attach()` up to its await. */
    method AttachServing(caller: Caller, s: nat) returns (f: Option<Frame>)
      requires Valid() && s < |servings|
      modifies servings
      ensures (State(), f) == BeginAttach(old(State()), caller, s)
    {
      var g := servings[s].Begin();
      f := Some(if g.Some? then Subscribing(caller, s, g.value) else Resuming(caller, s, false));
      assert States(servings) == old(States(servings))[s := Attach(old(States(servings))[s]).0];
    }

    /** `reattachAll`'s loop over the live set, from the serving after the last one on. */
    method ReattachFrom(from: nat) returns (f: Option<Frame>)
      requires Valid() && ValidCore(State())
      modifies `attempt, servings
      ensures (State(), f) == Continue(old(State()), from)
    {
      var s := from;
      while s < |servings| && s !in registered
        invariant from <= s
        invariant NextRegistered(registered, from, |servings|) == NextRegistered(registered, s, |servings|)
      {
        s := s + 1;
      }
      if s < |servings| {
        f := AttachServing(All, s);
      } else {
        attempt := 0;
        f := None;
      }
    }

    method Enlist(shape: Shape)
      requires Valid()
      modifies `servings, `registered
      ensures Valid() && |servings| == |old(servings)| + 1 && servings[..|old(servings)|] == old(servings)
      ensures fresh(servings[|old(servings)|])
      ensures State() == Enlisted(old(State()), shape != Exchange)
    {
      var s := new Serving(shape);
      assert States(servings) == old(States(servings));
      registered := registered + {|servings|};
      servings := servings + [s];
      assert servings[..|servings| - 1] == old(servings);
    }

    /** Registers a serving for a surface of the given shape; `attachOne` runs up to its first await. */
    method Register(shape: Shape) returns (f: Option<Frame>)
      requires Valid()
      modifies `servings, `registered, `helloed, `hellos
      ensures (State(), f) == SupplierSteps.Register(old(State()), shape != Exchange)
      ensures Valid() && |servings| == |old(servings)| + 1 && servings[..|old(servings)|] == old(servings)
      ensures fresh(servings[|old(servings)|])
    {
      var s := |servings|;
      Enlist(shape);
      EnsureHello();
      f := Some(Greeting(s));
    }

    /** `attachOne` after its attach settled. */
    method AttachOneEnds(s: nat, threw: bool)
      requires Valid() && ValidCore(State()) && s < |servings|
      modifies `attempt, `timers, `cancel, `nextTimer
      ensures (State(), None) == Resume(old(State()), Resuming(One, s, threw))
    {
      if !threw {
        attempt := 0;
      } else if s in registered {
        ScheduleReattach();
      }
    }

    method ReattachFails()
      modifies `attempt, `helloed, `timers, `cancel, `nextTimer
      ensures State() == Scheduled(old(State()).(attempt := old(attempt) + 1, helloed := false))
    {
      attempt := attempt + 1;
      helloed := false;
      ScheduleReattach();
    }

    /** A suspended frame whose awaited promise settled runs on. */
    method Run(g: Frame) returns (f: Option<Frame>)
      requires Valid() && ValidCore(State()) && !g.Subscribing? && (g.GreetingAll? || g.s < |servings|)
      modifies `attempt, `helloed, `timers, `cancel, `nextTimer, servings
      ensures (State(), f) == Resume(old(State()), g)
    {
      match g
      case Greeting(s) => f := AttachServing(One, s);
      case GreetingAll => f := ReattachFrom(0);
      case Resuming(One, s, threw) =>
        AttachOneEnds(s, threw);
        f := None;
      case Resuming(All, s, threw) =>
        f := ReattachResumes(s, threw);
    }

    /** `reattachAll` after an attach settled. */
    method ReattachResumes(s: nat, threw: bool) returns (f: Option<Frame>)
      requires Valid() && ValidCore(State()) && s < |servings|
      modifies `attempt, `helloed, `timers, `cancel, `nextTimer, servings
      ensures (State(), f)
              == if threw then (Scheduled(old(State()).(attempt := old(attempt) + 1, helloed := false)), None)
                 else Continue(old(State()), s + 1)
    {
      if threw {
        ReattachFails();
        return None;
      }
      f := ReattachFrom(s + 1);
    }

    /** The session settles a subscribe. */
    method SubscribeSettled(g: Frame, ok: bool, serveThrows: bool) returns (f: Option<Frame>)
      requires Valid() && g.Subscribing? && g.s < |servings|
      modifies servings
      ensures (State(), f) == Settle(old(State()), g, ok, serveThrows)
    {
      ghost var was := States(servings);
      var threw := servings[g.s].Settled(g.generation, ok, serveThrows);
      f := Some(Resuming(g.caller, g.s, threw));
      assert States(servings) == if ok then was[g.s := Acked(was[g.s], g.generation)] else was;
    }

    /** A timer fires: `reattachAll` up to its first await. */
    method TimerFires(t: nat) returns (f: Option<Frame>)
      requires Valid() && t in timers
      modifies `timers, `helloed, `hellos
      ensures (State(), f) == Fire(old(State()), t)
    {
      timers := timers - {t};
      if detached { return None; }
      EnsureHello();
      return Some(GreetingAll);
    }

    method MarkAllDropped()
      requires Distinct(servings)
      modifies servings
      ensures State() == old(State()).(servings := MapRegistered(old(States(servings)), registered, Dropped))
    {
      ghost var was := States(servings);
      for s := 0 to |servings|
        invariant forall i :: 0 <= i < |servings| ==>
                    servings[i].State() == if i < s && i in registered then Dropped(was[i]) else was[i]
      {
        if s in registered { servings[s].MarkDropped(); }
      }
      assert States(servings) == MapRegistered(was, registered, Dropped);
    }

    /** The link dropped. */
    method OnDrop()
      requires Valid()
      modifies `attempt, `helloed, `timers, `cancel, `nextTimer, servings
      ensures State() == DropAll(old(State()))
    {
      if detached { return; }
      MarkAllDropped();
      StartOver();
    }

    /** A new connection greets again, and the backoff starts over. */
    method StartOver()
      modifies `attempt, `helloed, `timers, `cancel, `nextTimer
      ensures State() == Scheduled(old(State()).(helloed := false, attempt := 0))
    {
      helloed := false;
      attempt := 0;
      ScheduleReattach();
    }

    /** A registration handle's `detach`. */
    method Detach(s: nat)
      requires Valid() && s < |servings|
      modifies `registered, servings
      ensures State() == DetachOne(old(State()), s)
    {
      ghost var was := States(servings);
      registered := registered - {s};
      servings[s].Detach();
      assert States(servings) == was[s := Detached(was[s])];
    }

    method DetachServings()
      requires Distinct(servings)
      modifies servings
      ensures State() == old(State()).(servings := MapRegistered(old(States(servings)), registered, Detached))
    {
      ghost var was := States(servings);
      for s := 0 to |servings|
        invariant forall i :: 0 <= i < |servings| ==>
                    servings[i].State() == if i < s && i in registered then Detached(was[i]) else was[i]
      {
        if s in registered { servings[s].Detach(); }
      }
      assert States(servings) == MapRegistered(was, registered, Detached);
    }

    method Close()
      modifies `detached, `timers, `cancel
      ensures State() == old(State()).(detached := true, cancel := None,
                                       timers := if old(cancel).Some? then old(timers) - {old(cancel).value}
                                           else old(timers))
    {
      detached := true;
      if cancel.Some? { timers := timers - {cancel.value}; }
      cancel := None;
    }

    method Forget()
      modifies `registered
      ensures State() == old(State()).(registered := {})
    {
      registered := {};
    }

    method DetachAll()
      requires Valid()
      modifies `detached, `timers, `cancel, `registered, servings
      ensures State() == SupplierSteps.DetachAll(old(State()))
    {
      Close();
      DetachServings();
      Forget();
    }
  }
}
