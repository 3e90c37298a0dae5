/**
 The process-wide lifecycle guard, and executor work that must be drained before it is given up.

 Tasks and threads interleave freely between the guard's atomic sections: a claim takes three of them and a
 release two.  An owner id belongs to one live task or thread.  Blocking work that a task starts inside the guard
 is a call of the draining helper, whose thread, wrapper and cancellations take their own turns.
 */
module LifecycleGuard {
  import opened Wrappers
  import Draining

  type Actor = nat

  /** Where a task or thread stands with respect to the guard. */
  datatype Phase =
    | Running                    // outside every claim and release; inside the guard if it has frames
    | Checking(waits: bool)      // hold (waits) or try_hold called, owner not yet compared
    | Claiming(waits: bool)      // not the owner; about to try the lock
    | Polling                    // lock busy; asleep before another attempt
    | Recording                  // lock acquired; owner not yet recorded
    | Releasing                  // owner cleared; lock not yet released
    | Awaiting                   // inside the draining helper

  /** What an executor thread does to the model: a load writes three fields one after another. */
  datatype Job = Load(size: string, written: nat) | Inference

  /**
   `frames` lists the active holds, outermost first; a frame is true if it releases the lock.  `call` is the last
   call of the draining helper, and `job` what its thread is doing as long as it works.
   */
  datatype Local = Local(phase: Phase, frames: seq<bool>, job: Option<Job>, call: Option<Draining.Call>)

  /** The backend's three model fields. */
  datatype Model = Model(loaded: Option<string>, currentSize: Option<string>, selectedSize: string)

  const FIELDS := 3

  /** A load assigns the model, then the recorded size, then the selected size. */
  function WriteField(m: Model, size: string, field: nat): Model {
    if field == 0 then m.(loaded := Some(size))
    else if field == 1 then m.(currentSize := Some(size))
    else m.(selectedSize := size)
  }

  function WriteFields(m: Model, size: string, count: nat): Model {
    if count == 0 then m else WriteField(WriteFields(m, size, count - 1), size, count - 1)
  }

  function Unloaded(m: Model): Model {
    m.(loaded := None, currentSize := None)
  }

  /** The shared state: the real lock, the recorded owner, and the model that the guard protects. */
  datatype Guard = Guard(
    locked: bool,
    owner: Option<Actor>,
    model: Model,
    nonOwnerRelease: bool)      // "lifecycle guard released by a non-owner" was raised

  datatype State = State(guard: Guard, actors: map<Actor, Local>)

  datatype Action =
    | Enter(waits: bool) | CheckOwner | TryLock | Retry | CancelWait | RecordOwner
    | Exit | FreeLock
    | StartJob(work: Job) | ThreadWrites | ThreadEnds(failed: bool)
    | InCall(event: Draining.Event)       // any other event of the actor's helper call
    | Unload

  const CANCEL_WRAPPER := InCall(Draining.CancelWrapper)

  predicate Inside(l: Local) {
    l.frames != []
  }

  /** The call goes on, and the actor with it when the helper leaves. */
  function Advanced(l: Local, e: Draining.Event): Option<Local>
    requires l.call.Some?
  {
    match Draining.Step(l.call.value, e)
    case None => None
    case Some(c) =>
      Some(l.(call := Some(c), phase := if l.phase.Awaiting? && c.helper.Left? then Running else l.phase))
  }

  /** One atomic step of the actor `a`, if it is possible: its effect on the shared state and on the actor. */
  function Effect(g: Guard, a: Actor, l: Local, action: Action): Option<(Guard, Local)> {
    match action
    case Enter(waits) =>
      if !l.phase.Running? then None else Some((g, l.(phase := Checking(waits))))
    case CheckOwner =>
      if !l.phase.Checking? then None
      else if g.owner == Some(a) then Some((g, l.(phase := Running, frames := l.frames + [false])))
      else Some((g, l.(phase := Claiming(l.phase.waits))))
    case TryLock =>
      if !l.phase.Claiming? then None
      else if !g.locked then Some((g.(locked := true), l.(phase := Recording)))
      else Some((g, l.(phase := if l.phase.waits then Polling else Running)))
    case Retry =>
      if !l.phase.Polling? then None else Some((g, l.(phase := Checking(true))))
    case CancelWait =>
      if !l.phase.Polling? then None else Some((g, l.(phase := Running)))
    case RecordOwner =>
      if !l.phase.Recording? then None
      else Some((g.(owner := Some(a)), l.(phase := Running, frames := l.frames + [true])))
    case Exit =>
      if !l.phase.Running? || l.frames == [] then None
      else
        var outer := l.frames[..|l.frames| - 1];
        if !l.frames[|l.frames| - 1] then Some((g, l.(frames := outer)))
        else if g.owner != Some(a) then Some((g.(nonOwnerRelease := true), l.(frames := outer)))
        else Some((g.(owner := None), l.(phase := Releasing, frames := outer)))
    case FreeLock =>
      if !l.phase.Releasing? then None else Some((g.(locked := false), l.(phase := Running)))
    case StartJob(work) =>
      if !l.phase.Running? || l.frames == [] || l.job.Some? || (work.Load? && work.written != 0) then None
      else Some((g, l.(phase := Awaiting, job := Some(work), call := Some(Draining.STARTED))))
    case ThreadWrites =>
      if l.job.None? || l.job.value.Inference? || l.job.value.written >= FIELDS then None
      else
        var Load(size, written) := l.job.value;
        Some((g.(model := WriteField(g.model, size, written)), l.(job := Some(Load(size, written + 1)))))
    case ThreadEnds(failed) =>
      if l.job.None? || l.call.None? || (!failed && l.job.value.Load? && l.job.value.written < FIELDS) then None
      else
        (match Advanced(l, Draining.ThreadEnds(failed))
         case None => None
         case Some(m) => Some((g, m.(job := None))))
    case InCall(e) =>
      if l.call.None? || e.ThreadEnds? then None
      else
        (match Advanced(l, e)
         case None => None
         case Some(m) => Some((g, m)))
    case Unload =>
      if !l.phase.Running? || l.frames == [] || g.model.loaded.None? then None
      else Some((g.(model := Unloaded(g.model)), l))
  }

  function Step(s: State, a: Actor, action: Action): Option<State>
    requires a in s.actors
  {
    match Effect(s.guard, a, s.actors[a], action)
    case None => None
    case Some((g, l)) => Some(State(g, s.actors[a := l]))
  }

  // ---- The invariant ----

  /** The actor holds the lock, from acquiring it to freeing it. */
  predicate Token(l: Local) {
    l.frames != [] || l.phase.Recording? || l.phase.Releasing?
  }

  /** Only the outermost frame releases; an actor in the middle of claiming or releasing has no frames. */
  predicate WellFormed(l: Local) {
    && (l.frames != [] ==> l.frames[0] && forall i :: 0 < i < |l.frames| ==> !l.frames[i])
    && (l.phase.Claiming? || l.phase.Polling? || l.phase.Recording? || l.phase.Releasing? ==> l.frames == [])
    && (l.phase.Awaiting? ==> l.frames != [])
    && (l.phase.Awaiting? <==> l.call.Some? && !l.call.value.helper.Left?)
    && (l.job.Some? <==> l.call.Some? && l.call.value.thread.Working?)
    && (l.call.Some? ==> Draining.Drained(l.call.value))
  }

  /** What holds between the shared state and one actor. */
  predicate Agrees(g: Guard, a: Actor, l: Local) {
    && WellFormed(l)
    && (Token(l) ==> g.locked)
    && (g.owner == Some(a) <==> Inside(l))
  }

  ghost predicate Inv(s: State) {
    && !s.guard.nonOwnerRelease
    && (s.guard.owner.Some? ==> s.guard.owner.value in s.actors)
    && (forall a :: a in s.actors ==> Agrees(s.guard, a, s.actors[a]))
    && (forall a, b :: a in s.actors && b in s.actors && Token(s.actors[a]) && Token(s.actors[b]) ==> a == b)
    && (s.guard.locked ==> exists a :: a in s.actors && Token(s.actors[a]))
  }

  /** A step keeps its own actor in agreement with the shared state, and never releases what it does not own. */
  lemma EffectAgrees(g: Guard, a: Actor, l: Local, action: Action)
    requires Agrees(g, a, l) && Effect(g, a, l, action).Some?
    ensures var (h, m) := Effect(g, a, l, action).value;
            && Agrees(h, a, m)
            && h.nonOwnerRelease == g.nonOwnerRelease
            && (h.owner == g.owner || h.owner == Some(a) || h.owner == None)
            && (Token(l) && !Token(m) ==> !h.locked)
            && (!Token(l) && !Token(m) ==> h.locked == g.locked)
  {
    match action
    case ThreadEnds(failed) => CallAgrees(g, a, l, Draining.ThreadEnds(failed));
    case InCall(e) => CallAgrees(g, a, l, e);
    case _ => ClaimAgrees(g, a, l, action);
  }

  /** What an event of its helper call makes of an actor, whose thread's end ends its job. */
  function Called(l: Local, e: Draining.Event): Option<Local>
    requires l.call.Some?
  {
    match Advanced(l, e)
    case None => None
    case Some(m) => Some(if e.ThreadEnds? then m.(job := None) else m)
  }

  lemma {:induction false} CallAgrees(g: Guard, a: Actor, l: Local, e: Draining.Event)
    requires Agrees(g, a, l) && l.call.Some? && Called(l, e).Some?
    ensures Agrees(g, a, Called(l, e).value) && Called(l, e).value.frames == l.frames
    ensures Token(Called(l, e).value) == Token(l)
  {
    Draining.StepDrains(l.call.value, e);
  }

  lemma {:induction false} ClaimAgrees(g: Guard, a: Actor, l: Local, action: Action)
    requires Agrees(g, a, l) && Effect(g, a, l, action).Some? && !action.InCall? && !action.ThreadEnds?
    ensures var (h, m) := Effect(g, a, l, action).value;
            && Agrees(h, a, m)
            && h.nonOwnerRelease == g.nonOwnerRelease
            && (h.owner == g.owner || h.owner == Some(a) || h.owner == None)
            && (Token(l) && !Token(m) ==> !h.locked)
            && (!Token(l) && !Token(m) ==> h.locked == g.locked)
  {
  }

  /** And it keeps every other actor in agreement, without taking the token from it. */
  lemma EffectOnOthers(g: Guard, a: Actor, l: Local, action: Action, b: Actor, other: Local)
    requires a != b && Agrees(g, a, l) && Agrees(g, b, other) && !(Token(l) && Token(other))
    requires Effect(g, a, l, action).Some?
    ensures var (h, m) := Effect(g, a, l, action).value;
            Agrees(h, b, other) && !(Token(m) && Token(other))
  {
  }

  /** Every step keeps the invariant. */
  lemma StepKeepsInv(s: State, a: Actor, action: Action)
    requires Inv(s) && a in s.actors && Step(s, a, action).Some?
    ensures Inv(Step(s, a, action).value)
    ensures Step(s, a, action).value.actors.Keys == s.actors.Keys
  {
    var t := Step(s, a, action).value;
    EffectAgrees(s.guard, a, s.actors[a], action);
    forall b | b in t.actors && b != a
      ensures Agrees(t.guard, b, t.actors[b]) && !(Token(t.actors[a]) && Token(t.actors[b]))
    {
      EffectOnOthers(s.guard, a, s.actors[a], action, b, s.actors[b]);
    }
    if t.guard.locked && !Token(t.actors[a]) {
      var holder :| holder in s.actors && Token(s.actors[holder]);
      assert holder != a && t.actors[holder] == s.actors[holder];
    }
  }

  // ---- Runs ----

  datatype Event = Event(actor: Actor, action: Action)

  function Run(s: State, events: seq<Event>): Option<State> {
    if events == [] then Some(s)
    else
      match Run(s, events[..|events| - 1])
      case None => None
      case Some(t) =>
        var last := events[|events| - 1];
        if last.actor !in t.actors then None else Step(t, last.actor, last.action)
  }

  predicate Initial(s: State) {
    && !s.guard.locked && s.guard.owner == None && !s.guard.nonOwnerRelease
    && forall a :: a in s.actors ==> s.actors[a] == Local(Running, [], None, None)
  }

  lemma {:induction false} RunKeepsInv(s: State, events: seq<Event>)
    requires Inv(s) && Run(s, events).Some?
    ensures Inv(Run(s, events).value)
    ensures Run(s, events).value.actors.Keys == s.actors.Keys
  {
    if events != [] {
      var before, last := events[..|events| - 1], events[|events| - 1];
      RunKeepsInv(s, before);
      StepKeepsInv(Run(s, before).value, last.actor, last.action);
    }
  }

  lemma {:induction false} RunConcat(s: State, first: seq<Event>, second: seq<Event>)
    requires Run(s, first).Some?
    ensures Run(s, first + second) == Run(Run(s, first).value, second)
  {
    if second == [] {
      assert first + second == first;
    } else {
      assert (first + second)[..|first + second| - 1] == first + second[..|second| - 1];
      RunConcat(s, first, second[..|second| - 1]);
    }
  }

  lemma {:induction false} RunOne(s: State, e: Event)
    ensures Run(s, [e]) == if e.actor in s.actors then Step(s, e.actor, e.action) else None
  {
    assert [e][..0] == [];
  }

  /**
   Safety over every interleaving of claims, nested holds, cancelled waiters and releases: at most one actor is
   inside; whoever is inside is the recorded owner and holds the real lock; the lock is never held by nobody;
   and no release is ever refused.
   */
  lemma GuardSafety(s: State, events: seq<Event>)
    requires Initial(s) && Run(s, events).Some?
    ensures var t := Run(s, events).value;
            && (forall a, b :: a in t.actors && b in t.actors && Inside(t.actors[a]) && Inside(t.actors[b]) ==> a == b)
            && (forall a :: a in t.actors ==> (Inside(t.actors[a]) <==> t.guard.owner == Some(a)))
            && (t.guard.owner.Some? ==> t.guard.locked)
            && (t.guard.locked <==> exists a :: a in t.actors && Token(t.actors[a]))
            && !t.guard.nonOwnerRelease
  {
    RunKeepsInv(s, events);
    var t := Run(s, events).value;
    if t.guard.owner.Some? {
      assert Token(t.actors[t.guard.owner.value]);
    }
  }

  /** Only leaving the outermost hold clears the owner: leaving an inner one changes nothing but the frame. */
  lemma OnlyOutermostReleases(s: State, a: Actor)
    requires Inv(s) && a in s.actors && Step(s, a, Exit).Some?
    ensures var t := Step(s, a, Exit).value;
            if |s.actors[a].frames| == 1 then t.guard.owner == None && t.actors[a].phase.Releasing?
            else t.guard == s.guard && t.guard.owner == Some(a) && Inside(t.actors[a])
  {
  }

  // ---- Waiting ----

  predicate Waits(action: Action) {
    action in {Enter(true), Enter(false), CheckOwner, TryLock, Retry, CancelWait}
  }

  /** All that the actor does is ask for the guard, waiting or not, poll, and give up. */
  predicate OnlyWaits(events: seq<Event>, a: Actor) {
    forall i :: 0 <= i < |events| && events[i].actor == a ==> Waits(events[i].action)
  }

  function Erase(events: seq<Event>, a: Actor): seq<Event> {
    if events == [] then []
    else
      Erase(events[..|events| - 1], a) + (if events[|events| - 1].actor == a then [] else [events[|events| - 1]])
  }

  function Replaced(s: State, a: Actor, l: Local): State {
    s.(actors := s.actors[a := l])
  }

  /**
   A waiter leaves no trace.  Whatever happens between and after its attempts, as long as it never gets the lock
   the run without its events is possible too, and leads to the same guard and the same other actors.
   */
  lemma {:induction false} WaiterLeavesNoTrace(s: State, events: seq<Event>, a: Actor, l: Local)
    requires a in s.actors && Run(s, events).Some? && OnlyWaits(events, a)
    requires a in Run(s, events).value.actors && !Run(s, events).value.actors[a].phase.Recording?
    ensures Run(Replaced(s, a, l), Erase(events, a)) == Some(Replaced(Run(s, events).value, a, l))
  {
    if events != [] {
      var before, last := events[..|events| - 1], events[|events| - 1];
      var t, u := Run(s, before).value, Run(s, events).value;
      assert Waits(last.action) || last.actor != a;
      WaiterLeavesNoTrace(s, before, a, l);
      if last.actor == a {
        assert Erase(events, a) == Erase(before, a);
        assert u.guard == t.guard;
        assert u.actors[a := l] == t.actors[a := l];
      } else {
        OthersStepAlike(t, last, a, l);
        RunConcat(Replaced(s, a, l), Erase(before, a), [last]);
        RunOne(Replaced(t, a, l), last);
      }
    }
  }

  /** What one actor's step does is the same whatever another actor is doing. */
  lemma OthersStepAlike(s: State, e: Event, a: Actor, l: Local)
    requires e.actor != a && e.actor in s.actors && Step(s, e.actor, e.action).Some?
    ensures Step(Replaced(s, a, l), e.actor, e.action) == Some(Replaced(Step(s, e.actor, e.action).value, a, l))
  {
    var m := Effect(s.guard, e.actor, s.actors[e.actor], e.action).value.1;
    assert s.actors[a := l][e.actor := m] == s.actors[e.actor := m][a := l];
  }

  /** A waiter that was cancelled, and is again where it began, might as well never have come. */
  lemma {:induction false} CancelledWaiterLeavesNoTrace(s: State, events: seq<Event>, a: Actor)
    requires a in s.actors && Run(s, events).Some? && OnlyWaits(events, a)
    requires var t := Run(s, events).value;
             a in t.actors && t.actors[a] == s.actors[a] && !s.actors[a].phase.Recording?
    ensures Run(s, Erase(events, a)) == Run(s, events)
  {
    WaiterLeavesNoTrace(s, events, a, s.actors[a]);
    assert Replaced(s, a, s.actors[a]) == s;
    assert Replaced(Run(s, events).value, a, s.actors[a]) == Run(s, events).value;
  }

  // ---- Draining ----

  /** The events of the actor's latest helper call. */
  function CallHistory(events: seq<Event>, a: Actor): seq<Draining.Event> {
    if events == [] then []
    else
      var before, last := CallHistory(events[..|events| - 1], a), events[|events| - 1];
      if last.actor != a then before
      else
        match last.action
        case StartJob(_) => []
        case ThreadEnds(failed) => before + [Draining.ThreadEnds(failed)]
        case InCall(e) => before + [e]
        case _ => before
  }

  /** Inside the guard's runs a call goes through the transitions of the draining helper. */
  lemma {:induction false} CallFollowsHelper(s: State, events: seq<Event>, a: Actor)
    requires Initial(s) && Run(s, events).Some? && a in Run(s, events).value.actors
    ensures var call := Run(s, events).value.actors[a].call;
            call.Some? ==> Draining.After(CallHistory(events, a)) == call
    ensures Draining.CancelWrapper in CallHistory(events, a) ==> Event(a, CANCEL_WRAPPER) in events
  {
    if events != [] {
      var before, last := events[..|events| - 1], events[|events| - 1];
      assert events == before + [last];
      CallFollowsHelper(s, before, a);
      CallStep(Run(s, before).value, last, a, CallHistory(before, a));
    }
  }

  lemma {:induction false} CallStep(s: State, e: Event, a: Actor, past: seq<Draining.Event>)
    requires e.actor in s.actors && a in s.actors && Step(s, e.actor, e.action).Some?
    requires s.actors[a].call.Some? ==> Draining.After(past) == s.actors[a].call
    ensures var call := Step(s, e.actor, e.action).value.actors[a].call;
            && (e == Event(a, e.action) && e.action.StartJob? ==> Draining.After([]) == call)
            && (e == Event(a, e.action) && e.action.ThreadEnds? ==>
                  Draining.After(past + [Draining.ThreadEnds(e.action.failed)]) == call)
            && (e == Event(a, e.action) && e.action.InCall? ==> Draining.After(past + [e.action.event]) == call)
            && (e.actor != a || !(e.action.StartJob? || e.action.ThreadEnds? || e.action.InCall?) ==>
                  call == s.actors[a].call)
  {
    assert forall x :: (past + [x])[..|past|] == past;
  }

  /**
   However often the awaiting tasks are cancelled, an executor thread runs only while the task that started it owns
   the guard — unless that task's own wrapper was cancelled.
   */
  lemma {:induction false} ExecutorRunsUnderGuard(s: State, events: seq<Event>, a: Actor)
    requires Initial(s) && Run(s, events).Some? && Event(a, CANCEL_WRAPPER) !in events
    ensures var t := Run(s, events).value;
            a in t.actors && t.actors[a].job.Some? ==> t.guard.owner == Some(a) && t.guard.locked
  {
    RunKeepsInv(s, events);
    var t := Run(s, events).value;
    if a in t.actors && t.actors[a].job.Some? {
      assert Agrees(t.guard, a, t.actors[a]);
      CallFollowsHelper(s, events, a);
      Draining.LeavingMeansDrained(CallHistory(events, a));
    }
  }

  /** The actor's thread works although the actor does not own the guard. */
  predicate Orphaned(s: State, a: Actor) {
    a in s.actors && s.actors[a].job.Some? && s.guard.owner != Some(a)
  }

  /** The actor's thread works, and the wrapper that its helper awaits has not ended. */
  predicate AtWork(s: State, a: Actor) {
    a in s.actors && s.actors[a].job.Some? && s.actors[a].call.Some? && s.actors[a].call.value.wrapper.Pending?
  }

  function Exits(a: Actor, n: nat): seq<Event> {
    if n == 0 then [] else [Event(a, Exit)] + Exits(a, n - 1)
  }

  /** The wrapper is cancelled, the helper raises, and the task leaves the guard. */
  function Escape(a: Actor, frames: nat): seq<Event> {
    [Event(a, CANCEL_WRAPPER), Event(a, InCall(Draining.Wake))] + (Exits(a, frames) + [Event(a, FreeLock)])
  }

  /** Ready to leave its holds. */
  predicate Leaving(s: State, a: Actor) {
    && a in s.actors && s.guard.owner == Some(a)
    && s.actors[a].phase.Running? && s.actors[a].frames != [] && WellFormed(s.actors[a])
  }

  lemma {:induction false} LastExit(s: State, a: Actor)
    requires Leaving(s, a) && |s.actors[a].frames| == 1
    ensures Run(s, [Event(a, Exit)])
         == Some(State(s.guard.(owner := None), s.actors[a := s.actors[a].(phase := Releasing, frames := [])]))
  {
    RunOne(s, Event(a, Exit));
  }

  lemma {:induction false} InnerExit(s: State, a: Actor)
    requires Leaving(s, a) && |s.actors[a].frames| > 1
    ensures var l := s.actors[a];
            var t := Replaced(s, a, l.(frames := l.frames[..|l.frames| - 1]));
            Run(s, [Event(a, Exit)]) == Some(t) && Leaving(t, a)
  {
    RunOne(s, Event(a, Exit));
  }

  /** Leaving all holds, one after the other. */
  lemma {:induction false} ExitsUnwind(s: State, a: Actor)
    requires Leaving(s, a)
    ensures var l := s.actors[a];
            Run(s, Exits(a, |l.frames|))
              == Some(State(s.guard.(owner := None), s.actors[a := l.(phase := Releasing, frames := [])]))
    decreases |s.actors[a].frames|
  {
    var l := s.actors[a];
    var n := |l.frames|;
    if n == 1 {
      assert Exits(a, 0) == [] && Exits(a, 1) == [Event(a, Exit)] + [] == [Event(a, Exit)];
      LastExit(s, a);
    } else {
      InnerExit(s, a);
      var t := Replaced(s, a, l.(frames := l.frames[..n - 1]));
      ExitsUnwind(t, a);
      RunConcat(s, [Event(a, Exit)], Exits(a, n - 1));
      UnwoundAlike(s.actors, a, t.actors[a], l.(phase := Releasing, frames := []));
    }
  }

  lemma UnwoundAlike(actors: map<Actor, Local>, a: Actor, first: Local, last: Local)
    ensures actors[a := first][a := last] == actors[a := last]
  {
  }

  /** The wrapper's cancellation wakes the helper, which raises: the task goes on with its thread at work. */
  lemma {:induction false} CancelledWrapperFreesTask(s: State, a: Actor)
    requires a in s.actors && WellFormed(s.actors[a]) && AtWork(s, a)
    ensures var l := s.actors[a];
            var call := Draining.Call(Draining.Left(Draining.Cancellation), false, Draining.Done(Draining.Cancelled),
                                      Draining.Working);
            Run(s, [Event(a, CANCEL_WRAPPER), Event(a, InCall(Draining.Wake))])
              == Some(Replaced(s, a, l.(call := Some(call), phase := Running)))
  {
    var l := s.actors[a];
    var cancelled := l.call.value.(wrapper := Draining.Done(Draining.Cancelled));
    var left := cancelled.(helper := Draining.Left(Draining.Cancellation), cancelled := false);
    var s1, s2 := Replaced(s, a, l.(call := Some(cancelled))), Replaced(s, a, l.(call := Some(left), phase := Running));
    var first, second := Event(a, CANCEL_WRAPPER), Event(a, InCall(Draining.Wake));
    RunOne(s, first);
    RunOne(s1, second);
    assert s1.actors[a := s2.actors[a]] == s2.actors;
    RunConcat(s, [first], [second]);
    assert [first] + [second] == [first, second];
  }

  /** A task with frames that owns the guard leaves it, and a thread that it has at work is left behind. */
  lemma {:induction false} LeavingOrphans(s: State, a: Actor)
    requires Leaving(s, a) && s.actors[a].job.Some?
    ensures var t := Run(s, Exits(a, |s.actors[a].frames|) + [Event(a, FreeLock)]);
            t.Some? && Orphaned(t.value, a) && t.value.guard.owner == None && !t.value.guard.locked
  {
    var exits, last := Exits(a, |s.actors[a].frames|), Event(a, FreeLock);
    ExitsUnwind(s, a);
    RunConcat(s, exits, [last]);
    RunOne(Run(s, exits).value, last);
  }

  /** From every state with a thread at work its wrapper's cancellation lets it outlive the guard. */
  lemma {:induction false} CancelledWrapperOutlivesGuard(s: State, a: Actor)
    requires Inv(s) && AtWork(s, a)
    ensures var t := Run(s, Escape(a, |s.actors[a].frames|));
            t.Some? && Orphaned(t.value, a) && t.value.guard.owner == None && !t.value.guard.locked
  {
    assert Agrees(s.guard, a, s.actors[a]);
    var first := [Event(a, CANCEL_WRAPPER), Event(a, InCall(Draining.Wake))];
    CancelledWrapperFreesTask(s, a);
    var t := Run(s, first).value;
    LeavingOrphans(t, a);
    RunConcat(s, first, Exits(a, |s.actors[a].frames|) + [Event(a, FreeLock)]);
  }

  /** Without that event the thread does not outlive it, whatever else happens. */
  lemma {:induction false} UncancelledThreadStaysGuarded(s: State, a: Actor, events: seq<Event>)
    requires Inv(s) && a in s.actors && Run(s, events).Some? && Event(a, CANCEL_WRAPPER) !in events
    requires s.actors[a].call.Some? ==> s.actors[a].call.value.wrapper != Draining.Done(Draining.Cancelled)
    ensures var t := Run(s, events).value;
            && !Orphaned(t, a)
            && a in t.actors
            && (t.actors[a].call.Some? ==> t.actors[a].call.value.wrapper != Draining.Done(Draining.Cancelled))
  {
    RunKeepsInv(s, events);
    var t := Run(s, events).value;
    assert Agrees(t.guard, a, t.actors[a]);
    if events != [] {
      var before, last := events[..|events| - 1], events[|events| - 1];
      assert events == before + [last];
      UncancelledThreadStaysGuarded(s, a, before);
      WrapperIsCancelledByEvent(Run(s, before).value, last, a);
    }
  }

  lemma {:induction false} WrapperIsCancelledByEvent(s: State, e: Event, a: Actor)
    requires e.actor in s.actors && a in s.actors && Step(s, e.actor, e.action).Some? && e != Event(a, CANCEL_WRAPPER)
    requires s.actors[a].call.Some? ==> s.actors[a].call.value.wrapper != Draining.Done(Draining.Cancelled)
    ensures var l := Step(s, e.actor, e.action).value.actors[a];
            l.call.Some? ==> l.call.value.wrapper != Draining.Done(Draining.Cancelled)
  {
  }

  /** What a task whose wrapper is cancelled has yet to do before it can leave its holds. */
  function Approach(l: Local): seq<Action> {
    match l.phase
    case Checking(_) => [CheckOwner]
    case Awaiting => [InCall(Draining.Wake)]
    case _ => []
  }

  predicate WrapperCancelled(l: Local) {
    l.call.Some? && l.call.value.wrapper == Draining.Done(Draining.Cancelled)
  }

  lemma {:induction false} ApproachReaches(s: State, a: Actor)
    requires Inv(s) && a in s.actors && s.actors[a].job.Some? && WrapperCancelled(s.actors[a])
    requires s.guard.owner == Some(a)
    ensures var steps := Approach(s.actors[a]);
            if steps == [] then Leaving(s, a)
            else Step(s, a, steps[0]).Some? && Leaving(Step(s, a, steps[0]).value, a)
                 && Step(s, a, steps[0]).value.actors[a].job.Some?
  {
    assert Agrees(s.guard, a, s.actors[a]);
    var steps := Approach(s.actors[a]);
    if steps != [] {
      StepKeepsInv(s, a, steps[0]);
      assert Agrees(Step(s, a, steps[0]).value.guard, a, Step(s, a, steps[0]).value.actors[a]);
    }
  }

  /** Once its wrapper is cancelled, a thread at work is left behind by its own task's next steps. */
  lemma {:induction false} CancelledWrapperLeavesThread(s: State, a: Actor) returns (events: seq<Event>)
    requires Inv(s) && a in s.actors && s.actors[a].job.Some? && WrapperCancelled(s.actors[a])
    ensures Run(s, events).Some? && Orphaned(Run(s, events).value, a) && Event(a, CANCEL_WRAPPER) !in events
  {
    var steps := Approach(s.actors[a]);
    if s.guard.owner != Some(a) {
      events := [];
    } else {
      ApproachReaches(s, a);
      if steps == [] {
        LeavingOrphans(s, a);
        events := Exits(a, |s.actors[a].frames|) + [Event(a, FreeLock)];
        ExitsOnlyExit(a, |s.actors[a].frames|);
      } else {
        var first := Event(a, steps[0]);
        RunOne(s, first);
        var t := Step(s, a, steps[0]).value;
        LeavingOrphans(t, a);
        var rest := Exits(a, |t.actors[a].frames|) + [Event(a, FreeLock)];
        RunConcat(s, [first], rest);
        ExitsOnlyExit(a, |t.actors[a].frames|);
        events := [first] + rest;
      }
    }
  }

  lemma {:induction false} ExitsOnlyExit(a: Actor, n: nat)
    ensures forall e :: e in Exits(a, n) ==> e == Event(a, Exit)
  {
    if n > 0 {
      ExitsOnlyExit(a, n - 1);
    }
  }

  /** Some future, in which the wrapper is cancelled only if it may be, leaves the thread at work without the guard. */
  ghost predicate CanOutlive(s: State, a: Actor, wrapperMayBeCancelled: bool) {
    exists events :: Run(s, events).Some? && Orphaned(Run(s, events).value, a)
                  && (Event(a, CANCEL_WRAPPER) in events ==> wrapperMayBeCancelled)
  }

  /**
   Exactly when a thread at work can outlive the guard: when its wrapper task has been cancelled, or may be.  No
   other cancellation, failure or interleaving lets it.
   */
  lemma {:induction false} OutlivingExactly(s: State, a: Actor, wrapperMayBeCancelled: bool)
    requires Inv(s) && a in s.actors && s.actors[a].job.Some?
    ensures CanOutlive(s, a, wrapperMayBeCancelled) <==> WrapperCancelled(s.actors[a]) || wrapperMayBeCancelled
  {
    assert Agrees(s.guard, a, s.actors[a]);
    if WrapperCancelled(s.actors[a]) {
      var events := CancelledWrapperLeavesThread(s, a);
      assert Run(s, events).Some?;
    } else {
      CancelledWrapperOutlivesGuard(s, a);
      if wrapperMayBeCancelled {
        var escape := Escape(a, |s.actors[a].frames|);
        assert Run(s, escape).Some? && Orphaned(Run(s, escape).value, a);
      }
      forall events | Run(s, events).Some? && Event(a, CANCEL_WRAPPER) !in events
        ensures !Orphaned(Run(s, events).value, a)
      {
        UncancelledThreadStaysGuarded(s, a, events);
      }
    }
  }

  function Begin(a: Actor): seq<Event> {
    [Event(a, Enter(true)), Event(a, CheckOwner), Event(a, TryLock), Event(a, RecordOwner),
     Event(a, StartJob(Inference))]
  }

  /** Such states are reached: any actor of an initial state can come to have a thread at work. */
  lemma {:induction false} WorkIsReached(s: State, a: Actor)
    requires Initial(s) && a in s.actors
    ensures Run(s, Begin(a)).Some? && AtWork(Run(s, Begin(a)).value, a) && Inv(Run(s, Begin(a)).value)
  {
    var e := Begin(a);
    assert e[..5] == e && e[..5][..4] == e[..4] && e[..4][..3] == e[..3] && e[..3][..2] == e[..2];
    assert e[..2][..1] == e[..1] && e[..1][..0] == [];
    var l := s.actors[a];
    assert Run(s, e[..1]) == Some(Replaced(s, a, l.(phase := Checking(true))));
    assert Run(s, e[..2]).value.actors[a] == l.(phase := Claiming(true)) && Run(s, e[..2]).value.guard == s.guard;
    assert Run(s, e[..3]).value.actors[a] == l.(phase := Recording);
    assert Run(s, e[..4]).value.actors[a] == l.(frames := [] + [true]);
    RunKeepsInv(s, e);
  }

  /** So every actor of every initial state can leave a thread behind that outlives the guard. */
  lemma {:induction false} AnyThreadCanOutliveTheGuard(s: State, a: Actor)
    requires Initial(s) && a in s.actors
    ensures exists events :: Run(s, events).Some? && Orphaned(Run(s, events).value, a)
                          && !Run(s, events).value.guard.locked
  {
    WorkIsReached(s, a);
    var t := Run(s, Begin(a)).value;
    var escape := Escape(a, |t.actors[a].frames|);
    CancelledWrapperOutlivesGuard(t, a);
    RunConcat(s, Begin(a), escape);
    var events := Begin(a) + escape;
    assert Run(s, events).Some? && Orphaned(Run(s, events).value, a);
  }

  // ---- The model binding ----

  /** No event is a step of `a`, whether of the task itself or of its executor thread. */
  predicate ByOthers(events: seq<Event>, a: Actor) {
    forall i :: 0 <= i < |events| ==> events[i].actor != a
  }

  /** No other actor has an executor thread that outlived its guard. */
  predicate NoStrayThread(s: State, a: Actor) {
    forall b :: b in s.actors && b != a ==> s.actors[b].job.None?
  }

  /**
   While an actor is inside the guard, nobody else changes the model: whatever the others do, the model fields
   and the actor's own position stay as they are.  So a request keeps its model size from entry to exit.
   */
  lemma {:induction false} OthersCannotChangeTheModel(s: State, a: Actor, events: seq<Event>)
    requires Inv(s) && a in s.actors && Inside(s.actors[a]) && NoStrayThread(s, a)
    requires Run(s, events).Some? && ByOthers(events, a)
    ensures var t := Run(s, events).value;
            t.guard.model == s.guard.model && a in t.actors && t.actors[a] == s.actors[a] && NoStrayThread(t, a)
  {
    if events != [] {
      var before, last := events[..|events| - 1], events[|events| - 1];
      assert last.actor != a;
      OthersCannotChangeTheModel(s, a, before);
      RunKeepsInv(s, before);
      OtherStepKeepsModel(Run(s, before).value, a, last);
    }
  }

  lemma {:induction false} OtherStepKeepsModel(s: State, a: Actor, e: Event)
    requires Inv(s) && a in s.actors && Inside(s.actors[a]) && NoStrayThread(s, a)
    requires e.actor in s.actors && e.actor != a && Step(s, e.actor, e.action).Some?
    ensures var t := Step(s, e.actor, e.action).value;
            t.guard.model == s.guard.model && a in t.actors && t.actors[a] == s.actors[a] && NoStrayThread(t, a)
  {
    assert Token(s.actors[a]);
    OutsiderKeepsModel(s.guard, e.actor, s.actors[e.actor], e.action);
  }

  /** Without frames and without a thread at work there is nothing that changes the model. */
  lemma {:induction false} OutsiderKeepsModel(g: Guard, a: Actor, l: Local, action: Action)
    requires !Inside(l) && l.job.None? && Effect(g, a, l, action).Some?
    ensures var (h, m) := Effect(g, a, l, action).value; h.model == g.model && m.job.None?
  {
  }

  /** From the start on, the model is safe with a request as long as no wrapper task is cancelled. */
  lemma {:induction false} RequestKeepsItsModel(s: State, past: seq<Event>, a: Actor, events: seq<Event>)
    requires Initial(s) && Run(s, past).Some? && (forall e :: e in past ==> e.action != CANCEL_WRAPPER)
    requires a in Run(s, past).value.actors && Inside(Run(s, past).value.actors[a])
    requires Run(Run(s, past).value, events).Some? && ByOthers(events, a)
    ensures Run(Run(s, past).value, events).value.guard.model == Run(s, past).value.guard.model
  {
    var t := Run(s, past).value;
    RunKeepsInv(s, past);
    assert Agrees(t.guard, a, t.actors[a]);
    forall b | b in t.actors && b != a ensures t.actors[b].job.None? {
      assert Event(b, CANCEL_WRAPPER) !in past;
      ExecutorRunsUnderGuard(s, past, b);
    }
    OthersCannotChangeTheModel(t, a, events);
  }

  // ---- The guard object, when nothing interferes ----

  /** Several steps of one actor in a row. */
  function Effects(g: Guard, a: Actor, l: Local, actions: seq<Action>): Option<(Guard, Local)>
    decreases |actions|
  {
    if actions == [] then Some((g, l))
    else
      match Effect(g, a, l, actions[0])
      case None => None
      case Some((h, m)) => Effects(h, a, m, actions[1..])
  }

  class TtsLifecycleGuard {
    var locked: bool
    var owner: Option<Actor>
    var operation: Option<string>

    constructor ()
      ensures !locked && owner == None && operation == None
    {
      locked, owner, operation := false, None, None;
    }

    ghost function View(model: Model): Guard
      reads this
    {
      Guard(locked, owner, model, false)
    }

    /** Some(true) is a new claim, Some(false) a reentry, None busy; each is a run of the steps above. */
    method TryClaim(me: Actor, name: string, ghost model: Model, ghost frames: seq<bool>) returns (claim: Option<bool>)
      modifies this
      ensures var before := Local(Checking(true), frames, None, None);
              var steps := if claim == Some(false) then [CheckOwner]
                           else if claim == None then [CheckOwner, TryLock]
                           else [CheckOwner, TryLock, RecordOwner];
              var after := if claim.Some? then Local(Running, frames + [claim.value], None, None)
                           else Local(Polling, frames, None, None);
              Effects(old(View(model)), me, before, steps) == Some((View(model), after))
      ensures claim == Some(true) ==> operation == Some(name)
      ensures claim != Some(true) ==> operation == old(operation)
    {
      ghost var checked := [CheckOwner, TryLock];
      assert checked[1..] == [TryLock] && [CheckOwner, TryLock, RecordOwner][1..] == [TryLock, RecordOwner];
      assert [TryLock, RecordOwner][1..] == [RecordOwner];
      if owner == Some(me) {
        return Some(false);
      }
      if locked {
        return None;
      }
      locked := true;
      owner, operation := Some(me), Some(name);
      claim := Some(true);
    }

    /** Gives the guard up; refused to anyone but the recorded owner. */
    method Release(me: Actor, ghost model: Model, ghost frames: seq<bool>) returns (accepted: bool)
      requires frames != [] && frames[|frames| - 1]
      modifies this
      ensures accepted <==> old(owner) == Some(me)
      ensures accepted ==>
                Effects(old(View(model)), me, Local(Running, frames, None, None), [Exit, FreeLock])
                  == Some((View(model), Local(Running, frames[..|frames| - 1], None, None)))
      ensures accepted ==> operation == None
      ensures !accepted ==> locked == old(locked) && owner == old(owner) && operation == old(operation)
    {
      assert [Exit, FreeLock][1..] == [FreeLock];
      if owner != Some(me) {
        return false;
      }
      owner, operation := None, None;
      locked := false;
      accepted := true;
    }
  }
}
