/**
 Running blocking work in an executor thread without ever orphaning it.

 Three parties take turns: the thread, the asyncio task that wraps it, and the helper that awaits the wrapper
 through a shield.  A cancellation may be delivered to the helper's task at any moment; it is thrown when the
 task next wakes, in place of whatever it was waiting for.
 */
module Draining {
  import opened Wrappers

  datatype Thread = Working | Ended(failed: bool)

  /** How the wrapper task ended.  Its own cancellation does not stop the thread. */
  datatype Outcome = Returned | Failed | Cancelled

  datatype Wrapper = Pending | Done(outcome: Outcome)

  /** What the helper's caller gets: the value, the operation's own error, or a cancellation. */
  datatype Ending = Value | Error | Cancellation

  /** The helper is in its first await, in an await of the draining loop, or has left. */
  datatype Helper = Awaiting | Draining | Left(ending: Ending)

  /** `cancelled` is set when a cancellation has been delivered and not yet thrown. */
  datatype Call = Call(helper: Helper, cancelled: bool, wrapper: Wrapper, thread: Thread)

  const STARTED := Call(Awaiting, false, Pending, Working)

  datatype Event =
    | Cancel                      // delivered to the task that runs the helper
    | ThreadEnds(failed: bool)
    | WrapperEnds                 // the wrapper learns of its thread's end
    | CancelWrapper               // the wrapper task itself is cancelled
    | Wake                        // the helper's task runs until it awaits again or leaves

  /** What an await of the shielded wrapper yields to the code that awaits it. */
  datatype Yield = Threw | Gave(outcome: Outcome)

  function YieldOf(c: Call): Yield
    requires c.cancelled || c.wrapper.Done?
  {
    if c.cancelled || c.wrapper.outcome == Cancelled then Threw else Gave(c.wrapper.outcome)
  }

  function EndingOf(outcome: Outcome): Ending
    requires outcome != Cancelled
  {
    if outcome == Returned then Value else Error
  }

  /** One turn of the helper: from the await it is in to the next one, or out. */
  function Turn(c: Call): Helper
    requires !c.helper.Left? && (c.cancelled || c.wrapper.Done?)
  {
    match YieldOf(c)
    case Threw => if c.wrapper.Done? then Left(Cancellation) else Draining
    case Gave(outcome) =>
      if c.helper.Awaiting? then Left(EndingOf(outcome))
      else if outcome == Failed then Left(Error)        // raised by the await of the loop itself
      else Left(Cancellation)
  }

  function Step(c: Call, e: Event): Option<Call> {
    match e
    case Cancel => if c.helper.Left? then None else Some(c.(cancelled := true))
    case ThreadEnds(failed) => if c.thread.Working? then Some(c.(thread := Ended(failed))) else None
    case WrapperEnds =>
      if c.wrapper.Pending? && c.thread.Ended?
      then Some(c.(wrapper := Done(if c.thread.failed then Failed else Returned))) else None
    case CancelWrapper => if c.wrapper.Pending? then Some(c.(wrapper := Done(Cancelled))) else None
    case Wake =>
      if !c.helper.Left? && (c.cancelled || c.wrapper.Done?)
      then Some(c.(helper := Turn(c), cancelled := false)) else None
  }

  /** The call after a history of events, if each was possible. */
  function After(events: seq<Event>): Option<Call> {
    if events == [] then Some(STARTED)
    else
      match After(events[..|events| - 1])
      case None => None
      case Some(c) => Step(c, events[|events| - 1])
  }

  // ---- What the helper guarantees ----

  /** The helper is gone only when the wrapper is, and the wrapper only when the thread is or it was cancelled. */
  predicate Drained(c: Call) {
    && (c.helper.Left? ==> c.wrapper.Done?)
    && (c.wrapper.Done? && c.wrapper.outcome != Cancelled ==>
          c.thread == Ended(c.wrapper.outcome == Failed))
  }

  lemma StepDrains(c: Call, e: Event)
    requires Drained(c) && Step(c, e).Some?
    ensures Drained(Step(c, e).value)
    ensures Step(c, e).value.wrapper == Done(Cancelled) ==> c.wrapper == Done(Cancelled) || e == CancelWrapper
  {
  }

  /** However the events fall, a helper that has left leaves no thread behind, unless its wrapper was cancelled. */
  lemma {:induction false} LeavingMeansDrained(events: seq<Event>)
    requires After(events).Some?
    ensures var c := After(events).value;
            && Drained(c)
            && (c.helper.Left? ==> c.wrapper.Done?)
            && (c.helper.Left? && c.thread.Working? ==> CancelWrapper in events)
  {
    WrapperCancelledByEvent(events);
  }

  lemma {:induction false} WrapperCancelledByEvent(events: seq<Event>)
    requires After(events).Some?
    ensures Drained(After(events).value)
    ensures After(events).value.wrapper == Done(Cancelled) ==> CancelWrapper in events
  {
    if events != [] {
      var before, last := events[..|events| - 1], events[|events| - 1];
      WrapperCancelledByEvent(before);
      StepDrains(After(before).value, last);
      assert events == before + [last];
    }
  }

  /** A cancellation was delivered after the helper last woke. */
  predicate CancelledSinceWake(events: seq<Event>) {
    events != [] && events[|events| - 1] != Wake
    && (events[|events| - 1] == Cancel || CancelledSinceWake(events[..|events| - 1]))
  }

  /** One turn of events, with what was recorded before: a cancellation since the last waking, and one at all. */
  lemma {:induction false} StepRemembers(c: Call, e: Event, since: bool, ever: bool)
    requires Step(c, e).Some? && !Step(c, e).value.helper.Left?
    requires c.cancelled == since && ever == (c.helper.Draining? || since)
    ensures Step(c, e).value.cancelled == (e != Wake && (e == Cancel || since))
    ensures (ever || e == Cancel) == (Step(c, e).value.helper.Draining? || Step(c, e).value.cancelled)
  {
  }

  /** Until it leaves, the helper is in its loop exactly if a cancellation came before its last waking. */
  lemma {:induction false} CancellationsAreRemembered(events: seq<Event>)
    requires After(events).Some? && !After(events).value.helper.Left?
    ensures After(events).value.cancelled <==> CancelledSinceWake(events)
    ensures Cancel in events <==> After(events).value.helper.Draining? || CancelledSinceWake(events)
  {
    if events != [] {
      var before, last := events[..|events| - 1], events[|events| - 1];
      assert events == before + [last];
      var c := After(before).value;
      assert Step(c, last) == After(events) && !c.helper.Left?;
      CancellationsAreRemembered(before);
      StepRemembers(c, last, CancelledSinceWake(before), Cancel in before);
    }
  }

  /** What the caller is owed: its cancellation if it got one, and otherwise the operation's own outcome. */
  function Owed(events: seq<Event>, outcome: Outcome): Ending {
    if Cancel in events || outcome == Cancelled then Cancellation else EndingOf(outcome)
  }

  /** The operation failed while the helper was draining, and no later cancellation hid that from its loop. */
  predicate FailureIsSeen(events: seq<Event>, outcome: Outcome) {
    outcome == Failed && Cancel in events && !CancelledSinceWake(events)
  }

  /**
   What the helper raises or returns, exactly: the caller's cancellation or the operation's own outcome is passed
   on as owed — unless the failure of the operation is seen by the draining loop, whose await raises it in the
   place of the cancellation.
   */
  lemma {:induction false} EndingIsAsOwed(events: seq<Event>)
    requires After(events + [Wake]).Some? && After(events + [Wake]).value.helper.Left?
    ensures var c := After(events + [Wake]).value;
            && c.wrapper.Done?
            && (c.helper.ending == Owed(events, c.wrapper.outcome) <==> !FailureIsSeen(events, c.wrapper.outcome))
            && (FailureIsSeen(events, c.wrapper.outcome) ==> c.helper.ending == Error)
  {
    assert (events + [Wake])[..|events|] == events;
    CancellationsAreRemembered(events);
    LeavingMeansDrained(events + [Wake]);
  }

  /** A cancellation, its draining, and then a failing thread: the caller never learns that it was cancelled. */
  lemma {:induction false} CancellationCanBeLost()
    ensures var events := [Cancel, Wake, ThreadEnds(true), WrapperEnds];
            After(events + [Wake]) == Some(Call(Left(Error), false, Done(Failed), Ended(true)))
  {
    var e := [Cancel, Wake, ThreadEnds(true), WrapperEnds, Wake];
    assert e[..4][..3] == e[..3] && e[..3][..2] == e[..2] && e[..2][..1] == e[..1] && e[..1][..0] == [];
    assert After(e[..1]) == Some(Call(Awaiting, true, Pending, Working));
    assert After(e[..2]) == Some(Call(Draining, false, Pending, Working));
    assert After(e[..3]) == Some(Call(Draining, false, Pending, Ended(true)));
    assert After(e[..4]) == Some(Call(Draining, false, Done(Failed), Ended(true)));
    assert [Cancel, Wake, ThreadEnds(true), WrapperEnds] + [Wake] == e;
  }

  // ---- The helper itself ----

  /** The wrapper task and its thread, driven by a schedule of what happens while the helper is suspended. */
  class Operation {
    var call: Call
    var schedule: seq<Event>          // still to come
    ghost var past: seq<Event>

    constructor (schedule: seq<Event>)
      ensures this.schedule == schedule && past == [] && call == STARTED && Valid()
    {
      this.schedule := schedule;
      past := [];
      call := STARTED;
    }

    /** The call is what the past events lead to. */
    ghost predicate Valid()
      reads this
    {
      After(past) == Some(call)
    }

    predicate IsDone()
      reads this
    {
      call.wrapper.Done?
    }

    /** Nothing more happens, or nothing possible. */
    predicate Stuck()
      reads this
    {
      schedule == [] || Step(call, schedule[0]) == None
    }

    /**
     Suspends until the helper's task is woken.  `None` means that the schedule ran out, or held something
     impossible, while it was still suspended.
     */
    method AwaitShielded() returns (yielded: Option<Yield>)
      requires Valid() && !call.helper.Left?
      modifies this
      ensures yielded == None ==> Valid() && call.helper == old(call.helper) && Stuck()
      ensures yielded.Some? ==>
                && past != [] && past[|past| - 1] == Wake
                && After(past[..|past| - 1]).Some?
                && var c := After(past[..|past| - 1]).value;
                   && c.helper == old(call.helper) && (c.cancelled || c.wrapper.Done?)
                   && yielded.value == YieldOf(c) && call == c.(cancelled := false)
      ensures |schedule| <= |old(schedule)| && (yielded.Some? ==> |schedule| < |old(schedule)|)
      ensures past + schedule == old(past) + old(schedule)
    {
      while schedule != []
        invariant Valid() && call.helper == old(call.helper) && |schedule| <= |old(schedule)|
        invariant past + schedule == old(past) + old(schedule)
        decreases |schedule|
      {
        var e := schedule[0];
        var next := Step(call, e);
        if next == None {
          return None;
        }
        assert (past + [e])[..|past|] == past;
        assert past + schedule == past + [e] + schedule[1..];
        past, schedule := past + [e], schedule[1..];
        if e == Wake {
          yielded := Some(YieldOf(call));
          call := call.(cancelled := false);
          return;
        }
        call := next.value;
      }
      return None;
    }
  }

  /** The helper's task has just been woken in the last event, by an error that its code catches or by a result. */
  ghost predicate Woken(past: seq<Event>, call: Call, yielded: Yield) {
    && past != [] && past[|past| - 1] == Wake
    && After(past[..|past| - 1]).Some?
    && var c := After(past[..|past| - 1]).value;
       && !c.helper.Left? && (c.cancelled || c.wrapper.Done?)
       && yielded == YieldOf(c) && call == c.(cancelled := false)
  }

  /**
   The helper: await the shielded wrapper; when a cancellation is thrown, go on awaiting until the wrapper is done,
   and only then raise it.  What it does is, event by event, what the transitions above say.
   */
  method RunBlockingOperationCancellationSafe(op: Operation) returns (ending: Option<Ending>)
    requires op.Valid() && op.past == []
    modifies op
    ensures op.Valid() && op.past + op.schedule == old(op.schedule)
    ensures match ending
            case Some(e) => op.call.helper == Left(e)
            case None => !op.call.helper.Left? && op.Stuck()
  {
    var yielded := op.AwaitShielded();
    if yielded == None {
      return None;
    }
    if yielded.value.Gave? {
      ending := Some(EndingOf(yielded.value.outcome));
      op.call := op.call.(helper := Left(ending.value));
      return;
    }
    while !op.IsDone()
      invariant yielded.Some? && Woken(op.past, op.call, yielded.value)
      invariant yielded.value == Threw || (yielded.value == Gave(Returned) && op.call.helper.Draining?)
      invariant op.past + op.schedule == old(op.schedule)
      decreases |op.schedule|
    {
      op.call := op.call.(helper := Draining);
      var next := op.AwaitShielded();
      if next == None {
        return None;
      }
      if next == Some(Gave(Failed)) {
        op.call := op.call.(helper := Left(Error));
        return Some(Error);
      }
      yielded := next;
    }
    op.call := op.call.(helper := Left(Cancellation));
    return Some(Cancellation);
  }
}
