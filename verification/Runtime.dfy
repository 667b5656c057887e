/** The daemon object: its callbacks, and its driver resumed from one await to the next. */
module Runtime {
  import opened Wrappers
  import Lifecycle

  type Kind = Lifecycle.Kind
  type Driver = Lifecycle.Driver
  type Signs = Lifecycle.Signs

  class Daemon {
    const limits: Lifecycle.Limits
    var now: int
    var stop: bool
    var force: bool
    var failed: bool
    var deadline: Option<int>
    var began: set<Kind>
    var ended: map<Kind, bool>
    var driver: Driver
    var outcome: Option<Lifecycle.Outcome>
    ghost var trace: seq<Lifecycle.Event>

    ghost function State(): Lifecycle.Daemon
      reads this
    {
      Lifecycle.Daemon(now, stop, force, failed, deadline, began, ended, driver, outcome, trace)
    }

    constructor (limits: Lifecycle.Limits)
      ensures this.limits == limits && State() == Lifecycle.INITIAL
    {
      this.limits := limits;
      now, stop, force, failed, deadline := 0, false, false, false, None;
      began, ended, driver, outcome, trace := {}, map[], Lifecycle.NotStarted, None, [];
    }

    /** Signal-safe: close admission exactly once; asked again, stop waiting. */
    method RequestStop(raises: bool, unwell: bool)
      modifies this`stop, this`force, this`failed, this`deadline, this`trace
      ensures State() == Lifecycle.RequestStop(limits, old(State()), raises, unwell)
    {
      if stop {
        force := true;
        return;
      }
      deadline := Some(now + limits.shutdown);
      stop := true;
      trace := trace + [Lifecycle.IntakeStopped];
      if raises { failed := true; }
      Refresh(unwell);
    }

    /** Read the services' health; a failed reading is a failure for good. */
    method Refresh(unwell: bool)
      modifies this`failed
      ensures State() == old(State()).(failed := old(failed) || unwell)
    {
      if unwell { failed := true; }
    }

    /** An operation ends, by itself. */
    method EndOperation(kind: Kind, ok: bool)
      modifies this`ended, this`trace
      ensures State() == Lifecycle.Apply(limits, old(State()), Lifecycle.End(kind, ok))
    {
      if kind in began && kind !in ended {
        ended := ended[kind := ok];
        trace := trace + [Lifecycle.Ended(kind, ok)];
      }
    }

    method BeginOperation(kind: Kind, next: Driver)
      modifies this`began, this`driver, this`trace
      ensures State() == Lifecycle.Begin(old(State()), kind, next)
    {
      began := began + {kind};
      driver := next;
      trace := trace + [Lifecycle.Began(kind)];
    }

    /** One look at an awaited operation: its end, or a reason to give up, or neither. */
    method Phase(kind: Kind, limit: int) returns (settled: Option<bool>, gaveUp: bool)
      modifies this`failed
      ensures settled == if kind in ended then Some(ended[kind]) else None
      ensures gaveUp <==> kind !in ended && Lifecycle.GivesUp(old(State()), limit)
      ensures State() == if kind in ended then Lifecycle.Collect(old(State()), kind) else old(State())
    {
      if kind in ended {
        if !ended[kind] { failed := true; }
        return Some(ended[kind]), false;
      }
      settled := None;
      if force { return None, true; }
      var until := if deadline.Some? && deadline.value < limit then deadline.value else limit;
      gaveUp := until - now <= 0;
    }

    method Finish(complete: bool, unwell: bool)
      modifies this`failed, this`driver, this`outcome, this`trace
      ensures State() == Lifecycle.Finish(old(State()), complete, unwell)
    {
      Refresh(unwell);
      outcome := Some(Lifecycle.Outcome(if failed || !complete then 1 else 0, complete, |began - ended.Keys|));
      driver := Lifecycle.Finished;
      trace := trace + [Lifecycle.Reported(outcome.value)];
    }

    method BeginDrain(signs: Signs)
      modifies this
      ensures State() == Lifecycle.BeginDrain(limits, old(State()), signs)
    {
      if !stop { RequestStop(signs.raises, signs.unwellAtEnd); }
      BeginOperation(Lifecycle.Draining, Lifecycle.AwaitDrain);
    }

    method ResumeStart(limit: int, signs: Signs)
      modifies this
      ensures State() == Lifecycle.AfterStart(limits, old(State()), limit, signs)
    {
      hide Lifecycle.RequestStop, Lifecycle.Finish, Lifecycle.BeginDrain, Lifecycle.GivesUp;
      var started, gaveUp := Phase(Lifecycle.Starting, limit);
      if gaveUp {
        RequestStop(signs.raises, signs.unwell);
        Finish(false, signs.unwellAtEnd);
      } else if started.Some? {
        if started.value && !stop && !failed { driver := Lifecycle.Serving; } else { BeginDrain(signs); }
      }
    }

    method ResumeDrain(signs: Signs)
      modifies this
      ensures State() == Lifecycle.AfterDrain(old(State()), signs)
    {
      hide Lifecycle.Finish, Lifecycle.GivesUp, Lifecycle.Begin;
      var drained, gaveUp := Phase(Lifecycle.Draining, deadline.GetOr(0));
      if gaveUp {
        Finish(false, signs.unwellAtEnd);
      } else if drained.Some? {
        if force { Finish(false, signs.unwellAtEnd); }
        else { BeginOperation(Lifecycle.Closing, Lifecycle.AwaitClose(drained.value)); }
      }
    }

    method ResumeClose(drained: bool, signs: Signs)
      modifies this
      ensures State() == Lifecycle.AfterClose(old(State()), drained, signs)
    {
      hide Lifecycle.Finish, Lifecycle.GivesUp;
      var closed, gaveUp := Phase(Lifecycle.Closing, deadline.GetOr(0));
      if gaveUp {
        Finish(false, signs.unwellAtEnd);
      } else if closed.Some? {
        Finish(drained && closed.value, signs.unwellAtEnd);
      }
    }

    /** The driver's coroutine, from where it waits to where it next waits. */
    method Drive(signs: Signs)
      modifies this
      ensures State() == Lifecycle.Apply(limits, old(State()), Lifecycle.Drive(signs))
    {
      hide Lifecycle.AfterStart, Lifecycle.AfterDrain, Lifecycle.AfterClose, Lifecycle.Begin, Lifecycle.BeginDrain;
      Refresh(signs.unwell);
      match driver {
        case NotStarted => BeginOperation(Lifecycle.Starting, Lifecycle.AwaitStart(now + limits.startup));
        case AwaitStart(limit) => ResumeStart(limit, signs);
        case Serving => if stop || failed { BeginDrain(signs); }
        case AwaitDrain => ResumeDrain(signs);
        case AwaitClose(drained) => ResumeClose(drained, signs);
        case Finished =>
      }
    }
  }
}
