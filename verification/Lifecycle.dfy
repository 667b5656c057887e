/**
 * The daemon's lifecycle: start, serve, stop intake, drain, close, under one shutdown
 * deadline. Code between two awaits is one step; a stop request, an operation's end and the
 * passage of time come in between in any order.
 */
module Lifecycle {
  import opened Wrappers

  datatype Kind = Starting | Draining | Closing

  /** Something that happened, in the order it happened. */
  datatype Event =
    | IntakeStopped
    | Began(kind: Kind)
    | Ended(kind: Kind, ok: bool)
    | Reported(outcome: Outcome)

  datatype Outcome = Outcome(exitCode: int, complete: bool, unfinished: nat)

  datatype Limits = Limits(startup: nat, shutdown: nat)

  /** Where the driving coroutine waits. */
  datatype Driver =
    | NotStarted
    | AwaitStart(limit: int)
    | Serving
    | AwaitDrain
    | AwaitClose(drained: bool)
    | Finished

  datatype Daemon = Daemon(
    now: int,
    stop: bool,
    force: bool,
    failed: bool,
    deadline: Option<int>,
    began: set<Kind>,
    ended: map<Kind, bool>,
    driver: Driver,
    outcome: Option<Outcome>,
    trace: seq<Event>)

  const INITIAL := Daemon(0, false, false, false, None, {}, map[], NotStarted, None, [])

  function Unfinished(d: Daemon): nat { |d.began - d.ended.Keys| }

  /** The first request stops intake and fixes the deadline; a later one forces. */
  function RequestStop(l: Limits, d: Daemon, raises: bool, unwell: bool): Daemon {
    if d.stop then d.(force := true)
    else
      d.(stop := true, deadline := Some(d.now + l.shutdown), failed := d.failed || raises || unwell,
         trace := d.trace + [IntakeStopped])
  }

  function Begin(d: Daemon, kind: Kind, driver: Driver): Daemon {
    d.(began := d.began + {kind}, driver := driver, trace := d.trace + [Began(kind)])
  }

  /** The last health reading comes before the exit code is settled. */
  function Finish(d: Daemon, complete: bool, unwell: bool): Daemon {
    var failed := d.failed || unwell;
    var outcome := Outcome(if failed || !complete then 1 else 0, complete, Unfinished(d));
    d.(failed := failed, driver := Finished, outcome := Some(outcome), trace := d.trace + [Reported(outcome)])
  }

  /** A phase gives up when forced, or when its own or the shutdown's deadline has passed. */
  predicate GivesUp(d: Daemon, limit: int) {
    d.force || TimeLimit(d, limit) <= d.now
  }

  function TimeLimit(d: Daemon, limit: int): int {
    if d.deadline.Some? && d.deadline.value < limit then d.deadline.value else limit
  }

  function ShutdownLimit(d: Daemon): int { d.deadline.GetOr(0) }

  /** What one resumption of the driver may meet: bad health before, at the end, and a failing stop. */
  datatype Signs = Signs(unwell: bool, unwellAtEnd: bool, raises: bool)

  function StopIfNeeded(l: Limits, d: Daemon, signs: Signs): Daemon {
    if d.stop then d else RequestStop(l, d, signs.raises, signs.unwellAtEnd)
  }

  function BeginDrain(l: Limits, d: Daemon, signs: Signs): Daemon {
    Begin(StopIfNeeded(l, d, signs), Draining, AwaitDrain)
  }

  /** Record how an awaited operation ended: an exception is a failure. */
  function Collect(d: Daemon, kind: Kind): Daemon
    requires kind in d.ended
  {
    d.(failed := d.failed || !d.ended[kind])
  }

  function AfterStart(l: Limits, d: Daemon, limit: int, signs: Signs): Daemon {
    if Starting in d.ended then
      var c := Collect(d, Starting);
      if d.ended[Starting] && !c.stop && !c.failed then c.(driver := Serving) else BeginDrain(l, c, signs)
    else if GivesUp(d, limit) then Finish(RequestStop(l, d, signs.raises, signs.unwell), false, signs.unwellAtEnd)
    else d
  }

  function AfterDrain(d: Daemon, signs: Signs): Daemon {
    if Draining in d.ended then
      var c := Collect(d, Draining);
      if c.force then Finish(c, false, signs.unwellAtEnd) else Begin(c, Closing, AwaitClose(d.ended[Draining]))
    else if GivesUp(d, ShutdownLimit(d)) then Finish(d, false, signs.unwellAtEnd)
    else d
  }

  function AfterClose(d: Daemon, drained: bool, signs: Signs): Daemon {
    if Closing in d.ended then Finish(Collect(d, Closing), drained && d.ended[Closing], signs.unwellAtEnd)
    else if GivesUp(d, ShutdownLimit(d)) then Finish(d, false, signs.unwellAtEnd)
    else d
  }

  /** The driver runs from one await to the next. */
  function Resume(l: Limits, before: Daemon, signs: Signs): Daemon {
    var d := before.(failed := before.failed || signs.unwell);
    match d.driver
    case NotStarted => Begin(d, Starting, AwaitStart(d.now + l.startup))
    case AwaitStart(limit) => AfterStart(l, d, limit, signs)
    case Serving => if d.stop || d.failed then BeginDrain(l, d, signs) else d
    case AwaitDrain => AfterDrain(d, signs)
    case AwaitClose(drained) => AfterClose(d, drained, signs)
    case Finished => d
  }

  datatype Step =
    | Pass(time: nat)
    | Stop(raises: bool, unwell: bool)
    | End(kind: Kind, ok: bool)
    | Refresh(unwell: bool)
    | Drive(signs: Signs)

  function Apply(l: Limits, d: Daemon, step: Step): Daemon {
    match step
    case Pass(time) => d.(now := d.now + time)
    case Stop(raises, unwell) => RequestStop(l, d, raises, unwell)
    case End(kind, ok) =>
      if kind in d.began && kind !in d.ended then
        d.(ended := d.ended[kind := ok], trace := d.trace + [Ended(kind, ok)])
      else d
    case Refresh(unwell) => d.(failed := d.failed || unwell)
    case Drive(signs) => Resume(l, d, signs)
  }

  // ----- what every trace looks like

  predicate EndedIn(trace: seq<Event>, kind: Kind) {
    Ended(kind, true) in trace || Ended(kind, false) in trace
  }

  /** What must have happened, and not yet have happened, before each event. */
  predicate Timely(before: seq<Event>, e: Event) {
    match e
    case IntakeStopped => IntakeStopped !in before
    case Began(kind) =>
      && Began(kind) !in before
      && (kind == Draining ==> IntakeStopped in before && EndedIn(before, Starting))
      && (kind == Closing ==> EndedIn(before, Draining))
    case Ended(kind, _) => Began(kind) in before && !EndedIn(before, kind)
    case Reported(outcome) =>
      && IntakeStopped in before
      && (outcome.complete ==>
            Ended(Draining, true) in before && Ended(Closing, true) in before && EndedIn(before, Starting))
      && (outcome.complete ==> outcome.unfinished == 0)
      && (outcome.exitCode == 0 ==> outcome.complete)
  }

  predicate TimelyAt(trace: seq<Event>, i: nat)
    requires i < |trace|
  {
    Timely(trace[..i], trace[i])
  }

  ghost predicate InOrder(trace: seq<Event>) {
    forall i | 0 <= i < |trace| :: TimelyAt(trace, i)
  }

  lemma {:induction false} OrderExtends(trace: seq<Event>, e: Event)
    requires InOrder(trace) && Timely(trace, e)
    ensures InOrder(trace + [e])
  {
    hide Timely;
    var more := trace + [e];
    assert more[..|trace|] == trace;
    forall i | 0 <= i < |more| ensures TimelyAt(more, i) {
      if i < |trace| {
        assert TimelyAt(trace, i) && more[..i] == trace[..i];
      }
    }
  }

  /** The fields remember the trace. */
  predicate Remembers(d: Daemon) {
    && (d.stop <==> IntakeStopped in d.trace)
    && (d.stop <==> d.deadline.Some?)
    && (forall kind :: kind in d.began <==> Began(kind) in d.trace)
    && (forall kind, ok :: kind in d.ended && d.ended[kind] == ok <==> Ended(kind, ok) in d.trace)
    && (forall kind :: kind in d.ended ==> kind in d.began)
  }

  /** What the driver's position says of the operations. */
  predicate Placed(d: Daemon) {
    && (d.driver.NotStarted? ==> d.began == {})
    && (d.driver.AwaitStart? ==> d.began == {Starting})
    && (d.driver.Serving? ==> d.began == {Starting} && Starting in d.ended)
    && (d.driver.AwaitDrain? ==> d.stop && d.began == {Starting, Draining} && Starting in d.ended)
    && (d.driver.AwaitClose? ==>
          && d.stop && d.began == {Starting, Draining, Closing} && Starting in d.ended && Draining in d.ended
          && d.driver.drained == d.ended[Draining])
    && (d.driver.Finished? <==> d.outcome.Some?)
  }

  ghost predicate Sound(d: Daemon) { InOrder(d.trace) && Remembers(d) && Placed(d) }

  lemma {:induction false} StopSound(l: Limits, d: Daemon, raises: bool, unwell: bool)
    requires InOrder(d.trace) && Remembers(d)
    ensures var n := RequestStop(l, d, raises, unwell);
            InOrder(n.trace) && Remembers(n) && n.stop && n.began == d.began && n.ended == d.ended
  {
    if !d.stop { OrderExtends(d.trace, IntakeStopped); }
  }

  lemma {:induction false} BeginSound(d: Daemon, kind: Kind, driver: Driver)
    requires InOrder(d.trace) && Remembers(d) && Timely(d.trace, Began(kind))
    ensures var n := Begin(d, kind, driver);
            InOrder(n.trace) && Remembers(n) && n.began == d.began + {kind} && n.ended == d.ended
  {
    OrderExtends(d.trace, Began(kind));
  }

  lemma {:induction false} EndSound(d: Daemon, kind: Kind, ok: bool)
    requires InOrder(d.trace) && Remembers(d) && kind in d.began && kind !in d.ended
    ensures var n := d.(ended := d.ended[kind := ok], trace := d.trace + [Ended(kind, ok)]);
            InOrder(n.trace) && Remembers(n)
  {
    assert Ended(kind, true) !in d.trace && Ended(kind, false) !in d.trace;
    OrderExtends(d.trace, Ended(kind, ok));
  }

  predicate AllEnded(d: Daemon) {
    && d.began == {Starting, Draining, Closing}
    && Starting in d.ended && Draining in d.ended && Closing in d.ended
    && d.ended[Draining] && d.ended[Closing]
  }

  lemma {:induction false} FinishTimely(d: Daemon, complete: bool, unwell: bool)
    requires Remembers(d) && d.stop && (complete ==> AllEnded(d))
    ensures Timely(d.trace, Reported(Finish(d, complete, unwell).outcome.value))
  {
    if complete {
      assert d.began - d.ended.Keys == {};
      assert Ended(Starting, d.ended[Starting]) in d.trace;
      assert Ended(Draining, true) in d.trace && Ended(Closing, true) in d.trace;
    }
  }

  lemma {:induction false} FinishSound(d: Daemon, complete: bool, unwell: bool)
    requires InOrder(d.trace) && Remembers(d) && d.stop && (complete ==> AllEnded(d))
    ensures var n := Finish(d, complete, unwell);
            InOrder(n.trace) && Remembers(n) && n.outcome.Some? && n.driver.Finished?
  {
    hide Timely, InOrder, Unfinished;
    FinishTimely(d, complete, unwell);
    OrderExtends(d.trace, Reported(Finish(d, complete, unwell).outcome.value));
  }

  lemma {:induction false} DrainSound(l: Limits, d: Daemon, signs: Signs)
    requires InOrder(d.trace) && Remembers(d) && d.began == {Starting} && Starting in d.ended && d.outcome.None?
    ensures Sound(BeginDrain(l, d, signs))
  {
    hide Timely, InOrder;
    StopSound(l, d, signs.raises, signs.unwellAtEnd);
    var n := StopIfNeeded(l, d, signs);
    assert Timely(n.trace, Began(Draining)) by { DrainTimely(n.trace); }
    BeginSound(n, Draining, AwaitDrain);
  }

  lemma {:induction false} DrainTimely(trace: seq<Event>)
    requires IntakeStopped in trace && EndedIn(trace, Starting) && Began(Draining) !in trace
    ensures Timely(trace, Began(Draining))
  {
  }

  lemma {:induction false} StartSound(l: Limits, d: Daemon, limit: int, signs: Signs)
    requires Sound(d) && d.driver == AwaitStart(limit)
    ensures Sound(AfterStart(l, d, limit, signs))
  {
    hide Timely, InOrder, GivesUp, BeginDrain, RequestStop, Finish;
    if Starting in d.ended {
      DrainSound(l, Collect(d, Starting), signs);
    } else if GivesUp(d, limit) {
      StopSound(l, d, signs.raises, signs.unwell);
      FinishSound(RequestStop(l, d, signs.raises, signs.unwell), false, signs.unwellAtEnd);
    }
  }

  lemma {:induction false} CloseBegins(d: Daemon)
    requires Sound(d) && d.driver.AwaitDrain? && Draining in d.ended
    ensures Sound(Begin(Collect(d, Draining), Closing, AwaitClose(d.ended[Draining])))
  {
    hide Timely, InOrder;
    var c := Collect(d, Draining);
    assert Timely(c.trace, Began(Closing)) by { CloseTimely(c.trace); }
    BeginSound(c, Closing, AwaitClose(d.ended[Draining]));
  }

  lemma {:induction false} DrainedSound(d: Daemon, signs: Signs)
    requires Sound(d) && d.driver.AwaitDrain?
    ensures Sound(AfterDrain(d, signs))
  {
    hide Timely, InOrder, GivesUp, Begin, Finish;
    FinishSound(d, false, signs.unwellAtEnd);
    if Draining in d.ended {
      FinishSound(Collect(d, Draining), false, signs.unwellAtEnd);
      CloseBegins(d);
    }
  }

  lemma {:induction false} ClosedSound(d: Daemon, drained: bool, signs: Signs)
    requires Sound(d) && d.driver == AwaitClose(drained)
    ensures Sound(AfterClose(d, drained, signs))
  {
    hide Timely, InOrder, GivesUp, Finish;
    FinishSound(d, false, signs.unwellAtEnd);
    if Closing in d.ended { FinishSound(Collect(d, Closing), drained && d.ended[Closing], signs.unwellAtEnd); }
  }

  lemma {:induction false} LaunchSound(d: Daemon, limit: int)
    requires Sound(d) && d.driver.NotStarted?
    ensures Sound(Begin(d, Starting, AwaitStart(limit)))
  {
    hide Timely, InOrder;
    assert Timely(d.trace, Began(Starting)) by { StartTimely(d.trace); }
    BeginSound(d, Starting, AwaitStart(limit));
  }

  lemma {:induction false} FailedStaysSound(d: Daemon, failed: bool)
    requires Sound(d)
    ensures Sound(d.(failed := failed))
  {
  }

  lemma {:induction false} ResumeSound(l: Limits, before: Daemon, signs: Signs)
    requires Sound(before)
    ensures Sound(Resume(l, before, signs))
  {
    hide InOrder, Remembers, BeginDrain, Begin, AfterStart, AfterDrain, AfterClose;
    var d := before.(failed := before.failed || signs.unwell);
    FailedStaysSound(before, d.failed);
    match d.driver {
      case NotStarted => LaunchSound(d, d.now + l.startup);
      case AwaitStart(limit) => StartSound(l, d, limit, signs);
      case Serving => DrainSound(l, d, signs);
      case AwaitDrain => DrainedSound(d, signs);
      case AwaitClose(drained) => ClosedSound(d, drained, signs);
      case Finished =>
    }
  }

  lemma {:induction false} StartTimely(trace: seq<Event>)
    requires Began(Starting) !in trace
    ensures Timely(trace, Began(Starting))
  {
  }

  lemma {:induction false} CloseTimely(trace: seq<Event>)
    requires EndedIn(trace, Draining) && Began(Closing) !in trace
    ensures Timely(trace, Began(Closing))
  {
  }

  lemma {:induction false} StepSound(l: Limits, d: Daemon, step: Step)
    requires Sound(d)
    ensures Sound(Apply(l, d, step))
  {
    hide Timely, InOrder, Resume;
    match step {
      case Pass(_) =>
      case Stop(raises, unwell) => StopSound(l, d, raises, unwell);
      case End(kind, ok) =>
        if kind in d.began && kind !in d.ended { EndSound(d, kind, ok); }
      case Refresh(_) =>
      case Drive(signs) => ResumeSound(l, d, signs);
    }
  }

  // ----- runs

  function Run(l: Limits, steps: seq<Step>): Daemon {
    if steps == [] then INITIAL else Apply(l, Run(l, steps[..|steps| - 1]), steps[|steps| - 1])
  }

  /**
   * Main result: in every interleaving, intake is stopped once and before the drain; the
   * drain begins only after the start has ended, the close only after the drain has; and a
   * complete outcome leaves nothing unfinished.
   */
  lemma {:induction false} EveryTraceInOrder(l: Limits, steps: seq<Step>)
    ensures Sound(Run(l, steps))
  {
    hide Sound, Apply;
    if steps == [] {
      assert Sound(INITIAL) by { InitialSound(); }
    } else {
      EveryTraceInOrder(l, steps[..|steps| - 1]);
      StepSound(l, Run(l, steps[..|steps| - 1]), steps[|steps| - 1]);
    }
  }

  lemma {:induction false} InitialSound()
    ensures Sound(INITIAL)
  {
  }

  /** What no step takes back: a failure, a stop, the deadline, the outcome. */
  predicate Lasts(d: Daemon, n: Daemon) {
    && (d.failed ==> n.failed) && (d.stop ==> n.stop) && (d.force ==> n.force)
    && (d.deadline.Some? ==> n.deadline == d.deadline)
    && (d.outcome.Some? ==> n.outcome == d.outcome)
    && d.trace <= n.trace && d.now <= n.now
  }

  /** The deadline comes from the first stop request and from nowhere else. */
  predicate Dated(l: Limits, d: Daemon, n: Daemon) {
    Lasts(d, n) && (d.deadline.None? && n.deadline.Some? ==> n.deadline.value == d.now + l.shutdown)
  }

  lemma {:induction false} DrainLasts(l: Limits, d: Daemon, signs: Signs)
    requires Remembers(d)
    ensures Dated(l, d, BeginDrain(l, d, signs))
  {
  }

  lemma {:induction false} StopLasts(l: Limits, d: Daemon, raises: bool, unwell: bool)
    requires Remembers(d)
    ensures Dated(l, d, RequestStop(l, d, raises, unwell)) && RequestStop(l, d, raises, unwell).outcome == d.outcome
    ensures RequestStop(l, d, raises, unwell).now == d.now
  {
  }

  lemma {:induction false} StartLasts(l: Limits, d: Daemon, limit: int, signs: Signs)
    requires Remembers(d) && d.outcome.None?
    ensures Dated(l, d, AfterStart(l, d, limit, signs))
  {
    hide BeginDrain, GivesUp, RequestStop, Finish;
    if Starting in d.ended {
      DrainLasts(l, Collect(d, Starting), signs);
    } else {
      var s := RequestStop(l, d, signs.raises, signs.unwell);
      StopLasts(l, d, signs.raises, signs.unwell);
      FinishLasts(l, s, false, signs.unwellAtEnd);
    }
  }

  lemma {:induction false} FinishLasts(l: Limits, d: Daemon, complete: bool, unwell: bool)
    requires d.outcome.None?
    ensures Dated(l, d, Finish(d, complete, unwell))
  {
    hide Unfinished;
  }

  lemma {:induction false} LaterLasts(l: Limits, d: Daemon, drained: bool, signs: Signs)
    requires d.outcome.None?
    ensures Dated(l, d, AfterDrain(d, signs)) && Dated(l, d, AfterClose(d, drained, signs))
  {
    hide GivesUp, Finish;
    FinishLasts(l, d, false, signs.unwellAtEnd);
    if Draining in d.ended { FinishLasts(l, Collect(d, Draining), false, signs.unwellAtEnd); }
    if Closing in d.ended { FinishLasts(l, Collect(d, Closing), drained && d.ended[Closing], signs.unwellAtEnd); }
  }

  lemma {:induction false} ResumeLasts(l: Limits, before: Daemon, signs: Signs)
    requires Remembers(before) && Placed(before)
    ensures Dated(l, before, Resume(l, before, signs))
  {
    hide BeginDrain, AfterStart, AfterDrain, AfterClose;
    var d := before.(failed := before.failed || signs.unwell);
    match d.driver {
      case NotStarted =>
      case AwaitStart(limit) => StartLasts(l, d, limit, signs);
      case Serving => DrainLasts(l, d, signs);
      case AwaitDrain => LaterLasts(l, d, false, signs);
      case AwaitClose(drained) => LaterLasts(l, d, drained, signs);
      case Finished =>
    }
  }

  lemma {:induction false} StepLasts(l: Limits, d: Daemon, step: Step)
    requires Remembers(d) && Placed(d)
    ensures Dated(l, d, Apply(l, d, step))
  {
    hide Resume;
    if step.Drive? { ResumeLasts(l, d, step.signs); }
  }

  /** The shutdown deadline, once fixed, is never extended, and a failure is never forgotten. */
  lemma {:induction false} RunLasts(l: Limits, steps: seq<Step>, i: nat)
    requires i <= |steps|
    ensures Lasts(Run(l, steps[..i]), Run(l, steps))
    decreases |steps| - i
  {
    hide Apply, Lasts;
    if i == |steps| {
      assert steps[..i] == steps;
      assert Lasts(Run(l, steps), Run(l, steps)) by { LastsItself(Run(l, steps)); }
    } else {
      assert steps[..i + 1][..i] == steps[..i];
      EveryTraceInOrder(l, steps[..i]);
      StepLasts(l, Run(l, steps[..i]), steps[i]);
      RunLasts(l, steps, i + 1);
      LastsTwice(Run(l, steps[..i]), Run(l, steps[..i + 1]), Run(l, steps));
    }
  }

  lemma {:induction false} LastsItself(d: Daemon)
    ensures Lasts(d, d)
  {
  }

  lemma {:induction false} LastsTwice(a: Daemon, b: Daemon, c: Daemon)
    requires Lasts(a, b) && Lasts(b, c)
    ensures Lasts(a, c)
  {
  }

  predicate Honest(n: Daemon) {
    n.outcome.Some? ==>
      && (n.outcome.value.exitCode == 0 <==> n.outcome.value.complete && !n.failed)
      && (n.outcome.value.complete ==> n.outcome.value.unfinished == 0 && Unfinished(n) == 0)
  }

  lemma {:induction false} FinishHonest(d: Daemon, complete: bool, unwell: bool)
    requires complete ==> Unfinished(d) == 0
    ensures Honest(Finish(d, complete, unwell))
  {
  }

  lemma {:induction false} DrainReportsNothing(l: Limits, d: Daemon, signs: Signs)
    ensures BeginDrain(l, d, signs).outcome == d.outcome
  {
  }

  /** The step that reports: exit code 0 exactly when complete and nothing has failed by then. */
  lemma {:induction false} ReportIsHonest(l: Limits, d: Daemon, step: Step)
    requires Sound(d) && d.outcome.None?
    ensures Honest(Apply(l, d, step))
  {
    hide GivesUp, InOrder, BeginDrain, Finish, Honest, Remembers;
    NoReport(Apply(l, d, step));
    if step.Drive? {
      var e := d.(failed := d.failed || step.signs.unwell);
      match e.driver {
        case AwaitStart(limit) =>
          FinishHonest(RequestStop(l, e, step.signs.raises, step.signs.unwell), false, step.signs.unwellAtEnd);
          if Starting in e.ended { DrainReportsNothing(l, Collect(e, Starting), step.signs); }
        case Serving => DrainReportsNothing(l, e, step.signs);
        case AwaitDrain =>
          FinishHonest(e, false, step.signs.unwellAtEnd);
          if Draining in e.ended { FinishHonest(Collect(e, Draining), false, step.signs.unwellAtEnd); }
        case AwaitClose(drained) =>
          FinishHonest(e, false, step.signs.unwellAtEnd);
          if Closing in e.ended {
            assert e.began - e.ended.Keys == {};
            FinishHonest(Collect(e, Closing), drained && e.ended[Closing], step.signs.unwellAtEnd);
          }
        case _ =>
      }
    }
  }

  lemma {:induction false} NoReport(n: Daemon)
    ensures n.outcome.None? ==> Honest(n)
  {
  }

  /**
   * Main result: exit code 0 means that the shutdown was complete, that nothing is left
   * unfinished, and that no failure had been recorded at any time before the report.
   */
  lemma {:induction false} ExitCodeIsHonest(l: Limits, steps: seq<Step>, k: nat, i: nat)
    requires i <= k < |steps| && Run(l, steps[..k]).outcome.None? && Run(l, steps[..k + 1]).outcome.Some?
    ensures var reported := Run(l, steps[..k + 1]);
            && (reported.outcome.value.exitCode == 0 <==> reported.outcome.value.complete && !reported.failed)
            && (reported.outcome.value.exitCode == 0 ==> !Run(l, steps[..i]).failed && Unfinished(reported) == 0)
            && Run(l, steps).outcome == reported.outcome
  {
    hide Apply;
    assert steps[..k + 1][..k] == steps[..k] && steps[..k + 1][..i] == steps[..i];
    EveryTraceInOrder(l, steps[..k]);
    ReportIsHonest(l, Run(l, steps[..k]), steps[k]);
    RunLasts(l, steps[..k + 1], i);
    RunLasts(l, steps, k + 1);
  }

  predicate SomethingFailed(d: Daemon) {
    exists kind | kind in d.ended :: !d.ended[kind]
  }

  /** Shutdown is cut short only when forced, when a time limit has passed, or when a phase failed. */
  lemma {:induction false} IncompleteHasReason(l: Limits, d: Daemon, step: Step)
    requires Sound(d) && d.outcome.None?
    ensures var n := Apply(l, d, step);
            n.outcome.Some? && !n.outcome.value.complete ==>
              || n.force
              || (d.driver.AwaitStart? && TimeLimit(d, d.driver.limit) <= d.now)
              || (d.deadline.Some? && d.deadline.value <= d.now)
              || SomethingFailed(n)
  {
    hide InOrder, BeginDrain;
    if step.Drive? {
      var e := d.(failed := d.failed || step.signs.unwell);
      if e.driver.AwaitStart? && Starting in e.ended { DrainReportsNothing(l, Collect(e, Starting), step.signs); }
      if e.driver.Serving? { DrainReportsNothing(l, e, step.signs); }
      assert e.driver.AwaitClose? ==> e.driver.drained == e.ended[Draining];
    }
  }
}
