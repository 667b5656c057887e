/**
 * The durable spool's writer protocol: two bounded lanes, one writer, and a close or a
 * failure racing with submissions.
 *
 * Every method of the source that takes a lock, a queue operation or a commit is one step;
 * a run is any interleaving of steps of the callers and of the writer thread.
 */
module Spool {
  import opened Wrappers
  import opened Canonical
  import opened Domain
  import opened RawRecords

  const METADATA_CAPACITY := 32
  const METADATA_BYTES := 65536
  const METADATA_STREAMS := 64

  datatype Op =
    | Status
    | Accept(envelope: Envelope)
    | Read(offset: nat, limit: nat)
    | Recall(key: string)
    | Put(key: string, value: Bytes, expected: Option<Bytes>)

  datatype Lane = Metadata | Intake

  datatype Request = Request(caller: nat, op: Op)
  {
    function Lane(): Lane { if op.Recall? || op.Put? then Metadata else Intake }
  }

  datatype Reply =
    | Report
    | Recorded(record: RawRecord)
    | Page(records: seq<RawRecord>)
    | Value(value: Option<Bytes>)
    | Failure

  datatype Answer = Answer(request: Request, reply: Reply)

  datatype Config = Config(producer: string, epoch: string, capacity: nat, maxPayload: nat)

  /** Where the writer thread is. */
  datatype Writer =
    | Idle
    | Polled                                                    // found no metadata request
    | Holding(request: Request)
    | Answering(answer: Answer, broken: bool)                   // the transaction has ended
    | Failing(active: Option<Request>)
    | Signalling(active: Option<Request>)                       // the failure is visible to callers
    | Abandoning(active: Option<Request>)
    | Draining
    | Exited

  datatype SpoolState = SpoolState(
    metadata: seq<Request>,
    intake: seq<Request>,
    closing: bool,
    shutdown: bool,
    fatal: bool,
    writer: Writer,
    table: seq<RawRecord>,
    lastOffset: nat,
    recovery: map<string, Bytes>,
    admitted: seq<Request>,
    answered: seq<Answer>,
    unacknowledged: seq<Answer>)

  // ----- the database

  /** The rows of a page: the first few past an offset, in order. */
  function RowsAfter(table: seq<RawRecord>, offset: int, limit: nat): seq<RawRecord> {
    if limit == 0 || table == [] then []
    else if table[0].identity.offset > offset then [table[0]] + RowsAfter(table[1..], offset, limit - 1)
    else RowsAfter(table[1..], offset, limit)
  }

  /** A row is refused when its payload is over the limit this process was opened with. */
  predicate Decodes(maxPayload: nat, row: RawRecord) { |row.envelope.payload| <= maxPayload }

  function ReadPage(maxPayload: nat, table: seq<RawRecord>, offset: int, limit: nat): Option<seq<RawRecord>> {
    var rows := RowsAfter(table, offset, limit);
    if forall row | row in rows :: Decodes(maxPayload, row) then Some(rows) else None
  }

  function Current(recovery: map<string, Bytes>, key: string): Option<Bytes> {
    if key in recovery then Some(recovery[key]) else None
  }

  /** Compare and swap, within the quota of keys. */
  predicate PutAllowed(recovery: map<string, Bytes>, put: Op)
    requires put.Put?
  {
    && Current(recovery, put.key) == put.expected
    && (put.key !in recovery ==> |recovery| < METADATA_STREAMS)
  }

  // ----- steps

  datatype Step =
    | Submit(request: Request)
    | Close
    | SignalClose
    | PollMetadata
    | PollIntake
    | Finish                       // shutdown, and both lanes empty
    | Commit                       // the request's transaction succeeds
    | RollBack                     // it fails and is rolled back
    | BreakDown                    // it fails and cannot be rolled back
    | Deliver
    | Crash                        // any other exception in the writer thread
    | SetFatal
    | SignalFatal
    | Abandon
    | Drain

  function Queue(s: SpoolState, lane: Lane): seq<Request> {
    if lane == Metadata then s.metadata else s.intake
  }

  function Bound(cfg: Config, lane: Lane): nat {
    if lane == Metadata then METADATA_CAPACITY else cfg.capacity
  }

  predicate Admits(cfg: Config, s: SpoolState, r: Request) {
    !s.fatal && !s.closing && |Queue(s, r.Lane())| < Bound(cfg, r.Lane())
  }

  /** What callers check before they submit. */
  predicate Presentable(cfg: Config, op: Op) {
    match op
    case Accept(envelope) => |envelope.payload| <= cfg.maxPayload
    case Read(_, limit) => limit >= 1
    case Put(_, value, _) => 1 <= |value| <= METADATA_BYTES
    case _ => true
  }

  function Enqueue(s: SpoolState, r: Request): SpoolState {
    if r.Lane() == Metadata then s.(metadata := s.metadata + [r], admitted := s.admitted + [r])
    else s.(intake := s.intake + [r], admitted := s.admitted + [r])
  }

  predicate Transacts(op: Op) { op.Accept? || op.Recall? || op.Put? }

  function NewRecord(cfg: Config, s: SpoolState, envelope: Envelope): RawRecord {
    RawRecord(IngestionId(cfg.producer, cfg.epoch, s.lastOffset + 1), envelope)
  }

  /** The request's effect and its reply, when its transaction can succeed. */
  function Executed(cfg: Config, s: SpoolState, r: Request): Option<SpoolState> {
    match r.op
    case Status => Some(s.(writer := Answering(Answer(r, Report), false)))
    case Accept(envelope) =>
      var record := NewRecord(cfg, s, envelope);
      Some(s.(table := s.table + [record], lastOffset := s.lastOffset + 1,
              writer := Answering(Answer(r, Recorded(record)), false)))
    case Read(offset, limit) =>
      var page := ReadPage(cfg.maxPayload, s.table, offset, limit);
      if page.None? then None else Some(s.(writer := Answering(Answer(r, Page(page.value)), false)))
    case Recall(key) => Some(s.(writer := Answering(Answer(r, Value(Current(s.recovery, key))), false)))
    case Put(key, value, expected) =>
      if !PutAllowed(s.recovery, r.op) then None
      else Some(s.(recovery := s.recovery[key := value],
                   writer := Answering(Answer(r, Value(expected)), false)))
  }

  /** An answer whose effect is committed and which its caller has not been given. */
  function Undelivered(s: SpoolState): seq<Answer> {
    if s.writer.Answering? then [s.writer.answer] else []
  }

  function InHand(w: Writer): seq<Request> {
    match w
    case Holding(r) => [r]
    case Answering(a, _) => [a.request]
    case Failing(active) => if active.Some? then [active.value] else []
    case Signalling(active) => if active.Some? then [active.value] else []
    case Abandoning(active) => if active.Some? then [active.value] else []
    case _ => []
  }

  predicate Working(w: Writer) { w.Idle? || w.Polled? || w.Holding? || w.Answering? }

  /** The state after a step, or nothing if the step cannot be taken. */
  function Apply(cfg: Config, s: SpoolState, step: Step): Option<SpoolState> {
    match step
    case Submit(r) => if Presentable(cfg, r.op) && Admits(cfg, s, r) then Some(Enqueue(s, r)) else None
    case Close => Some(s.(closing := true))
    case SignalClose => if s.closing then Some(s.(shutdown := true)) else None
    case PollMetadata =>
      if !s.writer.Idle? then None
      else if s.metadata == [] then Some(s.(writer := Polled))
      else Some(s.(metadata := s.metadata[1..], writer := Holding(s.metadata[0])))
    case PollIntake =>
      if !s.writer.Polled? then None
      else if s.intake == [] then Some(s.(writer := Idle))
      else Some(s.(intake := s.intake[1..], writer := Holding(s.intake[0])))
    case Finish =>
      if s.writer.Idle? && s.shutdown && s.metadata == [] && s.intake == [] then Some(s.(writer := Exited)) else None
    case Commit => if s.writer.Holding? then Executed(cfg, s, s.writer.request) else None
    case RollBack =>
      if s.writer.Holding? then Some(s.(writer := Answering(Answer(s.writer.request, Failure), false))) else None
    case BreakDown =>
      if s.writer.Holding? && Transacts(s.writer.request.op)
      then Some(s.(writer := Answering(Answer(s.writer.request, Failure), true)))
      else None
    case Deliver =>
      if !s.writer.Answering? then None
      else Some(s.(answered := s.answered + [s.writer.answer],
                   writer := if s.writer.broken then Failing(None) else Idle))
    case Crash =>
      if !Working(s.writer) then None
      else
        var held := InHand(s.writer);
        Some(s.(writer := Failing(if held == [] then None else Some(held[0])),
                unacknowledged := s.unacknowledged + Undelivered(s)))
    case SetFatal => if s.writer.Failing? then Some(s.(fatal := true, writer := Signalling(s.writer.active))) else None
    case SignalFatal =>
      if s.writer.Signalling? then Some(s.(shutdown := true, writer := Abandoning(s.writer.active))) else None
    case Abandon =>
      if !s.writer.Abandoning? then None
      else if s.writer.active.None? then Some(s.(writer := Draining))
      else Some(s.(answered := s.answered + [Answer(s.writer.active.value, Failure)], writer := Draining))
    case Drain =>
      if !s.writer.Draining? then None
      else if s.metadata != [] then
        Some(s.(metadata := s.metadata[1..], answered := s.answered + [Answer(s.metadata[0], Failure)]))
      else if s.intake != [] then
        Some(s.(intake := s.intake[1..], answered := s.answered + [Answer(s.intake[0], Failure)]))
      else Some(s.(writer := Exited))
  }

  // ----- the invariant

  function OnLane(rs: seq<Request>, lane: Lane): seq<Request> {
    if rs == [] then []
    else OnLane(rs[..|rs| - 1], lane) + if rs[|rs| - 1].Lane() == lane then [rs[|rs| - 1]] else []
  }

  function Requests(answers: seq<Answer>): (rs: seq<Request>)
    ensures |rs| == |answers| && forall i | 0 <= i < |rs| :: rs[i] == answers[i].request
  {
    seq(|answers|, i requires 0 <= i < |answers| => answers[i].request)
  }

  /** A lane's admitted requests are: those answered, the one in hand, those waiting; in order. */
  predicate InOrder(s: SpoolState, lane: Lane) {
    OnLane(s.admitted, lane)
    == OnLane(Requests(s.answered), lane) + OnLane(InHand(s.writer), lane) + Queue(s, lane)
  }

  predicate OwnLanes(s: SpoolState) {
    && (forall r | r in s.metadata :: r.Lane() == Metadata)
    && (forall r | r in s.intake :: r.Lane() == Intake)
  }

  predicate Orderly(cfg: Config, s: SpoolState) {
    && InOrder(s, Metadata) && InOrder(s, Intake) && OwnLanes(s)
    && |s.metadata| <= METADATA_CAPACITY && |s.intake| <= cfg.capacity
  }

  predicate Flagged(s: SpoolState) {
    && (s.shutdown ==> s.closing || s.fatal)
    && (s.writer.Signalling? || s.writer.Abandoning? || s.writer.Draining? ==> s.fatal)
    && (s.writer.Exited? ==> (s.closing || s.fatal) && s.metadata == [] && s.intake == [])
  }

  lemma {:induction false} LaneAppend(rs: seq<Request>, r: Request, lane: Lane)
    ensures OnLane(rs + [r], lane) == if r.Lane() == lane then OnLane(rs, lane) + [r] else OnLane(rs, lane)
  {
    assert (rs + [r])[..|rs|] == rs;
  }

  lemma {:induction false} LaneOne(r: Request, lane: Lane)
    ensures OnLane([r], lane) == if r.Lane() == lane then [r] else []
    ensures OnLane([], lane) == []
  {
    assert [r][..0] == [];
  }

  lemma {:induction false} RequestsAppend(answers: seq<Answer>, a: Answer)
    ensures Requests(answers + [a]) == Requests(answers) + [a.request]
  {
  }

  /** What a step does to the lanes: enqueue, take in hand, answer, or nothing. */
  datatype Move = Enqueued(r: Request) | Took(r: Request) | Replied(a: Answer) | Refused(a: Answer) | Still

  ghost predicate Moves(s: SpoolState, n: SpoolState, move: Move) {
    match move
    case Still =>
      && n.admitted == s.admitted && n.answered == s.answered
      && n.metadata == s.metadata && n.intake == s.intake && InHand(n.writer) == InHand(s.writer)
    case Enqueued(r) => n == Enqueue(s, r)
    case Took(r) =>
      && n.admitted == s.admitted && n.answered == s.answered
      && InHand(s.writer) == [] && InHand(n.writer) == [r] && Queue(s, r.Lane()) == [r] + Queue(n, r.Lane())
      && Queue(n, Other(r.Lane())) == Queue(s, Other(r.Lane()))
    case Replied(a) =>
      && n.admitted == s.admitted && n.answered == s.answered + [a]
      && InHand(s.writer) == [a.request] && InHand(n.writer) == []
      && n.metadata == s.metadata && n.intake == s.intake
    case Refused(a) =>
      && n.admitted == s.admitted && n.answered == s.answered + [a]
      && InHand(s.writer) == [] && InHand(n.writer) == []
      && Queue(s, a.request.Lane()) == [a.request] + Queue(n, a.request.Lane())
      && Queue(n, Other(a.request.Lane())) == Queue(s, Other(a.request.Lane()))
  }

  function Other(lane: Lane): Lane { if lane == Metadata then Intake else Metadata }

  lemma {:induction false} FinishOne<T>(all: seq<T>, done: seq<T>, one: seq<T>, rest: seq<T>)
    requires all == done + one + rest
    ensures all == (done + one) + [] + rest
  {
    assert (done + one) + [] == done + one;
  }

  lemma {:induction false} AddOne<T>(all: seq<T>, done: seq<T>, hand: seq<T>, rest: seq<T>, one: seq<T>)
    requires all == done + hand + rest
    ensures all + one == done + hand + (rest + one)
  {
  }

  lemma {:induction false} NoneInHand(lane: Lane)
    ensures OnLane([], lane) == []
  {
  }

  lemma {:induction false} MoveKeepsOrder(s: SpoolState, n: SpoolState, move: Move, lane: Lane)
    requires InOrder(s, lane) && Moves(s, n, move)
    ensures InOrder(n, lane)
  {
    hide OnLane, Requests, InHand;
    var done, hand := OnLane(Requests(s.answered), lane), OnLane(InHand(s.writer), lane);
    NoneInHand(lane);
    match move {
      case Still =>
      case Enqueued(r) =>
        LaneAppend(s.admitted, r, lane);
        AddOne(OnLane(s.admitted, lane), done, hand, Queue(s, lane), [r]);
      case Took(r) =>
        LaneOne(r, lane);
      case Replied(a) =>
        AnswerOne(s.answered, a, lane);
        LaneOne(a.request, lane);
        if a.request.Lane() == lane { FinishOne(OnLane(s.admitted, lane), done, [a.request], Queue(n, lane)); }
      case Refused(a) =>
        AnswerOne(s.answered, a, lane);
        LaneOne(a.request, lane);
        if a.request.Lane() == lane {
          FinishOne(OnLane(s.admitted, lane), done, [a.request], Queue(n, lane));
        }
    }
  }

  lemma {:induction false} AnswerOne(answers: seq<Answer>, a: Answer, lane: Lane)
    ensures OnLane(Requests(answers + [a]), lane)
            == if a.request.Lane() == lane then OnLane(Requests(answers), lane) + [a.request]
               else OnLane(Requests(answers), lane)
  {
    hide OnLane, Requests;
    RequestsAppend(answers, a);
    LaneAppend(Requests(answers), a.request, lane);
  }

  /** Which move each step makes. */
  function MoveOf(cfg: Config, s: SpoolState, step: Step): Move
    requires Apply(cfg, s, step).Some?
  {
    match step
    case Submit(r) => Enqueued(r)
    case PollMetadata => if s.metadata == [] then Still else Took(s.metadata[0])
    case PollIntake => if s.intake == [] then Still else Took(s.intake[0])
    case Deliver => Replied(s.writer.answer)
    case Abandon => if s.writer.active.None? then Still else Replied(Answer(s.writer.active.value, Failure))
    case Drain =>
      if s.metadata != [] then Refused(Answer(s.metadata[0], Failure))
      else if s.intake != [] then Refused(Answer(s.intake[0], Failure))
      else Still
    case _ => Still
  }

  /** Steps that leave the lanes, and what is in hand, alone. */
  predicate OnlyFlags(step: Step) {
    step in {Close, SignalClose, Finish, Commit, RollBack, BreakDown, Crash, SetFatal, SignalFatal}
  }

  lemma {:induction false} FlagsMoveNothing(cfg: Config, s: SpoolState, step: Step)
    requires Apply(cfg, s, step).Some? && OnlyFlags(step)
    ensures Moves(s, Apply(cfg, s, step).value, Still)
  {
    hide ReadPage, PutAllowed, Presentable;
  }

  lemma {:induction false} DrainMoves(cfg: Config, s: SpoolState)
    requires Apply(cfg, s, Drain).Some? && OwnLanes(s)
    ensures Moves(s, Apply(cfg, s, Drain).value, MoveOf(cfg, s, Drain))
  {
    if s.metadata != [] {
      assert s.metadata[0] in s.metadata && s.metadata == [s.metadata[0]] + s.metadata[1..];
    } else if s.intake != [] {
      assert s.intake[0] in s.intake && s.intake == [s.intake[0]] + s.intake[1..];
    }
  }

  lemma {:induction false} StepMoves(cfg: Config, s: SpoolState, step: Step)
    requires Apply(cfg, s, step).Some? && OwnLanes(s)
    ensures Moves(s, Apply(cfg, s, step).value, MoveOf(cfg, s, step))
  {
    if OnlyFlags(step) {
      FlagsMoveNothing(cfg, s, step);
    } else if step.PollMetadata? || step.PollIntake? {
    } else if step.Drain? {
      DrainMoves(cfg, s);
    } else if !step.Submit? {
    }
  }

  lemma {:induction false} StepOrderly(cfg: Config, s: SpoolState, step: Step)
    requires Orderly(cfg, s) && Apply(cfg, s, step).Some?
    ensures Orderly(cfg, Apply(cfg, s, step).value)
  {
    var n := Apply(cfg, s, step).value;
    StepMoves(cfg, s, step);
    MoveKeepsOrder(s, n, MoveOf(cfg, s, step), Metadata);
    MoveKeepsOrder(s, n, MoveOf(cfg, s, step), Intake);
    StepBounds(cfg, s, step);
  }

  lemma {:induction false} StepBounds(cfg: Config, s: SpoolState, step: Step)
    requires Apply(cfg, s, step).Some? && OwnLanes(s)
    requires |s.metadata| <= METADATA_CAPACITY && |s.intake| <= cfg.capacity
    ensures var n := Apply(cfg, s, step).value;
            OwnLanes(n) && |n.metadata| <= METADATA_CAPACITY && |n.intake| <= cfg.capacity
  {
    hide ReadPage, PutAllowed, Presentable;
  }

  lemma {:induction false} StepFlagged(cfg: Config, s: SpoolState, step: Step)
    requires Flagged(s) && Apply(cfg, s, step).Some?
    ensures Flagged(Apply(cfg, s, step).value)
  {
    hide ReadPage, PutAllowed, Presentable;
  }

  // ----- runs

  /** A freshly opened spool over whatever the database holds. */
  function Start(table: seq<RawRecord>, lastOffset: nat, recovery: map<string, Bytes>): SpoolState {
    SpoolState([], [], false, false, false, Idle, table, lastOffset, recovery, [], [], [])
  }

  /** The state after a run of steps; nothing if one of them cannot be taken. */
  function Run(cfg: Config, start: SpoolState, steps: seq<Step>): Option<SpoolState> {
    if steps == [] then Some(start)
    else
      match Run(cfg, start, steps[..|steps| - 1])
      case None => None
      case Some(s) => Apply(cfg, s, steps[|steps| - 1])
  }

  lemma {:induction false} RunOrderly(
      cfg: Config, table: seq<RawRecord>, lastOffset: nat, recovery: map<string, Bytes>, steps: seq<Step>)
    requires Run(cfg, Start(table, lastOffset, recovery), steps).Some?
    ensures var s := Run(cfg, Start(table, lastOffset, recovery), steps).value;
            Orderly(cfg, s) && Flagged(s)
  {
    hide Apply, Orderly, Flagged;
    if steps == [] {
      StartOrderly(cfg, table, lastOffset, recovery);
    } else {
      var n := |steps| - 1;
      RunOrderly(cfg, table, lastOffset, recovery, steps[..n]);
      var s := Run(cfg, Start(table, lastOffset, recovery), steps[..n]).value;
      StepOrderly(cfg, s, steps[n]);
      StepFlagged(cfg, s, steps[n]);
    }
  }

  lemma {:induction false} StartOrderly(
      cfg: Config, table: seq<RawRecord>, lastOffset: nat, recovery: map<string, Bytes>)
    ensures Orderly(cfg, Start(table, lastOffset, recovery)) && Flagged(Start(table, lastOffset, recovery))
  {
  }

  /**
   * Main result: when the writer has gone, every admitted request of each lane has been
   * answered exactly once and in the order of admission; and until then no lane ever holds
   * more than its bound, and what is answered is a prefix of what was admitted.
   */
  lemma {:induction false} EachAnsweredOnce(
      cfg: Config, table: seq<RawRecord>, lastOffset: nat, recovery: map<string, Bytes>, steps: seq<Step>, lane: Lane)
    requires Run(cfg, Start(table, lastOffset, recovery), steps).Some?
    ensures var s := Run(cfg, Start(table, lastOffset, recovery), steps).value;
            && OnLane(Requests(s.answered), lane) <= OnLane(s.admitted, lane)
            && (s.writer.Exited? ==> OnLane(Requests(s.answered), lane) == OnLane(s.admitted, lane))
            && |Queue(s, lane)| <= Bound(cfg, lane)
  {
    hide Apply, OnLane, Requests, Run;
    RunOrderly(cfg, table, lastOffset, recovery, steps);
    LaneOne(Request(0, Status), lane);
  }

  /** After the writer has gone nothing is admitted any more. */
  lemma {:induction false} NothingAfterExit(
      cfg: Config, table: seq<RawRecord>, lastOffset: nat, recovery: map<string, Bytes>, steps: seq<Step>, r: Request)
    requires Run(cfg, Start(table, lastOffset, recovery), steps).Some?
    requires Run(cfg, Start(table, lastOffset, recovery), steps).value.writer.Exited?
    ensures Apply(cfg, Run(cfg, Start(table, lastOffset, recovery), steps).value, Submit(r)).None?
  {
    hide Run;
    RunOrderly(cfg, table, lastOffset, recovery, steps);
  }

  // ----- the log

  /** The records these answers acknowledge. */
  function Records(answers: seq<Answer>): seq<RawRecord> {
    if answers == [] then []
    else
      var last := answers[|answers| - 1].reply;
      Records(answers[..|answers| - 1]) + if last.Recorded? then [last.record] else []
  }

  /** The metadata writes these answers acknowledge. */
  function Swaps(answers: seq<Answer>): seq<Op> {
    if answers == [] then []
    else
      var last := answers[|answers| - 1];
      Swaps(answers[..|answers| - 1]) + if last.request.op.Put? && last.reply.Value? then [last.request.op] else []
  }

  lemma {:induction false} AnswerEffects(answers: seq<Answer>, a: Answer)
    ensures Records(answers + [a])
            == if a.reply.Recorded? then Records(answers) + [a.reply.record] else Records(answers)
    ensures Swaps(answers + [a])
            == if a.request.op.Put? && a.reply.Value? then Swaps(answers) + [a.request.op] else Swaps(answers)
  {
    assert (answers + [a])[..|answers|] == answers;
  }

  lemma {:induction false} JoinEffects(a: seq<Answer>, b: seq<Answer>)
    ensures Records(a + b) == Records(a) + Records(b)
    ensures Swaps(a + b) == Swaps(a) + Swaps(b)
  {
    if b == [] {
      assert a + b == a;
    } else {
      assert (a + b)[..|a + b| - 1] == a + b[..|b| - 1];
      JoinEffects(a, b[..|b| - 1]);
    }
  }

  /** Every answer whose effect is in the database, oldest first. */
  function Committed(s: SpoolState): seq<Answer> {
    s.answered + Undelivered(s) + s.unacknowledged
  }

  predicate Increasing(table: seq<RawRecord>) {
    forall i, j | 0 <= i < j < |table| :: table[i].identity.offset < table[j].identity.offset
  }

  predicate Bounded(table: seq<RawRecord>, lastOffset: nat) {
    forall i | 0 <= i < |table| :: table[i].identity.offset <= lastOffset
  }

  /** The database holds what it held, and then exactly what has been committed since. */
  predicate Logged(start: seq<RawRecord>, s: SpoolState) {
    && s.table == start + Records(Committed(s))
    && Increasing(s.table) && Bounded(s.table, s.lastOffset)
    && (Working(s.writer) ==> s.unacknowledged == [])
    && |s.unacknowledged| <= 1
  }

  function After(recovery: map<string, Bytes>, puts: seq<Op>): map<string, Bytes> {
    if puts == [] then recovery
    else
      var last := puts[|puts| - 1];
      var m := After(recovery, puts[..|puts| - 1]);
      if last.Put? then m[last.key := last.value] else m
  }

  predicate SwapAt(recovery: map<string, Bytes>, puts: seq<Op>, i: nat)
    requires i < |puts|
  {
    puts[i].Put? && PutAllowed(After(recovery, puts[..i]), puts[i])
  }

  /** Each write names the value it replaces, and none exceeds the quota of keys. */
  ghost predicate SwapChain(recovery: map<string, Bytes>, puts: seq<Op>) {
    forall i | 0 <= i < |puts| :: SwapAt(recovery, puts, i)
  }

  ghost predicate Swapped(start: map<string, Bytes>, s: SpoolState) {
    s.recovery == After(start, Swaps(Committed(s))) && SwapChain(start, Swaps(Committed(s)))
  }

  lemma {:induction false} SwapNext(recovery: map<string, Bytes>, puts: seq<Op>, put: Op)
    requires SwapChain(recovery, puts) && put.Put? && PutAllowed(After(recovery, puts), put)
    ensures SwapChain(recovery, puts + [put])
    ensures After(recovery, puts + [put]) == After(recovery, puts)[put.key := put.value]
  {
    hide PutAllowed;
    var more := puts + [put];
    assert more[..|puts|] == puts;
    forall i | 0 <= i < |more| ensures SwapAt(recovery, more, i) {
      assert i < |puts| ==> SwapAt(recovery, puts, i) && more[..i] == puts[..i];
    }
  }

  /** What a step adds to the committed answers and does to the database. */
  datatype Effect = NoEffect | Wrote(record: RawRecord) | Swap(put: Op)

  predicate HasEffect(s: SpoolState, n: SpoolState, effect: Effect) {
    match effect
    case NoEffect =>
      && Records(Committed(n)) == Records(Committed(s)) && Swaps(Committed(n)) == Swaps(Committed(s))
      && n.table == s.table && n.recovery == s.recovery && n.lastOffset == s.lastOffset
    case Wrote(record) =>
      && Records(Committed(n)) == Records(Committed(s)) + [record] && Swaps(Committed(n)) == Swaps(Committed(s))
      && n.table == s.table + [record] && n.recovery == s.recovery
      && n.lastOffset == record.identity.offset == s.lastOffset + 1
    case Swap(put) =>
      && put.Put? && PutAllowed(s.recovery, put)
      && Records(Committed(n)) == Records(Committed(s)) && Swaps(Committed(n)) == Swaps(Committed(s)) + [put]
      && n.recovery == s.recovery[put.key := put.value] && n.table == s.table && n.lastOffset == s.lastOffset
  }

  function EffectOf(cfg: Config, s: SpoolState, step: Step): Effect {
    if step != Commit || !s.writer.Holding? then NoEffect
    else
      match s.writer.request.op
      case Accept(envelope) => Wrote(NewRecord(cfg, s, envelope))
      case Put(_, _, _) => Swap(s.writer.request.op)
      case _ => NoEffect
  }

  lemma {:induction false} FailureChangesNothing(a: seq<Answer>, b: seq<Answer>, r: Request)
    ensures Records(a + [Answer(r, Failure)] + b) == Records(a + b)
    ensures Swaps(a + [Answer(r, Failure)] + b) == Swaps(a + b)
  {
    AnswerEffects(a, Answer(r, Failure));
    JoinEffects(a + [Answer(r, Failure)], b);
    JoinEffects(a, b);
  }

  /** A transaction that does not succeed leaves the database as it was. */
  lemma {:induction false} AbortCommits(cfg: Config, s: SpoolState, step: Step)
    requires step in {RollBack, BreakDown} && Apply(cfg, s, step).Some? && s.unacknowledged == []
    ensures HasEffect(s, Apply(cfg, s, step).value, NoEffect)
  {
    hide Records, Swaps;
    var n := Apply(cfg, s, step).value;
    assert Committed(s) == s.answered && Committed(n) == s.answered + [n.writer.answer];
    AnswerEffects(s.answered, n.writer.answer);
  }

  /** The end of a transaction, the only step that writes. */
  lemma {:induction false} TransactionCommits(cfg: Config, s: SpoolState, step: Step)
    requires step in {Commit, RollBack, BreakDown} && Apply(cfg, s, step).Some? && s.unacknowledged == []
    ensures HasEffect(s, Apply(cfg, s, step).value, EffectOf(cfg, s, step))
  {
    hide Records, Swaps, ReadPage, PutAllowed, HasEffect;
    if step == Commit {
      CommitCommits(cfg, s);
    } else {
      AbortCommits(cfg, s, step);
    }
  }

  lemma {:induction false} CommitCommits(cfg: Config, s: SpoolState)
    requires Apply(cfg, s, Commit).Some? && s.unacknowledged == []
    ensures HasEffect(s, Apply(cfg, s, Commit).value, EffectOf(cfg, s, Commit))
  {
    hide Records, Swaps, ReadPage, PutAllowed;
    var n := Apply(cfg, s, Commit).value;
    assert Committed(s) == s.answered && Committed(n) == s.answered + [n.writer.answer];
    AnswerEffects(s.answered, n.writer.answer);
  }

  lemma {:induction false} AbandonCommits(cfg: Config, s: SpoolState)
    requires Apply(cfg, s, Abandon).Some?
    ensures HasEffect(s, Apply(cfg, s, Abandon).value, NoEffect)
  {
    hide Records, Swaps;
    var n := Apply(cfg, s, Abandon).value;
    assert Committed(s) == s.answered + s.unacknowledged && Committed(n) == n.answered + s.unacknowledged;
    if s.writer.active.Some? { FailureChangesNothing(s.answered, s.unacknowledged, s.writer.active.value); }
  }

  lemma {:induction false} DrainCommits(cfg: Config, s: SpoolState)
    requires Apply(cfg, s, Drain).Some?
    ensures HasEffect(s, Apply(cfg, s, Drain).value, NoEffect)
  {
    hide Records, Swaps;
    var n := Apply(cfg, s, Drain).value;
    assert Committed(s) == s.answered + s.unacknowledged && Committed(n) == n.answered + s.unacknowledged;
    if s.metadata != [] {
      FailureChangesNothing(s.answered, s.unacknowledged, s.metadata[0]);
    } else if s.intake != [] {
      FailureChangesNothing(s.answered, s.unacknowledged, s.intake[0]);
    }
  }

  /** Delivering or losing an answer only moves it along. */
  lemma {:induction false} HandOver(cfg: Config, s: SpoolState, step: Step)
    requires step in {Deliver, Crash} && Apply(cfg, s, step).Some? && s.unacknowledged == []
    ensures HasEffect(s, Apply(cfg, s, step).value, NoEffect)
  {
    hide Records, Swaps;
    var n := Apply(cfg, s, step).value;
    assert Committed(n) == Committed(s);
  }

  lemma {:induction false} OtherStepsCommit(cfg: Config, s: SpoolState, step: Step)
    requires step !in {Commit, RollBack, BreakDown} && Apply(cfg, s, step).Some?
    requires Working(s.writer) ==> s.unacknowledged == []
    ensures HasEffect(s, Apply(cfg, s, step).value, EffectOf(cfg, s, step))
  {
    hide Records, Swaps, Presentable, Admits;
    if step == Abandon {
      AbandonCommits(cfg, s);
    } else if step == Drain {
      DrainCommits(cfg, s);
    } else if step in {Deliver, Crash} {
      HandOver(cfg, s, step);
    } else {
      StillCommitted(cfg, s, step);
    }
  }

  lemma {:induction false} StillCommitted(cfg: Config, s: SpoolState, step: Step)
    requires step.Submit? || step in {Close, SignalClose, PollMetadata, PollIntake, Finish, SetFatal, SignalFatal}
    requires Apply(cfg, s, step).Some?
    ensures HasEffect(s, Apply(cfg, s, step).value, NoEffect)
  {
    hide Records, Swaps, Presentable, Admits;
    assert Committed(Apply(cfg, s, step).value) == Committed(s);
  }

  lemma {:induction false} StepLogged(
      cfg: Config, table: seq<RawRecord>, recovery: map<string, Bytes>, s: SpoolState, step: Step)
    requires Logged(table, s) && Swapped(recovery, s) && Apply(cfg, s, step).Some?
    ensures Logged(table, Apply(cfg, s, step).value) && Swapped(recovery, Apply(cfg, s, step).value)
  {
    hide Records, Swaps, Committed, PutAllowed, Apply, After, SwapChain;
    var n := Apply(cfg, s, step).value;
    if step in {Commit, RollBack, BreakDown} {
      WorkingNow(cfg, s, step);
      TransactionCommits(cfg, s, step);
    } else {
      OtherStepsCommit(cfg, s, step);
    }
    UnacknowledgedStep(cfg, s, step);
    if EffectOf(cfg, s, step).Swap? {
      SwapNext(recovery, Swaps(Committed(s)), EffectOf(cfg, s, step).put);
    }
  }

  lemma {:induction false} WorkingNow(cfg: Config, s: SpoolState, step: Step)
    requires step in {Commit, RollBack, BreakDown} && Apply(cfg, s, step).Some?
    ensures Working(s.writer)
  {
  }

  lemma {:induction false} UnacknowledgedStep(cfg: Config, s: SpoolState, step: Step)
    requires Apply(cfg, s, step).Some? && |s.unacknowledged| <= 1 && (Working(s.writer) ==> s.unacknowledged == [])
    ensures var n := Apply(cfg, s, step).value;
            |n.unacknowledged| <= 1 && (Working(n.writer) ==> n.unacknowledged == [])
  {
    hide ReadPage, PutAllowed, Presentable, Admits;
  }

  predicate OpenedWell(table: seq<RawRecord>, lastOffset: nat) {
    Increasing(table) && Bounded(table, lastOffset)
  }

  lemma {:induction false} RunLogged(
      cfg: Config, table: seq<RawRecord>, lastOffset: nat, recovery: map<string, Bytes>, steps: seq<Step>)
    requires OpenedWell(table, lastOffset) && Run(cfg, Start(table, lastOffset, recovery), steps).Some?
    ensures var s := Run(cfg, Start(table, lastOffset, recovery), steps).value;
            Logged(table, s) && Swapped(recovery, s)
  {
    hide Apply, Logged, Swapped;
    if steps == [] {
      StartLogged(table, lastOffset, recovery);
    } else {
      var n := |steps| - 1;
      RunLogged(cfg, table, lastOffset, recovery, steps[..n]);
      StepLogged(cfg, table, recovery, Run(cfg, Start(table, lastOffset, recovery), steps[..n]).value, steps[n]);
    }
  }

  lemma {:induction false} StartLogged(table: seq<RawRecord>, lastOffset: nat, recovery: map<string, Bytes>)
    requires OpenedWell(table, lastOffset)
    ensures Logged(table, Start(table, lastOffset, recovery)) && Swapped(recovery, Start(table, lastOffset, recovery))
  {
    var s := Start(table, lastOffset, recovery);
    assert Committed(s) == [];
  }

  /**
   * Main result: what was acknowledged is what the log has gained, in order, at strictly
   * increasing offsets; it can lack at most one last record, whose answer the writer's
   * failure kept back, or which is about to be answered.
   */
  lemma {:induction false} AcknowledgedIsLog(
      cfg: Config, table: seq<RawRecord>, lastOffset: nat, recovery: map<string, Bytes>, steps: seq<Step>)
      returns (rest: seq<RawRecord>)
    requires OpenedWell(table, lastOffset) && Run(cfg, Start(table, lastOffset, recovery), steps).Some?
    ensures var s := Run(cfg, Start(table, lastOffset, recovery), steps).value;
            && s.table == table + Records(s.answered) + rest && |rest| <= 1
            && Increasing(s.table)
            && (rest != [] ==> s.writer.Answering? || s.unacknowledged != [])
            && (s.writer.Idle? ==> rest == [])
  {
    hide Apply, Run, Records, Swapped, Increasing, Bounded;
    RunLogged(cfg, table, lastOffset, recovery, steps);
    var s := Run(cfg, Start(table, lastOffset, recovery), steps).value;
    rest := Pending(table, s);
  }

  /** What the log has beyond the acknowledged records, in any state that accounts for it. */
  lemma {:induction false} Pending(start: seq<RawRecord>, s: SpoolState) returns (rest: seq<RawRecord>)
    requires Logged(start, s)
    ensures s.table == start + Records(s.answered) + rest && |rest| <= 1
    ensures rest != [] ==> s.writer.Answering? || s.unacknowledged != []
    ensures s.writer.Idle? ==> rest == []
  {
    hide Records, Increasing, Bounded;
    var pending := Undelivered(s) + s.unacknowledged;
    assert Committed(s) == s.answered + pending;
    JoinEffects(s.answered, pending);
    rest := Records(pending);
    AtMostOne(pending);
    assert start + (Records(s.answered) + rest) == start + Records(s.answered) + rest;
  }

  lemma {:induction false} AtMostOne(pending: seq<Answer>)
    requires |pending| <= 1
    ensures |Records(pending)| <= |pending|
  {
    if pending != [] { assert pending[..0] == []; }
  }

  // ----- metadata

  /** The last value written for a key, or the one it started with. */
  function ValueAfter(recovery: map<string, Bytes>, puts: seq<Op>, key: string): Option<Bytes> {
    if puts == [] then Current(recovery, key)
    else
      var last := puts[|puts| - 1];
      if last.Put? && last.key == key then Some(last.value) else ValueAfter(recovery, puts[..|puts| - 1], key)
  }

  lemma {:induction false} AfterIsLast(recovery: map<string, Bytes>, puts: seq<Op>, key: string)
    ensures Current(After(recovery, puts), key) == ValueAfter(recovery, puts, key)
  {
    if puts != [] { AfterIsLast(recovery, puts[..|puts| - 1], key); }
  }

  lemma {:induction false} QuotaKept(recovery: map<string, Bytes>, puts: seq<Op>)
    requires |recovery| <= METADATA_STREAMS && SwapChain(recovery, puts)
    ensures |After(recovery, puts)| <= METADATA_STREAMS
  {
    if puts != [] {
      var n := |puts| - 1;
      assert SwapAt(recovery, puts, n);
      forall i | 0 <= i < n ensures SwapAt(recovery, puts[..n], i) {
        assert SwapAt(recovery, puts, i) && puts[..n][..i] == puts[..i];
      }
      QuotaKept(recovery, puts[..n]);
      var m := After(recovery, puts[..n]);
      if puts[n].key in m { assert m[puts[n].key := puts[n].value].Keys == m.Keys; }
      else { assert m[puts[n].key := puts[n].value].Keys == m.Keys + {puts[n].key}; }
    }
  }

  /**
   * Main result: the successful writes of each key form a compare-and-swap chain, each naming
   * the value its predecessor left, over no more keys than the quota.
   */
  lemma {:induction false} MetadataChain(
      cfg: Config, table: seq<RawRecord>, lastOffset: nat, recovery: map<string, Bytes>, steps: seq<Step>, i: nat)
    requires OpenedWell(table, lastOffset) && Run(cfg, Start(table, lastOffset, recovery), steps).Some?
    requires |recovery| <= METADATA_STREAMS
    ensures var s := Run(cfg, Start(table, lastOffset, recovery), steps).value;
            var puts := Swaps(Committed(s));
            && |s.recovery| <= METADATA_STREAMS
            && Swaps(s.answered) <= puts
            && (i < |puts| ==> puts[i].Put? && puts[i].expected == ValueAfter(recovery, puts[..i], puts[i].key))
  {
    hide Apply, Run, Swaps, Logged, After;
    RunLogged(cfg, table, lastOffset, recovery, steps);
    var s := Run(cfg, Start(table, lastOffset, recovery), steps).value;
    var puts := Swaps(Committed(s));
    assert Committed(s) == s.answered + (Undelivered(s) + s.unacknowledged);
    JoinEffects(s.answered, Undelivered(s) + s.unacknowledged);
    QuotaKept(recovery, puts);
    if i < |puts| {
      assert SwapAt(recovery, puts, i);
      AfterIsLast(recovery, puts[..i], puts[i].key);
    }
  }

  // ----- paging

  function RowsPast(table: seq<RawRecord>, offset: int): seq<RawRecord> {
    if table == [] then []
    else if table[0].identity.offset > offset then [table[0]] + RowsPast(table[1..], offset)
    else RowsPast(table[1..], offset)
  }

  lemma {:induction false} PageIsPrefix(table: seq<RawRecord>, offset: int, limit: nat)
    ensures RowsAfter(table, offset, limit) == RowsPast(table, offset)[..Smaller(limit, |RowsPast(table, offset)|)]
  {
    if limit != 0 && table != [] {
      PageIsPrefix(table[1..], offset, if table[0].identity.offset > offset then limit - 1 else limit);
    }
  }

  function Smaller(a: nat, b: nat): nat { if a < b then a else b }

  lemma {:induction false} PastTail(table: seq<RawRecord>, offset: int)
    requires Increasing(table)
    ensures exists k | 0 <= k <= |table| :: RowsPast(table, offset) == table[k..]
  {
    if table == [] {
      assert RowsPast(table, offset) == table[0..];
    } else if table[0].identity.offset > offset {
      AllPast(table, offset);
      assert RowsPast(table, offset) == table[0..];
    } else {
      PastTail(table[1..], offset);
      var k :| 0 <= k <= |table[1..]| && RowsPast(table[1..], offset) == table[1..][k..];
      assert table[1..][k..] == table[k + 1..];
    }
  }

  lemma {:induction false} AllPast(table: seq<RawRecord>, offset: int)
    requires forall i | 0 <= i < |table| :: table[i].identity.offset > offset
    ensures RowsPast(table, offset) == table
  {
    if table != [] { AllPast(table[1..], offset); }
  }

  lemma {:induction false} PastAgain(table: seq<RawRecord>, offset: int, more: int)
    requires offset <= more
    ensures RowsPast(RowsPast(table, offset), more) == RowsPast(table, more)
  {
    if table != [] { PastAgain(table[1..], offset, more); }
  }

  lemma {:induction false} SkipPrefix(rows: seq<RawRecord>, n: nat)
    requires Increasing(rows) && 0 < n <= |rows|
    ensures RowsPast(rows, rows[n - 1].identity.offset) == rows[n..]
  {
    if n == 1 {
      AllPast(rows[1..], rows[0].identity.offset);
    } else {
      assert rows[1..][n - 2] == rows[n - 1];
      SkipPrefix(rows[1..], n - 1);
      assert rows[1..][n - 1..] == rows[n..];
    }
  }

  /**
   * Main result: paging reproduces the log. A page and what lies past its last offset are
   * together what lay past the given one; only an empty page ends it.
   */
  lemma {:induction false} PagesTile(table: seq<RawRecord>, offset: int, limit: nat)
    requires Increasing(table) && limit >= 1
    ensures var page := RowsAfter(table, offset, limit);
            if page == [] then RowsPast(table, offset) == []
            else
              && offset < page[|page| - 1].identity.offset
              && RowsPast(table, offset) == page + RowsPast(table, page[|page| - 1].identity.offset)
  {
    hide RowsAfter, RowsPast;
    var all := RowsPast(table, offset);
    PageIsPrefix(table, offset, limit);
    PastTail(table, offset);
    PastAbove(table, offset);
    if all != [] {
      var n := Smaller(limit, |all|);
      SkipPrefix(all, n);
      PastAgain(table, offset, all[n - 1].identity.offset);
    }
  }

  lemma {:induction false} PastAbove(table: seq<RawRecord>, offset: int)
    ensures forall r | r in RowsPast(table, offset) :: r.identity.offset > offset
  {
    if table != [] { PastAbove(table[1..], offset); }
  }

  // ----- paging over a log that grows

  function GoesOnFrom(page: seq<RawRecord>, before: int): int {
    if page == [] then before else page[|page| - 1].identity.offset
  }

  /** The offset a reader goes on from after a number of pages. */
  function Reached(pages: seq<seq<RawRecord>>, offset: int): int {
    if pages == [] then offset else GoesOnFrom(pages[|pages| - 1], Reached(pages[..|pages| - 1], offset))
  }

  function Joined(pages: seq<seq<RawRecord>>): seq<RawRecord> {
    if pages == [] then [] else Joined(pages[..|pages| - 1]) + pages[|pages| - 1]
  }

  predicate PageAt(
      tables: seq<seq<RawRecord>>, offset: int, limits: seq<nat>, pages: seq<seq<RawRecord>>, i: nat)
    requires i < |tables| == |limits| == |pages|
  {
    limits[i] >= 1 && pages[i] == RowsAfter(tables[i], Reached(pages[..i], offset), limits[i])
  }

  /** Each page is read where the one before it ended, from the log as it then is. */
  ghost predicate Paging(
      tables: seq<seq<RawRecord>>, offset: int, limits: seq<nat>, pages: seq<seq<RawRecord>>)
  {
    && |tables| == |limits| == |pages|
    && (forall i | 0 <= i < |tables| :: Increasing(tables[i]) && PageAt(tables, offset, limits, pages, i))
    && (forall i, j | 0 <= i && j == i + 1 < |tables| :: tables[i] <= tables[j])
  }

  lemma {:induction false} PastBoth(a: seq<RawRecord>, b: seq<RawRecord>, offset: int)
    ensures RowsPast(a + b, offset) == RowsPast(a, offset) + RowsPast(b, offset)
  {
    if a == [] {
      assert a + b == b;
    } else {
      assert (a + b)[1..] == a[1..] + b;
      PastBoth(a[1..], b, offset);
    }
  }

  /** Rows added later lie past every offset a reader can have reached. */
  lemma {:induction false} GrowthLiesPast(was: seq<RawRecord>, now: seq<RawRecord>, offset: int, reached: int)
    requires was <= now && Increasing(now)
    requires StandsAt(was, offset, reached)
    ensures StandsAt(now, offset, reached)
    ensures RowsPast(now, offset) == RowsPast(was, offset) + RowsPast(now[|was|..], offset)
    ensures RowsPast(now, reached) == RowsPast(was, reached) + RowsPast(now[|was|..], offset)
  {
    var more := now[|was|..];
    assert now == was + more;
    PastBoth(was, more, offset);
    PastBoth(was, more, reached);
    if reached != offset {
      var r :| r in was && offset < r.identity.offset == reached;
      var k :| 0 <= k < |was| && was[k] == r;
      assert now[k] == r;
      AllPast(more, offset);
      AllPast(more, reached);
    }
  }

  /** A reader stands at the first offset or at that of some row beyond it. */
  ghost predicate StandsAt(table: seq<RawRecord>, offset: int, reached: int) {
    reached == offset || exists r | r in table :: offset < r.identity.offset == reached
  }

  lemma {:induction false} OnePage(
      table: seq<RawRecord>, offset: int, before: int, limit: nat, sofar: seq<RawRecord>, page: seq<RawRecord>)
    requires Increasing(table) && limit >= 1 && page == RowsAfter(table, before, limit) && offset <= before
    requires RowsPast(table, offset) == sofar + RowsPast(table, before) && StandsAt(table, offset, before)
    ensures RowsPast(table, offset) == sofar + page + RowsPast(table, GoesOnFrom(page, before))
    ensures StandsAt(table, offset, GoesOnFrom(page, before)) && offset <= GoesOnFrom(page, before)
  {
    hide RowsPast, RowsAfter, Increasing;
    PagesTile(table, before, limit);
    PageRows(table, before, limit);
    if page != [] {
      assert page[|page| - 1] in table;
      var rest := RowsPast(table, GoesOnFrom(page, before));
      assert sofar + (page + rest) == sofar + page + rest;
    }
  }

  lemma {:induction false} NextPage(pages: seq<seq<RawRecord>>, offset: int, i: nat)
    requires i < |pages|
    ensures Joined(pages[..i + 1]) == Joined(pages[..i]) + pages[i]
    ensures Reached(pages[..i + 1], offset) == GoesOnFrom(pages[i], Reached(pages[..i], offset))
  {
    assert pages[..i + 1][..i] == pages[..i];
  }

  /** The pages so far and what lies past them are together all that lies past the first offset. */
  lemma {:induction false} PagesSoFar(
      tables: seq<seq<RawRecord>>, offset: int, limits: seq<nat>, pages: seq<seq<RawRecord>>, i: nat)
    requires Paging(tables, offset, limits, pages) && i < |pages|
    ensures var reached := Reached(pages[..i + 1], offset);
            && RowsPast(tables[i], offset) == Joined(pages[..i + 1]) + RowsPast(tables[i], reached)
            && StandsAt(tables[i], offset, reached) && offset <= reached
  {
    hide RowsPast, RowsAfter, Increasing, Joined, Reached, GoesOnFrom;
    var before := Reached(pages[..i], offset);
    assert PageAt(tables, offset, limits, pages, i);
    NextPage(pages, offset, i);
    if i > 0 {
      PagesSoFar(tables, offset, limits, pages, i - 1);
      GrowthLiesPast(tables[i - 1], tables[i], offset, before);
    } else {
      NoPages(offset);
      assert pages[..0] == [];
    }
    OnePage(tables[i], offset, before, limits[i], Joined(pages[..i]), pages[i]);
  }

  lemma {:induction false} NoPages(offset: int)
    ensures Joined([]) == [] && Reached([], offset) == offset
  {
  }

  lemma {:induction false} PageRows(table: seq<RawRecord>, offset: int, limit: nat)
    ensures forall r | r in RowsAfter(table, offset, limit) :: r in table
  {
    if limit != 0 && table != [] {
      PageRows(table[1..], offset, if table[0].identity.offset > offset then limit - 1 else limit);
    }
  }

  /**
   * Main result: pages read one after the other until an empty one, while the log grows,
   * are together exactly what the log then holds past the first offset, in order.
   */
  lemma {:induction false} PagesReproduceLog(
      tables: seq<seq<RawRecord>>, offset: int, limits: seq<nat>, pages: seq<seq<RawRecord>>)
    requires Paging(tables, offset, limits, pages) && pages != [] && pages[|pages| - 1] == []
    ensures Joined(pages) == RowsPast(tables[|tables| - 1], offset)
  {
    hide RowsPast, RowsAfter, Increasing, Joined, Reached;
    var i := |pages| - 1;
    assert pages[..i + 1] == pages && PageAt(tables, offset, limits, pages, i);
    PagesSoFar(tables, offset, limits, pages, i);
    NextPage(pages, offset, i);
    PagesTile(tables[i], Reached(pages[..i], offset), limits[i]);
  }

  /** A read fails exactly when some row of its page is over the present payload limit. */
  lemma {:induction false} ReadFailsExactly(maxPayload: nat, table: seq<RawRecord>, offset: int, limit: nat)
    ensures ReadPage(maxPayload, table, offset, limit).None?
            <==> exists i | 0 <= i < Smaller(limit, |RowsPast(table, offset)|) ::
                   |RowsPast(table, offset)[i].envelope.payload| > maxPayload
  {
    PageIsPrefix(table, offset, limit);
    var rows, all := RowsAfter(table, offset, limit), RowsPast(table, offset);
    assert forall i | 0 <= i < |rows| :: rows[i] == all[i] && rows[i] in rows;
  }
}
