/**
 * The durable ingestor itself. Each method is one step of the protocol, taken by a caller or
 * by the writer thread; any interleaving of the two is a sequence of these calls.
 */
module SpoolWriter {
  import opened Wrappers
  import opened Canonical
  import opened Domain
  import opened RawRecords
  import opened Spool

  class DurableIngestor {
    const config: Config
    var metadata: seq<Request>
    var intake: seq<Request>
    var closing: bool
    var shutdown: bool
    var fatal: bool
    var writer: Writer
    var table: seq<RawRecord>
    var lastOffset: nat
    var recovery: map<string, Bytes>
    ghost var admitted: seq<Request>
    ghost var answered: seq<Answer>
    ghost var unacknowledged: seq<Answer>

    ghost function State(): SpoolState
      reads this
    {
      SpoolState(
        metadata, intake, closing, shutdown, fatal, writer, table, lastOffset, recovery, admitted, answered,
        unacknowledged)
    }

    constructor (config: Config, table: seq<RawRecord>, lastOffset: nat, recovery: map<string, Bytes>)
      ensures this.config == config && State() == Start(table, lastOffset, recovery)
    {
      this.config := config;
      metadata, intake, closing, shutdown, fatal, writer := [], [], false, false, false, Idle;
      this.table, this.lastOffset, this.recovery := table, lastOffset, recovery;
      admitted, answered, unacknowledged := [], [], [];
    }

    /** Put a request on its lane, unless the spool is failing, closing or full. */
    method Submit(request: Request) returns (ok: bool)
      requires Presentable(config, request.op)
      modifies this`metadata, this`intake, this`admitted
      ensures ok == Apply(config, old(State()), Step.Submit(request)).Some?
      ensures State() == if ok then Apply(config, old(State()), Step.Submit(request)).value else old(State())
    {
      if fatal || closing { return false; }
      if request.Lane() == Metadata {
        if |metadata| >= METADATA_CAPACITY { return false; }
        metadata := metadata + [request];
      } else {
        if |intake| >= config.capacity { return false; }
        intake := intake + [request];
      }
      admitted := admitted + [request];
      ok := true;
    }

    method Close()
      modifies this`closing
      ensures Apply(config, old(State()), Step.Close) == Some(State())
    {
      closing := true;
    }

    method SignalClose()
      requires closing
      modifies this`shutdown
      ensures Apply(config, old(State()), Step.SignalClose) == Some(State())
    {
      shutdown := true;
    }

    /** The writer's next move between requests: leave, or look at the metadata lane first. */
    method NextRequest()
      requires writer.Idle?
      modifies this`writer, this`metadata
      ensures Apply(config, old(State()),
                    if shutdown && intake == [] && old(metadata) == [] then Finish else PollMetadata) == Some(State())
    {
      if shutdown && intake == [] && metadata == [] {
        writer := Exited;
      } else if metadata == [] {
        writer := Polled;
      } else {
        writer := Holding(metadata[0]);
        metadata := metadata[1..];
      }
    }

    method NextIntake()
      requires writer.Polled?
      modifies this`writer, this`intake
      ensures Apply(config, old(State()), PollIntake) == Some(State())
    {
      if intake == [] {
        writer := Idle;
      } else {
        writer := Holding(intake[0]);
        intake := intake[1..];
      }
    }

    /** Insert, read back, commit: the new record at the next offset, or nothing at all. */
    method Insert(envelope: Envelope) returns (record: RawRecord)
      modifies this`table, this`lastOffset
      ensures record == NewRecord(config, old(State()), envelope)
      ensures table == old(table) + [record] && lastOffset == record.identity.offset
    {
      record := RawRecord(IngestionId(config.producer, config.epoch, lastOffset + 1), envelope);
      table := table + [record];
      lastOffset := lastOffset + 1;
    }

    /** Compare, check the quota, and swap; refused changes nothing. */
    method WriteRecovery(key: string, value: Bytes, expected: Option<Bytes>) returns (ok: bool)
      modifies this`recovery
      ensures ok == PutAllowed(old(recovery), Put(key, value, expected))
      ensures recovery == if ok then old(recovery)[key := value] else old(recovery)
    {
      var prior := if key in recovery then Some(recovery[key]) else None;
      if prior != expected { return false; }
      if prior.None? && |recovery| >= METADATA_STREAMS { return false; }
      recovery := recovery[key := value];
      ok := true;
    }

    /** The first rows past an offset, each decoded under the present limit. */
    method ReadRows(offset: int, limit: nat) returns (page: Option<seq<RawRecord>>)
      ensures page == ReadPage(config.maxPayload, table, offset, limit)
    {
      var rows: seq<RawRecord>, i := [], 0;
      while i < |table| && |rows| < limit
        invariant 0 <= i <= |table| && |rows| <= limit
        invariant RowsAfter(table, offset, limit) == rows + RowsAfter(table[i..], offset, limit - |rows|)
      {
        if table[i].identity.offset > offset { rows := rows + [table[i]]; }
        i := i + 1;
      }
      assert RowsAfter(table, offset, limit) == rows + [] == rows;
      var j := 0;
      while j < |rows|
        invariant 0 <= j <= |rows| && forall k | 0 <= k < j :: Decodes(config.maxPayload, rows[k])
      {
        if |rows[j].envelope.payload| > config.maxPayload {
          assert rows[j] in rows && !Decodes(config.maxPayload, rows[j]);
          return None;
        }
        j := j + 1;
      }
      page := Some(rows);
    }

    /** Which step ends the transaction of the request in hand. */
    ghost function Outcome(works: bool, recovers: bool): Step
      requires writer.Holding?
      reads this
    {
      if works && Executed(config, State(), writer.request).Some? then Commit
      else if recovers || !Transacts(writer.request.op) then RollBack
      else BreakDown
    }

    /**
     * Carry out the request in hand. `works` says whether the database itself succeeds, and
     * `recovers` whether a failed transaction can be rolled back.
     */
    method Dispatch(works: bool, recovers: bool)
      requires writer.Holding?
      modifies this`writer, this`table, this`lastOffset, this`recovery
      ensures Apply(config, old(State()), old(Outcome(works, recovers))) == Some(State())
    {
      hide ReadPage, PutAllowed;
      var request := writer.request;
      var reply := Failure;
      if works {
        match request.op {
          case Status => reply := Report;
          case Accept(envelope) =>
            var record := Insert(envelope);
            reply := Recorded(record);
          case Read(offset, limit) =>
            var page := ReadRows(offset, limit);
            if page.Some? { reply := Page(page.value); }
          case Recall(key) => reply := Value(if key in recovery then Some(recovery[key]) else None);
          case Put(key, value, expected) =>
            var ok := WriteRecovery(key, value, expected);
            if ok { reply := Value(expected); }
        }
      }
      writer := Answering(Answer(request, reply), reply == Failure && Transacts(request.op) && !recovers);
    }

    /** Hand the result to the waiting caller. */
    method Deliver()
      requires writer.Answering?
      modifies this`writer, this`answered
      ensures Apply(config, old(State()), Step.Deliver) == Some(State())
    {
      answered := answered + [writer.answer];
      writer := if writer.broken then Failing(None) else Idle;
    }

    /** Any other exception in the writer thread. */
    method Crash()
      requires Working(writer)
      modifies this`writer, this`unacknowledged
      ensures Apply(config, old(State()), Step.Crash) == Some(State())
    {
      unacknowledged := unacknowledged + Undelivered(State());
      var held := InHand(writer);
      writer := Failing(if held == [] then None else Some(held[0]));
    }

    /** The failure becomes visible to callers. */
    method SetFatal()
      requires writer.Failing?
      modifies this`fatal, this`writer
      ensures Apply(config, old(State()), Step.SetFatal) == Some(State())
      ensures fatal && writer.Signalling?
    {
      fatal := true;
      writer := Signalling(writer.active);
    }

    method SignalFatal()
      requires writer.Signalling?
      modifies this`shutdown, this`writer
      ensures Apply(config, old(State()), Step.SignalFatal) == Some(State())
      ensures shutdown && writer.Abandoning?
    {
      shutdown := true;
      writer := Abandoning(writer.active);
    }

    /** Fail the request in hand, if there is one. */
    method Abandon()
      requires writer.Abandoning?
      modifies this`answered, this`writer
      ensures Apply(config, old(State()), Step.Abandon) == Some(State())
      ensures writer.Draining?
    {
      if writer.active.Some? { answered := answered + [Answer(writer.active.value, Failure)]; }
      writer := Draining;
    }

    /** Fail one waiting request, metadata first; with none left the writer is gone. */
    method Drain()
      requires writer.Draining?
      modifies this`metadata, this`intake, this`answered, this`writer
      ensures Apply(config, old(State()), Step.Drain) == Some(State())
      ensures if old(metadata) != [] || old(intake) != []
              then writer.Draining? && |metadata| + |intake| < |old(metadata)| + |old(intake)|
              else writer.Exited? && metadata == [] && intake == []
    {
      if metadata != [] {
        answered := answered + [Answer(metadata[0], Failure)];
        metadata := metadata[1..];
      } else if intake != [] {
        answered := answered + [Answer(intake[0], Failure)];
        intake := intake[1..];
      } else {
        writer := Exited;
      }
    }

    /** Undisturbed, the writer's failure fails what is in hand and everything still waiting. */
    method FailWriter()
      requires writer.Failing?
      modifies this
      ensures fatal && shutdown && writer.Exited? && metadata == [] && intake == []
      ensures table == old(table) && recovery == old(recovery) && admitted == old(admitted)
      ensures exists steps :: Run(config, old(State()), steps) == Some(State())
    {
      hide Run, Apply;
      ghost var start, steps := State(), [];
      RunNothing(config, start);
      RunNext(config, start, steps, Step.SetFatal);
      SetFatal();
      steps := steps + [Step.SetFatal];
      RunNext(config, start, steps, Step.SignalFatal);
      SignalFatal();
      steps := steps + [Step.SignalFatal];
      RunNext(config, start, steps, Step.Abandon);
      Abandon();
      steps := steps + [Step.Abandon];
      while metadata != [] || intake != []
        invariant fatal && shutdown && writer.Draining?
        invariant table == old(table) && recovery == old(recovery) && admitted == old(admitted)
        invariant Run(config, start, steps) == Some(State())
        decreases |metadata| + |intake|
      {
        RunNext(config, start, steps, Step.Drain);
        Drain();
        steps := steps + [Step.Drain];
      }
      RunNext(config, start, steps, Step.Drain);
      Drain();
    }
  }

  lemma {:induction false} RunNothing(cfg: Config, start: SpoolState)
    ensures Run(cfg, start, []) == Some(start)
  {
  }

  lemma {:induction false} RunNext(cfg: Config, start: SpoolState, steps: seq<Step>, step: Step)
    requires Run(cfg, start, steps).Some?
    ensures Run(cfg, start, steps + [step]) == Apply(cfg, Run(cfg, start, steps).value, step)
  {
    hide Apply;
    assert (steps + [step])[..|steps|] == steps;
  }
}
