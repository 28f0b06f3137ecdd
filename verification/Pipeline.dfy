/**
 The pipeline as the program writes it: `process_video` of app/services/pipeline.py with its steps, its
 checkpoints, its completion tail and its `except` clauses, over the record of a task.

 `PipelineThread.ProcessVideo` is one run that no handler interferes with. It is proved to be a run of the
 thread steps of `Lifecycle`, one by one, its outcome is what the oracles make it, and every run of the
 server in `Pipelines` that has the task where it starts can go on to where it ends.
 */
module Pipeline {
  import opened PyText
  import opened Lifecycle
  import opened Controls
  import Drives
  import Pipelines
  import Statuses

  /** How the work of a step ends. */
  datatype Work = Done | Fails

  /** The outcomes of the oracles: of every step's work, of the two optional steps, of the model's segments. */
  datatype Oracle = Oracle(work: Phase -> Work, skips: Phase -> bool, segments: nat, breaksOff: bool)

  /** The final status of a run that nobody interferes with. */
  function ShownFor(verdict: Option<Abort>): Status {
    if verdict == None then Status.Done else if verdict == Some(Abort.Cancel) then Cancelled else Error
  }

  /** What such a run adds to the record: a completion if it got that far, and the outcome of its clause. */
  function Outcome(log: Log, completed: bool, verdict: Option<Abort>): Log {
    log.(completed := log.completed + Bit(completed),
         tailRaised := log.tailRaised || (completed && verdict != None),
         cancelled := log.cancelled + Bit(verdict == Some(Abort.Cancel)),
         failed := log.failed + Bit(verdict != None && verdict != Some(Abort.Cancel)))
  }

  /** The thread steps with these choices, when nothing comes between them. */
  function Steps(critical: bool, t: Task, choices: seq<Choice>): Task {
    if choices == [] then t else Thread(critical, Steps(critical, t, choices[..|choices| - 1]), choices[|choices| - 1])
  }

  lemma OneStep(critical: bool, t: Task, choice: Choice)
    ensures Steps(critical, t, [choice]) == Thread(critical, t, choice)
  {
    assert [choice][..0] == [];
  }

  lemma {:induction false} MoreSteps(critical: bool, t: Task, a: seq<Choice>, b: seq<Choice>)
    ensures Steps(critical, t, a + b) == Steps(critical, Steps(critical, t, a), b)
  {
    if b == [] {
      assert a + b == a;
    } else {
      var init := b[..|b| - 1];
      MoreSteps(critical, t, a, init);
      assert (a + b)[..|a + b| - 1] == a + init;
    }
  }

  /** Wherever a run of the server with any other pipelines has this task, it can go on so that this task
      becomes `u` and nothing else changes. */
  ghost predicate RunsCanGoOn(critical: bool, t: Task, u: Task) {
    forall past: seq<Pipelines.Action>, i: nat
      | i < |Pipelines.Run(past).tasks| && Pipelines.Run(past).critical == critical
        && Pipelines.Run(past).tasks[i] == t ::
      exists future :: Pipelines.Run(past + future) == Drives.With(Pipelines.Run(past), i, u)
  }

  lemma {:induction false} StepsAreTurns(critical: bool, t: Task, choices: seq<Choice>)
    returns (turns: seq<Drives.Turn>)
    ensures Drives.Turns(critical, t, turns) == Steps(critical, t, choices)
  {
    if choices == [] {
      turns := [];
    } else {
      var init, last := choices[..|choices| - 1], choices[|choices| - 1];
      var before := StepsAreTurns(critical, t, init);
      Drives.TurnsMore(critical, t, before, [Drives.OwnStep(last)]);
      Drives.FirstTurn(critical, Steps(critical, t, init), Drives.OwnStep(last), []);
      assert [Drives.OwnStep(last)] + [] == [Drives.OwnStep(last)];
      turns := before + [Drives.OwnStep(last)];
    }
  }

  /** Steps of the thread are steps of the server. */
  lemma StepsAreRuns(critical: bool, t: Task, choices: seq<Choice>)
    ensures RunsCanGoOn(critical, t, Steps(critical, t, choices))
  {
    var turns := StepsAreTurns(critical, t, choices);
    forall past: seq<Pipelines.Action>, i: nat
      | i < |Pipelines.Run(past).tasks| && Pipelines.Run(past).critical == critical && Pipelines.Run(past).tasks[i] == t
      ensures exists future ::
                Pipelines.Run(past + future) == Drives.With(Pipelines.Run(past), i, Steps(critical, t, choices))
    {
      Drives.Driven(Pipelines.Run(past), i, turns);
      var _ := Drives.RunCanReach(past, Drives.With(Pipelines.Run(past), i, Steps(critical, t, choices)));
    }
  }

  /** Inside the `try`, at a place from which the steps go on undisturbed. */
  predicate Undisturbed(t: Task) {
    t.pending.None? && t.event == Some(true) && t.thread && t.handler.Idle?
  }

  predicate RaisedAs(t: Task) {
    t.pc.Handling? && t.pc.stage.Mark?
  }

  /** The parts of a task that the steps before its end leave alone. */
  predicate SameBut(t: Task, u: Task) {
    u == t.(pc := u.pc, status := u.status, segments := u.segments)
  }

  /** `process_video` on a task, with the critical state as it is throughout the run. */
  class PipelineThread {
    const record: TaskRecord
    const critical: bool

    constructor (record: TaskRecord, critical: bool)
      ensures this.record == record && this.critical == critical
    {
      this.record, this.critical := record, critical;
    }

    ghost predicate At(pc: Pc)
      reads record
    {
      record.pc == pc && Undisturbed(record.View())
    }

    /** One of the `_step_*` functions, up to the work that an oracle does. */
    method RunStep(p: Phase, skip: bool, work: Work) returns (ok: bool, ghost steps: seq<Choice>)
      requires At(Enter(p)) && !p.Transcribe?
      modifies record
      ensures record.View() == Steps(critical, old(record.View()), steps) && SameBut(old(record.View()), record.View())
      ensures ok <==> (Optional(p) && skip) || work.Done?
      ensures if ok then At(After(p)) else record.pc == Handling(Failure, Mark)
      ensures record.View().segments == old(record.View().segments)
      ensures if Optional(p) && skip then record.status == old(record.status)
              else Statuses.ShownBefore(p, old(record.status)) ==> Statuses.ShownDuring(p, record.status)
    {
      hide Thread, Steps, Direct, Announced, After;
      ghost var t := record.View();
      if Optional(p) && skip {
        record.pc := After(p);
        SkipStep(critical, t, p);
        return true, [Skip];
      }
      ok, steps := DoStep(p, work);
    }

    /** A step that is not skipped: it writes and announces its status and does its work. */
    method DoStep(p: Phase, work: Work) returns (ok: bool, ghost steps: seq<Choice>)
      requires At(Enter(p)) && !p.Transcribe?
      modifies record
      ensures record.View() == Steps(critical, old(record.View()), steps) && SameBut(old(record.View()), record.View())
      ensures ok <==> work.Done?
      ensures if ok then At(After(p)) else record.pc == Handling(Failure, Mark)
      ensures record.View().segments == old(record.View().segments)
      ensures Statuses.ShownBefore(p, old(record.status)) ==> Statuses.ShownDuring(p, record.status)
    {
      hide Thread, Steps, Direct, Announced, After, Statuses.ShownBefore, Statuses.ShownDuring;
      ghost var t := record.View();
      if Statuses.ShownBefore(p, record.status) {
        Statuses.StepShows(p, record.status);
      }
      record.status := Direct(p, record.status);
      record.pc := Announce(p);
      record.status := Announced(p, record.status);
      record.pc := Pc.Work(p);
      ok := work.Done?;
      StepEnds(critical, t, p);
      if ok {
        record.pc := After(p);
        steps := [Proceed, Proceed, Proceed];
      } else {
        record.pc := Handling(Failure, Mark);
        steps := [Proceed, Proceed, Fail];
      }
    }

    /** The cancel check and the critical check between two steps. */
    method CheckPoint(next: Phase) returns (ok: bool, ghost steps: seq<Choice>)
      requires At(CheckCancel(next))
      modifies record
      ensures record.View() == Steps(critical, old(record.View()), steps) && SameBut(old(record.View()), record.View())
      ensures ok <==> !record.cancelRequested && !critical
      ensures if ok then At(Enter(next))
              else record.pc == Handling(if record.cancelRequested then Abort.Cancel else Critical, Mark)
      ensures record.View().segments == old(record.View().segments)
    {
      ghost var t := record.View();
      OneStep(critical, t, Proceed);
      if record.cancelRequested {
        record.pc := Handling(Abort.Cancel, Mark);
        return false, [Proceed];
      }
      steps := [Proceed, Proceed];
      MoreSteps(critical, t, [Proceed], [Proceed]);
      assert [Proceed] + [Proceed] == [Proceed, Proceed];
      OneStep(critical, t.(pc := CheckCritical(next)), Proceed);
      if critical {
        record.pc := Handling(Critical, Mark);
        return false, steps;
      }
      record.pc := Enter(next);
      ok := true;
    }

    /** Steps that lead from one state of the task to another. */
    ghost predicate Runs(t: Task, steps: seq<Choice>, u: Task) {
      u == Steps(critical, t, steps) && SameBut(t, u)
    }

    lemma RunsOn(t: Task, a: seq<Choice>, u: Task, b: seq<Choice>, v: Task)
      requires Runs(t, a, u) && Runs(u, b, v)
      ensures Runs(t, a + b, v)
    {
      MoreSteps(critical, t, a, b);
    }

    /** `_step_transcribe`: the loop over the model's segments, each checked and appended. A critical state
        or a cancel request stops it at the first segment; without segments neither is looked at. */
    method Transcribe(segments: nat, breaksOff: bool) returns (ok: bool, ghost steps: seq<Choice>)
      requires At(Enter(Phase.Transcribe))
      modifies record
      ensures Runs(old(record.View()), steps, record.View())
      ensures ok == (!breaksOff && !Stopped(segments))
      ensures if ok then At(Enter(Diarize))
              else record.pc == Handling(if !Stopped(segments) then Failure
                                         else if critical then Critical else Abort.Cancel, Mark)
      ensures record.segments == old(record.segments) + if Stopped(segments) then 0 else segments
    {
      ghost var t := record.View();
      ghost var more: seq<Choice>;
      record.status := Transcribing;
      record.pc := NextSegment;
      EntersLoop(critical, t);
      steps := [Proceed, Proceed];
      ghost var u := record.View();
      if segments > 0 && (critical || record.cancelRequested) {
        more := Stop();
        ok := false;
      } else {
        ok, more := Loop(segments, breaksOff);
      }
      RunsOn(t, steps, u, more, record.View());
      steps := steps + more;
    }

    predicate Stopped(segments: nat)
      reads record
    {
      segments > 0 && (critical || record.cancelRequested)
    }

    /** A check of the first segment raises. */
    method Stop() returns (ghost steps: seq<Choice>)
      requires At(NextSegment) && (critical || record.cancelRequested)
      modifies record
      ensures Runs(old(record.View()), steps, record.View()) && record.cancelRequested == old(record.cancelRequested)
      ensures record.pc == Handling(if critical then Critical else Abort.Cancel, Mark)
      ensures record.segments == old(record.segments)
    {
      StopSteps(critical, record.View());
      record.pc := Handling(if critical then Critical else Abort.Cancel, Mark);
      steps := if critical then [Proceed, Proceed] else [Proceed, Proceed, Proceed];
    }

    method Loop(segments: nat, breaksOff: bool) returns (ok: bool, ghost steps: seq<Choice>)
      requires At(NextSegment) && !Stopped(segments)
      modifies record
      ensures Runs(old(record.View()), steps, record.View()) && record.cancelRequested == old(record.cancelRequested)
      ensures ok == !breaksOff
      ensures if ok then At(Enter(Diarize)) else record.pc == Handling(Failure, Mark)
      ensures record.segments == old(record.segments) + segments
    {
      ghost var t := record.View();
      steps := Rounds(segments);
      ghost var u := record.View();
      ghost var last := if breaksOff then Fail else EndOfAudio;
      record.pc := if breaksOff then Handling(Failure, Mark) else Enter(Diarize);
      OneStep(critical, u, last);
      RunsOn(t, steps, u, [last], record.View());
      steps := steps + [last];
      ok := !breaksOff;
    }

    method Rounds(segments: nat) returns (ghost steps: seq<Choice>)
      requires At(NextSegment) && !Stopped(segments)
      modifies record
      ensures Runs(old(record.View()), steps, record.View()) && record.cancelRequested == old(record.cancelRequested)
      ensures At(NextSegment) && record.segments == old(record.segments) + segments
    {
      ghost var t := record.View();
      steps := [];
      for k := 0 to segments
        invariant Runs(t, steps, record.View())
        invariant At(NextSegment) && record.segments == old(record.segments) + k
        invariant record.cancelRequested == old(record.cancelRequested)
      {
        ghost var u := record.View();
        record.segments := record.segments + 1;
        SegmentRound(critical, u);
        RunsOn(t, steps, u, ROUND, record.View());
        steps := steps + ROUND;
      }
    }

    /** The completion block: the status, the event, the record and the tail. */
    method Complete(tail: Work) returns (ok: bool, ghost steps: seq<Choice>)
      requires At(MarkDone)
      modifies record
      ensures record.View() == Steps(critical, old(record.View()), steps)
      ensures ok <==> tail.Done?
      ensures record.pc == if ok then Unwinding(None) else Handling(Failure, Mark)
      ensures record.pending.None? && record.segments == old(record.segments)
      ensures record.status == Status.Done
      ensures record.log == old(record.log).(completed := old(record.log).completed + 1,
                                             tailRaised := old(record.log).tailRaised || !ok)
    {
      ghost var t := record.View();
      CompletionSteps(critical, t);
      record.status := Status.Done;
      record.log := record.log.(completed := record.log.completed + 1);
      ok := tail.Done?;
      if ok {
        record.pc := Unwinding(None);
        steps := [Proceed, Proceed, Proceed, Proceed];
      } else {
        record.log := record.log.(tailRaised := true);
        record.pc := Handling(Failure, Mark);
        steps := [Proceed, Proceed, Proceed, Fail];
      }
    }

    /** The `except` clause for an exception of this kind. */
    method Except(kind: Abort) returns (ghost steps: seq<Choice>)
      requires record.pc == Handling(kind, Mark) && record.pending.None?
      modifies record
      ensures record.View() == Steps(critical, old(record.View()), steps)
      ensures record.pc == Unwinding(Some(kind)) && record.pending.None? && record.segments == old(record.segments)
      ensures record.status == if kind == Abort.Cancel then Cancelled else Error
      ensures record.log == if kind == Abort.Cancel then old(record.log).(cancelled := old(record.log).cancelled + 1)
                            else old(record.log).(failed := old(record.log).failed + 1)
    {
      hide Steps, Thread;
      ghost var t := record.View();
      ClauseSteps(critical, t);
      record.status := Verdict(kind);
      record.log := Recorded(record.log, kind);
      record.pc := Unwinding(Some(kind));
      steps := [Proceed, Proceed, Proceed, Proceed];
    }

    /** A checkpoint and the step behind it. */
    method CheckedStep(p: Phase, work: Work) returns (ok: bool, ghost steps: seq<Choice>)
      requires At(CheckCancel(p)) && !record.cancelRequested && !Optional(p) && !p.Transcribe?
      modifies record
      ensures Leads(old(record.View()), steps, record.View())
      ensures ok <==> !critical && work.Done?
      ensures if ok then At(After(p)) else record.pc == Handling(if critical then Critical else Failure, Mark)
    {
      hide Steps;
      ghost var t := record.View();
      ghost var more: seq<Choice>;
      ok, steps := CheckPoint(p);
      if !ok {
        return;
      }
      ghost var u := record.View();
      ok, more := RunStep(p, false, work);
      Onwards(t, steps, u, more, record.View());
      steps := steps + more;
    }

    /** Steps that lead from one state of the task to another and append no segment. */
    ghost predicate Leads(t: Task, steps: seq<Choice>, u: Task) {
      u == Steps(critical, t, steps) && SameBut(t, u) && u.segments == t.segments
    }

    lemma Onwards(t: Task, a: seq<Choice>, u: Task, b: seq<Choice>, v: Task)
      requires Leads(t, a, u) && Leads(u, b, v)
      ensures Leads(t, a + b, v)
    {
      MoreSteps(critical, t, a, b);
    }

    /** Probing, extracting and loading, with the checkpoint after each. */
    method Prepare(oracle: Oracle) returns (ok: bool, ghost steps: seq<Choice>)
      requires At(Enter(Probe)) && !record.cancelRequested
      modifies record
      ensures Leads(old(record.View()), steps, record.View())
      ensures ok <==> !critical && Prepares(oracle)
      ensures if ok then At(Enter(Phase.Transcribe))
              else record.pc == Handling(if critical && oracle.work(Probe).Done? then Critical else Failure, Mark)
    {
      hide Steps;
      ghost var t := record.View();
      ghost var more: seq<Choice>;
      ok, steps := RunStep(Probe, false, oracle.work(Probe));
      if !ok {
        return;
      }
      ghost var u := record.View();
      ok, more := CheckedStep(Extract, oracle.work(Extract));
      Onwards(t, steps, u, more, record.View());
      steps := steps + more;
      if !ok {
        return;
      }
      u := record.View();
      ok, more := LoadAndCheck(oracle.work(Load));
      Onwards(t, steps, u, more, record.View());
      steps := steps + more;
    }

    method LoadAndCheck(work: Work) returns (ok: bool, ghost steps: seq<Choice>)
      requires At(CheckCancel(Load)) && !record.cancelRequested && !critical
      modifies record
      ensures Leads(old(record.View()), steps, record.View())
      ensures ok <==> work.Done?
      ensures if ok then At(Enter(Phase.Transcribe)) else record.pc == Handling(Failure, Mark)
    {
      hide Steps;
      ghost var t := record.View();
      ghost var more: seq<Choice>;
      ok, steps := CheckedStep(Load, work);
      if !ok {
        return;
      }
      ghost var u := record.View();
      ok, more := CheckPoint(Phase.Transcribe);
      Onwards(t, steps, u, more, record.View());
      steps := steps + more;
    }

    /** Diarization and line breaking. */
    method Format(oracle: Oracle) returns (ok: bool, ghost steps: seq<Choice>)
      requires At(Enter(Diarize)) && !record.cancelRequested
      modifies record
      ensures Leads(old(record.View()), steps, record.View())
      ensures ok <==> (oracle.skips(Diarize) || oracle.work(Diarize).Done?) && oracle.work(BreakLines).Done?
      ensures if ok then At(Enter(Translate)) else record.pc == Handling(Failure, Mark)
    {
      hide Steps;
      ghost var t := record.View();
      ghost var more: seq<Choice>;
      ok, steps := RunStep(Diarize, oracle.skips(Diarize), oracle.work(Diarize));
      if !ok {
        return;
      }
      ghost var u := record.View();
      ok, more := RunStep(BreakLines, false, oracle.work(BreakLines));
      Onwards(t, steps, u, more, record.View());
      steps := steps + more;
    }

    /** Translation and validation. */
    method Check(oracle: Oracle) returns (ok: bool, ghost steps: seq<Choice>)
      requires At(Enter(Translate)) && !record.cancelRequested
      modifies record
      ensures Leads(old(record.View()), steps, record.View())
      ensures ok <==> (oracle.skips(Translate) || oracle.work(Translate).Done?) && oracle.work(Validate).Done?
      ensures if ok then At(CheckCancel(Finalize)) else record.pc == Handling(Failure, Mark)
    {
      hide Steps;
      ghost var t := record.View();
      ghost var more: seq<Choice>;
      ok, steps := RunStep(Translate, oracle.skips(Translate), oracle.work(Translate));
      if !ok {
        return;
      }
      ghost var u := record.View();
      ok, more := RunStep(Validate, false, oracle.work(Validate));
      Onwards(t, steps, u, more, record.View());
      steps := steps + more;
    }

    /** Translation, validation and the files, with the last checkpoint. */
    method Produce(oracle: Oracle) returns (ok: bool, ghost steps: seq<Choice>)
      requires At(Enter(Translate)) && !record.cancelRequested && !critical
      modifies record
      ensures Leads(old(record.View()), steps, record.View())
      ensures ok <==> (oracle.skips(Translate) || oracle.work(Translate).Done?)
                      && oracle.work(Validate).Done? && oracle.work(Finalize).Done?
      ensures if ok then At(MarkDone) else record.pc == Handling(Failure, Mark)
    {
      hide Steps;
      ghost var t := record.View();
      ghost var more: seq<Choice>;
      ok, steps := Check(oracle);
      if !ok {
        return;
      }
      ghost var u := record.View();
      ok, more := CheckedStep(Finalize, oracle.work(Finalize));
      Onwards(t, steps, u, more, record.View());
      steps := steps + more;
    }

    /** Everything from the first step on that may raise: the body of the `try` up to the completion. */
    method Body(oracle: Oracle) returns (ok: bool, ghost steps: seq<Choice>)
      requires At(Enter(Probe)) && !record.cancelRequested
      modifies record
      ensures record.View() == Steps(critical, old(record.View()), steps) && SameBut(old(record.View()), record.View())
      ensures ok <==> !critical && Prepares(oracle) && !oracle.breaksOff && Finishes(oracle)
      ensures if ok then At(MarkDone)
              else record.pc == Handling(if critical && oracle.work(Probe).Done? then Critical else Failure, Mark)
      ensures record.segments == old(record.segments) + if !critical && Prepares(oracle) then oracle.segments else 0
    {
      hide Steps;
      ghost var t := record.View();
      ghost var more: seq<Choice>;
      ok, steps := Prepare(oracle);
      if !ok {
        return;
      }
      ok, more := Transcribe(oracle.segments, oracle.breaksOff);
      MoreSteps(critical, t, steps, more);
      steps := steps + more;
      if !ok {
        return;
      }
      ok, more := Format(oracle);
      MoreSteps(critical, t, steps, more);
      steps := steps + more;
      if !ok {
        return;
      }
      ok, more := Produce(oracle);
      MoreSteps(critical, t, steps, more);
      steps := steps + more;
    }

    /** The run from the prologue to the release of its permit. */
    method ProcessVideo(oracle: Oracle, tail: Work) returns (ghost steps: seq<Choice>)
      requires record.pc.Prologue? && record.pending.None? && record.View().handler.Idle?
      modifies record
      ensures record.View() == Steps(critical, old(record.View()), steps)
      ensures record.pc == Releasing(Ends(oracle, tail, critical))
      ensures record.segments == old(record.segments)
                + if !critical && Prepares(oracle) then oracle.segments else 0
      ensures record.status == ShownFor(Ends(oracle, tail, critical))
      ensures record.log ==
                Outcome(old(record.log), !critical && Prepares(oracle) && !oracle.breaksOff && Finishes(oracle),
                        Ends(oracle, tail, critical))
      ensures TaskOk(old(record.View())) ==> TaskOk(record.View())
      ensures RunsCanGoOn(critical, old(record.View()), record.View())
    {
      hide Steps, Thread, TaskOk, RunsCanGoOn;
      ghost var t := record.View();
      ghost var more: seq<Choice>;
      StartUp();
      steps := [Proceed];
      var ok;
      ok, more := Body(oracle);
      MoreSteps(critical, t, steps, more);
      steps := steps + more;
      more := Close(ok, tail);
      MoreSteps(critical, t, steps, more);
      steps := steps + more;
      StepsKeep(critical, t, steps);
      StepsAreRuns(critical, t, steps);
    }

    /** The prologue. */
    method StartUp()
      requires record.pc.Prologue? && record.pending.None? && record.View().handler.Idle?
      modifies record
      ensures record.View() == Steps(critical, old(record.View()), [Proceed])
      ensures At(Enter(Probe)) && !record.cancelRequested && record.segments == old(record.segments)
      ensures record.log == old(record.log)
    {
      OneStep(critical, record.View(), Proceed);
      record.cancelRequested, record.pauseEvent, record.threadId := false, Some(true), true;
      record.status, record.pc := Uploading, Enter(Probe);
    }

    /** The completion or the `except` clause, and the `finally` clause up to the release. */
    method Close(ok: bool, tail: Work) returns (ghost steps: seq<Choice>)
      requires if ok then At(MarkDone) else RaisedAs(record.View()) && record.pending.None?
      modifies record
      ensures record.View() == Steps(critical, old(record.View()), steps)
      ensures record.pc ==
                Releasing(if !ok then Some(old(record.pc).kind) else if tail.Done? then None else Some(Failure))
      ensures record.segments == old(record.segments)
      ensures record.status == ShownFor(record.pc.verdict)
      ensures record.log == Outcome(old(record.log), ok, record.pc.verdict)
    {
      hide Steps, Thread;
      ghost var t := record.View();
      ghost var more: seq<Choice>;
      if ok {
        var good;
        good, steps := Complete(tail);
        if good {
          more := Unwind();
        } else {
          more := HandleAndUnwind();
        }
        MoreSteps(critical, t, steps, more);
        steps := steps + more;
      } else {
        steps := HandleAndUnwind();
      }
    }

    /** The `except` clause and then the `finally` clause. */
    method HandleAndUnwind() returns (ghost steps: seq<Choice>)
      requires RaisedAs(record.View()) && record.pending.None?
      modifies record
      ensures record.View() == Steps(critical, old(record.View()), steps)
      ensures record.pc == Releasing(Some(old(record.pc).kind)) && record.segments == old(record.segments)
      ensures record.status == ShownFor(Some(old(record.pc).kind))
      ensures record.log == Outcome(old(record.log), false, Some(old(record.pc).kind))
    {
      hide Steps, Thread;
      ghost var t := record.View();
      ghost var more: seq<Choice>;
      steps := Except(record.pc.kind);
      more := Unwind();
      MoreSteps(critical, t, steps, more);
      steps := steps + more;
    }

    method Unwind() returns (ghost steps: seq<Choice>)
      requires record.pc.Unwinding? && record.pending.None?
      modifies record
      ensures record.View() == Steps(critical, old(record.View()), steps)
      ensures record.pc == Releasing(old(record.pc).verdict) && record.segments == old(record.segments)
      ensures record.status == old(record.status) && record.log == old(record.log)
    {
      OneStep(critical, record.View(), Proceed);
      record.threadId := false;
      record.pc := Releasing(record.pc.verdict);
      steps := [Proceed];
    }
  }

  predicate Prepares(o: Oracle) {
    o.work(Probe).Done? && o.work(Extract).Done? && o.work(Load).Done?
  }

  predicate Finishes(o: Oracle) {
    && (o.skips(Diarize) || o.work(Diarize).Done?) && o.work(BreakLines).Done?
    && (o.skips(Translate) || o.work(Translate).Done?) && o.work(Validate).Done? && o.work(Finalize).Done?
  }

  /** The exception that ends the run, if any. */
  function Ends(o: Oracle, tail: Work, critical: bool): Option<Abort> {
    if o.work(Probe).Done? && critical then Some(Critical)
    else if Prepares(o) && !o.breaksOff && Finishes(o) && tail.Done? then None
    else Some(Failure)
  }

  lemma {:induction false} StepsKeep(critical: bool, t: Task, choices: seq<Choice>)
    ensures TaskOk(t) ==> TaskOk(Steps(critical, t, choices))
  {
    if choices != [] && TaskOk(t) {
      var init := choices[..|choices| - 1];
      StepsKeep(critical, t, init);
      ThreadKeeps(critical, Steps(critical, t, init), choices[|choices| - 1]);
    }
  }

  lemma CompletionSteps(critical: bool, t: Task)
    requires t.pc.MarkDone? && t.pending.None?
    ensures var u := t.(status := Status.Done, log := t.log.(completed := t.log.completed + 1));
            && Steps(critical, t, [Proceed, Proceed, Proceed, Proceed]) == u.(pc := Unwinding(None))
            && Steps(critical, t, [Proceed, Proceed, Proceed, Fail])
               == u.(pc := Handling(Failure, Mark), log := u.log.(tailRaised := true))
  {
    var t1, t2 := t.(status := Status.Done, pc := EmitDone), t.(status := Status.Done, pc := RecordDone);
    var t3 := t2.(pc := Tail, log := t.log.(completed := t.log.completed + 1));
    ToTheTail(critical, t, t1, t2, t3);
    FourSteps(critical, t, t1, t2, t3, Proceed);
    FourSteps(critical, t, t1, t2, t3, Fail);
    EdgeIs(critical, t3, Proceed);
    EdgeIs(critical, t3, Fail);
  }

  lemma ToTheTail(critical: bool, t: Task, t1: Task, t2: Task, t3: Task)
    requires t.pc.MarkDone? && t.pending.None? && t1 == t.(status := Status.Done, pc := EmitDone)
    requires t2 == t1.(pc := RecordDone) && t3 == t2.(pc := Tail, log := t.log.(completed := t.log.completed + 1))
    ensures Thread(critical, t, Proceed) == t1 && Thread(critical, t1, Proceed) == t2
             && Thread(critical, t2, Proceed) == t3
  {
    EdgeIs(critical, t, Proceed);
    EdgeIs(critical, t1, Proceed);
    EdgeIs(critical, t2, Proceed);
  }

  lemma EdgeIs(critical: bool, t: Task, choice: Choice)
    requires AtEdge(t.pc) && t.pending.None?
    ensures Thread(critical, t, choice) == EdgeStep(t, choice)
  {
  }

  lemma FourSteps(critical: bool, t: Task, t1: Task, t2: Task, t3: Task, last: Choice)
    requires Thread(critical, t, Proceed) == t1 && Thread(critical, t1, Proceed) == t2
             && Thread(critical, t2, Proceed) == t3
    ensures Steps(critical, t, [Proceed, Proceed, Proceed, last]) == Thread(critical, t3, last)
  {
    var p := Proceed;
    OneStep(critical, t, p);
    OneStep(critical, t1, p);
    OneStep(critical, t2, p);
    OneStep(critical, t3, last);
    MoreSteps(critical, t, [p], [p]);
    MoreSteps(critical, t, [p, p], [p]);
    MoreSteps(critical, t, [p, p, p], [last]);
    assert [p] + [p] == [p, p] && [p, p] + [p] == [p, p, p] && [p, p, p] + [last] == [p, p, p, last];
  }

  lemma ClauseSteps(critical: bool, t: Task)
    requires t.pc.Handling? && t.pc.stage.Mark? && t.pending.None?
    ensures Steps(critical, t, [Proceed, Proceed, Proceed, Proceed])
            == t.(pc := Unwinding(Some(t.pc.kind)), status := Verdict(t.pc.kind), log := Recorded(t.log, t.pc.kind))
  {
    hide Steps;
    var k := t.pc.kind;
    var u := t.(status := Verdict(k));
    FourSteps(critical, t, u.(pc := Handling(k, Emit)), u.(pc := Handling(k, Record)),
              u.(pc := Handling(k, Clean), log := Recorded(t.log, k)), Proceed);
  }

  const ROUND := [Proceed, Proceed, Proceed, Proceed, Proceed]

  lemma SkipStep(critical: bool, t: Task, p: Phase)
    requires t.pc == Enter(p) && t.pending.None? && Optional(p)
    ensures Steps(critical, t, [Skip]) == t.(pc := After(p))
  {
    OneStep(critical, t, Skip);
  }

  lemma EntersStep(critical: bool, t: Task, p: Phase)
    requires t.pc == Enter(p) && t.pending.None? && !p.Transcribe?
    ensures Steps(critical, t, [Proceed, Proceed])
            == t.(pc := Pc.Work(p), status := Announced(p, Direct(p, t.status)))
  {
    OneStep(critical, t, Proceed);
    MoreSteps(critical, t, [Proceed], [Proceed]);
    assert [Proceed] + [Proceed] == [Proceed, Proceed];
    OneStep(critical, t.(pc := Announce(p), status := Direct(p, t.status)), Proceed);
  }

  lemma StepEnds(critical: bool, t: Task, p: Phase)
    requires t.pc == Enter(p) && t.pending.None? && !p.Transcribe?
    ensures var u := t.(status := Announced(p, Direct(p, t.status)));
            && Steps(critical, t, [Proceed, Proceed, Proceed]) == u.(pc := After(p))
            && Steps(critical, t, [Proceed, Proceed, Fail]) == u.(pc := Handling(Failure, Mark))
  {
    EntersStep(critical, t, p);
    assert [Proceed, Proceed] + [Proceed] == [Proceed, Proceed, Proceed];
    assert [Proceed, Proceed] + [Fail] == [Proceed, Proceed, Fail];
    MoreSteps(critical, t, [Proceed, Proceed], [Proceed]);
    MoreSteps(critical, t, [Proceed, Proceed], [Fail]);
    var u := t.(pc := Pc.Work(p), status := Announced(p, Direct(p, t.status)));
    OneStep(critical, u, Proceed);
    OneStep(critical, u, Fail);
  }

  lemma EntersLoop(critical: bool, t: Task)
    requires t.pc == Enter(Phase.Transcribe) && t.pending.None?
    ensures Steps(critical, t, [Proceed, Proceed]) == t.(pc := NextSegment, status := Transcribing)
  {
    OneStep(critical, t, Proceed);
    MoreSteps(critical, t, [Proceed], [Proceed]);
    assert [Proceed] + [Proceed] == [Proceed, Proceed];
    OneStep(critical, t.(pc := Announce(Phase.Transcribe)), Proceed);
  }

  lemma RoundMoves(critical: bool, t: Task)
    requires t.pc.NextSegment? && Undisturbed(t) && !critical && !t.cancel
    ensures Thread(critical, t, Proceed) == t.(pc := SegmentCritical)
    ensures Thread(critical, t.(pc := SegmentCritical), Proceed) == t.(pc := SegmentCancel)
    ensures Thread(critical, t.(pc := SegmentCancel), Proceed) == t.(pc := SegmentPause)
    ensures Thread(critical, t.(pc := SegmentPause), Proceed) == t.(pc := Append)
  {
  }

  lemma StopMoves(critical: bool, t: Task)
    requires t.pc.NextSegment? && Undisturbed(t)
    ensures Thread(critical, t, Proceed) == t.(pc := SegmentCritical)
    ensures Thread(critical, t.(pc := SegmentCritical), Proceed)
            == t.(pc := if critical then Handling(Critical, Mark) else SegmentCancel)
    ensures t.cancel ==> Thread(critical, t.(pc := SegmentCancel), Proceed) == t.(pc := Handling(Abort.Cancel, Mark))
  {
  }

  lemma TwoSteps(critical: bool, t: Task, u: Task, v: Task)
    requires Thread(critical, t, Proceed) == u && Thread(critical, u, Proceed) == v
    ensures Steps(critical, t, [Proceed, Proceed]) == v
  {
    OneStep(critical, t, Proceed);
    OneStep(critical, u, Proceed);
    MoreSteps(critical, t, [Proceed], [Proceed]);
    assert [Proceed] + [Proceed] == [Proceed, Proceed];
  }

  /** What a segment's checks make of the critical state and of a cancel request, in that order. */
  lemma StopSteps(critical: bool, t: Task)
    requires t.pc.NextSegment? && Undisturbed(t)
    ensures critical ==> Steps(critical, t, [Proceed, Proceed]) == t.(pc := Handling(Critical, Mark))
    ensures !critical && t.cancel ==>
              Steps(critical, t, [Proceed, Proceed, Proceed]) == t.(pc := Handling(Abort.Cancel, Mark))
  {
    StopMoves(critical, t);
    var u := t.(pc := SegmentCancel);
    TwoSteps(critical, t, t.(pc := SegmentCritical), if critical then t.(pc := Handling(Critical, Mark)) else u);
    assert [Proceed, Proceed] + [Proceed] == [Proceed, Proceed, Proceed];
    MoreSteps(critical, t, [Proceed, Proceed], [Proceed]);
    OneStep(critical, u, Proceed);
  }

  lemma AppendMoves(critical: bool, t: Task)
    requires t.pc.Append? && t.pending.None?
    ensures Thread(critical, t, Proceed) == t.(pc := NextSegment, segments := t.segments + 1)
  {
  }

  /** One round of the loop: the three checks and the append. */
  lemma SegmentRound(critical: bool, t: Task)
    requires t.pc.NextSegment? && Undisturbed(t) && !critical && !t.cancel
    ensures Steps(critical, t, ROUND) == t.(segments := t.segments + 1)
  {
    var p, a := Proceed, t.(pc := Append);
    assert Steps(critical, t, [p, p, p, p]) == a by {
      RoundMoves(critical, t);
      FourSteps(critical, t, t.(pc := SegmentCritical), t.(pc := SegmentCancel), t.(pc := SegmentPause), p);
    }
    assert [p, p, p, p] + [p] == ROUND;
    MoreSteps(critical, t, [p, p, p, p], [p]);
    OneStep(critical, a, p);
    AppendMoves(critical, a);
  }
}
