/**
 What a task shows while its pipeline thread is at work, and when that lets a pause request through: the
 statuses that app/services/pipeline.py and app/services/transcription.py write and announce, told from the
 place of the thread in every run of `Pipelines`.
 */
module Statuses {
  import opened PyText
  import opened Lifecycle
  import opened Pipelines

  // ---------------------------------------------------------------- the shown status

  /** The status that a task shows with its thread at this place, if no force-abort has written another. What
      it shows at the start of an `except` clause, or behind one that raised, depends on the way there. */
  predicate ShownAt(pc: Pc, s: Status, l: Log) {
    match pc
    case Enter(p) => ShownBefore(p, s)
    case Announce(p) => ShownByAnnounced(p, s)
    case Work(p) => ShownDuring(p, s)
    case CheckCancel(next) => HasCheckpoint(next) && ShownBefore(next, s)
    case CheckCritical(next) => HasCheckpoint(next) && ShownBefore(next, s)
    case MarkDone => s.Writing?
    case EmitDone => s.Done?
    case RecordDone => s.Done?
    case Tail => s.Done?
    case Handling(Cancel, stage) => !stage.Mark? ==> s.Cancelled?
    case Handling(_, stage) => !stage.Mark? ==> s.Error?
    case Unwinding(v) => ShownAfter(v, s, l)
    case Releasing(v) => ShownAfter(v, s, l)
    case Ended(v) => ShownAfter(v, s, l)
    case _ => if BeforeTry(pc) then s.Queued? else ShownInLoop(pc, s)
  }

  /** The phases in front of which the flag and the critical state are checked. */
  predicate HasCheckpoint(p: Phase) {
    p.Extract? || p.Load? || p.Transcribe? || p.Finalize?
  }

  /** Between two steps a task shows what the last one that was not skipped has left. */
  predicate ShownBefore(p: Phase, s: Status) {
    match p
    case Probe => s.Uploading?
    case Extract => s.Uploading?
    case Load => s.Extracting?
    case Transcribe => s.LoadingModel?
    case Diarize => s.Transcribing?
    case BreakLines => s.Transcribing? || s.Diarizing?
    case Translate => s.Transcribing? || s.Diarizing?
    case Validate => s.Transcribing? || s.Diarizing? || s.Translating?
    case Finalize => s.Transcribing? || s.Diarizing? || s.Translating?
  }

  /** Some steps write a status before they announce one; loading shows "transcribing" for that moment. */
  predicate ShownByAnnounced(p: Phase, s: Status) {
    match p
    case Extract => s.Extracting?
    case Load => s.Transcribing?
    case Translate => s.Translating?
    case Finalize => s.Writing?
    case _ => ShownBefore(p, s)
  }

  predicate ShownDuring(p: Phase, s: Status) {
    match p
    case Probe => s.Uploading?
    case Extract => s.Extracting?
    case Load => s.LoadingModel?
    case Transcribe => false // the segment loop has places of its own
    case Diarize => s.Diarizing?
    case BreakLines => s.Transcribing? || s.Diarizing?
    case Translate => s.Translating?
    case Validate => s.Transcribing? || s.Diarizing? || s.Translating?
    case Finalize => s.Writing?
  }

  predicate ShownInLoop(pc: Pc, s: Status) {
    if pc.PausedNotice? || pc.EnterWait? || pc.Waiting? || pc.Woken? then s.Paused? else s.Transcribing?
  }

  predicate ShownAfter(v: Option<Abort>, s: Status, l: Log) {
    match v
    case None => s.Done?
    case Some(Cancel) => l.handlerRaised || s.Cancelled?
    case Some(_) => l.handlerRaised || s.Error?
  }

  /** A step shows its own status while it works. */
  lemma StepShows(p: Phase, s: Status)
    requires ShownBefore(p, s) && !p.Transcribe?
    ensures ShownDuring(p, Announced(p, Direct(p, s)))
  {
  }

  predicate IsAbort(h: Handler) {
    h.AbortCheck? || h.AbortFlag? || h.AbortSet? || h.AbortInject? || h.AbortEmit?
  }

  /** Told by its place, or the error of a force-abort. */
  predicate Told(t: Task, aborted: bool) {
    && (ShownAt(t.pc, t.status, t.log) || (t.status.Error? && aborted))
    && (IsAbort(t.handler) ==> aborted)
  }

  lemma ToldInPhase(critical: bool, t: Task, choice: Choice, aborted: bool)
    requires Told(t, aborted) && InPhase(t.pc)
    ensures Told(PhaseStep(critical, t, choice), aborted)
  {
    match t.pc
    case Enter(p) => ToldByEntering(critical, t, p, choice, aborted);
    case Announce(p) => ToldByAnnouncing(critical, t, p, choice, aborted);
    case Work(p) => ToldByWorking(critical, t, p, choice, aborted);
  }

  lemma ToldByEntering(critical: bool, t: Task, p: Phase, choice: Choice, aborted: bool)
    requires Told(t, aborted) && t.pc == Enter(p)
    ensures Told(PhaseStep(critical, t, choice), aborted)
  {
    hide ShownDuring, ShownInLoop, ShownAfter;
  }

  lemma ToldByAnnouncing(critical: bool, t: Task, p: Phase, choice: Choice, aborted: bool)
    requires Told(t, aborted) && t.pc == Announce(p)
    ensures Told(PhaseStep(critical, t, choice), aborted)
  {
    hide ShownAfter;
  }

  lemma ToldByWorking(critical: bool, t: Task, p: Phase, choice: Choice, aborted: bool)
    requires Told(t, aborted) && t.pc == Work(p)
    ensures Told(PhaseStep(critical, t, choice), aborted)
  {
    hide ShownByAnnounced, ShownInLoop, ShownAfter;
  }

  lemma ToldByCheck(critical: bool, t: Task, aborted: bool)
    requires Told(t, aborted) && IsCheck(t.pc)
    ensures Told(CheckStep(critical, t), aborted)
  {
    hide ShownBefore, ShownByAnnounced, ShownDuring, ShownInLoop, ShownAfter;
  }

  /** The loop leaves the status alone, outside its pause. */
  lemma LoopWritesNone(critical: bool, t: Task, choice: Choice)
    requires InLoop(t.pc) && !InPause(t.pc)
    ensures var u := SegmentStep(critical, t, choice);
            && u.status == t.status && u.handler == t.handler && u.log == t.log
            && (StaysInLoop(u.pc) || u.pc == Enter(Diarize) || (u.pc.Handling? && u.pc.stage.Mark?))
            && (u.pc == Enter(Diarize) ==> t.pc.NextSegment?)
  {
  }

  predicate StaysInLoop(pc: Pc) {
    pc.NextSegment? || pc.SegmentCritical? || pc.SegmentCancel? || pc.SegmentPause? || pc.Append? || pc.Pausing?
  }

  lemma ToldInLoop(critical: bool, t: Task, choice: Choice, aborted: bool)
    requires Told(t, aborted) && InLoop(t.pc) && !InPause(t.pc)
    ensures Told(SegmentStep(critical, t, choice), aborted)
  {
    hide SegmentStep, ShownByAnnounced, ShownDuring, ShownAfter;
    LoopWritesNone(critical, t, choice);
  }

  lemma ToldInPause(t: Task, aborted: bool)
    requires Told(t, aborted) && InPause(t.pc)
    ensures Told(PauseStep(t), aborted)
  {
    hide ShownBefore, ShownByAnnounced, ShownDuring, ShownAfter;
  }

  lemma ToldInClause(t: Task, choice: Choice, aborted: bool)
    requires Told(t, aborted) && t.pc.Handling?
    ensures Told(ClauseStep(t, choice), aborted)
  {
    if choice.Fail? {
      ToldByRaisingClause(t, choice, aborted);
    } else {
      ToldByClause(t, choice, aborted);
    }
  }

  lemma ToldByRaisingClause(t: Task, choice: Choice, aborted: bool)
    requires Told(t, aborted) && t.pc.Handling? && choice.Fail?
    ensures Told(ClauseStep(t, choice), aborted)
  {
    hide ShownBefore, ShownByAnnounced, ShownDuring, ShownInLoop;
  }

  lemma ToldByClause(t: Task, choice: Choice, aborted: bool)
    requires Told(t, aborted) && t.pc.Handling? && !choice.Fail?
    ensures Told(ClauseStep(t, choice), aborted)
  {
    if t.pc.stage.Clean? {
      ToldByCleaning(t, choice, aborted);
    } else {
      ToldByWriting(t, choice, aborted);
    }
  }

  lemma ToldByCleaning(t: Task, choice: Choice, aborted: bool)
    requires Told(t, aborted) && t.pc.Handling? && t.pc.stage.Clean? && !choice.Fail?
    ensures Told(ClauseStep(t, choice), aborted)
  {
    hide ShownBefore, ShownByAnnounced, ShownDuring, ShownInLoop;
  }

  lemma ToldByWriting(t: Task, choice: Choice, aborted: bool)
    requires Told(t, aborted) && t.pc.Handling? && !t.pc.stage.Clean? && !choice.Fail?
    ensures Told(ClauseStep(t, choice), aborted)
  {
    hide ShownBefore, ShownByAnnounced, ShownDuring, ShownInLoop, ShownAfter;
  }

  /** The prologue, the completion tail and the `finally` clause. */
  lemma ToldAtEdge(t: Task, choice: Choice, aborted: bool)
    requires Told(t, aborted) && (AtEdge(t.pc) || t.pc.Prologue?)
    ensures Told(EdgeStep(t, choice), aborted)
  {
    if t.pc.Prologue? || t.pc.MarkDone? || t.pc.EmitDone? {
      ToldAtStart(t, choice, aborted);
    } else {
      ToldAtEnd(t, choice, aborted);
    }
  }

  lemma ToldAtStart(t: Task, choice: Choice, aborted: bool)
    requires Told(t, aborted) && (t.pc.Prologue? || t.pc.MarkDone? || t.pc.EmitDone?)
    ensures Told(EdgeStep(t, choice), aborted)
  {
    hide ShownByAnnounced, ShownDuring, ShownInLoop, ShownAfter;
  }

  lemma ToldAtEnd(t: Task, choice: Choice, aborted: bool)
    requires Told(t, aborted) && (t.pc.RecordDone? || t.pc.Tail? || t.pc.Unwinding?)
    ensures Told(EdgeStep(t, choice), aborted)
  {
    hide ShownBefore, ShownByAnnounced, ShownDuring, ShownInLoop;
  }

  lemma ToldByThread(critical: bool, t: Task, choice: Choice, aborted: bool)
    requires Told(t, aborted)
    ensures Told(Thread(critical, t, choice), aborted)
  {
    hide PauseStep, SegmentStep, CheckStep, PhaseStep, ClauseStep, EdgeStep, Told, AtEdge;
    if t.pending.Some? && Interruptible(t.pc) && t.pc != Waiting(false) {
      ToldWhenRaised(t, t.pending.value, aborted);
    } else if InPause(t.pc) {
      ToldInPause(t, aborted);
    } else if InLoop(t.pc) {
      ToldInLoop(critical, t, choice, aborted);
    } else if IsCheck(t.pc) {
      ToldByCheck(critical, t, aborted);
    } else if InPhase(t.pc) {
      ToldInPhase(critical, t, choice, aborted);
    } else if t.pc.Handling? {
      ToldInClause(t, choice, aborted);
    } else if AtEdge(t.pc) || t.pc.Prologue? {
      ToldAtEdge(t, choice, aborted);
    } else {
      NoEdge(t, choice);
    }
  }

  lemma ToldWhenRaised(t: Task, kind: Abort, aborted: bool)
    requires Told(t, aborted)
    ensures Told(Raise(t, kind).(pending := None), aborted)
  {
    hide ShownBefore, ShownByAnnounced, ShownDuring, ShownInLoop, ShownAfter;
  }

  lemma NoEdge(t: Task, choice: Choice)
    requires !AtEdge(t.pc) && !t.pc.Prologue?
    ensures EdgeStep(t, choice) == t
  {
  }

  /** A handler writes no status but the error of an abort. */
  lemma StatusByHandler(critical: bool, t: Task, m: Move)
    requires m.Ask? || m.Serve? || m.AbortBegins?
    ensures var u := Moved(critical, t, m);
            && (u.status == t.status || (u.status.Error? && IsAbort(t.handler)))
            && (IsAbort(u.handler) ==> IsAbort(t.handler) || m.AbortBegins?)
  {
    if m.Serve? {
      StatusWhenServed(t, m.lands);
    } else if m.Ask? {
      StatusWhenAsked(t, m.request);
    }
  }

  lemma StatusWhenAsked(t: Task, r: Request)
    ensures Start(t, r).status == t.status && (IsAbort(Start(t, r).handler) ==> IsAbort(t.handler))
  {
    hide SetEvent;
    SetLeavesStatus(t);
  }

  lemma StatusWhenServed(t: Task, lands: bool)
    ensures var u := Continue(t, lands);
            && (u.status == t.status || (u.status.Error? && IsAbort(t.handler)))
            && (IsAbort(u.handler) ==> IsAbort(t.handler))
  {
    hide SetEvent, Inject, Final;
    SetLeavesStatus(t);
    InjectLeavesStatus(t, Cancel, lands);
    InjectLeavesStatus(t, Critical, lands);
  }

  lemma SetLeavesStatus(t: Task)
    ensures SetEvent(t).status == t.status && SetEvent(t).handler == t.handler
  {
  }

  lemma InjectLeavesStatus(t: Task, kind: Abort, lands: bool)
    ensures Inject(t, kind, lands).status == t.status && Inject(t, kind, lands).handler == t.handler
  {
  }

  lemma ToldByHandler(critical: bool, t: Task, m: Move, aborted: bool)
    requires Told(t, aborted) && (m.Ask? || m.Serve? || (m.AbortBegins? && aborted))
    ensures Told(Moved(critical, t, m), aborted)
  {
    hide Moved, ShownBefore, ShownByAnnounced, ShownDuring, ShownAfter;
    HandlersOnlyWake(critical, t, m);
    StatusByHandler(critical, t, m);
  }

  lemma ToldByMove(critical: bool, t: Task, m: Move, aborted: bool)
    requires Told(t, aborted) && (m.AbortBegins? ==> aborted)
    ensures Told(Moved(critical, t, m), aborted)
  {
    if m.Go? {
      ToldByThread(critical, t, m.choice, aborted);
    } else if m.Ask? || m.Serve? || m.AbortBegins? {
      ToldByHandler(critical, t, m, aborted);
    }
  }

  /** `set_critical` was called with reasons at some time of the run. */
  predicate Aborted(actions: seq<Action>) {
    SetCritical(true) in actions
  }

  lemma TaskAfter(s: State, a: Action, i: nat)
    requires i < |Next(s, a).tasks|
    ensures Next(s, a).tasks[i] == if i < |s.tasks| then Moved(s.critical, s.tasks[i], MoveOf(s, a, i)) else FRESH
    ensures MoveOf(s, a, i).AbortBegins? ==> a == SetCritical(true)
    ensures MoveOf(s, a, i) == Ask(CancelRequest) ==> a == Handle(i, CancelRequest)
  {
    hide Moved, Semaphores;
  }

  lemma {:induction false} ToldInRun(actions: seq<Action>, i: nat)
    requires i < |Run(actions).tasks|
    ensures Told(Run(actions).tasks[i], Aborted(actions))
  {
    hide Told, Moved, Next, MoveOf;
    var init, a := actions[..|actions| - 1], actions[|actions| - 1];
    var s := Run(init);
    assert actions == init + [a];
    TaskAfter(s, a, i);
    if i < |s.tasks| {
      ToldInRun(init, i);
      ToldStill(s.tasks[i], Aborted(init), Aborted(actions));
      ToldByMove(s.critical, s.tasks[i], MoveOf(s, a, i), Aborted(actions));
    } else {
      FreshIsTold(Aborted(actions));
    }
  }

  lemma ToldStill(t: Task, before: bool, aborted: bool)
    requires Told(t, before) && (before ==> aborted)
    ensures Told(t, aborted)
  {
    hide ShownAt;
  }

  lemma FreshIsTold(aborted: bool)
    ensures Told(FRESH, aborted)
  {
  }

  /** In every run, what a task shows is told by where its thread is, unless it is the error of a force-abort;
      and there is none as long as `set_critical` was never called with reasons. */
  lemma StatusTells(actions: seq<Action>, i: nat)
    requires i < |Run(actions).tasks|
    ensures var t := Run(actions).tasks[i]; ShownAt(t.pc, t.status, t.log) || (t.status.Error? && Aborted(actions))
  {
    hide ShownAt;
    ToldInRun(actions, i);
  }

  // ---------------------------------------------------------------- where a pause request is granted

  /** The request is answered with "Pause requested": the handler is about to clear the event. */
  predicate Granted(t: Task) {
    t.handler.Idle? && Start(t, PauseRequest).handler.PauseClear?
  }

  /** In the segment loop, outside its pause, and around it as long as nothing else is shown. */
  predicate GrantsPause(pc: Pc) {
    || StaysInLoop(pc) || pc.ResumedNotice?
    || pc == Announce(Load) || pc == Enter(Diarize) || pc == Announce(Diarize)
  }

  /** Behind the loop, if diarization or translation was skipped, and behind an exception. */
  predicate MayGrantPause(pc: Pc, l: Log) {
    match pc
    case Enter(p) => p.BreakLines? || p.Translate? || p.Validate? || p.Finalize?
    case Announce(p) => p.BreakLines? || p.Validate?
    case Work(p) => p.BreakLines? || p.Validate?
    case CheckCancel(next) => next.Finalize?
    case CheckCritical(next) => next.Finalize?
    case Handling(_, stage) => stage.Mark?
    case _ => Over(pc) && l.handlerRaised
  }

  /** In every run, a pause request can be granted only at these places; in the loop it is, if the event is
      set and no force-abort has intervened. */
  lemma PauseIsGranted(actions: seq<Action>, i: nat)
    requires i < |Run(actions).tasks|
    ensures var t := Run(actions).tasks[i];
            && (Granted(t) ==> t.event == Some(true) && (GrantsPause(t.pc) || MayGrantPause(t.pc, t.log)))
            && (GrantsPause(t.pc) && !Aborted(actions) && t.handler.Idle? && t.event == Some(true) ==> Granted(t))
  {
    StatusTells(actions, i);
    var t := Run(actions).tasks[i];
    if t.status.Transcribing? && ShownAt(t.pc, t.status, t.log) {
      TranscribingTells(t.pc, t.log);
    }
    if GrantsPause(t.pc) && ShownAt(t.pc, t.status, t.log) {
      ShownWhereGranted(t.pc, t.status, t.log);
    }
  }

  lemma TranscribingTells(pc: Pc, l: Log)
    requires ShownAt(pc, Transcribing, l)
    ensures GrantsPause(pc) || MayGrantPause(pc, l)
  {
  }

  lemma ShownWhereGranted(pc: Pc, s: Status, l: Log)
    requires GrantsPause(pc) && ShownAt(pc, s, l)
    ensures s.Transcribing?
  {
  }
}
