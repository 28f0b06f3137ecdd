/**
 The life of one task: the pipeline thread of app/services/pipeline.py (`process_video`), the segment loop
 of app/services/transcription.py, and what the handlers of app/routes/control.py and app/state.py
 (`cancel`, `pause`, `resume`, `_force_abort_active_tasks`) do to the task record in the meantime.

 `Moved` is one step on one task. The thread's steps are as fine as its reads and writes of the shared
 record; a handler's check, flag, event, injection and emission are separate steps too, and handlers of
 one task do not overlap each other, since they run on one event loop without awaiting. ffmpeg, the model,
 diarization and translation are oracles: a `Choice` says how they end. An injected exception is delivered
 at the thread's next step inside the `try` before the status is done; it may fail to land.
 */
module Lifecycle {
  import opened PyText

  datatype Status =
    | Queued | Uploading | Extracting | LoadingModel | Transcribing | Paused | Diarizing | Translating | Writing
    | Done | Error | Cancelled

  predicate Final(s: Status) {
    s.Done? || s.Error? || s.Cancelled?
  }

  datatype Phase = Probe | Extract | Load | Transcribe | Diarize | BreakLines | Translate | Validate | Finalize

  /** The exception that ends a run early: which `except` clause handles it. */
  datatype Abort = Cancel | Critical | Failure

  /** The parts of an `except` clause: it writes the status, emits it, records the outcome and cleans up. */
  datatype Stage = Mark | Emit | Record | Clean

  datatype Pc =
    | Submitted | MakingSemaphore | Awaiting | Prologue
    | Enter(phase: Phase) | Announce(phase: Phase) | Work(phase: Phase)
    | CheckCancel(next: Phase) | CheckCritical(next: Phase)
    | NextSegment | SegmentCritical | SegmentCancel | SegmentPause
    | Pausing | PausedNotice | EnterWait | Waiting(notified: bool) | Woken | ResumedNotice | Append
    | MarkDone | EmitDone | RecordDone | Tail
    | Handling(kind: Abort, stage: Stage)
    | Unwinding(verdict: Option<Abort>) | Releasing(verdict: Option<Abort>) | Ended(verdict: Option<Abort>)

  /** What a handler on the event loop does next to this task. */
  datatype Handler =
    | Idle
    | CancelFlag | CancelSet | CancelInject
    | PauseClear
    | AbortCheck | AbortFlag | AbortSet | AbortInject | AbortEmit

  /** The outcomes recorded for the task, and whether an exception came out of the completion tail or out of
      an `except` clause before its record. */
  datatype Log = Log(completed: nat, cancelled: nat, failed: nat, tailRaised: bool, handlerRaised: bool)

  /** `event` is the pause event: absent before the prologue, otherwise whether it is set. Three fields
      are records for the theorems: `log`, `clearedLate` (a pause cleared the event after a cancel request)
      and `landed` (an injection landed). */
  datatype Task = Task(status: Status, cancel: bool, event: Option<bool>, thread: bool, pending: Option<Abort>,
                       pc: Pc, sem: nat, segments: nat, handler: Handler,
                       log: Log, clearedLate: bool, landed: bool)

  const FRESH := Task(Queued, false, None, false, None, Submitted, 0, 0, Idle, Log(0, 0, 0, false, false), false, false)

  datatype Choice = Proceed | Skip | EndOfAudio | Fail | FfmpegDies

  datatype Request = CancelRequest | PauseRequest | ResumeRequest

  datatype Move =
    | Stay
    | MustMake | Made | Looked(sem: nat) | Acquired | Released
    | Go(choice: Choice)
    | Ask(request: Request)
    | Serve(lands: bool)
    | AbortBegins

  // ---------------------------------------------------------------- the pipeline thread

  /** The status that a step writes before it announces itself, and the one that its announcement copies
      into the record. */
  function Direct(p: Phase, status: Status): Status {
    match p
    case Extract => Extracting
    case Load => Transcribing
    case Translate => Translating
    case Finalize => Writing
    case _ => status
  }

  function Announced(p: Phase, status: Status): Status {
    match p
    case Extract => Extracting
    case Load => LoadingModel
    case Transcribe => Transcribing
    case Diarize => Diarizing
    case Translate => Translating
    case Finalize => Writing
    case _ => status
  }

  function After(p: Phase): Pc {
    match p
    case Probe => CheckCancel(Extract)
    case Extract => CheckCancel(Load)
    case Load => CheckCancel(Transcribe)
    case Transcribe => Enter(Diarize)
    case Diarize => Enter(BreakLines)
    case BreakLines => Enter(Translate)
    case Translate => Enter(Validate)
    case Validate => CheckCancel(Finalize)
    case Finalize => MarkDone
  }

  predicate Optional(p: Phase) {
    p.Diarize? || p.Translate?
  }

  function Verdict(kind: Abort): Status {
    if kind.Cancel? then Cancelled else Error
  }

  /** Inside the `try`, before the status is done: where an injected exception may be delivered. */
  predicate Interruptible(pc: Pc) {
    match pc
    case Enter(_) => true
    case Announce(_) => true
    case Work(_) => true
    case CheckCancel(_) => true
    case CheckCritical(_) => true
    case MarkDone => true
    case _ => InLoop(pc)
  }

  predicate InLoop(pc: Pc) {
    pc.NextSegment? || pc.SegmentCritical? || pc.SegmentCancel? || pc.SegmentPause? || pc.Append? || InPause(pc)
  }

  function Raise(t: Task, kind: Abort): Task {
    t.(pc := Handling(kind, Mark))
  }

  function Recorded(log: Log, kind: Abort): Log {
    if kind.Cancel? then log.(cancelled := log.cancelled + 1) else log.(failed := log.failed + 1)
  }

  /** One step of the thread. */
  function Thread(critical: bool, t: Task, choice: Choice): Task {
    if t.pending.Some? && Interruptible(t.pc) && t.pc != Waiting(false) then Raise(t, t.pending.value).(pending := None)
    else if InPause(t.pc) then PauseStep(t)
    else if InLoop(t.pc) then SegmentStep(critical, t, choice)
    else if IsCheck(t.pc) then CheckStep(critical, t)
    else if InPhase(t.pc) then PhaseStep(critical, t, choice)
    else if t.pc.Handling? then ClauseStep(t, choice)
    else EdgeStep(t, choice)
  }

  predicate InPhase(pc: Pc) {
    pc.Enter? || pc.Announce? || pc.Work?
  }

  predicate IsCheck(pc: Pc) {
    pc.CheckCancel? || pc.CheckCritical?
  }

  function PhaseStep(critical: bool, t: Task, choice: Choice): Task
    requires InPhase(t.pc)
  {
    match t.pc
    case Enter(p) =>
      if choice.Skip? && Optional(p) then t.(pc := After(p))
      else t.(pc := Announce(p), status := Direct(p, t.status))
    case Announce(p) =>
      t.(pc := if p.Transcribe? then NextSegment else Work(p), status := Announced(p, t.status))
    case Work(p) =>
      if choice.FfmpegDies? && p.Extract? then Raise(t, if t.cancel && critical then Critical else Failure)
      else if choice.Fail? then Raise(t, Failure)
      else t.(pc := After(p))
  }

  function CheckStep(critical: bool, t: Task): Task
    requires IsCheck(t.pc)
  {
    match t.pc
    case CheckCancel(next) => if t.cancel then Raise(t, Cancel) else t.(pc := CheckCritical(next))
    case CheckCritical(next) => if critical then Raise(t, Critical) else t.(pc := Enter(next))
  }

  /** The prologue, the completion tail and the `finally` clause. */
  function EdgeStep(t: Task, choice: Choice): Task {
    match t.pc
    case Prologue =>
      t.(pc := Enter(Probe), cancel := false, event := Some(true), thread := true, status := Uploading)
    case MarkDone => if choice.Fail? then Raise(t, Failure) else t.(pc := EmitDone, status := Done)
    case EmitDone => t.(pc := RecordDone, status := Done)
    case RecordDone => t.(pc := Tail, log := t.log.(completed := t.log.completed + 1))
    case Tail =>
      if choice.Fail? then Raise(t, Failure).(log := t.log.(tailRaised := true)) else t.(pc := Unwinding(None))
    case Unwinding(v) => t.(pc := Releasing(v), thread := false)
    case _ => t
  }

  /** The segment loop of the transcription. */
  function SegmentStep(critical: bool, t: Task, choice: Choice): Task
    requires InLoop(t.pc) && !InPause(t.pc)
  {
    match t.pc
    case NextSegment =>
      if choice.Fail? then Raise(t, Failure)
      else if choice.EndOfAudio? then t.(pc := After(Transcribe))
      else t.(pc := SegmentCritical)
    case SegmentCritical => if critical then Raise(t, Critical) else t.(pc := SegmentCancel)
    case SegmentCancel => if t.cancel then Raise(t, Cancel) else t.(pc := SegmentPause)
    case SegmentPause => t.(pc := if t.event == Some(false) then Pausing else Append)
    case Append => t.(pc := NextSegment, segments := t.segments + 1)
  }

  predicate InPause(pc: Pc) {
    pc.Pausing? || pc.PausedNotice? || pc.EnterWait? || pc.Waiting? || pc.Woken? || pc.ResumedNotice?
  }

  /** `wait` returns at once if the event is set, and otherwise when it has been notified. */
  function PauseStep(t: Task): Task
    requires InPause(t.pc)
  {
    match t.pc
    case Pausing => t.(pc := PausedNotice, status := Paused)
    case PausedNotice => t.(pc := EnterWait, status := Paused)
    case EnterWait => t.(pc := if t.event == Some(false) then Waiting(false) else Woken)
    case Waiting(notified) => if notified then t.(pc := Woken) else t
    case Woken => t.(pc := ResumedNotice, status := Transcribing)
    case ResumedNotice => t.(pc := Append, status := Transcribing)
  }

  /** An `except` clause; it may itself raise. */
  function ClauseStep(t: Task, choice: Choice): Task
    requires t.pc.Handling?
  {
    var kind, stage := t.pc.kind, t.pc.stage;
    if choice.Fail? then
      t.(pc := Unwinding(Some(kind)), log := if stage.Clean? then t.log else t.log.(handlerRaised := true))
    else
      match stage
      case Mark => t.(pc := Handling(kind, Emit), status := Verdict(kind))
      case Emit => t.(pc := Handling(kind, Record), status := Verdict(kind))
      case Record => t.(pc := Handling(kind, Clean), log := Recorded(t.log, kind))
      case Clean => t.(pc := Unwinding(Some(kind)))
  }

  // ---------------------------------------------------------------- the handlers

  /** `pause_event.set()`: a waiting thread is notified, whatever happens to the event afterwards. */
  function SetEvent(t: Task): Task {
    if t.event.None? then t else t.(event := Some(true), pc := if t.pc == Waiting(false) then Waiting(true) else t.pc)
  }

  function Inject(t: Task, kind: Abort, lands: bool): Task {
    if lands && t.thread && Interruptible(t.pc) then t.(pending := Some(kind), landed := true) else t
  }

  function Start(t: Task, r: Request): Task {
    if !t.handler.Idle? then t
    else
      match r
      case CancelRequest => if Final(t.status) || t.cancel then t else t.(handler := CancelFlag)
      case PauseRequest => if t.status.Transcribing? && t.event == Some(true) then t.(handler := PauseClear) else t
      case ResumeRequest => SetEvent(t)
  }

  /** The next step of the handler that is at work on the task. */
  function Continue(t: Task, lands: bool): Task {
    match t.handler
    case Idle => t
    case CancelFlag => t.(handler := CancelSet, cancel := true)
    case CancelSet => SetEvent(t).(handler := CancelInject)
    case CancelInject => Inject(t, Cancel, lands).(handler := Idle)
    case PauseClear => t.(handler := Idle, event := Some(false), clearedLate := t.clearedLate || t.cancel)
    case AbortCheck => t.(handler := if Final(t.status) then Idle else AbortFlag)
    case AbortFlag => t.(handler := AbortSet, cancel := true)
    case AbortSet => SetEvent(t).(handler := AbortInject)
    case AbortInject => Inject(t, Critical, lands).(handler := AbortEmit)
    case AbortEmit => t.(handler := Idle, status := Error)
  }

  /** One step on one task. */
  function Moved(critical: bool, t: Task, m: Move): Task {
    match m
    case Stay => t
    case MustMake => if t.pc.Submitted? then t.(pc := MakingSemaphore) else t
    case Made => if t.pc.MakingSemaphore? then t.(pc := Submitted) else t
    case Looked(sem) => if t.pc.Submitted? then t.(pc := Awaiting, sem := sem) else t
    case Acquired => if t.pc.Awaiting? then t.(pc := Prologue) else t
    case Released => if t.pc.Releasing? then t.(pc := Ended(t.pc.verdict)) else t
    case Go(choice) => Thread(critical, t, choice)
    case Ask(r) => Start(t, r)
    case Serve(lands) => Continue(t, lands)
    case AbortBegins => if t.handler.Idle? then t.(handler := AbortCheck) else t
  }

  // ---------------------------------------------------------------- what every step keeps

  function Bit(b: bool): nat {
    if b then 1 else 0
  }

  predicate BeforeTry(pc: Pc) {
    pc.Submitted? || pc.MakingSemaphore? || pc.Awaiting? || pc.Prologue?
  }

  predicate Over(pc: Pc) {
    pc.Unwinding? || pc.Releasing? || pc.Ended?
  }

  /** What has been recorded so far, by where the thread is. */
  predicate LogOk(pc: Pc, l: Log) {
    if Over(pc) then Settled(l, pc.verdict)
    else if pc.Handling? then
      && l.completed == Bit(l.tailRaised) && !l.handlerRaised
      && l.cancelled == Bit(pc.stage.Clean? && pc.kind.Cancel?) && l.failed == Bit(pc.stage.Clean? && !pc.kind.Cancel?)
      && (l.tailRaised ==> pc.kind.Failure?)
    else l == Log(Bit(pc.Tail?), 0, 0, false, false)
  }

  predicate Settled(l: Log, v: Option<Abort>) {
    && l.completed == (if v.None? then 1 else Bit(l.tailRaised))
    && l.cancelled == Bit(v == Some(Cancel) && !l.handlerRaised)
    && l.failed == Bit(v.Some? && !v.value.Cancel? && !l.handlerRaised)
    && (v.None? ==> !l.tailRaised && !l.handlerRaised)
    && (l.tailRaised ==> v == Some(Failure))
  }

  /** Which statuses a thread that is past the work can show: its own, or the error of a late abort. */
  predicate StatusOk(pc: Pc, status: Status, l: Log) {
    if Over(pc) then Shown(status, pc.verdict, l)
    else if pc.Handling? then
      (!pc.stage.Mark? ==> status == Verdict(pc.kind) || status.Error?) && (l.completed == 0 ==> !status.Done?)
    else if pc.EmitDone? || pc.RecordDone? || pc.Tail? then status.Done? || status.Error?
    else !status.Done? && !status.Cancelled?
  }

  predicate Shown(status: Status, v: Option<Abort>, l: Log) {
    if v.None? then status.Done? || status.Error?
    else (!l.handlerRaised ==> status == Verdict(v.value) || status.Error?) && (l.completed == 0 ==> !status.Done?)
  }

  /** The pause event, the cancel flag and the injection. */
  predicate SignalsOk(t: Task) {
    && (BeforeTry(t.pc) ==> t.event.None? && !t.thread && t.pending.None? && !t.clearedLate && !t.landed)
    && (!BeforeTry(t.pc) ==> t.event.Some?)
    && (t.pending.Some? ==> Interruptible(t.pc) && t.pc != Waiting(false))
    && (t.landed && Interruptible(t.pc) ==> t.pending.Some?)
    && (t.pc == Waiting(false) ==> t.event == Some(false))
    && (t.cancel && t.event == Some(false) ==> t.clearedLate || t.handler.CancelSet? || t.handler.AbortSet?)
    && (t.handler.CancelInject? || t.handler.AbortInject? ==> t.event != Some(false))
    && (t.handler.PauseClear? ==> t.event.Some?)
    && (t.thread <==> !BeforeTry(t.pc) && !t.pc.Releasing? && !t.pc.Ended?)
  }

  predicate TaskOk(t: Task) {
    LogOk(t.pc, t.log) && StatusOk(t.pc, t.status, t.log) && SignalsOk(t)
  }

  /** The thread moves on inside the `try` and touches nothing but its status and its segments. */
  predicate Ahead(t: Task, u: Task) {
    && u == t.(pc := u.pc, status := u.status, segments := u.segments)
    && Interruptible(u.pc)
    && (u.status == t.status || !Final(u.status))
    && (u.pc == Waiting(false) ==> t.event == Some(false))
  }

  predicate Raised(t: Task, u: Task) {
    u.pc.Handling? && u.pc.stage.Mark? && u == t.(pc := u.pc)
  }

  lemma SegmentMoves(critical: bool, t: Task, choice: Choice)
    requires InLoop(t.pc) && !InPause(t.pc)
    ensures var u := SegmentStep(critical, t, choice); Ahead(t, u) || Raised(t, u)
  {
  }

  lemma PauseMoves(t: Task)
    requires InPause(t.pc)
    ensures PauseStep(t) == t || Ahead(t, PauseStep(t))
  {
  }

  lemma PhaseMoves(critical: bool, t: Task, choice: Choice)
    requires InPhase(t.pc)
    ensures var u := PhaseStep(critical, t, choice); Ahead(t, u) || Raised(t, u)
  {
  }

  lemma CheckMoves(critical: bool, t: Task)
    requires IsCheck(t.pc)
    ensures var u := CheckStep(critical, t); Ahead(t, u) || Raised(t, u)
  {
  }

  lemma AheadKeeps(t: Task, u: Task)
    requires TaskOk(t) && Interruptible(t.pc) && t.pending.None? && Ahead(t, u)
    ensures TaskOk(u)
  {
  }

  lemma RaiseKeeps(t: Task, kind: Abort)
    requires TaskOk(t) && Interruptible(t.pc)
    ensures TaskOk(Raise(t, kind).(pending := None))
  {
  }

  lemma ClauseLog(t: Task, choice: Choice)
    requires TaskOk(t) && t.pc.Handling?
    ensures var u := ClauseStep(t, choice); LogOk(u.pc, u.log)
  {
    hide SignalsOk, StatusOk;
  }

  lemma ClauseStatus(t: Task, choice: Choice)
    requires TaskOk(t) && t.pc.Handling?
    ensures var u := ClauseStep(t, choice); StatusOk(u.pc, u.status, u.log)
  {
    hide SignalsOk;
  }

  lemma ClauseSignals(t: Task, choice: Choice)
    requires TaskOk(t) && t.pc.Handling?
    ensures SignalsOk(ClauseStep(t, choice))
  {
    hide LogOk, StatusOk;
  }

  lemma StartUpKeeps(t: Task, choice: Choice)
    requires TaskOk(t) && t.pc.Prologue?
    ensures TaskOk(EdgeStep(t, choice))
  {
  }

  predicate AtEdge(pc: Pc) {
    pc.MarkDone? || pc.EmitDone? || pc.RecordDone? || pc.Tail? || pc.Unwinding?
  }

  lemma EdgeLog(t: Task, choice: Choice)
    requires TaskOk(t) && AtEdge(t.pc)
    ensures var u := EdgeStep(t, choice); LogOk(u.pc, u.log)
  {
    hide SignalsOk, StatusOk;
  }

  lemma EdgeStatus(t: Task, choice: Choice)
    requires TaskOk(t) && AtEdge(t.pc)
    ensures var u := EdgeStep(t, choice); StatusOk(u.pc, u.status, u.log)
  {
    hide SignalsOk;
  }

  lemma EdgeSignals(t: Task, choice: Choice)
    requires TaskOk(t) && AtEdge(t.pc) && t.pending.None?
    ensures SignalsOk(EdgeStep(t, choice))
  {
    hide LogOk, StatusOk;
  }

  lemma InsideKeeps(critical: bool, t: Task, choice: Choice)
    requires TaskOk(t) && t.pending.None? && (InLoop(t.pc) || IsCheck(t.pc) || InPhase(t.pc))
    ensures TaskOk(Thread(critical, t, choice))
  {
    var u := Thread(critical, t, choice);
    if InPause(t.pc) {
      PauseMoves(t);
    } else if InLoop(t.pc) {
      SegmentMoves(critical, t, choice);
    } else if IsCheck(t.pc) {
      CheckMoves(critical, t);
    } else {
      PhaseMoves(critical, t, choice);
    }
    if Raised(t, u) {
      RaiseKeeps(t, u.pc.kind);
    } else if u != t {
      AheadKeeps(t, u);
    }
  }

  lemma ThreadKeeps(critical: bool, t: Task, choice: Choice)
    requires TaskOk(t)
    ensures TaskOk(Thread(critical, t, choice))
  {
    if t.pending.Some? && Interruptible(t.pc) && t.pc != Waiting(false) {
      RaiseKeeps(t, t.pending.value);
    } else if InLoop(t.pc) || IsCheck(t.pc) || InPhase(t.pc) {
      InsideKeeps(critical, t, choice);
    } else if t.pc.Handling? {
      ClauseLog(t, choice);
      ClauseStatus(t, choice);
      ClauseSignals(t, choice);
    } else if t.pc.Prologue? {
      StartUpKeeps(t, choice);
    } else if AtEdge(t.pc) {
      EdgeLog(t, choice);
      EdgeStatus(t, choice);
      EdgeSignals(t, choice);
    }
  }

  lemma SetKeeps(t: Task)
    requires TaskOk(t)
    ensures TaskOk(SetEvent(t)) && SetEvent(t).event != Some(false)
  {
  }

  lemma InjectKeeps(t: Task, kind: Abort, lands: bool)
    requires TaskOk(t) && t.event != Some(false)
    ensures TaskOk(Inject(t, kind, lands)) && Inject(t, kind, lands).event == t.event
  {
  }

  lemma PauseKeeps(t: Task)
    requires TaskOk(t) && t.handler.PauseClear?
    ensures TaskOk(Continue(t, false))
  {
  }

  lemma FlagKeeps(t: Task)
    requires TaskOk(t)
    ensures TaskOk(t.(handler := CancelSet, cancel := true)) && TaskOk(t.(handler := AbortSet, cancel := true))
  {
  }

  lemma EmitKeeps(t: Task)
    requires TaskOk(t) && t.handler.AbortEmit?
    ensures TaskOk(t.(handler := Idle, status := Error))
  {
  }

  lemma AbortKeeps(t: Task, lands: bool)
    requires TaskOk(t)
    requires t.handler.AbortCheck? || t.handler.AbortFlag? || t.handler.AbortSet? || t.handler.AbortInject?
             || t.handler.AbortEmit?
    ensures TaskOk(Continue(t, lands))
  {
    match t.handler
    case AbortCheck =>
    case AbortFlag => FlagKeeps(t);
    case AbortSet => SetKeeps(t);
    case AbortInject => InjectKeeps(t, Critical, lands);
    case AbortEmit => EmitKeeps(t);
  }

  lemma ServeKeeps(t: Task, lands: bool)
    requires TaskOk(t)
    ensures TaskOk(Continue(t, lands))
  {
    match t.handler
    case Idle =>
    case CancelFlag => FlagKeeps(t);
    case CancelSet => SetKeeps(t);
    case CancelInject => InjectKeeps(t, Cancel, lands);
    case PauseClear => PauseKeeps(t);
    case _ => AbortKeeps(t, lands);
  }

  lemma AskKeeps(t: Task, r: Request)
    requires TaskOk(t)
    ensures TaskOk(Start(t, r))
  {
    SetKeeps(t);
  }

  /** Every step on a task keeps its record in order. */
  lemma TaskKept(critical: bool, t: Task, m: Move)
    requires TaskOk(t)
    ensures TaskOk(Moved(critical, t, m))
  {
    match m
    case Go(choice) => ThreadKeeps(critical, t, choice);
    case Ask(r) => AskKeeps(t, r);
    case Serve(lands) => ServeKeeps(t, lands);
    case _ =>
  }

  /** The handlers move the thread in one way only: they wake it. */
  predicate OnlyWoken(t: Task, u: Task) {
    (u.pc == t.pc || (t.pc == Waiting(false) && u.pc == Waiting(true))) && u.log == t.log && u.segments == t.segments
  }

  lemma SetOnlyWakes(t: Task)
    ensures OnlyWoken(t, SetEvent(t))
  {
  }

  lemma InjectWakesNone(t: Task, kind: Abort, lands: bool)
    ensures OnlyWoken(t, Inject(t, kind, lands))
  {
  }

  lemma ServeOnlyWakes(t: Task, lands: bool)
    ensures OnlyWoken(t, Continue(t, lands))
  {
    match t.handler
    case CancelSet => SetOnlyWakes(t);
    case AbortSet => SetOnlyWakes(t);
    case CancelInject => InjectWakesNone(t, Cancel, lands);
    case AbortInject => InjectWakesNone(t, Critical, lands);
    case _ =>
  }

  lemma HandlersOnlyWake(critical: bool, t: Task, m: Move)
    requires m.Ask? || m.Serve? || m.AbortBegins?
    ensures OnlyWoken(t, Moved(critical, t, m))
  {
    if m.Serve? {
      ServeOnlyWakes(t, m.lands);
    } else if m.Ask? {
      AskOnlyWakes(t, m.request);
    }
  }

  lemma AskOnlyWakes(t: Task, r: Request)
    ensures OnlyWoken(t, Start(t, r))
  {
  }

  lemma HandlersKeepSem(critical: bool, t: Task, m: Move)
    requires m.Ask? || m.Serve? || m.AbortBegins?
    ensures Moved(critical, t, m).sem == t.sem
  {
  }

  predicate Unstarted(pc: Pc) {
    pc.Submitted? || pc.MakingSemaphore? || pc.Awaiting?
  }

  lemma ClauseKeepsSem(t: Task, choice: Choice)
    requires t.pc.Handling?
    ensures var u := ClauseStep(t, choice); u.sem == t.sem && !Unstarted(u.pc) && !u.pc.Ended?
  {
  }

  lemma EdgeKeepsSem(t: Task, choice: Choice)
    ensures var u := EdgeStep(t, choice);
            && u.sem == t.sem
            && (if Unstarted(t.pc) || t.pc.Ended? then u.pc == t.pc else !Unstarted(u.pc) && !u.pc.Ended?)
  {
  }

  lemma InsideKeepsSem(critical: bool, t: Task, choice: Choice)
    requires InLoop(t.pc) || IsCheck(t.pc) || InPhase(t.pc)
    ensures var u := Thread(critical, t, choice); u.sem == t.sem && (Interruptible(u.pc) || u.pc.Handling?)
  {
    if t.pending.Some? && Interruptible(t.pc) && t.pc != Waiting(false) {
    } else if InPause(t.pc) {
      PauseMoves(t);
    } else if InLoop(t.pc) {
      SegmentMoves(critical, t, choice);
    } else if IsCheck(t.pc) {
      CheckMoves(critical, t);
    } else {
      PhaseMoves(critical, t, choice);
    }
  }

  /** The thread's own steps keep its semaphore and take place between the acquisition and the release. */
  lemma ThreadKeepsSem(critical: bool, t: Task, choice: Choice)
    ensures var u := Thread(critical, t, choice);
            && u.sem == t.sem
            && (if Unstarted(t.pc) || t.pc.Ended? then u.pc == t.pc else !Unstarted(u.pc) && !u.pc.Ended?)
  {
    hide PauseStep, SegmentStep, CheckStep, PhaseStep, ClauseStep, EdgeStep;
    if InLoop(t.pc) || IsCheck(t.pc) || InPhase(t.pc) {
      InsideKeepsSem(critical, t, choice);
    } else if t.pc.Handling? {
      ClauseKeepsSem(t, choice);
    } else {
      EdgeKeepsSem(t, choice);
    }
  }

  lemma ClauseNeverBack(t: Task, choice: Choice)
    requires t.pc.Handling?
    ensures !BeforeTry(ClauseStep(t, choice).pc)
  {
  }

  lemma EdgeNeverBack(t: Task, choice: Choice)
    requires !BeforeTry(t.pc)
    ensures !BeforeTry(EdgeStep(t, choice).pc)
  {
  }

  lemma ThreadNeverBack(critical: bool, t: Task, choice: Choice)
    requires !BeforeTry(t.pc)
    ensures !BeforeTry(Thread(critical, t, choice).pc)
  {
    if InLoop(t.pc) || IsCheck(t.pc) || InPhase(t.pc) {
      InsideKeepsSem(critical, t, choice);
    } else if t.pc.Handling? {
      ClauseNeverBack(t, choice);
    } else {
      EdgeNeverBack(t, choice);
    }
  }

  /** A thread that is past its prologue never comes back to it. */
  lemma NeverBack(critical: bool, t: Task, m: Move)
    requires !BeforeTry(t.pc)
    ensures !BeforeTry(Moved(critical, t, m).pc)
  {
    if m.Ask? || m.Serve? || m.AbortBegins? {
      HandlersOnlyWake(critical, t, m);
    } else if m.Go? {
      ThreadNeverBack(critical, t, m.choice);
    }
  }

  predicate SameMarks(t: Task, u: Task) {
    u.clearedLate == t.clearedLate && u.landed == t.landed
  }

  lemma ClauseLeavesMarks(t: Task, choice: Choice)
    requires t.pc.Handling?
    ensures SameMarks(t, ClauseStep(t, choice))
  {
  }

  lemma EdgeLeavesMarks(t: Task, choice: Choice)
    ensures SameMarks(t, EdgeStep(t, choice))
  {
  }

  lemma ThreadLeavesMarks(critical: bool, t: Task, choice: Choice)
    ensures SameMarks(t, Thread(critical, t, choice))
  {
    if t.pending.Some? && Interruptible(t.pc) && t.pc != Waiting(false) {
    } else if InPause(t.pc) {
      PauseMoves(t);
    } else if InLoop(t.pc) {
      SegmentMoves(critical, t, choice);
    } else if IsCheck(t.pc) {
      CheckMoves(critical, t);
    } else if InPhase(t.pc) {
      PhaseMoves(critical, t, choice);
    } else if t.pc.Handling? {
      ClauseLeavesMarks(t, choice);
    } else {
      EdgeLeavesMarks(t, choice);
    }
  }

  predicate ClearsLate(t: Task, m: Move) {
    m.Serve? && t.handler.PauseClear? && t.cancel
  }

  predicate Lands(t: Task, m: Move) {
    m.Serve? && m.lands && (t.handler.CancelInject? || t.handler.AbortInject?) && t.thread && Interruptible(t.pc)
  }

  /** What the two marks record. */
  lemma MarksOfMove(critical: bool, t: Task, m: Move)
    ensures var u := Moved(critical, t, m);
            u.clearedLate == (t.clearedLate || ClearsLate(t, m)) && u.landed == (t.landed || Lands(t, m))
  {
    hide Thread;
    if m.Go? {
      ThreadLeavesMarks(critical, t, m.choice);
    }
  }

  // ---------------------------------------------------------------- cancelled in time

  /** After the prologue and not past the last cancel check. */
  predicate InWindow(pc: Pc) {
    match pc
    case Enter(p) => !p.Finalize?
    case Announce(p) => !p.Finalize?
    case Work(p) => !p.Finalize?
    case CheckCancel(_) => true
    case CheckCritical(next) => !next.Finalize?
    case _ => InLoop(pc)
  }

  predicate Aborting(t: Task) {
    (t.pc.Handling? || (Over(t.pc) && t.pc.verdict.Some?)) && t.log.completed == 0
  }

  /** Flagged before the last checkpoint, or on the way out without having completed. */
  predicate Doomed(t: Task) {
    (t.cancel && InWindow(t.pc)) || Aborting(t)
  }

  lemma DoomedSegment(critical: bool, t: Task, choice: Choice)
    requires TaskOk(t) && t.cancel && InLoop(t.pc) && !InPause(t.pc)
    ensures Doomed(SegmentStep(critical, t, choice))
  {
  }

  lemma DoomedPause(t: Task)
    requires t.cancel && InPause(t.pc)
    ensures Doomed(PauseStep(t))
  {
  }

  lemma DoomedPhase(critical: bool, t: Task, choice: Choice)
    requires TaskOk(t) && t.cancel && InPhase(t.pc) && InWindow(t.pc)
    ensures Doomed(PhaseStep(critical, t, choice))
  {
  }

  lemma DoomedCheck(critical: bool, t: Task)
    requires TaskOk(t) && t.cancel && IsCheck(t.pc) && InWindow(t.pc)
    ensures Doomed(CheckStep(critical, t))
  {
  }

  lemma DoomedRest(t: Task, choice: Choice)
    requires Aborting(t)
    ensures Doomed(if t.pc.Handling? then ClauseStep(t, choice) else EdgeStep(t, choice))
  {
  }

  lemma DoomedThread(critical: bool, t: Task, choice: Choice)
    requires TaskOk(t) && Doomed(t)
    ensures Doomed(Thread(critical, t, choice))
  {
    if t.pending.Some? && Interruptible(t.pc) && t.pc != Waiting(false) {
    } else if InPause(t.pc) {
      DoomedPause(t);
    } else if InLoop(t.pc) {
      DoomedSegment(critical, t, choice);
    } else if IsCheck(t.pc) {
      DoomedCheck(critical, t);
    } else if InPhase(t.pc) {
      DoomedPhase(critical, t, choice);
    } else {
      DoomedRest(t, choice);
    }
  }

  lemma HandlersCancel(t: Task, r: Request, lands: bool)
    ensures t.cancel ==> Start(t, r).cancel && Continue(t, lands).cancel
  {
  }

  lemma DoomedStays(critical: bool, t: Task, m: Move)
    requires TaskOk(t) && Doomed(t)
    ensures Doomed(Moved(critical, t, m))
  {
    if m.Go? {
      DoomedThread(critical, t, m.choice);
    } else if m.Ask? || m.Serve? || m.AbortBegins? {
      HandlersOnlyWake(critical, t, m);
      HandlersCancel(t, if m.Ask? then m.request else CancelRequest, m.Serve? && m.lands);
    }
  }

  /** How many more steps a doomed thread can take, at most. */
  function Rank(pc: Pc): nat {
    match pc
    case Ended(_) => 0
    case Releasing(_) => 1
    case Unwinding(_) => 2
    case Handling(_, stage) => if stage.Clean? then 3 else if stage.Record? then 4 else if stage.Emit? then 5 else 6
    case CheckCancel(_) => 7
    case Work(p) => PhaseRank(p)
    case Announce(p) => PhaseRank(p) + 1
    case Enter(p) => PhaseRank(p) + 2
    case CheckCritical(p) => PhaseRank(p) + 3
    case SegmentCancel => 7
    case SegmentCritical => 8
    case NextSegment => 20
    case Append => 21
    case ResumedNotice => 22
    case Woken => 23
    case Waiting(_) => 24
    case EnterWait => 25
    case PausedNotice => 26
    case Pausing => 27
    case SegmentPause => 28
    case _ => 0
  }

  function PhaseRank(p: Phase): nat {
    match p
    case Transcribe => 20
    case Diarize => 17
    case BreakLines => 14
    case Translate => 11
    case _ => 8
  }

  /** The thread waits in its pause and has no step of its own to take until somebody sets the event. */
  predicate Blocked(t: Task) {
    t.pc == Waiting(false)
  }

  lemma RankOfSegment(critical: bool, t: Task, choice: Choice)
    requires t.cancel && InLoop(t.pc) && !InPause(t.pc)
    ensures Rank(SegmentStep(critical, t, choice).pc) < Rank(t.pc)
  {
  }

  lemma RankOfPause(t: Task)
    requires InPause(t.pc) && !Blocked(t)
    ensures Rank(PauseStep(t).pc) < Rank(t.pc)
  {
  }

  lemma RankAfter(p: Phase)
    requires !p.Finalize?
    ensures Rank(After(p)) < PhaseRank(p)
  {
  }

  lemma RankOfPhase(critical: bool, t: Task, choice: Choice)
    requires InPhase(t.pc) && InWindow(t.pc)
    ensures Rank(PhaseStep(critical, t, choice).pc) < Rank(t.pc)
  {
    RankAfter(t.pc.phase);
  }

  lemma RankOfCheck(critical: bool, t: Task)
    requires t.cancel && IsCheck(t.pc) && InWindow(t.pc)
    ensures Rank(CheckStep(critical, t).pc) < Rank(t.pc)
  {
  }

  lemma RankOfClause(t: Task, choice: Choice)
    requires t.pc.Handling?
    ensures Rank(ClauseStep(t, choice).pc) < Rank(t.pc)
  {
  }

  lemma RankOfThread(critical: bool, t: Task, choice: Choice)
    requires TaskOk(t) && Doomed(t) && !Blocked(t) && !t.pc.Releasing? && !t.pc.Ended?
    ensures Rank(Thread(critical, t, choice).pc) < Rank(t.pc)
  {
    if t.pending.Some? && Interruptible(t.pc) {
      assert Rank(t.pc) > 6;
    } else if InPause(t.pc) {
      RankOfPause(t);
    } else if InLoop(t.pc) {
      RankOfSegment(critical, t, choice);
    } else if IsCheck(t.pc) {
      RankOfCheck(critical, t);
    } else if InPhase(t.pc) {
      RankOfPhase(critical, t, choice);
    } else if t.pc.Handling? {
      RankOfClause(t, choice);
    } else {
      assert t.pc.Unwinding?;
    }
  }

  /** A doomed thread that is neither blocked nor waiting to release comes closer to its end with every
      step, and no other step takes it further away. */
  lemma RankDrops(critical: bool, t: Task, m: Move)
    requires TaskOk(t) && Doomed(t)
    ensures Rank(Moved(critical, t, m).pc) <= Rank(t.pc)
    ensures Moved(critical, t, m).pc != t.pc && (m.Go? || m.Released?) ==> Rank(Moved(critical, t, m).pc) < Rank(t.pc)
    ensures m.Go? && !Blocked(t) && !t.pc.Releasing? && !t.pc.Ended? ==> Moved(critical, t, m).pc != t.pc
  {
    if m.Go? && !Blocked(t) && !t.pc.Releasing? && !t.pc.Ended? {
      RankOfThread(critical, t, m.choice);
    } else {
      RankElsewhere(critical, t, m);
    }
  }

  lemma RankElsewhere(critical: bool, t: Task, m: Move)
    requires TaskOk(t) && Doomed(t)
    requires m.Go? ==> Blocked(t) || t.pc.Releasing? || t.pc.Ended?
    ensures Rank(Moved(critical, t, m).pc) <= Rank(t.pc)
    ensures m.Go? ==> Moved(critical, t, m).pc == t.pc
    ensures m.Released? && Moved(critical, t, m).pc != t.pc ==> Rank(Moved(critical, t, m).pc) < Rank(t.pc)
  {
    if m.Ask? || m.Serve? || m.AbortBegins? {
      HandlersOnlyWake(critical, t, m);
    } else if m.Go? {
      assert Thread(critical, t, m.choice).pc == t.pc;
    }
  }

  /** A cancelled task is blocked in its pause only if a pause request cleared the event after the cancel
      request and no injection landed. */
  lemma WhenBlocked(t: Task)
    requires TaskOk(t) && t.cancel && t.handler.Idle? && Blocked(t)
    ensures t.clearedLate && !t.landed
  {
  }

  // ---------------------------------------------------------------- pausing

  /** Past the pause check, with an append to come. */
  predicate Passing(pc: Pc) {
    pc.Append? || pc.ResumedNotice? || pc.Woken? || pc == Waiting(true)
  }

  function Committed(t: Task): nat {
    t.segments + Bit(Passing(t.pc))
  }

  lemma SegmentWhilePaused(critical: bool, t: Task, choice: Choice)
    requires InLoop(t.pc) && !InPause(t.pc) && t.event == Some(false)
    ensures Committed(SegmentStep(critical, t, choice)) <= Committed(t)
  {
  }

  lemma PauseWhilePaused(t: Task)
    requires InPause(t.pc) && t.event == Some(false)
    ensures Committed(PauseStep(t)) <= Committed(t)
  {
  }

  lemma PhaseAppendsNothing(critical: bool, t: Task, choice: Choice)
    requires InPhase(t.pc)
    ensures var u := PhaseStep(critical, t, choice); !Passing(u.pc) && u.segments == t.segments
  {
  }

  lemma RestAppendsNothing(t: Task, choice: Choice)
    requires !InPhase(t.pc) && !IsCheck(t.pc) && !InLoop(t.pc)
    ensures var u := if t.pc.Handling? then ClauseStep(t, choice) else EdgeStep(t, choice);
            !Passing(u.pc) && u.segments == t.segments
  {
  }

  lemma AskingWakes(t: Task, r: Request)
    ensures Start(t, r).event == Some(false) ==> Start(t, r).pc == t.pc
  {
  }

  lemma ServingWakes(t: Task, lands: bool)
    ensures Continue(t, lands).event == Some(false) ==> Continue(t, lands).pc == t.pc
  {
    if t.handler.CancelSet? || t.handler.AbortSet? {
      assert SetEvent(t).event != Some(false);
    }
  }

  /** While the event stays cleared, no step commits the thread to another segment. */
  lemma PausedStays(critical: bool, t: Task, m: Move)
    requires TaskOk(t) && t.event == Some(false) && Moved(critical, t, m).event == Some(false)
    ensures Committed(Moved(critical, t, m)) <= Committed(t)
  {
    match m
    case Go(choice) =>
      if t.pending.Some? && Interruptible(t.pc) && t.pc != Waiting(false) {
      } else if InPause(t.pc) {
        PauseWhilePaused(t);
      } else if InLoop(t.pc) {
        SegmentWhilePaused(critical, t, choice);
      } else if IsCheck(t.pc) {
      } else if InPhase(t.pc) {
        PhaseAppendsNothing(critical, t, choice);
      } else {
        RestAppendsNothing(t, choice);
      }
    case Ask(r) =>
      HandlersOnlyWake(critical, t, m);
      AskingWakes(t, r);
    case Serve(lands) =>
      HandlersOnlyWake(critical, t, m);
      ServingWakes(t, lands);
    case _ =>
  }

  // ---------------------------------------------------------------- the end

  /** The run is over and no handler is about to write to the record. */
  predicate AtRest(t: Task) {
    t.pc.Ended? && Final(t.status) && (t.handler.Idle? || t.handler.AbortCheck?)
  }

  lemma RestStays(critical: bool, t: Task, m: Move)
    requires TaskOk(t) && AtRest(t)
    ensures var u := Moved(critical, t, m);
            AtRest(u) && u.status == t.status && u.log == t.log && u.segments == t.segments
  {
  }

  /** What a run that is over shows and has recorded. */
  predicate Accounted(t: Task, v: Option<Abort>) {
    var l := t.log;
    && l.completed + l.cancelled + l.failed == 1 + Bit(l.tailRaised) - Bit(l.handlerRaised)
    && (l.completed == 1 <==> v.None? || l.tailRaised)
    && (l.cancelled == 1 <==> v == Some(Cancel) && !l.handlerRaised)
    && (l.failed == 1 <==> (v == Some(Critical) || v == Some(Failure)) && !l.handlerRaised)
    && (!l.handlerRaised ==> t.status.Error? || t.status == if v.None? then Done else Verdict(v.value))
  }

  lemma EndIsAccounted(t: Task)
    requires TaskOk(t) && t.pc.Ended?
    ensures Accounted(t, t.pc.verdict)
  {
    var v, l := t.pc.verdict, t.log;
    assert Settled(l, v) && Shown(t.status, v, l);
    if v.Some? {
      assert v == Some(v.value);
      assert v.value.Cancel? || v.value.Critical? || v.value.Failure?;
    }
  }

  predicate Finalizing(pc: Pc) {
    ((pc.Enter? || pc.Announce? || pc.Work?) && pc.phase.Finalize?)
    || pc.MarkDone? || pc.EmitDone? || pc.RecordDone? || pc.Tail?
  }

  /** What a doomed task is kept from, and how it ends. */
  predicate NeverDone(t: Task) {
    && !Finalizing(t.pc) && !t.status.Done? && t.log.completed == 0
    && (t.pc.Ended? ==> t.pc.verdict.Some?)
    && (t.pc.Ended? && !t.log.handlerRaised ==> t.status.Cancelled? || t.status.Error?)
  }

  lemma DoomedInWindow(t: Task)
    requires TaskOk(t) && InWindow(t.pc)
    ensures NeverDone(t)
  {
  }

  lemma DoomedIsNeverDone(t: Task)
    requires TaskOk(t) && Doomed(t)
    ensures NeverDone(t)
  {
    if t.cancel && InWindow(t.pc) {
      DoomedInWindow(t);
    }
  }
}
