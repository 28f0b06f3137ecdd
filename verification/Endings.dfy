/**
 What the status of a task tells: the pipeline writes the outcome of a run, and the force-abort of
 app/state.py writes "error" without asking whether the run has ended meanwhile.

 `EndTells` says which status a run ends with, and `ErrorStaysIff` from where on an "error" status is final.
 Closed runs that reach both exceptions are in `Races`.
 */
module Endings {
  import opened PyText
  import opened Lifecycle
  import opened Pipelines
  import opened Drives
  import opened Progress

  // ---------------------------------------------------------------- the status at the end

  /** Behind the last write of its own outcome. */
  predicate PastItsEnd(pc: Pc) {
    Over(pc) || pc.RecordDone? || pc.Tail? || (pc.Handling? && (pc.stage.Record? || pc.stage.Clean?))
  }

  /** The outcome that such a thread has written. */
  function Own(pc: Pc): Status {
    if Over(pc) then if pc.verdict.None? then Done else Verdict(pc.verdict.value)
    else if pc.Handling? then Verdict(pc.kind)
    else Done
  }

  predicate AbortsLate(t: Task, m: Move) {
    m.Serve? && t.handler.AbortEmit? && PastItsEnd(t.pc)
  }

  /** In the run, a force-abort emitted its event when the thread had written its outcome. */
  predicate LateAbort(actions: seq<Action>, i: nat) {
    actions != []
    && (var init, a := actions[..|actions| - 1], actions[|actions| - 1];
        LateAbort(init, i) || (i < |Run(init).tasks| && AbortsLate(Run(init).tasks[i], MoveOf(Run(init), a, i))))
  }

  /** What the status tells of late aborts. */
  predicate Tells(pc: Pc, status: Status, l: Log, late: bool) {
    if PastItsEnd(pc) then !l.handlerRaised ==> status == if late then Error else Own(pc)
    else !l.tailRaised ==> !late
  }

  lemma TellsInClause(t: Task, choice: Choice, late: bool)
    requires TaskOk(t) && t.pc.Handling? && Tells(t.pc, t.status, t.log, late)
    ensures var u := ClauseStep(t, choice); Tells(u.pc, u.status, u.log, late)
  {
  }

  lemma TellsAtEdge(t: Task, choice: Choice, late: bool)
    requires TaskOk(t) && AtEdge(t.pc) && Tells(t.pc, t.status, t.log, late)
    ensures var u := EdgeStep(t, choice); Tells(u.pc, u.status, u.log, late)
  {
  }

  lemma TellsInside(critical: bool, t: Task, choice: Choice, late: bool)
    requires TaskOk(t) && Interruptible(t.pc) && !t.pc.MarkDone? && !late
    ensures var u := Thread(critical, t, choice); Tells(u.pc, u.status, u.log, late)
  {
    InsideIsNotPast(critical, t, choice);
  }

  lemma NotPast(t: Task, u: Task)
    requires Interruptible(t.pc) && (u == t || Ahead(t, u) || Lifecycle.Raised(t, u))
    ensures !PastItsEnd(u.pc)
  {
  }

  lemma InsideIsNotPast(critical: bool, t: Task, choice: Choice)
    requires Interruptible(t.pc) && !t.pc.MarkDone?
    ensures !PastItsEnd(Thread(critical, t, choice).pc)
  {
    if t.pending.Some? && t.pc != Waiting(false) {
      assert Thread(critical, t, choice).pc == Handling(t.pending.value, Mark);
    } else {
      InsideGoes(critical, t, choice);
      NotPast(t, Thread(critical, t, choice));
    }
  }

  lemma InsideGoes(critical: bool, t: Task, choice: Choice)
    requires InLoop(t.pc) || IsCheck(t.pc) || InPhase(t.pc)
    requires t.pending.None? || t.pc == Waiting(false)
    ensures var u := Thread(critical, t, choice); u == t || Ahead(t, u) || Lifecycle.Raised(t, u)
  {
    if InPause(t.pc) {
      PauseMoves(t);
    } else if InLoop(t.pc) {
      SegmentMoves(critical, t, choice);
    } else if IsCheck(t.pc) {
      CheckMoves(critical, t);
    } else {
      PhaseMoves(critical, t, choice);
    }
  }

  /** A delivered exception at the last step, and the places where the thread does not move by itself. */
  lemma TellsElsewhere(critical: bool, t: Task, choice: Choice, late: bool)
    requires TaskOk(t) && Tells(t.pc, t.status, t.log, late)
    requires !t.pc.Handling? && (!Interruptible(t.pc) || t.pc.MarkDone?) && (AtEdge(t.pc) ==> t.pending.Some?)
    ensures var u := Thread(critical, t, choice); Tells(u.pc, u.status, u.log, late)
  {
    hide StatusOk, PauseStep, SegmentStep, CheckStep, PhaseStep, ClauseStep;
  }

  lemma TellsInThread(critical: bool, t: Task, choice: Choice, late: bool)
    requires TaskOk(t) && Tells(t.pc, t.status, t.log, late)
    ensures var u := Thread(critical, t, choice); Tells(u.pc, u.status, u.log, late)
  {
    hide StatusOk, SignalsOk, PauseStep, SegmentStep, CheckStep, PhaseStep, ClauseStep, EdgeStep;
    if t.pc.Handling? {
      TellsInClause(t, choice, late);
    } else if Interruptible(t.pc) && !t.pc.MarkDone? {
      TellsInside(critical, t, choice, late);
    } else if AtEdge(t.pc) && t.pending.None? {
      TellsAtEdge(t, choice, late);
    } else {
      TellsElsewhere(critical, t, choice, late);
    }
  }

  lemma TellsServed(t: Task, lands: bool, late: bool)
    requires Tells(t.pc, t.status, t.log, late)
    ensures var u := Continue(t, lands); Tells(u.pc, u.status, u.log, late || AbortsLate(t, Serve(lands)))
  {
    ServeOnlyWakes(t, lands);
    StatusServed(t, lands);
  }

  lemma StatusServed(t: Task, lands: bool)
    ensures Continue(t, lands).status == if t.handler.AbortEmit? then Error else t.status
  {
  }

  lemma TellsKept(critical: bool, t: Task, m: Move, late: bool)
    requires TaskOk(t) && Tells(t.pc, t.status, t.log, late)
    ensures var u := Moved(critical, t, m); Tells(u.pc, u.status, u.log, late || AbortsLate(t, m))
  {
    hide Thread, TaskOk;
    match m
    case Go(choice) => TellsInThread(critical, t, choice, late);
    case Serve(lands) => TellsServed(t, lands, late);
    case Ask(r) => AskOnlyWakes(t, r);
    case _ =>
  }

  lemma {:induction false} TellsHolds(actions: seq<Action>, i: nat)
    ensures i < |Run(actions).tasks| ==>
              var t := Run(actions).tasks[i]; Tells(t.pc, t.status, t.log, LateAbort(actions, i))
    ensures i >= |Run(actions).tasks| ==> !LateAbort(actions, i)
  {
    if actions != [] {
      var s, a := Run(actions[..|actions| - 1]), actions[|actions| - 1];
      TellsHolds(actions[..|actions| - 1], i);
      InvHolds(actions[..|actions| - 1]);
      if i < |s.tasks| {
        TellsKept(s.critical, s.tasks[i], MoveOf(s, a, i), LateAbort(actions[..|actions| - 1], i));
      }
    }
  }

  /** In every run, a task that has ended, by a clause that did not raise, shows exactly the outcome that
      ended it, unless a force-abort emitted its event after that outcome was written; then it shows an
      error. */
  lemma EndTells(actions: seq<Action>, i: nat)
    requires i < |Run(actions).tasks|
    requires var t := Run(actions).tasks[i]; t.pc.Ended? && !t.log.handlerRaised
    ensures var t := Run(actions).tasks[i];
            && t.status == (if LateAbort(actions, i) then Error else Own(t.pc))
            && (t.status.Error? <==>
                  LateAbort(actions, i) || t.pc.verdict == Some(Critical) || t.pc.verdict == Some(Failure))
  {
    TellsHolds(actions, i);
    OwnError(Run(actions).tasks[i].pc);
  }

  lemma OwnError(pc: Pc)
    requires Over(pc)
    ensures Own(pc).Error? <==> pc.verdict == Some(Critical) || pc.verdict == Some(Failure)
  {
    var v := pc.verdict;
    if v.Some? {
      assert v == Some(v.value);
      assert v.value.Cancel? || v.value.Critical? || v.value.Failure?;
    }
  }

  // ---------------------------------------------------------------- where an error is final

  /** The thread writes no status any more, or none but an error; or the critical abort is on its way. */
  predicate ErrorStays(t: Task) {
    Over(t.pc) || t.pc.RecordDone? || t.pc.Tail?
    || (t.pc.Handling? && (!t.pc.kind.Cancel? || t.pc.stage.Record? || t.pc.stage.Clean?))
    || t.pending == Some(Critical)
  }

  /** Only the two handlers inject, and while a critical abort is pending no other injection is under
      way. */
  predicate AbortOk(t: Task) {
    && t.pending != Some(Failure)
    && (t.pending == Some(Critical) ==>
          t.handler.AbortEmit? || (t.status.Error? && (t.handler.Idle? || t.handler.AbortCheck?)))
  }

  lemma Delivered(critical: bool, t: Task, choice: Choice)
    requires TaskOk(t) && t.pending.Some?
    ensures Thread(critical, t, choice) == t.(pc := Handling(t.pending.value, Mark), pending := None)
  {
  }

  lemma ThreadAddsNoPending(critical: bool, t: Task, choice: Choice)
    requires t.pending.None?
    ensures Thread(critical, t, choice).pending.None?
  {
    if InLoop(t.pc) || IsCheck(t.pc) || InPhase(t.pc) {
      InsideGoes(critical, t, choice);
    } else if t.pc.Handling? {
      assert ClauseStep(t, choice).pending == t.pending;
    } else {
      assert EdgeStep(t, choice).pending == t.pending;
    }
  }

  lemma AbortKeptQuiet(t: Task, lands: bool)
    requires AbortOk(t) && !t.handler.CancelInject? && !t.handler.AbortInject?
    ensures AbortOk(Continue(t, lands))
  {
    assert Continue(t, lands).pending == t.pending;
  }

  lemma AbortKeptInjected(t: Task, lands: bool)
    requires AbortOk(t) && (t.handler.CancelInject? || t.handler.AbortInject?)
    ensures AbortOk(Continue(t, lands))
  {
    assert t.pending != Some(Critical);
  }

  lemma AbortKeptServed(t: Task, lands: bool)
    requires AbortOk(t)
    ensures AbortOk(Continue(t, lands))
  {
    hide Continue, AbortOk;
    if t.handler.CancelInject? || t.handler.AbortInject? {
      AbortKeptInjected(t, lands);
    } else {
      AbortKeptQuiet(t, lands);
    }
  }

  lemma AbortKeptAsked(t: Task, r: Request)
    requires AbortOk(t)
    ensures AbortOk(Start(t, r))
  {
  }

  lemma AbortKept(critical: bool, t: Task, m: Move)
    requires TaskOk(t) && AbortOk(t)
    ensures AbortOk(Moved(critical, t, m))
  {
    match m
    case Go(choice) =>
      if t.pending.Some? { Delivered(critical, t, choice); } else { ThreadAddsNoPending(critical, t, choice); }
    case Ask(r) => AbortKeptAsked(t, r);
    case Serve(lands) => AbortKeptServed(t, lands);
    case _ =>
  }

  lemma {:induction false} AbortHolds(actions: seq<Action>, i: nat)
    ensures i < |Run(actions).tasks| ==> AbortOk(Run(actions).tasks[i])
  {
    if actions != [] {
      var s, a := Run(actions[..|actions| - 1]), actions[|actions| - 1];
      AbortHolds(actions[..|actions| - 1], i);
      InvHolds(actions[..|actions| - 1]);
      if i < |s.tasks| {
        AbortKept(s.critical, s.tasks[i], MoveOf(s, a, i));
      }
    }
  }

  predicate Stays(t: Task) {
    t.status.Error? && ErrorStays(t)
  }

  lemma StaysInThread(critical: bool, t: Task, choice: Choice)
    requires TaskOk(t) && Stays(t)
    ensures Stays(Thread(critical, t, choice))
  {
    if t.pending.Some? {
      Delivered(critical, t, choice);
    } else if t.pc.Handling? {
      StaysInClause(t, choice);
    } else {
      StaysAtEdge(t, choice);
    }
  }

  lemma StaysInClause(t: Task, choice: Choice)
    requires t.pc.Handling? && Stays(t) && t.pending.None?
    ensures Stays(ClauseStep(t, choice))
  {
  }

  lemma StaysAtEdge(t: Task, choice: Choice)
    requires !t.pc.Handling? && Stays(t) && t.pending.None?
    ensures Stays(EdgeStep(t, choice))
  {
  }

  lemma StaysServed(t: Task, lands: bool)
    requires TaskOk(t) && Stays(t) && AbortOk(t)
    ensures Stays(Continue(t, lands))
  {
    ServeOnlyWakes(t, lands);
    StatusServed(t, lands);
    if t.pending == Some(Critical) {
      assert Continue(t, lands).pending == t.pending;
    }
  }

  lemma StaysAsked(t: Task, r: Request)
    requires TaskOk(t) && Stays(t)
    ensures Stays(Start(t, r))
  {
  }

  lemma ErrorStaysOn(critical: bool, t: Task, m: Move)
    requires TaskOk(t) && Stays(t) && AbortOk(t)
    ensures Stays(Moved(critical, t, m))
  {
    match m
    case Go(choice) => StaysInThread(critical, t, choice);
    case Ask(r) => StaysAsked(t, r);
    case Serve(lands) => StaysServed(t, lands);
    case _ =>
  }

  lemma {:induction false} StaysForever(past: seq<Action>, future: seq<Action>, i: nat)
    requires i < |Run(past).tasks| && Stays(Run(past).tasks[i])
    ensures i < |Run(past + future).tasks| && Stays(Run(past + future).tasks[i])
  {
    TasksStay(past, future);
    if future == [] {
      assert past + future == past;
    } else {
      var init := future[..|future| - 1];
      StaysForever(past, init, i);
      MoreFuture(past, future);
      InvHolds(past + init);
      AbortHolds(past + init, i);
      var s := Run(past + init);
      ErrorStaysOn(s.critical, s.tasks[i], MoveOf(s, future[|future| - 1], i));
    }
  }

  // ---------------------------------------------------------------- where it is overwritten

  /** How many steps a thread in a healthy system is from its next write of a status that is no error. */
  function ToAWrite(t: Task): nat {
    if t.pending.Some? then 2
    else
      match t.pc
      case Enter(p) => EntryToWrite(p)
      case Announce(p) => if p.Transcribe? || p.Diarize? || Writes(p) then 1 else WorkToWrite(p) + 1
      case Work(p) => WorkToWrite(p)
      case CheckCritical(p) => EntryToWrite(p) + 1
      case CheckCancel(p) => EntryToWrite(p) + 2
      case NextSegment => 4
      case Append => 5
      case SegmentPause => 6
      case SegmentCancel => 7
      case SegmentCritical => 8
      case Waiting(notified) => if notified then 2 else 3
      case EnterWait => 4
      case _ => 1
  }

  /** The steps that write their status before they announce it. */
  predicate Writes(p: Phase) {
    p.Extract? || p.Load? || p.Translate? || p.Finalize?
  }

  function EntryToWrite(p: Phase): nat {
    if Writes(p) then 1 else if p.Transcribe? || p.Diarize? then 2 else WorkToWrite(p) + 2
  }

  function WorkToWrite(p: Phase): nat {
    match p
    case Probe => 4
    case Extract => 6
    case Load => 6
    case Transcribe => 3
    case Diarize => 5
    case BreakLines => 2
    case Translate => 7
    case Validate => 4
    case Finalize => 2
  }

  /** The turn that takes a thread nearer to such a write. */
  function WritingTurn(t: Task): Turn {
    if t.pc == Waiting(false) then Asked(ResumeRequest) else OwnStep(EndOfAudio)
  }

  /** A write of a status that is no error, or a step nearer to one. */
  predicate Nearer(t: Task, u: Task) {
    !u.status.Error? || (!ErrorStays(u) && ToAWrite(u) < ToAWrite(t))
  }

  lemma WritesInPhase(t: Task)
    requires InPhase(t.pc) && t.pending.None?
    ensures Nearer(t, PhaseStep(false, t, EndOfAudio))
  {
    if t.pc.Work? {
      AfterIsNearer(t, t.pc.phase);
    }
  }

  lemma AfterIsNearer(t: Task, p: Phase)
    requires t.pc == Work(p) && t.pending.None?
    ensures Nearer(t, t.(pc := After(p)))
  {
  }

  lemma WritesAtCheck(t: Task)
    requires IsCheck(t.pc) && t.pending.None?
    ensures Nearer(t, CheckStep(false, t))
  {
  }

  lemma WritesInLoop(t: Task)
    requires InLoop(t.pc) && !InPause(t.pc) && t.pending.None?
    ensures Nearer(t, SegmentStep(false, t, EndOfAudio))
  {
  }

  lemma WritesInPause(t: Task)
    requires InPause(t.pc) && t.pc != Waiting(false) && t.pending.None?
    ensures Nearer(t, PauseStep(t))
  {
  }

  lemma WritesElsewhere(t: Task)
    requires !ErrorStays(t) && t.pending.None? && (t.pc.Handling? || AtEdge(t.pc) || t.pc.Prologue?)
    ensures !Thread(false, t, EndOfAudio).status.Error?
  {
    if t.pc.Handling? {
      assert !ClauseStep(t, EndOfAudio).status.Error?;
    }
  }

  lemma WritesNearer(t: Task)
    requires TaskOk(t) && AbortOk(t) && !Unstarted(t.pc) && !ErrorStays(t) && t.pc != Waiting(false)
    ensures Nearer(t, Thread(false, t, EndOfAudio))
  {
    if t.pending.Some? {
      Delivered(false, t, EndOfAudio);
      PendingIsCancel(t);
    } else if InPause(t.pc) {
      WritesInPause(t);
    } else if InLoop(t.pc) {
      WritesInLoop(t);
    } else if IsCheck(t.pc) {
      WritesAtCheck(t);
    } else if InPhase(t.pc) {
      WritesInPhase(t);
    } else {
      WritesElsewhere(t);
    }
  }

  lemma PendingIsCancel(t: Task)
    requires t.pending.Some? && !ErrorStays(t) && AbortOk(t)
    ensures t.pending == Some(Cancel)
  {
    var kind := t.pending.value;
    assert t.pending == Some(kind);
    OneOfThree(kind);
  }

  lemma OneOfThree(kind: Abort)
    ensures kind == Cancel || kind == Critical || kind == Failure
  {
    match kind
    case Cancel =>
    case Critical =>
    case Failure =>
  }

  lemma WritingTurnHelps(t: Task)
    requires TaskOk(t) && AbortOk(t) && !Unstarted(t.pc) && !ErrorStays(t) && t.handler.Idle?
    ensures var u := Taken(false, t, WritingTurn(t));
            TaskOk(u) && AbortOk(u) && !Unstarted(u.pc) && u.handler.Idle? && Nearer(t, u)
  {
    if t.pc == Waiting(false) {
      Resumes(t);
      TaskKept(false, t, Ask(ResumeRequest));
      AbortKept(false, t, Ask(ResumeRequest));
    } else {
      TaskKept(false, t, Go(EndOfAudio));
      AbortKept(false, t, Go(EndOfAudio));
      ThreadKeepsSem(false, t, EndOfAudio);
      ThreadKeepsHandler(false, t, EndOfAudio);
      WritesNearer(t);
    }
  }

  /** In a healthy system such a thread comes to write a status that is no error. */
  lemma {:induction false} Overwrites(t: Task) returns (turns: seq<Turn>)
    requires TaskOk(t) && AbortOk(t) && !Unstarted(t.pc) && t.handler.Idle?
    requires !t.status.Error? || !ErrorStays(t)
    ensures !Turns(false, t, turns).status.Error?
    decreases ToAWrite(t)
  {
    if !t.status.Error? {
      turns := [];
    } else {
      WritingTurnHelps(t);
      var u := Taken(false, t, WritingTurn(t));
      var rest: seq<Turn> := [];
      if u.status.Error? {
        rest := Overwrites(u);
      }
      turns := [WritingTurn(t)] + rest;
      FirstTurn(false, t, WritingTurn(t), rest);
    }
  }

  // ---------------------------------------------------------------- main result: when an error is final

  lemma CanOverwrite(actions: seq<Action>, i: nat) returns (future: seq<Action>)
    requires i < |Run(actions).tasks| && Run(actions).tasks[i].status.Error? && !ErrorStays(Run(actions).tasks[i])
    ensures i < |Run(actions + future).tasks| && !Run(actions + future).tasks[i].status.Error?
  {
    hide Next, Thread, Inv, Leads;
    var s := Run(actions);
    InvHolds(actions);
    var u := CalmsDown(s);
    LeadsKeeps(s, u);
    CalmStays(s.tasks[i], u.tasks[i]);
    var v := u;
    LeadsHere(u);
    if Unstarted(u.tasks[i].pc) {
      v := CanAcquirePermit(u, i);
    }
    LeadsOn(s, u, v);
    future := OverwritesFrom(actions, v, i);
  }

  lemma CalmStays(t: Task, u: Task)
    requires Calmed(t, u)
    ensures ErrorStays(t) <==> ErrorStays(u)
  {
  }

  lemma OverwritesFrom(actions: seq<Action>, v: State, i: nat) returns (future: seq<Action>)
    requires Leads(Run(actions), v) && LoopFree(v) && !v.critical && i < |v.tasks|
    requires !Unstarted(v.tasks[i].pc) && !ErrorStays(v.tasks[i])
    ensures i < |Run(actions + future).tasks| && !Run(actions + future).tasks[i].status.Error?
  {
    InvHolds(actions);
    LeadsKeeps(Run(actions), v);
    var reach := RunCanReach(actions, v);
    AbortHolds(actions + reach, i);
    var turns := Overwrites(v.tasks[i]);
    Driven(v, i, turns);
    var w := With(v, i, Turns(false, v.tasks[i], turns));
    LeadsOn(Run(actions), v, w);
    future := RunCanReach(actions, w);
  }

  /** In every run, a task that shows an error shows it in every continuation exactly if its thread writes
      no other status any more or a critical abort is pending: not before its start, nor on its way through
      the steps, nor when a cancel is about to be shown. */
  lemma ErrorStaysIff(actions: seq<Action>, i: nat)
    requires i < |Run(actions).tasks| && Run(actions).tasks[i].status.Error?
    ensures (forall future | i < |Run(actions + future).tasks| :: Run(actions + future).tasks[i].status.Error?)
            <==> ErrorStays(Run(actions).tasks[i])
  {
    if ErrorStays(Run(actions).tasks[i]) {
      forall future | i < |Run(actions + future).tasks| ensures Run(actions + future).tasks[i].status.Error? {
        StaysForever(actions, future, i);
      }
    } else {
      var future := CanOverwrite(actions, i);
      assert !Run(actions + future).tasks[i].status.Error?;
    }
  }
}
