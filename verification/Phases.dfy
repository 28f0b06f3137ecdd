/**
 The order of the steps of `process_video`, where between them a cancel request is noticed, and what a
 pipeline that was cancelled or aborted has behind it: statements about every run of `Pipelines`.
 */
module Phases {
  import opened PyText
  import opened Lifecycle
  import opened Pipelines
  import opened Drives
  import opened Statuses

  // ---------------------------------------------------------------- the order

  function PhaseNumber(p: Phase): nat {
    match p
    case Probe => 1
    case Extract => 2
    case Load => 3
    case Transcribe => 4
    case Diarize => 5
    case BreakLines => 6
    case Translate => 7
    case Validate => 8
    case Finalize => 9
  }

  /** How far the thread has come: the number of its phase, the checkpoints belonging to the phase they
      follow, 10 for the completion and 11 for everything after it or after an exception. */
  function Place(pc: Pc): int {
    match pc
    case Enter(p) => PhaseNumber(p)
    case Announce(p) => PhaseNumber(p)
    case Work(p) => PhaseNumber(p)
    case CheckCancel(next) => PhaseNumber(next) - 1
    case CheckCritical(next) => PhaseNumber(next) - 1
    case MarkDone => 10
    case EmitDone => 10
    case RecordDone => 10
    case Tail => 10
    case _ => if BeforeTry(pc) then 0 else if InLoop(pc) then 4 else 11
  }

  /** Where a phase may end: when its work is done or, in front of a checkpoint, when that is passed. */
  predicate MayEnd(pc: Pc) {
    || pc.Prologue? || pc.Work? || pc.CheckCritical? || pc.NextSegment? || pc.Tail?
    || pc == Enter(Diarize) || pc == Enter(Translate)
  }

  /** The thread stays where it is, enters the next phase from where the one before may end, or raises. */
  predicate OneFurther(t: Task, u: Task) {
    || Place(u.pc) == Place(t.pc)
    || (Place(u.pc) == Place(t.pc) + 1 && MayEnd(t.pc))
    || (u.pc.Handling? && u.pc.stage.Mark?)
  }

  lemma OrderInPhase(critical: bool, t: Task, choice: Choice)
    requires InPhase(t.pc)
    ensures OneFurther(t, PhaseStep(critical, t, choice))
  {
    if t.pc.Work? {
      OrderAfterWork(t.pc.phase);
    } else if t.pc.Enter? {
      OrderAfterWork(t.pc.phase);
    }
  }

  lemma OrderAfterWork(p: Phase)
    ensures Place(After(p)) == PhaseNumber(p) || Place(After(p)) == PhaseNumber(p) + 1
  {
  }

  lemma OrderAtCheck(critical: bool, t: Task)
    requires IsCheck(t.pc)
    ensures OneFurther(t, CheckStep(critical, t))
  {
  }

  lemma OrderInLoop(critical: bool, t: Task, choice: Choice)
    requires InLoop(t.pc) && !InPause(t.pc)
    ensures OneFurther(t, SegmentStep(critical, t, choice))
  {
    hide SegmentStep, Place;
    LoopWritesNone(critical, t, choice);
    PlaceInLoop(t.pc);
    PlaceInLoop(SegmentStep(critical, t, choice).pc);
  }

  lemma PlaceInLoop(pc: Pc)
    ensures InLoop(pc) || StaysInLoop(pc) ==> Place(pc) == 4
    ensures pc == Enter(Diarize) ==> Place(pc) == 5
  {
  }

  lemma OrderInPause(t: Task)
    requires InPause(t.pc)
    ensures OneFurther(t, PauseStep(t))
  {
    hide PauseStep, Place;
    PauseStaysInLoop(t);
    PlaceInLoop(t.pc);
    PlaceInLoop(PauseStep(t).pc);
  }

  lemma PauseStaysInLoop(t: Task)
    requires InPause(t.pc)
    ensures InLoop(PauseStep(t).pc)
  {
  }

  lemma OrderInClause(t: Task, choice: Choice)
    requires t.pc.Handling?
    ensures OneFurther(t, ClauseStep(t, choice))
  {
  }

  lemma OrderAtEdge(t: Task, choice: Choice)
    requires !InLoop(t.pc) && !IsCheck(t.pc) && !InPhase(t.pc) && !t.pc.Handling?
    ensures OneFurther(t, EdgeStep(t, choice))
  {
    if AtEdge(t.pc) {
      OrderAtItsEnd(t, choice);
    } else if !t.pc.Prologue? {
      assert EdgeStep(t, choice) == t;
    }
  }

  lemma OrderAtItsEnd(t: Task, choice: Choice)
    requires AtEdge(t.pc)
    ensures OneFurther(t, EdgeStep(t, choice))
  {
    hide EdgeStep, Place;
    EdgeGoes(t, choice);
    PlaceAtEdge(t.pc);
    PlaceAtEdge(EdgeStep(t, choice).pc);
  }

  lemma EdgeGoes(t: Task, choice: Choice)
    requires AtEdge(t.pc)
    ensures var u := EdgeStep(t, choice);
            || (u.pc.Handling? && u.pc.stage.Mark?)
            || (t.pc.MarkDone? && u.pc.EmitDone?) || (t.pc.EmitDone? && u.pc.RecordDone?)
            || (t.pc.RecordDone? && u.pc.Tail?) || (t.pc.Tail? && u.pc.Unwinding?)
            || (t.pc.Unwinding? && u.pc.Releasing?)
  {
  }

  lemma PlaceAtEdge(pc: Pc)
    ensures pc.MarkDone? || pc.EmitDone? || pc.RecordDone? || pc.Tail? ==> Place(pc) == 10
    ensures pc.Unwinding? || pc.Releasing? ==> Place(pc) == 11
  {
  }

  /** Every step keeps the phases in order: none is left out but the two optional ones, and none is entered
      twice. */
  lemma PhasesInOrder(critical: bool, t: Task, m: Move)
    ensures OneFurther(t, Moved(critical, t, m))
  {
    hide Place, MayEnd;
    match m
    case Go(choice) => OrderOfThread(critical, t, choice);
    case Ask(_) => OrderOfHandler(critical, t, m);
    case Serve(_) => OrderOfHandler(critical, t, m);
    case AbortBegins => OrderOfHandler(critical, t, m);
    case _ => OrderOutside(critical, t, m);
  }

  lemma OrderOfThread(critical: bool, t: Task, choice: Choice)
    ensures OneFurther(t, Thread(critical, t, choice))
  {
    hide Place, MayEnd, PauseStep, SegmentStep, CheckStep, PhaseStep, ClauseStep, EdgeStep;
    if t.pending.Some? && Interruptible(t.pc) && t.pc != Waiting(false) {
    } else if InPause(t.pc) {
      OrderInPause(t);
    } else if InLoop(t.pc) {
      OrderInLoop(critical, t, choice);
    } else if IsCheck(t.pc) {
      OrderAtCheck(critical, t);
    } else if InPhase(t.pc) {
      OrderInPhase(critical, t, choice);
    } else if t.pc.Handling? {
      OrderInClause(t, choice);
    } else {
      OrderAtEdge(t, choice);
    }
  }

  lemma OrderOfHandler(critical: bool, t: Task, m: Move)
    requires m.Ask? || m.Serve? || m.AbortBegins?
    ensures OneFurther(t, Moved(critical, t, m))
  {
    hide Moved, MayEnd;
    HandlersOnlyWake(critical, t, m);
  }

  lemma OrderOutside(critical: bool, t: Task, m: Move)
    requires m.Stay? || m.MustMake? || m.Made? || m.Looked? || m.Acquired? || m.Released?
    ensures OneFurther(t, Moved(critical, t, m))
  {
  }

  /** In every continuation of every run, a pipeline never goes back. */
  lemma {:induction false} NeverGoesBack(past: seq<Action>, future: seq<Action>, i: nat)
    requires i < |Run(past).tasks|
    ensures i < |Run(past + future).tasks|
    ensures Place(Run(past).tasks[i].pc) <= Place(Run(past + future).tasks[i].pc)
  {
    hide Place, MayEnd, Moved;
    TasksStay(past, future);
    if future == [] {
      assert past + future == past;
    } else {
      var init := future[..|future| - 1];
      NeverGoesBack(past, init, i);
      MoreFuture(past, future);
      var s := Run(past + init);
      PhasesInOrder(s.critical, s.tasks[i], MoveOf(s, future[|future| - 1], i));
      PlaceOfClause(Run(past + future).tasks[i].pc, s.tasks[i].pc);
    }
  }

  lemma PlaceOfClause(pc: Pc, other: Pc)
    ensures pc.Handling? ==> Place(pc) == 11
    ensures Place(other) <= 11
  {
  }

  /** A pause request that is granted behind the segment loop pauses nothing any more. */
  lemma PauseComesTooLate(past: seq<Action>, future: seq<Action>, i: nat)
    requires i < |Run(past).tasks| && Place(Run(past).tasks[i].pc) >= 5
    ensures i < |Run(past + future).tasks| && !InPause(Run(past + future).tasks[i].pc)
  {
    hide Place, InPause;
    NeverGoesBack(past, future, i);
    PlaceOfPause(Run(past + future).tasks[i].pc);
  }

  lemma PlaceOfPause(pc: Pc)
    ensures InPause(pc) ==> Place(pc) == 4
  {
  }

  // ---------------------------------------------------------------- where a cancel request is noticed

  /** How far a flagged thread still gets, at most: there is a check behind probing, extracting and loading,
      one at every segment, and the next behind the validation. */
  function Furthest(pc: Pc): int {
    match pc
    case CheckCritical(next) => if 4 <= PhaseNumber(next) <= 8 then 8 else PhaseNumber(next)
    case SegmentCritical => 4
    case SegmentCancel => 4
    case _ => if 4 <= Place(pc) <= 8 then 8 else Place(pc)
  }

  /** No further than the limit, or on the way out by an exception without having completed. */
  predicate StaysWithin(t: Task, limit: int) {
    Aborting(t) || (InWindow(t.pc) && Furthest(t.pc) <= limit)
  }

  lemma WithinInPhase(critical: bool, t: Task, choice: Choice, limit: int)
    requires TaskOk(t) && t.cancel && InPhase(t.pc) && StaysWithin(t, limit)
    ensures StaysWithin(PhaseStep(critical, t, choice), limit)
  {
    hide After, Furthest, Place, Direct, Announced;
    FurthestInPhase(t.pc.phase);
  }

  /** A phase looks as far as its parts do, and what follows it no further. */
  lemma FurthestInPhase(p: Phase)
    ensures Furthest(Enter(p)) == Furthest(Announce(p)) == Furthest(Work(p))
    ensures Furthest(NextSegment) == Furthest(Work(Transcribe))
    ensures !p.Finalize? ==> InWindow(After(p)) && Furthest(After(p)) <= Furthest(Work(p))
  {
  }

  lemma WithinAtCheck(critical: bool, t: Task, limit: int)
    requires TaskOk(t) && t.cancel && IsCheck(t.pc) && StaysWithin(t, limit)
    ensures StaysWithin(CheckStep(critical, t), limit)
  {
  }

  lemma WithinInLoop(critical: bool, t: Task, choice: Choice, limit: int)
    requires TaskOk(t) && t.cancel && InLoop(t.pc) && !InPause(t.pc) && StaysWithin(t, limit)
    ensures StaysWithin(SegmentStep(critical, t, choice), limit)
  {
  }

  lemma WithinInPause(t: Task, limit: int)
    requires InPause(t.pc) && StaysWithin(t, limit)
    ensures StaysWithin(PauseStep(t), limit)
  {
  }

  lemma OutOfClause(t: Task, choice: Choice)
    requires Aborting(t) && t.pc.Handling?
    ensures Aborting(ClauseStep(t, choice))
  {
  }

  lemma OutAtEdge(t: Task, choice: Choice)
    requires Aborting(t) && Over(t.pc)
    ensures Aborting(EdgeStep(t, choice))
  {
  }

  lemma WithinOnTheWayOut(critical: bool, t: Task, choice: Choice, limit: int)
    requires Aborting(t)
    ensures StaysWithin(Thread(critical, t, choice), limit)
  {
    hide PauseStep, SegmentStep, CheckStep, PhaseStep, ClauseStep, EdgeStep, Furthest, InWindow;
    if t.pc.Handling? {
      OutOfClause(t, choice);
    } else {
      OutAtEdge(t, choice);
    }
  }

  lemma WithinOfThread(critical: bool, t: Task, choice: Choice, limit: int)
    requires TaskOk(t) && Doomed(t) && StaysWithin(t, limit)
    ensures StaysWithin(Thread(critical, t, choice), limit)
  {
    hide PauseStep, SegmentStep, CheckStep, PhaseStep, ClauseStep, EdgeStep, Furthest;
    if Aborting(t) {
      WithinOnTheWayOut(critical, t, choice, limit);
    } else if t.pending.Some? && Interruptible(t.pc) && t.pc != Waiting(false) {
    } else if InPause(t.pc) {
      WithinInPause(t, limit);
    } else if InLoop(t.pc) {
      WithinInLoop(critical, t, choice, limit);
    } else if IsCheck(t.pc) {
      WithinAtCheck(critical, t, limit);
    } else {
      WithinInPhase(critical, t, choice, limit);
    }
  }

  lemma WithinOfMove(critical: bool, t: Task, m: Move, limit: int)
    requires TaskOk(t) && Doomed(t) && StaysWithin(t, limit)
    ensures StaysWithin(Moved(critical, t, m), limit)
  {
    hide Thread, Furthest;
    if m.Go? {
      WithinOfThread(critical, t, m.choice, limit);
    } else if m.Ask? || m.Serve? || m.AbortBegins? {
      HandlersOnlyWake(critical, t, m);
      WokenStaysWithin(t, Moved(critical, t, m), limit);
    }
  }

  lemma WokenStaysWithin(t: Task, u: Task, limit: int)
    requires OnlyWoken(t, u) && StaysWithin(t, limit)
    ensures StaysWithin(u, limit)
  {
  }

  /** Once the flag is up inside the window, in every continuation the thread comes no further than the next
      check, and whatever it does it never enters a phase behind that. */
  lemma CancelIsNoticed(past: seq<Action>, future: seq<Action>, i: nat)
    requires i < |Run(past).tasks|
    requires Run(past).tasks[i].cancel && InWindow(Run(past).tasks[i].pc)
    ensures i < |Run(past + future).tasks|
    ensures var u, limit := Run(past + future).tasks[i], Furthest(Run(past).tasks[i].pc);
            StaysWithin(u, limit) && (Aborting(u) || Place(u.pc) <= limit)
  {
    WithinInRun(past, future, i);
    PlaceWithin(Run(past + future).tasks[i], Furthest(Run(past).tasks[i].pc));
  }

  lemma PlaceWithin(t: Task, limit: int)
    requires StaysWithin(t, limit)
    ensures Aborting(t) || Place(t.pc) <= limit
  {
  }

  lemma {:induction false} WithinInRun(past: seq<Action>, future: seq<Action>, i: nat)
    requires i < |Run(past).tasks|
    requires Run(past).tasks[i].cancel && InWindow(Run(past).tasks[i].pc)
    ensures i < |Run(past + future).tasks|
    ensures StaysWithin(Run(past + future).tasks[i], Furthest(Run(past).tasks[i].pc))
  {
    hide StaysWithin, Moved, Doomed, Furthest;
    TasksStay(past, future);
    if future == [] {
      assert past + future == past;
      WithinAtFirst(Run(past).tasks[i]);
    } else {
      var init := future[..|future| - 1];
      WithinInRun(past, init, i);
      DoomedNow(Run(past).tasks[i]);
      DoomedForever(past, init, i);
      MoreFuture(past, future);
      InvHolds(past + init);
      var s := Run(past + init);
      WithinOfMove(s.critical, s.tasks[i], MoveOf(s, future[|future| - 1], i), Furthest(Run(past).tasks[i].pc));
    }
  }

  lemma WithinAtFirst(t: Task)
    requires InWindow(t.pc)
    ensures StaysWithin(t, Furthest(t.pc))
  {
  }

  lemma DoomedNow(t: Task)
    requires t.cancel && InWindow(t.pc)
    ensures Doomed(t)
  {
  }

  /** It can come that far: from the start of a phase, with nobody in its way and its work going well. */
  lemma GetsThatFar(t: Task) returns (u: Task)
    requires t.pc.Enter? && !t.pc.phase.Finalize? && Undisturbed(t)
    ensures TaskLeads(false, t, u) && u.cancel == t.cancel && Place(u.pc) == Furthest(t.pc)
  {
    var p := t.pc.phase;
    if PhaseNumber(p) < 4 {
      u := t.(pc := After(p), status := Announced(p, Direct(p, t.status)));
      WalksPhase(t, p);
    } else if p.Transcribe? {
      var v := t.(pc := Enter(Diarize), status := Transcribing);
      Listens(t);
      u := WalksToTheCheck(v);
      TaskLeadsOn(false, t, v, u);
    } else {
      u := WalksToTheCheck(t);
    }
  }

  /** From the diarization on the next check is behind the validation. */
  lemma {:induction false} WalksToTheCheck(t: Task) returns (u: Task)
    requires t.pc.Enter? && 5 <= PhaseNumber(t.pc.phase) <= 8 && Undisturbed(t)
    ensures TaskLeads(false, t, u) && u.cancel == t.cancel && u.pc == CheckCancel(Finalize)
    decreases 8 - PhaseNumber(t.pc.phase)
  {
    hide TaskLeads, Thread;
    var p := t.pc.phase;
    var v := t.(pc := After(p), status := Announced(p, Direct(p, t.status)));
    WalksPhase(t, p);
    if p.Validate? {
      u := v;
    } else {
      u := WalksToTheCheck(v);
      TaskLeadsOn(false, t, v, u);
    }
  }

  /** Every run in which a thread is at the start of a phase and undisturbed can go on so far. */
  lemma CancelIsNoticedThere(past: seq<Action>, i: nat) returns (future: seq<Action>)
    requires i < |Run(past).tasks| && !Run(past).critical
    requires var t := Run(past).tasks[i]; t.pc.Enter? && !t.pc.phase.Finalize? && Undisturbed(t)
    ensures i < |Run(past + future).tasks|
    ensures var t, u := Run(past).tasks[i], Run(past + future).tasks[i];
            u.cancel == t.cancel && Place(u.pc) == Furthest(t.pc)
  {
    hide Place, Furthest, Undisturbed;
    var s := Run(past);
    var u := GetsThatFar(s.tasks[i]);
    var turns :| Turns(false, s.tasks[i], turns) == u;
    Driven(s, i, turns);
    future := RunCanReach(past, With(s, i, u));
  }

  // ---------------------------------------------------------------- why a pipeline ends

  function ExceptionOf(pc: Pc): Option<Abort> {
    match pc
    case Handling(kind, _) => Some(kind)
    case Unwinding(v) => v
    case Releasing(v) => v
    case Ended(v) => v
    case _ => None
  }

  /** What a cancellation and a critical abort have behind them: a request for this task, or `set_critical`. */
  predicate Explained(t: Task, asked: bool, aborted: bool) {
    && (t.handler.CancelFlag? || t.handler.CancelSet? || t.handler.CancelInject? ==> asked)
    && (IsAbort(t.handler) ==> aborted)
    && (t.cancel ==> asked || aborted)
    && Caused(t.pending, asked, aborted)
    && Caused(ExceptionOf(t.pc), asked, aborted)
  }

  predicate Caused(kind: Option<Abort>, asked: bool, aborted: bool) {
    kind.Some? ==> (kind.value.Cancel? ==> asked || aborted) && (kind.value.Critical? ==> aborted)
  }

  /** A step of the thread raises a cancellation only if it sees the flag, and a critical abort only in the
      critical state. */
  lemma WhyRaised(critical: bool, t: Task, choice: Choice)
    requires InPhase(t.pc) || IsCheck(t.pc) || (InLoop(t.pc) && !InPause(t.pc))
    ensures var u := if InLoop(t.pc) then SegmentStep(critical, t, choice)
                     else if IsCheck(t.pc) then CheckStep(critical, t) else PhaseStep(critical, t, choice);
            && u == t.(pc := u.pc, status := u.status, segments := u.segments)
            && Caused(ExceptionOf(u.pc), t.cancel, critical)
  {
    if InLoop(t.pc) {
      SegmentMoves(critical, t, choice);
    } else if IsCheck(t.pc) {
      CheckMoves(critical, t);
    } else {
      PhaseMoves(critical, t, choice);
    }
  }

  lemma ExplainedInClause(t: Task, choice: Choice, asked: bool, aborted: bool)
    requires Explained(t, asked, aborted) && t.pc.Handling?
    ensures Explained(ClauseStep(t, choice), asked, aborted)
  {
  }

  lemma ExplainedAtEdge(t: Task, choice: Choice, asked: bool, aborted: bool)
    requires Explained(t, asked, aborted)
    ensures Explained(EdgeStep(t, choice), asked, aborted)
  {
  }

  lemma ExplainedInPause(t: Task, asked: bool, aborted: bool)
    requires Explained(t, asked, aborted) && InPause(t.pc)
    ensures Explained(PauseStep(t), asked, aborted)
  {
    PauseMoves(t);
  }

  lemma ExplainedByThread(critical: bool, t: Task, choice: Choice, asked: bool, aborted: bool)
    requires Explained(t, asked, aborted) && (critical ==> aborted)
    ensures Explained(Thread(critical, t, choice), asked, aborted)
  {
    hide PauseStep, SegmentStep, CheckStep, PhaseStep, ClauseStep, EdgeStep;
    if t.pending.Some? && Interruptible(t.pc) && t.pc != Waiting(false) {
    } else if InPause(t.pc) {
      ExplainedInPause(t, asked, aborted);
    } else if InLoop(t.pc) || IsCheck(t.pc) || InPhase(t.pc) {
      WhyRaised(critical, t, choice);
    } else if t.pc.Handling? {
      ExplainedInClause(t, choice, asked, aborted);
    } else {
      ExplainedAtEdge(t, choice, asked, aborted);
    }
  }

  /** Requests for other tasks explain nothing. */
  lemma ExplainedByMove(critical: bool, t: Task, m: Move, asked: bool, aborted: bool)
    requires Explained(t, asked, aborted) && (critical ==> aborted)
    requires (m.AbortBegins? ==> aborted) && (m == Ask(CancelRequest) ==> asked)
    ensures Explained(Moved(critical, t, m), asked, aborted)
  {
    if m.Go? {
      ExplainedByThread(critical, t, m.choice, asked, aborted);
    } else if m.Ask? || m.Serve? || m.AbortBegins? {
      ExplainedByHandler(critical, t, m, asked, aborted);
    }
  }

  lemma ExplainedByHandler(critical: bool, t: Task, m: Move, asked: bool, aborted: bool)
    requires Explained(t, asked, aborted) && (m.Ask? || m.Serve? || m.AbortBegins?)
    requires (m.AbortBegins? ==> aborted) && (m == Ask(CancelRequest) ==> asked)
    ensures Explained(Moved(critical, t, m), asked, aborted)
  {
    hide ExceptionOf, Caused;
    HandlersOnlyWake(critical, t, m);
    WokenIsNoException(t.pc, Moved(critical, t, m).pc);
    InjectedIsCaused(critical, t, m, asked, aborted);
  }

  lemma InjectedIsCaused(critical: bool, t: Task, m: Move, asked: bool, aborted: bool)
    requires Explained(t, asked, aborted) && (m.Ask? || m.Serve? || m.AbortBegins?)
    ensures Caused(Moved(critical, t, m).pending, asked, aborted)
  {
    hide ExceptionOf, SetEvent;
    SetLeavesPending(t);
    SetLeavesPending(t.(handler := CancelFlag));
  }

  lemma SetLeavesPending(t: Task)
    ensures SetEvent(t).pending == t.pending
  {
  }

  lemma WokenIsNoException(pc: Pc, woken: Pc)
    requires woken == pc || (pc == Waiting(false) && woken == Waiting(true))
    ensures ExceptionOf(woken) == ExceptionOf(pc)
  {
  }

  predicate Asked(actions: seq<Action>, i: nat) {
    Handle(i, CancelRequest) in actions
  }

  lemma CriticalIsSet(s: State, a: Action)
    ensures Next(s, a).critical ==> s.critical || a == SetCritical(true)
    ensures |s.tasks| <= |Next(s, a).tasks|
  {
    hide Moved, Semaphores, MoveOf;
  }

  lemma {:induction false} ExplainedInRun(actions: seq<Action>, i: nat)
    ensures Run(actions).critical ==> Aborted(actions)
    ensures i < |Run(actions).tasks| ==> Explained(Run(actions).tasks[i], Asked(actions, i), Aborted(actions))
  {
    hide Explained, Moved, Next, MoveOf;
    if actions != [] {
      var init, a := actions[..|actions| - 1], actions[|actions| - 1];
      var s := Run(init);
      assert actions == init + [a];
      ExplainedInRun(init, i);
      CriticalIsSet(s, a);
      if i < |Next(s, a).tasks| {
        TaskAfter(s, a, i);
      }
      if i < |s.tasks| {
        ExplainedStill(s.tasks[i], Asked(init, i), Aborted(init), Asked(actions, i), Aborted(actions));
        ExplainedByMove(s.critical, s.tasks[i], MoveOf(s, a, i), Asked(actions, i), Aborted(actions));
      } else {
        NothingToExplain(FRESH, Asked(actions, i), Aborted(actions));
      }
    }
  }

  lemma ExplainedStill(t: Task, before: bool, earlier: bool, asked: bool, aborted: bool)
    requires Explained(t, before, earlier) && (before ==> asked) && (earlier ==> aborted)
    ensures Explained(t, asked, aborted)
  {
  }

  lemma NothingToExplain(t: Task, asked: bool, aborted: bool)
    requires t.handler.Idle? && !t.cancel && t.pending.None? && t.pc.Submitted?
    ensures Explained(t, asked, aborted)
  {
    NothingIsCaused(asked, aborted);
  }

  lemma NothingIsCaused(asked: bool, aborted: bool)
    ensures Caused(None, asked, aborted)
  {
  }

  /** In every run, a pipeline ends as cancelled only if a cancel request was made for it or `set_critical`
      was called with reasons, and as critically aborted only in the second case. */
  lemma EndsAreAsked(actions: seq<Action>, i: nat)
    requires i < |Run(actions).tasks| && Run(actions).tasks[i].pc.Ended?
    ensures match Run(actions).tasks[i].pc.verdict
            case Some(Cancel) => Handle(i, CancelRequest) in actions || SetCritical(true) in actions
            case Some(Critical) => SetCritical(true) in actions
            case _ => true
  {
    ExplainedInRun(actions, i);
  }

  // ---------------------------------------------------------------- a pause that pauses nothing

  lemma Skips(t: Task, p: Phase, next: Phase)
    requires t.pc == Enter(p) && Optional(p) && Undisturbed(t) && After(p) == Enter(next) && Reachable(Solo(t))
    ensures Reachable(Solo(t.(pc := Enter(next))))
  {
    var u := t.(pc := Enter(next));
    assert [OwnStep(Skip)] == [OwnStep(Skip)] + [];
    FirstTurn(false, t, OwnStep(Skip), []);
    assert Turns(false, t, [OwnStep(Skip)]) == u;
    SoloLeads(t, u);
    LeadsOn(INIT, Solo(t), Solo(u));
  }

  /** A run in which a pause request is granted when only the writing of the files is left. */
  lemma PausedTooLate() returns (actions: seq<Action>)
    ensures |Run(actions).tasks| == 1
    ensures Run(actions).tasks[0].pc == Enter(Finalize) && Granted(Run(actions).tasks[0])
  {
    hide Reachable, Thread;
    var t := ComesToDiarization();
    Skips(t, Diarize, BreakLines);
    t := WalksToNext(t.(pc := Enter(BreakLines)), BreakLines, Translate);
    Skips(t, Translate, Validate);
    t := WalksOn(t.(pc := Enter(Validate)), Validate, Finalize);
    actions := ReachedByRun(Solo(t));
  }

  // ---------------------------------------------------------------- a cancelled task that fails

  lemma Works(t: Task)
    requires t.pc == Enter(Extract) && Undisturbed(t)
    ensures TaskLeads(false, t, t.(pc := Work(Extract), status := Extracting))
  {
    var announced := t.(pc := Announce(Extract), status := Extracting);
    var working := t.(pc := Work(Extract), status := Extracting);
    OneOwnStep(t, announced);
    OneOwnStep(announced, working);
    TaskLeadsOn(false, t, announced, working);
  }

  /** ffmpeg has been killed, the server is not critical, and the injected exception has not landed. */
  lemma Dies(t: Task)
    requires t.pc == Work(Extract) && t.pending.None?
    ensures TaskLeads(false, t, t.(pc := Handling(Failure, Mark)))
  {
    var u := t.(pc := Handling(Failure, Mark));
    assert [OwnStep(FfmpegDies)] == [OwnStep(FfmpegDies)] + [];
    FirstTurn(false, t, OwnStep(FfmpegDies), []);
    assert Turns(false, t, [OwnStep(FfmpegDies)]) == u;
  }

  lemma Fails(t: Task)
    requires t.pc == Handling(Failure, Mark) && t.pending.None?
    ensures TaskLeads(false, t, t.(pc := Unwinding(Some(Failure)), status := Error,
                                   log := t.log.(failed := t.log.failed + 1)))
  {
    hide TaskLeads;
    var emitted := t.(pc := Handling(Failure, Record), status := Error);
    ShowsFailure(t);
    RecordsFailure(emitted);
    TaskLeadsOn(false, t, emitted,
                emitted.(pc := Unwinding(Some(Failure)), log := t.log.(failed := t.log.failed + 1)));
  }

  lemma ShowsFailure(t: Task)
    requires t.pc == Handling(Failure, Mark) && t.pending.None?
    ensures TaskLeads(false, t, t.(pc := Handling(Failure, Record), status := Error))
  {
    var marked := t.(pc := Handling(Failure, Emit), status := Error);
    var emitted := marked.(pc := Handling(Failure, Record));
    OneOwnStep(t, marked);
    OneOwnStep(marked, emitted);
    TaskLeadsOn(false, t, marked, emitted);
  }

  lemma RecordsFailure(t: Task)
    requires t.pc == Handling(Failure, Record) && t.pending.None?
    ensures TaskLeads(false, t, t.(pc := Unwinding(Some(Failure)), log := t.log.(failed := t.log.failed + 1)))
  {
    var recorded := t.(pc := Handling(Failure, Clean), log := t.log.(failed := t.log.failed + 1));
    var over := recorded.(pc := Unwinding(Some(Failure)));
    OneOwnStep(t, recorded);
    OneOwnStep(recorded, over);
    TaskLeadsOn(false, t, recorded, over);
  }

  lemma FlaggedAtWork(t: Task)
    requires t.pc == Work(Extract) && Undisturbed(t) && !t.cancel && !Final(t.status)
    ensures TaskLeads(false, t, t.(cancel := true))
  {
    CancelRuns(false, t);
    assert Turns(false, t, CANCEL) == t.(cancel := true);
  }

  /** A cancel request during the extraction kills ffmpeg; if its exception does not land, the task that was
      cancelled fails, and shows that. */
  lemma KilledWhileExtracting(t: Task)
    requires t.pc == Enter(Extract) && Undisturbed(t) && !t.cancel
    ensures TaskLeads(false, t, t.(pc := Unwinding(Some(Failure)), status := Error, cancel := true,
                                   log := t.log.(failed := t.log.failed + 1)))
  {
    hide TaskLeads, Thread;
    var working := t.(pc := Work(Extract), status := Extracting);
    var flagged := working.(cancel := true);
    var dead := flagged.(pc := Handling(Failure, Mark));
    var over := dead.(pc := Unwinding(Some(Failure)), status := Error, log := t.log.(failed := t.log.failed + 1));
    Works(t);
    FlaggedAtWork(working);
    Dies(flagged);
    Fails(dead);
    TaskLeadsOn(false, t, working, flagged);
    TaskLeadsOn(false, t, flagged, dead);
    TaskLeadsOn(false, t, dead, over);
  }

  /** A run in which that happens. */
  lemma KilledExtraction() returns (actions: seq<Action>)
    ensures |Run(actions).tasks| == 1
    ensures var t := Run(actions).tasks[0];
            t.cancel && t.pc == Unwinding(Some(Failure)) && t.status.Error? && t.log == Log(0, 0, 1, false, false)
  {
    hide Thread, TaskLeads, Undisturbed, Leads, Run, Final;
    var t := Enters(Extract);
    NothingRecordedYet(t);
    var u := t.(pc := Unwinding(Some(Failure)), status := Error, cancel := true,
                log := t.log.(failed := t.log.failed + 1));
    KilledWhileExtracting(t);
    SoloLeads(t, u);
    LeadsOn(INIT, Solo(t), Solo(u));
    actions := ReachedByRun(Solo(u));
  }

  lemma NothingRecordedYet(t: Task)
    requires Reachable(Solo(t)) && t.pc == Enter(Extract)
    ensures t.log == Log(0, 0, 0, false, false)
  {
    hide StatusOk, SignalsOk, Thread;
    var before := ReachedByRun(Solo(t));
    InvHolds(before);
    assert Run(before).tasks[0] == t;
  }
}
