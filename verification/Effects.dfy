/**
 What becomes of requests that were granted (app/routes/control.py): which granted pause requests can still
 pause their task, and which cancelled tasks can still end as failed instead, exactly.
 */
module Effects {
  import opened PyText
  import opened Lifecycle
  import opened Pipelines
  import opened Drives
  import opened Progress
  import opened Statuses
  import opened Phases
  import Blocking

  // ---------------------------------------------------------------- a granted pause that can pause

  /** On the way to the pause check of a segment, with nothing to stop the thread in a healthy system. */
  predicate OnTheWay(t: Task) {
    && t.pending.None? && t.handler.Idle? && t.event == Some(true) && !t.cancel
    && (if InLoop(t.pc) then t.status.Transcribing? && (StaysInLoop(t.pc) || t.pc.ResumedNotice?)
        else LoadsModel(t.pc))
  }

  predicate LoadsModel(pc: Pc) {
    || pc == Announce(Load) || pc == Work(Load) || pc == CheckCancel(Transcribe) || pc == CheckCritical(Transcribe)
    || pc == Enter(Transcribe) || pc == Announce(Transcribe)
  }

  /** How many steps that is. */
  function ToThePauseCheck(pc: Pc): nat {
    match pc
    case Announce(p) => if p.Load? then 9 else 4
    case Work(_) => 8
    case CheckCancel(_) => 7
    case CheckCritical(_) => 6
    case Enter(_) => 5
    case ResumedNotice => 5
    case Append => 4
    case NextSegment => 3
    case SegmentCritical => 2
    case SegmentCancel => 1
    case _ => 0
  }

  predicate Nearer(t: Task, u: Task) {
    OnTheWay(u) && ToThePauseCheck(u.pc) < ToThePauseCheck(t.pc)
  }

  lemma NearerLoading(t: Task)
    requires OnTheWay(t) && !InLoop(t.pc)
    ensures Nearer(t, Taken(false, t, ONWARD))
  {
    if InPhase(t.pc) {
      assert Taken(false, t, ONWARD) == PhaseStep(false, t, Proceed);
    } else {
      assert Taken(false, t, ONWARD) == CheckStep(false, t);
    }
  }

  lemma NearerInLoop(t: Task)
    requires OnTheWay(t) && InLoop(t.pc) && !Blocking.BeforePauseCheck(t.pc)
    ensures Nearer(t, Taken(false, t, ONWARD))
  {
    if t.pc.ResumedNotice? {
      assert Taken(false, t, ONWARD) == PauseStep(t);
    } else {
      assert Taken(false, t, ONWARD) == SegmentStep(false, t, Proceed);
    }
  }

  lemma {:induction false} ComesToTheCheck(t: Task) returns (turns: seq<Turn>)
    requires OnTheWay(t)
    ensures var u := Turns(false, t, turns); OnTheWay(u) && Blocking.BeforePauseCheck(u.pc)
    decreases ToThePauseCheck(t.pc)
  {
    hide OnTheWay, Taken;
    if Blocking.BeforePauseCheck(t.pc) {
      turns := [];
    } else {
      var u := Taken(false, t, ONWARD);
      if InLoop(t.pc) {
        NearerInLoop(t);
      } else {
        NearerLoading(t);
      }
      var rest := ComesToTheCheck(u);
      turns := [ONWARD] + rest;
      FirstTurn(false, t, ONWARD, rest);
    }
  }

  lemma CheckedCanBlock(t: Task)
    requires OnTheWay(t) && Blocking.BeforePauseCheck(t.pc)
    ensures Blocking.CanBlock(t) && t.handler.Idle?
  {
  }

  /** From there a pause request takes the thread into its wait. */
  lemma CanBePaused(t: Task) returns (turns: seq<Turn>)
    requires OnTheWay(t)
    ensures Blocked(Turns(false, t, turns))
  {
    hide OnTheWay, Blocking.CanBlock, Blocking.BeforePauseCheck;
    var way := ComesToTheCheck(t);
    var u := Turns(false, t, way);
    CheckedCanBlock(u);
    var rest := Blocking.BlocksFrom(false, u);
    turns := way + rest;
    TurnsMore(false, t, way, rest);
  }

  /** Where a granted request finds the thread. */
  lemma GrantedOnTheWay(t: Task)
    requires Granted(t) && ShownAt(t.pc, t.status, t.log) && Place(t.pc) <= 4 && t.pending.None? && !t.cancel
    ensures OnTheWay(t)
  {
    TranscribingTells(t.pc, t.log);
  }

  lemma CanStillPause(actions: seq<Action>, i: nat) returns (future: seq<Action>)
    requires i < |Run(actions).tasks|
    requires var t := Run(actions).tasks[i]; Granted(t) && Place(t.pc) <= 4 && t.pending.None? && !t.cancel
    ensures i < |Run(actions + future).tasks| && Blocked(Run(actions + future).tasks[i])
  {
    hide Next, Leads, Thread, Place, ShownAt, OnTheWay;
    var s := Run(actions);
    var t := s.tasks[i];
    StatusTells(actions, i);
    GrantedOnTheWay(t);
    var u := CalmsDown(s);
    assert u.tasks[i] == t;
    var turns := CanBePaused(t);
    Driven(u, i, turns);
    LeadsOn(s, u, With(u, i, Turns(false, t, turns)));
    future := RunCanReach(actions, With(u, i, Turns(false, t, turns)));
  }

  // ---------------------------------------------------------------- one that cannot

  /** An exception is on its way to the thread, or the thread is behind its segment loop. */
  predicate NeverPauses(t: Task) {
    (t.pending.Some? && Interruptible(t.pc)) || Place(t.pc) >= 5
  }

  lemma PendingStaysOrRaises(critical: bool, t: Task, m: Move)
    requires TaskOk(t) && t.pending.Some?
    ensures var u := Moved(critical, t, m); u.pending.Some? || u.pc.Handling?
  {
    hide Thread, Continue, PauseStep, SegmentStep, CheckStep, PhaseStep, ClauseStep, EdgeStep;
    if m.Go? {
      Delivers(critical, t, m.choice);
    } else if m.Serve? {
      ServedKeepsPending(t, m.lands);
    }
  }

  lemma Delivers(critical: bool, t: Task, choice: Choice)
    requires TaskOk(t) && t.pending.Some?
    ensures Thread(critical, t, choice).pc == Handling(t.pending.value, Mark)
  {
  }

  lemma ServedKeepsPending(t: Task, lands: bool)
    requires t.pending.Some?
    ensures Continue(t, lands).pending.Some?
  {
    hide Interruptible, Final;
  }

  lemma NeverPausesStays(critical: bool, t: Task, m: Move)
    requires TaskOk(t) && NeverPauses(t)
    ensures NeverPauses(Moved(critical, t, m))
  {
    hide Moved, Place, Interruptible, LogOk, StatusOk;
    var u := Moved(critical, t, m);
    TaskKept(critical, t, m);
    if t.pending.Some? {
      PendingStaysOrRaises(critical, t, m);
    } else {
      PhasesInOrder(critical, t, m);
    }
    PlaceOfClause(u.pc, t.pc);
  }

  lemma {:induction false} NeverPausesForever(past: seq<Action>, future: seq<Action>, i: nat)
    requires i < |Run(past).tasks| && NeverPauses(Run(past).tasks[i])
    ensures i < |Run(past + future).tasks| && NeverPauses(Run(past + future).tasks[i])
  {
    hide NeverPauses, Moved;
    TasksStay(past, future);
    if future == [] {
      assert past + future == past;
    } else {
      var init := future[..|future| - 1];
      NeverPausesForever(past, init, i);
      MoreFuture(past, future);
      InvHolds(past + init);
      var s := Run(past + init);
      NeverPausesStays(s.critical, s.tasks[i], MoveOf(s, future[|future| - 1], i));
    }
  }

  lemma NotPaused(t: Task)
    requires TaskOk(t) && NeverPauses(t)
    ensures !Blocked(t)
  {
  }

  // ---------------------------------------------------------------- main result: pausing

  /** Where a granted pause request can still take effect. */
  predicate CanTakeEffect(t: Task) {
    && t.pending.None?
    && (if t.cancel then t.pc.SegmentPause? || t.pc.Pausing? else Place(t.pc) <= 4)
  }

  lemma CannotPause(t: Task)
    requires TaskOk(t) && Granted(t) && !CanTakeEffect(t) && (t.cancel ==> !InWindow(t.pc))
    ensures NeverPauses(t)
  {
    if t.cancel && !InWindow(t.pc) {
      OutsideWindow(t);
    }
  }

  lemma OutsideWindow(t: Task)
    requires TaskOk(t) && Granted(t) && !InWindow(t.pc)
    ensures Place(t.pc) >= 5
  {
  }

  /** In every run, when a pause request is granted, some continuation has the thread wait in its pause exactly
      if no exception is pending and the thread is not behind its segment loop, or, with a cancel request
      before it, is at the pause check or just behind it. */
  lemma GrantedPauseIff(actions: seq<Action>, i: nat)
    requires i < |Run(actions).tasks| && Granted(Run(actions).tasks[i])
    ensures (exists future :: i < |Run(actions + future).tasks| && Blocked(Run(actions + future).tasks[i]))
            <==> CanTakeEffect(Run(actions).tasks[i])
  {
    hide Place, InWindow, NeverPauses, Blocking.CanBlock;
    var t := Run(actions).tasks[i];
    InvHolds(actions);
    if t.cancel && InWindow(t.pc) {
      Blocking.BlockedIff(actions, i);
      CanBlockTells(t);
    } else if CanTakeEffect(t) {
      FlaggedInLoop(t);
      var future := CanStillPause(actions, i);
      assert Blocked(Run(actions + future).tasks[i]);
    } else {
      CannotPause(t);
      forall future | i < |Run(actions + future).tasks| ensures !Blocked(Run(actions + future).tasks[i]) {
        NeverPausesForever(actions, future, i);
        InvHolds(actions + future);
        NotPaused(Run(actions + future).tasks[i]);
      }
    }
  }

  lemma CanBlockTells(t: Task)
    requires Granted(t) && t.cancel
    ensures Blocking.CanBlock(t) <==> CanTakeEffect(t)
  {
  }

  lemma FlaggedInLoop(t: Task)
    ensures t.pc.SegmentPause? || t.pc.Pausing? ==> InWindow(t.pc)
  {
  }

  // ---------------------------------------------------------------- a cancelled task that fails instead

  /** The thread looks at the flag before it does anything that can fail. */
  predicate LooksFirst(pc: Pc) {
    pc.CheckCancel? || pc.SegmentCritical? || pc.SegmentCancel?
  }

  /** On the way to a step that can fail, in a healthy system. */
  predicate MayFail(t: Task) {
    && t.pending.None? && t.handler.Idle?
    && (InPhase(t.pc) || t.pc.CheckCritical? || (InLoop(t.pc) && !LooksFirst(t.pc)))
  }

  predicate FailsSoon(t: Task, u: Task) {
    ExceptionOf(u.pc) == Some(Failure) || (MayFail(u) && ToTheEnd(u.pc) < ToTheEnd(t.pc))
  }

  lemma FailsInPhase(t: Task)
    requires MayFail(t) && (InPhase(t.pc) || t.pc.CheckCritical?)
    ensures FailsSoon(t, Taken(false, t, OwnStep(Fail)))
  {
    if InPhase(t.pc) {
      assert Taken(false, t, OwnStep(Fail)) == PhaseStep(false, t, Fail);
    } else {
      assert Taken(false, t, OwnStep(Fail)) == CheckStep(false, t);
    }
  }

  lemma FailsInLoop(t: Task)
    requires MayFail(t) && InLoop(t.pc) && !InPause(t.pc)
    ensures FailsSoon(t, Taken(false, t, OwnStep(Fail)))
  {
    assert Taken(false, t, OwnStep(Fail)) == SegmentStep(false, t, Fail);
  }

  lemma FailsInPause(t: Task)
    requires MayFail(t) && InPause(t.pc) && t.pc != Waiting(false)
    ensures FailsSoon(t, Taken(false, t, OwnStep(Fail)))
  {
    assert Taken(false, t, OwnStep(Fail)) == PauseStep(t);
  }

  lemma FailsWhenResumed(t: Task)
    requires MayFail(t) && t.pc == Waiting(false) && t.event.Some?
    ensures FailsSoon(t, Taken(false, t, Asked(ResumeRequest)))
  {
  }

  lemma EventStays(critical: bool, t: Task, turn: Turn)
    requires TaskOk(t) && !BeforeTry(t.pc)
    ensures TaskOk(Taken(critical, t, turn)) && !BeforeTry(Taken(critical, t, turn).pc)
  {
    hide TaskOk, BeforeTry;
    var m := match turn
      case OwnStep(c) => Go(c)
      case Asked(r) => Ask(r)
      case Served(lands) => Serve(lands);
    assert Taken(critical, t, turn) == Moved(critical, t, m);
    TaskKept(critical, t, m);
    NeverBack(critical, t, m);
  }

  lemma {:induction false} Fails(t: Task) returns (turns: seq<Turn>)
    requires MayFail(t) && TaskOk(t) && !BeforeTry(t.pc)
    ensures ExceptionOf(Turns(false, t, turns).pc) == Some(Failure)
    decreases ToTheEnd(t.pc)
  {
    hide Taken, ExceptionOf, ToTheEnd, LogOk, StatusOk;
    var turn := EndingTurn(t);
    var u := Taken(false, t, turn);
    EventStays(false, t, turn);
    if t.pc == Waiting(false) {
      FailsWhenResumed(t);
    } else if InPause(t.pc) {
      FailsInPause(t);
    } else if InLoop(t.pc) {
      FailsInLoop(t);
    } else {
      FailsInPhase(t);
    }
    var rest: seq<Turn> := [];
    if ExceptionOf(u.pc) != Some(Failure) {
      rest := Fails(u);
    }
    turns := [turn] + rest;
    FirstTurn(false, t, turn, rest);
  }

  lemma CalmedMayFail(t: Task, u: Task)
    requires InWindow(t.pc) && !LooksFirst(t.pc) && t.pending.None? && Calmed(t, u) && u.handler.Idle?
    ensures MayFail(u) && !BeforeTry(u.pc)
  {
  }

  lemma CanStillFail(actions: seq<Action>, i: nat) returns (future: seq<Action>)
    requires i < |Run(actions).tasks|
    requires var t := Run(actions).tasks[i]; InWindow(t.pc) && !LooksFirst(t.pc) && t.pending.None?
    ensures i < |Run(actions + future).tasks|
    ensures ExceptionOf(Run(actions + future).tasks[i].pc) == Some(Failure)
  {
    hide Next, Leads, Thread, MayFail, Calmed, TaskOk, InWindow, BeforeTry, ExceptionOf;
    var s := Run(actions);
    InvHolds(actions);
    var u := CalmsDown(s);
    LeadsKeeps(s, u);
    CalmedMayFail(s.tasks[i], u.tasks[i]);
    var turns := Fails(u.tasks[i]);
    Driven(u, i, turns);
    LeadsOn(s, u, With(u, i, Turns(false, u.tasks[i], turns)));
    future := RunCanReach(actions, With(u, i, Turns(false, u.tasks[i], turns)));
  }

  /** Ended, or about to, by another exception. */
  predicate EndsOtherwise(t: Task) {
    || (t.pending.Some? && Interruptible(t.pc)) || (t.cancel && LooksFirst(t.pc))
    || (ExceptionOf(t.pc).Some? && ExceptionOf(t.pc) != Some(Failure))
  }

  predicate NoFailurePending(t: Task) {
    t.pending != Some(Failure)
  }

  lemma PendingIsNoFailure(critical: bool, t: Task, m: Move)
    requires NoFailurePending(t)
    ensures NoFailurePending(Moved(critical, t, m))
  {
    hide Interruptible, Final, PauseStep, SegmentStep, CheckStep, PhaseStep, ClauseStep, EdgeStep;
    if m.Go? {
      ThreadSetsNonePending(critical, t, m.choice);
    }
  }

  lemma ThreadSetsNonePending(critical: bool, t: Task, choice: Choice)
    ensures Thread(critical, t, choice).pending == t.pending || Thread(critical, t, choice).pending.None?
  {
    hide PauseStep, SegmentStep, CheckStep, PhaseStep, ClauseStep, EdgeStep;
    if t.pending.Some? && Interruptible(t.pc) && t.pc != Waiting(false) {
    } else if InPause(t.pc) {
      PauseMoves(t);
    } else if InLoop(t.pc) {
      SegmentMoves(critical, t, choice);
    } else if IsCheck(t.pc) {
      CheckMoves(critical, t);
    } else if InPhase(t.pc) {
      PhaseMoves(critical, t, choice);
    } else {
      RestSetsNonePending(t, choice);
    }
  }

  lemma RestSetsNonePending(t: Task, choice: Choice)
    ensures t.pc.Handling? ==> ClauseStep(t, choice).pending == t.pending
    ensures EdgeStep(t, choice).pending == t.pending
  {
  }

  lemma {:induction false} NoFailureIsPending(actions: seq<Action>, i: nat)
    requires i < |Run(actions).tasks|
    ensures NoFailurePending(Run(actions).tasks[i])
  {
    hide NoFailurePending, Moved, Next, MoveOf;
    var init, a := actions[..|actions| - 1], actions[|actions| - 1];
    var s := Run(init);
    TaskAfter(s, a, i);
    if i < |s.tasks| {
      NoFailureIsPending(init, i);
      PendingIsNoFailure(s.critical, s.tasks[i], MoveOf(s, a, i));
    } else {
      FreshHasNone();
    }
  }

  lemma FreshHasNone()
    ensures NoFailurePending(FRESH)
  {
  }

  lemma OtherwiseByThread(critical: bool, t: Task, choice: Choice)
    requires TaskOk(t) && EndsOtherwise(t) && NoFailurePending(t)
    ensures EndsOtherwise(Thread(critical, t, choice))
  {
    hide PauseStep, PhaseStep, LogOk, StatusOk;
    if t.pending.Some? {
      Delivers(critical, t, choice);
    } else if LooksFirst(t.pc) {
      LooksAtFlag(critical, t, choice);
    } else if t.pc.Handling? {
      OtherwiseInClause(t, choice);
    } else {
      OtherwiseAtEdge(t, choice);
    }
  }

  lemma LooksAtFlag(critical: bool, t: Task, choice: Choice)
    requires t.cancel && LooksFirst(t.pc) && t.pending.None?
    ensures EndsOtherwise(Thread(critical, t, choice))
  {
    hide PauseStep, PhaseStep, ClauseStep, EdgeStep;
    if IsCheck(t.pc) {
      assert Thread(critical, t, choice) == CheckStep(critical, t);
    } else {
      assert Thread(critical, t, choice) == SegmentStep(critical, t, choice);
    }
  }

  lemma OtherwiseInClause(t: Task, choice: Choice)
    requires t.pc.Handling? && t.pc.kind != Failure
    ensures EndsOtherwise(ClauseStep(t, choice))
  {
  }

  lemma OtherwiseAtEdge(t: Task, choice: Choice)
    requires Over(t.pc) && t.pc.verdict.Some? && t.pc.verdict != Some(Failure)
    ensures EndsOtherwise(EdgeStep(t, choice))
  {
  }

  lemma OtherwiseByHandler(critical: bool, t: Task, m: Move)
    requires EndsOtherwise(t) && (m.Ask? || m.Serve? || m.AbortBegins?)
    ensures EndsOtherwise(Moved(critical, t, m))
  {
    hide Moved, ExceptionOf;
    HandlersOnlyWake(critical, t, m);
    WokenIsNoException(t.pc, Moved(critical, t, m).pc);
    if t.pending.Some? {
      HandlersKeepPending(critical, t, m);
    } else {
      FlagStays(critical, t, m);
    }
  }

  lemma HandlersKeepPending(critical: bool, t: Task, m: Move)
    requires t.pending.Some? && (m.Ask? || m.Serve? || m.AbortBegins?)
    ensures Moved(critical, t, m).pending.Some?
  {
    hide Interruptible, Final;
    if m.Serve? {
      ServedKeepsPending(t, m.lands);
    }
  }

  lemma FlagStays(critical: bool, t: Task, m: Move)
    requires m.Ask? || m.Serve? || m.AbortBegins?
    ensures t.cancel ==> Moved(critical, t, m).cancel
  {
    HandlersCancel(t, if m.Ask? then m.request else CancelRequest, m.Serve? && m.lands);
  }

  lemma OtherwiseStays(critical: bool, t: Task, m: Move)
    requires TaskOk(t) && EndsOtherwise(t) && NoFailurePending(t)
    ensures EndsOtherwise(Moved(critical, t, m))
  {
    hide Thread, LogOk, StatusOk;
    if m.Go? {
      OtherwiseByThread(critical, t, m.choice);
    } else if m.Ask? || m.Serve? || m.AbortBegins? {
      OtherwiseByHandler(critical, t, m);
    }
  }

  lemma {:induction false} OtherwiseForever(past: seq<Action>, future: seq<Action>, i: nat)
    requires i < |Run(past).tasks| && EndsOtherwise(Run(past).tasks[i])
    ensures i < |Run(past + future).tasks| && EndsOtherwise(Run(past + future).tasks[i])
  {
    hide EndsOtherwise, Moved;
    TasksStay(past, future);
    if future == [] {
      assert past + future == past;
    } else {
      var init := future[..|future| - 1];
      OtherwiseForever(past, init, i);
      MoreFuture(past, future);
      InvHolds(past + init);
      NoFailureIsPending(past + init, i);
      var s := Run(past + init);
      OtherwiseStays(s.critical, s.tasks[i], MoveOf(s, future[|future| - 1], i));
    }
  }

  lemma OtherwiseIsNoFailure(t: Task)
    requires EndsOtherwise(t)
    ensures ExceptionOf(t.pc) != Some(Failure)
  {
  }

  // ---------------------------------------------------------------- main result: failing

  /** In every run, a task that is flagged inside the window can still end as failed exactly if no exception is
      pending and the thread is not at a place where it looks at the flag before anything can fail. */
  lemma CancelledCanFailIff(actions: seq<Action>, i: nat)
    requires i < |Run(actions).tasks|
    requires var t := Run(actions).tasks[i]; t.cancel && InWindow(t.pc)
    ensures (exists future :: i < |Run(actions + future).tasks|
                         && ExceptionOf(Run(actions + future).tasks[i].pc) == Some(Failure))
            <==> Run(actions).tasks[i].pending.None? && !LooksFirst(Run(actions).tasks[i].pc)
  {
    hide InWindow, EndsOtherwise, ExceptionOf, LooksFirst;
    var t := Run(actions).tasks[i];
    if t.pending.None? && !LooksFirst(t.pc) {
      var future := CanStillFail(actions, i);
      assert ExceptionOf(Run(actions + future).tasks[i].pc) == Some(Failure);
    } else {
      InvHolds(actions);
      EndsOtherwiseFrom(t);
      forall future | i < |Run(actions + future).tasks|
        ensures ExceptionOf(Run(actions + future).tasks[i].pc) != Some(Failure)
      {
        OtherwiseForever(actions, future, i);
        OtherwiseIsNoFailure(Run(actions + future).tasks[i]);
      }
    }
  }

  lemma EndsOtherwiseFrom(t: Task)
    requires TaskOk(t) && t.cancel && InWindow(t.pc) && (t.pending.Some? || LooksFirst(t.pc))
    ensures EndsOtherwise(t)
  {
  }
}
