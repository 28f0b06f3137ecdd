/**
 When a cancelled task can be left blocked in its pause (app/routes/control.py, `cancel` and `pause`, and
 the pause check of app/services/transcription.py), exactly.

 The cancel handler sets the pause event so that a paused thread wakes up, and the pause handler does not
 look at the cancel flag. A thread that has passed its cancel check can therefore still run into a wait
 that nobody ends. `BlockedIff` says from which states of a cancelled task some continuation does so, and
 `BlockedRun` is a run that does.
 */
module Blocking {
  import opened PyText
  import opened Lifecycle
  import opened Pipelines
  import opened Drives
  import opened Progress

  /** Past the cancel check of a segment and not yet past its pause check. */
  predicate BeforePauseCheck(pc: Pc) {
    pc.SegmentPause? || pc.Pausing?
  }

  /** On the way into the wait, or in it and not notified. */
  predicate IntoWait(pc: Pc) {
    BeforePauseCheck(pc) || pc.PausedNotice? || pc.EnterWait? || pc == Waiting(false)
  }

  /** The states of a cancelled task, with no handler at work on it, from which it can be left blocked: the
      event is cleared and the thread on its way into the wait, or a pause request would still be granted
      and take effect. */
  predicate CanBlock(t: Task) {
    && t.pending.None?
    && ((t.event == Some(false) && IntoWait(t.pc))
        || (t.event == Some(true) && t.status.Transcribing? && BeforePauseCheck(t.pc)))
  }

  // ---------------------------------------------------------------- nothing blocks it

  /** A thread in its pause does not show as transcribing, so no pause request is granted there. */
  predicate ShowsPause(t: Task) {
    t.pc.PausedNotice? || t.pc.EnterWait? || t.pc.Waiting? ==> !t.status.Transcribing?
  }

  /** `CanBlock` while a handler may be at work. */
  predicate AtRisk(t: Task) {
    && t.pending.None?
    && ((t.event == Some(false) && IntoWait(t.pc))
        || (t.handler.PauseClear? && (BeforePauseCheck(t.pc) || t.pc.PausedNotice? || t.pc.EnterWait?))
        || (t.status.Transcribing? && BeforePauseCheck(t.pc)))
  }

  predicate Safe(t: Task) {
    Aborting(t) || (t.cancel && InWindow(t.pc) && !AtRisk(t))
  }

  lemma ShowsPauseInThread(critical: bool, t: Task, choice: Choice)
    requires ShowsPause(t)
    ensures ShowsPause(Thread(critical, t, choice))
  {
    if t.pending.Some? && Interruptible(t.pc) && t.pc != Waiting(false) {
    } else if InPause(t.pc) {
      assert ShowsPause(PauseStep(t));
    } else if InLoop(t.pc) {
      NotIntoPause(critical, t, choice);
    } else {
      RestNotIntoPause(critical, t, choice);
    }
  }

  lemma NotIntoPause(critical: bool, t: Task, choice: Choice)
    requires InLoop(t.pc) && !InPause(t.pc)
    ensures var u := SegmentStep(critical, t, choice); u.pc.Pausing? || !InPause(u.pc)
  {
  }

  lemma CheckNotIntoLoop(critical: bool, t: Task)
    requires IsCheck(t.pc)
    ensures !InLoop(CheckStep(critical, t).pc)
  {
  }

  lemma PhaseNotIntoPause(critical: bool, t: Task, choice: Choice)
    requires InPhase(t.pc)
    ensures var pc := PhaseStep(critical, t, choice).pc; !InPause(pc) && !pc.SegmentPause?
  {
  }

  lemma ClauseNotIntoLoop(t: Task, choice: Choice)
    requires t.pc.Handling?
    ensures !InLoop(ClauseStep(t, choice).pc)
  {
  }

  lemma EdgePcs(t: Task, choice: Choice)
    ensures var pc := EdgeStep(t, choice).pc;
            pc == t.pc || pc.Enter? || pc.EmitDone? || pc.RecordDone? || pc.Tail? || pc.Handling? || pc.Unwinding?
            || pc.Releasing?
  {
  }

  lemma EdgeNotIntoLoop(t: Task, choice: Choice)
    requires !InLoop(t.pc)
    ensures !InLoop(EdgeStep(t, choice).pc)
  {
    hide EdgeStep;
    EdgePcs(t, choice);
  }

  lemma RestNotIntoPause(critical: bool, t: Task, choice: Choice)
    requires !InLoop(t.pc)
    ensures var pc := Thread(critical, t, choice).pc; !InPause(pc) && !pc.SegmentPause?
  {
    if IsCheck(t.pc) {
      CheckNotIntoLoop(critical, t);
    } else if InPhase(t.pc) {
      PhaseNotIntoPause(critical, t, choice);
    } else if t.pc.Handling? {
      ClauseNotIntoLoop(t, choice);
    } else {
      EdgeNotIntoLoop(t, choice);
    }
  }

  /** A handler leaves the status alone or writes an error. */
  lemma HandlersShow(t: Task, r: Request, lands: bool)
    ensures Start(t, r).status == t.status
    ensures Continue(t, lands).status == t.status || Continue(t, lands).status.Error?
  {
  }

  lemma ShowsPauseKept(critical: bool, t: Task, m: Move)
    requires ShowsPause(t)
    ensures ShowsPause(Moved(critical, t, m))
  {
    match m
    case Go(choice) => ShowsPauseInThread(critical, t, choice);
    case Ask(r) =>
      AskOnlyWakes(t, r);
      HandlersShow(t, r, false);
    case Serve(lands) =>
      ServeOnlyWakes(t, lands);
      HandlersShow(t, CancelRequest, lands);
    case _ =>
  }

  lemma {:induction false} ShowsPauseHolds(actions: seq<Action>, i: nat)
    ensures i < |Run(actions).tasks| ==> ShowsPause(Run(actions).tasks[i])
  {
    if actions != [] {
      var s, a := Run(actions[..|actions| - 1]), actions[|actions| - 1];
      ShowsPauseHolds(actions[..|actions| - 1], i);
      if i < |s.tasks| {
        ShowsPauseKept(s.critical, s.tasks[i], MoveOf(s, a, i));
      }
    }
  }

  lemma SafeInPause(t: Task)
    requires TaskOk(t) && t.cancel && InPause(t.pc) && !AtRisk(t) && t.pending.None?
    ensures Safe(PauseStep(t))
  {
  }

  lemma SafeInLoop(critical: bool, t: Task, choice: Choice)
    requires TaskOk(t) && t.cancel && InLoop(t.pc) && !InPause(t.pc) && !AtRisk(t) && t.pending.None?
    ensures Safe(SegmentStep(critical, t, choice))
  {
    DoomedSegment(critical, t, choice);
    NotIntoPause(critical, t, choice);
  }

  lemma SafeInThread(critical: bool, t: Task, choice: Choice)
    requires TaskOk(t) && Safe(t)
    ensures Safe(Thread(critical, t, choice))
  {
    var u := Thread(critical, t, choice);
    DoomedThread(critical, t, choice);
    if t.pending.None? && !Aborting(t) {
      if InPause(t.pc) {
        SafeInPause(t);
      } else if InLoop(t.pc) {
        SafeInLoop(critical, t, choice);
      } else {
        RestNotIntoPause(critical, t, choice);
      }
    } else {
      LeavesTheLoop(critical, t, choice);
    }
  }

  lemma LeavesTheLoop(critical: bool, t: Task, choice: Choice)
    requires TaskOk(t) && (t.pending.Some? || Aborting(t))
    ensures !InLoop(Thread(critical, t, choice).pc)
  {
    if Aborting(t) {
      if t.pc.Handling? {
        ClauseNotIntoLoop(t, choice);
      } else {
        EdgeNotIntoLoop(t, choice);
      }
    }
  }

  lemma SafeWhenSet(t: Task)
    requires TaskOk(t) && Safe(t) && !t.handler.PauseClear?
    ensures Safe(SetEvent(t))
  {
  }

  lemma SafeWhenInjected(t: Task, kind: Abort, lands: bool)
    requires TaskOk(t) && Safe(t)
    ensures Safe(Inject(t, kind, lands))
  {
  }

  lemma SafeWhenServed(t: Task, lands: bool)
    requires TaskOk(t) && Safe(t)
    ensures Safe(Continue(t, lands))
  {
    match t.handler
    case CancelSet => SafeWhenSet(t);
    case AbortSet => SafeWhenSet(t);
    case CancelInject => SafeWhenInjected(t, Cancel, lands);
    case AbortInject => SafeWhenInjected(t, Critical, lands);
    case _ =>
  }

  lemma SafeWhenAsked(t: Task, r: Request)
    requires TaskOk(t) && Safe(t) && ShowsPause(t)
    ensures Safe(Start(t, r))
  {
    if t.handler.Idle? && r.ResumeRequest? {
      SafeWhenSet(t);
    }
  }

  lemma SafeStays(critical: bool, t: Task, m: Move)
    requires TaskOk(t) && Safe(t) && ShowsPause(t)
    ensures Safe(Moved(critical, t, m))
  {
    match m
    case Go(choice) => SafeInThread(critical, t, choice);
    case Ask(r) => SafeWhenAsked(t, r);
    case Serve(lands) => SafeWhenServed(t, lands);
    case _ =>
  }

  lemma {:induction false} SafeForever(past: seq<Action>, future: seq<Action>, i: nat)
    requires i < |Run(past).tasks| && Safe(Run(past).tasks[i])
    ensures i < |Run(past + future).tasks| && Safe(Run(past + future).tasks[i])
  {
    TasksStay(past, future);
    if future == [] {
      assert past + future == past;
    } else {
      var init := future[..|future| - 1];
      SafeForever(past, init, i);
      MoreFuture(past, future);
      InvHolds(past + init);
      ShowsPauseHolds(past + init, i);
      var s := Run(past + init);
      SafeStays(s.critical, s.tasks[i], MoveOf(s, future[|future| - 1], i));
    }
  }

  // ---------------------------------------------------------------- it can be blocked

  /** With the event cleared, the thread goes on into the wait. */
  lemma {:induction false} GoesIntoWait(critical: bool, t: Task) returns (turns: seq<Turn>)
    requires t.pending.None? && t.event == Some(false) && IntoWait(t.pc)
    ensures var u := Turns(critical, t, turns);
            u.pc == Waiting(false) && u.cancel == t.cancel && u.handler == t.handler
    decreases Rank(t.pc)
  {
    if t.pc == Waiting(false) {
      turns := [];
    } else {
      var u := Taken(critical, t, ONWARD);
      StepIntoWait(critical, t);
      var rest := GoesIntoWait(critical, u);
      turns := [ONWARD] + rest;
      FirstTurn(critical, t, ONWARD, rest);
    }
  }

  lemma StepIntoWait(critical: bool, t: Task)
    requires t.pending.None? && t.event == Some(false) && IntoWait(t.pc) && t.pc != Waiting(false)
    ensures var u := Taken(critical, t, ONWARD);
            u == t.(pc := u.pc, status := u.status) && IntoWait(u.pc) && Rank(u.pc) < Rank(t.pc)
  {
    if t.pc.SegmentPause? {
      assert SegmentStep(critical, t, Proceed) == t.(pc := Pausing);
    } else {
      assert IntoWait(PauseStep(t).pc);
    }
  }

  lemma PauseIsGranted(critical: bool, t: Task)
    requires t.handler.Idle? && t.event == Some(true) && t.status.Transcribing?
    ensures Turns(critical, t, [Asked(PauseRequest), SERVE])
            == t.(event := Some(false), clearedLate := t.clearedLate || t.cancel)
  {
    var u := t.(handler := PauseClear);
    assert [Asked(PauseRequest), SERVE] == [Asked(PauseRequest)] + ([SERVE] + []);
    FirstTurn(critical, t, Asked(PauseRequest), [SERVE] + []);
    FirstTurn(critical, u, SERVE, []);
  }

  lemma BlocksFrom(critical: bool, t: Task) returns (turns: seq<Turn>)
    requires CanBlock(t) && t.handler.Idle?
    ensures var u := Turns(critical, t, turns);
            Blocked(u) && u.cancel == t.cancel && u.handler.Idle?
  {
    if t.event == Some(false) {
      turns := GoesIntoWait(critical, t);
    } else {
      var pause := [Asked(PauseRequest), SERVE];
      PauseIsGranted(critical, t);
      var rest := GoesIntoWait(critical, Turns(critical, t, pause));
      turns := pause + rest;
      TurnsMore(critical, t, pause, rest);
    }
  }

  lemma RunBlocks(actions: seq<Action>, i: nat) returns (future: seq<Action>)
    requires i < |Run(actions).tasks|
    requires var t := Run(actions).tasks[i]; CanBlock(t) && t.handler.Idle?
    ensures i < |Run(actions + future).tasks|
    ensures var u := Run(actions + future).tasks[i];
            Blocked(u) && u.cancel == Run(actions).tasks[i].cancel && u.handler.Idle?
  {
    var s := Run(actions);
    var turns := BlocksFrom(s.critical, s.tasks[i]);
    Driven(s, i, turns);
    future := RunCanReach(actions, With(s, i, Turns(s.critical, s.tasks[i], turns)));
  }

  // ---------------------------------------------------------------- main results

  /** In every run, from a state in which the cancel flag of a task is up inside the window and no handler
      is at work on it: some continuation leaves the task blocked exactly if `CanBlock` holds. */
  lemma BlockedIff(actions: seq<Action>, i: nat)
    requires i < |Run(actions).tasks|
    requires var t := Run(actions).tasks[i]; t.cancel && InWindow(t.pc) && t.handler.Idle?
    ensures (exists future :: i < |Run(actions + future).tasks| && Blocked(Run(actions + future).tasks[i]))
            <==> CanBlock(Run(actions).tasks[i])
    ensures CanBlock(Run(actions).tasks[i]) ==>
              exists future :: i < |Run(actions + future).tasks|
                && var u := Run(actions + future).tasks[i]; u.cancel && u.handler.Idle? && Blocked(u)
  {
    var t := Run(actions).tasks[i];
    InvHolds(actions);
    assert TaskOk(t);
    if CanBlock(t) {
      var future := RunBlocks(actions, i);
      assert Blocked(Run(actions + future).tasks[i]);
    } else {
      RiskIsCanBlock(t);
      forall future | i < |Run(actions + future).tasks| ensures !Blocked(Run(actions + future).tasks[i]) {
        SafeForever(actions, future, i);
        SafeIsNotBlocked(actions + future, i);
      }
    }
  }

  lemma RiskIsCanBlock(t: Task)
    requires TaskOk(t) && InWindow(t.pc) && t.handler.Idle?
    ensures AtRisk(t) <==> CanBlock(t)
  {
    if t.event.value {
      assert t.event == Some(true);
    } else {
      assert t.event == Some(false);
    }
  }

  lemma SafeIsNotBlocked(actions: seq<Action>, i: nat)
    requires i < |Run(actions).tasks| && Safe(Run(actions).tasks[i])
    ensures !Blocked(Run(actions).tasks[i])
  {
    InvHolds(actions);
    assert TaskOk(Run(actions).tasks[i]);
  }

  // ---------------------------------------------------------------- with a handler at work

  /** The states of a flagged task from which it can be left blocked for good, whatever handler is at work on
      it: a cancel handler that has yet to set the event wakes the thread, and leaves only the way over a new
      pause request; a force-abort that has yet to set it does so too and then shows an error, so that no
      pause request is granted; a pause handler is about to clear it. */
  predicate CanBeLeft(t: Task) {
    && t.pending.None?
    && match t.handler
       case CancelFlag => t.status.Transcribing? && BeforePauseCheck(t.pc)
       case CancelSet => t.status.Transcribing? && BeforePauseCheck(t.pc)
       case PauseClear => IntoWait(t.pc)
       case AbortCheck => Final(t.status) && t.event == Some(false) && IntoWait(t.pc)
       case AbortFlag => false
       case AbortSet => false
       case AbortInject => false
       case AbortEmit => t.event == Some(false) && IntoWait(t.pc)
       case _ =>
         (t.event == Some(false) && IntoWait(t.pc))
         || (t.event == Some(true) && t.status.Transcribing? && BeforePauseCheck(t.pc))
  }

  /** On its way out, or in the window and never to be left blocked. */
  predicate Kept(t: Task) {
    Aborting(t) || (t.cancel && InWindow(t.pc) && !CanBeLeft(t))
  }

  lemma EventInWindow(t: Task)
    requires TaskOk(t) && InWindow(t.pc)
    ensures t.event == Some(true) || t.event == Some(false)
  {
    BoolIs(t.event.value);
    assert t.event == Some(t.event.value);
  }

  lemma KeptInPause(t: Task)
    requires TaskOk(t) && t.cancel && InPause(t.pc) && !CanBeLeft(t) && t.pending.None?
    ensures Kept(PauseStep(t))
  {
    EventInWindow(t);
  }

  lemma KeptInLoop(critical: bool, t: Task, choice: Choice)
    requires TaskOk(t) && t.cancel && InLoop(t.pc) && !InPause(t.pc) && !CanBeLeft(t) && t.pending.None?
    ensures Kept(SegmentStep(critical, t, choice))
  {
    DoomedSegment(critical, t, choice);
    NotIntoPause(critical, t, choice);
  }

  lemma NotLeftOutside(t: Task)
    requires !InLoop(t.pc)
    ensures !CanBeLeft(t)
  {
  }

  lemma KeptInThread(critical: bool, t: Task, choice: Choice)
    requires TaskOk(t) && Kept(t)
    ensures Kept(Thread(critical, t, choice))
  {
    hide CanBeLeft;
    var u := Thread(critical, t, choice);
    DoomedThread(critical, t, choice);
    if t.pending.None? && !Aborting(t) && InPause(t.pc) {
      KeptInPause(t);
    } else if t.pending.None? && !Aborting(t) && InLoop(t.pc) {
      KeptInLoop(critical, t, choice);
    } else {
      if t.pending.None? && !Aborting(t) {
        RestNotIntoPause(critical, t, choice);
        NoWayBack(critical, t, choice);
      } else {
        LeavesTheLoop(critical, t, choice);
        NotLeftOutside(u);
      }
    }
  }

  lemma NoWayBack(critical: bool, t: Task, choice: Choice)
    requires var pc := Thread(critical, t, choice).pc; !InPause(pc) && !pc.SegmentPause?
    ensures !CanBeLeft(Thread(critical, t, choice))
  {
    hide Thread;
  }

  lemma KeptWhenServed(t: Task, lands: bool)
    requires TaskOk(t) && t.cancel && InWindow(t.pc) && !CanBeLeft(t)
    ensures !CanBeLeft(Continue(t, lands))
  {
    EventInWindow(t);
  }

  lemma KeptWhenAsked(t: Task, r: Request)
    requires TaskOk(t) && t.cancel && InWindow(t.pc) && !CanBeLeft(t) && ShowsPause(t)
    ensures !CanBeLeft(Start(t, r))
  {
    EventInWindow(t);
  }

  lemma KeptStays(critical: bool, t: Task, m: Move)
    requires TaskOk(t) && Kept(t) && ShowsPause(t)
    ensures Kept(Moved(critical, t, m))
  {
    hide Thread, CanBeLeft;
    DoomedStays(critical, t, m);
    if m.Go? {
      KeptInThread(critical, t, m.choice);
    } else if Aborting(t) {
      AbortingStays(critical, t, m);
    } else if m.Ask? {
      KeptWhenAsked(t, m.request);
    } else if m.Serve? {
      KeptWhenServed(t, m.lands);
    } else if m.AbortBegins? {
      KeptWhenAborted(t);
    }
  }

  lemma AbortingStays(critical: bool, t: Task, m: Move)
    requires Aborting(t) && !m.Go?
    ensures Aborting(Moved(critical, t, m))
  {
    hide Thread;
    if m.Ask? || m.Serve? || m.AbortBegins? {
      HandlersOnlyWake(critical, t, m);
    }
  }

  lemma KeptWhenAborted(t: Task)
    requires !CanBeLeft(t)
    ensures !CanBeLeft(Moved(false, t, AbortBegins))
  {
  }

  lemma {:induction false} KeptForever(past: seq<Action>, future: seq<Action>, i: nat)
    requires i < |Run(past).tasks| && Kept(Run(past).tasks[i])
    ensures i < |Run(past + future).tasks| && Kept(Run(past + future).tasks[i])
  {
    TasksStay(past, future);
    if future == [] {
      assert past + future == past;
    } else {
      var init := future[..|future| - 1];
      KeptForever(past, init, i);
      MoreFuture(past, future);
      InvHolds(past + init);
      ShowsPauseHolds(past + init, i);
      var s := Run(past + init);
      KeptStays(s.critical, s.tasks[i], MoveOf(s, future[|future| - 1], i));
    }
  }

  lemma KeptIsNotLeft(t: Task)
    requires TaskOk(t) && Kept(t)
    ensures !(t.handler.Idle? && Blocked(t))
  {
  }

  /** The handler goes on, its injection does not land, and the task can still be left. */
  lemma StillCanBeLeft(t: Task)
    requires TaskOk(t) && InWindow(t.pc) && t.cancel && CanBeLeft(t) && !t.handler.Idle?
    ensures var u := Continue(t, false);
            CanBeLeft(u) && u.pc == t.pc && u.cancel && StepsLeft(u.handler) < StepsLeft(t.handler)
  {
    EventInWindow(t);
  }

  lemma IdleCanBlock(t: Task)
    requires t.handler.Idle?
    ensures CanBeLeft(t) <==> CanBlock(t)
  {
  }

  lemma {:induction false} SettlesToBlock(critical: bool, t: Task) returns (turns: seq<Turn>)
    requires TaskOk(t) && InWindow(t.pc) && CanBeLeft(t) && t.cancel
    ensures var u := Turns(critical, t, turns); u.handler.Idle? && CanBlock(u) && u.cancel
    decreases StepsLeft(t.handler)
  {
    hide CanBeLeft, CanBlock, Continue;
    if t.handler.Idle? {
      turns := [];
      IdleCanBlock(t);
    } else {
      var u := Continue(t, false);
      StillCanBeLeft(t);
      TaskKept(critical, t, Serve(false));
      var rest := SettlesToBlock(critical, u);
      turns := [SERVE] + rest;
      FirstTurn(critical, t, SERVE, rest);
    }
  }

  lemma LeavesBlocked(actions: seq<Action>, i: nat) returns (future: seq<Action>)
    requires i < |Run(actions).tasks|
    requires var t := Run(actions).tasks[i]; t.cancel && InWindow(t.pc) && CanBeLeft(t)
    ensures i < |Run(actions + future).tasks|
    ensures var u := Run(actions + future).tasks[i]; u.cancel && u.handler.Idle? && Blocked(u)
  {
    var s := Run(actions);
    var t := s.tasks[i];
    InvHolds(actions);
    var calm := SettlesToBlock(s.critical, t);
    var rest := BlocksFrom(s.critical, Turns(s.critical, t, calm));
    TurnsMore(s.critical, t, calm, rest);
    Driven(s, i, calm + rest);
    future := RunCanReach(actions, With(s, i, Turns(s.critical, t, calm + rest)));
  }

  /** In every run, from every state in which the cancel flag of a task is up inside the window, also while
      a handler is between its steps: some continuation leaves the task blocked with no handler at work
      exactly if `CanBeLeft` holds. */
  lemma LeftBlockedIff(actions: seq<Action>, i: nat)
    requires i < |Run(actions).tasks|
    requires var t := Run(actions).tasks[i]; t.cancel && InWindow(t.pc)
    ensures (exists future :: i < |Run(actions + future).tasks|
               && Run(actions + future).tasks[i].handler.Idle? && Blocked(Run(actions + future).tasks[i]))
            <==> CanBeLeft(Run(actions).tasks[i])
  {
    var t := Run(actions).tasks[i];
    if CanBeLeft(t) {
      var future := LeavesBlocked(actions, i);
      assert Blocked(Run(actions + future).tasks[i]);
    } else {
      forall future | i < |Run(actions + future).tasks|
        ensures !(Run(actions + future).tasks[i].handler.Idle? && Blocked(Run(actions + future).tasks[i]))
      {
        KeptForever(actions, future, i);
        InvHolds(actions + future);
        KeptIsNotLeft(Run(actions + future).tasks[i]);
      }
    }
  }

  /** From every state between the cancel check and the pause check, a cancel request whose injection does
      not land and a pause request leave the task blocked. */
  lemma LeftBlocked(actions: seq<Action>, i: nat)
    requires i < |Run(actions).tasks|
    requires var t := Run(actions).tasks[i];
             t.pc.SegmentPause? && t.status.Transcribing? && t.event == Some(true)
             && !t.cancel && t.handler.Idle? && t.pending.None?
    ensures exists future :: i < |Run(actions + future).tasks|
              && var u := Run(actions + future).tasks[i]; u.cancel && u.handler.Idle? && Blocked(u)
  {
    var s := Run(actions);
    var t := s.tasks[i];
    CancelRuns(s.critical, t);
    var rest := BlocksFrom(s.critical, t.(cancel := true));
    TurnsMore(s.critical, t, CANCEL, rest);
    Driven(s, i, CANCEL + rest);
    var future := RunCanReach(actions, With(s, i, Turns(s.critical, t, CANCEL + rest)));
    assert Blocked(Run(actions + future).tasks[i]);
  }

  /** A run in which a cancel request is carried out and a pause request leaves the task blocked. */
  lemma BlockedRun()
    ensures exists actions :: |Run(actions).tasks| == 1
              && var t := Run(actions).tasks[0]; t.cancel && InWindow(t.pc) && t.handler.Idle? && Blocked(t)
  {
    var t := AtTheCheck();
    var asked := t.(cancel := true);
    CancelRuns(false, t);
    assert Turns(false, t, CANCEL) == asked;
    SoloLeads(t, asked);
    LeadsOn(INIT, Solo(t), Solo(asked));
    var turns := BlocksFrom(false, asked);
    var u := Turns(false, asked, turns);
    assert TaskLeads(false, asked, u);
    SoloLeads(asked, u);
    LeadsOn(INIT, Solo(asked), Solo(u));
    var actions := ReachedByRun(Solo(u));
  }

  /** A thread that runs undisturbed comes to the pause check of its first segment. */
  lemma AtTheCheck() returns (t: Task)
    ensures Reachable(Solo(t)) && t.pc.SegmentPause? && t.status.Transcribing? && t.event == Some(true)
    ensures !t.cancel && t.handler.Idle? && t.pending.None?
  {
    var entered := Enters(Transcribe);
    t := entered.(pc := SegmentPause, status := Transcribing);
    ToThePauseCheck(entered);
    SoloLeads(entered, t);
    LeadsOn(INIT, Solo(entered), Solo(t));
  }

  lemma ToThePauseCheck(t: Task)
    requires t.pc == Enter(Transcribe) && Undisturbed(t) && !t.cancel
    ensures TaskLeads(false, t, t.(pc := SegmentPause, status := Transcribing))
  {
    hide TaskLeads;
    var u := t.(status := Transcribing);
    OneOwnStep(t, t.(pc := Announce(Transcribe)));
    OneOwnStep(t.(pc := Announce(Transcribe)), u.(pc := NextSegment));
    OneOwnStep(u.(pc := NextSegment), u.(pc := SegmentCritical));
    OneOwnStep(u.(pc := SegmentCritical), u.(pc := SegmentCancel));
    OneOwnStep(u.(pc := SegmentCancel), u.(pc := SegmentPause));
    TaskLeadsOn(false, t, t.(pc := Announce(Transcribe)), u.(pc := NextSegment));
    TaskLeadsOn(false, t, u.(pc := NextSegment), u.(pc := SegmentCritical));
    TaskLeadsOn(false, t, u.(pc := SegmentCritical), u.(pc := SegmentCancel));
    TaskLeadsOn(false, t, u.(pc := SegmentCancel), u.(pc := SegmentPause));
  }
}
