/**
 Where the task protocol falls short: runs that show what the theorems of `Pipelines` and `Endings` have to
 except. A force-abort's "error" is overwritten by a thread on its way and put over the outcome of one that
 is through, a cancel request made while the task is queued leaves no trace, and two first calls of
 `get_task_semaphore` at once let more than three pipelines run. (`Blocking` is about a cancelled task that
 is left in its pause.)
 */
module Races {
  import opened PyText
  import opened Lifecycle
  import opened Pipelines
  import opened Drives
  import opened Progress
  import opened Endings

  // ---------------------------------------------------------------- late aborts

  /** A force-abort whose injection does not land, up to its event and with it. */
  const UP_TO_EVENT := [SERVE, SERVE, SERVE, SERVE]

  lemma AbortStarts(s: State, i: nat)
    requires i < |s.tasks| && LoopFree(s) && !s.critical
    ensures var u := Next(s, SetCritical(true));
            u.critical && i < |u.tasks| && u.tasks[i] == s.tasks[i].(handler := AbortCheck)
  {
  }

  lemma AbortSteps(t: Task)
    requires !Final(t.status) && t.event == Some(true) && t.pc != Waiting(false)
    ensures Taken(true, t.(handler := AbortCheck), SERVE) == t.(handler := AbortFlag)
    ensures Taken(true, t.(handler := AbortFlag), SERVE) == t.(handler := AbortSet, cancel := true)
    ensures Taken(true, t.(handler := AbortSet), SERVE) == t.(handler := AbortInject)
    ensures Taken(true, t.(handler := AbortInject), SERVE) == t.(handler := AbortEmit)
    ensures Taken(true, t.(handler := AbortEmit), SERVE) == t.(handler := Idle, status := Error)
  {
  }

  lemma AbortRuns(t: Task)
    requires t.handler.AbortCheck? && !Final(t.status) && t.event == Some(true) && t.pc != Waiting(false)
    ensures Turns(true, t, UP_TO_EVENT) == t.(handler := AbortEmit, cancel := true)
    ensures Turns(true, t, UP_TO_EVENT + [SERVE]) == t.(handler := Idle, cancel := true, status := Error)
  {
    var c := t.(cancel := true);
    AbortSteps(t);
    AbortSteps(c);
    FourTurns(true, t, SERVE, SERVE, SERVE, SERVE);
    TurnsMore(true, t, UP_TO_EVENT, [SERVE]);
    assert [SERVE] == [SERVE] + [];
    FirstTurn(true, c.(handler := AbortEmit), SERVE, []);
  }

  /** A state goes critical and task `i` goes on with these turns. */
  lemma GoesCritical(s: State, i: nat, turns: seq<Turn>) returns (u: State)
    requires i < |s.tasks| && LoopFree(s) && !s.critical
    ensures Leads(s, u) && |u.tasks| == |s.tasks|
    ensures u.tasks[i] == Turns(true, s.tasks[i].(handler := AbortCheck), turns)
  {
    var v := Next(s, SetCritical(true));
    AbortStarts(s, i);
    LeadsHere(s);
    LeadsNext(s, s, SetCritical(true));
    Driven(v, i, turns);
    u := With(v, i, Turns(true, v.tasks[i], turns));
    LeadsOn(s, v, u);
  }

  /** The force-abort writes "error" on a task on its way, and a thread in which the injection did not land
      overwrites it: from every state before the extraction, and (`OverwrittenRun`) in a run. */
  lemma ErrorIsOverwritten(actions: seq<Action>, i: nat) returns (future: seq<Action>, more: seq<Action>)
    requires i < |Run(actions).tasks| && LoopFree(Run(actions)) && !Run(actions).critical
    requires var t := Run(actions).tasks[i];
             t.pc == Enter(Extract) && t.pending.None? && t.event == Some(true) && !Final(t.status)
    ensures i < |Run(actions + future).tasks| && Run(actions + future).tasks[i].status.Error?
    ensures i < |Run(actions + future + more).tasks| && !Run(actions + future + more).tasks[i].status.Error?
  {
    var s := Run(actions);
    AbortRuns(s.tasks[i].(handler := AbortCheck));
    var u := GoesCritical(s, i, UP_TO_EVENT + [SERVE]);
    future := RunCanReach(actions, u);
    more := CanOverwrite(actions + future, i);
  }

  lemma OverwrittenRun()
    ensures exists actions, more ::
              && |Run(actions).tasks| >= 1 && Run(actions).tasks[0].status.Error?
              && |Run(actions + more).tasks| >= 1 && !Run(actions + more).tasks[0].status.Error?
  {
    var t := Enters(Extract);
    var actions := ReachedByRun(Solo(t));
    var future, more := ErrorIsOverwritten(actions, 0);
    assert Run(actions + future).tasks[0].status.Error? && !Run(actions + future + more).tasks[0].status.Error?;
  }

  /** A task that completes while an abort is under way records its completion and ends with the status
      "error": from every state at the end of the work, and (`CompletedRun`) in a run. */
  lemma CompletedShowsError(actions: seq<Action>, i: nat) returns (future: seq<Action>)
    requires i < |Run(actions).tasks| && LoopFree(Run(actions)) && !Run(actions).critical
    requires var t := Run(actions).tasks[i];
             t.pc.MarkDone? && t.pending.None? && t.event == Some(true) && !Final(t.status)
    ensures i < |Run(actions + future).tasks|
    ensures var u := Run(actions + future).tasks[i];
            u.pc == Unwinding(None) && u.log.completed == 1 && u.status.Error? && u.handler.Idle?
  {
    var s := Run(actions);
    var t := s.tasks[i];
    InvHolds(actions);
    var aborting := t.(handler := AbortCheck);
    AbortRuns(aborting);
    CompletesFirst(t.(handler := AbortEmit, cancel := true));
    TurnsMore(true, aborting, UP_TO_EVENT, COMPLETES_FIRST);
    var u := GoesCritical(s, i, UP_TO_EVENT + COMPLETES_FIRST);
    future := RunCanReach(actions, u);
  }

  /** The thread writes, emits and records its completion before the abort emits its event. */
  const COMPLETES_FIRST := [ONWARD, ONWARD, ONWARD, SERVE] + [ONWARD]

  lemma DoneTurns(t: Task)
    requires t.pending.None?
    ensures Taken(true, t.(pc := MarkDone), ONWARD) == t.(pc := EmitDone, status := Done)
    ensures Taken(true, t.(pc := EmitDone), ONWARD) == t.(pc := RecordDone, status := Done)
  {
  }

  lemma TailTurns(t: Task)
    requires t.pending.None?
    ensures Taken(true, t.(pc := RecordDone), ONWARD) == t.(pc := Tail, log := t.log.(completed := t.log.completed + 1))
    ensures Taken(true, t.(pc := Tail), ONWARD) == t.(pc := Unwinding(None))
  {
  }

  lemma CompletesFirst(t: Task)
    requires t.handler.AbortEmit? && t.pc.MarkDone? && t.pending.None?
    ensures Turns(true, t, COMPLETES_FIRST) ==
              t.(handler := Idle, pc := Unwinding(None), status := Error,
                 log := t.log.(completed := t.log.completed + 1))
  {
    var t1, t2 := t.(pc := EmitDone, status := Done), t.(pc := RecordDone, status := Done);
    var t3 := t2.(pc := Tail, log := t.log.(completed := t.log.completed + 1));
    var t4 := t3.(handler := Idle, status := Error);
    assert Taken(true, t, ONWARD) == t1 by { DoneTurns(t); }
    assert Taken(true, t1, ONWARD) == t2 by { DoneTurns(t1); }
    assert Taken(true, t2, ONWARD) == t3 by { TailTurns(t2); }
    assert Taken(true, t3, SERVE) == t4;
    assert Taken(true, t4, ONWARD) == t4.(pc := Unwinding(None)) by { TailTurns(t4); }
    FourTurns(true, t, ONWARD, ONWARD, ONWARD, SERVE);
    TurnsMore(true, t, [ONWARD, ONWARD, ONWARD, SERVE], [ONWARD]);
    assert [ONWARD] == [ONWARD] + [];
    FirstTurn(true, t4, ONWARD, []);
  }

  lemma CompletedRun()
    ensures exists actions :: |Run(actions).tasks| >= 1
              && var u := Run(actions).tasks[0]; u.pc == Unwinding(None) && u.log.completed == 1 && u.status.Error?
  {
    var t := ComesToItsEnd();
    var actions := ReachedByRun(Solo(t));
    var future := CompletedShowsError(actions, 0);
    assert |Run(actions + future).tasks| >= 1;
  }

  // ---------------------------------------------------------------- a cancel while queued

  /** The same task but for its cancel flag, before the prologue. */
  predicate SameButCancel(s: State, u: State, i: nat) {
    && i < |s.tasks| == |u.tasks| && BeforeTry(s.tasks[i].pc)
    && u == s.(tasks := s.tasks[i := s.tasks[i].(cancel := u.tasks[i].cancel)])
  }

  predicate Cancels(a: Action, i: nat) {
    a.Handle? && a.i == i && a.request.CancelRequest?
  }

  lemma OtherMoves(s: State, u: State, a: Action, i: nat, j: nat)
    requires SameButCancel(s, u, i) && j < |s.tasks| && j != i
    ensures Tasks(u, a)[j] == Tasks(s, a)[j]
  {
    assert u.tasks[j] == s.tasks[j];
    assert MoveOf(u, a, j) == MoveOf(s, a, j) by {
      assert forall k | 0 <= k < |s.tasks| :: u.tasks[k].handler == s.tasks[k].handler;
    }
  }

  predicate SameMoved(u: Task, v: Task) {
    BeforeTry(u.pc) && v == u.(cancel := v.cancel)
  }

  lemma SameServe(t: Task, cancel: bool, lands: bool)
    requires TaskOk(t) && BeforeTry(t.pc)
    ensures SameMoved(Continue(t, lands), Continue(t.(cancel := cancel), lands))
  {
    assert SetEvent(t) == t;
    assert SetEvent(t.(cancel := cancel)) == t.(cancel := cancel);
  }

  lemma SameAsk(t: Task, cancel: bool, r: Request)
    requires TaskOk(t) && BeforeTry(t.pc) && !r.CancelRequest?
    ensures SameMoved(Start(t, r), Start(t.(cancel := cancel), r))
  {
  }

  lemma NotYet(critical: bool, t: Task, choice: Choice)
    requires TaskOk(t) && BeforeTry(t.pc) && !t.pc.Prologue?
    ensures Lifecycle.Thread(critical, t, choice) == t
  {
  }

  lemma SameMove(critical: bool, t: Task, cancel: bool, m: Move)
    requires TaskOk(t) && BeforeTry(t.pc) && m != Ask(CancelRequest)
    requires m.Go? ==> !t.pc.Prologue?
    requires TaskOk(t.(cancel := cancel))
    ensures SameMoved(Moved(critical, t, m), Moved(critical, t.(cancel := cancel), m))
  {
    match m
    case Go(choice) =>
      NotYet(critical, t, choice);
      NotYet(critical, t.(cancel := cancel), choice);
    case Ask(r) => SameAsk(t, cancel, r);
    case Serve(lands) => SameServe(t, cancel, lands);
    case _ =>
  }

  lemma SameGlobals(s: State, u: State, a: Action, i: nat)
    requires SameButCancel(s, u, i)
    ensures Semaphores(u, a) == Semaphores(s, a) && LoopFree(u) == LoopFree(s) && MoveOf(u, a, i) == MoveOf(s, a, i)
  {
    assert forall k | 0 <= k < |s.tasks| :: u.tasks[k].handler == s.tasks[k].handler && u.tasks[k].pc == s.tasks[k].pc
                                          && u.tasks[k].sem == s.tasks[k].sem;
  }

  lemma SameTask(s: State, u: State, a: Action, i: nat)
    requires Inv(s) && SameButCancel(s, u, i) && !Cancels(a, i)
    requires a.Step? && a.i == i ==> !s.tasks[i].pc.Prologue?
    ensures SameMoved(Tasks(s, a)[i], Tasks(u, a)[i])
  {
    SameGlobals(s, u, a, i);
    assert TaskOk(s.tasks[i].(cancel := u.tasks[i].cancel));
    SameMove(s.critical, s.tasks[i], u.tasks[i].cancel, MoveOf(s, a, i));
  }

  lemma SameTasks(s: State, u: State, a: Action, i: nat)
    requires SameButCancel(s, u, i) && SameMoved(Tasks(s, a)[i], Tasks(u, a)[i])
    ensures Tasks(u, a) == Tasks(s, a)[i := Tasks(s, a)[i].(cancel := Tasks(u, a)[i].cancel)]
  {
    forall j | 0 <= j < |s.tasks| && j != i ensures Tasks(u, a)[j] == Tasks(s, a)[j] {
      OtherMoves(s, u, a, i, j);
    }
  }

  lemma SameStep(s: State, u: State, a: Action, i: nat)
    requires Inv(s) && SameButCancel(s, u, i) && !Cancels(a, i)
    requires a.Step? && a.i == i ==> !s.tasks[i].pc.Prologue?
    ensures SameButCancel(Next(s, a), Next(u, a), i)
  {
    SameGlobals(s, u, a, i);
    SameTask(s, u, a, i);
    SameTasks(s, u, a, i);
  }

  lemma PrologueStep(s: State, u: State, i: nat, choice: Choice)
    requires Inv(s) && SameButCancel(s, u, i) && s.tasks[i].pc.Prologue?
    ensures Next(s, Step(i, choice)) == Next(u, Step(i, choice))
  {
    hide Inv, Start, Continue;
    SameGlobals(s, u, Step(i, choice), i);
    forall j | 0 <= j < |s.tasks| ensures Tasks(u, Step(i, choice))[j] == Tasks(s, Step(i, choice))[j] {
      if j != i {
        OtherMoves(s, u, Step(i, choice), i, j);
      }
    }
    assert Tasks(u, Step(i, choice)) == Tasks(s, Step(i, choice));
  }

  /** A cancel request and the steps of its handler. */
  function CancelActions(i: nat): seq<Action> {
    [Handle(i, CancelRequest), Proceeds(i, false), Proceeds(i, false), Proceeds(i, false)]
  }

  lemma FourMore(s: State, a: Action, b: Action, c: Action, d: Action)
    ensures Going(s, [a, b, c, d]) == Next(Next(Next(Next(s, a), b), c), d)
  {
    assert [a] == [] + [a] && [a, b] == [a] + [b] && [a, b, c] == [a, b] + [c] && [a, b, c, d] == [a, b, c] + [d];
    GoingOne(s, [], a);
    GoingOne(s, [a], b);
    GoingOne(s, [a, b], c);
    GoingOne(s, [a, b, c], d);
  }

  lemma CancelActionsAre(s: State, i: nat)
    requires i < |s.tasks|
    ensures Going(s, CancelActions(i)) == With(s, i, Turns(s.critical, s.tasks[i], CANCEL))
  {
    var c, t := s.critical, s.tasks[i];
    var t1 := Taken(c, t, Asked(CancelRequest));
    var t2 := Taken(c, t1, SERVE);
    var t3 := Taken(c, t2, SERVE);
    var t4 := Taken(c, t3, SERVE);
    FourMore(s, Handle(i, CancelRequest), Proceeds(i, false), Proceeds(i, false), Proceeds(i, false));
    FourTurns(c, t, Asked(CancelRequest), SERVE, SERVE, SERVE);
    OnlyTask(s, i, Asked(CancelRequest));
    OnlyTask(With(s, i, t1), i, SERVE);
    WithTwice(s, i, t1, t2);
    OnlyTask(With(s, i, t2), i, SERVE);
    WithTwice(s, i, t2, t3);
    OnlyTask(With(s, i, t3), i, SERVE);
    WithTwice(s, i, t3, t4);
  }

  lemma BackStep(s: State, a: Action, i: nat)
    requires i < |s.tasks| && BeforeTry(Tasks(s, a)[i].pc)
    ensures BeforeTry(s.tasks[i].pc)
    ensures a.Step? && a.i == i ==> !s.tasks[i].pc.Prologue? || s.tasks[i].pending.Some?
  {
    if !BeforeTry(s.tasks[i].pc) {
      NeverBack(s.critical, s.tasks[i], MoveOf(s, a, i));
    }
  }

  lemma {:induction false} SameUntilPrologue(past: seq<Action>, other: seq<Action>, q: seq<Action>, i: nat)
    requires SameButCancel(Run(past), Run(other), i)
    requires forall a | a in q :: !Cancels(a, i)
    requires i < |Run(past + q).tasks| && BeforeTry(Run(past + q).tasks[i].pc)
    ensures SameButCancel(Run(past + q), Run(other + q), i)
  {
    if q == [] {
      assert past + q == past && other + q == other;
    } else {
      var init, a := q[..|q| - 1], q[|q| - 1];
      TasksStay(past, init);
      MoreFuture(past, q);
      MoreFuture(other, q);
      InvHolds(past + init);
      var s := Run(past + init);
      BackStep(s, a, i);
      assert TaskOk(s.tasks[i]);
      SameUntilPrologue(past, other, init, i);
      SameStep(s, Run(other + init), a, i);
    }
  }

  lemma {:induction false} SameFuture(past: seq<Action>, other: seq<Action>, rest: seq<Action>)
    requires Run(past) == Run(other)
    ensures Run(past + rest) == Run(other + rest)
  {
    if rest == [] {
      assert past + rest == past && other + rest == other;
    } else {
      SameFuture(past, other, rest[..|rest| - 1]);
      MoreFuture(past, rest);
      MoreFuture(other, rest);
    }
  }

  lemma CancelLeavesTheFlag(actions: seq<Action>, i: nat)
    requires i < |Run(actions).tasks|
    requires var t := Run(actions).tasks[i]; BeforeTry(t.pc) && t.handler.Idle? && !Final(t.status) && !t.cancel
    ensures SameButCancel(Run(actions), Run(actions + CancelActions(i)), i)
  {
    InvHolds(actions);
    var s := Run(actions);
    RunIsGoing(actions, CancelActions(i));
    CancelActionsAre(s, i);
    CancelRuns(s.critical, s.tasks[i]);
  }

  /** A cancel request that is accepted and carried out while the task waits for its permit is forgotten:
      from the prologue on, every run is the run without the request. */
  lemma QueuedCancelIsForgotten(p: seq<Action>, q: seq<Action>, rest: seq<Action>, i: nat, choice: Choice)
    requires i < |Run(p).tasks|
    requires var t := Run(p).tasks[i]; BeforeTry(t.pc) && t.handler.Idle? && !Final(t.status) && !t.cancel
    requires forall a | a in q :: !Cancels(a, i)
    requires i < |Run(p + q).tasks| && Run(p + q).tasks[i].pc.Prologue?
    ensures Run(p + CancelActions(i) + q + [Step(i, choice)] + rest) == Run(p + q + [Step(i, choice)] + rest)
  {
    var cancelled := p + CancelActions(i);
    CancelLeavesTheFlag(p, i);
    SameUntilPrologue(p, cancelled, q, i);
    InvHolds(p + q);
    RunMore(p + q, Step(i, choice));
    RunMore(cancelled + q, Step(i, choice));
    PrologueStep(Run(p + q), Run(cancelled + q), i, choice);
    SameFuture(cancelled + q + [Step(i, choice)], p + q + [Step(i, choice)], rest);
  }

  const QUEUES := [Look(0), Make(0), Look(0), Acquire(0)]

  lemma OneSubmitted()
    ensures Run([Submit]) == State(false, [], None, [FRESH])
  {
    hide Thread;
    assert [Submit] == [] + [Submit] && Run([]) == INIT;
    RunMore([], Submit);
    assert Tasks(INIT, Submit) == [] && [] + [FRESH] == [FRESH];
  }

  lemma OneQueues()
    ensures Run([Submit] + QUEUES) == Solo(At(Prologue, 0))
  {
    hide Next, Run, Thread;
    var s0 := State(false, [], None, [FRESH]);
    var s1 := State(false, [], None, [At(MakingSemaphore, 0)]);
    var s2 := State(false, [3], Some(0), [FRESH]);
    var s3 := State(false, [3], Some(0), [At(Awaiting, 0)]);
    OneSubmitted();
    RunIsGoing([Submit], QUEUES);
    FourMore(s0, Look(0), Make(0), Look(0), Acquire(0));
    assert Next(s0, Look(0)) == s1 by { AddressedIs(s0, Look(0), 0); }
    assert Next(s1, Make(0)) == s2 by { AddressedIs(s1, Make(0), 0); }
    assert Next(s2, Look(0)) == s3 by { AddressedIs(s2, Look(0), 0); }
    assert Next(s3, Acquire(0)) == Solo(At(Prologue, 0)) by { AddressedIs(s3, Acquire(0), 0); }
  }

  /** A task that is submitted, cancelled and then given its permit runs as if it had not been cancelled,
      whatever happens afterwards. */
  lemma ForgottenRun(rest: seq<Action>, choice: Choice)
    ensures Run([Submit] + CancelActions(0) + QUEUES + [Step(0, choice)] + rest)
            == Run([Submit] + QUEUES + [Step(0, choice)] + rest)
    ensures Run([Submit] + CancelActions(0)).tasks == [FRESH.(cancel := true)]
  {
    OneSubmitted();
    OneQueues();
    QueuedCancelIsForgotten([Submit], QUEUES, rest, 0, choice);
    RunIsGoing([Submit], CancelActions(0));
    CancelActionsAre(Run([Submit]), 0);
    CancelRuns(false, FRESH);
  }

  // ---------------------------------------------------------------- two semaphores

  /** Four pipelines that have not all looked for the semaphore yet. */
  function Four(semaphores: seq<nat>, current: Option<nat>, a: Task, b: Task, c: Task, d: Task): State {
    State(false, semaphores, current, [a, b, c, d])
  }

  lemma FourSubmitted()
    ensures Reachable(Four([], None, FRESH, FRESH, FRESH, FRESH))
  {
    LeadsHere(INIT);
    SubmitReaches(INIT);
    var one := INIT.(tasks := [FRESH]);
    assert [] + [FRESH] == [FRESH];
    SubmitReaches(one);
    var two := INIT.(tasks := [FRESH, FRESH]);
    assert [FRESH] + [FRESH] == [FRESH, FRESH];
    SubmitReaches(two);
    assert [FRESH, FRESH] + [FRESH] == [FRESH, FRESH, FRESH];
    SubmitReaches(INIT.(tasks := [FRESH, FRESH, FRESH]));
    assert [FRESH, FRESH, FRESH] + [FRESH] == [FRESH, FRESH, FRESH, FRESH];
  }

  /** The first two both find no semaphore. */
  lemma BothLook()
    requires Reachable(Four([], None, FRESH, FRESH, FRESH, FRESH))
    ensures Reachable(Four([], None, At(MakingSemaphore, 0), At(MakingSemaphore, 0), FRESH, FRESH))
  {
    var making := At(MakingSemaphore, 0);
    var s1 := Four([], None, making, FRESH, FRESH, FRESH);
    Reaches(Four([], None, FRESH, FRESH, FRESH, FRESH), Look(0), 0, s1);
    Reaches(s1, Look(1), 1, Four([], None, making, making, FRESH, FRESH));
  }

  lemma FirstMakes()
    requires Reachable(Four([], None, At(MakingSemaphore, 0), At(MakingSemaphore, 0), FRESH, FRESH))
    ensures Reachable(Four([3], Some(0), At(Awaiting, 0), At(MakingSemaphore, 0), FRESH, FRESH))
  {
    hide Reachable, Thread;
    var making := At(MakingSemaphore, 0);
    var s1 := Four([3], Some(0), FRESH, making, FRESH, FRESH);
    Reaches(Four([], None, making, making, FRESH, FRESH), Make(0), 0, s1);
    Reaches(s1, Look(0), 0, Four([3], Some(0), At(Awaiting, 0), making, FRESH, FRESH));
  }

  /** The second makes another, and whoever looks from now on gets that one. */
  lemma SecondMakes()
    requires Reachable(Four([3], Some(0), At(Awaiting, 0), At(MakingSemaphore, 0), FRESH, FRESH))
    ensures Reachable(Four([3, 3], Some(1), At(Awaiting, 0), At(Awaiting, 1), At(Awaiting, 1), At(Awaiting, 1)))
  {
    var w0, w1 := At(Awaiting, 0), At(Awaiting, 1);
    var s1, s2 := Four([3, 3], Some(1), w0, FRESH, FRESH, FRESH), Four([3, 3], Some(1), w0, w1, FRESH, FRESH);
    var s3 := Four([3, 3], Some(1), w0, w1, w1, FRESH);
    Reaches(Four([3], Some(0), w0, At(MakingSemaphore, 0), FRESH, FRESH), Make(1), 1, s1);
    Reaches(s1, Look(1), 1, s2);
    Reaches(s2, Look(2), 2, s3);
    Reaches(s3, Look(3), 3, Four([3, 3], Some(1), w0, w1, w1, w1));
  }

  lemma TwoAcquire()
    requires Reachable(Four([3, 3], Some(1), At(Awaiting, 0), At(Awaiting, 1), At(Awaiting, 1), At(Awaiting, 1)))
    ensures Reachable(Four([2, 2], Some(1), At(Prologue, 0), At(Prologue, 1), At(Awaiting, 1), At(Awaiting, 1)))
  {
    var w0, w1, p0, p1 := At(Awaiting, 0), At(Awaiting, 1), At(Prologue, 0), At(Prologue, 1);
    var s1 := Four([2, 3], Some(1), p0, w1, w1, w1);
    Reaches(Four([3, 3], Some(1), w0, w1, w1, w1), Acquire(0), 0, s1);
    Reaches(s1, Acquire(1), 1, Four([2, 2], Some(1), p0, p1, w1, w1));
  }

  lemma AllAcquire()
    requires Reachable(Four([2, 2], Some(1), At(Prologue, 0), At(Prologue, 1), At(Awaiting, 1), At(Awaiting, 1)))
    ensures Reachable(Four([2, 0], Some(1), At(Prologue, 0), At(Prologue, 1), At(Prologue, 1), At(Prologue, 1)))
  {
    var w1, p0, p1 := At(Awaiting, 1), At(Prologue, 0), At(Prologue, 1);
    var s1 := Four([2, 1], Some(1), p0, p1, p1, w1);
    Reaches(Four([2, 2], Some(1), p0, p1, w1, w1), Acquire(2), 2, s1);
    Reaches(s1, Acquire(3), 3, Four([2, 0], Some(1), p0, p1, p1, p1));
  }

  lemma FourActive(tasks: seq<Task>)
    requires |tasks| == 4 && forall i | 0 <= i < 4 :: IsActive(tasks[i])
    ensures Active(tasks) == 4
  {
    assert tasks[..1][..0] == [] && tasks[..2][..1] == tasks[..1] && tasks[..3][..2] == tasks[..2];
    assert Active(tasks[..1]) == 1;
    assert Active(tasks[..2]) == 2;
    assert Active(tasks[..3]) == 3;
  }

  /** Two first calls of `get_task_semaphore` that overlap make two semaphores, and four pipelines run at
      once: the condition of `Pipelines.AtMostThree` is needed. */
  lemma TwoSemaphores()
    ensures exists s :: Reachable(s) && Active(s.tasks) == 4 && |s.semaphores| == 2
  {
    FourSubmitted();
    BothLook();
    FirstMakes();
    SecondMakes();
    TwoAcquire();
    AllAcquire();
    var s := Four([2, 0], Some(1), At(Prologue, 0), At(Prologue, 1), At(Prologue, 1), At(Prologue, 1));
    FourActive(s.tasks);
  }

  lemma SubmitIs(s: State)
    ensures Next(s, Submit) == s.(tasks := s.tasks + [FRESH])
  {
    assert Tasks(s, Submit) == s.tasks;
  }

  /** With no semaphore yet, two more pipelines can make two. */
  lemma TwoCanMake(s: State) returns (u: State)
    requires s.semaphores == [] && s.current.None?
    ensures Leads(s, u) && |u.semaphores| == 2
  {
    hide Leads, Thread;
    var a, b := |s.tasks|, |s.tasks| + 1;
    var s1 := Next(s, Submit);
    var s2 := Next(s1, Submit);
    SubmitIs(s);
    SubmitIs(s1);
    AddressedIs(s2, Look(a), a);
    var s3 := Next(s2, Look(a));
    AddressedIs(s3, Look(b), b);
    var s4 := Next(s3, Look(b));
    AddressedIs(s4, Make(a), a);
    var s5 := Next(s4, Make(a));
    u := Next(s5, Make(b));
    LeadsHere(s);
    LeadsNext(s, s, Submit);
    LeadsNext(s, s1, Submit);
    LeadsNext(s, s2, Look(a));
    LeadsNext(s, s3, Look(b));
    LeadsNext(s, s4, Make(a));
    LeadsNext(s, s5, Make(b));
  }

  /** In every run with at most one semaphore so far: no continuation makes a second one exactly if the
      semaphore exists already and nobody is about to make another. */
  lemma NoSecondSemaphoreIff(actions: seq<Action>)
    requires |Run(actions).semaphores| <= 1
    ensures (forall future :: |Run(actions + future).semaphores| <= 1)
            <==> Run(actions).current.Some? && NobodyMakes(Run(actions))
  {
    var s := Run(actions);
    InvHolds(actions);
    if s.current.Some? && NobodyMakes(s) {
      forall future ensures |Run(actions + future).semaphores| <= 1 {
        WarmStart(actions, future);
      }
    } else {
      var u := SecondCanBeMade(s);
      var future := RunCanReach(actions, u);
      assert |Run(actions + future).semaphores| == 2;
    }
  }

  lemma SecondCanBeMade(s: State) returns (u: State)
    requires s.current.Some? ==> |s.semaphores| == 1
    requires s.current.None? ==> s.semaphores == []
    requires !(s.current.Some? && NobodyMakes(s))
    ensures Leads(s, u) && |u.semaphores| == 2
  {
    if s.current.None? {
      u := TwoCanMake(s);
    } else {
      var j :| 0 <= j < |s.tasks| && s.tasks[j].pc.MakingSemaphore?;
      u := Next(s, Make(j));
      LeadsByMake(s, j);
    }
  }

  lemma LeadsByMake(s: State, j: nat)
    requires j < |s.tasks| && s.tasks[j].pc.MakingSemaphore?
    ensures Leads(s, Next(s, Make(j))) && |Next(s, Make(j)).semaphores| == |s.semaphores| + 1
  {
    LeadsHere(s);
    LeadsNext(s, s, Make(j));
  }

  // ---------------------------------------------------------------- more than three at once

  lemma {:induction false} SomeActive(tasks: seq<Task>, k: nat)
    requires k < |tasks| && IsActive(tasks[k])
    ensures Active(tasks) >= 1
  {
    if k < |tasks| - 1 {
      SomeActive(tasks[..|tasks| - 1], k);
    }
  }

  lemma ActiveSnoc(tasks: seq<Task>, t: Task)
    ensures Active(tasks + [t]) == Active(tasks) + Bit(IsActive(t))
  {
    assert (tasks + [t])[..|tasks|] == tasks;
  }

  /** A new task queues for the current semaphore. */
  lemma NewcomerQueues(s: State, c: nat) returns (u: State)
    requires s.current == Some(c)
    ensures Leads(s, u) && u == s.(tasks := s.tasks + [At(Awaiting, c)])
  {
    hide Leads, Thread;
    var k := |s.tasks|;
    var v := Next(s, Submit);
    SubmitIs(s);
    AddressedIs(v, Look(k), k);
    u := Next(v, Look(k));
    LeadsHere(s);
    LeadsNext(s, s, Submit);
    LeadsNext(s, v, Look(k));
    assert u.tasks == s.tasks + [At(Awaiting, c)];
  }

  lemma LastAcquires(s: State, c: nat)
    requires s.tasks != [] && c < |s.semaphores| && s.semaphores[c] > 0
    requires s.tasks[|s.tasks| - 1] == At(Awaiting, c)
    ensures var k := |s.tasks| - 1;
            Next(s, Acquire(k)) == s.(tasks := s.tasks[..k] + [At(Prologue, c)],
                                      semaphores := s.semaphores[c := s.semaphores[c] - 1])
  {
    var k := |s.tasks| - 1;
    AddressedIs(s, Acquire(k), k);
    assert s.tasks[k := At(Prologue, c)] == s.tasks[..k] + [At(Prologue, c)];
  }

  /** While the current semaphore has a permit, one more pipeline can become active. */
  lemma OneMoreActive(s: State, c: nat) returns (u: State)
    requires s.current == Some(c) && c < |s.semaphores| && s.semaphores[c] > 0
    ensures Leads(s, u) && u.current == s.current && |u.semaphores| == |s.semaphores|
    ensures u.semaphores[c] == s.semaphores[c] - 1 && Active(u.tasks) == Active(s.tasks) + 1
  {
    hide Leads, Next;
    var v := NewcomerQueues(s, c);
    LastAcquires(v, c);
    u := Next(v, Acquire(|s.tasks|));
    LeadsNext(s, v, Acquire(|s.tasks|));
    assert v.tasks[..|s.tasks|] == s.tasks;
    ActiveSnoc(s.tasks, At(Prologue, c));
  }

  /** A newcomer becomes active under the current semaphore, and who is about to make another still is. */
  lemma OneUnderTheOld(s: State, j: nat) returns (u: State)
    requires Inv(s) && LoopFree(s) && s.current.Some? && j < |s.tasks| && s.tasks[j].pc.MakingSemaphore?
    ensures Leads(s, u) && j < |u.tasks| && u.tasks[j].pc.MakingSemaphore? && Active(u.tasks) >= 1
  {
    hide Leads, Next;
    var c, k := s.current.value, |s.tasks|;
    var v := NewcomerQueues(s, c);
    LeadsKeeps(s, v);
    var w := FreePermit(v, c, k);
    LastAcquires(w, c);
    u := Next(w, Acquire(k));
    LeadsOn(s, v, w);
    LeadsNext(s, w, Acquire(k));
    SomeActive(u.tasks, k);
  }

  lemma MakeIs(s: State, j: nat)
    requires j < |s.tasks| && s.tasks[j].pc.MakingSemaphore?
    ensures Next(s, Make(j)) == s.(tasks := s.tasks[j := s.tasks[j].(pc := Submitted)],
                                   semaphores := s.semaphores + [PERMITS], current := Some(|s.semaphores|))
  {
    AddressedIs(s, Make(j), j);
  }

  lemma {:induction false} StillActive(tasks: seq<Task>, j: nat, t: Task)
    requires j < |tasks| && IsActive(tasks[j]) == IsActive(t)
    ensures Active(tasks[j := t]) == Active(tasks)
  {
    var n := |tasks| - 1;
    if j < n {
      StillActive(tasks[..n], j, t);
      assert tasks[j := t][..n] == tasks[..n][j := t];
    } else {
      assert tasks[j := t][..n] == tasks[..n];
    }
  }

  /** Once a second semaphore is made, three more can become active. */
  lemma ThreeUnderTheNew(s: State, j: nat) returns (u: State)
    requires j < |s.tasks| && s.tasks[j].pc.MakingSemaphore?
    ensures Leads(s, u) && Active(u.tasks) == Active(s.tasks) + 3
  {
    hide Leads, Next, Active;
    var m := |s.semaphores|;
    MakeIs(s, j);
    StillActive(s.tasks, j, s.tasks[j].(pc := Submitted));
    var v := Next(s, Make(j));
    var v1 := OneMoreActive(v, m);
    var v2 := OneMoreActive(v1, m);
    u := OneMoreActive(v2, m);
    LeadsHere(s);
    LeadsNext(s, s, Make(j));
    LeadsOn(s, v, v1);
    LeadsOn(s, v1, v2);
    LeadsOn(s, v2, u);
  }

  /** With no semaphore yet, one can be made while another task is about to make one. */
  lemma OneMadeOneMaking(s: State) returns (u: State, j: nat)
    requires s.semaphores == [] && s.current.None? && LoopFree(s)
    ensures Leads(s, u) && u.current.Some? && LoopFree(u) && j < |u.tasks| && u.tasks[j].pc.MakingSemaphore?
  {
    hide Leads, Thread;
    var a := |s.tasks|;
    j := |s.tasks| + 1;
    var s1 := Next(s, Submit);
    var s2 := Next(s1, Submit);
    SubmitIs(s);
    SubmitIs(s1);
    AddressedIs(s2, Look(a), a);
    var s3 := Next(s2, Look(a));
    AddressedIs(s3, Look(j), j);
    var s4 := Next(s3, Look(j));
    MakeIs(s4, a);
    u := Next(s4, Make(a));
    LeadsHere(s);
    LeadsNext(s, s, Submit);
    LeadsNext(s, s1, Submit);
    LeadsNext(s, s2, Look(a));
    LeadsNext(s, s3, Look(j));
    LeadsNext(s, s4, Make(a));
  }

  lemma FourFrom(s: State, j: nat) returns (u: State)
    requires Inv(s) && LoopFree(s) && s.current.Some? && j < |s.tasks| && s.tasks[j].pc.MakingSemaphore?
    ensures Leads(s, u) && Active(u.tasks) >= 4
  {
    hide Leads, Next, Inv, Active;
    var v := OneUnderTheOld(s, j);
    u := ThreeUnderTheNew(v, j);
    LeadsOn(s, v, u);
  }

  lemma FourCanBeActive(s: State) returns (u: State)
    requires Inv(s) && |s.semaphores| <= 1 && !(s.current.Some? && NobodyMakes(s))
    ensures Leads(s, u) && Active(u.tasks) >= 4
  {
    hide Leads, Next, Active;
    var v := CalmsDown(s);
    LeadsKeeps(s, v);
    var w, j := v, 0;
    LeadsHere(v);
    if s.current.None? {
      w, j := OneMadeOneMaking(v);
    } else {
      j :| 0 <= j < |s.tasks| && s.tasks[j].pc.MakingSemaphore?;
      assert Calmed(s.tasks[j], v.tasks[j]);
    }
    LeadsOn(s, v, w);
    LeadsKeeps(s, w);
    u := FourFrom(w, j);
    LeadsOn(s, w, u);
  }

  /** In every run with at most one semaphore so far: no continuation ever has more than three pipelines
      between their acquisition and their release exactly if the semaphore exists already and nobody is about
      to make another. */
  lemma NeverMoreThanThreeIff(actions: seq<Action>)
    requires |Run(actions).semaphores| <= 1
    ensures (forall future :: Active(Run(actions + future).tasks) <= 3)
            <==> Run(actions).current.Some? && NobodyMakes(Run(actions))
  {
    var s := Run(actions);
    InvHolds(actions);
    if s.current.Some? && NobodyMakes(s) {
      forall future ensures Active(Run(actions + future).tasks) <= 3 {
        WarmStart(actions, future);
        AtMostThree(actions + future);
      }
    } else {
      var u := FourCanBeActive(s);
      var future := RunCanReach(actions, u);
      assert Active(Run(actions + future).tasks) >= 4;
    }
  }
}
