/**
 All tasks of the server together: pipeline threads under the counting semaphore of app/state.py
 (`get_task_semaphore`), the handlers that cancel, pause and resume them, and the critical state that
 aborts all of them (`set_critical`, `clear_critical`).

 `Next` is one step of one thread or one handler; `Lifecycle.Moved` says what it does to a task. A run is
 a sequence of actions in any order, and an action that is not enabled changes nothing, so the theorems
 about every sequence of actions are about every interleaving.
 */
module Pipelines {
  import opened PyText
  import opened Lifecycle

  const PERMITS := 3

  /** `semaphores` holds the free permits of every semaphore ever made, `current` is the global variable. */
  datatype State = State(critical: bool, semaphores: seq<nat>, current: Option<nat>, tasks: seq<Task>)

  datatype Action =
    | Submit
    | Look(i: nat)
    | Make(i: nat)
    | Acquire(i: nat)
    | Release(i: nat)
    | Step(i: nat, choice: Choice)
    | Handle(i: nat, request: Request)
    | Proceeds(i: nat, lands: bool)
    | SetCritical(reasons: bool)
    | ClearCritical

  const INIT := State(false, [], None, [])

  /** The event loop is free to run `set_critical`. */
  predicate LoopFree(s: State) {
    forall i | 0 <= i < |s.tasks| :: s.tasks[i].handler.Idle?
  }

  predicate CanAcquire(s: State, i: nat) {
    i < |s.tasks| && s.tasks[i].pc.Awaiting? && s.tasks[i].sem < |s.semaphores| && s.semaphores[s.tasks[i].sem] > 0
  }

  /** What an action means for task `i`. */
  function MoveOf(s: State, a: Action, i: nat): Move {
    match a
    case Look(j) => if j == i then if s.current.None? then MustMake else Looked(s.current.value) else Stay
    case Make(j) => if j == i then Made else Stay
    case Acquire(j) => if j == i && CanAcquire(s, i) then Acquired else Stay
    case Release(j) => if j == i then Released else Stay
    case Step(j, choice) => if j == i then Go(choice) else Stay
    case Handle(j, r) => if j == i then Ask(r) else Stay
    case Proceeds(j, lands) => if j == i then Serve(lands) else Stay
    case SetCritical(reasons) => if reasons && !s.critical && LoopFree(s) then AbortBegins else Stay
    case Submit => Stay
    case ClearCritical => Stay
  }

  function Tasks(s: State, a: Action): (r: seq<Task>)
    ensures |r| == |s.tasks|
    ensures forall i | 0 <= i < |r| :: r[i] == Moved(s.critical, s.tasks[i], MoveOf(s, a, i))
  {
    seq(|s.tasks|, i requires 0 <= i < |s.tasks| => Moved(s.critical, s.tasks[i], MoveOf(s, a, i)))
  }

  function Semaphores(s: State, a: Action): seq<nat> {
    match a
    case Make(i) => if i < |s.tasks| && s.tasks[i].pc.MakingSemaphore? then s.semaphores + [PERMITS] else s.semaphores
    case Acquire(i) =>
      if CanAcquire(s, i) then s.semaphores[s.tasks[i].sem := s.semaphores[s.tasks[i].sem] - 1] else s.semaphores
    case Release(i) =>
      if i < |s.tasks| && s.tasks[i].pc.Releasing? && s.tasks[i].sem < |s.semaphores|
      then s.semaphores[s.tasks[i].sem := s.semaphores[s.tasks[i].sem] + 1]
      else s.semaphores
    case _ => s.semaphores
  }

  function Next(s: State, a: Action): State {
    State(
      if a.SetCritical? && LoopFree(s) then a.reasons
      else if a.ClearCritical? && LoopFree(s) then false
      else s.critical,
      Semaphores(s, a),
      if |Semaphores(s, a)| > |s.semaphores| then Some(|s.semaphores|) else s.current,
      Tasks(s, a) + if a.Submit? then [FRESH] else [])
  }

  function Run(actions: seq<Action>): State {
    if actions == [] then INIT else Next(Run(actions[..|actions| - 1]), actions[|actions| - 1])
  }

  lemma RunMore(actions: seq<Action>, a: Action)
    ensures Run(actions + [a]) == Next(Run(actions), a)
  {
    assert (actions + [a])[..|actions|] == actions;
  }

  // ---------------------------------------------------------------- what every run keeps

  predicate Holds(t: Task, k: nat) {
    t.sem == k && IsActive(t)
  }

  /** Between the acquisition and the release of its permit. */
  predicate IsActive(t: Task) {
    !t.pc.Submitted? && !t.pc.MakingSemaphore? && !t.pc.Awaiting? && !t.pc.Ended?
  }

  function Holders(tasks: seq<Task>, k: nat): nat {
    if tasks == [] then 0 else Holders(tasks[..|tasks| - 1], k) + Bit(Holds(tasks[|tasks| - 1], k))
  }

  function Active(tasks: seq<Task>): nat {
    if tasks == [] then 0 else Active(tasks[..|tasks| - 1]) + Bit(IsActive(tasks[|tasks| - 1]))
  }

  ghost predicate Inv(s: State) {
    && (forall i | 0 <= i < |s.tasks| :: TaskOk(s.tasks[i]))
    && (forall i | 0 <= i < |s.tasks| && !s.tasks[i].pc.Submitted? && !s.tasks[i].pc.MakingSemaphore? ::
          s.tasks[i].sem < |s.semaphores|)
    && (s.current.Some? ==> s.current.value < |s.semaphores|)
    && (s.current.None? ==> s.semaphores == [])
    && (forall k | 0 <= k < |s.semaphores| :: s.semaphores[k] + Holders(s.tasks, k) == PERMITS)
    && (forall k: nat | k >= |s.semaphores| :: Holders(s.tasks, k) == 0)
  }

  lemma {:induction false} HoldersSame(a: seq<Task>, b: seq<Task>, k: nat)
    requires |a| == |b| && forall i | 0 <= i < |a| :: Holds(a[i], k) == Holds(b[i], k)
    ensures Holders(a, k) == Holders(b, k)
  {
    if a != [] {
      HoldersSame(a[..|a| - 1], b[..|b| - 1], k);
    }
  }

  lemma {:induction false} HoldersOne(a: seq<Task>, b: seq<Task>, k: nat, j: nat)
    requires j < |a| == |b| && forall i | 0 <= i < |a| && i != j :: Holds(a[i], k) == Holds(b[i], k)
    ensures Holders(b, k) + Bit(Holds(a[j], k)) == Holders(a, k) + Bit(Holds(b[j], k))
  {
    var n := |a| - 1;
    if j < n {
      HoldersOne(a[..n], b[..n], k, j);
    } else {
      HoldersSame(a[..n], b[..n], k);
    }
  }

  /** What a move does to the semaphore of a task and to its hold of a permit. */
  lemma HoldOfMove(critical: bool, t: Task, m: Move)
    requires TaskOk(t)
    ensures var u := Moved(critical, t, m);
            if m.Looked? && t.pc.Submitted? then u.pc.Awaiting? && u.sem == m.sem
            else
              && u.sem == t.sem
              && (u.pc.Submitted? || u.pc.MakingSemaphore? <==> t.pc.Submitted? || t.pc.MakingSemaphore?)
              && (!m.Acquired? && !m.Released? ==> IsActive(u) == IsActive(t))
  {
    if m.Ask? || m.Serve? || m.AbortBegins? {
      HandlersOnlyWake(critical, t, m);
      HandlersKeepSem(critical, t, m);
    } else if m.Go? {
      ThreadKeepsSem(critical, t, m.choice);
    }
  }

  lemma TasksStep(s: State, a: Action)
    requires Inv(s)
    ensures var t := Next(s, a); forall i | 0 <= i < |t.tasks| :: TaskOk(t.tasks[i])
  {
    forall i | 0 <= i < |s.tasks| ensures TaskOk(Tasks(s, a)[i]) {
      TaskKept(s.critical, s.tasks[i], MoveOf(s, a, i));
    }
  }

  /** How an action changes the number of permits of semaphore `k` that task `i` holds. */
  function Delta(s: State, a: Action, i: nat, k: nat): int {
    if a.Acquire? && a.i == i && CanAcquire(s, i) && s.tasks[i].sem == k then 1
    else if a.Release? && a.i == i && i < |s.tasks| && s.tasks[i].pc.Releasing? && s.tasks[i].sem == k then -1
    else 0
  }

  lemma HoldStep(s: State, a: Action, i: nat, k: nat)
    requires Inv(s) && i < |s.tasks|
    ensures Bit(Holds(Tasks(s, a)[i], k)) == Bit(Holds(s.tasks[i], k)) + Delta(s, a, i, k)
  {
    HoldOfMove(s.critical, s.tasks[i], MoveOf(s, a, i));
  }

  predicate Acts(a: Action) {
    a.Acquire? || a.Release?
  }

  lemma HoldersStep(s: State, a: Action, k: nat)
    requires Inv(s)
    ensures Holders(Next(s, a).tasks, k) == Holders(s.tasks, k) + if Acts(a) then Delta(s, a, a.i, k) else 0
  {
    hide Moved, Inv;
    var u := Tasks(s, a);
    forall i | 0 <= i < |s.tasks| ensures Bit(Holds(u[i], k)) == Bit(Holds(s.tasks[i], k)) + Delta(s, a, i, k) {
      HoldStep(s, a, i, k);
    }
    if Acts(a) && a.i < |s.tasks| {
      HoldersOne(s.tasks, u, k, a.i);
    } else {
      HoldersSame(s.tasks, u, k);
    }
    if a.Submit? {
      assert Next(s, a).tasks[..|u|] == u;
    } else {
      assert Next(s, a).tasks == u;
    }
  }

  lemma SemStep(s: State, a: Action, i: nat)
    requires Inv(s) && i < |Next(s, a).tasks|
    ensures var t := Next(s, a);
            !t.tasks[i].pc.Submitted? && !t.tasks[i].pc.MakingSemaphore? ==> t.tasks[i].sem < |t.semaphores|
  {
    if i < |s.tasks| {
      HoldOfMove(s.critical, s.tasks[i], MoveOf(s, a, i));
    }
  }

  lemma PermitsStep(s: State, a: Action, k: nat)
    requires Inv(s)
    ensures var t := Next(s, a);
            if k < |t.semaphores| then t.semaphores[k] + Holders(t.tasks, k) == PERMITS else Holders(t.tasks, k) == 0
  {
    HoldersStep(s, a, k);
  }

  lemma InvStep(s: State, a: Action)
    requires Inv(s)
    ensures Inv(Next(s, a))
  {
    var t := Next(s, a);
    TasksStep(s, a);
    forall i | 0 <= i < |t.tasks| && !t.tasks[i].pc.Submitted? && !t.tasks[i].pc.MakingSemaphore?
      ensures t.tasks[i].sem < |t.semaphores| {
      SemStep(s, a, i);
    }
    forall k: nat
      ensures if k < |t.semaphores| then t.semaphores[k] + Holders(t.tasks, k) == PERMITS
              else Holders(t.tasks, k) == 0
    {
      PermitsStep(s, a, k);
    }
  }

  lemma {:induction false} InvHolds(actions: seq<Action>)
    ensures Inv(Run(actions))
  {
    if actions != [] {
      InvHolds(actions[..|actions| - 1]);
      InvStep(Run(actions[..|actions| - 1]), actions[|actions| - 1]);
    }
  }

  lemma MoreFuture(past: seq<Action>, future: seq<Action>)
    requires future != []
    ensures Run(past + future) == Next(Run(past + future[..|future| - 1]), future[|future| - 1])
  {
    hide Next;
    var all, init, a := past + future, past + future[..|future| - 1], future[|future| - 1];
    assert all == init + [a];
    RunMore(init, a);
  }

  lemma {:induction false} TasksStay(past: seq<Action>, future: seq<Action>)
    ensures |Run(past).tasks| <= |Run(past + future).tasks|
  {
    if future == [] {
      assert past + future == past;
    } else {
      TasksStay(past, future[..|future| - 1]);
      MoreFuture(past, future);
    }
  }

  // ---------------------------------------------------------------- main result: permits

  /** In every run, the free permits of a semaphore and the pipelines between its acquire and its release
      are three together. */
  lemma PermitsAreConserved(actions: seq<Action>, k: nat)
    requires k < |Run(actions).semaphores|
    ensures Run(actions).semaphores[k] + Holders(Run(actions).tasks, k) == 3
  {
    InvHolds(actions);
  }

  lemma {:induction false} ActiveAreHolders(tasks: seq<Task>)
    requires forall i | 0 <= i < |tasks| && IsActive(tasks[i]) :: tasks[i].sem == 0
    ensures Active(tasks) == Holders(tasks, 0)
  {
    if tasks != [] {
      ActiveAreHolders(tasks[..|tasks| - 1]);
    }
  }

  /** As long as only one semaphore was made, at most three pipelines are active: free permits and active
      pipelines are three together. */
  lemma AtMostThree(actions: seq<Action>)
    requires |Run(actions).semaphores| <= 1
    ensures var s := Run(actions); Active(s.tasks) + (if s.semaphores == [] then 3 else s.semaphores[0]) == 3
  {
    InvHolds(actions);
    var s := Run(actions);
    forall i | 0 <= i < |s.tasks| && IsActive(s.tasks[i]) ensures s.tasks[i].sem == 0 {
      assert s.tasks[i].sem < |s.semaphores|;
    }
    ActiveAreHolders(s.tasks);
  }

  predicate NobodyMakes(s: State) {
    forall i | 0 <= i < |s.tasks| :: !s.tasks[i].pc.MakingSemaphore?
  }

  lemma {:induction false} WarmStart(past: seq<Action>, future: seq<Action>)
    requires Run(past).current.Some? && NobodyMakes(Run(past))
    ensures var s := Run(past + future); |s.semaphores| == |Run(past).semaphores| && s.current.Some? && NobodyMakes(s)
  {
    if future == [] {
      assert past + future == past;
    } else {
      var init, a := future[..|future| - 1], future[|future| - 1];
      var s := Run(past + init);
      WarmStart(past, init);
      MoreFuture(past, future);
      InvHolds(past + init);
      WarmStep(s, a);
    }
  }

  lemma WarmStep(s: State, a: Action)
    requires Inv(s) && s.current.Some? && NobodyMakes(s)
    ensures var t := Next(s, a); |t.semaphores| == |s.semaphores| && t.current.Some? && NobodyMakes(t)
  {
    forall i | 0 <= i < |s.tasks| ensures !Tasks(s, a)[i].pc.MakingSemaphore? {
      MakersStep(s, a, i);
    }
  }

  lemma MakersStep(s: State, a: Action, i: nat)
    requires Inv(s) && s.current.Some? && i < |s.tasks| && !s.tasks[i].pc.MakingSemaphore?
    ensures !Tasks(s, a)[i].pc.MakingSemaphore?
  {
    var t, m := s.tasks[i], MoveOf(s, a, i);
    if m.Ask? || m.Serve? || m.AbortBegins? {
      HandlersOnlyWake(s.critical, t, m);
    } else if m.Go? {
      ThreadKeepsSem(s.critical, t, m.choice);
    }
  }

  // ---------------------------------------------------------------- main result: outcomes

  /** In every run, a pipeline that has ended recorded exactly one outcome, the one of the clause that ended
      it, unless its completion tail raised after the record (one more) or its `except` clause raised before
      it (one less); and its status is that outcome's, or the error of an abort that was under way. */
  lemma OutcomeOnce(actions: seq<Action>, i: nat)
    requires i < |Run(actions).tasks| && Run(actions).tasks[i].pc.Ended?
    ensures Accounted(Run(actions).tasks[i], Run(actions).tasks[i].pc.verdict)
  {
    InvHolds(actions);
    EndIsAccounted(Run(actions).tasks[i]);
  }

  /** Once a pipeline has ended and no handler is still about to write, its status and its record never
      change again. */
  lemma {:induction false} TheEndIsFinal(past: seq<Action>, future: seq<Action>, i: nat)
    requires i < |Run(past).tasks| && AtRest(Run(past).tasks[i])
    ensures i < |Run(past + future).tasks|
    ensures var t, u := Run(past).tasks[i], Run(past + future).tasks[i];
            AtRest(u) && u.status == t.status && u.log == t.log && u.segments == t.segments
  {
    TasksStay(past, future);
    if future == [] {
      assert past + future == past;
    } else {
      var init := future[..|future| - 1];
      TheEndIsFinal(past, init, i);
      MoreFuture(past, future);
      InvHolds(past + init);
      var s := Run(past + init);
      RestStays(s.critical, s.tasks[i], MoveOf(s, future[|future| - 1], i));
    }
  }

  // ---------------------------------------------------------------- main result: cancelled in time

  lemma {:induction false} DoomedForever(past: seq<Action>, future: seq<Action>, i: nat)
    requires i < |Run(past).tasks| && Doomed(Run(past).tasks[i])
    ensures i < |Run(past + future).tasks| && Doomed(Run(past + future).tasks[i])
  {
    TasksStay(past, future);
    if future == [] {
      assert past + future == past;
    } else {
      var init := future[..|future| - 1];
      DoomedForever(past, init, i);
      MoreFuture(past, future);
      InvHolds(past + init);
      var s := Run(past + init);
      DoomedStays(s.critical, s.tasks[i], MoveOf(s, future[|future| - 1], i));
    }
  }

  /** Once the cancel flag is up after the prologue and before the last checkpoint, by a cancel request or by
      the critical state, then in every continuation the pipeline never enters the finalize step and never
      shows as done, and if it ends it is as cancelled or as failed. */
  lemma CancelledInTime(past: seq<Action>, future: seq<Action>, i: nat)
    requires i < |Run(past).tasks|
    requires Run(past).tasks[i].cancel && InWindow(Run(past).tasks[i].pc)
    ensures i < |Run(past + future).tasks|
    ensures NeverDone(Run(past + future).tasks[i])
  {
    DoomedForever(past, future, i);
    InvHolds(past + future);
    DoomedIsNeverDone(Run(past + future).tasks[i]);
  }

  predicate Own(a: Action, i: nat) {
    (a.Step? || a.Release?) && a.i == i
  }

  /** The steps that the thread of task `i` takes in the continuation. */
  function OwnSteps(past: seq<Action>, future: seq<Action>, i: nat): nat
    requires i < |Run(past).tasks|
  {
    if future == [] then 0
    else
      var init := future[..|future| - 1];
      TasksStay(past, init);
      TasksStay(past, future);
      OwnSteps(past, init, i)
      + Bit(Own(future[|future| - 1], i) && Run(past + future).tasks[i].pc != Run(past + init).tasks[i].pc)
  }

  lemma BoundedStep(s: State, a: Action, i: nat, taken: nat, bound: nat)
    requires i < |s.tasks| && TaskOk(s.tasks[i]) && Doomed(s.tasks[i])
    requires taken + Rank(s.tasks[i].pc) <= bound
    ensures var u := Tasks(s, a)[i]; taken + Bit(Own(a, i) && u.pc != s.tasks[i].pc) + Rank(u.pc) <= bound
  {
    RankDrops(s.critical, s.tasks[i], MoveOf(s, a, i));
  }

  lemma {:induction false} StepsAreBounded(past: seq<Action>, future: seq<Action>, i: nat)
    requires i < |Run(past).tasks| && Doomed(Run(past).tasks[i])
    ensures i < |Run(past + future).tasks|
    ensures OwnSteps(past, future, i) + Rank(Run(past + future).tasks[i].pc) <= Rank(Run(past).tasks[i].pc)
  {
    TasksStay(past, future);
    if future == [] {
      assert past + future == past;
    } else {
      var init, a := future[..|future| - 1], future[|future| - 1];
      StepsAreBounded(past, init, i);
      DoomedForever(past, init, i);
      MoreFuture(past, future);
      InvHolds(past + init);
      BoundedStep(Run(past + init), a, i, OwnSteps(past, init, i), Rank(Run(past).tasks[i].pc));
    }
  }

  /** The thread can move by itself, whatever its oracles answer. */
  predicate CanMove(s: State, i: nat, choice: Choice)
    requires i < |s.tasks|
  {
    Next(s, if s.tasks[i].pc.Releasing? then Release(i) else Step(i, choice)).tasks[i].pc != s.tasks[i].pc
  }

  lemma DoomedCanMove(s: State, i: nat, choice: Choice)
    requires i < |s.tasks| && TaskOk(s.tasks[i]) && Doomed(s.tasks[i])
    ensures s.tasks[i].pc.Ended? || Blocked(s.tasks[i]) || CanMove(s, i, choice)
  {
    if !s.tasks[i].pc.Releasing? {
      RankDrops(s.critical, s.tasks[i], Go(choice));
    }
  }

  /** Such a pipeline takes at most 28 more steps; and until it has ended it has a step to take, unless it
      is blocked in its pause. */
  lemma CancelledEndsSoon(past: seq<Action>, future: seq<Action>, i: nat, choice: Choice)
    requires i < |Run(past).tasks|
    requires Run(past).tasks[i].cancel && InWindow(Run(past).tasks[i].pc)
    ensures OwnSteps(past, future, i) <= 28
    ensures i < |Run(past + future).tasks|
    ensures var s := Run(past + future); s.tasks[i].pc.Ended? || Blocked(s.tasks[i]) || CanMove(s, i, choice)
  {
    StepsAreBounded(past, future, i);
    DoomedForever(past, future, i);
    RankBound(Run(past).tasks[i].pc);
    InvHolds(past + future);
    DoomedCanMove(Run(past + future), i, choice);
  }

  lemma RankBound(pc: Pc)
    requires InWindow(pc)
    ensures Rank(pc) <= 28
  {
  }

  /** In the run, a pause request cleared the event of the task after its cancel flag was up. */
  predicate ClearedLate(actions: seq<Action>, i: nat) {
    actions != []
    && (var init, a := actions[..|actions| - 1], actions[|actions| - 1];
        ClearedLate(init, i) || (i < |Run(init).tasks| && ClearsLate(Run(init).tasks[i], MoveOf(Run(init), a, i))))
  }

  /** In the run, an exception was injected into the thread of the task while it was inside the `try`. */
  predicate Landed(actions: seq<Action>, i: nat) {
    actions != []
    && (var init, a := actions[..|actions| - 1], actions[|actions| - 1];
        Landed(init, i) || (i < |Run(init).tasks| && Lands(Run(init).tasks[i], MoveOf(Run(init), a, i))))
  }

  lemma {:induction false} MarksTellTheRun(actions: seq<Action>, i: nat)
    ensures i < |Run(actions).tasks| ==>
              && Run(actions).tasks[i].clearedLate == ClearedLate(actions, i)
              && Run(actions).tasks[i].landed == Landed(actions, i)
    ensures i >= |Run(actions).tasks| ==> !ClearedLate(actions, i) && !Landed(actions, i)
  {
    if actions != [] {
      var s, a := Run(actions[..|actions| - 1]), actions[|actions| - 1];
      MarksTellTheRun(actions[..|actions| - 1], i);
      if i < |s.tasks| {
        MarksOfMove(s.critical, s.tasks[i], MoveOf(s, a, i));
      }
    }
  }

  /** In every run, a task whose cancellation has been carried out is left blocked in its pause only if a
      pause request cleared the event after the cancel request and no injection landed. */
  lemma NotLeftBlocked(actions: seq<Action>, i: nat)
    requires i < |Run(actions).tasks|
    requires var t := Run(actions).tasks[i]; t.cancel && t.handler.Idle?
    requires !ClearedLate(actions, i) || Landed(actions, i)
    ensures !Blocked(Run(actions).tasks[i])
  {
    InvHolds(actions);
    MarksTellTheRun(actions, i);
    var t := Run(actions).tasks[i];
    if Blocked(t) {
      WhenBlocked(t);
    }
  }

  // ---------------------------------------------------------------- main result: pausing

  /** From the moment the event is cleared, in every continuation in which nobody sets it, at most one more
      segment is appended. */
  lemma {:induction false} PauseHolds(past: seq<Action>, future: seq<Action>, i: nat)
    requires i < |Run(past).tasks|
    requires forall n | 0 <= n <= |future| ::
               i < |Run(past + future[..n]).tasks| && Run(past + future[..n]).tasks[i].event == Some(false)
    ensures i < |Run(past + future).tasks|
    ensures Run(past + future).tasks[i].segments <= Run(past).tasks[i].segments + 1
  {
    CommittedHolds(past, future, i);
  }

  lemma {:induction false} CommittedHolds(past: seq<Action>, future: seq<Action>, i: nat)
    requires i < |Run(past).tasks|
    requires forall n | 0 <= n <= |future| ::
               i < |Run(past + future[..n]).tasks| && Run(past + future[..n]).tasks[i].event == Some(false)
    ensures i < |Run(past + future).tasks|
    ensures Committed(Run(past + future).tasks[i]) <= Committed(Run(past).tasks[i])
  {
    TasksStay(past, future);
    if future == [] {
      assert past + future == past;
    } else {
      var init := future[..|future| - 1];
      forall n | 0 <= n <= |init|
        ensures i < |Run(past + init[..n]).tasks| && Run(past + init[..n]).tasks[i].event == Some(false) {
        assert init[..n] == future[..n];
      }
      CommittedHolds(past, init, i);
      MoreFuture(past, future);
      InvHolds(past + init);
      assert future[..|future|] == future && future[..|init|] == init;
      var s := Run(past + init);
      PausedStays(s.critical, s.tasks[i], MoveOf(s, future[|future| - 1], i));
    }
  }
}
