/**
 No run of the task protocol gets stuck: from every reachable state the handlers can finish, a paused
 thread can be resumed, every pipeline can be brought to its end and its permit passed on.
 `EveryPipelineCanEnd` is the main result; `Endings` rests on the rest.
 */
module Progress {
  import opened PyText
  import opened Lifecycle
  import opened Pipelines
  import opened Drives

  // ---------------------------------------------------------------- the handlers finish

  /** A handler finishes and its injection does not land: the thread is at most woken. */
  predicate Calmed(t: Task, u: Task) {
    && u.pending == t.pending && u.sem == t.sem
    && (u.pc == t.pc || (t.pc == Waiting(false) && u.pc == Waiting(true)))
    && (u.status == t.status || u.status.Error?)
    && (t.handler.Idle? ==> u == t)
  }

  function StepsLeft(h: Handler): nat {
    match h
    case Idle => 0
    case CancelFlag => 3
    case CancelSet => 2
    case CancelInject => 1
    case PauseClear => 1
    case AbortCheck => 5
    case AbortFlag => 4
    case AbortSet => 3
    case AbortInject => 2
    case AbortEmit => 1
  }

  lemma ServeCalms(t: Task)
    requires !t.handler.Idle?
    ensures var u := Continue(t, false);
            StepsLeft(u.handler) < StepsLeft(t.handler) && u.pending == t.pending && u.sem == t.sem
            && (u.status == t.status || u.status.Error?)
  {
    hide Interruptible, Final;
    if t.handler.CancelInject? || t.handler.AbortInject? {
      assert Inject(t, Abort.Cancel, false) == t && Inject(t, Critical, false) == t;
    }
  }

  lemma {:induction false} CalmTask(critical: bool, t: Task) returns (turns: seq<Turn>)
    ensures var u := Turns(critical, t, turns); u.handler.Idle? && Calmed(t, u)
    decreases StepsLeft(t.handler)
  {
    hide Continue;
    if t.handler.Idle? {
      turns := [];
    } else {
      var u := Continue(t, false);
      ServeCalms(t);
      ServeOnlyWakes(t, false);
      var rest := CalmTask(critical, u);
      turns := [SERVE] + rest;
      FirstTurn(critical, t, SERVE, rest);
    }
  }

  predicate CalmedUpTo(s: State, u: State, n: nat)
    requires n <= |s.tasks|
  {
    && u == s.(tasks := u.tasks) && |u.tasks| == |s.tasks|
    && (forall i | 0 <= i < n :: u.tasks[i].handler.Idle? && Calmed(s.tasks[i], u.tasks[i]))
    && (forall i | n <= i < |s.tasks| :: u.tasks[i] == s.tasks[i])
  }

  lemma {:induction false} CalmUpTo(s: State, n: nat) returns (u: State)
    requires n <= |s.tasks|
    ensures Leads(s, u) && CalmedUpTo(s, u, n)
  {
    hide Next, Turns, Leads;
    if n == 0 {
      u := s;
      LeadsHere(s);
    } else {
      var v := CalmUpTo(s, n - 1);
      var turns := CalmTask(v.critical, v.tasks[n - 1]);
      Driven(v, n - 1, turns);
      u := With(v, n - 1, Turns(v.critical, v.tasks[n - 1], turns));
      LeadsOn(s, v, u);
    }
  }

  /** Every state leads to one in which no handler is at work and the system is healthy. */
  lemma CalmsDown(s: State) returns (u: State)
    ensures Leads(s, u) && LoopFree(u) && !u.critical
    ensures u.semaphores == s.semaphores && u.current == s.current && |u.tasks| == |s.tasks|
    ensures forall i | 0 <= i < |s.tasks| :: Calmed(s.tasks[i], u.tasks[i])
  {
    var v := CalmUpTo(s, |s.tasks|);
    assert Tasks(v, ClearCritical) == v.tasks;
    u := Next(v, ClearCritical);
    LeadsNext(s, v, ClearCritical);
  }

  // ---------------------------------------------------------------- a pipeline ends

  /** How many failing steps a thread is from its end, at most. */
  function ToTheEnd(pc: Pc): nat {
    match pc
    case Releasing(_) => 0
    case Unwinding(_) => 1
    case Handling(_, _) => 2
    case Work(_) => 3
    case Announce(_) => 4
    case Enter(_) => 5
    case CheckCritical(_) => 6
    case CheckCancel(_) => 7
    case Prologue => 6
    case NextSegment => 3
    case Append => 4
    case ResumedNotice => 5
    case Woken => 6
    case Waiting(notified) => if notified then 7 else 8
    case EnterWait => 9
    case PausedNotice => 10
    case Pausing => 11
    case SegmentPause => 12
    case SegmentCancel => 13
    case SegmentCritical => 14
    case MarkDone => 3
    case Tail => 3
    case RecordDone => 4
    case EmitDone => 5
    case _ => 0
  }

  /** The turn that takes a thread nearer to its end. */
  function EndingTurn(t: Task): Turn {
    if t.pc == Waiting(false) then Asked(ResumeRequest) else OwnStep(Fail)
  }

  lemma FailInPhase(critical: bool, t: Task)
    requires InPhase(t.pc)
    ensures ToTheEnd(PhaseStep(critical, t, Fail).pc) < ToTheEnd(t.pc)
  {
  }

  lemma FailAtCheck(critical: bool, t: Task)
    requires IsCheck(t.pc)
    ensures ToTheEnd(CheckStep(critical, t).pc) < ToTheEnd(t.pc)
  {
  }

  lemma FailInLoop(critical: bool, t: Task)
    requires InLoop(t.pc) && !InPause(t.pc)
    ensures ToTheEnd(SegmentStep(critical, t, Fail).pc) < ToTheEnd(t.pc)
  {
  }

  lemma FailInPause(t: Task)
    requires InPause(t.pc) && t.pc != Waiting(false)
    ensures ToTheEnd(PauseStep(t).pc) < ToTheEnd(t.pc)
  {
  }

  lemma FailInClause(t: Task)
    requires t.pc.Handling?
    ensures ToTheEnd(ClauseStep(t, Fail).pc) < ToTheEnd(t.pc)
  {
  }

  lemma FailEdgePc(t: Task)
    requires AtEdge(t.pc) || t.pc.Prologue?
    ensures var pc := EdgeStep(t, Fail).pc;
            if t.pc.MarkDone? || t.pc.Tail? then pc == Handling(Failure, Mark)
            else if t.pc.Prologue? then pc == Enter(Probe)
            else if t.pc.EmitDone? then pc == RecordDone
            else if t.pc.RecordDone? then pc == Tail
            else t.pc.Unwinding? && pc == Releasing(t.pc.verdict)
  {
  }

  lemma FailAtEdge(t: Task)
    requires AtEdge(t.pc) || t.pc.Prologue?
    ensures ToTheEnd(EdgeStep(t, Fail).pc) < ToTheEnd(t.pc)
  {
    hide EdgeStep;
    FailEdgePc(t);
  }

  lemma FailsNearer(critical: bool, t: Task)
    requires TaskOk(t) && IsActive(t) && !t.pc.Releasing? && t.pc != Waiting(false)
    ensures ToTheEnd(Thread(critical, t, Fail).pc) < ToTheEnd(t.pc)
  {
    if t.pending.Some? {
      assert ToTheEnd(t.pc) > 2;
    } else if InPause(t.pc) {
      FailInPause(t);
    } else if InLoop(t.pc) {
      FailInLoop(critical, t);
    } else if IsCheck(t.pc) {
      FailAtCheck(critical, t);
    } else if InPhase(t.pc) {
      FailInPhase(critical, t);
    } else if t.pc.Handling? {
      FailInClause(t);
    } else {
      FailAtEdge(t);
    }
  }

  lemma Resumes(t: Task)
    requires t.pc == Waiting(false) && t.handler.Idle? && t.event.Some?
    ensures Start(t, ResumeRequest) == t.(event := Some(true), pc := Waiting(true))
  {
  }

  lemma EndingTurnHelps(critical: bool, t: Task)
    requires TaskOk(t) && IsActive(t) && !t.pc.Releasing? && t.handler.Idle?
    ensures var u := Taken(critical, t, EndingTurn(t));
            TaskOk(u) && IsActive(u) && u.handler.Idle? && u.sem == t.sem && ToTheEnd(u.pc) < ToTheEnd(t.pc)
  {
    if t.pc == Waiting(false) {
      Resumes(t);
      TaskKept(critical, t, Ask(ResumeRequest));
    } else {
      TaskKept(critical, t, Go(Fail));
      FailsNearer(critical, t);
      ThreadKeepsSem(critical, t, Fail);
      ThreadKeepsHandler(critical, t, Fail);
    }
  }

  lemma ThreadKeepsHandler(critical: bool, t: Task, choice: Choice)
    ensures Thread(critical, t, choice).handler == t.handler
  {
    if t.pending.Some? && Interruptible(t.pc) && t.pc != Waiting(false) {
    } else if InPause(t.pc) {
      PauseMoves(t);
    } else if InLoop(t.pc) {
      SegmentMoves(critical, t, choice);
    } else if IsCheck(t.pc) {
      CheckMoves(critical, t);
    } else if InPhase(t.pc) {
      PhaseMoves(critical, t, choice);
    } else if t.pc.Handling? {
      ClauseKeepsHandler(t, choice);
    } else {
      EdgeKeepsHandler(t, choice);
    }
  }

  lemma ClauseKeepsHandler(t: Task, choice: Choice)
    requires t.pc.Handling?
    ensures ClauseStep(t, choice).handler == t.handler
  {
  }

  lemma EdgeKeepsHandler(t: Task, choice: Choice)
    ensures EdgeStep(t, choice).handler == t.handler
  {
  }

  lemma {:induction false} EndTask(critical: bool, t: Task) returns (turns: seq<Turn>)
    requires TaskOk(t) && IsActive(t) && t.handler.Idle?
    ensures var u := Turns(critical, t, turns); u.pc.Releasing? && u.handler.Idle? && u.sem == t.sem
    decreases ToTheEnd(t.pc)
  {
    if t.pc.Releasing? {
      turns := [];
    } else {
      EndingTurnHelps(critical, t);
      var rest := EndTask(critical, Taken(critical, t, EndingTurn(t)));
      turns := [EndingTurn(t)] + rest;
      FirstTurn(critical, t, EndingTurn(t), rest);
    }
  }

  // ---------------------------------------------------------------- a permit is passed on

  lemma {:induction false} SomeHolder(tasks: seq<Task>, k: nat) returns (j: nat)
    requires Holders(tasks, k) > 0
    ensures j < |tasks| && Holds(tasks[j], k)
  {
    var n := |tasks| - 1;
    if Holds(tasks[n], k) {
      j := n;
    } else {
      j := SomeHolder(tasks[..n], k);
    }
  }

  lemma ReleaseIs(s: State, j: nat)
    requires j < |s.tasks| && s.tasks[j].pc.Releasing? && s.tasks[j].sem < |s.semaphores|
    ensures var t := s.tasks[j];
            Next(s, Release(j)) ==
              With(s, j, t.(pc := Ended(t.pc.verdict))).(semaphores := s.semaphores[t.sem := s.semaphores[t.sem] + 1])
  {
    var t := s.tasks[j];
    assert Tasks(s, Release(j)) == s.tasks[j := t.(pc := Ended(t.pc.verdict))];
  }

  /** An active pipeline can be brought to its end; the permit is free then, and no other task has moved. */
  lemma CanRelease(s: State, j: nat) returns (u: State)
    requires Inv(s) && LoopFree(s) && j < |s.tasks| && IsActive(s.tasks[j])
    ensures Leads(s, u) && LoopFree(u) && u.critical == s.critical && u.current == s.current
    ensures s.tasks[j].sem < |s.semaphores| == |u.semaphores| && u.semaphores[s.tasks[j].sem] > 0
    ensures |u.tasks| == |s.tasks| && u.tasks[j].pc.Ended?
    ensures forall i | 0 <= i < |s.tasks| && i != j :: u.tasks[i] == s.tasks[i]
  {
    var turns := EndTask(s.critical, s.tasks[j]);
    var t := Turns(s.critical, s.tasks[j], turns);
    var v := With(s, j, t);
    Driven(s, j, turns);
    ReleaseIs(v, j);
    u := Next(v, Release(j));
    LeadsNext(s, v, Release(j));
  }

  lemma FreePermit(s: State, k: nat, i: nat) returns (u: State)
    requires Inv(s) && LoopFree(s) && k < |s.semaphores| && i < |s.tasks| && !IsActive(s.tasks[i])
    ensures Leads(s, u) && LoopFree(u) && u.critical == s.critical && u.current == s.current
    ensures |u.semaphores| == |s.semaphores| && u.semaphores[k] > 0
    ensures |u.tasks| == |s.tasks| && u.tasks[i] == s.tasks[i]
    ensures forall j | 0 <= j < |s.tasks| && !IsActive(s.tasks[j]) :: u.tasks[j] == s.tasks[j]
  {
    if s.semaphores[k] > 0 {
      u := s;
      LeadsHere(s);
    } else {
      var j := SomeHolder(s.tasks, k);
      u := CanRelease(s, j);
    }
  }

  // ---------------------------------------------------------------- a pipeline starts

  lemma AddressedIs(s: State, a: Action, i: nat)
    requires i < |s.tasks| && Addresses(a, i)
    ensures var t := Moved(s.critical, s.tasks[i], MoveOf(s, a, i));
            Next(s, a) ==
              With(s, i, t).(semaphores := Semaphores(s, a),
                             current := if |Semaphores(s, a)| > |s.semaphores| then Some(|s.semaphores|) else s.current)
  {
    OnlyAddressed(s, a, i);
  }

  predicate Queued(t: Task, u: Task) {
    u.pc.Awaiting? && u == t.(pc := u.pc, sem := u.sem)
  }

  lemma Looks(s: State, i: nat) returns (u: State)
    requires Inv(s) && LoopFree(s) && i < |s.tasks| && s.tasks[i].pc.Submitted? && s.current.Some?
    ensures Leads(s, u) && LoopFree(u) && u.critical == s.critical
    ensures |u.tasks| == |s.tasks| && Queued(s.tasks[i], u.tasks[i])
  {
    AddressedIs(s, Look(i), i);
    u := Next(s, Look(i));
    LeadsHere(s);
    LeadsNext(s, s, Look(i));
  }

  lemma MakesAndLooks(s: State, i: nat) returns (u: State)
    requires Inv(s) && LoopFree(s) && i < |s.tasks| && s.tasks[i].pc.MakingSemaphore?
    ensures Leads(s, u) && LoopFree(u) && u.critical == s.critical
    ensures |u.tasks| == |s.tasks| && Queued(s.tasks[i], u.tasks[i])
  {
    AddressedIs(s, Make(i), i);
    var v := Next(s, Make(i));
    LeadsHere(s);
    LeadsNext(s, s, Make(i));
    InvStep(s, Make(i));
    u := Looks(v, i);
    LeadsOn(s, v, u);
  }

  lemma Queues(s: State, i: nat) returns (u: State)
    requires Inv(s) && LoopFree(s) && i < |s.tasks| && Unstarted(s.tasks[i].pc)
    ensures Leads(s, u) && LoopFree(u) && u.critical == s.critical
    ensures |u.tasks| == |s.tasks| && Queued(s.tasks[i], u.tasks[i])
  {
    var t := s.tasks[i];
    if t.pc.Awaiting? {
      u := s;
      LeadsHere(s);
    } else if t.pc.MakingSemaphore? {
      u := MakesAndLooks(s, i);
    } else if s.current.Some? {
      u := Looks(s, i);
    } else {
      AddressedIs(s, Look(i), i);
      var v := Next(s, Look(i));
      LeadsHere(s);
      LeadsNext(s, s, Look(i));
      InvStep(s, Look(i));
      u := MakesAndLooks(v, i);
      LeadsOn(s, v, u);
    }
  }

  /** A task that waits to start can always get a permit. */
  lemma CanAcquirePermit(s: State, i: nat) returns (u: State)
    requires Inv(s) && LoopFree(s) && i < |s.tasks| && Unstarted(s.tasks[i].pc)
    ensures Leads(s, u) && LoopFree(u) && u.critical == s.critical && |u.tasks| == |s.tasks|
    ensures u.tasks[i] == s.tasks[i].(pc := Prologue, sem := u.tasks[i].sem)
  {
    hide Inv, Leads;
    var v := Queues(s, i);
    LeadsKeeps(s, v);
    var k := v.tasks[i].sem;
    var w := FreePermit(v, k, i);
    AddressedIs(w, Acquire(i), i);
    u := Next(w, Acquire(i));
    LeadsOn(s, v, w);
    LeadsNext(s, w, Acquire(i));
  }

  // ---------------------------------------------------------------- main result: nobody is stuck

  /** From every state of every run, every pipeline can still be brought to its end, whatever the others
      do meanwhile. */
  lemma EveryPipelineCanEnd(actions: seq<Action>, i: nat)
    requires i < |Run(actions).tasks|
    ensures exists future :: i < |Run(actions + future).tasks| && Run(actions + future).tasks[i].pc.Ended?
  {
    var s := Run(actions);
    InvHolds(actions);
    var u := CalmsDown(s);
    LeadsKeeps(s, u);
    var v := Ends(u, i);
    LeadsOn(s, u, v);
    var future := RunCanReach(actions, v);
    assert Run(actions + future).tasks[i].pc.Ended?;
  }

  lemma Ends(s: State, i: nat) returns (u: State)
    requires Inv(s) && LoopFree(s) && i < |s.tasks|
    ensures Leads(s, u) && i < |u.tasks| && u.tasks[i].pc.Ended?
  {
    if s.tasks[i].pc.Ended? {
      u := s;
      LeadsHere(s);
    } else {
      var v := s;
      LeadsHere(s);
      if Unstarted(s.tasks[i].pc) {
        v := CanAcquirePermit(s, i);
      }
      LeadsKeeps(s, v);
      u := CanRelease(v, i);
      LeadsOn(s, v, u);
    }
  }
}
