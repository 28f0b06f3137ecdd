/**
 Which accepted cancel requests can be lost (app/routes/control.py, `cancel`, and the checks of
 `process_video` in app/services/pipeline.py), exactly.

 The handler accepts a request for every task that is not finished, but the thread looks at the flag only
 between its prologue, which lowers it, and the check before the finalize step. `CancelIsLostIff` says from
 which states of a flagged task some continuation completes it, `AcceptedCancelIsLostIff` says it of the
 state before the request, and `LateCancelRun` is a run that loses a request behind the last check.
 (`Races.ForgottenRun` is one that loses it in the queue.)
 */
module LostCancels {
  import opened PyText
  import opened Lifecycle
  import opened Pipelines
  import opened Drives
  import opened Progress
  import Endings

  /** Behind the last cancel check and not yet recorded. */
  predicate PastChecks(pc: Pc) {
    match pc
    case CheckCritical(next) => next.Finalize?
    case Enter(p) => p.Finalize?
    case Announce(p) => p.Finalize?
    case Work(p) => p.Finalize?
    case MarkDone => true
    case EmitDone => true
    case RecordDone => true
    case _ => false
  }

  /** The states of a flagged task from which it can complete: it has done so, it has not begun, or it is
      past the last check and no exception is on its way. */
  predicate CanComplete(t: Task) {
    t.log.completed > 0 || BeforeTry(t.pc) || (PastChecks(t.pc) && t.pending.None?)
  }

  // ---------------------------------------------------------------- it does not complete

  /** On the way out, or about to be. */
  predicate Bound(t: Task) {
    t.log.completed == 0 && (Doomed(t) || t.pending.Some?)
  }

  lemma BoundUnlessItCan(t: Task)
    requires TaskOk(t) && t.cancel
    ensures Bound(t) <==> !CanComplete(t)
  {
    if Over(t.pc) && t.log.completed == 0 {
      assert t.pc.verdict.Some?;
    }
  }

  lemma PendingServed(t: Task, lands: bool)
    requires t.pending.Some?
    ensures Continue(t, lands).pending.Some? && Continue(t, lands).log == t.log
  {
    hide Interruptible, Final;
  }

  lemma PendingStays(critical: bool, t: Task, m: Move)
    requires t.pending.Some? && !m.Go?
    ensures Moved(critical, t, m).pending.Some? && Moved(critical, t, m).log == t.log
  {
    hide Thread, Continue;
    if m.Serve? {
      PendingServed(t, m.lands);
    }
  }

  lemma BoundStays(critical: bool, t: Task, m: Move)
    requires TaskOk(t) && Bound(t)
    ensures Bound(Moved(critical, t, m))
  {
    hide Thread, Moved;
    var u := Moved(critical, t, m);
    if Doomed(t) {
      DoomedStays(critical, t, m);
      TaskKept(critical, t, m);
      DoomedIsNeverDone(u);
    } else if m.Go? {
      BoundRaises(critical, t, m.choice);
    } else {
      PendingStays(critical, t, m);
    }
  }

  lemma BoundRaises(critical: bool, t: Task, choice: Choice)
    requires TaskOk(t) && t.pending.Some? && t.log.completed == 0
    ensures Bound(Moved(critical, t, Go(choice)))
  {
    Endings.Delivered(critical, t, choice);
  }

  lemma {:induction false} BoundForever(past: seq<Action>, future: seq<Action>, i: nat)
    requires i < |Run(past).tasks| && Bound(Run(past).tasks[i])
    ensures i < |Run(past + future).tasks| && Bound(Run(past + future).tasks[i])
  {
    TasksStay(past, future);
    if future == [] {
      assert past + future == past;
    } else {
      var init := future[..|future| - 1];
      BoundForever(past, init, i);
      MoreFuture(past, future);
      InvHolds(past + init);
      var s := Run(past + init);
      BoundStays(s.critical, s.tasks[i], MoveOf(s, future[|future| - 1], i));
    }
  }

  // ---------------------------------------------------------------- it can complete

  /** How many steps a thread that nothing stops is from its record, when the audio ends at once. */
  function ToTheRecord(pc: Pc): nat {
    match pc
    case Prologue => 39
    case Enter(p) => WorkToRecord(p) + 2
    case Announce(p) => WorkToRecord(p) + 1
    case Work(p) => WorkToRecord(p)
    case CheckCritical(p) => WorkToRecord(p) + 3
    case CheckCancel(p) => WorkToRecord(p) + 4
    case NextSegment => 21
    case MarkDone => 3
    case EmitDone => 2
    case RecordDone => 1
    case _ => 0
  }

  function WorkToRecord(p: Phase): nat {
    match p
    case Probe => 36
    case Extract => 31
    case Load => 26
    case Transcribe => 21
    case Diarize => 18
    case BreakLines => 15
    case Translate => 12
    case Validate => 9
    case Finalize => 4
  }

  /** On the way to the record with nothing to stop the thread in a healthy system. */
  predicate OnTrack(t: Task) {
    && t.pending.None? && t.handler.Idle?
    && (PastChecks(t.pc) || t.pc.Prologue?
        || (!t.cancel && (InPhase(t.pc) || IsCheck(t.pc) || t.pc.NextSegment?)))
  }

  predicate Gains(t: Task, u: Task) {
    u.log.completed > 0 || (OnTrack(u) && ToTheRecord(u.pc) < ToTheRecord(t.pc))
  }

  lemma GainsByWork(t: Task)
    requires OnTrack(t) && t.pc.Work?
    ensures Gains(t, t.(pc := After(t.pc.phase)))
  {
  }

  lemma GainsInPhase(t: Task)
    requires OnTrack(t) && InPhase(t.pc)
    ensures Gains(t, PhaseStep(false, t, EndOfAudio))
  {
    if t.pc.Work? {
      GainsByWork(t);
    }
  }

  lemma GainsAtCheck(t: Task)
    requires OnTrack(t) && IsCheck(t.pc)
    ensures Gains(t, CheckStep(false, t))
  {
  }

  lemma GainsElsewhere(t: Task)
    requires OnTrack(t) && !InPhase(t.pc) && !IsCheck(t.pc)
    ensures Gains(t, Thread(false, t, EndOfAudio))
  {
  }

  lemma ThreadGains(t: Task)
    requires OnTrack(t)
    ensures Gains(t, Taken(false, t, OwnStep(EndOfAudio)))
  {
    hide Gains;
    if InPhase(t.pc) {
      GainsInPhase(t);
    } else if IsCheck(t.pc) {
      GainsAtCheck(t);
    } else {
      GainsElsewhere(t);
    }
  }

  lemma {:induction false} Completes(t: Task) returns (turns: seq<Turn>)
    requires OnTrack(t)
    ensures Turns(false, t, turns).log.completed > 0
    decreases ToTheRecord(t.pc)
  {
    var own := OwnStep(EndOfAudio);
    var u := Taken(false, t, own);
    ThreadGains(t);
    var rest: seq<Turn> := [];
    if u.log.completed == 0 {
      rest := Completes(u);
    }
    turns := [own] + rest;
    FirstTurn(false, t, own, rest);
  }

  lemma CompletesFrom(actions: seq<Action>, v: State, i: nat) returns (future: seq<Action>)
    requires Leads(Run(actions), v) && !v.critical && i < |v.tasks| && OnTrack(v.tasks[i])
    ensures i < |Run(actions + future).tasks| && Run(actions + future).tasks[i].log.completed > 0
  {
    hide Run, Next;
    var turns := Completes(v.tasks[i]);
    Driven(v, i, turns);
    var w := With(v, i, Turns(false, v.tasks[i], turns));
    LeadsOn(Run(actions), v, w);
    future := RunCanReach(actions, w);
  }

  lemma CalmedOnTrack(t: Task, u: Task)
    requires TaskOk(t) && Calmed(t, u) && u.handler.Idle?
    requires BeforeTry(t.pc) || (PastChecks(t.pc) && t.pending.None?)
    ensures u.pc == t.pc && u.pending.None? && (OnTrack(u) || Unstarted(u.pc))
  {
  }

  lemma CanStillComplete(actions: seq<Action>, i: nat) returns (future: seq<Action>)
    requires i < |Run(actions).tasks| && CanComplete(Run(actions).tasks[i])
    ensures i < |Run(actions + future).tasks| && Run(actions + future).tasks[i].log.completed > 0
  {
    hide Next, Thread, Leads;
    var s := Run(actions);
    if s.tasks[i].log.completed > 0 {
      future := [];
      assert actions + future == actions;
    } else {
      InvHolds(actions);
      var u := CalmsDown(s);
      LeadsKeeps(s, u);
      CalmedOnTrack(s.tasks[i], u.tasks[i]);
      var v := u;
      LeadsHere(u);
      if Unstarted(u.tasks[i].pc) {
        v := CanAcquirePermit(u, i);
      }
      LeadsOn(s, u, v);
      future := CompletesFrom(actions, v, i);
    }
  }

  // ---------------------------------------------------------------- main results

  /** In every run, a task whose cancel flag is up completes in some continuation exactly if it has
      completed, has not come to its prologue yet, or is past the last check with no exception pending. */
  lemma CancelIsLostIff(actions: seq<Action>, i: nat)
    requires i < |Run(actions).tasks| && Run(actions).tasks[i].cancel
    ensures (exists future :: i < |Run(actions + future).tasks| && Run(actions + future).tasks[i].log.completed > 0)
            <==> CanComplete(Run(actions).tasks[i])
  {
    InvHolds(actions);
    BoundUnlessItCan(Run(actions).tasks[i]);
    if CanComplete(Run(actions).tasks[i]) {
      var future := CanStillComplete(actions, i);
      assert Run(actions + future).tasks[i].log.completed > 0;
    } else {
      forall future | i < |Run(actions + future).tasks| ensures Run(actions + future).tasks[i].log.completed == 0 {
        BoundForever(actions, future, i);
      }
    }
  }

  /** A cancel request and the three steps of its handler; the injection lands or not. */
  function Cancelling(lands: bool): seq<Turn> {
    [Asked(CancelRequest), SERVE, SERVE, Served(lands)]
  }

  lemma WakesAlike(t: Task)
    ensures Interruptible(SetEvent(t).pc) == Interruptible(t.pc)
  {
  }

  lemma CancellingRuns(critical: bool, t: Task, lands: bool)
    requires t.handler.Idle? && !Final(t.status) && !t.cancel
    ensures var u := Turns(critical, t, Cancelling(lands));
            && u.cancel && u.handler.Idle? && u.log == t.log && u.status == t.status
            && (u.pc == t.pc || (t.pc == Waiting(false) && u.pc == Waiting(true)))
            && u.pending == if lands && t.thread && Interruptible(t.pc) then Some(Abort.Cancel) else t.pending
  {
    hide Interruptible;
    WakesAlike(t.(cancel := true, handler := CancelSet));
    var flagged := t.(cancel := true, handler := CancelSet);
    FourTurns(critical, t, Asked(CancelRequest), SERVE, SERVE, Served(lands));
    var woken := SetEvent(flagged).(handler := CancelInject);
    assert Turns(critical, t, Cancelling(lands)) == Inject(woken, Abort.Cancel, lands).(handler := Idle);
  }

  /** An accepted cancel request, told from the state before it: once its handler is through, some
      continuation still completes the task exactly if it was queued, or was past the last check and the
      injection did not land. */
  lemma AcceptedCancelIsLostIff(actions: seq<Action>, i: nat, lands: bool)
    requires i < |Run(actions).tasks|
    requires var t := Run(actions).tasks[i]; t.handler.Idle? && !Final(t.status) && !t.cancel
    ensures var t, asked := Run(actions).tasks[i], actions + ActionsOf(i, Cancelling(lands));
            && i < |Run(asked).tasks| && Run(asked).tasks[i].cancel && Run(asked).tasks[i].handler.Idle?
            && ((exists future :: i < |Run(asked + future).tasks| && Run(asked + future).tasks[i].log.completed > 0)
                <==> t.log.completed > 0 || BeforeTry(t.pc) || (PastChecks(t.pc) && t.pending.None? && !lands))
  {
    var s, asked := Run(actions), actions + ActionsOf(i, Cancelling(lands));
    var t := s.tasks[i];
    InvHolds(actions);
    RunIsGoing(actions, ActionsOf(i, Cancelling(lands)));
    ActionsAre(s, i, Cancelling(lands));
    CancellingRuns(s.critical, t, lands);
    CancelIsLostIff(asked, i);
    AsBefore(t, Run(asked).tasks[i], lands);
  }

  lemma AsBefore(t: Task, u: Task, lands: bool)
    requires TaskOk(t) && !Final(t.status) && u.log == t.log
    requires u.pc == t.pc || (t.pc == Waiting(false) && u.pc == Waiting(true))
    requires u.pending == if lands && t.thread && Interruptible(t.pc) then Some(Abort.Cancel) else t.pending
    ensures CanComplete(u)
            <==> t.log.completed > 0 || BeforeTry(t.pc) || (PastChecks(t.pc) && t.pending.None? && !lands)
  {
  }

  lemma EdgeTaken(t: Task, u: Task)
    requires AtEdge(t.pc) && t.pending.None? && EdgeStep(t, Proceed) == u
    ensures Taken(false, t, ONWARD) == u
  {
    hide EdgeStep;
  }

  /** A thread that runs undisturbed goes from the end of its work to the end of its tail. */
  lemma FinishesItself(t: Task)
    requires t.pc.MarkDone? && t.pending.None?
    ensures Turns(false, t, [ONWARD, ONWARD, ONWARD, ONWARD])
            == t.(pc := Unwinding(None), status := Status.Done, log := t.log.(completed := t.log.completed + 1))
  {
    hide Taken, Turns, Interruptible;
    var t1, t2 := t.(pc := EmitDone, status := Status.Done), t.(pc := RecordDone, status := Status.Done);
    var t3 := t2.(pc := Tail, log := t.log.(completed := t.log.completed + 1));
    FourTurns(false, t, ONWARD, ONWARD, ONWARD, ONWARD);
    EdgeTaken(t, t1);
    EdgeTaken(t1, t2);
    EdgeTaken(t2, t3);
    EdgeTaken(t3, t3.(pc := Unwinding(None)));
  }

  lemma SoloOk(t: Task)
    requires Reachable(Solo(t))
    ensures TaskOk(t)
  {
    hide TaskOk;
    var actions := ReachedByRun(Solo(t));
    InvHolds(actions);
    assert Solo(t).tasks[0] == t;
  }

  /** A run that accepts a cancel request behind the last check and completes the task: it is answered,
      carried out, and the task still ends as done. */
  lemma LateCancelRun()
    ensures exists actions, future ::
              && |Run(actions).tasks| == 1 && |Run(actions + future).tasks| == 1
              && (var t := Run(actions).tasks[0];
                  t.cancel && t.handler.Idle? && t.pc.MarkDone? && t.pending.None? && t.log.completed == 0)
              && (var u := Run(actions + future).tasks[0];
                  u.cancel && u.pc == Unwinding(None) && u.status.Done? && u.log.completed == 1)
  {
    hide Turns, Thread;
    var t := ComesToItsEnd();
    var asked := t.(cancel := true);
    CancelRuns(false, t);
    assert Turns(false, t, CANCEL) == asked;
    SoloLeads(t, asked);
    LeadsOn(INIT, Solo(t), Solo(asked));
    SoloOk(asked);
    var actions := ReachedByRun(Solo(asked));
    FinishesItself(asked);
    var u := Turns(false, asked, [ONWARD, ONWARD, ONWARD, ONWARD]);
    assert TaskLeads(false, asked, u);
    SoloLeads(asked, u);
    var future := RunCanReach(actions, Solo(u));
  }
}
