/**
 The handlers as the program writes them: `cancel`, `pause` and `resume` of app/routes/control.py,
 `set_critical` and `_force_abort_active_tasks` of app/state.py, and the segment loop of
 app/services/transcription.py.

 Each method on a `TaskRecord` is proved to do to the record exactly what the steps of that handler in
 `Lifecycle` do when nothing comes between them.
 */
module Controls {
  import opened PyText
  import opened Lifecycle

  datatype Answer =
    | Requested | AlreadyRequested | AlreadyFinished
    | PauseRequested | AlreadyPaused | AlreadyPausing | NotPausable
    | Resumed

  /** What a handler's steps amount to when nothing comes between them. */
  function Carried(t: Task, lands: bool, steps: nat): Task {
    if steps == 0 then t else Continue(Carried(t, lands, steps - 1), lands)
  }

  /** Nothing is left to cancel or to abort. */
  predicate AlreadyOver(s: Status) {
    s == Status.Done || s == Error || s == Status.Cancelled
  }

  /** The shared record of a task; `pc` and `pending` are the state of its pipeline thread. */
  class TaskRecord {
    var status: Status
    var cancelRequested: bool
    var pauseEvent: Option<bool>
    var threadId: bool
    var pending: Option<Abort>
    var pc: Pc
    var segments: nat
    var log: Log
    ghost var rest: Task

    /** The record as a value. */
    ghost function View(): Task
      reads this
    {
      rest.(status := status, cancel := cancelRequested, event := pauseEvent, thread := threadId,
            pending := pending, pc := pc, segments := segments, log := log)
    }

    method SetPauseEvent()
      modifies this
      ensures View() == SetEvent(old(View()))
    {
      if pauseEvent.Some? {
        pauseEvent := Some(true);
        if pc == Waiting(false) {
          pc := Waiting(true);
        }
      }
    }

    method InjectException(kind: Abort, lands: bool)
      modifies this
      ensures View() == Inject(old(View()), kind, lands)
    {
      if threadId && lands && Interruptible(pc) {
        pending := Some(kind);
        rest := rest.(landed := true);
      }
    }

    method Cancel(lands: bool) returns (answer: Answer)
      requires View().handler.Idle?
      modifies this
      ensures View() == Carried(Start(old(View()), CancelRequest), lands, 3)
      ensures answer == if AlreadyOver(old(status)) then AlreadyFinished
                        else if old(cancelRequested) then AlreadyRequested else Requested
      ensures answer != Requested ==> View() == old(View())
      ensures answer == Requested ==>
                && cancelRequested && status == old(status) && segments == old(segments) && log == old(log)
                && pauseEvent == (if old(pauseEvent).None? then None else Some(true))
                && pc == (if old(pc) == Waiting(false) && old(pauseEvent).Some? then Waiting(true) else old(pc))
                && pending == if lands && threadId && Interruptible(pc) then Some(Abort.Cancel) else old(pending)
    {
      ghost var t := View();
      IdleStays(t, lands, 3);
      if Final(status) {
        return AlreadyFinished;
      }
      if cancelRequested {
        return AlreadyRequested;
      }
      CancelSteps(t, lands);
      cancelRequested := true;
      SetPauseEvent();
      InjectException(Abort.Cancel, lands);
      answer := Requested;
    }

    method Pause() returns (answer: Answer)
      requires View().handler.Idle?
      modifies this
      ensures View() == Carried(Start(old(View()), PauseRequest), false, 1)
      ensures answer == if old(status).Paused? then AlreadyPaused
                        else if !old(status).Transcribing? then NotPausable
                        else if old(pauseEvent) == Some(false) then AlreadyPausing else PauseRequested
      ensures answer != PauseRequested ==> View() == old(View())
      ensures answer == PauseRequested ==>
                && pauseEvent == (if old(pauseEvent).None? then None else Some(false))
                && status == old(status) && cancelRequested == old(cancelRequested) && pending == old(pending)
                && pc == old(pc) && segments == old(segments) && log == old(log)
    {
      ghost var t := View();
      assert Carried(Start(t, PauseRequest), false, 1) == Continue(Start(t, PauseRequest), false) by {
        assert Carried(Start(t, PauseRequest), false, 0) == Start(t, PauseRequest);
      }
      if !status.Transcribing? {
        return if status.Paused? then AlreadyPaused else NotPausable;
      }
      if pauseEvent.Some? && !pauseEvent.value {
        return AlreadyPausing;
      }
      if pauseEvent.Some? {
        assert pauseEvent == Some(pauseEvent.value);
        assert Start(t, PauseRequest) == t.(handler := PauseClear);
        rest := rest.(clearedLate := rest.clearedLate || cancelRequested);
        pauseEvent := Some(false);
      }
      answer := PauseRequested;
    }

    method Resume() returns (answer: Answer)
      requires View().handler.Idle?
      modifies this
      ensures View() == Start(old(View()), ResumeRequest)
      ensures answer == Resumed
      ensures pauseEvent == (if old(pauseEvent).None? then None else Some(true))
      ensures pc == if old(pc) == Waiting(false) && old(pauseEvent).Some? then Waiting(true) else old(pc)
      ensures status == old(status) && cancelRequested == old(cancelRequested) && pending == old(pending)
      ensures segments == old(segments) && log == old(log)
    {
      SetPauseEvent();
      answer := Resumed;
    }

    /** One round of the loop in `_force_abort_active_tasks`. */
    method ForceAbort(lands: bool) returns (aborted: bool)
      requires View().handler.Idle?
      modifies this
      ensures View() == Carried(old(View()).(handler := AbortCheck), lands, 5)
      ensures aborted == !AlreadyOver(old(status))
      ensures View().handler.Idle?
      ensures !aborted ==> View() == old(View())
      ensures aborted ==>
                && cancelRequested && status == Error && segments == old(segments) && log == old(log)
                && pauseEvent == (if old(pauseEvent).None? then None else Some(true))
                && pc == (if old(pc) == Waiting(false) && old(pauseEvent).Some? then Waiting(true) else old(pc))
                && pending == if lands && threadId && Interruptible(pc) then Some(Critical) else old(pending)
    {
      ghost var t := View();
      AbortSteps(t, lands);
      if Final(status) {
        return false;
      }
      cancelRequested := true;
      SetPauseEvent();
      InjectException(Critical, lands);
      status := Error;
      aborted := true;
    }
  }

  lemma {:induction false} IdleStays(t: Task, lands: bool, steps: nat)
    requires t.handler.Idle?
    ensures Carried(t, lands, steps) == t
  {
    if steps > 0 {
      IdleStays(t, lands, steps - 1);
    }
  }

  lemma CarriedNone(t: Task, lands: bool)
    ensures Carried(t, lands, 0) == t
  {
  }

  lemma CarriedOn(t: Task, lands: bool, n: nat, u: Task)
    requires Carried(t, lands, n) == u
    ensures Carried(t, lands, n + 1) == Continue(u, lands)
  {
  }

  lemma CancelSteps(t: Task, lands: bool)
    requires t.handler.Idle? && !Final(t.status) && !t.cancel
    ensures Carried(Start(t, CancelRequest), lands, 3) == Inject(SetEvent(t.(cancel := true)), Abort.Cancel, lands)
  {
    hide Carried;
    var a := Start(t, CancelRequest);
    CarriedNone(a, lands);
    CarriedOn(a, lands, 0, a);
    CarriedOn(a, lands, 1, t.(handler := CancelSet, cancel := true));
    CarriedOn(a, lands, 2, SetEvent(t.(cancel := true)).(handler := CancelInject));
  }

  lemma AbortSteps(t: Task, lands: bool)
    requires t.handler.Idle?
    ensures var a := t.(handler := AbortCheck);
            Carried(a, lands, 5) ==
              if Final(t.status) then t else Inject(SetEvent(t.(cancel := true)), Critical, lands).(status := Error)
  {
    hide Carried;
    var a := t.(handler := AbortCheck);
    CarriedNone(a, lands);
    CarriedOn(a, lands, 0, a);
    if Final(t.status) {
      CarriedOn(a, lands, 1, t);
      CarriedOn(a, lands, 2, t);
      CarriedOn(a, lands, 3, t);
      CarriedOn(a, lands, 4, t);
    } else {
      CarriedOn(a, lands, 1, t.(handler := AbortFlag));
      CarriedOn(a, lands, 2, t.(handler := AbortSet, cancel := true));
      CarriedOn(a, lands, 3, SetEvent(t.(cancel := true)).(handler := AbortInject));
      CarriedOn(a, lands, 4, Inject(SetEvent(t.(cancel := true)), Critical, lands).(handler := AbortEmit));
    }
  }

  /** What an abort leaves: a task that is over as it was, any other flagged, not paused and with an error. */
  predicate AbortShows(t: Task, u: Task) {
    if AlreadyOver(t.status) then u == t else u.cancel && u.status == Error && u.event != Some(false)
  }

  lemma AbortIsShown(t: Task, lands: bool)
    requires t.handler.Idle?
    ensures AbortShows(t, Carried(t.(handler := AbortCheck), lands, 5))
  {
    hide Carried;
    AbortSteps(t, lands);
  }

  class Server {
    var tasks: seq<TaskRecord>
    var systemCritical: bool
    var reasons: seq<string>

    ghost predicate Valid()
      reads this, tasks
    {
      (forall i, j | 0 <= i < j < |tasks| :: tasks[i] != tasks[j])
      && forall i | 0 <= i < |tasks| :: tasks[i].View().handler.Idle?
    }

    /** On the transition to critical every task that is not finished is aborted; a further call in the
        critical state, or one without reasons, aborts nothing. */
    method SetCritical(newReasons: seq<string>, lands: seq<bool>)
      requires Valid() && |lands| == |tasks|
      modifies this`systemCritical, this`reasons, tasks
      ensures Valid() && systemCritical == (newReasons != []) && reasons == newReasons
      ensures forall i | 0 <= i < |tasks| ::
                if old(systemCritical) || newReasons == [] then tasks[i].View() == old(tasks[i].View())
                else AbortShows(old(tasks[i].View()), tasks[i].View())
      ensures forall i | 0 <= i < |tasks| ::
                tasks[i].View() ==
                  if !old(systemCritical) && newReasons != []
                  then Carried(old(tasks[i].View()).(handler := AbortCheck), lands[i], 5)
                  else old(tasks[i].View())
    {
      hide Carried, AbortShows;
      var wasCritical := systemCritical;
      systemCritical := newReasons != [];
      reasons := newReasons;
      if !wasCritical && systemCritical {
        for k := 0 to |tasks|
          invariant systemCritical && reasons == newReasons
          invariant forall i | 0 <= i < k ::
                      tasks[i].View() == Carried(old(tasks[i].View()).(handler := AbortCheck), lands[i], 5)
          invariant forall i | k <= i < |tasks| :: tasks[i].View() == old(tasks[i].View())
          invariant forall i | 0 <= i < |tasks| :: tasks[i].View().handler.Idle?
        {
          var _ := tasks[k].ForceAbort(lands[k]);
        }
        forall i | 0 <= i < |tasks| ensures AbortShows(old(tasks[i].View()), tasks[i].View()) {
          AbortIsShown(old(tasks[i].View()), lands[i]);
        }
      }
    }

    method ClearCritical()
      modifies this`systemCritical, this`reasons
      ensures !systemCritical && reasons == []
    {
      systemCritical := false;
      reasons := [];
    }
  }

  // ---------------------------------------------------------------- the segment loop

  /** What the thread reads of the shared state when it comes to a segment. */
  datatype Reading = Reading(critical: bool, cancel: bool, paused: bool)

  predicate Stops(r: Reading) {
    r.critical || r.cancel
  }

  /** The segments before the first reading that stops the loop. */
  function Kept(readings: seq<Reading>): (n: nat)
    ensures n <= |readings|
    ensures forall k | 0 <= k < n :: !Stops(readings[k])
    ensures n < |readings| ==> Stops(readings[n])
  {
    if readings == [] || Stops(readings[0]) then 0 else 1 + Kept(readings[1..])
  }

  /** The loop over the model's segments: each is appended unless the critical state or a cancel request is
      seen first, in that order; a pause only waits. `waits` counts the pauses taken. */
  method TranscribeSegments<S>(segments: seq<S>, readings: seq<Reading>)
    returns (all: seq<S>, stopped: Option<Abort>, waits: nat)
    requires |readings| == |segments|
    ensures all == segments[..Kept(readings)]
    ensures stopped == if Kept(readings) == |readings| then None
                       else if readings[Kept(readings)].critical then Some(Critical) else Some(Abort.Cancel)
    ensures waits == |set k | 0 <= k < Kept(readings) && readings[k].paused|
  {
    all, stopped, waits := [], None, 0;
    for k := 0 to |segments|
      invariant forall j | 0 <= j < k :: !Stops(readings[j])
      invariant all == segments[..k] && stopped.None?
      invariant waits == |set j | 0 <= j < k && readings[j].paused|
    {
      if readings[k].critical {
        KeptIs(readings, k);
        return all, Some(Critical), waits;
      }
      if readings[k].cancel {
        KeptIs(readings, k);
        return all, Some(Abort.Cancel), waits;
      }
      ghost var before := set j | 0 <= j < k && readings[j].paused;
      if readings[k].paused {
        waits := waits + 1;
        assert (set j | 0 <= j < k + 1 && readings[j].paused) == before + {k};
      } else {
        assert (set j | 0 <= j < k + 1 && readings[j].paused) == before;
      }
      all := all + [segments[k]];
    }
    KeptIs(readings, |readings|);
  }

  lemma {:induction false} KeptIs(readings: seq<Reading>, n: nat)
    requires n <= |readings|
    requires forall k | 0 <= k < n :: !Stops(readings[k])
    requires n < |readings| ==> Stops(readings[n])
    ensures Kept(readings) == n
  {
    if n > 0 {
      KeptIs(readings[1..], n - 1);
    }
  }
}
