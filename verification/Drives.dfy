/**
 Driving a run: how a state can go on when the environment lets one thread or one handler at a time have
 its turn. The lemmas about what some continuation of a run does are built from these.
 */
module Drives {
  import opened PyText
  import opened Lifecycle
  import opened Pipelines

  /** A step of the thread, a request or a handler's step, all of one task. */
  datatype Turn = OwnStep(choice: Choice) | Asked(request: Request) | Served(lands: bool)

  /** The thread goes on undisturbed; a handler goes on and its injection does not land. */
  const ONWARD := OwnStep(Proceed)

  const SERVE := Served(false)

  function ActionOf(i: nat, turn: Turn): Action {
    match turn
    case OwnStep(c) => Step(i, c)
    case Asked(r) => Handle(i, r)
    case Served(lands) => Proceeds(i, lands)
  }

  function Taken(critical: bool, t: Task, turn: Turn): Task {
    match turn
    case OwnStep(c) => Moved(critical, t, Go(c))
    case Asked(r) => Moved(critical, t, Ask(r))
    case Served(lands) => Moved(critical, t, Serve(lands))
  }

  function Turns(critical: bool, t: Task, turns: seq<Turn>): Task
    decreases |turns|
  {
    if turns == [] then t else Turns(critical, Taken(critical, t, turns[0]), turns[1..])
  }

  lemma FirstTurn(critical: bool, t: Task, turn: Turn, rest: seq<Turn>)
    ensures Turns(critical, t, [turn] + rest) == Turns(critical, Taken(critical, t, turn), rest)
  {
    assert ([turn] + rest)[1..] == rest;
  }

  lemma {:induction false} TurnsMore(critical: bool, t: Task, a: seq<Turn>, b: seq<Turn>)
    ensures Turns(critical, t, a + b) == Turns(critical, Turns(critical, t, a), b)
    decreases |a|
  {
    if a == [] {
      assert a + b == b;
    } else {
      assert (a + b)[1..] == a[1..] + b;
      TurnsMore(critical, Taken(critical, t, a[0]), a[1..], b);
    }
  }

  lemma {:induction false} TurnsKeep(critical: bool, t: Task, turns: seq<Turn>)
    requires TaskOk(t)
    ensures TaskOk(Turns(critical, t, turns))
    decreases |turns|
  {
    if turns != [] {
      var m := match turns[0]
        case OwnStep(c) => Go(c)
        case Asked(r) => Ask(r)
        case Served(lands) => Serve(lands);
      TaskKept(critical, t, m);
      TurnsKeep(critical, Moved(critical, t, m), turns[1..]);
    }
  }

  // ---------------------------------------------------------------- states that lead to others

  function Going(s: State, actions: seq<Action>): State {
    if actions == [] then s else Next(Going(s, actions[..|actions| - 1]), actions[|actions| - 1])
  }

  lemma GoingOne(s: State, actions: seq<Action>, a: Action)
    ensures Going(s, actions + [a]) == Next(Going(s, actions), a)
  {
    assert (actions + [a])[..|actions|] == actions;
  }

  lemma {:induction false} GoingMore(s: State, a: seq<Action>, b: seq<Action>)
    ensures Going(s, a + b) == Going(Going(s, a), b)
  {
    hide Next;
    if b == [] {
      assert a + b == a;
    } else {
      var init, last := b[..|b| - 1], b[|b| - 1];
      GoingMore(s, a, init);
      assert a + b == (a + init) + [last];
      GoingOne(s, a + init, last);
    }
  }

  lemma {:induction false} RunIsGoing(past: seq<Action>, future: seq<Action>)
    ensures Run(past + future) == Going(Run(past), future)
  {
    if future == [] {
      assert past + future == past;
    } else {
      RunIsGoing(past, future[..|future| - 1]);
      MoreFuture(past, future);
    }
  }

  ghost predicate Leads(s: State, u: State) {
    exists actions :: Going(s, actions) == u
  }

  lemma LeadsBy(s: State, actions: seq<Action>, u: State)
    requires Going(s, actions) == u
    ensures Leads(s, u)
  {
  }

  lemma LeadsHere(s: State)
    ensures Leads(s, s)
  {
    assert Going(s, []) == s;
  }

  lemma LeadsNext(s: State, u: State, a: Action)
    requires Leads(s, u)
    ensures Leads(s, Next(u, a))
  {
    var actions :| Going(s, actions) == u;
    GoingOne(s, actions, a);
  }

  lemma LeadsOn(s: State, u: State, v: State)
    requires Leads(s, u) && Leads(u, v)
    ensures Leads(s, v)
  {
    var a :| Going(s, a) == u;
    var b :| Going(u, b) == v;
    GoingMore(s, a, b);
    LeadsBy(s, a + b, v);
  }

  lemma {:induction false} GoingKeeps(s: State, actions: seq<Action>)
    requires Inv(s)
    ensures Inv(Going(s, actions))
  {
    if actions != [] {
      GoingKeeps(s, actions[..|actions| - 1]);
      InvStep(Going(s, actions[..|actions| - 1]), actions[|actions| - 1]);
    }
  }

  lemma LeadsKeeps(s: State, u: State)
    requires Inv(s) && Leads(s, u)
    ensures Inv(u)
  {
    var actions :| Going(s, actions) == u;
    GoingKeeps(s, actions);
  }

  /** What a state leads to, a run that has reached it can go on to. */
  lemma RunCanReach(past: seq<Action>, u: State) returns (future: seq<Action>)
    requires Leads(Run(past), u)
    ensures Run(past + future) == u
  {
    future :| Going(Run(past), future) == u;
    RunIsGoing(past, future);
  }

  function With(s: State, i: nat, t: Task): State
    requires i < |s.tasks|
  {
    s.(tasks := s.tasks[i := t])
  }

  lemma OnlyTask(s: State, i: nat, turn: Turn)
    requires i < |s.tasks|
    ensures Next(s, ActionOf(i, turn)) == With(s, i, Taken(s.critical, s.tasks[i], turn))
  {
    var a := ActionOf(i, turn);
    assert Tasks(s, a) == s.tasks[i := Taken(s.critical, s.tasks[i], turn)];
  }

  lemma WithTwice(s: State, i: nat, t: Task, v: Task)
    requires i < |s.tasks|
    ensures With(With(s, i, t), i, v) == With(s, i, v)
    ensures With(s, i, s.tasks[i]) == s
  {
    assert s.tasks[i := t][i := v] == s.tasks[i := v] && s.tasks[i := s.tasks[i]] == s.tasks;
  }

  lemma DrivenOnce(s: State, i: nat, turn: Turn)
    requires i < |s.tasks|
    ensures Leads(s, With(s, i, Taken(s.critical, s.tasks[i], turn)))
  {
    OnlyTask(s, i, turn);
    LeadsHere(s);
    LeadsNext(s, s, ActionOf(i, turn));
  }

  /** A state goes on with turns of task `i` alone. */
  lemma {:induction false} Driven(s: State, i: nat, turns: seq<Turn>)
    requires i < |s.tasks|
    ensures Leads(s, With(s, i, Turns(s.critical, s.tasks[i], turns)))
    decreases |turns|
  {
    var t := s.tasks[i];
    if turns == [] {
      WithTwice(s, i, t, t);
      LeadsHere(s);
    } else {
      var taken := Taken(s.critical, t, turns[0]);
      var u := With(s, i, taken);
      DrivenOnce(s, i, turns[0]);
      Driven(u, i, turns[1..]);
      WithTwice(s, i, taken, Turns(s.critical, taken, turns[1..]));
      LeadsOn(s, u, With(s, i, Turns(s.critical, t, turns)));
    }
  }

  function ActionsOf(i: nat, turns: seq<Turn>): (actions: seq<Action>)
    ensures |actions| == |turns| && forall k | 0 <= k < |turns| :: actions[k] == ActionOf(i, turns[k])
  {
    seq(|turns|, k requires 0 <= k < |turns| => ActionOf(i, turns[k]))
  }

  /** The actions of these turns, one after the other, do what the turns do to the task and nothing else. */
  lemma {:induction false} ActionsAre(s: State, i: nat, turns: seq<Turn>)
    requires i < |s.tasks|
    ensures Going(s, ActionsOf(i, turns)) == With(s, i, Turns(s.critical, s.tasks[i], turns))
    decreases |turns|
  {
    var t := s.tasks[i];
    if turns == [] {
      WithTwice(s, i, t, t);
    } else {
      var first, rest := [ActionOf(i, turns[0])], ActionsOf(i, turns[1..]);
      var taken := Taken(s.critical, t, turns[0]);
      assert ActionsOf(i, turns) == first + rest && first == [] + first;
      GoingMore(s, first, rest);
      GoingOne(s, [], ActionOf(i, turns[0]));
      OnlyTask(s, i, turns[0]);
      ActionsAre(With(s, i, taken), i, turns[1..]);
      WithTwice(s, i, taken, Turns(s.critical, taken, turns[1..]));
    }
  }

  ghost predicate Reachable(s: State) {
    Leads(INIT, s)
  }

  lemma ReachedByRun(s: State) returns (actions: seq<Action>)
    requires Reachable(s)
    ensures Run(actions) == s
  {
    assert Run([]) == INIT;
    actions := RunCanReach([], s);
    assert [] + actions == actions;
  }

  ghost predicate TaskLeads(critical: bool, t: Task, u: Task) {
    exists turns :: Turns(critical, t, turns) == u
  }

  lemma TaskLeadsOn(critical: bool, t: Task, u: Task, v: Task)
    requires TaskLeads(critical, t, u) && TaskLeads(critical, u, v)
    ensures TaskLeads(critical, t, v)
  {
    var a :| Turns(critical, t, a) == u;
    var b :| Turns(critical, u, b) == v;
    TurnsMore(critical, t, a, b);
    assert Turns(critical, t, a + b) == v;
  }

  lemma OneOwnStep(t: Task, u: Task)
    requires Thread(false, t, Proceed) == u
    ensures TaskLeads(false, t, u)
  {
    assert [ONWARD] == [ONWARD] + [];
    FirstTurn(false, t, ONWARD, []);
    assert Turns(false, t, [ONWARD]) == u;
  }

  /** A cancel request that is granted and carried out, except that its injection does not land. */
  const CANCEL := [Asked(CancelRequest), SERVE, SERVE, SERVE]

  lemma FourTurns(critical: bool, t: Task, a: Turn, b: Turn, c: Turn, d: Turn)
    ensures Turns(critical, t, [a, b, c, d])
            == Taken(critical, Taken(critical, Taken(critical, Taken(critical, t, a), b), c), d)
  {
    var t1 := Taken(critical, t, a);
    var t2 := Taken(critical, t1, b);
    var t3 := Taken(critical, t2, c);
    assert [a, b, c, d] == [a] + [b, c, d] && [b, c, d] == [b] + [c, d] && [c, d] == [c] + [d] && [d] == [d] + [];
    FirstTurn(critical, t, a, [b, c, d]);
    FirstTurn(critical, t1, b, [c, d]);
    FirstTurn(critical, t2, c, [d]);
    FirstTurn(critical, t3, d, []);
  }

  lemma CancelRuns(critical: bool, t: Task)
    requires t.handler.Idle? && !Final(t.status) && !t.cancel && t.event != Some(false) && t.pc != Waiting(false)
    ensures Turns(critical, t, CANCEL) == t.(cancel := true)
  {
    FourTurns(critical, t, Asked(CancelRequest), SERVE, SERVE, SERVE);
    assert SetEvent(t.(cancel := true, handler := CancelSet)) == t.(cancel := true, handler := CancelSet) by {
      EventIsSet(t);
    }
  }

  lemma EventIsSet(t: Task)
    requires t.event != Some(false)
    ensures t.event.None? || t.event == Some(true)
  {
    if t.event.Some? {
      BoolIs(t.event.value);
      assert t.event == Some(t.event.value);
    }
  }

  lemma BoolIs(b: bool)
    ensures Some(b) == Some(true) || Some(b) == Some(false)
  {
  }

  // ---------------------------------------------------------------- a single pipeline

  /** Only task `i` is addressed by these actions. */
  predicate Addresses(a: Action, i: nat) {
    (a.Look? || a.Make? || a.Acquire?) && a.i == i
  }

  lemma OnlyAddressed(s: State, a: Action, i: nat)
    requires i < |s.tasks| && Addresses(a, i)
    ensures Next(s, a).tasks == s.tasks[i := Moved(s.critical, s.tasks[i], MoveOf(s, a, i))]
  {
    assert Tasks(s, a) == s.tasks[i := Moved(s.critical, s.tasks[i], MoveOf(s, a, i))];
  }

  lemma Reaches(s: State, a: Action, i: nat, t: State)
    requires Reachable(s) && i < |s.tasks| && Addresses(a, i)
    requires t == State(s.critical, Semaphores(s, a),
                        if |Semaphores(s, a)| > |s.semaphores| then Some(|s.semaphores|) else s.current,
                        s.tasks[i := Moved(s.critical, s.tasks[i], MoveOf(s, a, i))])
    ensures Reachable(t)
  {
    LeadsNext(INIT, s, a);
    OnlyAddressed(s, a, i);
  }

  lemma SubmitReaches(s: State)
    requires Reachable(s)
    ensures Reachable(s.(tasks := s.tasks + [FRESH]))
  {
    LeadsNext(INIT, s, Submit);
    assert Tasks(s, Submit) == s.tasks;
  }

  function At(pc: Pc, sem: nat): Task {
    FRESH.(pc := pc, sem := sem)
  }

  /** A server with one task, which holds one of three permits. */
  function Solo(t: Task): State {
    State(false, [2], Some(0), [t])
  }

  lemma SoloLeads(t: Task, u: Task)
    requires TaskLeads(false, t, u)
    ensures Leads(Solo(t), Solo(u))
  {
    var turns :| Turns(false, t, turns) == u;
    Driven(Solo(t), 0, turns);
    assert [t][0 := u] == [u];
  }

  lemma OneWaits()
    ensures Reachable(State(false, [3], Some(0), [At(Awaiting, 0)]))
  {
    hide Reachable, Thread;
    assert [] + [FRESH] == [FRESH];
    var s1 := State(false, [], None, [FRESH]);
    var s2 := State(false, [], None, [At(MakingSemaphore, 0)]);
    var s3 := State(false, [3], Some(0), [FRESH]);
    StartReachable();
    SubmitReaches(INIT);
    Reaches(s1, Look(0), 0, s2);
    Reaches(s2, Make(0), 0, s3);
    Reaches(s3, Look(0), 0, State(false, [3], Some(0), [At(Awaiting, 0)]));
  }

  lemma StartReachable()
    ensures Reachable(INIT)
  {
    LeadsHere(INIT);
  }

  lemma SoloStarts()
    ensures Reachable(Solo(At(Prologue, 0)))
  {
    hide Reachable, Thread;
    OneWaits();
    Reaches(State(false, [3], Some(0), [At(Awaiting, 0)]), Acquire(0), 0, Solo(At(Prologue, 0)));
  }

  /** Inside the `try`, with nothing in the thread's way. */
  predicate Undisturbed(t: Task) {
    t.pending.None? && t.event == Some(true) && t.thread && t.handler.Idle?
  }

  /** A step that goes well, and the checkpoint behind it. */
  lemma WalksPhase(t: Task, p: Phase)
    requires t.pc == Enter(p) && Undisturbed(t) && !p.Transcribe?
    ensures TaskLeads(false, t, t.(pc := After(p), status := Announced(p, Direct(p, t.status))))
  {
    var t1 := t.(pc := Announce(p), status := Direct(p, t.status));
    var t2 := t.(pc := Work(p), status := Announced(p, Direct(p, t.status)));
    OneOwnStep(t, t1);
    OneOwnStep(t1, t2);
    OneOwnStep(t2, t2.(pc := After(p)));
    TaskLeadsOn(false, t, t1, t2);
    TaskLeadsOn(false, t, t2, t2.(pc := After(p)));
  }

  lemma WalksCheck(t: Task, next: Phase)
    requires t.pc == CheckCancel(next) && Undisturbed(t) && !t.cancel
    ensures TaskLeads(false, t, t.(pc := Enter(next)))
  {
    OneOwnStep(t, t.(pc := CheckCritical(next)));
    OneOwnStep(t.(pc := CheckCritical(next)), t.(pc := Enter(next)));
    TaskLeadsOn(false, t, t.(pc := CheckCritical(next)), t.(pc := Enter(next)));
  }

  lemma WalksOn(t: Task, p: Phase, next: Phase) returns (u: Task)
    requires t.pc == Enter(p) && Undisturbed(t) && !t.cancel && After(p) == CheckCancel(next)
    requires Reachable(Solo(t))
    ensures u == t.(pc := Enter(next), status := Announced(p, Direct(p, t.status))) && Reachable(Solo(u))
  {
    var mid := t.(pc := After(p), status := Announced(p, Direct(p, t.status)));
    u := mid.(pc := Enter(next));
    WalksPhase(t, p);
    WalksCheck(mid, next);
    TaskLeadsOn(false, t, mid, u);
    SoloLeads(t, u);
    LeadsOn(INIT, Solo(t), Solo(u));
  }

  lemma StartsProbing(t: Task)
    requires t == At(Prologue, 0).(pc := Enter(Probe), event := Some(true), thread := true, status := Uploading)
    ensures Reachable(Solo(t))
  {
    var start := At(Prologue, 0);
    SoloStarts();
    OneOwnStep(start, t);
    SoloLeads(start, t);
    LeadsOn(INIT, Solo(start), Solo(t));
  }

  /** A pipeline that is alone and undisturbed comes to its extraction and to its transcription. */
  lemma Enters(p: Phase) returns (t: Task)
    requires p.Extract? || p.Transcribe?
    ensures Reachable(Solo(t)) && t.pc == Enter(p) && Undisturbed(t) && !t.cancel && !Final(t.status)
  {
    hide Reachable, Solo, Thread;
    t := At(Prologue, 0).(pc := Enter(Probe), event := Some(true), thread := true, status := Uploading);
    StartsProbing(t);
    t := WalksOn(t, Probe, Extract);
    if p.Transcribe? {
      t := WalksOn(t, Extract, Load);
      t := WalksOn(t, Load, Transcribe);
    }
  }

  lemma Listens(t: Task)
    requires t.pc == Enter(Transcribe) && Undisturbed(t)
    ensures TaskLeads(false, t, t.(pc := NextSegment, status := Transcribing))
    ensures TaskLeads(false, t, t.(pc := Enter(Diarize), status := Transcribing))
  {
    var announced, listening := t.(pc := Announce(Transcribe)), t.(pc := NextSegment, status := Transcribing);
    OneOwnStep(t, announced);
    OneOwnStep(announced, listening);
    TaskLeadsOn(false, t, announced, listening);
    assert [OwnStep(EndOfAudio)] == [OwnStep(EndOfAudio)] + [];
    FirstTurn(false, listening, OwnStep(EndOfAudio), []);
    assert Turns(false, listening, [OwnStep(EndOfAudio)]) == listening.(pc := Enter(Diarize));
    TaskLeadsOn(false, t, listening, listening.(pc := Enter(Diarize)));
  }

  lemma WalksToNext(t: Task, p: Phase, next: Phase) returns (u: Task)
    requires t.pc == Enter(p) && Undisturbed(t) && !p.Transcribe? && After(p) == Enter(next)
    requires Reachable(Solo(t))
    ensures u == t.(pc := Enter(next), status := Announced(p, Direct(p, t.status))) && Reachable(Solo(u))
  {
    u := t.(pc := Enter(next), status := Announced(p, Direct(p, t.status)));
    WalksPhase(t, p);
    SoloLeads(t, u);
    LeadsOn(INIT, Solo(t), Solo(u));
  }

  lemma ComesToDiarization() returns (t: Task)
    ensures Reachable(Solo(t)) && t.pc == Enter(Diarize) && Undisturbed(t) && !t.cancel && t.status.Transcribing?
  {
    var listening := Enters(Transcribe);
    t := listening.(pc := Enter(Diarize), status := Transcribing);
    Listens(listening);
    SoloLeads(listening, t);
    LeadsOn(INIT, Solo(listening), Solo(t));
  }

  lemma ComesToValidation() returns (t: Task)
    ensures Reachable(Solo(t)) && t.pc == Enter(Validate) && Undisturbed(t) && !t.cancel
  {
    t := ComesToDiarization();
    t := WalksToNext(t, Diarize, BreakLines);
    t := WalksToNext(t, BreakLines, Translate);
    t := WalksToNext(t, Translate, Validate);
  }

  /** It comes to the end of its work. */
  lemma ComesToItsEnd() returns (t: Task)
    ensures Reachable(Solo(t)) && t.pc.MarkDone? && Undisturbed(t) && !t.cancel && t.status.Writing?
  {
    var u := ComesToValidation();
    u := WalksOn(u, Validate, Finalize);
    t := u.(pc := MarkDone, status := Writing);
    WalksPhase(u, Finalize);
    SoloLeads(u, t);
    LeadsOn(INIT, Solo(u), Solo(t));
  }
}
