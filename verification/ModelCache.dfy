/**
 The shared model cache: `get_model` and `_load_model_with_timeout` of app/services/model_manager.py.

 `Manager.GetModel` is one call that nobody interrupts. `Next` is one step of the protocol between any
 number of callers: the check without the lock, the acquisition that may time out, the second check, the
 loader thread that may return, raise or be given up on and finish late, the store, the release and the
 final read. A run is a sequence of actions, and an action that is not enabled changes nothing.
 */
module ModelCache {
  import opened PyText

  /** The model size and the device. */
  type Key = (string, string)

  datatype Load<M> = Running | Loaded(model: M) | LoadError

  datatype Failure = LockTimeout | LoadTimeout | LoadFailed | KeyMissing

  datatype Outcome<M> = Model(model: M) | Raises(failure: Failure)

  /** What the waiting caller makes of its loader thread when the join returns. */
  function Joined<M>(load: Load<M>): Outcome<M> {
    match load
    case Running => Raises(LoadTimeout)
    case LoadError => Raises(LoadFailed)
    case Loaded(m) => Model(m)
  }

  // ---------------------------------------------------------------- the program

  class Manager<M> {
    var loaded: map<Key, M>

    constructor ()
      ensures loaded == map[]
    {
      loaded := map[];
    }

    /** `acquired` says whether the lock came in time and `load` how the loader thread stood at the join. */
    method GetModel(key: Key, acquired: bool, load: Load<M>) returns (r: Outcome<M>)
      modifies this
      ensures key in old(loaded) ==> loaded == old(loaded) && r == Model(loaded[key])
      ensures key !in old(loaded) && !acquired ==> loaded == old(loaded) && r == Raises(LockTimeout)
      ensures key !in old(loaded) && acquired && load.Loaded? ==>
                loaded == old(loaded)[key := load.model] && r == Model(load.model)
      ensures key !in old(loaded) && acquired && !load.Loaded? ==>
                loaded == old(loaded) && r == Raises(if load.Running? then LoadTimeout else LoadFailed)
    {
      if key !in loaded {
        if !acquired {
          return Raises(LockTimeout);
        }
        if key !in loaded {
          var joined := Joined(load);
          if joined.Raises? {
            return joined;
          }
          loaded := loaded[key := joined.model];
        }
      }
      return Model(loaded[key]);
    }
  }

  // ---------------------------------------------------------------- the protocol

  datatype Pc<M> =
    | Started
    | Waiting
    | Locked
    | Loading
    | Releasing(failed: Option<Failure>)
    | Reading
    | Ended(outcome: Outcome<M>)

  /** A caller and, once it has started one, its loader thread. */
  datatype Caller<M> = Caller(key: Key, pc: Pc<M>, load: Option<Load<M>>)

  datatype Entry<M> = Entry(key: Key, model: M, maker: nat)

  /** `stored` records every assignment to the cache, in order. */
  datatype State<M> =
    State(loaded: map<Key, M>, holder: Option<nat>, callers: map<nat, Caller<M>>, stored: seq<Entry<M>>)

  datatype Action<M> =
    | Call(id: nat, key: Key)
    | Check(id: nat)
    | Acquire(id: nat)
    | GiveUp(id: nat)
    | Recheck(id: nat)
    | LoaderReturns(id: nat, model: M)
    | LoaderRaises(id: nat)
    | Join(id: nat)
    | Release(id: nat)
    | Read(id: nat)

  function Init<M>(): State<M> {
    State(map[], None, map[], [])
  }

  function Moved<M>(s: State<M>, id: nat, pc: Pc<M>): State<M>
    requires id in s.callers
  {
    s.(callers := s.callers[id := s.callers[id].(pc := pc)])
  }

  function LoaderEnds<M>(s: State<M>, id: nat, load: Load<M>): State<M> {
    if id in s.callers && s.callers[id].load.Some? && s.callers[id].load.value.Running?
    then s.(callers := s.callers[id := s.callers[id].(load := Some(load))])
    else s
  }

  function Next<M>(s: State<M>, a: Action<M>): State<M> {
    match a
    case Call(id, key) => if id in s.callers then s else s.(callers := s.callers[id := Caller(key, Started, None)])
    case Check(id) =>
      if id in s.callers && s.callers[id].pc.Started?
      then Moved(s, id, if s.callers[id].key in s.loaded then Reading else Waiting)
      else s
    case Acquire(id) =>
      if id in s.callers && s.callers[id].pc.Waiting? && s.holder.None?
      then Moved(s, id, Locked).(holder := Some(id))
      else s
    case GiveUp(id) =>
      if id in s.callers && s.callers[id].pc.Waiting? then Moved(s, id, Ended(Raises(LockTimeout))) else s
    case Recheck(id) =>
      if id in s.callers && s.callers[id].pc.Locked? then
        if s.callers[id].key in s.loaded then Moved(s, id, Releasing(None))
        else s.(callers := s.callers[id := s.callers[id].(pc := Loading, load := Some(Running))])
      else s
    case LoaderReturns(id, m) => LoaderEnds(s, id, Loaded(m))
    case LoaderRaises(id) => LoaderEnds(s, id, LoadError)
    case Join(id) =>
      if id in s.callers && s.callers[id].pc.Loading? && s.callers[id].load.Some? then
        var key, joined := s.callers[id].key, Joined(s.callers[id].load.value);
        if joined.Raises? then Moved(s, id, Releasing(Some(joined.failure)))
        else
          Moved(s, id, Releasing(None)).(loaded := s.loaded[key := joined.model],
                                         stored := s.stored + [Entry(key, joined.model, id)])
      else s
    case Release(id) =>
      if id in s.callers && s.callers[id].pc.Releasing? then
        var failed := s.callers[id].pc.failed;
        Moved(s, id, if failed.Some? then Ended(Raises(failed.value)) else Reading).(holder := None)
      else s
    case Read(id) =>
      if id in s.callers && s.callers[id].pc.Reading? then
        var key := s.callers[id].key;
        Moved(s, id, Ended(if key in s.loaded then Model(s.loaded[key]) else Raises(KeyMissing)))
      else s
  }

  function Run<M>(actions: seq<Action<M>>): State<M> {
    if actions == [] then Init() else Next(Run(actions[..|actions| - 1]), actions[|actions| - 1])
  }

  // ---------------------------------------------------------------- what every run keeps

  predicate HasLock<M>(pc: Pc<M>) {
    pc.Locked? || pc.Loading? || pc.Releasing?
  }

  ghost predicate CallerOk<M>(s: State<M>, id: nat)
    requires id in s.callers
  {
    var c := s.callers[id];
    && (HasLock(c.pc) <==> s.holder == Some(id))
    && (c.pc.Loading? ==> c.load.Some? && c.key !in s.loaded)
    && (c.pc.Reading? || (c.pc.Releasing? && c.pc.failed.None?) ==> c.key in s.loaded)
    && (c.pc.Releasing? && c.pc.failed.Some? ==> c.pc.failed.value != KeyMissing)
    && (c.pc.Ended? && c.pc.outcome.Model? ==> c.key in s.loaded && s.loaded[c.key] == c.pc.outcome.model)
    && c.pc != Ended(Raises(KeyMissing))
  }

  /** Where a caller is that has stored the model: nothing can fail for it any more. */
  predicate Succeeds<M(==)>(pc: Pc<M>, model: M) {
    pc == Releasing(None) || pc.Reading? || pc == Ended(Model(model))
  }

  /** The loader of the caller that stored the entry loaded that model, for that key, in time. */
  ghost predicate MadeByItsLoader<M>(s: State<M>, e: Entry<M>) {
    && e.maker in s.callers && s.callers[e.maker].key == e.key && s.callers[e.maker].load == Some(Loaded(e.model))
    && Succeeds(s.callers[e.maker].pc, e.model)
    && e.key in s.loaded && s.loaded[e.key] == e.model
  }

  ghost predicate Inv<M>(s: State<M>) {
    && (s.holder.Some? ==> s.holder.value in s.callers)
    && (forall id | id in s.callers :: CallerOk(s, id))
    && (forall e | e in s.stored :: MadeByItsLoader(s, e))
    && (forall k | k in s.loaded :: exists e :: e in s.stored && e.key == k)
    && (forall i, j | 0 <= i < j < |s.stored| :: s.stored[i].key != s.stored[j].key)
  }

  lemma CallerStep<M>(s: State<M>, a: Action<M>, id: nat)
    requires Inv(s) && id in Next(s, a).callers
    ensures CallerOk(Next(s, a), id)
  {
    hide CallerOk;
    match a
    case Call(_, _) => RestStep(s, a, id);
    case Check(_) => RestStep(s, a, id);
    case Acquire(j) => AcquireStep(s, j, id);
    case GiveUp(_) => RestStep(s, a, id);
    case Recheck(_) => RestStep(s, a, id);
    case LoaderReturns(_, _) => RestStep(s, a, id);
    case LoaderRaises(_) => RestStep(s, a, id);
    case Join(j) => if j in s.callers { JoinStep(s, j, id); }
    case Release(j) => if j in s.callers { ReleaseStep(s, j, id); }
    case Read(_) => RestStep(s, a, id);
  }

  lemma RestStep<M>(s: State<M>, a: Action<M>, id: nat)
    requires Inv(s) && id in Next(s, a).callers && !a.Acquire? && !a.Join? && !a.Release?
    ensures CallerOk(Next(s, a), id)
  {
    hide MadeByItsLoader;
    if id in s.callers {
      assert CallerOk(s, id);
    }
  }

  lemma AcquireStep<M>(s: State<M>, j: nat, id: nat)
    requires Inv(s) && id in s.callers
    ensures CallerOk(Next(s, Acquire(j)), id)
  {
    hide MadeByItsLoader;
    assert CallerOk(s, id);
  }

  lemma ReleaseStep<M>(s: State<M>, j: nat, id: nat)
    requires Inv(s) && id in s.callers && j in s.callers
    ensures CallerOk(Next(s, Release(j)), id)
  {
    hide MadeByItsLoader;
    assert CallerOk(s, id) && CallerOk(s, j);
  }

  lemma JoinStep<M>(s: State<M>, j: nat, id: nat)
    requires Inv(s) && id in s.callers && j in s.callers
    ensures CallerOk(Next(s, Join(j)), id)
  {
    hide MadeByItsLoader;
    assert CallerOk(s, id) && CallerOk(s, j);
  }

  lemma EntryOverJoin<M>(s: State<M>, j: nat, e: Entry<M>)
    requires Inv(s) && e in s.stored && j in s.callers
    ensures MadeByItsLoader(Next(s, Join(j)), e)
  {
    assert MadeByItsLoader(s, e) && CallerOk(s, j);
  }

  lemma EntryOverRecheck<M>(s: State<M>, j: nat, e: Entry<M>)
    requires Inv(s) && e in s.stored && j in s.callers
    ensures MadeByItsLoader(Next(s, Recheck(j)), e)
  {
    hide CallerOk;
    assert MadeByItsLoader(s, e);
  }

  lemma EntryOverRest<M>(s: State<M>, a: Action<M>, e: Entry<M>)
    requires Inv(s) && e in s.stored && !a.Join? && !a.Recheck?
    ensures MadeByItsLoader(Next(s, a), e)
  {
    hide CallerOk;
    assert MadeByItsLoader(s, e);
  }

  lemma NewEntry<M>(s: State<M>, a: Action<M>, e: Entry<M>)
    requires e in Next(s, a).stored && e !in s.stored
    ensures MadeByItsLoader(Next(s, a), e)
  {
  }

  lemma EntryStep<M>(s: State<M>, a: Action<M>, e: Entry<M>)
    requires Inv(s) && e in Next(s, a).stored
    ensures MadeByItsLoader(Next(s, a), e)
  {
    if e !in s.stored {
      NewEntry(s, a, e);
    } else if a.Join? && a.id in s.callers {
      EntryOverJoin(s, a.id, e);
    } else if a.Recheck? && a.id in s.callers {
      EntryOverRecheck(s, a.id, e);
    } else if !a.Join? && !a.Recheck? {
      EntryOverRest(s, a, e);
    } else {
      assert MadeByItsLoader(s, e);
    }
  }

  lemma StoredStep<M>(s: State<M>, a: Action<M>)
    requires Inv(s)
    ensures var t := Next(s, a);
            && (forall k | k in t.loaded :: exists e :: e in t.stored && e.key == k)
            && (forall i, j | 0 <= i < j < |t.stored| :: t.stored[i].key != t.stored[j].key)
  {
    var t := Next(s, a);
    if t.stored != s.stored {
      var e := t.stored[|t.stored| - 1];
      assert t.stored == s.stored + [e];
      assert CallerOk(s, a.id);
      forall i | 0 <= i < |s.stored| ensures s.stored[i].key != e.key {
        assert MadeByItsLoader(s, s.stored[i]);
      }
      forall k | k in t.loaded ensures exists x :: x in t.stored && x.key == k {
        if k in s.loaded {
          var x :| x in s.stored && x.key == k;
          assert x in t.stored;
        } else {
          assert e in t.stored;
        }
      }
    }
  }

  lemma HolderStep<M>(s: State<M>, a: Action<M>)
    requires Inv(s)
    ensures var t := Next(s, a); t.holder.Some? ==> t.holder.value in t.callers
  {
    hide CallerOk, MadeByItsLoader;
  }

  lemma {:induction false} InvHolds<M>(actions: seq<Action<M>>)
    ensures Inv(Run(actions))
  {
    hide Next, CallerOk, MadeByItsLoader;
    if actions != [] {
      var s, a := Run(actions[..|actions| - 1]), actions[|actions| - 1];
      InvHolds(actions[..|actions| - 1]);
      var t := Next(s, a);
      forall id | id in t.callers ensures CallerOk(t, id) { CallerStep(s, a, id); }
      forall e | e in t.stored ensures MadeByItsLoader(t, e) { EntryStep(s, a, e); }
      StoredStep(s, a);
      HolderStep(s, a);
    }
  }

  // ---------------------------------------------------------------- main results

  /** In every run a key is stored at most once, with the model that the loader of a caller of that key
      loaded, and the cache holds exactly what was stored: a load that was given up on is never stored. */
  lemma StoredAtMostOnce<M>(actions: seq<Action<M>>)
    ensures var s := Run(actions);
            && (forall i, j | 0 <= i < j < |s.stored| :: s.stored[i].key != s.stored[j].key)
            && (forall e | e in s.stored :: MadeByItsLoader(s, e))
            && s.loaded.Keys == set e | e in s.stored :: e.key
  {
    InvHolds(actions);
    var s := Run(actions);
    var keys := set e | e in s.stored :: e.key;
    forall k | k in s.loaded ensures k in keys {
      var e :| e in s.stored && e.key == k;
    }
    forall k | k in keys ensures k in s.loaded {
      var e :| e in s.stored && e.key == k;
      assert MadeByItsLoader(s, e);
    }
  }

  /** In every run, callers of one key that succeed get the same object, and no caller finds its key gone. */
  lemma SameObject<M>(actions: seq<Action<M>>, i: nat, j: nat)
    requires var s := Run(actions); i in s.callers && j in s.callers && s.callers[i].key == s.callers[j].key
    ensures var s := Run(actions);
            var p, q := s.callers[i].pc, s.callers[j].pc;
            p.Ended? && q.Ended? && p.outcome.Model? && q.outcome.Model? ==> p.outcome == q.outcome
    ensures Run(actions).callers[i].pc != Ended(Raises(KeyMissing))
  {
    InvHolds(actions);
    assert CallerOk(Run(actions), i) && CallerOk(Run(actions), j);
  }

  /** In every run, whoever holds the lock can always go on to release it by its own next steps, whatever
      its loader does, and a caller that has ended does not hold it. */
  lemma LockIsReleased<M>(actions: seq<Action<M>>)
    requires Run(actions).holder.Some?
    ensures var id := Run(actions).holder.value;
            Run(actions + [Recheck(id)] + [Join(id)] + [Release(id)]).holder.None?
    ensures var s := Run(actions); s.holder.value in s.callers && HasLock(s.callers[s.holder.value].pc)
  {
    hide Run, MadeByItsLoader;
    var s := Run(actions);
    var id := s.holder.value;
    InvHolds(actions);
    assert CallerOk(s, id);
    RunMore(actions, Recheck(id));
    RunMore(actions + [Recheck(id)], Join(id));
    RunMore(actions + [Recheck(id)] + [Join(id)], Release(id));
  }

  /** In every run, a caller that was told of a timeout or a failure stored nothing, even when its loader
      finishes later: whatever the cache holds was stored by a caller that did not fail, and loaded by that
      caller's own loader. */
  lemma GivenUpIsNeverStored<M>(actions: seq<Action<M>>, id: nat)
    requires var s := Run(actions);
             id in s.callers && s.callers[id].pc.Ended? && s.callers[id].pc.outcome.Raises?
    ensures forall e | e in Run(actions).stored :: e.maker != id
    ensures var s := Run(actions);
            forall k | k in s.loaded ::
              exists e :: e in s.stored && e.key == k && e.model == s.loaded[k] && e.maker != id
  {
    InvHolds(actions);
    var s := Run(actions);
    forall e | e in s.stored ensures e.maker != id && e.key in s.loaded && s.loaded[e.key] == e.model {
      assert MadeByItsLoader(s, e);
    }
    forall k | k in s.loaded
      ensures exists e :: e in s.stored && e.key == k && e.model == s.loaded[k] && e.maker != id
    {
      var e :| e in s.stored && e.key == k;
    }
  }

  lemma RunMore<M>(actions: seq<Action<M>>, a: Action<M>)
    ensures Run(actions + [a]) == Next(Run(actions), a)
  {
    assert (actions + [a])[..|actions|] == actions;
  }
}
