/**
 The response cache of app/services/response_cache.py: `ttl_cache` with its fast path, its lock and the
 second check under the lock, and `cache_clear`.

 `ResponseCache` holds the store of one decorated function as the program updates it. `Next` is one step
 of the protocol over that store: any number of callers, in any order, with clears and the passing of time
 in between. A run is a sequence of actions; an action that is not enabled changes nothing, so a statement
 about every sequence of actions is one about every interleaving. The handler is an oracle that returns
 some value or raises. The clock never goes back.
 */
module TtlCache {
  import opened PyText

  datatype Entry<V> = Entry(expires: real, value: V)

  type Store<V> = map<string, Entry<V>>

  /** What a lookup at time `now` finds. */
  function Hit<V>(store: Store<V>, key: string, now: real): Option<V> {
    if key in store && now < store[key].expires then Some(store[key].value) else None
  }

  predicate Matches(key: string, prefix: Option<string>) {
    prefix.None? || prefix.value <= key
  }

  function Kept<V>(store: Store<V>, prefix: Option<string>): Store<V> {
    map k | k in store && !Matches(k, prefix) :: store[k]
  }

  /** What is left by a clear: nothing without a prefix, else the entries whose keys do not begin with it, as
      they were. */
  ghost predicate Survives<V>(before: Store<V>, after: Store<V>, prefix: Option<string>) {
    && (prefix.None? ==> after == map[])
    && (prefix.Some? ==> forall k :: k in after <==> k in before && !StartsWith(k, prefix.value))
    && (forall k | k in after :: k in before && after[k] == before[k])
  }

  lemma KeptSurvives<V>(store: Store<V>, prefix: Option<string>)
    ensures Survives(store, Kept(store, prefix), prefix)
  {
    if prefix.Some? {
      forall k | k in store ensures Matches(k, prefix) <==> StartsWith(k, prefix.value) {
      }
    }
  }

  // ---------------------------------------------------------------- the program

  class ResponseCache<V> {
    const seconds: real
    var store: Store<V>

    constructor (seconds: real)
      ensures this.seconds == seconds && store == map[]
    {
      this.seconds := seconds;
      store := map[];
    }

    method Check(key: string, now: real) returns (hit: Option<V>)
      ensures hit == Hit(store, key, now)
    {
      if key in store {
        var cached := store[key];
        if now < cached.expires {
          return Some(cached.value);
        }
      }
      return None;
    }

    method Put(key: string, now: real, value: V)
      modifies this
      ensures store == old(store)[key := Entry(now + seconds, value)]
    {
      store := store[key := Entry(now + seconds, value)];
    }

    /** One call of the decorated handler that no other call interferes with: `computed` is what the
        handler would return or raise. Without a request there is no key. */
    method Call(key: Option<string>, now: real, computed: Result<V>) returns (r: Result<V>)
      modifies this
      ensures key.None? ==> r == computed && store == old(store)
      ensures key.Some? && key.value in old(store) && now < old(store)[key.value].expires ==>
                r == Ok(old(store)[key.value].value) && store == old(store)
      ensures key.Some? && (key.value in old(store) ==> now >= old(store)[key.value].expires) ==>
                && r == computed
                && store == if computed.Ok? then old(store)[key.value := Entry(now + seconds, computed.value)]
                            else old(store)
    {
      if key.None? {
        return computed;
      }
      var hit := Check(key.value, now);
      if hit.Some? {
        return Ok(hit.value);
      }
      // The lock is taken here. The second check misses too, for nobody came between.
      hit := Check(key.value, now);
      if hit.None? && computed.Ok? {
        Put(key.value, now, computed.value);
      }
      r := computed;
    }

    /** Drops the matching entries one by one and counts them. */
    method Clear(prefix: Option<string>) returns (removed: nat)
      modifies this
      ensures store == Kept(old(store), prefix)
      ensures Survives(old(store), store, prefix)
      ensures removed == |old(store)| - |store|
    {
      KeptSurvives(store, prefix);
      if prefix.None? {
        removed := |store|;
        store := map[];
        return;
      }
      var drop := set k | k in store && prefix.value <= k;
      removed := |drop|;
      ghost var before := store;
      while drop != {}
        invariant drop <= store.Keys <= before.Keys
        invariant forall k | k in store :: store[k] == before[k]
        invariant forall k | k in before :: (k in store <==> k in drop || !Matches(k, prefix))
        invariant forall k | k in drop :: Matches(k, prefix)
        invariant removed == |before| - |store| + |drop|
        decreases |drop|
      {
        var k :| k in drop;
        assert (store - {k}).Keys == store.Keys - {k};
        store := store - {k};
        drop := drop - {k};
      }
    }
  }

  /** `cache_clear`: every registered store is cut down, and the dropped entries are counted. */
  method CacheClear<V>(caches: seq<ResponseCache<V>>, prefix: Option<string>) returns (removed: nat)
    requires forall i, j | 0 <= i < j < |caches| :: caches[i] != caches[j]
    modifies caches
    ensures forall c | c in caches :: c.store == Kept(old(c.store), prefix)
    ensures forall c | c in caches :: Survives(old(c.store), c.store, prefix)
    ensures removed == old(Entries(caches)) - Entries(caches)
  {
    hide Kept, Survives;
    removed := 0;
    for i := 0 to |caches|
      invariant forall j | 0 <= j < i ::
                  caches[j].store == Kept(old(caches[j].store), prefix)
                  && Survives(old(caches[j].store), caches[j].store, prefix)
      invariant forall j | i <= j < |caches| :: caches[j].store == old(caches[j].store)
      invariant removed == old(Entries(caches[..i])) - Entries(caches[..i])
    {
      label before:
      var n := caches[i].Clear(prefix);
      SameEntries@before(caches[..i]);
      assert caches[..i + 1][..i] == caches[..i];
      removed := removed + n;
    }
    assert caches[..|caches|] == caches;
  }

  ghost function Entries<V>(caches: seq<ResponseCache<V>>): nat
    reads caches
  {
    if caches == [] then 0 else Entries(caches[..|caches| - 1]) + |caches[|caches| - 1].store|
  }

  twostate lemma SameEntries<V>(caches: seq<ResponseCache<V>>)
    requires forall c | c in caches :: c.store == old(c.store)
    ensures Entries(caches) == old(Entries(caches))
  {
    if caches != [] {
      SameEntries(caches[..|caches| - 1]);
    }
  }

  // ---------------------------------------------------------------- the protocol

  datatype Pc<V> = Arrived | WaitingLock | Locked | Computing | Direct | Returned(value: V) | Failed

  /** A caller read the clock once, on arrival; without a request it has no key and bypasses the cache. */
  datatype Caller<V> = Caller(key: Option<string>, arrival: real, pc: Pc<V>)

  /** What happened to the store, in order: the record that the theorems speak about. */
  datatype Event<V> =
    | Computed(maker: nat, key: string, arrival: real, finished: real, value: V)
    | Cleared(prefix: Option<string>)

  datatype State<V> = State(now: real, store: Store<V>, holder: Option<nat>,
                            callers: map<nat, Caller<V>>, history: seq<Event<V>>)

  datatype Action<V> =
    | Tick(elapsed: real)
    | Arrive(id: nat, key: Option<string>)
    | FastPath(id: nat)
    | Acquire(id: nat)
    | Recheck(id: nat)
    | Finish(id: nat, result: V)
    | Raise(id: nat)
    | Clear(prefix: Option<string>)

  function Init<V>(): State<V> {
    State(0.0, map[], None, map[], [])
  }

  predicate At<V(==)>(s: State<V>, id: nat, pc: Pc<V>) {
    id in s.callers && s.callers[id].pc == pc && (pc != Direct ==> s.callers[id].key.Some?)
  }

  function Moved<V>(s: State<V>, id: nat, pc: Pc<V>): map<nat, Caller<V>>
    requires id in s.callers
  {
    s.callers[id := s.callers[id].(pc := pc)]
  }

  function Next<V(==)>(seconds: real, s: State<V>, a: Action<V>): State<V> {
    match a
    case Tick(elapsed) => if elapsed >= 0.0 then s.(now := s.now + elapsed) else s
    case Arrive(id, key) =>
      if id in s.callers then s
      else s.(callers := s.callers[id := Caller(key, s.now, if key.Some? then Arrived else Direct)])
    case FastPath(id) =>
      if !At(s, id, Arrived) then s
      else
        var hit := Hit(s.store, s.callers[id].key.value, s.callers[id].arrival);
        s.(callers := Moved(s, id, if hit.Some? then Returned(hit.value) else WaitingLock))
    case Acquire(id) =>
      if At(s, id, WaitingLock) && s.holder.None? then s.(holder := Some(id), callers := Moved(s, id, Locked)) else s
    case Recheck(id) =>
      if !At(s, id, Locked) then s
      else
        var hit := Hit(s.store, s.callers[id].key.value, s.callers[id].arrival);
        if hit.Some? then s.(holder := None, callers := Moved(s, id, Returned(hit.value)))
        else s.(callers := Moved(s, id, Computing))
    case Finish(id, v) =>
      if At(s, id, Computing) then
        var c := s.callers[id];
        s.(store := s.store[c.key.value := Entry(c.arrival + seconds, v)],
           holder := None,
           callers := Moved(s, id, Returned(v)),
           history := s.history + [Computed(id, c.key.value, c.arrival, s.now, v)])
      else if At(s, id, Direct) then s.(callers := Moved(s, id, Returned(v)))
      else s
    case Raise(id) =>
      if At(s, id, Computing) then s.(holder := None, callers := Moved(s, id, Failed))
      else if At(s, id, WaitingLock) || At(s, id, Direct) then s.(callers := Moved(s, id, Failed))
      else s
    case Clear(prefix) =>
      s.(store := Kept(s.store, prefix), history := s.history + [Cleared(prefix)])
  }

  function Run<V(==)>(seconds: real, actions: seq<Action<V>>): State<V> {
    if actions == [] then Init() else Next(seconds, Run(seconds, actions[..|actions| - 1]), actions[|actions| - 1])
  }

  // ---------------------------------------------------------------- what every run keeps

  /** What an event leaves of the entry of a key. */
  function Leaves<V>(seconds: real, e: Event<V>, key: string, before: Option<Entry<V>>): Option<Entry<V>> {
    if e.Computed? then if e.key == key then Some(Entry(e.arrival + seconds, e.value)) else before
    else if Matches(key, e.prefix) then None
    else before
  }

  /** The entry that the history leaves for a key: its last computation, unless it was cleared since. */
  function Live<V>(seconds: real, history: seq<Event<V>>, key: string): Option<Entry<V>> {
    if history == [] then None
    else Leaves(seconds, history[|history| - 1], key, Live(seconds, history[..|history| - 1], key))
  }

  /** A computation of the key that arrived at `arrival` was due: no entry was still good. */
  predicate Due<V>(live: Option<Entry<V>>, arrival: real) {
    live.Some? ==> live.value.expires <= arrival
  }

  /** Every computation was due. */
  predicate Spaced<V>(seconds: real, history: seq<Event<V>>) {
    history == []
    || (var init, e := history[..|history| - 1], history[|history| - 1];
        Spaced(seconds, init)
        && (e.Computed? ==> e.arrival <= e.finished && Due(Live(seconds, init, e.key), e.arrival)))
  }

  /** `e` made the value `v` that caller `id` may be handed: its own computation, or one that was fresh
      for it. */
  ghost predicate Serves<V>(seconds: real, e: Event<V>, id: nat, c: Caller<V>, v: V) {
    e.Computed? && c.key == Some(e.key) && e.value == v
    && ((e.maker == id && e.arrival == c.arrival) || c.arrival < e.arrival + seconds)
  }

  ghost predicate Served<V>(seconds: real, s: State<V>, id: nat)
    requires id in s.callers
  {
    var c := s.callers[id];
    c.key.Some? && c.pc.Returned? ==> exists e :: e in s.history && Serves(seconds, e, id, c, c.pc.value)
  }

  predicate CallerOk<V>(s: State<V>, id: nat)
    requires id in s.callers
  {
    var c := s.callers[id];
    && c.arrival <= s.now
    && (c.pc.Arrived? || c.pc.WaitingLock? || c.pc.Locked? || c.pc.Computing? ==> c.key.Some?)
    && (c.pc.Direct? ==> c.key.None?)
    && (c.pc.Locked? || c.pc.Computing? <==> s.holder == Some(id))
    && (c.pc.Computing? && c.key.value in s.store ==> s.store[c.key.value].expires <= c.arrival)
  }

  /** The store is what the history leaves. */
  ghost predicate Tracks<V>(seconds: real, s: State<V>) {
    forall k :: Live(seconds, s.history, k) == if k in s.store then Some(s.store[k]) else None
  }

  ghost predicate Inv<V(!new)>(seconds: real, s: State<V>) {
    && (s.holder.Some? ==> s.holder.value in s.callers)
    && (forall id | id in s.callers :: CallerOk(s, id))
    && (forall id | id in s.callers :: Served(seconds, s, id))
    && Tracks(seconds, s)
    && Spaced(seconds, s.history)
    && (forall e | e in s.history && e.Computed? :: e.finished <= s.now)
  }

  lemma HistoryGrows<V>(seconds: real, history: seq<Event<V>>, e: Event<V>, key: string)
    ensures Live(seconds, history + [e], key) == Leaves(seconds, e, key, Live(seconds, history, key))
    ensures Spaced(seconds, history + [e]) <==>
              Spaced(seconds, history)
              && (e.Computed? ==> e.arrival <= e.finished && Due(Live(seconds, history, e.key), e.arrival))
  {
    assert (history + [e])[..|history|] == history;
  }

  function Found<V>(store: Store<V>, key: string): Option<Entry<V>> {
    if key in store then Some(store[key]) else None
  }

  /** The store changes as the history says, if it grows, and not otherwise. */
  lemma StoreFollows<V>(seconds: real, s: State<V>, a: Action<V>, key: string)
    ensures var t := Next(seconds, s, a);
            if t.history == s.history then t.store == s.store
            else
              && t.history == s.history + [t.history[|s.history|]]
              && Found(t.store, key) == Leaves(seconds, t.history[|s.history|], key, Found(s.store, key))
  {
  }

  /** A computation that is recorded was due. */
  lemma RecordedWasDue<V(!new)>(seconds: real, s: State<V>, a: Action<V>)
    requires Inv(seconds, s)
    ensures var t := Next(seconds, s, a);
            t.history != s.history ==>
              var e := t.history[|s.history|];
              e.Computed? ==> e.arrival <= e.finished && Due(Live(seconds, s.history, e.key), e.arrival)
  {
    hide Served, Spaced, Leaves;
    if a.Finish? && a.id in s.callers {
      assert CallerOk(s, a.id);
    }
  }

  lemma TracksStep<V(!new)>(seconds: real, s: State<V>, a: Action<V>)
    requires Inv(seconds, s)
    ensures var t := Next(seconds, s, a); Tracks(seconds, t) && Spaced(seconds, t.history)
  {
    hide Next, CallerOk, Served, Live, Leaves, Due;
    var t := Next(seconds, s, a);
    StoreFollows(seconds, s, a, "");
    if t.history != s.history {
      var e := t.history[|s.history|];
      RecordedWasDue(seconds, s, a);
      forall k ensures Live(seconds, t.history, k) == if k in t.store then Some(t.store[k]) else None {
        StoreFollows(seconds, s, a, k);
        HistoryGrows(seconds, s.history, e, k);
      }
      HistoryGrows(seconds, s.history, e, "");
    }
  }

  lemma ServedBefore<V(!new)>(seconds: real, s: State<V>, a: Action<V>, id: nat)
    requires Inv(seconds, s) && id in s.callers && s.callers[id].pc.Returned?
    ensures id in Next(seconds, s, a).callers && Served(seconds, Next(seconds, s, a), id)
  {
    hide Spaced, Leaves;
    var t, c := Next(seconds, s, a), s.callers[id];
    assert Served(seconds, s, id);
    if c.key.Some? {
      var e :| e in s.history && Serves(seconds, e, id, c, c.pc.value);
      assert e in t.history && Serves(seconds, e, id, t.callers[id], c.pc.value);
    }
  }

  lemma ServedByFinish<V(!new)>(seconds: real, s: State<V>, a: Action<V>, id: nat)
    requires Inv(seconds, s) && a.Finish? && id in s.callers && !s.callers[id].pc.Returned?
    ensures id in Next(seconds, s, a).callers && Served(seconds, Next(seconds, s, a), id)
  {
    hide Spaced, Leaves;
    var t := Next(seconds, s, a);
    var c := t.callers[id];
    assert CallerOk(s, id);
    if c.key.Some? && c.pc.Returned? {
      var e := t.history[|t.history| - 1];
      assert e in t.history && Serves(seconds, e, id, c, c.pc.value);
    }
  }

  lemma ServedByHit<V(!new)>(seconds: real, s: State<V>, a: Action<V>, id: nat)
    requires Inv(seconds, s) && !a.Finish? && id in Next(seconds, s, a).callers
    requires id in s.callers ==> !s.callers[id].pc.Returned?
    ensures Served(seconds, Next(seconds, s, a), id)
  {
    hide Spaced, Leaves, CallerOk;
    var t := Next(seconds, s, a);
    var c := t.callers[id];
    if c.key.Some? && c.pc.Returned? {
      assert Live(seconds, s.history, c.key.value) == Some(s.store[c.key.value]);
      LiveIsServed(seconds, s.history, c.key.value);
      var e :| e in s.history && e.Computed? && e.key == c.key.value
               && Entry(e.arrival + seconds, e.value) == Live(seconds, s.history, c.key.value).value;
      assert e in t.history && Serves(seconds, e, id, c, c.pc.value);
    }
  }

  lemma ServedStep<V(!new)>(seconds: real, s: State<V>, a: Action<V>, id: nat)
    requires Inv(seconds, s)
    requires id in Next(seconds, s, a).callers
    ensures Served(seconds, Next(seconds, s, a), id)
  {
    hide Served;
    if id in s.callers && s.callers[id].pc.Returned? {
      ServedBefore(seconds, s, a, id);
    } else if a.Finish? {
      assert id in s.callers;
      ServedByFinish(seconds, s, a, id);
    } else {
      ServedByHit(seconds, s, a, id);
    }
  }

  /** A live entry was made by a computation of the history. */
  lemma {:induction false} LiveIsServed<V>(seconds: real, history: seq<Event<V>>, key: string)
    requires Live(seconds, history, key).Some?
    ensures exists e :: e in history && e.Computed? && e.key == key
              && Entry(e.arrival + seconds, e.value) == Live(seconds, history, key).value
  {
    var init, e := history[..|history| - 1], history[|history| - 1];
    if !(e.Computed? && e.key == key) {
      LiveIsServed(seconds, init, key);
    }
  }

  lemma CallerStep<V(!new)>(seconds: real, s: State<V>, a: Action<V>, id: nat)
    requires Inv(seconds, s)
    requires id in Next(seconds, s, a).callers
    ensures CallerOk(Next(seconds, s, a), id)
  {
    hide Served, Tracks, Spaced;
    if id in s.callers { assert CallerOk(s, id); }
    if s.holder.Some? { assert CallerOk(s, s.holder.value); }
    match a
    case Tick(_) =>
    case Arrive(_, _) =>
    case FastPath(_) =>
    case Acquire(_) =>
    case Recheck(_) =>
    case Finish(i, _) => if i in s.callers { assert CallerOk(s, i); }
    case Raise(i) => if i in s.callers { assert CallerOk(s, i); }
    case Clear(_) =>
  }

  lemma InvStep<V(!new)>(seconds: real, s: State<V>, a: Action<V>)
    requires Inv(seconds, s)
    ensures Inv(seconds, Next(seconds, s, a))
  {
    TracksStep(seconds, s, a);
    var t := Next(seconds, s, a);
    forall id | id in t.callers ensures Served(seconds, t, id) {
      ServedStep(seconds, s, a, id);
    }
    forall id | id in t.callers ensures CallerOk(t, id) {
      CallerStep(seconds, s, a, id);
    }
    HistoryStep(seconds, s, a);
  }

  lemma HistoryStep<V>(seconds: real, s: State<V>, a: Action<V>)
    requires s.holder.Some? ==> s.holder.value in s.callers
    requires forall e | e in s.history && e.Computed? :: e.finished <= s.now
    ensures var t := Next(seconds, s, a);
            && (t.holder.Some? ==> t.holder.value in t.callers)
            && (forall e | e in t.history && e.Computed? :: e.finished <= t.now)
  {
  }

  lemma {:induction false} InvHolds<V(!new)>(seconds: real, actions: seq<Action<V>>)
    ensures Inv(seconds, Run(seconds, actions))
  {
    if actions != [] {
      InvHolds(seconds, actions[..|actions| - 1]);
      InvStep(seconds, Run(seconds, actions[..|actions| - 1]), actions[|actions| - 1]);
    }
  }

  // ---------------------------------------------------------------- main results

  /** At most one handler call made through the cache is in flight, its caller holds the lock, and whoever
      holds the lock can move on: it is released by the recheck, by the handler's return or by its failure. */
  lemma OneHandlerInFlight<V(!new)>(seconds: real, actions: seq<Action<V>>, i: nat, j: nat)
    ensures var s := Run(seconds, actions);
            At(s, i, Computing) && At(s, j, Computing) ==> i == j && s.holder == Some(i)
    ensures var s := Run(seconds, actions);
            s.holder.Some? ==> At(s, s.holder.value, Locked) || At(s, s.holder.value, Computing)
    ensures var s := Run(seconds, actions);
            i in s.callers && (s.callers[i].pc.Returned? || s.callers[i].pc.Failed?) ==> s.holder != Some(i)
  {
    InvHolds(seconds, actions);
    var s := Run(seconds, actions);
    if i in s.callers { assert CallerOk(s, i); }
    if j in s.callers { assert CallerOk(s, j); }
    if s.holder.Some? { assert CallerOk(s, s.holder.value); }
  }

  /** No clear between the two positions dropped the key. */
  predicate Unbroken<V>(history: seq<Event<V>>, i: nat, j: nat, key: string) {
    forall m | 0 <= i < m < j <= |history| :: history[m].Cleared? ==> !Matches(key, history[m].prefix)
  }

  lemma {:induction false} LiveSince<V>(seconds: real, history: seq<Event<V>>, i: nat, key: string)
    requires seconds >= 0.0
    requires Spaced(seconds, history)
    requires i < |history| && history[i].Computed? && history[i].key == key
    requires Unbroken(history, i, |history|, key)
    ensures Live(seconds, history, key).Some?
    ensures Live(seconds, history, key).value.expires >= history[i].arrival + seconds
  {
    var init := history[..|history| - 1];
    if i < |init| {
      assert Unbroken(init, i, |init|, key);
      LiveSince(seconds, init, i, key);
    }
  }

  lemma {:induction false} SpacedApart<V>(seconds: real, history: seq<Event<V>>, i: nat, j: nat)
    requires seconds >= 0.0
    requires Spaced(seconds, history)
    requires i < j < |history| && history[i].Computed? && history[j].Computed? && history[i].key == history[j].key
    requires Unbroken(history, i, j, history[i].key)
    ensures history[j].arrival >= history[i].arrival + seconds
  {
    var init := history[..|history| - 1];
    if j < |init| {
      assert Unbroken(init, i, j, history[i].key);
      SpacedApart(seconds, init, i, j);
    } else {
      assert Unbroken(init, i, |init|, history[i].key);
      LiveSince(seconds, init, i, history[i].key);
    }
  }

  /** In every run, two successful computations of a key with no clear of it in between were made for
      arrivals at least `seconds` apart, the later one for the later arrival. */
  lemma ComputationsAreApart<V(!new)>(seconds: real, actions: seq<Action<V>>, i: nat, j: nat)
    requires seconds >= 0.0
    requires var h := Run(seconds, actions).history;
             && i < j < |h| && h[i].Computed? && h[j].Computed? && h[i].key == h[j].key
             && Unbroken(h, i, j, h[i].key)
    ensures var h := Run(seconds, actions).history; h[j].arrival >= h[i].arrival + seconds
  {
    InvHolds(seconds, actions);
    SpacedApart(seconds, Run(seconds, actions).history, i, j);
  }

  /** In every run, the value handed to a request that arrived at `a` was computed for its own key, and
      either by itself or with a result that came in after `a - seconds`. */
  lemma HandedValuesAreFresh<V(!new)>(seconds: real, actions: seq<Action<V>>, id: nat)
    requires id in Run(seconds, actions).callers
    requires var c := Run(seconds, actions).callers[id]; c.key.Some? && c.pc.Returned?
    ensures var s := Run(seconds, actions);
            var c := s.callers[id];
            exists e :: e in s.history && e.Computed? && e.key == c.key.value && e.value == c.pc.value
                        && (e.finished > c.arrival - seconds || (e.maker == id && e.finished >= c.arrival))
  {
    InvHolds(seconds, actions);
    var s := Run(seconds, actions);
    var c := s.callers[id];
    assert Served(seconds, s, id);
    var e :| e in s.history && Serves(seconds, e, id, c, c.pc.value);
    HistoryOrder(seconds, s.history, e);
  }

  lemma {:induction false} HistoryOrder<V>(seconds: real, history: seq<Event<V>>, e: Event<V>)
    requires Spaced(seconds, history) && e in history && e.Computed?
    ensures e.arrival <= e.finished
  {
    var init := history[..|history| - 1];
    assert history == init + [history[|history| - 1]];
    if e in init {
      HistoryOrder(seconds, init, e);
    }
  }

  /** The lifetime runs from the arrival to the arrival, not to the answer: a caller that waited for the
      lock is handed the entry however long it has been out of date. */
  lemma ExpiredWhileWaiting<V>(seconds: real, wait: real, key: string, v: V)
    requires seconds > 0.0 && wait >= 0.0
    ensures var k := Some(key);
            var before := [Arrive(0, k), FastPath(0), Acquire(0), Recheck(0), Arrive(1, k), FastPath(1), Finish(0, v),
                           Tick(seconds + wait)];
            var s, t := Run(seconds, before), Run(seconds, before + [Acquire(1), Recheck(1)]);
            && key in s.store && s.store[key].expires + wait == s.now == t.now
            && At(t, 1, Returned(v))
  {
    var k := Some(key);
    var before: seq<Action<V>> :=
      [Arrive(0, k), FastPath(0), Acquire(0), Recheck(0), Arrive(1, k), FastPath(1), Finish(0, v),
       Tick(seconds + wait)];
    RunToWait(seconds, wait, key, v, before);
    LateHit(seconds, wait, key, v, before);
  }

  lemma RunToWait<V>(seconds: real, wait: real, key: string, v: V, before: seq<Action<V>>)
    requires seconds > 0.0 && wait >= 0.0
    requires before == [Arrive(0, Some(key)), FastPath(0), Acquire(0), Recheck(0), Arrive(1, Some(key)), FastPath(1),
                        Finish(0, v), Tick(seconds + wait)]
    ensures Run(seconds, before) == AfterWait(seconds, wait, key, v)
  {
    var s5 := AfterMeeting<V>(key);
    Meeting(seconds, key, before);
    Waiting(seconds, wait, key, v);
    Goes(seconds, before, 6, s5, Next(seconds, s5, Finish(0, v)));
    Goes(seconds, before, 7, Next(seconds, s5, Finish(0, v)), AfterWait(seconds, wait, key, v));
    assert before[..8] == before;
  }

  lemma LateHit<V>(seconds: real, wait: real, key: string, v: V, before: seq<Action<V>>)
    requires seconds > 0.0 && wait >= 0.0
    requires Run(seconds, before) == AfterWait(seconds, wait, key, v)
    ensures var t := Run(seconds, before + [Acquire(1), Recheck(1)]);
            At(t, 1, Returned(v)) && t.now == seconds + wait
  {
    var n, all := |before|, before + [Acquire(1), Recheck(1)];
    var s8 := AfterWait(seconds, wait, key, v);
    var s9 := Next(seconds, s8, Acquire(1));
    Waiting(seconds, wait, key, v);
    assert all[..n] == before && all[..n + 2] == all;
    Goes(seconds, all, n, s8, s9);
    Goes(seconds, all, n + 1, s9, Next(seconds, s9, Recheck(1)));
  }

  /** Caller 0 computes, caller 1 waits for the lock. */
  function AfterMeeting<V>(key: string): State<V> {
    Two(0.0, Some(0), Caller(Some(key), 0.0, Computing), Caller(Some(key), 0.0, WaitingLock))
  }

  /** Caller 0 has stored its value, and its lifetime and the wait have gone by. */
  function AfterWait<V>(seconds: real, wait: real, key: string, v: V): State<V> {
    State(seconds + wait, map[key := Entry(seconds, v)], None,
          map[0 := Caller(Some(key), 0.0, Returned(v)), 1 := Caller(Some(key), 0.0, WaitingLock)],
          [Computed(0, key, 0.0, 0.0, v)])
  }

  lemma Waiting<V>(seconds: real, wait: real, key: string, v: V)
    requires seconds > 0.0 && wait >= 0.0
    ensures var s8 := AfterWait(seconds, wait, key, v);
            && Next(seconds, Next(seconds, AfterMeeting<V>(key), Finish(0, v)), Tick(seconds + wait)) == s8
            && var t := Next(seconds, Next(seconds, s8, Acquire(1)), Recheck(1));
               At(t, 1, Returned(v)) && t.now == s8.now
  {
    var s5, s8 := AfterMeeting<V>(key), AfterWait(seconds, wait, key, v);
    var s6 := Next(seconds, s5, Finish(0, v));
    assert s6.store == map[key := Entry(seconds, v)];
    assert s6.callers == s8.callers;
    assert s6.history == s8.history;
    var s9 := Next(seconds, s8, Acquire(1));
    assert s9.callers[1] == Caller(Some(key), 0.0, Locked);
  }

  /** Caller 0 alone: it misses, takes the lock, misses again and calls the handler. */
  function Alone<V>(key: string, pc: Pc<V>): State<V> {
    State(0.0, map[], if pc.Locked? || pc.Computing? then Some(0) else None, map[0 := Caller(Some(key), 0.0, pc)], [])
  }

  lemma AloneSteps<V>(seconds: real, key: string)
    ensures Next<V>(seconds, Init(), Arrive(0, Some(key))) == Alone(key, Arrived)
    ensures Next<V>(seconds, Alone(key, Arrived), FastPath(0)) == Alone(key, WaitingLock)
    ensures Next<V>(seconds, Alone(key, WaitingLock), Acquire(0)) == Alone(key, Locked)
    ensures Next<V>(seconds, Alone(key, Locked), Recheck(0)) == Alone(key, Computing)
  {
  }

  lemma SecondArrives<V>(seconds: real, key: string)
    ensures Next(seconds, Next<V>(seconds, Alone(key, Computing), Arrive(1, Some(key))), FastPath(1))
            == AfterMeeting(key)
  {
    var s := Next<V>(seconds, Alone(key, Computing), Arrive(1, Some(key)));
    assert s.callers[1] == Caller(Some(key), 0.0, Arrived);
  }

  lemma Meeting<V>(seconds: real, key: string, actions: seq<Action<V>>)
    requires 6 <= |actions|
    requires actions[0] == Arrive(0, Some(key)) && actions[1] == FastPath(0) && actions[2] == Acquire(0)
    requires actions[3] == Recheck(0) && actions[4] == Arrive(1, Some(key)) && actions[5] == FastPath(1)
    ensures Run(seconds, actions[..6]) == AfterMeeting(key)
  {
    assert actions[..0] == [];
    AloneSteps<V>(seconds, key);
    SecondArrives<V>(seconds, key);
    var s := Next<V>(seconds, Alone(key, Computing), Arrive(1, Some(key)));
    Goes(seconds, actions, 0, Init(), Alone(key, Arrived));
    Goes(seconds, actions, 1, Alone(key, Arrived), Alone(key, WaitingLock));
    Goes(seconds, actions, 2, Alone(key, WaitingLock), Alone(key, Locked));
    Goes(seconds, actions, 3, Alone(key, Locked), Alone(key, Computing));
    Goes(seconds, actions, 4, Alone(key, Computing), s);
    Goes(seconds, actions, 5, s, AfterMeeting(key));
  }

  lemma Goes<V>(seconds: real, actions: seq<Action<V>>, i: nat, s: State<V>, t: State<V>)
    requires i < |actions| && Run(seconds, actions[..i]) == s && Next(seconds, s, actions[i]) == t
    ensures Run(seconds, actions[..i + 1]) == t
  {
    assert actions[..i + 1][..i] == actions[..i];
  }

  // ---------------------------------------------------------------- how stale a handed value can be

  /** The action hands the stored value to a caller that has waited for `wait` since it arrived, when the value
      has been out of date for `overdue` (or is good for as long, when that is negative). */
  predicate HandsOut<V(==)>(s: State<V>, a: Action<V>, wait: real, overdue: real) {
    && ((a.FastPath? && At(s, a.id, Arrived)) || (a.Recheck? && At(s, a.id, Locked)))
    && var c := s.callers[a.id];
       && Hit(s.store, c.key.value, c.arrival).Some?
       && s.now - c.arrival == wait && s.now - s.store[c.key.value].expires == overdue
  }

  /** What is stored expires one lifetime after its caller arrived, and that is in the past. */
  lemma StoredInPast<V(!new)>(seconds: real, s: State<V>, key: string)
    requires Inv(seconds, s) && key in s.store
    ensures s.store[key].expires <= s.now + seconds
  {
    assert Live(seconds, s.history, key) == Some(s.store[key]);
    LiveIsServed(seconds, s.history, key);
    var e :| e in s.history && e.Computed? && e.key == key
             && Entry(e.arrival + seconds, e.value) == Live(seconds, s.history, key).value;
    HistoryOrder(seconds, s.history, e);
  }

  lemma OverdueIsBounded<V(!new)>(seconds: real, actions: seq<Action<V>>, a: Action<V>, wait: real, overdue: real)
    requires HandsOut(Run(seconds, actions), a, wait, overdue)
    ensures wait >= 0.0 && -seconds <= overdue < wait
  {
    var s := Run(seconds, actions);
    InvHolds(seconds, actions);
    assert CallerOk(s, a.id);
    StoredInPast(seconds, s, s.callers[a.id].key.value);
  }

  ghost predicate Reached<V(!new)>(seconds: real, s: State<V>) {
    exists actions :: Run(seconds, actions) == s
  }

  lemma ReachedNext<V(!new)>(seconds: real, s: State<V>, a: Action<V>, t: State<V>)
    requires Reached(seconds, s) && Next(seconds, s, a) == t
    ensures Reached(seconds, t)
  {
    var actions :| Run(seconds, actions) == s;
    assert (actions + [a])[..|actions|] == actions;
    assert Run(seconds, actions + [a]) == t;
  }

  lemma ReachedFirst<V(!new)>(seconds: real)
    ensures Reached<V>(seconds, Init())
  {
    assert Run<V>(seconds, []) == Init();
  }

  /** Two callers of a key with nothing stored. */
  function Two<V>(now: real, holder: Option<nat>, a: Caller<V>, b: Caller<V>): State<V> {
    State(now, map[], holder, map[0 := a, 1 := b], [])
  }

  /** Caller 0 computes and caller 1 waits; then the value is stored, time goes by, and caller 1 gets it. */
  lemma HandsOutLater<V(!new)>(seconds: real, now: real, a0: real, a1: real, elapsed: real, key: string, v: V)
    requires elapsed >= 0.0 && a1 < a0 + seconds
    requires Reached(seconds, Two<V>(now, Some(0), Caller(Some(key), a0, Computing),
                                     Caller(Some(key), a1, WaitingLock)))
    ensures exists s :: Reached(seconds, s)
              && HandsOut<V>(s, Recheck(1), now + elapsed - a1, now + elapsed - (a0 + seconds))
  {
    var k := Some(key);
    var s := Two<V>(now, Some(0), Caller(k, a0, Computing), Caller(k, a1, WaitingLock));
    var history := [Computed(0, key, a0, now, v)];
    var stored := State(now, map[key := Entry(a0 + seconds, v)], None,
                        map[0 := Caller(k, a0, Returned(v)), 1 := Caller(k, a1, WaitingLock)], history);
    assert Next(seconds, s, Finish(0, v)) == stored by {
      assert Next(seconds, s, Finish(0, v)).store == stored.store;
      assert Next(seconds, s, Finish(0, v)).callers == stored.callers;
      assert Next(seconds, s, Finish(0, v)).history == stored.history;
    }
    ReachedNext(seconds, s, Finish(0, v), stored);
    var later := stored.(now := now + elapsed);
    ReachedNext(seconds, stored, Tick(elapsed), later);
    var locked := Next(seconds, later, Acquire(1));
    ReachedNext(seconds, later, Acquire(1), locked);
    assert locked.callers[1] == Caller(k, a1, Locked);
  }

  /** The caller that waits arrives `p` after the one that computes. */
  lemma WaiterIsLater<V(!new)>(seconds: real, p: real, key: string)
    requires p >= 0.0
    ensures Reached(seconds, Two<V>(p, Some(0), Caller(Some(key), 0.0, Computing), Caller(Some(key), p, WaitingLock)))
  {
    var k := Some(key);
    AloneIsReached<V>(seconds, key);
    var s := Alone<V>(key, Computing);
    var later := s.(now := p);
    ReachedNext(seconds, s, Tick(p), later);
    var arrived := Two<V>(p, Some(0), Caller(k, 0.0, Computing), Caller(k, p, Arrived));
    assert Next(seconds, later, Arrive(1, k)).callers == arrived.callers;
    ReachedNext(seconds, later, Arrive(1, k), arrived);
    var waiting := Two<V>(p, Some(0), Caller(k, 0.0, Computing), Caller(k, p, WaitingLock));
    assert Next(seconds, arrived, FastPath(1)).callers == waiting.callers;
    ReachedNext(seconds, arrived, FastPath(1), waiting);
  }

  lemma AloneIsReached<V(!new)>(seconds: real, key: string)
    ensures Reached(seconds, Alone<V>(key, Computing))
  {
    ReachedFirst<V>(seconds);
    AloneSteps<V>(seconds, key);
    ReachedNext(seconds, Init(), Arrive(0, Some(key)), Alone<V>(key, Arrived));
    ReachedNext(seconds, Alone<V>(key, Arrived), FastPath(0), Alone(key, WaitingLock));
    ReachedNext(seconds, Alone<V>(key, WaitingLock), Acquire(0), Alone(key, Locked));
    ReachedNext(seconds, Alone<V>(key, Locked), Recheck(0), Alone(key, Computing));
  }

  /** Caller 1 alone at the start, looking for an entry that is not there. */
  function Waiter<V>(now: real, key: string, pc: Pc<V>): State<V> {
    State(now, map[], None, map[1 := Caller(Some(key), 0.0, pc)], [])
  }

  lemma WaiterSteps<V(!new)>(seconds: real, x: real, key: string)
    requires x >= 0.0
    ensures Next<V>(seconds, Init(), Arrive(1, Some(key))) == Waiter(0.0, key, Arrived)
    ensures Next<V>(seconds, Waiter(0.0, key, Arrived), FastPath(1)) == Waiter(0.0, key, WaitingLock)
    ensures Next<V>(seconds, Waiter(0.0, key, WaitingLock), Tick(x)) == Waiter(x, key, WaitingLock)
  {
  }

  function WaitingSince<V>(arrival: real, key: string): Caller<V> {
    Caller(Some(key), arrival, WaitingLock)
  }

  lemma OtherSteps<V(!new)>(seconds: real, x: real, key: string)
    ensures var k, w := Some(key), WaitingSince<V>(0.0, key);
            && Next(seconds, Waiter(x, key, WaitingLock), Arrive(0, k)) == Two(x, None, Caller(k, x, Arrived), w)
            && Next(seconds, Two(x, None, Caller(k, x, Arrived), w), FastPath(0))
               == Two(x, None, Caller(k, x, WaitingLock), w)
            && Next(seconds, Two(x, None, Caller(k, x, WaitingLock), w), Acquire(0))
               == Two(x, Some(0), Caller(k, x, Locked), w)
            && Next(seconds, Two(x, Some(0), Caller(k, x, Locked), w), Recheck(0))
               == Two(x, Some(0), Caller(k, x, Computing), w)
  {
    var k, w := Some(key), WaitingSince<V>(0.0, key);
    assert Next(seconds, Waiter(x, key, WaitingLock), Arrive(0, k)).callers == map[0 := Caller(k, x, Arrived), 1 := w];
    assert Two(x, None, Caller(k, x, Arrived), w).callers[0 := Caller(k, x, WaitingLock)]
        == map[0 := Caller(k, x, WaitingLock), 1 := w];
    assert Two(x, None, Caller(k, x, WaitingLock), w).callers[0 := Caller(k, x, Locked)]
        == map[0 := Caller(k, x, Locked), 1 := w];
    assert Two(x, Some(0), Caller(k, x, Locked), w).callers[0 := Caller(k, x, Computing)]
        == map[0 := Caller(k, x, Computing), 1 := w];
  }

  /** The caller that waits arrives `x` before the one that computes. */
  lemma WaiterIsEarlier<V(!new)>(seconds: real, x: real, key: string)
    requires x >= 0.0
    ensures Reached(seconds, Two<V>(x, Some(0), Caller(Some(key), x, Computing), Caller(Some(key), 0.0, WaitingLock)))
  {
    hide Next, Reached;
    var k, w := Some(key), WaitingSince<V>(0.0, key);
    ReachedFirst<V>(seconds);
    WaiterSteps<V>(seconds, x, key);
    OtherSteps<V>(seconds, x, key);
    ReachedNext(seconds, Init<V>(), Arrive(1, k), Waiter(0.0, key, Arrived));
    ReachedNext(seconds, Waiter<V>(0.0, key, Arrived), FastPath(1), Waiter(0.0, key, WaitingLock));
    ReachedNext(seconds, Waiter<V>(0.0, key, WaitingLock), Tick(x), Waiter(x, key, WaitingLock));
    ReachedNext(seconds, Waiter<V>(x, key, WaitingLock), Arrive(0, k), Two(x, None, Caller(k, x, Arrived), w));
    var queued, locked := Two(x, None, Caller(k, x, WaitingLock), w), Two(x, Some(0), Caller(k, x, Locked), w);
    ReachedNext(seconds, Two(x, None, Caller(k, x, Arrived), w), FastPath(0), queued);
    ReachedNext(seconds, queued, Acquire(0), locked);
    ReachedNext(seconds, locked, Recheck(0), Two(x, Some(0), Caller(k, x, Computing), w));
  }

  lemma CanBeOverdue<V(!new)>(seconds: real, wait: real, overdue: real, key: string, v: V)
    requires wait >= 0.0 && -seconds <= overdue < wait
    ensures exists s :: Reached(seconds, s) && HandsOut<V>(s, Recheck(1), wait, overdue)
  {
    hide Next, Reached, HandsOut;
    var ahead := wait - overdue - seconds;
    if ahead <= 0.0 {
      WaiterIsLater<V>(seconds, -ahead, key);
      HandsOutLater(seconds, -ahead, 0.0, -ahead, wait, key, v);
      assert -ahead + wait - (-ahead) == wait && -ahead + wait - (0.0 + seconds) == overdue;
    } else {
      WaiterIsEarlier<V>(seconds, ahead, key);
      HandsOutLater(seconds, ahead, ahead, 0.0, seconds + overdue, key, v);
      assert ahead + (seconds + overdue) - 0.0 == wait && ahead + (seconds + overdue) - (ahead + seconds) == overdue;
    }
  }

  lemma OverdueRun<V(!new)>(seconds: real, wait: real, overdue: real, v: V)
    returns (actions: seq<Action<V>>, a: Action<V>)
    requires wait >= 0.0 && -seconds <= overdue < wait
    ensures HandsOut(Run(seconds, actions), a, wait, overdue)
  {
    hide HandsOut;
    a := Recheck(1);
    CanBeOverdue(seconds, wait, overdue, "", v);
    var s: State<V> :| Reached(seconds, s) && HandsOut(s, Recheck(1), wait, overdue);
    actions :| Run(seconds, actions) == s;
  }

  /** How stale a value can be when it is handed out, exactly: a caller that has waited for `wait` since it
      arrived can be handed a value that has been out of date for any time below `wait`, and no other. So a
      value is sure to be good only if nobody waits. */
  lemma OverdueIff<V(!new)>(seconds: real, wait: real, overdue: real, v: V)
    ensures (exists actions: seq<Action<V>>, a :: HandsOut(Run(seconds, actions), a, wait, overdue))
            <==> wait >= 0.0 && -seconds <= overdue < wait
  {
    if actions: seq<Action<V>>, a :| HandsOut(Run(seconds, actions), a, wait, overdue) {
      OverdueIsBounded(seconds, actions, a, wait, overdue);
    }
    if wait >= 0.0 && -seconds <= overdue < wait {
      var actions, a := OverdueRun(seconds, wait, overdue, v);
      assert HandsOut(Run(seconds, actions), a, wait, overdue);
    }
  }
}
