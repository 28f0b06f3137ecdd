/**
 Server-sent events: `subscribe`, `unsubscribe`, `emit_event` and the sequence counters of
 app/services/sse.py, without Redis.

 `Hub` and `EventQueue` are the shared objects that the program updates, for all tasks. `Next` is one
 step of the protocol on the channel of one task: emitters number an event under one lock and broadcast
 it under another, queue by queue, while subscribers take events, come and go. Other tasks share only the
 subscribers' lock and can do no more than make an action wait. A run is a sequence of actions, and an
 action that is not enabled changes nothing.
 */
module Events {
  import opened PyText

  predicate Terminal(kind: string) {
    kind == "done" || kind == "error" || kind == "cancelled"
  }

  /** `put_nowait`: a full queue refuses; a size of 0 or less is no limit. */
  predicate Full(maxsize: int, length: nat) {
    maxsize > 0 && length >= maxsize
  }

  // ---------------------------------------------------------------- the program

  datatype Value = Text(text: string) | Number(number: int) | Time(time: real)

  type Fields = map<string, Value>

  class EventQueue {
    const maxsize: int
    var items: seq<Fields>

    constructor (maxsize: int)
      ensures this.maxsize == maxsize && items == []
    {
      this.maxsize := maxsize;
      items := [];
    }

    method PutNowait(event: Fields)
      modifies this
      ensures items == Offered(old(items), maxsize, event)
    {
      if !Full(maxsize, |items|) {
        items := items + [event];
      }
    }
  }

  function Offered(items: seq<Fields>, maxsize: int, event: Fields): seq<Fields> {
    if Full(maxsize, |items|) then items else items + [event]
  }

  function Without<T(==)>(s: seq<T>, x: T): seq<T> {
    if s == [] then [] else if s[0] == x then s[1..] else [s[0]] + Without(s[1..], x)
  }

  /** What a task's record becomes when an event is emitted: everything but two reserved fields. */
  function Updated(task: Fields, data: Fields): Fields {
    task + map k | k in data && k != "type" && k != "timestamp" :: data[k]
  }

  function EventOf(kind: string, at: real, data: Fields): Fields {
    map["type" := Text(kind), "timestamp" := Time(at)] + data
  }

  /** The event as it is sent: the fields of the data, its number, and a kind and a time of its own for data
      that bring none. */
  predicate Carries(event: Fields, kind: string, at: real, data: Fields, number: nat) {
    && event.Keys == data.Keys + {"type", "timestamp", "seq"}
    && event["seq"] == Number(number)
    && (forall k | k in data && k != "seq" :: event[k] == data[k])
    && ("type" !in data ==> event["type"] == Text(kind))
    && ("timestamp" !in data ==> event["timestamp"] == Time(at))
  }

  /** The record after an event: every field of the event but its kind and its time, the number of the
      event, and everything else as before. */
  predicate Takes(before: Fields, after: Fields, data: Fields, number: nat) {
    && "seq" in after && after["seq"] == Number(number)
    && (forall k | k in data && k != "type" && k != "timestamp" && k != "seq" :: k in after && after[k] == data[k])
    && (forall k | k in before && (k !in data || k == "type" || k == "timestamp") && k != "seq" ::
          k in after && after[k] == before[k])
    && (forall k | k in after && k !in before && k != "seq" :: k in data && k != "type" && k != "timestamp")
  }

  lemma EventCarries(kind: string, at: real, data: Fields, number: nat)
    ensures Carries(EventOf(kind, at, data["seq" := Number(number)]), kind, at, data, number)
  {
  }

  lemma RecordTakes(task: Fields, data: Fields, number: nat)
    ensures Takes(task, Updated(task, data["seq" := Number(number)]), data, number)
  {
  }

  method Broadcast(subs: seq<EventQueue>, event: Fields)
    requires forall i, j | 0 <= i < j < |subs| :: subs[i] != subs[j]
    modifies subs
    ensures forall q | q in subs :: q.items == Offered(old(q.items), q.maxsize, event)
  {
    for i := 0 to |subs|
      invariant forall j | 0 <= j < i :: subs[j].items == Offered(old(subs[j].items), subs[j].maxsize, event)
      invariant forall j | i <= j < |subs| :: subs[j].items == old(subs[j].items)
    {
      subs[i].PutNowait(event);
    }
  }

  class Hub {
    var tasks: map<string, Fields>
    var queues: map<string, seq<EventQueue>>
    var sequences: map<string, nat>

    constructor ()
      ensures tasks == map[] && queues == map[] && sequences == map[]
    {
      tasks, queues, sequences := map[], map[], map[];
    }

    function Queues(task: string): seq<EventQueue>
      reads this
    {
      if task in queues then queues[task] else []
    }

    function Counter(task: string): nat
      reads this
    {
      if task in sequences then sequences[task] else 0
    }

    method Subscribe(task: string, maxsize: int) returns (q: EventQueue)
      modifies this`queues
      ensures fresh(q) && q.maxsize == maxsize && q.items == []
      ensures queues == old(queues)[task := old(Queues(task)) + [q]]
    {
      q := new EventQueue(maxsize);
      if task !in queues {
        queues := queues[task := []];
      }
      queues := queues[task := queues[task] + [q]];
    }

    method Unsubscribe(task: string, q: EventQueue)
      modifies this`queues
      ensures forall t :: Queues(t) == if t == task then Without(old(Queues(t)), q) else old(Queues(t))
      ensures q !in old(Queues(task)) ==> Queues(task) == old(Queues(task))
      ensures forall i | 0 <= i < |old(Queues(task))| && old(Queues(task))[i] == q && q !in old(Queues(task))[..i] ::
                Queues(task) == old(Queues(task))[..i] + old(Queues(task))[i + 1..]
    {
      hide Without;
      forall i | 0 <= i < |Queues(task)| && Queues(task)[i] == q && q !in Queues(task)[..i]
        ensures Without(Queues(task), q) == Queues(task)[..i] + Queues(task)[i + 1..]
      {
        WithoutFirst(Queues(task), q, i);
      }
      if task in queues && q in queues[task] {
        queues := queues[task := Without(queues[task], q)];
      } else {
        WithoutAbsent(Queues(task), q);
      }
    }

    method Cleanup(task: string)
      modifies this`queues, this`sequences
      ensures sequences == old(sequences) - {task} && queues == old(queues) - {task}
    {
      sequences := sequences - {task};
      queues := queues - {task};
    }

    method Emit(task: string, kind: string, data: Fields, at: real)
      requires forall i, j | 0 <= i < j < |Queues(task)| :: Queues(task)[i] != Queues(task)[j]
      modifies this`tasks, this`sequences, Queues(task)
      ensures var numbered := data["seq" := Number(old(Counter(task)) + 1)];
              && (forall q | q in Queues(task) ::
                    q.items == Offered(old(q.items), q.maxsize, EventOf(kind, at, numbered)))
              && tasks == if task in old(tasks) then old(tasks)[task := Updated(old(tasks)[task], numbered)]
                          else old(tasks)
      ensures forall t :: Counter(t) ==
                if t == task then if Terminal(kind) then 0 else old(Counter(t)) + 1 else old(Counter(t))
      ensures forall q | q in Queues(task) ::
                if q.maxsize > 0 && |old(q.items)| >= q.maxsize then q.items == old(q.items)
                else
                  && |q.items| == |old(q.items)| + 1 && q.items[..|old(q.items)|] == old(q.items)
                  && Carries(q.items[|old(q.items)|], kind, at, data, old(Counter(task)) + 1)
      ensures tasks.Keys == old(tasks.Keys)
      ensures forall t | t in tasks && t != task :: tasks[t] == old(tasks[t])
      ensures task in tasks ==> Takes(old(tasks[task]), tasks[task], data, old(Counter(task)) + 1)
      ensures Counter(task) == if kind == "done" || kind == "error" || kind == "cancelled" then 0
                               else old(Counter(task)) + 1
    {
      hide Updated, EventOf, Carries, Takes;
      ghost var number := Counter(task) + 1;
      sequences := sequences[task := Counter(task) + 1];
      var numbered := data["seq" := Number(sequences[task])];
      if task in tasks {
        RecordTakes(tasks[task], data, number);
        tasks := tasks[task := Updated(tasks[task], numbered)];
      }
      EventCarries(kind, at, data, number);
      var event := EventOf(kind, at, numbered);
      var subs := Queues(task);
      Broadcast(subs, event);
      if Terminal(kind) {
        sequences := sequences - {task};
      }
    }
  }

  lemma {:induction false} WithoutFirst<T>(s: seq<T>, x: T, i: nat)
    requires i < |s| && s[i] == x && x !in s[..i]
    ensures Without(s, x) == s[..i] + s[i + 1..]
    decreases i
  {
    if i > 0 {
      var rest := s[1..];
      assert s[..i][0] == s[0] && s[..i] == [s[0]] + rest[..i - 1] && rest[i..] == s[i + 1..];
      WithoutFirst(rest, x, i - 1);
    }
  }

  lemma {:induction false} WithoutAbsent<T>(s: seq<T>, x: T)
    requires x !in s
    ensures Without(s, x) == s
  {
    if s != [] {
      WithoutAbsent(s[1..], x);
    }
  }

  // ---------------------------------------------------------------- the protocol of one task's channel

  /** An epoch ends when the counter is dropped: after a terminal event or by a cleanup. */
  datatype Event = Event(kind: string, number: nat, epoch: nat)

  datatype Stage = Numbered | Sending(pending: seq<nat>) | Sent | Finished

  datatype Emitter = Emitter(event: Event, stage: Stage)

  /** A subscriber: what it has taken, what its queue holds, the range of broadcasts that it was subscribed
      for and, as a record for the theorems, the positions of the broadcasts that went into its queue. */
  datatype Subscriber = Subscriber(maxsize: int, start: nat, end: Option<nat>,
                                   taken: seq<Event>, held: seq<Event>, kept: seq<nat>)

  datatype State = State(counter: nat, epoch: nat, lock: Option<nat>, emitters: seq<Emitter>, broadcasts: seq<Event>,
                         subs: seq<nat>, queues: seq<Subscriber>)

  datatype Action =
    | Count(kind: string)
    | Begin(e: nat)
    | Put(e: nat)
    | End(e: nat)
    | Pop(e: nat)
    | Subscribe(maxsize: int)
    | Unsubscribe(q: nat)
    | Get(q: nat)
    | DropCounter
    | DropSubscribers

  const INIT := State(0, 0, None, [], [], [], [])

  function InStage(s: State, e: nat, stage: Stage): State
    requires e < |s.emitters|
  {
    s.(emitters := s.emitters[e := s.emitters[e].(stage := stage)])
  }

  /** Offers the event that is being broadcast to a queue. */
  function Offer(q: Subscriber, event: Event, position: nat): Subscriber {
    if Full(q.maxsize, |q.held|) then q else q.(held := q.held + [event], kept := q.kept + [position])
  }

  function Ended(queues: seq<Subscriber>, subs: seq<nat>, at: nat): (r: seq<Subscriber>)
    ensures |r| == |queues|
    ensures forall q | 0 <= q < |r| :: r[q] == if q in subs then queues[q].(end := Some(at)) else queues[q]
  {
    seq(|queues|, q requires 0 <= q < |queues| => if q in subs then queues[q].(end := Some(at)) else queues[q])
  }

  predicate IsSending(s: State, e: nat) {
    e < |s.emitters| && s.emitters[e].stage.Sending?
  }

  function Next(s: State, a: Action): State {
    match a
    case Count(kind) =>
      s.(counter := s.counter + 1, emitters := s.emitters + [Emitter(Event(kind, s.counter + 1, s.epoch), Numbered)])
    case Begin(e) =>
      if e < |s.emitters| && s.emitters[e].stage.Numbered? && s.lock.None?
      then InStage(s, e, Sending(s.subs)).(lock := Some(e), broadcasts := s.broadcasts + [s.emitters[e].event])
      else s
    case Put(e) =>
      if IsSending(s, e) && |s.emitters[e].stage.pending| > 0 && s.emitters[e].stage.pending[0] < |s.queues|
         && |s.broadcasts| > 0 then
        var pending := s.emitters[e].stage.pending;
        InStage(s, e, Sending(pending[1..])).(
          queues := s.queues[pending[0] := Offer(s.queues[pending[0]], s.emitters[e].event, |s.broadcasts| - 1)])
      else s
    case End(e) =>
      if IsSending(s, e) && s.emitters[e].stage.pending == [] then InStage(s, e, Sent).(lock := None) else s
    case Pop(e) =>
      if e < |s.emitters| && s.emitters[e].stage.Sent? then
        if Terminal(s.emitters[e].event.kind) then InStage(s, e, Finished).(counter := 0, epoch := s.epoch + 1)
        else InStage(s, e, Finished)
      else s
    case Subscribe(maxsize) =>
      if s.lock.None?
      then s.(subs := s.subs + [|s.queues|],
              queues := s.queues + [Subscriber(maxsize, |s.broadcasts|, None, [], [], [])])
      else s
    case Unsubscribe(q) =>
      if s.lock.None? && q in s.subs && q < |s.queues|
      then s.(subs := Without(s.subs, q), queues := s.queues[q := s.queues[q].(end := Some(|s.broadcasts|))])
      else s
    case Get(q) =>
      if q < |s.queues| && |s.queues[q].held| > 0 then
        var qu := s.queues[q];
        s.(queues := s.queues[q := qu.(taken := qu.taken + [qu.held[0]], held := qu.held[1..])])
      else s
    case DropCounter => s.(counter := 0, epoch := s.epoch + 1)
    case DropSubscribers =>
      if s.lock.None? then s.(subs := [], queues := Ended(s.queues, s.subs, |s.broadcasts|)) else s
  }

  function Run(actions: seq<Action>): State {
    if actions == [] then INIT else Next(Run(actions[..|actions| - 1]), actions[|actions| - 1])
  }

  // ---------------------------------------------------------------- what every run keeps

  predicate NoneTwice(s: seq<nat>) {
    forall i, j | 0 <= i < j < |s| :: s[i] != s[j]
  }

  predicate Awaits(s: State, q: nat) {
    s.lock.Some? && IsSending(s, s.lock.value) && q in s.emitters[s.lock.value].stage.pending
  }

  /** The broadcasts before this position were offered to the queue, if it was subscribed then. */
  function Upto(s: State, q: nat): int
    requires q < |s.queues|
  {
    if s.queues[q].end.Some? then s.queues[q].end.value else |s.broadcasts| - if Awaits(s, q) then 1 else 0
  }

  ghost predicate QueueOk(s: State, q: nat)
    requires q < |s.queues|
  {
    var qu := s.queues[q];
    && qu.start <= Upto(s, q) <= |s.broadcasts|
    && (q in s.subs <==> qu.end.None?)
    && |qu.taken + qu.held| == |qu.kept|
    && (forall k | 0 <= k < |qu.kept| ::
          qu.start <= qu.kept[k] < Upto(s, q) && (qu.taken + qu.held)[k] == s.broadcasts[qu.kept[k]])
    && (forall j, k | 0 <= j < k < |qu.kept| :: qu.kept[j] < qu.kept[k])
    && (qu.maxsize > 0 ==> |qu.held| <= qu.maxsize)
  }

  ghost predicate LockOk(s: State) {
    && NoneTwice(s.subs)
    && (forall q | q in s.subs :: q < |s.queues|)
    && (forall e | 0 <= e < |s.emitters| :: IsSending(s, e) <==> s.lock == Some(e))
    && (s.lock.Some? ==>
          && s.lock.value < |s.emitters|
          && |s.broadcasts| > 0
          && var e := s.emitters[s.lock.value];
             e.event == s.broadcasts[|s.broadcasts| - 1] && NoneTwice(e.stage.pending)
             && forall q | q in e.stage.pending :: q in s.subs)
  }

  ghost predicate Inv(s: State) {
    LockOk(s) && forall q | 0 <= q < |s.queues| :: QueueOk(s, q)
  }

  lemma TailNoneTwice(s: seq<nat>)
    requires NoneTwice(s) && s != []
    ensures NoneTwice(s[1..]) && s[0] !in s[1..]
  {
    forall i, j | 0 <= i < j < |s[1..]| ensures s[1..][i] != s[1..][j] {
      assert s[i + 1] != s[j + 1];
    }
  }

  lemma ConsNoneTwice(x: nat, s: seq<nat>)
    requires NoneTwice(s) && x !in s
    ensures NoneTwice([x] + s)
  {
    assert forall k | 0 <= k < |s| :: s[k] in s;
  }

  lemma {:induction false} WithoutOne(s: seq<nat>, x: nat)
    requires NoneTwice(s)
    ensures NoneTwice(Without(s, x))
    ensures forall y :: y in Without(s, x) <==> y in s && y != x
  {
    if s != [] {
      assert s == [s[0]] + s[1..];
      TailNoneTwice(s);
      WithoutOne(s[1..], x);
      if s[0] != x {
        ConsNoneTwice(s[0], Without(s[1..], x));
      }
    }
  }

  lemma SubsStep(s: State, a: Action)
    requires Inv(s)
    ensures NoneTwice(Next(s, a).subs) && forall q | q in Next(s, a).subs :: q < |Next(s, a).queues|
  {
    hide QueueOk;
    if a.Unsubscribe? {
      WithoutOne(s.subs, a.q);
    }
    if a.Subscribe? {
      assert forall k | 0 <= k < |s.subs| :: s.subs[k] in s.subs;
      assert NoneTwice(s.subs + [|s.queues|]);
    }
  }

  lemma LockStep(s: State, a: Action)
    requires Inv(s)
    ensures LockOk(Next(s, a))
  {
    hide QueueOk, NoneTwice;
    SubsStep(s, a);
    if a.Put? && IsSending(s, a.e) && s.emitters[a.e].stage.pending != [] {
      assert s.lock == Some(a.e);
      TailNoneTwice(s.emitters[a.e].stage.pending);
    }
    var t := Next(s, a);
    forall e | 0 <= e < |t.emitters| ensures IsSending(t, e) <==> t.lock == Some(e) {
      if e < |s.emitters| {
        assert IsSending(s, e) <==> s.lock == Some(e);
      }
    }
    if a.Put? && IsSending(s, a.e) {
      assert s.lock == Some(a.e);
    }
  }

  lemma PutStep(s: State, e: nat, q: nat)
    requires Inv(s) && q < |s.queues| && s.lock == Some(e) && Next(s, Put(e)) != s
    ensures QueueOk(Next(s, Put(e)), q)
  {
    var t := Next(s, Put(e));
    var pending := s.emitters[e].stage.pending;
    assert QueueOk(s, q);
    assert t.emitters[e].stage.pending == pending[1..];
    assert pending == [pending[0]] + pending[1..];
    if q == pending[0] {
      var qu := s.queues[q];
      assert Awaits(s, q) && !Awaits(t, q);
      assert qu.taken + (qu.held + [s.emitters[e].event]) == qu.taken + qu.held + [s.emitters[e].event];
    } else {
      assert Awaits(s, q) <==> Awaits(t, q);
    }
  }

  lemma EndStep(s: State, e: nat, q: nat)
    requires Inv(s) && q < |s.queues|
    ensures QueueOk(Next(s, End(e)), q)
  {
    assert QueueOk(s, q);
    if Next(s, End(e)) != s {
      assert s.lock == Some(e);
    }
  }

  lemma LeaveStep(s: State, q: nat, x: nat)
    requires Inv(s) && q < |s.queues|
    ensures QueueOk(Next(s, Unsubscribe(x)), q)
  {
    assert QueueOk(s, q);
    WithoutOne(s.subs, x);
  }

  /** Actions that touch neither the queues nor the list of subscribers. */
  lemma EmitterStep(s: State, a: Action, q: nat)
    requires Inv(s) && q < |s.queues| && (a.Count? || a.Pop? || a.DropCounter?)
    ensures q < |Next(s, a).queues| && QueueOk(Next(s, a), q)
  {
    assert QueueOk(s, q);
  }

  lemma BeginStep(s: State, e: nat, q: nat)
    requires Inv(s) && q < |s.queues|
    ensures q < |Next(s, Begin(e)).queues| && QueueOk(Next(s, Begin(e)), q)
  {
    assert QueueOk(s, q);
  }

  lemma GetStep(s: State, x: nat, q: nat)
    requires Inv(s) && q < |s.queues|
    ensures q < |Next(s, Get(x)).queues| && QueueOk(Next(s, Get(x)), q)
  {
    assert QueueOk(s, q);
  }

  lemma SubscribeStep(s: State, maxsize: int, q: nat)
    requires Inv(s) && q < |Next(s, Subscribe(maxsize)).queues|
    ensures QueueOk(Next(s, Subscribe(maxsize)), q)
  {
    if q < |s.queues| {
      assert QueueOk(s, q);
    }
  }

  lemma DropStep(s: State, q: nat)
    requires Inv(s) && q < |s.queues|
    ensures q < |Next(s, DropSubscribers).queues| && QueueOk(Next(s, DropSubscribers), q)
  {
    assert QueueOk(s, q);
  }

  lemma SameQueues(s: State, a: Action)
    requires !a.Subscribe?
    ensures |Next(s, a).queues| == |s.queues|
  {
  }

  lemma OffersStep(s: State, e: nat, q: nat)
    requires Inv(s) && q < |s.queues|
    ensures q < |Next(s, Put(e)).queues| && QueueOk(Next(s, Put(e)), q)
  {
    if Next(s, Put(e)) == s {
      assert QueueOk(s, q);
    } else {
      assert s.lock == Some(e);
      PutStep(s, e, q);
    }
  }

  lemma QueueStep(s: State, a: Action, q: nat)
    requires Inv(s) && q < |Next(s, a).queues|
    ensures QueueOk(Next(s, a), q)
  {
    hide Next, QueueOk, LockOk;
    if !a.Subscribe? {
      SameQueues(s, a);
    }
    match a
    case Count(_) => EmitterStep(s, a, q);
    case Begin(e) => BeginStep(s, e, q);
    case Put(e) => OffersStep(s, e, q);
    case End(e) => EndStep(s, e, q);
    case Pop(_) => EmitterStep(s, a, q);
    case Subscribe(maxsize) => SubscribeStep(s, maxsize, q);
    case Unsubscribe(x) => LeaveStep(s, q, x);
    case Get(x) => GetStep(s, x, q);
    case DropCounter => EmitterStep(s, a, q);
    case DropSubscribers => DropStep(s, q);
  }

  lemma InvStarts()
    ensures Inv(INIT)
  {
  }

  lemma {:induction false} InvHolds(actions: seq<Action>)
    ensures Inv(Run(actions))
  {
    hide Next, LockOk, QueueOk;
    if actions == [] {
      InvStarts();
    } else {
      var s, a := Run(actions[..|actions| - 1]), actions[|actions| - 1];
      InvHolds(actions[..|actions| - 1]);
      LockStep(s, a);
      forall q | 0 <= q < |Next(s, a).queues| ensures QueueOk(Next(s, a), q) {
        QueueStep(s, a, q);
      }
    }
  }

  // ---------------------------------------------------------------- main result: what a subscriber sees

  /** The action offers the broadcast at `position` to the queue, and the queue is full. */
  predicate Refused(s: State, a: Action, q: nat, position: int) {
    && q < |s.queues| && a.Put? && IsSending(s, a.e)
    && |s.emitters[a.e].stage.pending| > 0 && s.emitters[a.e].stage.pending[0] == q
    && |s.broadcasts| == position + 1
    && Full(s.queues[q].maxsize, |s.queues[q].held|)
  }

  predicate RefusedIn(actions: seq<Action>, n: nat, q: nat, position: int)
    requires n < |actions|
  {
    Refused(Run(actions[..n]), actions[n], q, position)
  }

  /** At some moment of the run the broadcast at `position` was sent while the queue was full. */
  predicate SentWhileFull(actions: seq<Action>, q: nat, position: int) {
    exists n | 0 <= n < |actions| :: RefusedIn(actions, n, q, position)
  }

  lemma SentMore(actions: seq<Action>, q: nat, position: int)
    requires actions != []
    ensures var init, a := actions[..|actions| - 1], actions[|actions| - 1];
            SentWhileFull(actions, q, position)
            <==> SentWhileFull(init, q, position) || Refused(Run(init), a, q, position)
  {
    var init, a := actions[..|actions| - 1], actions[|actions| - 1];
    forall n | 0 <= n < |init| ensures RefusedIn(actions, n, q, position) <==> RefusedIn(init, n, q, position) {
      assert actions[..n] == init[..n];
    }
    assert RefusedIn(actions, |init|, q, position) <==> Refused(Run(init), a, q, position);
  }

  /** Position `i` is in the queue's record exactly if it was offered and was not refused. */
  predicate KeptIs(s: State, q: nat, i: int, refused: bool) {
    if q < |s.queues| then
      && (i in s.queues[q].kept <==> s.queues[q].start <= i < Upto(s, q) && !refused)
      && (i >= Upto(s, q) ==> !refused)
    else !refused
  }

  /** How one step changes what is known of position `i`. */
  predicate Moves(s: State, t: State, q: nat, i: int, refused: bool) {
    && |s.queues| <= |t.queues|
    && (q >= |s.queues| ==> !refused)
    && (|s.queues| <= q < |t.queues| ==> t.queues[q].kept == [] && t.queues[q].start == Upto(t, q))
    && (q < |s.queues| ==>
          && t.queues[q].start == s.queues[q].start
          && Upto(s, q) <= Upto(t, q)
          && (i in s.queues[q].kept ==> i < Upto(s, q))
          && (i < Upto(s, q) || i >= Upto(t, q) ==> (i in t.queues[q].kept <==> i in s.queues[q].kept) && !refused)
          && (Upto(s, q) <= i < Upto(t, q) ==> s.queues[q].start <= i && (i in t.queues[q].kept <==> !refused)))
  }

  lemma KeptMoves(s: State, t: State, q: nat, i: int, before: bool, refused: bool)
    requires KeptIs(s, q, i, before) && Moves(s, t, q, i, refused)
    ensures KeptIs(t, q, i, before || refused)
  {
  }

  lemma {:induction false} KeptExactly(actions: seq<Action>, q: nat, i: int)
    ensures KeptIs(Run(actions), q, i, SentWhileFull(actions, q, i))
  {
    if actions != [] {
      var init, a := actions[..|actions| - 1], actions[|actions| - 1];
      var s := Run(init);
      KeptExactly(init, q, i);
      SentMore(actions, q, i);
      InvHolds(init);
      KeptStep(s, a, q, i);
      KeptMoves(s, Next(s, a), q, i, SentWhileFull(init, q, i), Refused(s, a, q, i));
    }
  }

  lemma KeptStep(s: State, a: Action, q: nat, i: int)
    requires Inv(s)
    ensures Moves(s, Next(s, a), q, i, Refused(s, a, q, i))
  {
    if q < |s.queues| {
      assert QueueOk(s, q);
      if i in s.queues[q].kept {
        var k :| 0 <= k < |s.queues[q].kept| && s.queues[q].kept[k] == i;
      }
      if a.Put? && Next(s, a) != s {
        assert s.lock == Some(a.e);
        KeptByPut(s, a.e, q, i);
      } else {
        QueueStays(s, a, q);
        if Refused(s, a, q, i) { PutIsAStep(s, a.e, q, i); }
      }
    } else if q < |Next(s, a).queues| {
      QueueStep(s, a, q);
      assert a.Subscribe?;
    }
  }

  lemma QueueStays(s: State, a: Action, q: nat)
    requires Inv(s) && q < |s.queues| && (a.Put? ==> Next(s, a) == s)
    ensures var t := Next(s, a);
            q < |t.queues| && t.queues[q].kept == s.queues[q].kept && t.queues[q].start == s.queues[q].start
            && Upto(t, q) == Upto(s, q)
  {
    assert QueueOk(s, q);
    if a.End? && Next(s, a) != s {
      assert s.lock == Some(a.e);
    }
  }

  lemma PutIsAStep(s: State, e: nat, q: nat, i: int)
    requires Inv(s) && Refused(s, Put(e), q, i)
    ensures Next(s, Put(e)) != s
  {
    var pending := s.emitters[e].stage.pending;
    assert Next(s, Put(e)).emitters[e].stage.pending == pending[1..];
  }

  lemma KeptByPut(s: State, e: nat, q: nat, i: int)
    requires Inv(s) && q < |s.queues| && s.lock == Some(e) && Next(s, Put(e)) != s
    requires i in s.queues[q].kept ==> i < Upto(s, q)
    ensures Moves(s, Next(s, Put(e)), q, i, Refused(s, Put(e), q, i))
  {
    var t := Next(s, Put(e));
    var pending := s.emitters[e].stage.pending;
    assert QueueOk(s, q);
    assert t.emitters[e].stage.pending == pending[1..];
    assert pending == [pending[0]] + pending[1..];
    if q == pending[0] {
      assert Awaits(s, q) && !Awaits(t, q);
    } else {
      assert Awaits(s, q) <==> Awaits(t, q);
    }
  }

  /** In every run, what a subscriber has taken followed by what its queue holds is, in broadcast order,
      exactly the broadcasts since it subscribed that were not sent while its queue was full; and a queue
      never holds more than its size. */
  lemma SubscriberSees(actions: seq<Action>, q: nat)
    requires q < |Run(actions).queues|
    ensures var s := Run(actions);
            var qu := s.queues[q];
            && |qu.taken + qu.held| == |qu.kept|
            && (forall k | 0 <= k < |qu.kept| ::
                  0 <= qu.kept[k] < |s.broadcasts| && (qu.taken + qu.held)[k] == s.broadcasts[qu.kept[k]])
            && (forall j, k | 0 <= j < k < |qu.kept| :: qu.kept[j] < qu.kept[k])
            && (forall i: int :: i in qu.kept <==> qu.start <= i < Upto(s, q) && !SentWhileFull(actions, q, i))
            && (qu.maxsize > 0 ==> |qu.held| <= qu.maxsize)
  {
    InvHolds(actions);
    var s := Run(actions);
    assert QueueOk(s, q);
    forall i: int
      ensures i in s.queues[q].kept <==> s.queues[q].start <= i < Upto(s, q) && !SentWhileFull(actions, q, i)
    {
      KeptExactly(actions, q, i);
    }
  }

  lemma FirstIsIn(kept: seq<nat>)
    requires kept != []
    ensures exists i :: i in kept && i == kept[0]
  {
    assert kept[0] in kept;
  }

  lemma {:induction false} AscendingIsRange(kept: seq<nat>, lo: nat, hi: nat)
    requires lo <= hi
    requires forall j, k | 0 <= j < k < |kept| :: kept[j] < kept[k]
    requires forall i: nat :: i in kept <==> lo <= i < hi
    ensures |kept| == hi - lo && forall k | 0 <= k < |kept| :: kept[k] == lo + k
    decreases hi
  {
    if lo < hi {
      var last := |kept| - 1;
      assert hi - 1 in kept;
      assert kept[last] in kept;
      var j :| 0 <= j < |kept| && kept[j] == hi - 1;
      assert j == last;
      var init := kept[..last];
      assert kept == init + [hi - 1];
      forall i: nat ensures i in init <==> lo <= i < hi - 1 {
        if i in init {
          var k :| 0 <= k < |init| && init[k] == i;
          assert kept[k] == i && kept[k] < kept[last] && i in kept;
        }
        if lo <= i < hi - 1 {
          assert i in kept;
          assert i in init || i == hi - 1;
        }
      }
      AscendingIsRange(init, lo, hi - 1);
    } else if kept != [] {
      FirstIsIn(kept);
    }
  }

  /** A subscriber whose queue was never full at an offer sees every broadcast since it subscribed. */
  lemma NothingIsLost(actions: seq<Action>, q: nat)
    requires q < |Run(actions).queues|
    requires forall i: int :: !SentWhileFull(actions, q, i)
    ensures var s := Run(actions);
            0 <= s.queues[q].start <= Upto(s, q) <= |s.broadcasts|
            && s.queues[q].taken + s.queues[q].held == s.broadcasts[s.queues[q].start..Upto(s, q)]
  {
    SubscriberSees(actions, q);
    InvHolds(actions);
    var s := Run(actions);
    assert QueueOk(s, q);
    var qu := s.queues[q];
    KeptIsSlice(qu.taken + qu.held, s.broadcasts, qu.kept, qu.start, Upto(s, q));
  }

  lemma KeptIsSlice(got: seq<Event>, all: seq<Event>, kept: seq<nat>, lo: nat, hi: nat)
    requires lo <= hi <= |all| && |got| == |kept|
    requires forall j, k | 0 <= j < k < |kept| :: kept[j] < kept[k]
    requires forall i: nat :: i in kept <==> lo <= i < hi
    requires forall k | 0 <= k < |kept| :: kept[k] < |all| && got[k] == all[kept[k]]
    ensures got == all[lo..hi]
  {
    AscendingIsRange(kept, lo, hi);
  }

  // ---------------------------------------------------------------- main result: what the numbers tell

  /** The event numbered next: one more within the epoch, 1 in a later one. */
  predicate Follows(e: Event, f: Event) {
    e.epoch <= f.epoch && f.number == if f.epoch == e.epoch then e.number + 1 else 1
  }

  predicate CountersOk(s: State) {
    var n := |s.emitters|;
    && (forall e | 0 <= e < n - 1 :: Follows(s.emitters[e].event, s.emitters[e + 1].event))
    && (n > 0 ==> s.emitters[n - 1].event.epoch <= s.epoch)
    && s.counter == if n > 0 && s.emitters[n - 1].event.epoch == s.epoch then s.emitters[n - 1].event.number else 0
  }

  /** What one step does to the numbered events and the counter. */
  lemma EventsStay(s: State, a: Action)
    ensures var t := Next(s, a);
            && |t.emitters| == |s.emitters| + (if a.Count? then 1 else 0)
            && (forall e | 0 <= e < |s.emitters| :: t.emitters[e].event == s.emitters[e].event)
            && (a.Count? ==> t.emitters[|s.emitters|] == Emitter(Event(a.kind, s.counter + 1, s.epoch), Numbered)
                             && t.counter == s.counter + 1 && t.epoch == s.epoch)
            && (!a.Count? ==> (t.counter == s.counter && t.epoch == s.epoch)
                              || (t.counter == 0 && t.epoch == s.epoch + 1))
  {
  }

  lemma CountersStep(s: State, a: Action)
    requires CountersOk(s)
    ensures CountersOk(Next(s, a))
  {
    hide Next;
    EventsStay(s, a);
    var t := Next(s, a);
    forall e | 0 <= e < |t.emitters| - 1 ensures Follows(t.emitters[e].event, t.emitters[e + 1].event) {
      if e + 1 < |s.emitters| {
        assert Follows(s.emitters[e].event, s.emitters[e + 1].event);
      }
    }
  }

  lemma {:induction false} CountersHold(actions: seq<Action>)
    ensures CountersOk(Run(actions))
  {
    if actions != [] {
      CountersHold(actions[..|actions| - 1]);
      CountersStep(Run(actions[..|actions| - 1]), actions[|actions| - 1]);
    }
  }

  lemma {:induction false} NumbersBetween(s: State, e: nat, f: nat)
    requires CountersOk(s) && e <= f < |s.emitters|
    ensures s.emitters[e].event.epoch <= s.emitters[f].event.epoch
    ensures s.emitters[e].event.epoch == s.emitters[f].event.epoch ==>
              s.emitters[f].event.number == s.emitters[e].event.number + (f - e)
    decreases f - e
  {
    if e < f {
      assert Follows(s.emitters[f - 1].event, s.emitters[f].event);
      NumbersBetween(s, e, f - 1);
    }
  }

  /** In every run, whatever the interleaving, no two events of an epoch get the same number. */
  lemma NumbersAreUnique(actions: seq<Action>, e: nat, f: nat)
    requires e < f < |Run(actions).emitters|
    ensures var s := Run(actions);
            s.emitters[e].event.epoch == s.emitters[f].event.epoch ==>
              s.emitters[f].event.number == s.emitters[e].event.number + (f - e)
  {
    CountersHold(actions);
    NumbersBetween(Run(actions), e, f);
  }

  predicate Quiet(s: State) {
    forall e | 0 <= e < |s.emitters| :: s.emitters[e].stage.Finished?
  }

  /** One emitter at a time: an emission starts only when the one before is over. */
  predicate OneAtATime(actions: seq<Action>) {
    actions == []
    || (var init, a := actions[..|actions| - 1], actions[|actions| - 1];
        OneAtATime(init) && (a.Count? ==> Quiet(Run(init))))
  }

  predicate InOrder(s: State) {
    var n := |s.emitters|;
    && (forall e | 0 <= e < n - 1 :: s.emitters[e].stage.Finished?)
    && |s.broadcasts| == (if n > 0 && s.emitters[n - 1].stage.Numbered? then n - 1 else n)
    && forall i | 0 <= i < |s.broadcasts| :: s.broadcasts[i] == s.emitters[i].event
  }

  lemma InOrderStep(s: State, a: Action)
    requires InOrder(s) && (a.Count? ==> Quiet(s))
    ensures InOrder(Next(s, a))
  {
    EventsStay(s, a);
  }

  lemma {:induction false} InOrderHolds(actions: seq<Action>)
    requires OneAtATime(actions)
    ensures InOrder(Run(actions))
  {
    if actions != [] {
      InOrderHolds(actions[..|actions| - 1]);
      InOrderStep(Run(actions[..|actions| - 1]), actions[|actions| - 1]);
    }
  }

  /** With one emitter at a time, between two events of one epoch that a subscriber gets one after the
      other the number rises, and the jump counts exactly the events that were sent to it while its queue
      was full. */
  lemma JumpsCountDrops(actions: seq<Action>, q: nat, k: nat)
    requires OneAtATime(actions)
    requires q < |Run(actions).queues|
    requires k + 1 < |Run(actions).queues[q].kept|
    ensures var s := Run(actions);
            var qu := s.queues[q];
            var got := qu.taken + qu.held;
            && k + 1 < |got|
            && (got[k].epoch == got[k + 1].epoch ==>
                  got[k + 1].number == got[k].number + 1
                    + |set i | qu.kept[k] < i < qu.kept[k + 1] && SentWhileFull(actions, q, i)|)
  {
    var s := Run(actions);
    var qu := s.queues[q];
    SubscriberSees(actions, q);
    CountersHold(actions);
    InOrderHolds(actions);
    var i, j := qu.kept[k], qu.kept[k + 1];
    NumbersBetween(s, i, j);
    var lost := set m | i < m < j && SentWhileFull(actions, q, m);
    assert i in qu.kept && j in qu.kept;
    forall m | i < m < j ensures SentWhileFull(actions, q, m) {
      NoneBetween(qu.kept, k, m);
    }
    RangeSize(i, j, lost);
  }

  lemma NoneBetween(kept: seq<nat>, k: nat, m: nat)
    requires forall a, b | 0 <= a < b < |kept| :: kept[a] < kept[b]
    requires k + 1 < |kept| && kept[k] < m < kept[k + 1]
    ensures m !in kept
  {
    if m in kept {
      var c :| 0 <= c < |kept| && kept[c] == m;
    }
  }

  lemma {:induction false} RangeSize(i: int, j: int, between: set<int>)
    requires i < j
    requires forall m :: m in between <==> i < m < j
    ensures |between| == j - i - 1
    decreases j - i
  {
    if i + 1 < j {
      RangeSize(i, j - 1, between - {j - 1});
    } else {
      forall m ensures m !in between {
      }
    }
  }

  predicate NoCleanup(actions: seq<Action>) {
    DropCounter !in actions
  }

  predicate EpochsEndAtTerminals(s: State) {
    var n := |s.emitters|;
    && (forall e | 0 <= e < n - 1 ::
          s.emitters[e + 1].event.epoch
          == s.emitters[e].event.epoch + if Terminal(s.emitters[e].event.kind) then 1 else 0)
    && (if n == 0 then s.epoch == 0
        else s.epoch == s.emitters[n - 1].event.epoch
                        + if Terminal(s.emitters[n - 1].event.kind) && s.emitters[n - 1].stage.Finished? then 1 else 0)
  }

  lemma EpochsStep(s: State, a: Action)
    requires EpochsEndAtTerminals(s) && InOrder(s)
    requires a != DropCounter && (a.Count? ==> Quiet(s))
    ensures EpochsEndAtTerminals(Next(s, a))
  {
    hide Next;
    EventsStay(s, a);
    PopEnds(s, a);
  }

  predicate Pops(s: State, a: Action) {
    a.Pop? && a.e < |s.emitters| && s.emitters[a.e].stage.Sent?
  }

  /** An emitter comes to its end by its last step alone, which drops the counter after a terminal event. */
  lemma PopEnds(s: State, a: Action)
    requires a != DropCounter
    ensures var t := Next(s, a);
            && |t.emitters| >= |s.emitters|
            && (forall e | 0 <= e < |s.emitters| ::
                  t.emitters[e].stage.Finished? <==> s.emitters[e].stage.Finished? || (Pops(s, a) && a.e == e))
            && t.epoch == s.epoch + if Pops(s, a) && Terminal(s.emitters[a.e].event.kind) then 1 else 0
  {
    hide Offer, Without, Ended, Full;
  }

  lemma {:induction false} EpochsHold(actions: seq<Action>)
    requires OneAtATime(actions) && NoCleanup(actions)
    ensures EpochsEndAtTerminals(Run(actions))
  {
    if actions != [] {
      var init, a := actions[..|actions| - 1], actions[|actions| - 1];
      assert a in actions;
      EpochsHold(init);
      InOrderHolds(init);
      EpochsStep(Run(init), a);
    }
  }

  lemma {:induction false} EpochRises(s: State, i: nat, j: nat)
    requires EpochsEndAtTerminals(s) && i <= j < |s.emitters|
    ensures s.emitters[i].event.epoch <= s.emitters[j].event.epoch
    ensures s.emitters[i].event.epoch == s.emitters[j].event.epoch
            <==> forall m | i <= m < j :: !Terminal(s.emitters[m].event.kind)
    decreases j - i
  {
    if i < j {
      EpochRises(s, i, j - 1);
    }
  }

  /** Without a cleanup, the epochs are the stretches between the done, error and cancelled events. */
  lemma EpochsAreStretches(actions: seq<Action>, i: nat, j: nat)
    requires OneAtATime(actions) && NoCleanup(actions)
    requires i <= j < |Run(actions).broadcasts|
    ensures var b := Run(actions).broadcasts;
            b[i].epoch == b[j].epoch <==> forall m | i <= m < j :: !Terminal(b[m].kind)
  {
    EpochsHold(actions);
    InOrderHolds(actions);
    EpochRises(Run(actions), i, j);
  }

  // ---------------------------------------------------------------- which schedules keep the order

  /** The action takes its emitter past the numbering. */
  predicate Begins(s: State, a: Action) {
    a.Begin? && a.e < |s.emitters| && s.emitters[a.e].stage.Numbered? && s.lock.None?
  }

  predicate IsNumbered(s: State, e: nat) {
    e < |s.emitters| && s.emitters[e].stage.Numbered?
  }

  /** It begins to broadcast while an emitter with an earlier number has not begun. */
  predicate Overtaking(s: State, a: Action) {
    Begins(s, a) && exists e: nat | e < a.e :: IsNumbered(s, e)
  }

  predicate OvertakesAt(actions: seq<Action>, n: nat)
    requires n < |actions|
  {
    Overtaking(Run(actions[..n]), actions[n])
  }

  /** At some moment of the run an emitter overtakes another. */
  predicate Overtakes(actions: seq<Action>) {
    exists n | 0 <= n < |actions| :: OvertakesAt(actions, n)
  }

  /** The emitters in the order in which they broadcast. */
  function Order(actions: seq<Action>): seq<nat> {
    if actions == [] then []
    else
      var init, a := actions[..|actions| - 1], actions[|actions| - 1];
      Order(init) + if Begins(Run(init), a) then [a.e] else []
  }

  /** The order is one of all the emitters that have begun, each once, with their broadcasts. */
  predicate OrderOk(s: State, order: seq<nat>) {
    && |order| == |s.broadcasts|
    && (forall i | 0 <= i < |order| :: order[i] < |s.emitters| && s.broadcasts[i] == s.emitters[order[i]].event)
    && (forall e: nat | e < |s.emitters| :: e in order <==> !s.emitters[e].stage.Numbered?)
  }

  lemma OrderStep(s: State, a: Action, order: seq<nat>)
    requires OrderOk(s, order)
    ensures OrderOk(Next(s, a), order + if Begins(s, a) then [a.e] else [])
  {
    var t, longer := Next(s, a), order + if Begins(s, a) then [a.e] else [];
    EventsStay(s, a);
    StagesStay(s, a);
    forall e: nat | e < |t.emitters| ensures e in longer <==> !t.emitters[e].stage.Numbered? {
      if e < |s.emitters| {
        assert e in order <==> !s.emitters[e].stage.Numbered?;
      } else {
        assert e !in order;
      }
    }
  }

  /** Which emitters have not begun, and what has been broadcast, changes only when one begins. */
  lemma StagesStay(s: State, a: Action)
    ensures var t := Next(s, a);
            && (forall e: nat | e < |s.emitters| ::
                  t.emitters[e].stage.Numbered? <==> s.emitters[e].stage.Numbered? && !(Begins(s, a) && a.e == e))
            && t.broadcasts == s.broadcasts + if Begins(s, a) then [s.emitters[a.e].event] else []
  {
    hide Without, Offer, Full, Ended;
  }

  lemma {:induction false} OrderHolds(actions: seq<Action>)
    ensures OrderOk(Run(actions), Order(actions))
  {
    hide OrderOk, Next;
    if actions == [] {
      OrderStarts();
    } else {
      OrderHolds(actions[..|actions| - 1]);
      OrderStep(Run(actions[..|actions| - 1]), actions[|actions| - 1], Order(actions[..|actions| - 1]));
    }
  }

  lemma OrderStarts()
    ensures OrderOk(INIT, [])
  {
  }

  /** An emitter stands in the order behind a later one, or will do so if it ever begins. */
  predicate Inverted(s: State, order: seq<nat>) {
    || (exists i, j | 0 <= i < j < |order| :: order[i] > order[j])
    || (exists i, e: nat | 0 <= i < |order| && e < order[i] :: IsNumbered(s, e))
  }

  lemma InvertedAfter(s: State, a: Action, order: seq<nat>)
    requires OrderOk(s, order)
    ensures var longer := order + if Begins(s, a) then [a.e] else [];
            Inverted(Next(s, a), longer) ==> Inverted(s, order) || Overtaking(s, a)
  {
    var t, longer := Next(s, a), order + if Begins(s, a) then [a.e] else [];
    EventsStay(s, a);
    StagesStay(s, a);
    if i, j :| 0 <= i < j < |longer| && longer[i] > longer[j] {
      if j < |order| {
        assert order[i] > order[j];
      } else {
        assert IsNumbered(s, longer[j]) && longer[j] < order[i];
      }
    }
    if i, e: nat :| 0 <= i < |longer| && e < longer[i] && IsNumbered(t, e) {
      if i < |order| {
        assert order[i] < |s.emitters|;
        assert IsNumbered(s, e) && e < order[i];
      } else {
        assert IsNumbered(s, e);
      }
    }
  }

  lemma InvertedStays(s: State, a: Action, order: seq<nat>)
    requires OrderOk(s, order) && (Inverted(s, order) || Overtaking(s, a))
    ensures Inverted(Next(s, a), order + if Begins(s, a) then [a.e] else [])
  {
    var t, longer := Next(s, a), order + if Begins(s, a) then [a.e] else [];
    EventsStay(s, a);
    StagesStay(s, a);
    var n := |order|;
    if Overtaking(s, a) {
      var e: nat :| e < a.e && IsNumbered(s, e);
      assert longer[n] == a.e && IsNumbered(t, e);
    } else if i, j :| 0 <= i < j < n && order[i] > order[j] {
      assert longer[i] > longer[j];
    } else {
      var i, e: nat :| 0 <= i < n && e < order[i] && IsNumbered(s, e);
      assert longer[i] == order[i];
      if Begins(s, a) && a.e == e {
        assert longer[i] > longer[n];
      } else {
        assert IsNumbered(t, e);
      }
    }
  }

  lemma OvertakesMore(actions: seq<Action>)
    requires actions != []
    ensures var init, a := actions[..|actions| - 1], actions[|actions| - 1];
            Overtakes(actions) <==> Overtakes(init) || Overtaking(Run(init), a)
  {
    hide Overtaking;
    var init, a := actions[..|actions| - 1], actions[|actions| - 1];
    forall n | 0 <= n < |init| ensures OvertakesAt(actions, n) <==> OvertakesAt(init, n) {
      assert actions[..n] == init[..n];
    }
    assert OvertakesAt(actions, |init|) <==> Overtaking(Run(init), a);
  }

  lemma {:induction false} OvertakesInverts(actions: seq<Action>)
    ensures Overtakes(actions) <==> Inverted(Run(actions), Order(actions))
  {
    hide Overtakes, Overtaking, OrderOk, Inverted, Next;
    if actions == [] {
      NothingInverted();
    } else {
      var init, a := actions[..|actions| - 1], actions[|actions| - 1];
      OvertakesInverts(init);
      OvertakesMore(actions);
      OrderHolds(init);
      if Inverted(Run(init), Order(init)) || Overtaking(Run(init), a) {
        InvertedStays(Run(init), a, Order(init));
      } else {
        InvertedAfter(Run(init), a, Order(init));
      }
    }
  }

  lemma NothingInverted()
    ensures !Inverted(INIT, []) && !Overtakes([])
  {
  }

  /** Later in the count: of a later epoch, or of the same with a greater number. */
  predicate Later(e: Event, f: Event) {
    e.epoch < f.epoch || (e.epoch == f.epoch && e.number < f.number)
  }

  predicate Rises(b: seq<Event>) {
    forall i, j | 0 <= i < j < |b| :: Later(b[i], b[j])
  }

  lemma CountIsOrder(s: State, e: nat, f: nat)
    requires CountersOk(s) && e < |s.emitters| && f < |s.emitters|
    ensures Later(s.emitters[e].event, s.emitters[f].event) <==> e < f
  {
    if e < f {
      NumbersBetween(s, e, f);
    } else {
      NumbersBetween(s, f, e);
    }
  }

  /** In every run in which every emitter has begun its broadcast: the events go out in the order of their
      numbers exactly if no emitter ever began while one with an earlier number had not. */
  lemma RisesIffNoneOvertakes(actions: seq<Action>)
    requires forall e | 0 <= e < |Run(actions).emitters| :: !Run(actions).emitters[e].stage.Numbered?
    ensures Rises(Run(actions).broadcasts) <==> !Overtakes(actions)
  {
    var s, order := Run(actions), Order(actions);
    CountersHold(actions);
    OrderHolds(actions);
    OvertakesInverts(actions);
    OrderIsOfAll(actions);
    forall i, j | 0 <= i < j < |order|
      ensures Later(s.broadcasts[i], s.broadcasts[j]) <==> order[i] <= order[j] && order[i] != order[j]
    {
      CountIsOrder(s, order[i], order[j]);
    }
  }

  lemma {:induction false} OrderIsOfAll(actions: seq<Action>)
    ensures forall i, j | 0 <= i < j < |Order(actions)| :: Order(actions)[i] != Order(actions)[j]
  {
    hide Next, Run;
    if actions != [] {
      var init, a := actions[..|actions| - 1], actions[|actions| - 1];
      OrderIsOfAll(init);
      OrderHolds(init);
      forall i | 0 <= i < |Order(init)| && Begins(Run(init), a) ensures Order(init)[i] != a.e {
        assert Order(init)[i] in Order(init);
      }
    }
  }

  lemma RunMore(actions: seq<Action>, a: Action)
    ensures Run(actions + [a]) == Next(Run(actions), a)
  {
    assert (actions + [a])[..|actions|] == actions;
  }

  /** A whole broadcast to the one subscriber of a task. */
  lemma BroadcastToOne(s: State, e: nat, q: Subscriber)
    requires s.lock.None? && e < |s.emitters| && s.emitters[e].stage.Numbered?
    requires s.subs == [0] && s.queues == [q] && !Full(q.maxsize, |q.held|)
    ensures var event := s.emitters[e].event;
            Next(Next(Next(s, Begin(e)), Put(e)), End(e)) ==
              InStage(s, e, Sent).(broadcasts := s.broadcasts + [event],
                                   queues := [Offer(q, event, |s.broadcasts|)])
  {
    var event := s.emitters[e].event;
    var begun := InStage(s, e, Sending([0])).(lock := Some(e), broadcasts := s.broadcasts + [event]);
    assert Next(s, Begin(e)) == begun;
    var put := InStage(begun, e, Sending([])).(queues := [Offer(q, event, |s.broadcasts|)]);
    assert Next(begun, Put(e)) == put by {
      assert [0][1..] == [] && s.queues[0 := Offer(q, event, |s.broadcasts|)] == [Offer(q, event, |s.broadcasts|)];
    }
    assert Next(put, End(e)).emitters == InStage(s, e, Sent).emitters;
  }

  lemma TwoNumbered(first: string, second: string)
    ensures Run([Subscribe(1000), Count(first), Count(second)]) ==
              State(2, 0, None, [Emitter(Event(first, 1, 0), Numbered), Emitter(Event(second, 2, 0), Numbered)],
                    [], [0], [Subscriber(1000, 0, None, [], [], [])])
  {
    var empty: seq<Action> := [];
    var a := [Subscribe(1000)];
    assert empty + [Subscribe(1000)] == a && a + [Count(first)] == [Subscribe(1000), Count(first)];
    assert [Subscribe(1000), Count(first)] + [Count(second)] == [Subscribe(1000), Count(first), Count(second)];
    RunMore(empty, Subscribe(1000));
    RunMore(a, Count(first));
    RunMore([Subscribe(1000), Count(first)], Count(second));
  }

  lemma RunThreeMore(actions: seq<Action>, a: Action, b: Action, c: Action)
    ensures Run(actions + [a, b, c]) == Next(Next(Next(Run(actions), a), b), c)
  {
    var one, two := actions + [a], actions + [a] + [b];
    assert actions + [a, b, c] == two + [c];
    RunMore(actions, a);
    RunMore(one, b);
    RunMore(two, c);
  }

  /** Two emitters at once can broadcast in the wrong order: a `critical_abort` event is sent by another
      thread than the task's own, and the numbers that a subscriber sees then need not rise. */
  lemma TwoEmittersCross(first: string, second: string)
    ensures var s := Run([Subscribe(1000), Count(first), Count(second)]
                         + [Begin(1), Put(1), End(1)] + [Begin(0), Put(0), End(0)]);
            && s.broadcasts == [Event(second, 2, 0), Event(first, 1, 0)]
            && |s.queues| == 1 && s.queues[0].taken == []
            && s.queues[0].held == [Event(second, 2, 0), Event(first, 1, 0)]
  {
    var start := [Subscribe(1000), Count(first), Count(second)];
    TwoNumbered(first, second);
    RunThreeMore(start, Begin(1), Put(1), End(1));
    RunThreeMore(start + [Begin(1), Put(1), End(1)], Begin(0), Put(0), End(0));
    var s, q := Run(start), Subscriber(1000, 0, None, [], [], []);
    BroadcastToOne(s, 1, q);
    var t := Run(start + [Begin(1), Put(1), End(1)]);
    BroadcastToOne(t, 0, Offer(q, Event(second, 2, 0), 0));
  }
}
