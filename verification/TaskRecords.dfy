/**
 What the record of a task holds after a sequence of events: the polling fallback of `emit_event` in
 app/services/sse.py. `Hub.Emit` says what one event does to the record; here are many of them.
 */
module TaskRecords {
  import opened PyText
  import opened Events

  datatype Emission = Emission(kind: string, data: Fields)

  function CounterAfter(start: nat, emissions: seq<Emission>): nat {
    if emissions == [] then start
    else if Terminal(emissions[|emissions| - 1].kind) then 0
    else CounterAfter(start, emissions[..|emissions| - 1]) + 1
  }

  /** The record of a task after these events, the counter of the task being at `start` before them. */
  function RecordAfter(task: Fields, start: nat, emissions: seq<Emission>): Fields {
    if emissions == [] then task
    else
      var init, last := emissions[..|emissions| - 1], emissions[|emissions| - 1];
      Updated(RecordAfter(task, start, init), last.data["seq" := Number(CounterAfter(start, init) + 1)])
  }

  /** One more event does to the record and the counter what `Hub.Emit` does. */
  lemma OneMoreEvent(task: Fields, start: nat, emissions: seq<Emission>, e: Emission)
    ensures RecordAfter(task, start, emissions + [e])
            == Updated(RecordAfter(task, start, emissions), e.data["seq" := Number(CounterAfter(start, emissions) + 1)])
    ensures CounterAfter(start, emissions + [e]) == if Terminal(e.kind) then 0 else CounterAfter(start, emissions) + 1
  {
    hide Updated;
    assert (emissions + [e])[..|emissions|] == emissions;
  }

  /** The event brings a value for the field to the record. */
  predicate Brings(e: Emission, field: string) {
    field in e.data && field != "type" && field != "timestamp"
  }

  /** The last of the events that bring the field. */
  predicate LastBringer(emissions: seq<Emission>, n: nat, field: string) {
    n < |emissions| && Brings(emissions[n], field) && forall m | n < m < |emissions| :: !Brings(emissions[m], field)
  }

  lemma TakenOrKept(before: Fields, after: Fields, e: Emission, number: nat, field: string)
    requires Takes(before, after, e.data, number) && field != "seq"
    ensures Brings(e, field) ==> field in e.data && field in after && after[field] == e.data[field]
    ensures !Brings(e, field) ==>
              (field in after <==> field in before) && (field in before ==> after[field] == before[field])
  {
  }

  /** A field that none of the events brings is as it was. */
  lemma {:induction false} UntouchedStays(task: Fields, start: nat, emissions: seq<Emission>, field: string)
    requires field != "seq" && forall n | 0 <= n < |emissions| :: !Brings(emissions[n], field)
    ensures var record := RecordAfter(task, start, emissions);
            (field in record <==> field in task) && (field in task ==> record[field] == task[field])
  {
    hide Updated, Takes, Brings;
    if emissions != [] {
      var init, last := emissions[..|emissions| - 1], emissions[|emissions| - 1];
      var before, number := RecordAfter(task, start, init), CounterAfter(start, init) + 1;
      UntouchedStays(task, start, init, field);
      RecordTakes(before, last.data, number);
      TakenOrKept(before, RecordAfter(task, start, emissions), last, number, field);
    }
  }

  /** Every other field holds the value of the last event that brought it. */
  lemma {:induction false} LastEventWins(task: Fields, start: nat, emissions: seq<Emission>, n: nat, field: string)
    requires field != "seq" && LastBringer(emissions, n, field)
    ensures var record := RecordAfter(task, start, emissions);
            field in emissions[n].data && field in record && record[field] == emissions[n].data[field]
  {
    hide Updated, Takes, Brings;
    var init, last := emissions[..|emissions| - 1], emissions[|emissions| - 1];
    var before, number := RecordAfter(task, start, init), CounterAfter(start, init) + 1;
    if n < |init| {
      LastEventWins(task, start, init, n, field);
    }
    RecordTakes(before, last.data, number);
    TakenOrKept(before, RecordAfter(task, start, emissions), last, number, field);
  }

  predicate IsTerminal(e: Emission) {
    e.kind == "done" || e.kind == "error" || e.kind == "cancelled"
  }

  lemma {:induction false} CounterCounts(start: nat, emissions: seq<Emission>, from: nat)
    requires from <= |emissions| && (from > 0 ==> IsTerminal(emissions[from - 1]))
    requires forall n | from <= n < |emissions| :: !IsTerminal(emissions[n])
    ensures CounterAfter(start, emissions) == |emissions| - from + if from == 0 then start else 0
  {
    if from < |emissions| {
      CounterCounts(start, emissions[..|emissions| - 1], from);
    }
  }

  /** The number in the record counts the events since the last one that was "done", "error" or "cancelled",
      that of the last event included. */
  lemma NumberCounts(task: Fields, start: nat, emissions: seq<Emission>, from: nat)
    requires from < |emissions| && (from > 0 ==> IsTerminal(emissions[from - 1]))
    requires forall n | from <= n < |emissions| - 1 :: !IsTerminal(emissions[n])
    ensures var record := RecordAfter(task, start, emissions);
            "seq" in record && record["seq"] == Number(|emissions| - from + if from == 0 then start else 0)
  {
    hide Updated;
    var init, last := emissions[..|emissions| - 1], emissions[|emissions| - 1];
    CounterCounts(start, init, from);
    RecordTakes(RecordAfter(task, start, init), last.data, CounterAfter(start, init) + 1);
  }
}
