/**
 The tracker of failed logins in app/middleware/brute_force.py.

 `RecordAuthFailure` and `IsIpBlocked` are the program, over the tracker they share; `Recorded` is the
 entry that a failure leaves. The main result says when an address is blocked, in terms of the full
 history of its failures.
 */
module BruteForce {
  import opened SlidingLog

  const MAX_FAILURES := 10
  const WINDOW_SEC := 300.0
  const BLOCK_SEC := 600.0

  datatype Entry = Entry(failures: seq<real>, blockedUntil: real)

  const NEW_ENTRY := Entry([], 0.0)

  function EntryOf(tracker: map<string, Entry>, ip: string): Entry {
    if ip in tracker then tracker[ip] else NEW_ENTRY
  }

  /** The entry after one more failure. */
  function Recorded(entry: Entry, now: real): Entry {
    var failures := Pruned(entry.failures + [now], now - WINDOW_SEC);
    Entry(failures, if |failures| >= MAX_FAILURES then now + BLOCK_SEC else entry.blockedUntil)
  }

  /** The entry of an address after a history of failures, given by their times. */
  function EntryAfter(history: seq<real>): Entry {
    if history == [] then NEW_ENTRY else Recorded(EntryAfter(history[..|history| - 1]), history[|history| - 1])
  }

  /** How many of the first `i + 1` failures came within the window that ends with failure `i`. */
  function Recent(history: seq<real>, i: nat): nat
    requires i < |history|
  {
    |Pruned(history[..i + 1], history[i] - WINDOW_SEC)|
  }

  /** A failure that blocks its address for a while. */
  predicate Trips(history: seq<real>, i: nat)
    requires i < |history|
  {
    Recent(history, i) >= MAX_FAILURES
  }

  predicate BlockedAt(history: seq<real>, t: real) {
    exists i | 0 <= i < |history| :: Trips(history, i) && t < history[i] + BLOCK_SEC
  }

  lemma InitInOrder(history: seq<real>)
    requires Nondecreasing(history) && history != []
    ensures Nondecreasing(history[..|history| - 1])
  {
  }

  lemma StillPruned(f: seq<real>, log: seq<real>, early: real, late: real)
    requires f == Pruned(log, early) && early <= late
    ensures Pruned(f, late) == Pruned(log, late)
  {
    PrunedTwice(log, early, late);
  }

  lemma OneMorePruned(f: seq<real>, init: seq<real>, now: real, cutoff: real)
    requires Pruned(f, cutoff) == Pruned(init, cutoff)
    ensures Pruned(f + [now], cutoff) == Pruned(init + [now], cutoff)
  {
    PrunedSnoc(f, now, cutoff);
    PrunedSnoc(init, now, cutoff);
  }

  lemma EntryOfLast(history: seq<real>)
    requires history != []
    ensures var init, now := history[..|history| - 1], history[|history| - 1];
            EntryAfter(history).failures == Pruned(EntryAfter(init).failures + [now], now - WINDOW_SEC)
  {
  }

  lemma OneMoreFailure(init: seq<real>, now: real, f: seq<real>)
    requires f == EntryAfter(init).failures && Pruned(f, now - WINDOW_SEC) == Pruned(init, now - WINDOW_SEC)
    ensures EntryAfter(init + [now]).failures == Pruned(init + [now], now - WINDOW_SEC)
  {
    assert (init + [now])[..|init|] == init;
    EntryOfLast(init + [now]);
    OneMorePruned(f, init, now, now - WINDOW_SEC);
  }

  /** The pruned list of failures is what pruning the full history gives. */
  lemma {:induction false} FailuresAreRecent(history: seq<real>)
    requires Nondecreasing(history) && history != []
    ensures EntryAfter(history).failures == Pruned(history, history[|history| - 1] - WINDOW_SEC)
  {
    hide Pruned, Recorded;
    var n := |history| - 1;
    var init, now := history[..n], history[n];
    var f := EntryAfter(init).failures;
    assert history == init + [now];
    if n > 0 {
      var last := history[n - 1];
      assert init[|init| - 1] == last <= now;
      InitInOrder(history);
      FailuresAreRecent(init);
      StillPruned(f, init, last - WINDOW_SEC, now - WINDOW_SEC);
    } else {
      assert f == init;
    }
    OneMoreFailure(init, now, f);
  }

  lemma LastTrips(history: seq<real>)
    requires Nondecreasing(history) && history != []
    ensures Trips(history, |history| - 1) <==> |EntryAfter(history).failures| >= MAX_FAILURES
  {
    FailuresAreRecent(history);
    assert history[..|history| - 1 + 1] == history;
  }

  lemma EarlierTrips(history: seq<real>, i: nat)
    requires i + 1 < |history|
    ensures Trips(history, i) <==> Trips(history[..|history| - 1], i)
  {
    assert history[..|history| - 1][..i + 1] == history[..i + 1];
  }

  /** With a clock that does not go back, an address is blocked at `t` exactly when some recorded
      failure, less than ten minutes before, came as the tenth or later within five minutes, counted
      over the full history. */
  lemma {:induction false} BlockedExactly(history: seq<real>, t: real)
    requires Nondecreasing(history) && t >= 0.0
    ensures EntryAfter(history).blockedUntil > t <==> BlockedAt(history, t)
    decreases |history|
  {
    if history != [] {
      var n := |history|;
      var init, now := history[..n - 1], history[n - 1];
      InitInOrder(history);
      BlockedExactly(init, t);
      LastTrips(history);
      forall i | 0 <= i < n - 1 ensures Trips(history, i) <==> Trips(init, i) {
        EarlierTrips(history, i);
      }
      if Trips(history, n - 1) {
        assert forall i | 0 <= i < n :: history[i] <= now;
      } else {
        if BlockedAt(init, t) {
          var i :| 0 <= i < n - 1 && Trips(init, i) && t < init[i] + BLOCK_SEC;
          assert Trips(history, i) && t < history[i] + BLOCK_SEC;
        }
      }
    }
  }

  /** How many of the failures up to the `i`-th came less than five minutes before it, itself included. */
  function InFiveMinutes(history: seq<real>, i: nat): nat
    requires i < |history|
  {
    |set j | 0 <= j <= i && history[j] > history[i] - 300.0|
  }

  lemma {:induction false} PrunedCounts(log: seq<real>, cutoff: real)
    ensures |Pruned(log, cutoff)| == |set j | 0 <= j < |log| && log[j] > cutoff|
  {
    if log != [] {
      var n := |log| - 1;
      PrunedCounts(log[..n], cutoff);
      var before := set j | 0 <= j < n && log[..n][j] > cutoff;
      var all := set j | 0 <= j < |log| && log[j] > cutoff;
      assert all == before + if log[n] > cutoff then {n} else {};
    }
  }

  lemma RecentCounts(history: seq<real>, i: nat)
    requires i < |history|
    ensures Recent(history, i) == InFiveMinutes(history, i)
  {
    var upto, cutoff := history[..i + 1], history[i] - 300.0;
    PrunedCounts(upto, cutoff);
    assert (set j | 0 <= j < |upto| && upto[j] > cutoff) == (set j | 0 <= j <= i && history[j] > cutoff);
  }

  /** In numbers: an address is blocked for 600 seconds by every failure that is the tenth or later within 300. */
  lemma BlockedInNumbers(history: seq<real>, t: real)
    requires Nondecreasing(history) && t >= 0.0
    ensures EntryAfter(history).blockedUntil > t
            <==> exists i | 0 <= i < |history| :: InFiveMinutes(history, i) >= 10 && t < history[i] + 600.0
  {
    hide Recent, InFiveMinutes;
    BlockedExactly(history, t);
    forall i | 0 <= i < |history| ensures Recent(history, i) == InFiveMinutes(history, i) {
      RecentCounts(history, i);
    }
    if i :| 0 <= i < |history| && Trips(history, i) && t < history[i] + BLOCK_SEC {
      assert InFiveMinutes(history, i) >= 10;
    }
    if i :| 0 <= i < |history| && InFiveMinutes(history, i) >= 10 && t < history[i] + 600.0 {
      assert Trips(history, i);
    }
  }

  // ---------------------------------------------------------------- the program

  function HistoryOf(history: map<string, seq<real>>, ip: string): seq<real> {
    if ip in history then history[ip] else []
  }

  class Tracker {
    var entries: map<string, Entry>
    ghost var history: map<string, seq<real>>  // the times of all failures ever recorded
    ghost var clock: real  // the last time read

    /** The entries are those of the full histories, which are in time order. */
    ghost predicate Valid()
      reads this
    {
      entries.Keys == history.Keys && forall ip | ip in history :: Tracks(entries[ip], history[ip], clock)
    }

    constructor (start: real)
      ensures Valid() && history == map[] && clock == start
    {
      entries, history, clock := map[], map[], start;
    }

    /** `record_auth_failure(ip)` with the clock at `now`. */
    method RecordAuthFailure(ip: string, now: real)
      requires Valid() && clock <= now
      modifies this
      ensures Valid() && clock == now
      ensures history == old(history)[ip := HistoryOf(old(history), ip) + [now]]
      ensures entries == old(entries)[ip := Recorded(EntryOf(old(entries), ip), now)]
    {
      var entry := if ip in entries then entries[ip] else Entry([], 0.0);
      entry := UpdateEntry(entry, now);
      entries := entries[ip := entry];
      AllTrack(old(entries), history, clock, ip, now);
      history := history[ip := HistoryOf(history, ip) + [now]];
      clock := now;
    }

    static method UpdateEntry(before: Entry, now: real) returns (entry: Entry)
      ensures entry == Recorded(before, now)
    {
      entry := before.(failures := before.failures + [now]);
      var cutoff := now - WINDOW_SEC;
      entry := entry.(failures := Pruned(entry.failures, cutoff));
      if |entry.failures| >= MAX_FAILURES {
        entry := entry.(blockedUntil := now + BLOCK_SEC);
      }
    }

    /** `is_ip_blocked(ip)` with the clock at `now`: whether the full history blocks the address. */
    method IsIpBlocked(ip: string, now: real) returns (blocked: bool)
      requires Valid() && clock <= now && 0.0 <= now
      ensures blocked <==> BlockedAt(HistoryOf(history, ip), now)
      ensures blocked <==> exists i | 0 <= i < |HistoryOf(history, ip)| ::
                InFiveMinutes(HistoryOf(history, ip), i) >= 10 && now < HistoryOf(history, ip)[i] + 600.0
    {
      if ip !in entries {
        return false;
      }
      BlockedExactly(history[ip], now);
      BlockedInNumbers(history[ip], now);
      blocked := entries[ip].blockedUntil > now;
    }
  }

  predicate UpTo(ts: seq<real>, now: real) {
    forall i | 0 <= i < |ts| :: ts[i] <= now
  }

  /** An entry that is up to date with a history in time order. */
  predicate Tracks(entry: Entry, history: seq<real>, clock: real) {
    Nondecreasing(history) && UpTo(history, clock) && entry == EntryAfter(history)
  }

  lemma TracksFailure(entry: Entry, history: seq<real>, clock: real, now: real)
    requires Tracks(entry, history, clock) && clock <= now
    ensures Tracks(Recorded(entry, now), history + [now], now)
  {
    assert (history + [now])[..|history|] == history;
  }

  lemma AllTrack(entries: map<string, Entry>, history: map<string, seq<real>>, clock: real, ip: string, now: real)
    requires entries.Keys == history.Keys && forall x | x in history :: Tracks(entries[x], history[x], clock)
    requires clock <= now
    ensures var e := entries[ip := Recorded(EntryOf(entries, ip), now)];
            var h := history[ip := HistoryOf(history, ip) + [now]];
            e.Keys == h.Keys && forall x | x in h :: Tracks(e[x], h[x], now)
  {
    var entry, times := EntryOf(entries, ip), HistoryOf(history, ip);
    assert Tracks(entry, times, clock);
    TracksFailure(entry, times, clock, now);
    forall x | x in history && x != ip ensures Tracks(entries[x], history[x], now) {
      TracksLater(entries[x], history[x], clock, now);
    }
  }

  lemma TracksLater(entry: Entry, history: seq<real>, clock: real, now: real)
    requires Tracks(entry, history, clock) && clock <= now
    ensures Tracks(entry, history, now)
  {
  }
}
