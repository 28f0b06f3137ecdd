/**
 The sliding-window limiter `check_rate_limit` of app/services/rate_limiter.py.

 `CheckRateLimit` is the program, over the buckets it updates; `Verdict` and `BucketAfter` are its
 reply and the bucket it leaves. Times are exact reals and the clock is a parameter. The main results
 compare the pruned bucket with a log of admissions from which nothing is ever removed.
 */
module RateLimiter {
  import opened PyText
  import opened Numerals
  import opened SlidingLog

  datatype Reply = Reply(allowed: bool, retryAfter: int, remaining: int, limit: int, window: int)

  /** The reply for a bucket already pruned. With nothing in the bucket and a limit of zero or less the
      program reads the first entry of an empty list, which raises. */
  function ReplyFor(bucket: seq<real>, limit: int, window: int, now: real): Result<Reply> {
    if |bucket| < limit then Ok(Reply(true, 0, limit - (|bucket| + 1), limit, window))
    else if bucket == [] then Raised
    else
      var retryAfter := Trunc(bucket[0] + window as real - now) + 1;
      Ok(Reply(false, if retryAfter > 1 then retryAfter else 1, 0, limit, window))
  }

  function Cutoff(window: int, now: real): real {
    now - window as real
  }

  function Verdict(bucket: seq<real>, limit: int, window: int, now: real): Result<Reply> {
    ReplyFor(Pruned(bucket, Cutoff(window, now)), limit, window, now)
  }

  function BucketAfter(bucket: seq<real>, limit: int, window: int, now: real): seq<real> {
    var kept := Pruned(bucket, Cutoff(window, now));
    if |kept| < limit then kept + [now] else kept
  }

  function BucketOf(buckets: map<string, seq<real>>, key: string): seq<real> {
    if key in buckets then buckets[key] else []
  }

  class Limiter {
    var buckets: map<string, seq<real>>

    constructor ()
      ensures buckets == map[]
    {
      buckets := map[];
    }

    /** `check_rate_limit(key, limit, window)` with the clock at `now`. */
    method CheckRateLimit(key: string, limit: int, window: int, now: real) returns (r: Result<Reply>)
      modifies this
      ensures r == Verdict(BucketOf(old(buckets), key), limit, window, now)
      ensures buckets == old(buckets)[key := BucketAfter(BucketOf(old(buckets), key), limit, window, now)]
    {
      var bucket := BucketOf(buckets, key);
      bucket := Pruned(bucket, now - window as real);
      buckets := buckets[key := bucket];
      if |bucket| >= limit {
        if bucket == [] {
          return Raised;
        }
        var retryAfter := Trunc(bucket[0] + window as real - now) + 1;
        return Ok(Reply(false, if retryAfter > 1 then retryAfter else 1, 0, limit, window));
      }
      bucket := bucket + [now];
      buckets := buckets[key := bucket];
      r := Ok(Reply(true, 0, limit - |bucket|, limit, window));
    }
  }

  // ---------------------------------------------------------------- whole runs

  /** The bucket of one key after a sequence of calls, given by their times. */
  function BucketOver(calls: seq<real>, limit: int, window: int): seq<real> {
    if calls == [] then []
    else BucketAfter(BucketOver(calls[..|calls| - 1], limit, window), limit, window, calls[|calls| - 1])
  }

  /** The calls that the program admits. */
  function Admitted(calls: seq<real>, limit: int, window: int): seq<real> {
    if calls == [] then []
    else
      var init, now := calls[..|calls| - 1], calls[|calls| - 1];
      var r := Verdict(BucketOver(init, limit, window), limit, window, now);
      Admitted(init, limit, window) + (if r.Ok? && r.value.allowed then [now] else [])
  }

  /** The reference: a log of admissions that is never pruned. A call is admitted when fewer than
      `limit` of them are later than one window before it. */
  function Admissions(calls: seq<real>, limit: int, window: int): seq<real> {
    if calls == [] then []
    else
      var log, now := Admissions(calls[..|calls| - 1], limit, window), calls[|calls| - 1];
      log + (if |Pruned(log, Cutoff(window, now))| < limit then [now] else [])
  }

  lemma {:induction false} AdmissionsInOrder(calls: seq<real>, limit: int, window: int)
    requires Nondecreasing(calls)
    ensures Nondecreasing(Admissions(calls, limit, window))
    ensures forall t | t in Admissions(calls, limit, window) :: t in calls
  {
    if calls != [] {
      var init := calls[..|calls| - 1];
      AdmissionsInOrder(init, limit, window);
      var log := Admissions(init, limit, window);
      forall i | 0 <= i < |log| ensures log[i] <= calls[|calls| - 1] && log[i] in calls {
        assert log[i] in log && log[i] in init;
      }
    }
  }

  /** The clock steps back over call `i`: call `j` drops its entry, and call `k` would count it. */
  predicate StepsBackOver(calls: seq<real>, window: int, i: nat, j: nat, k: nat)
    requires i < j < k < |calls|
  {
    Cutoff(window, calls[k]) < calls[i] <= Cutoff(window, calls[j])
  }

  predicate StepsBack(calls: seq<real>, window: int) {
    exists i, j, k | 0 <= i < j < k < |calls| :: StepsBackOver(calls, window, i, j, k)
  }

  /** A clock that does not go back never does. */
  lemma OrderedNeverStepsBack(calls: seq<real>, window: int)
    requires Nondecreasing(calls)
    ensures !StepsBack(calls, window)
  {
  }

  lemma PrefixNeverStepsBack(calls: seq<real>, n: nat, window: int)
    requires !StepsBack(calls, window) && n <= |calls|
    ensures !StepsBack(calls[..n], window)
  {
    if i, j, k :| 0 <= i < j < k < n && StepsBackOver(calls[..n], window, i, j, k) {
      assert StepsBackOver(calls, window, i, j, k);
    }
  }

  lemma {:induction false} AdmissionsAreCalls(calls: seq<real>, limit: int, window: int)
    ensures forall t | t in Admissions(calls, limit, window) :: t in calls
  {
    if calls != [] {
      var init := calls[..|calls| - 1];
      assert calls == init + [calls[|calls| - 1]];
      AdmissionsAreCalls(init, limit, window);
    }
  }

  /** Unless the clock steps back, no entry is missed that was dropped before. */
  lemma NoneIsMissed(init: seq<real>, t: real, now: real, limit: int, window: int)
    requires !StepsBack(init + [t] + [now], window)
    ensures forall x | x in Admissions(init, limit, window) && x > Cutoff(window, now) :: x > Cutoff(window, t)
  {
    var all, n := init + [t] + [now], |init|;
    AdmissionsAreCalls(init, limit, window);
    forall x | x in Admissions(init, limit, window) && x > Cutoff(window, now) ensures x > Cutoff(window, t) {
      var i :| 0 <= i < n && init[i] == x;
      assert all[i] == x && all[n] == t && all[n + 1] == now;
      assert !StepsBackOver(all, window, i, n, n + 1);
    }
  }

  lemma {:induction false} PrunedBucket(calls: seq<real>, limit: int, window: int, now: real)
    requires !StepsBack(calls + [now], window)
    ensures Pruned(BucketOver(calls, limit, window), Cutoff(window, now))
            == Pruned(Admissions(calls, limit, window), Cutoff(window, now))
  {
    hide StepsBack;
    if calls != [] {
      var init, t := calls[..|calls| - 1], calls[|calls| - 1];
      var all := calls + [now];
      assert calls == init + [t] && all == init + [t] + [now] && all[..|calls|] == init + [t];
      PrefixNeverStepsBack(all, |calls|, window);
      PrunedBucket(init, limit, window, t);
      NoneIsMissed(init, t, now, limit, window);
      OneMoreCall(init, t, limit, window, now);
    }
  }

  lemma OneMoreCall(init: seq<real>, t: real, limit: int, window: int, now: real)
    requires Pruned(BucketOver(init, limit, window), Cutoff(window, t))
             == Pruned(Admissions(init, limit, window), Cutoff(window, t))
    requires forall x | x in Admissions(init, limit, window) && x > Cutoff(window, now) :: x > Cutoff(window, t)
    ensures Pruned(BucketOver(init + [t], limit, window), Cutoff(window, now))
            == Pruned(Admissions(init + [t], limit, window), Cutoff(window, now))
  {
    var early, late := Cutoff(window, t), Cutoff(window, now);
    var log := Admissions(init, limit, window);
    assert (init + [t])[..|init|] == init && log + [] == log;
    PrunedWithin(log, early, late);
    PrunedSnoc(Pruned(log, early), t, late);
    PrunedSnoc(log, t, late);
  }

  /** Pruning changes nothing unless the clock steps back over an admission: every reply is the one that the
      full log of admissions gives. */
  lemma PrunedBucketDecidesAlike(calls: seq<real>, limit: int, window: int, now: real)
    requires !StepsBack(calls + [now], window)
    ensures Verdict(BucketOver(calls, limit, window), limit, window, now)
            == Verdict(Admissions(calls, limit, window), limit, window, now)
  {
    PrunedBucket(calls, limit, window, now);
  }

  lemma InitInOrder(calls: seq<real>, now: real)
    requires Nondecreasing(calls + [now])
    ensures Nondecreasing(calls) && forall t | t in calls :: t <= now
  {
    var all := calls + [now];
    assert forall i | 0 <= i < |calls| :: all[i] == calls[i];
    assert all[|calls|] == now;
  }

  /** So the program admits exactly the calls that the reference admits. */
  lemma {:induction false} AdmittedIsReference(calls: seq<real>, limit: int, window: int)
    requires !StepsBack(calls, window)
    ensures Admitted(calls, limit, window) == Admissions(calls, limit, window)
  {
    hide StepsBack;
    if calls != [] {
      var init, now := calls[..|calls| - 1], calls[|calls| - 1];
      assert calls == init + [now];
      PrefixNeverStepsBack(calls, |init|, window);
      AdmittedIsReference(init, limit, window);
      PrunedBucketDecidesAlike(init, limit, window, now);
    }
  }

  /** The program replies to every call as the full log of admissions would. */
  predicate RepliesAlike(calls: seq<real>, limit: int, window: int) {
    forall n | 0 <= n < |calls| ::
      Verdict(BucketOver(calls[..n], limit, window), limit, window, calls[n])
      == Verdict(Admissions(calls[..n], limit, window), limit, window, calls[n])
  }

  /** With a limit that no call reaches, everything is admitted and the bucket lacks what was dropped. */
  lemma {:induction false} NothingRefused(calls: seq<real>, limit: int, window: int, x: real)
    requires |calls| < limit
    ensures Admissions(calls, limit, window) == calls
    ensures |BucketOver(calls, limit, window)| <= |calls|
    ensures |Pruned(BucketOver(calls, limit, window), x)| <= |Pruned(calls, x)|
  {
    if calls != [] {
      var init, t := calls[..|calls| - 1], calls[|calls| - 1];
      var bucket, cutoff := BucketOver(init, limit, window), Cutoff(window, t);
      assert calls == init + [t];
      NothingRefused(init, limit, window, x);
      PrunedFits(init, cutoff);
      PrunedFits(bucket, cutoff);
      OneMoreKept(bucket, t, cutoff, x);
      PrunedSnoc(init, t, x);
    }
  }

  lemma {:induction false} PrunedFits(log: seq<real>, cutoff: real)
    ensures |Pruned(log, cutoff)| <= |log|
  {
    if log != [] {
      PrunedFits(log[..|log| - 1], cutoff);
    }
  }

  /** What pruning at `x` leaves of a bucket that was pruned at `cutoff` and got one more entry. */
  lemma OneMoreKept(bucket: seq<real>, t: real, cutoff: real, x: real)
    ensures var late := if cutoff > x then cutoff else x;
            |Pruned(Pruned(bucket, cutoff) + [t], x)| == |Pruned(bucket, late)| + (if t > x then 1 else 0)
            && |Pruned(bucket, late)| <= |Pruned(bucket, x)|
  {
    PrunedSnoc(Pruned(bucket, cutoff), t, x);
    PrunedBoth(bucket, cutoff, x);
    PrunedShrinks(bucket, x, if cutoff > x then cutoff else x);
  }

  /** Once an entry that would still count has been dropped, the bucket stays behind the full log. */
  lemma {:induction false} DropShows(calls: seq<real>, limit: int, window: int, x: real, i: nat, j: nat)
    requires |calls| < limit && i < j < |calls| && x < calls[i] <= Cutoff(window, calls[j])
    ensures |Pruned(BucketOver(calls, limit, window), x)| < |Pruned(calls, x)|
  {
    var n := |calls| - 1;
    var init, t := calls[..n], calls[n];
    var bucket, cutoff := BucketOver(init, limit, window), Cutoff(window, t);
    assert calls == init + [t];
    var late := if cutoff > x then cutoff else x;
    NothingRefused(init, limit, window, x);
    NothingRefused(init, limit, window, late);
    PrunedFits(bucket, cutoff);
    OneMoreKept(bucket, t, cutoff, x);
    PrunedSnoc(init, t, x);
    if j == n {
      assert init[i] == calls[i] && init[i] in init;
      PrunedLoses(init, x, late, calls[i]);
    } else {
      DropShows(init, limit, window, x, i, j);
    }
  }

  lemma ReplyTells(bucket: seq<real>, log: seq<real>, limit: int, window: int, now: real)
    requires |Pruned(bucket, Cutoff(window, now))| < |Pruned(log, Cutoff(window, now))| < limit
    ensures Verdict(bucket, limit, window, now) != Verdict(log, limit, window, now)
  {
  }

  /** Which clocks are harmless, for all limits: the program replies to every call as the full log of
      admissions would, whatever the limit, exactly if the clock never steps back over a call by so much that
      a call between has dropped its entry. */
  lemma RepliesAlikeIff(calls: seq<real>, window: int)
    ensures (forall limit: int :: RepliesAlike(calls, limit, window)) <==> !StepsBack(calls, window)
  {
    if StepsBack(calls, window) {
      var i, j, k :| 0 <= i < j < k < |calls| && StepsBackOver(calls, window, i, j, k);
      var limit, before := |calls| + 1, calls[..k];
      NothingRefused(before, limit, window, Cutoff(window, calls[k]));
      DropShows(before, limit, window, Cutoff(window, calls[k]), i, j);
      PrunedFits(before, Cutoff(window, calls[k]));
      ReplyTells(BucketOver(before, limit, window), before, limit, window, calls[k]);
      assert !RepliesAlike(calls, limit, window);
    } else {
      forall limit: int ensures RepliesAlike(calls, limit, window) {
        EveryReplyAlike(calls, limit, window);
      }
    }
  }

  lemma EveryReplyAlike(calls: seq<real>, limit: int, window: int)
    requires !StepsBack(calls, window)
    ensures RepliesAlike(calls, limit, window)
  {
    hide StepsBack, Verdict;
    forall n | 0 <= n < |calls|
      ensures Verdict(BucketOver(calls[..n], limit, window), limit, window, calls[n])
              == Verdict(Admissions(calls[..n], limit, window), limit, window, calls[n])
    {
      assert calls[..n + 1] == calls[..n] + [calls[n]];
      PrefixNeverStepsBack(calls, n + 1, window);
      PrunedBucketDecidesAlike(calls[..n], limit, window, calls[n]);
    }
  }

  /** How many entries lie in an interval that is open at the bottom and closed at the top, and the
      other way round. */
  function CountUpTo(log: seq<real>, low: real, high: real): nat {
    if log == [] then 0
    else CountUpTo(log[..|log| - 1], low, high) + (if low < log[|log| - 1] <= high then 1 else 0)
  }

  function CountFrom(log: seq<real>, low: real, high: real): nat {
    if log == [] then 0
    else CountFrom(log[..|log| - 1], low, high) + (if low <= log[|log| - 1] < high then 1 else 0)
  }

  lemma {:induction false} CountAtMost(log: seq<real>, low: real, high: real, cutoff: real)
    requires cutoff <= low
    ensures CountUpTo(log, low, high) <= |Pruned(log, cutoff)|
    ensures cutoff < low ==> CountFrom(log, low, high) <= |Pruned(log, cutoff)|
  {
    if log != [] {
      CountAtMost(log[..|log| - 1], low, high, cutoff);
    }
  }

  lemma CountSnoc(log: seq<real>, t: real, low: real, high: real)
    ensures CountUpTo(log + [t], low, high) == CountUpTo(log, low, high) + (if low < t <= high then 1 else 0)
    ensures CountFrom(log + [t], low, high) == CountFrom(log, low, high) + (if low <= t < high then 1 else 0)
  {
    assert (log + [t])[..|log|] == log;
  }

  lemma OneMoreFits(log: seq<real>, t: real, limit: nat, window: int, x: real)
    requires CountUpTo(log, x - window as real, x) <= limit && CountFrom(log, x, x + window as real) <= limit
    requires |Pruned(log, Cutoff(window, t))| < limit
    ensures CountUpTo(log + [t], x - window as real, x) <= limit
    ensures CountFrom(log + [t], x, x + window as real) <= limit
  {
    var w := window as real;
    CountSnoc(log, t, x - w, x);
    CountSnoc(log, t, x, x + w);
    if x - w < t <= x {
      CountAtMost(log, x - w, x, Cutoff(window, t));
    }
    if x <= t < x + w {
      CountAtMost(log, x, x + w, Cutoff(window, t));
    }
  }

  lemma {:induction false} ReferenceNeverOverfull(calls: seq<real>, limit: nat, window: int, x: real)
    ensures CountUpTo(Admissions(calls, limit, window), x - window as real, x) <= limit
    ensures CountFrom(Admissions(calls, limit, window), x, x + window as real) <= limit
  {
    if calls != [] {
      var init, t := calls[..|calls| - 1], calls[|calls| - 1];
      ReferenceNeverOverfull(init, limit, window, x);
      var log := Admissions(init, limit, window);
      if |Pruned(log, Cutoff(window, t))| < limit {
        OneMoreFits(log, t, limit, window, x);
      } else {
        assert log + [] == log;
      }
    }
  }

  /** Unless the clock steps back over an admission, no half-open window of the length, closed at either end,
      ever holds more than `limit` admitted calls. */
  lemma WindowNeverOverfull(calls: seq<real>, limit: nat, window: int, x: real)
    requires !StepsBack(calls, window)
    ensures CountUpTo(Admitted(calls, limit, window), x - window as real, x) <= limit
    ensures CountFrom(Admitted(calls, limit, window), x, x + window as real) <= limit
  {
    AdmittedIsReference(calls, limit, window);
    ReferenceNeverOverfull(calls, limit, window, x);
  }

  lemma {:induction false} CountAllPruned(log: seq<real>, low: real, high: real)
    requires forall t | t in log :: t <= high
    ensures CountUpTo(log, low, high) == |Pruned(log, low)|
  {
    if log != [] {
      var init := log[..|log| - 1];
      assert log[|log| - 1] in log && forall t | t in init :: t in log;
      CountAllPruned(init, low, high);
    }
  }

  lemma AdmissionsAreBefore(calls: seq<real>, limit: int, window: int, now: real)
    requires Nondecreasing(calls + [now])
    ensures forall t | t in Admissions(calls, limit, window) :: t <= now
  {
    InitInOrder(calls, now);
    AdmissionsInOrder(calls, limit, window);
  }

  lemma LogFits(log: seq<real>, low: real, now: real, limit: nat)
    requires (forall t | t in log :: t <= now) && CountUpTo(log, low, now) <= limit
    ensures |Pruned(log, low)| <= limit
  {
    CountAllPruned(log, low, now);
  }

  lemma LogNeverOverfull(calls: seq<real>, limit: nat, window: int, now: real)
    ensures CountUpTo(Admissions(calls, limit, window), Cutoff(window, now), now) <= limit
  {
    ReferenceNeverOverfull(calls, limit, window, now);
  }

  lemma PrunedNeverOverfull(calls: seq<real>, limit: nat, window: int, now: real)
    requires Nondecreasing(calls + [now])
    ensures |Pruned(Admissions(calls, limit, window), Cutoff(window, now))| <= limit
  {
    AdmissionsAreBefore(calls, limit, window, now);
    LogNeverOverfull(calls, limit, window, now);
    LogFits(Admissions(calls, limit, window), Cutoff(window, now), now, limit);
  }

  /** What the reply tells: a call is admitted iff fewer than `limit` admissions lie in the window that ends with
      it, and is then told how many more would be; one that is refused is told of none. */
  lemma ReplyCounts(calls: seq<real>, limit: int, window: int, now: real)
    requires Nondecreasing(calls + [now])
    ensures var r := Verdict(BucketOver(calls, limit, window), limit, window, now);
            var used := CountUpTo(Admitted(calls, limit, window), now - window as real, now);
            && (r.Raised? <==> used == 0 && limit <= 0)
            && (r.Ok? ==> r.value.limit == limit && r.value.window == window)
            && (r.Ok? ==> (r.value.allowed <==> used < limit))
            && (r.Ok? && r.value.allowed ==> used + 1 + r.value.remaining == limit && r.value.retryAfter == 0)
            && (r.Ok? && !r.value.allowed ==> r.value.remaining == 0 && r.value.retryAfter >= 1)
  {
    hide StepsBack, Admitted, Admissions, BucketOver, Pruned;
    InitInOrder(calls, now);
    OrderedNeverStepsBack(calls, window);
    AdmittedIsReference(calls, limit, window);
    PrunedInOrder(calls, limit, window, now);
    AdmissionsAreBefore(calls, limit, window, now);
    CountAllPruned(Admissions(calls, limit, window), now - window as real, now);
  }

  /** The moment the oldest counted admission leaves the window of a refused call. */
  function Due(calls: seq<real>, limit: int, window: int, now: real): real
    requires Pruned(BucketOver(calls, limit, window), Cutoff(window, now)) != []
  {
    Pruned(BucketOver(calls, limit, window), Cutoff(window, now))[0] + window as real
  }

  predicate RefusedBy(bucket: seq<real>, limit: int, window: int, now: real) {
    var r := Verdict(bucket, limit, window, now);
    r.Ok? && !r.value.allowed
  }

  predicate Refused(calls: seq<real>, limit: int, window: int, now: real) {
    RefusedBy(BucketOver(calls, limit, window), limit, window, now)
  }

  /** After a refusal, and as long as nothing is admitted, a later call is admitted exactly from the
      moment the oldest counted admission leaves the window; `retry_after` points past that moment, by at
      most a second. */
  lemma RetryIsAdmitted(calls: seq<real>, later: seq<real>, limit: nat, window: int, now: real, again: real)
    requires limit >= 1 && now <= again && Nondecreasing(calls + [now]) && Nondecreasing(later + [again])
    requires Refused(calls, limit, window, now)
    requires Admitted(later, limit, window) == Admitted(calls, limit, window)
    ensures Pruned(BucketOver(calls, limit, window), Cutoff(window, now)) != []
    ensures Refused(later, limit, window, again) <==> again < Due(calls, limit, window, now)
    ensures var r := Verdict(BucketOver(calls, limit, window), limit, window, now).value;
            Due(calls, limit, window, now) < now + r.retryAfter as real <= Due(calls, limit, window, now) + 1.0
  {
    hide StepsBack, Admitted, Admissions, BucketOver, RefusedBy, Verdict, Pruned;
    InitInOrder(calls, now);
    InitInOrder(later, again);
    assert Admitted(calls, limit, window) == Admissions(calls, limit, window)
           && Admitted(later, limit, window) == Admissions(later, limit, window) by {
      OrderedNeverStepsBack(calls, window);
      OrderedNeverStepsBack(later, window);
      AdmittedIsReference(calls, limit, window);
      AdmittedIsReference(later, limit, window);
    }
    var log := Admissions(calls, limit, window);
    PrunedInOrder(calls, limit, window, now);
    PrunedInOrder(later, limit, window, again);
    PrunedNeverOverfull(calls, limit, window, now);
    AdmissionsInOrder(calls, limit, window);
    DueTells(BucketOver(calls, limit, window), BucketOver(later, limit, window), log, limit, window, now, again);
  }

  lemma PrunedInOrder(calls: seq<real>, limit: int, window: int, now: real)
    requires Nondecreasing(calls + [now])
    ensures Pruned(BucketOver(calls, limit, window), Cutoff(window, now))
            == Pruned(Admissions(calls, limit, window), Cutoff(window, now))
  {
    hide StepsBack;
    OrderedNeverStepsBack(calls + [now], window);
    PrunedBucket(calls, limit, window, now);
  }

  lemma DueTells(bucket: seq<real>, later: seq<real>, log: seq<real>, limit: nat, window: int, now: real, again: real)
    requires limit >= 1 && now <= again && Nondecreasing(log)
    requires Pruned(bucket, Cutoff(window, now)) == Pruned(log, Cutoff(window, now))
    requires Pruned(later, Cutoff(window, again)) == Pruned(log, Cutoff(window, again))
    requires |Pruned(log, Cutoff(window, now))| <= limit && RefusedBy(bucket, limit, window, now)
    ensures Pruned(bucket, Cutoff(window, now)) != []
    ensures var due := Pruned(bucket, Cutoff(window, now))[0] + window as real;
            && (RefusedBy(later, limit, window, again) <==> again < due)
            && due < now + Verdict(bucket, limit, window, now).value.retryAfter as real <= due + 1.0
  {
    var n := PrunedIsSuffix(log, Cutoff(window, now));
    var m := PrunedIsSuffix(log, Cutoff(window, again));
    assert log[n..][0] == log[n];
  }

  lemma AdmitsWhenRoom(calls: seq<real>, t: real, limit: int, window: int)
    requires |Pruned(BucketOver(calls, limit, window), Cutoff(window, t))| < limit
    ensures Admitted(calls + [t], limit, window) == Admitted(calls, limit, window) + [t]
    ensures BucketOver(calls + [t], limit, window)
            == Pruned(BucketOver(calls, limit, window), Cutoff(window, t)) + [t]
  {
    assert (calls + [t])[..|calls|] == calls;
  }

  lemma TwoInOrder()
    ensures Admitted([0.0, 1.0], 2, 10) == [0.0, 1.0] && BucketOver([0.0, 1.0], 2, 10) == [0.0, 1.0]
  {
    var none: seq<real> := [];
    assert none + [0.0] == [0.0] && [0.0] + [1.0] == [0.0, 1.0];
    AdmitsWhenRoom(none, 0.0, 2, 10);
    PrunedSnoc(none, 0.0, -9.0);
    AdmitsWhenRoom([0.0], 1.0, 2, 10);
  }

  lemma ThenTwoMore()
    requires Admitted([0.0, 1.0], 2, 10) == [0.0, 1.0] && BucketOver([0.0, 1.0], 2, 10) == [0.0, 1.0]
    ensures Admitted([0.0, 1.0, 11.5, 9.0], 2, 10) == [0.0, 1.0, 11.5, 9.0]
  {
    var none: seq<real> := [];
    var two, three := [0.0, 1.0], [0.0, 1.0, 11.5];
    assert none + [0.0] == [0.0] && [0.0] + [1.0] == two && none + [11.5] == [11.5];
    assert two + [11.5] == three && three + [9.0] == [0.0, 1.0, 11.5, 9.0];
    PrunedSnoc(none, 0.0, 1.5);
    PrunedSnoc([0.0], 1.0, 1.5);
    AdmitsWhenRoom(two, 11.5, 2, 10);
    PrunedSnoc(none, 11.5, -1.0);
    AdmitsWhenRoom(three, 9.0, 2, 10);
  }

  lemma ThreeOfFour()
    ensures CountUpTo([0.0, 1.0, 11.5, 9.0], -1.0, 9.0) == 3
  {
    var none: seq<real> := [];
    var one, two, three := [0.0], [0.0, 1.0], [0.0, 1.0, 11.5];
    assert none + [0.0] == one && one + [1.0] == two && two + [11.5] == three && three + [9.0] == [0.0, 1.0, 11.5, 9.0];
    CountSnoc(none, 0.0, -1.0, 9.0);
    CountSnoc(one, 1.0, -1.0, 9.0);
    CountSnoc(two, 11.5, -1.0, 9.0);
    CountSnoc(three, 9.0, -1.0, 9.0);
  }

  /** The clock is read before the lock is taken, so two calls can take it in the other order. Then the
      bound fails: with a limit of 2 and a window of 10, a late call at 9 is admitted beside 0 and 1. */
  lemma OutOfOrderOverfills()
    ensures Admitted([0.0, 1.0, 11.5, 9.0], 2, 10) == [0.0, 1.0, 11.5, 9.0]
    ensures CountUpTo([0.0, 1.0, 11.5, 9.0], -1.0, 9.0) == 3
  {
    TwoInOrder();
    ThenTwoMore();
    ThreeOfFour();
  }
}
