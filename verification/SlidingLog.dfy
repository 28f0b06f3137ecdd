/**
 Logs of times from which old entries are pruned, as the rate limiter and the brute-force tracker keep
 them.
 */
module SlidingLog {

  /** The entries later than `cutoff`: `[t for t in log if t > cutoff]`. */
  function Pruned(log: seq<real>, cutoff: real): seq<real> {
    if log == [] then []
    else Pruned(log[..|log| - 1], cutoff) + (if log[|log| - 1] > cutoff then [log[|log| - 1]] else [])
  }

  predicate Nondecreasing(ts: seq<real>) {
    forall i, j | 0 <= i <= j < |ts| :: ts[i] <= ts[j]
  }

  lemma PrunedSnoc(log: seq<real>, t: real, cutoff: real)
    ensures Pruned(log + [t], cutoff) == Pruned(log, cutoff) + (if t > cutoff then [t] else [])
  {
    assert (log + [t])[..|log|] == log;
  }

  /** Pruning twice is pruning at the later cutoff. */
  lemma {:induction false} PrunedTwice(log: seq<real>, early: real, late: real)
    requires early <= late
    ensures Pruned(Pruned(log, early), late) == Pruned(log, late)
  {
    if log != [] {
      var init, t := log[..|log| - 1], log[|log| - 1];
      PrunedTwice(init, early, late);
      if t > early {
        PrunedSnoc(Pruned(init, early), t, late);
      } else {
        assert Pruned(init, early) + [] == Pruned(init, early);
      }
    }
  }

  /** Pruning once more at another cutoff loses nothing that the first cutoff had not dropped already. */
  lemma {:induction false} PrunedWithin(log: seq<real>, first: real, second: real)
    requires forall t | t in log && t > second :: t > first
    ensures Pruned(Pruned(log, first), second) == Pruned(log, second)
  {
    if log != [] {
      var init, t := log[..|log| - 1], log[|log| - 1];
      assert log == init + [t] && t in log && forall x | x in init :: x in log;
      PrunedWithin(init, first, second);
      if t > first {
        PrunedSnoc(Pruned(init, first), t, second);
      } else {
        assert Pruned(init, first) + [] == Pruned(init, first);
      }
    }
  }

  lemma {:induction false} PrunedBoth(log: seq<real>, first: real, second: real)
    ensures Pruned(Pruned(log, first), second) == Pruned(log, if first > second then first else second)
  {
    if log != [] {
      var init, t := log[..|log| - 1], log[|log| - 1];
      PrunedBoth(init, first, second);
      if t > first {
        PrunedSnoc(Pruned(init, first), t, second);
      } else {
        assert Pruned(init, first) + [] == Pruned(init, first);
      }
    }
  }

  lemma {:induction false} PrunedLoses(log: seq<real>, early: real, late: real, t: real)
    requires t in log && early < t <= late
    ensures |Pruned(log, late)| < |Pruned(log, early)|
  {
    var init, last := log[..|log| - 1], log[|log| - 1];
    assert log == init + [last];
    if last == t {
      PrunedShrinks(init, early, late);
    } else {
      PrunedLoses(init, early, late, t);
    }
  }

  lemma {:induction false} PrunedShrinks(log: seq<real>, early: real, late: real)
    requires early <= late
    ensures |Pruned(log, late)| <= |Pruned(log, early)|
  {
    if log != [] {
      PrunedShrinks(log[..|log| - 1], early, late);
    }
  }

  /** Of a sorted log, pruning keeps a suffix. */
  lemma {:induction false} PrunedIsSuffix(log: seq<real>, cutoff: real) returns (n: nat)
    requires Nondecreasing(log)
    ensures n <= |log| && Pruned(log, cutoff) == log[n..]
    ensures forall i | 0 <= i < |log| :: log[i] > cutoff <==> i >= n
  {
    if log == [] {
      n := 0;
    } else {
      var init, t := log[..|log| - 1], log[|log| - 1];
      n := PrunedIsSuffix(init, cutoff);
      if t > cutoff {
        assert log[n..] == init[n..] + [t];
      } else {
        assert forall i | 0 <= i < |init| :: init[i] == log[i] <= t;
        assert init[n..] == [];
        n := |log|;
      }
    }
  }
}
