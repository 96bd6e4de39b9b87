/** The per-login limit on failed logins: LoginThrottle of src/admin/auth/login-throttle.ts. */
module LoginThrottling {
  import opened Seconds

  /** The history that the limit is about, none of it forgotten. */
  datatype Op = FailedLogin(key: string, at: int) | Forgiven(key: string)

  /** The stamps of a login's failures since it was last reset. */
  function SinceReset(history: seq<Op>, key: string): seq<int> {
    if history == [] then []
    else
      var before, last := SinceReset(history[..|history| - 1], key), history[|history| - 1];
      if last.key != key then before
      else if last.Forgiven? then []
      else before + [last.at]
  }

  /** The stamps inside the window that begins after `cutoff`. */
  function After(stamps: seq<int>, cutoff: int): seq<int> {
    if stamps == [] then []
    else After(stamps[..|stamps| - 1], cutoff) + if stamps[|stamps| - 1] > cutoff then [stamps[|stamps| - 1]] else []
  }

  predicate Sorted(s: seq<int>) {
    forall i, j :: 0 <= i < j < |s| ==> s[i] <= s[j]
  }

  lemma {:induction false} AfterAgain(s: seq<int>, a: int, b: int)
    requires a <= b
    ensures After(After(s, a), b) == After(s, b)
  {
    if s != [] {
      var t, x := After(s[..|s| - 1], a), s[|s| - 1];
      AfterAgain(s[..|s| - 1], a, b);
      if x > a {
        assert (t + [x])[..|t|] == t;
      } else {
        assert t + [] == t;
      }
    }
  }

  /** Where the window begins in a list cut there. */
  lemma {:induction false} AfterIsSuffix(s: seq<int>, cutoff: int, drop: nat)
    requires drop <= |s| && (forall i :: 0 <= i < drop ==> s[i] <= cutoff) && (forall i :: drop <= i < |s| ==> s[i] > cutoff)
    ensures After(s, cutoff) == s[drop..]
  {
    if s != [] {
      var u := s[..|s| - 1];
      if drop == |s| {
        AfterIsSuffix(u, cutoff, drop - 1);
      } else {
        AfterIsSuffix(u, cutoff, drop);
        assert u[drop..] + [s[|s| - 1]] == s[drop..];
      }
    }
  }

  /** In a sorted list the stamps to forget come first. */
  lemma OldOnesFirst(s: seq<int>, cutoff: int) returns (drop: nat)
    requires Sorted(s)
    ensures drop <= |s| && After(s, cutoff) == s[drop..] && (forall i :: 0 <= i < drop ==> s[i] <= cutoff)
    ensures forall i :: drop <= i < |s| ==> s[i] > cutoff
  {
    drop := 0;
    while drop < |s| && s[drop] <= cutoff
      invariant drop <= |s| && forall i :: 0 <= i < drop ==> s[i] <= cutoff
    {
      drop := drop + 1;
    }
    AfterIsSuffix(s, cutoff, drop);
  }

  /** The moment from which fewer than `max` of the stamps are in the window. */
  lemma {:induction false} ReleaseIsExact(s: seq<int>, max: nat, windowMs: nat, t: int)
    requires Sorted(s) && 1 <= max <= |s|
    ensures |After(s, t - windowMs)| < max <==> s[|s| - max] + windowMs <= t
  {
    var drop := OldOnesFirst(s, t - windowMs);
  }

  /** What the map holds of a login's failures. */
  function StampsOf(failures: map<string, seq<int>>, key: string): seq<int> {
    if key in failures then failures[key] else []
  }

  predicate NoEmptyList(failures: map<string, seq<int>>) {
    forall key :: key in failures ==> failures[key] != []
  }

  /** The stamps kept of a full list: in order, and all that the last pruning left. */
  predicate Kept(stamps: seq<int>, full: seq<int>, prunedTo: int, clock: int) {
    && stamps == After(full, prunedTo) && Sorted(stamps)
    && (forall i :: 0 <= i < |stamps| ==> stamps[i] <= clock)
  }

  lemma KeptAfterPruning(stamps: seq<int>, full: seq<int>, prunedTo: int, clock: int, cutoff: int, now: int)
    requires Kept(stamps, full, prunedTo, clock) && prunedTo <= cutoff && clock <= now
    ensures Kept(After(stamps, cutoff), full, cutoff, now)
  {
    hide After;
    AfterAgain(full, prunedTo, cutoff);
    var drop := OldOnesFirst(stamps, cutoff);
  }

  lemma SinceOneMore(history: seq<Op>, op: Op, key: string)
    ensures SinceReset(history + [op], key) ==
            if op.key != key then SinceReset(history, key)
            else if op.Forgiven? then [] else SinceReset(history, key) + [op.at]
  {
    assert (history + [op])[..|history|] == history;
  }

  /** Recording a failure of one login. */
  lemma KeptAfterFailure(history: seq<Op>, key: string, now: int, prunedTo: int, other: string, stamps: seq<int>)
    requires prunedTo < now && Kept(stamps, SinceReset(history, other), prunedTo, now)
    ensures Kept(if other == key then stamps + [now] else stamps, SinceReset(history + [FailedLogin(key, now)], other), prunedTo, now)
  {
    SinceOneMore(history, FailedLogin(key, now), other);
    if other == key {
      hide SinceReset;
      var full := SinceReset(history, other);
      assert (full + [now])[..|full|] == full;
    }
  }

  class LoginThrottle {
    const maxAttempts: nat
    const windowMs: nat
    /** trim and lower case */
    const normalize: string -> string
    var failures: map<string, seq<int>>
    ghost var history: seq<Op>
    ghost var clock: int
    ghost var prunedTo: int

    /** The map holds of every login what the last pruning left of its history. */
    ghost predicate Valid()
      reads this
    {
      && maxAttempts >= 1 && windowMs >= 1 && prunedTo <= clock - windowMs && NoEmptyList(failures)
      && (forall key :: Kept(StampsOf(failures, key), SinceReset(history, key), prunedTo, clock))
    }

    /** The failures of a login inside the window that ends at `now`, counted on the whole history. */
    ghost function FailuresInWindow(key: string, now: int): nat
      reads this
    {
      |After(SinceReset(history, key), now - windowMs)|
    }

    constructor (maxAttempts: nat, windowMs: nat, normalize: string -> string)
      requires maxAttempts >= 1 && windowMs >= 1
      ensures Valid() && history == []
      ensures this.maxAttempts == maxAttempts && this.windowMs == windowMs && this.normalize == normalize
    {
      this.maxAttempts, this.windowMs, this.normalize := maxAttempts, windowMs, normalize;
      failures, history, clock, prunedTo := map[], [], 0, 0 - windowMs as int;
    }

    /** The loop body of prune, for one login of the map. */
    method ForgetOldOf(key: string, cutoff: int)
      requires key in failures && Sorted(failures[key])
      modifies `failures
      ensures forall k :: k != key ==> StampsOf(failures, k) == old(StampsOf(failures, k))
      ensures StampsOf(failures, key) == After(old(failures[key]), cutoff)
      ensures old(failures.Keys) - {key} <= failures.Keys <= old(failures.Keys)
      ensures old(NoEmptyList(failures)) ==> NoEmptyList(failures)
    {
      var stamps := failures[key];
      var drop := 0;
      while drop < |stamps| && stamps[drop] <= cutoff
        invariant drop <= |stamps| && forall i :: 0 <= i < drop ==> stamps[i] <= cutoff
      {
        drop := drop + 1;
      }
      AfterIsSuffix(stamps, cutoff, drop);
      if drop == |stamps| {
        failures := failures - {key};
      } else if drop > 0 {
        failures := failures[key := stamps[drop..]];
      }
    }

    /** prune: forgets what no later answer can depend on. */
    method Prune(now: int)
      requires Valid() && clock <= now
      modifies `failures, `clock, `prunedTo
      ensures Valid() && clock == now && prunedTo == now - windowMs
    {
      hide After, SinceReset, Sorted, NoEmptyList, StampsOf;
      var cutoff := now - windowMs;
      ghost var before := failures;
      var keys := failures.Keys;
      NothingStored(before, keys, history, prunedTo, clock);
      while keys != {}
        modifies `failures
        invariant keys <= failures.Keys && NoEmptyList(failures)
        invariant forall k :: k in keys ==> StampsOf(failures, k) == StampsOf(before, k)
        invariant forall k :: k !in keys ==> StampsOf(failures, k) == After(StampsOf(before, k), cutoff)
        decreases keys
      {
        var key :| key in keys;
        Stored(failures, key);
        KeptIsSorted(StampsOf(before, key), SinceReset(history, key), prunedTo, clock);
        ForgetOldOf(key, cutoff);
        keys := keys - {key};
      }
      forall key
        ensures Kept(StampsOf(failures, key), SinceReset(history, key), cutoff, now)
      {
        KeptAfterPruning(StampsOf(before, key), SinceReset(history, key), prunedTo, clock, cutoff, now);
      }
      clock, prunedTo := now, cutoff;
    }

    /**
     check: blocks exactly when the whole history since the last reset holds at least `maxAttempts`
     failures in the window. If no failure is added, the login is free again after the returned
     seconds and not one second earlier.
     */
    method Check(login: string, now: int) returns (allowed: bool, retryAfterSec: nat)
      requires Valid() && clock <= now
      modifies `failures, `clock, `prunedTo
      ensures Valid() && clock == now
      ensures allowed <==> FailuresInWindow(normalize(login), now) < maxAttempts
      ensures allowed ==> retryAfterSec == 0
      ensures !allowed ==>
        && retryAfterSec >= 1
        && FailuresInWindow(normalize(login), now + 1000 * retryAfterSec) < maxAttempts
        && FailuresInWindow(normalize(login), now + 1000 * (retryAfterSec - 1)) >= maxAttempts
    {
      hide After, SinceReset, Valid, NoEmptyList;
      Prune(now);
      var stamps := StampsOf(failures, normalize(login));
      KeptOf(normalize(login));
      if |stamps| < maxAttempts {
        return true, 0;
      }
      var releaseAt := stamps[|stamps| - maxAttempts] + windowMs;
      allowed, retryAfterSec := false, if CeilSeconds(releaseAt - now) > 1 then CeilSeconds(releaseAt - now) else 1;
      WindowMoves(normalize(login), now);
      WindowMoves(normalize(login), now + 1000 * retryAfterSec);
      WindowMoves(normalize(login), now + 1000 * (retryAfterSec - 1));
    }

    lemma KeptOf(key: string)
      requires Valid()
      ensures maxAttempts >= 1 && windowMs >= 1
      ensures Kept(StampsOf(failures, key), SinceReset(history, key), prunedTo, clock)
      ensures StampsOf(failures, key) == After(SinceReset(history, key), prunedTo)
    {
    }

    /** Later windows, seen on the kept stamps. */
    lemma WindowMoves(key: string, t: int)
      requires Valid() && prunedTo <= t - windowMs && |StampsOf(failures, key)| >= maxAttempts
      ensures var stamps := StampsOf(failures, key);
              FailuresInWindow(key, t) < maxAttempts <==> stamps[|stamps| - maxAttempts] + windowMs <= t
    {
      hide After, SinceReset;
      KeptOf(key);
      ReleaseIsExact(StampsOf(failures, key), maxAttempts, windowMs, t);
      AfterAgain(SinceReset(history, key), prunedTo, t - windowMs);
    }

    /** fail: one more failure, and the number now in the window. */
    method Fail(login: string, now: int) returns (count: nat)
      requires Valid() && clock <= now
      modifies `failures, `clock, `prunedTo, `history
      ensures Valid() && clock == now
      ensures history == old(history) + [FailedLogin(normalize(login), now)]
      ensures count == FailuresInWindow(normalize(login), now)
    {
      hide After, SinceReset, Sorted, Kept;
      Prune(now);
      var key := normalize(login);
      var stamps := StampsOf(failures, key) + [now];
      forall other
        ensures Kept(StampsOf(failures[key := stamps], other), SinceReset(history + [FailedLogin(key, now)], other), prunedTo, now)
      {
        KeptAfterFailure(history, key, now, prunedTo, other, StampsOf(failures, other));
      }
      failures := failures[key := stamps];
      history := history + [FailedLogin(key, now)];
      KeptOf(key);
      count := |stamps|;
    }

    /** reset: the login starts anew, the others keep their history. */
    method Reset(login: string)
      requires Valid()
      modifies `failures, `history
      ensures Valid() && history == old(history) + [Forgiven(normalize(login))]
    {
      ghost var op := Forgiven(normalize(login));
      forall key
        ensures SinceReset(history + [op], key) == if key == op.key then [] else SinceReset(history, key)
      {
        SinceOneMore(history, op, key);
      }
      failures := failures - {normalize(login)};
      history := history + [op];
    }

    /** size: the logins with a failure in the window. */
    method Size(now: int) returns (n: nat)
      requires Valid() && clock <= now
      modifies `failures, `clock, `prunedTo
      ensures Valid() && clock == now && n == |failures.Keys|
      ensures forall key :: key in failures.Keys <==> FailuresInWindow(key, now) > 0
    {
      Prune(now);
      forall key
        ensures key in failures.Keys <==> FailuresInWindow(key, now) > 0
      {
        KeptOf(key);
      }
      n := |failures|;
    }
  }

  lemma Stored(failures: map<string, seq<int>>, key: string)
    requires key in failures
    ensures StampsOf(failures, key) == failures[key]
  {
  }

  lemma KeptIsSorted(stamps: seq<int>, full: seq<int>, prunedTo: int, clock: int)
    requires Kept(stamps, full, prunedTo, clock)
    ensures Sorted(stamps)
  {
  }

  lemma NothingStored(failures: map<string, seq<int>>, keys: set<string>, history: seq<Op>, prunedTo: int, clock: int)
    requires keys == failures.Keys
    ensures forall k, cutoff :: k !in keys ==> StampsOf(failures, k) == After(StampsOf(failures, k), cutoff)
  {
  }
}
