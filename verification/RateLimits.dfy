/** The fixed-window request limit: WindowRateLimiter of src/agent/limiters.ts. */
module RateLimits {
  import opened Wrappers
  import opened Seconds

  datatype OneHit = OneHit(key: string, at: int)

  /** One key's window: the hits counted in it and when it ends. */
  datatype Window = Window(count: nat, resetAt: int)

  /** Counting one more hit: a window that has ended gives way to a new one. */
  function Counted(w: Option<Window>, now: int, windowMs: nat): Window {
    if w.None? || w.value.resetAt <= now then Window(1, now + windowMs) else Window(w.value.count + 1, w.value.resetAt)
  }

  /** The window of a key when nothing is ever forgotten. */
  function WindowAfter(hits: seq<OneHit>, key: string, windowMs: nat): Option<Window> {
    if hits == [] then None
    else
      var w, last := WindowAfter(hits[..|hits| - 1], key, windowMs), hits[|hits| - 1];
      if last.key == key then Some(Counted(w, last.at, windowMs)) else w
  }

  /** The hit is one of the first of its key's window. */
  predicate Allows(before: seq<OneHit>, hit: OneHit, max: nat, windowMs: nat) {
    Counted(WindowAfter(before, hit.key, windowMs), hit.at, windowMs).count <= max
  }

  /** The allowed hits of a key at or after `from` and before `to`. */
  function AllowedIn(hits: seq<OneHit>, key: string, from: int, to: int, max: nat, windowMs: nat): nat {
    if hits == [] then 0
    else
      var before, last := hits[..|hits| - 1], hits[|hits| - 1];
      var allowed := Allows(before, last, max, windowMs);
      AllowedIn(before, key, from, to, max, windowMs) + if last.key == key && allowed && from <= last.at < to then 1 else 0
  }

  predicate InOrder(hits: seq<OneHit>) {
    forall i, j :: 0 <= i < j < |hits| ==> hits[i].at <= hits[j].at
  }

  function Min(a: nat, b: nat): nat {
    if a <= b then a else b
  }

  /** How many hits of the interval the key's present window leaves room for. */
  predicate Room(allowed: nat, w: Option<Window>, from: int, max: nat, windowMs: nat) {
    if w.None? then allowed == 0
    else
      var began := w.value.resetAt - windowMs;
      && w.value.count >= 1
      && (began < from ==> allowed + 1 <= Min(w.value.count, max) || allowed == 0)
      && (from <= began < from + windowMs ==>
            allowed <= Min(w.value.count, max) || allowed + 1 <= max + Min(w.value.count, max))
      && (allowed == 0 || allowed + 1 <= 2 * max)
  }

  lemma {:induction false} NoneBefore(hits: seq<OneHit>, key: string, from: int, to: int, max: nat, windowMs: nat)
    requires forall i :: 0 <= i < |hits| ==> hits[i].at < from
    ensures AllowedIn(hits, key, from, to, max, windowMs) == 0
  {
    if hits != [] {
      NoneBefore(hits[..|hits| - 1], key, from, to, max, windowMs);
    }
  }

  lemma {:induction false} WindowBegan(hits: seq<OneHit>, key: string, windowMs: nat)
    requires InOrder(hits)
    ensures var w := WindowAfter(hits, key, windowMs);
            w.Some? ==> hits != [] && w.value.resetAt - windowMs <= hits[|hits| - 1].at
  {
    if hits != [] {
      WindowBegan(hits[..|hits| - 1], key, windowMs);
    }
  }

  lemma {:induction false} RoomLeft(hits: seq<OneHit>, key: string, from: int, max: nat, windowMs: nat)
    requires InOrder(hits) && windowMs >= 1
    ensures Room(AllowedIn(hits, key, from, from + windowMs, max, windowMs), WindowAfter(hits, key, windowMs), from, max, windowMs)
  {
    if hits != [] {
      RoomLeft(hits[..|hits| - 1], key, from, max, windowMs);
      WindowBegan(hits[..|hits| - 1], key, windowMs);
      if hits[|hits| - 1].at < from {
        NoneBefore(hits, key, from, from + windowMs, max, windowMs);
      }
    }
  }

  /** The positions of the key's allowed hits in the interval. */
  function AllowedHits(hits: seq<OneHit>, key: string, from: int, to: int, max: nat, windowMs: nat): set<int> {
    set i | 0 <= i < |hits| && hits[i].key == key && from <= hits[i].at < to && Allows(hits[..i], hits[i], max, windowMs)
  }

  lemma {:induction false} AllowedInCounts(hits: seq<OneHit>, key: string, from: int, to: int, max: nat, windowMs: nat)
    ensures AllowedIn(hits, key, from, to, max, windowMs) == |AllowedHits(hits, key, from, to, max, windowMs)|
  {
    hide Allows;
    if hits == [] {
      assert AllowedHits(hits, key, from, to, max, windowMs) == {};
    } else {
      var n := |hits| - 1;
      AllowedInCounts(hits[..n], key, from, to, max, windowMs);
      assert forall i :: 0 <= i <= n ==> hits[..n][..i] == hits[..i];
      assert AllowedHits(hits, key, from, to, max, windowMs) == AllowedHits(hits[..n], key, from, to, max, windowMs) +
        if hits[n].key == key && from <= hits[n].at < to && Allows(hits[..n], hits[n], max, windowMs) then {n} else {};
    }
  }

  /**
   In any interval of one window's length fewer than twice `max` hits of a key are allowed, although
   the windows are fixed and two of them may meet in the interval.
   */
  lemma FewerThanTwiceMax(hits: seq<OneHit>, key: string, from: int, max: nat, windowMs: nat)
    requires InOrder(hits)
    ensures max == 0 ==> AllowedHits(hits, key, from, from + windowMs, max, windowMs) == {}
    ensures max > 0 ==> |AllowedHits(hits, key, from, from + windowMs, max, windowMs)| < 2 * max
  {
    AllowedInCounts(hits, key, from, from + windowMs, max, windowMs);
    if windowMs == 0 {
      EmptyInterval(hits, key, from, max);
    } else {
      RoomLeft(hits, key, from, max, windowMs);
    }
  }

  lemma {:induction false} EmptyInterval(hits: seq<OneHit>, key: string, from: int, max: nat)
    ensures AllowedIn(hits, key, from, from, max, 0) == 0
  {
    if hits != [] {
      EmptyInterval(hits[..|hits| - 1], key, from, max);
    }
  }

  /** A window is forgotten only when it has ended, so that the next hit would replace it anyway. */
  predicate Remembered(stored: map<string, Window>, hits: seq<OneHit>, key: string, windowMs: nat, clock: int) {
    var w := WindowAfter(hits, key, windowMs);
    if key in stored then w == Some(stored[key]) else w.None? || w.value.resetAt <= clock
  }

  lemma HistoryGrows(hits: seq<OneHit>, hit: OneHit, key: string, windowMs: nat)
    ensures WindowAfter(hits + [hit], key, windowMs) ==
            if key == hit.key then Some(Counted(WindowAfter(hits, key, windowMs), hit.at, windowMs))
            else WindowAfter(hits, key, windowMs)
  {
    assert (hits + [hit])[..|hits|] == hits;
  }

  /** The windows that have not ended. */
  function Unended(hits: map<string, Window>, now: int): map<string, Window> {
    map k | k in hits && hits[k].resetAt > now :: hits[k]
  }

  class WindowRateLimiter {
    const max: nat
    const windowMs: nat
    var hits: map<string, Window>
    var lastPrune: int
    ghost var history: seq<OneHit>
    ghost var clock: int

    ghost predicate Valid()
      reads this
    {
      && (forall key :: Remembered(hits, history, key, windowMs, clock))
      && InOrder(history) && (forall i :: 0 <= i < |history| ==> history[i].at <= clock)
    }

    constructor (max: nat, windowMs: nat)
      ensures Valid() && history == [] && clock == 0 && this.max == max && this.windowMs == windowMs
    {
      this.max, this.windowMs := max, windowMs;
      hits, lastPrune, history, clock := map[], 0, [], 0;
    }

    /** prune: at most once per window length, drops the windows that have ended. */
    method Prune(now: int)
      requires Valid() && clock <= now
      modifies `hits, `lastPrune, `clock
      ensures Valid() && clock == now
      ensures if now - old(lastPrune) < windowMs then hits == old(hits) && lastPrune == old(lastPrune)
              else hits == Unended(old(hits), now) && lastPrune == now
    {
      hide WindowAfter;
      ghost var before := hits;
      clock := now;
      forall key
        ensures Remembered(hits, history, key, windowMs, now)
      {
        assert Remembered(hits, history, key, windowMs, old(clock));
      }
      if now - lastPrune < windowMs {
        return;
      }
      lastPrune := now;
      var keys := hits.Keys;
      while keys != {}
        modifies `hits
        invariant keys <= hits.Keys
        invariant forall key :: Remembered(hits, history, key, windowMs, now)
        invariant forall k :: k in hits <==> k in before && (k in keys || before[k].resetAt > now)
        invariant forall k :: k in hits ==> hits[k] == before[k]
        decreases keys
      {
        var key :| key in keys;
        keys := keys - {key};
        if hits[key].resetAt <= now {
          forall k
            ensures Remembered(hits - {key}, history, k, windowMs, now)
          {
            assert Remembered(hits, history, k, windowMs, now);
          }
          hits := hits - {key};
        }
      }
    }

    /**
     hit: what an unpruned limiter would say. The hit is allowed exactly when it is one of the first
     `max` of its window, and otherwise the window ends after the returned seconds, not one earlier.
     */
    method Hit(key: string, now: int) returns (allowed: bool, retryAfterSec: nat, remaining: nat)
      requires Valid() && clock <= now
      modifies `hits, `lastPrune, `clock, `history
      ensures Valid() && clock == now && history == old(history) + [OneHit(key, now)]
      ensures var w := Counted(WindowAfter(old(history), key, windowMs), now, windowMs);
              && WindowAfter(history, key, windowMs) == Some(w)
              && (allowed <==> w.count <= max) && (allowed <==> Allows(old(history), OneHit(key, now), max, windowMs))
              && remaining == (if w.count <= max then max - w.count else 0)
              && retryAfterSec >= 1
              && w.resetAt <= now + 1000 * retryAfterSec
              && (windowMs > 0 ==> now + 1000 * (retryAfterSec - 1) < w.resetAt)
    {
      hide WindowAfter;
      Prune(now);
      var h := if key in hits then Some(hits[key]) else None;
      assert Remembered(hits, history, key, windowMs, now);
      if h.None? || h.value.resetAt <= now {
        h := Some(Window(0, now + windowMs));
      }
      var w := Window(h.value.count + 1, h.value.resetAt);
      ghost var grown := history + [OneHit(key, now)];
      HistoryGrows(history, OneHit(key, now), key, windowMs);
      var updated := hits[key := w];
      forall k
        ensures Remembered(updated, grown, k, windowMs, now)
      {
        assert Remembered(hits, history, k, windowMs, now);
        HistoryGrows(history, OneHit(key, now), k, windowMs);
      }
      hits, history := updated, grown;
      var seconds := CeilSeconds(w.resetAt - now);
      retryAfterSec := if seconds > 1 then seconds else 1;
      allowed, remaining := w.count <= max, if w.count <= max then max - w.count else 0;
    }
  }
}
