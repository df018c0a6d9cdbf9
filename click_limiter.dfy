/**
 * The backend's per-visitor click limiter (`clickLimiter`): a map from
 * `ip|workID` to the time of the last accepted click, a minimum interval
 * between two accepted clicks with the same key, and an expiry sweep that
 * runs when the map grows past `maxEntries` or when `cleanupInterval` has
 * passed since the last sweep. Times are integers (nanoseconds) supplied by
 * the caller in place of `time.Now()`.
 */
module ClickLimiting {

  /** `ip + "|" + workID`. */
  function ClickKey(ip: string, workId: string): string {
    ip + "|" + workId
  }

  /** The entries the sweep keeps: those recorded at or after `expireBefore`. */
  function Sweep(m: map<string, int>, expireBefore: int): map<string, int> {
    map k | k in m && m[k] >= expireBefore :: m[k]
  }

  /** The outcome of one `isAllowedClick`: the answer and the limiter's new state. */
  datatype Decision = Decision(allowed: bool, lastClicks: map<string, int>, lastCleanup: int)

  /** True when the click sweep is due after recording a click. */
  predicate SweepDue(recorded: map<string, int>, lastCleanup: int, maxEntries: int,
                     cleanupInterval: int, now: int)
  {
    |recorded| > maxEntries || now - lastCleanup >= cleanupInterval
  }

  /** The specification of one call of `isAllowedClick` on a non-nil limiter. */
  function Decide(lastClicks: map<string, int>, lastCleanup: int, minInterval: int, maxEntries: int,
                  cleanupInterval: int, key: string, now: int): Decision
  {
    if key in lastClicks && now - lastClicks[key] < minInterval then
      Decision(false, lastClicks, lastCleanup)
    else
      var recorded := lastClicks[key := now];
      if SweepDue(recorded, lastCleanup, maxEntries, cleanupInterval, now) then
        Decision(true, Sweep(recorded, now - minInterval * 10), now)
      else
        Decision(true, recorded, lastCleanup)
  }

  /** A click is rejected exactly when its key was recorded less than
      `minInterval` ago, and a rejection changes nothing. */
  lemma RejectedIffTooSoon(lastClicks: map<string, int>, lastCleanup: int, minInterval: int, maxEntries: int,
                           cleanupInterval: int, key: string, now: int)
    ensures var d := Decide(lastClicks, lastCleanup, minInterval, maxEntries, cleanupInterval, key, now);
      (!d.allowed <==> key in lastClicks && now - lastClicks[key] < minInterval)
      && (!d.allowed ==> d.lastClicks == lastClicks && d.lastCleanup == lastCleanup)
  {
  }

  /** An accepted click records `now` for its key, and the sweep never removes
      it (for a non-negative interval). */
  lemma AllowedRecordsNow(lastClicks: map<string, int>, lastCleanup: int, minInterval: int, maxEntries: int,
                          cleanupInterval: int, key: string, now: int)
    requires minInterval >= 0
    ensures var d := Decide(lastClicks, lastCleanup, minInterval, maxEntries, cleanupInterval, key, now);
      d.allowed ==> key in d.lastClicks && d.lastClicks[key] == now
  {
  }

  /** Every other key is either kept with its old time, or removed because a
      sweep ran and its time was before `now - 10 * minInterval`; no key is added. */
  lemma OtherKeysOnlyExpire(lastClicks: map<string, int>, lastCleanup: int, minInterval: int, maxEntries: int,
                            cleanupInterval: int, key: string, now: int, other: string)
    requires other != key
    ensures var d := Decide(lastClicks, lastCleanup, minInterval, maxEntries, cleanupInterval, key, now);
      (other in d.lastClicks ==> other in lastClicks && d.lastClicks[other] == lastClicks[other])
      && (other in lastClicks && other !in d.lastClicks ==>
            d.allowed && d.lastCleanup == now && lastClicks[other] < now - minInterval * 10)
  {
  }

  /** A sweep runs only when it is due: then it keeps exactly the entries
      that are not older than `now - 10 * minInterval` and moves
      `lastCleanup` to `now`; when it is not due the map is the old one with
      the click recorded and `lastCleanup` stays. */
  lemma SweepKeepsExactlyFresh(lastClicks: map<string, int>, lastCleanup: int, minInterval: int, maxEntries: int,
                               cleanupInterval: int, key: string, now: int)
    ensures var d := Decide(lastClicks, lastCleanup, minInterval, maxEntries, cleanupInterval, key, now);
      var recorded := lastClicks[key := now];
      d.allowed && SweepDue(recorded, lastCleanup, maxEntries, cleanupInterval, now) ==>
        d.lastCleanup == now
        && forall k :: k in d.lastClicks <==> k in recorded && recorded[k] >= now - minInterval * 10
    ensures var d := Decide(lastClicks, lastCleanup, minInterval, maxEntries, cleanupInterval, key, now);
      var recorded := lastClicks[key := now];
      d.allowed && !SweepDue(recorded, lastCleanup, maxEntries, cleanupInterval, now) ==>
        d.lastClicks == recorded && d.lastCleanup == lastCleanup
  {
  }

  /** Two accepted clicks with the same key, the second one after the first,
      are at least `minInterval` apart. */
  lemma {:induction false} AcceptedClicksSpaced(lastClicks: map<string, int>, lastCleanup: int, minInterval: int,
                                                maxEntries: int, cleanupInterval: int, key: string, t1: int, t2: int)
    requires minInterval >= 0 && t1 <= t2
    ensures var d1 := Decide(lastClicks, lastCleanup, minInterval, maxEntries, cleanupInterval, key, t1);
      var d2 := Decide(d1.lastClicks, d1.lastCleanup, minInterval, maxEntries, cleanupInterval, key, t2);
      d1.allowed && d2.allowed ==> t2 - t1 >= minInterval
  {
    AllowedRecordsNow(lastClicks, lastCleanup, minInterval, maxEntries, cleanupInterval, key, t1);
  }

  class ClickLimiter {
    var lastClicks: map<string, int>
    const minInterval: int
    const maxEntries: int
    const cleanupInterval: int
    var lastCleanup: int

    /** `createClickLimiter`: an empty map, the last sweep at `now`. */
    constructor (minInterval: int, maxEntries: int, cleanupInterval: int, now: int)
      ensures this.minInterval == minInterval && this.maxEntries == maxEntries
      ensures this.cleanupInterval == cleanupInterval
      ensures lastClicks == map[] && lastCleanup == now
    {
      this.minInterval := minInterval;
      this.maxEntries := maxEntries;
      this.cleanupInterval := cleanupInterval;
      lastClicks := map[];
      lastCleanup := now;
    }

    /** `isAllowedClick` on a non-nil limiter: the answer and the new state are
        those of `Decide`. The sweep deletes entries one key at a time. */
    method IsAllowedClick(ip: string, workId: string, now: int) returns (allowed: bool)
      modifies this
      ensures Decision(allowed, lastClicks, lastCleanup)
           == Decide(old(lastClicks), old(lastCleanup), minInterval, maxEntries, cleanupInterval,
                     ClickKey(ip, workId), now)
    {
      var key := ClickKey(ip, workId);
      if key in lastClicks && now - lastClicks[key] < minInterval {
        return false;
      }
      lastClicks := lastClicks[key := now];
      if |lastClicks| > maxEntries || now - lastCleanup >= cleanupInterval {
        var expireBefore := now - minInterval * 10;
        ghost var recorded := lastClicks;
        var pending := lastClicks.Keys;
        while pending != {}
          invariant pending <= recorded.Keys
          invariant forall k :: k in lastClicks <==> k in recorded && (k in pending || recorded[k] >= expireBefore)
          invariant forall k :: k in lastClicks ==> lastClicks[k] == recorded[k]
          decreases |pending|
        {
          var k :| k in pending;
          if lastClicks[k] < expireBefore {
            lastClicks := lastClicks - {k};
          }
          pending := pending - {k};
        }
        assert lastClicks == Sweep(recorded, expireBefore);
        lastCleanup := now;
      }
      return true;
    }
  }
}
