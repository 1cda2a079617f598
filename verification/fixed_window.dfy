/**
 * Fixed-window rate counters. The broker keeps three of them (commands of a lease, access requests
 * of a session, access requests of the whole broker) and the RPC peer keeps a fourth. Each stores
 * only a start time and a count. This module relates such a counter to the full history of admitted
 * events and derives what the counter promises about an interval that straddles two windows.
 */
module FixedWindow {

  /** Times never go back along a log of admitted events. */
  ghost predicate Sorted(log: seq<int>) {
    forall i, j | 0 <= i <= j < |log| :: log[i] <= log[j]
  }

  /** Any two events `gap` positions apart are at least one window width apart. */
  ghost predicate Spread(log: seq<int>, gap: nat, width: nat) {
    forall i, j | 0 <= i && i + gap <= j < |log| :: log[i] + width <= log[j]
  }

  /**
   * A counter that started at `startedAt` and has charged `count` events accounts for `log`: every
   * event outside the newest `count` ones is before the start, every event outside the newest
   * `count + limit` ones is a whole width before it, and none is after the end. Charges that led to
   * no logged event (the broker charges a request it then refuses) only weaken these clauses.
   */
  ghost predicate Accounts(log: seq<int>, startedAt: int, count: int, limit: nat, width: nat, clock: int) {
    && Sorted(log)
    && Spread(log, 2 * limit, width)
    && 0 <= count <= limit
    && startedAt <= clock
    && (forall i | 0 <= i < |log| :: log[i] <= clock && log[i] < startedAt + width)
    && (forall i | 0 <= i < |log| - count :: log[i] < startedAt)
    && (forall i | 0 <= i < |log| - count - limit :: log[i] + width <= startedAt)
  }

  /** Opening a new window keeps the account when the old one is over (or never held anything). */
  lemma Reopen(log: seq<int>, startedAt: int, count: int, limit: nat, width: nat, clock: int, now: int)
    requires Accounts(log, startedAt, count, limit, width, clock)
    requires clock <= now
    requires now - startedAt >= width || log == []
    ensures Accounts(log, now, 0, limit, width, now)
  {
    forall i | 0 <= i < |log| - limit ensures log[i] + width <= now {
      assert i < |log| - count;
    }
  }

  /** An admitted event keeps the account: one more charge, one more log entry. */
  lemma Admit(log: seq<int>, startedAt: int, count: int, limit: nat, width: nat, clock: int, now: int)
    requires Accounts(log, startedAt, count, limit, width, clock)
    requires clock <= now < startedAt + width && count < limit
    ensures Accounts(log + [now], startedAt, count + 1, limit, width, now)
  {
    var after := log + [now];
    forall i, j | 0 <= i && i + 2 * limit <= j < |after| ensures after[i] + width <= after[j] {
      if j == |log| {
        assert i < |log| - count - limit;
      }
    }
  }

  /** A charge that admits nothing, or the mere passing of time, keeps the account. */
  lemma Idle(log: seq<int>, startedAt: int, count: int, limit: nat, width: nat, clock: int, charged: int, now: int)
    requires Accounts(log, startedAt, count, limit, width, clock)
    requires clock <= now && count <= charged <= limit
    ensures Accounts(log, startedAt, charged, limit, width, now)
  {
    forall i | 0 <= i < |log| - charged - limit ensures log[i] + width <= startedAt {
      assert i < |log| - count - limit;
    }
  }

  /** The number of logged events in the half-open interval from `lo` up to `hi`. */
  ghost function CountIn(log: seq<int>, lo: int, hi: int): nat {
    if log == [] then 0
    else CountIn(log[..|log| - 1], lo, hi) + if lo <= log[|log| - 1] < hi then 1 else 0
  }

  lemma CountAppend(log: seq<int>, time: int, lo: int, hi: int)
    ensures CountIn(log + [time], lo, hi) == CountIn(log, lo, hi) + if lo <= time < hi then 1 else 0
  {
    assert (log + [time])[..|log|] == log;
  }

  lemma {:induction false} CountConcat(log: seq<int>, more: seq<int>, lo: int, hi: int)
    ensures CountIn(log + more, lo, hi) == CountIn(log, lo, hi) + CountIn(more, lo, hi)
  {
    if more == [] {
      assert log + more == log;
    } else {
      var last := |more| - 1;
      CountConcat(log, more[..last], lo, hi);
      assert log + more == (log + more[..last]) + [more[last]] && more == more[..last] + [more[last]];
      CountAppend(log + more[..last], more[last], lo, hi);
    }
  }

  /** The newest `|log| - k` events contribute at most one each. */
  lemma {:induction false} CountSuffix(log: seq<int>, k: nat, lo: int, hi: int)
    requires k <= |log|
    ensures CountIn(log, lo, hi) <= CountIn(log[..k], lo, hi) + |log| - k
  {
    if k == |log| {
      assert log[..k] == log;
    } else {
      CountSuffix(log[..|log| - 1], k, lo, hi);
      assert log[..|log| - 1][..k] == log[..k];
    }
  }

  lemma {:induction false} CountNone(log: seq<int>, lo: int, hi: int)
    requires forall i | 0 <= i < |log| :: log[i] < lo
    ensures CountIn(log, lo, hi) == 0
  {
    if log != [] {
      CountNone(log[..|log| - 1], lo, hi);
    }
  }

  /** Events spread that way put at most `gap` of them into any half-open interval of one width. */
  lemma {:induction false} SpreadBounds(log: seq<int>, gap: nat, width: nat, lo: int)
    requires Sorted(log) && Spread(log, gap, width)
    ensures CountIn(log, lo, lo + width) <= gap
  {
    if log != [] {
      var last := |log| - 1;
      if lo <= log[last] < lo + width {
        var k := if last - gap + 1 < 0 then 0 else last - gap + 1;
        forall i | 0 <= i < k ensures log[i] < lo {
          assert log[i] + width <= log[last];
        }
        CountNone(log[..k], lo, lo + width);
        CountSuffix(log, k, lo, lo + width);
      } else {
        SpreadBounds(log[..last], gap, width, lo);
      }
    }
  }

  /** An interval that starts where the current window starts holds no more than the window has charged. */
  lemma WindowHolds(log: seq<int>, startedAt: int, count: int, limit: nat, width: nat, clock: int)
    requires Accounts(log, startedAt, count, limit, width, clock)
    ensures CountIn(log, startedAt, startedAt + width) <= count
    ensures Kept(log, startedAt, startedAt, limit, width)
  {
    var k := if |log| - count < 0 then 0 else |log| - count;
    CountNone(log[..k], startedAt, startedAt + width);
    CountSuffix(log, k, startedAt, startedAt + width);
  }

  /** A window that started at `w` is the current one or over, and its interval holds at most the limit. */
  ghost predicate Kept(log: seq<int>, startedAt: int, w: int, limit: nat, width: nat) {
    CountIn(log, w, w + width) <= limit && (startedAt == w || startedAt >= w + width)
  }

  /** Whatever the counter does next, the interval of a window of the past gains nothing beyond the limit. */
  lemma KeptOn(log: seq<int>, startedAt: int, w: int, limit: nat, width: nat, now: int, more: seq<int>, next: int, count: int)
    requires Kept(log, startedAt, w, limit, width) && startedAt <= now
    requires more == [] || more == [now]
    requires next == startedAt || next >= startedAt + width
    requires Accounts(log + more, next, count, limit, width, now)
    ensures Kept(log + more, next, w, limit, width)
  {
    if next == w {
      WindowHolds(log + more, next, count, limit, width, now);
    } else if more == [] {
      assert log + more == log;
    } else {
      CountAppend(log, now, w, w + width);
    }
  }

  lemma {:induction false} CountAll(log: seq<int>, lo: int, hi: int)
    requires forall i | 0 <= i < |log| :: lo <= log[i] < hi
    ensures CountIn(log, lo, hi) == |log|
  {
    if log != [] {
      CountAll(log[..|log| - 1], lo, hi);
    }
  }
}
