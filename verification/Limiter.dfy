/** The fixed-window rate limiter: one window and counter for each key, in one shared map. */
module Limiter {
  import opened Types

  datatype Entry = Entry(start: int, count: nat)

  datatype Call = Call(key: string, limit: U32, window: nat, now: int)

  // ----- what the limiter does for one key -----

  /** The window a call falls in: the current one, or a new one that starts with the call. */
  function Opened(e: Option<Entry>, window: nat, now: int): Entry {
    if e.None? || Max(0, now - e.value.start) >= window then Entry(now, 0) else e.value
  }

  predicate Admits(e: Option<Entry>, c: Call) { Opened(e, c.window, c.now).count < c.limit }

  function EntryAfter(e: Option<Entry>, c: Call): Entry {
    var current := Opened(e, c.window, c.now);
    if Admits(e, c) then Entry(current.start, current.count + 1) else current
  }

  /** The entry a key has after its calls, all others left out of account. */
  function EntryOf(calls: seq<Call>, key: string): Option<Entry> {
    if calls == [] then None else
      var rest, last := calls[..|calls| - 1], calls[|calls| - 1];
      if last.key == key then Some(EntryAfter(EntryOf(rest, key), last)) else EntryOf(rest, key)
  }

  /** When calls with a key were admitted. */
  function Admitted(calls: seq<Call>, key: string): seq<int> {
    if calls == [] then [] else
      var rest, last := calls[..|calls| - 1], calls[|calls| - 1];
      Admitted(rest, key) + (if last.key == key && Admits(EntryOf(rest, key), last) then [last.now] else [])
  }

  class RateLimiter {
    var entries: map<string, Entry>
    ghost var calls: seq<Call>

    /** Every key has the entry its own calls have made. */
    ghost predicate Valid()
      reads this
    {
      forall key :: (if key in entries then Some(entries[key]) else None) == EntryOf(calls, key)
    }

    constructor ()
      ensures Valid() && calls == []
    {
      entries, calls := map[], [];
    }

    method Check(key: string, limit: U32, window: nat, now: int) returns (ok: bool)
      requires Valid()
      modifies this
      ensures Valid()
      ensures calls == old(calls) + [Call(key, limit, window, now)]
      ensures ok == Admits(EntryOf(old(calls), key), Call(key, limit, window, now))
      ensures var current := key in old(entries) && now - old(entries)[key].start < window && 0 < window;
              var count := if current then old(entries)[key].count else 0;
              && (ok <==> count < limit)
              && entries == old(entries)[key := Entry(if current then old(entries)[key].start else now, if ok then count + 1 else count)]
    {
      ghost var call := Call(key, limit, window, now);
      CallAppended(calls, call);
      calls := calls + [call];
      var entry := if key in entries then entries[key] else Entry(now, 0);
      if Max(0, now - entry.start) >= window {
        entry := Entry(now, 0);
      }
      if entry.count >= limit {
        entries := entries[key := entry];
        return false;
      }
      entry := entry.(count := entry.count + 1);
      entries := entries[key := entry];
      return true;
    }
  }

  lemma CallAppended(calls: seq<Call>, call: Call)
    ensures forall key :: EntryOf(calls + [call], key)
                          == if call.key == key then Some(EntryAfter(EntryOf(calls, key), call)) else EntryOf(calls, key)
  {
    assert (calls + [call])[..|calls + [call]| - 1] == calls;
  }

  // ----- other keys -----

  function OfKey(calls: seq<Call>, key: string): seq<Call> {
    if calls == [] then [] else
      var rest, last := calls[..|calls| - 1], calls[|calls| - 1];
      OfKey(rest, key) + (if last.key == key then [last] else [])
  }

  /** What happens to a key is what would happen if the limiter were its own. */
  lemma {:induction false} OtherKeysDoNotMatter(calls: seq<Call>, key: string)
    ensures EntryOf(OfKey(calls, key), key) == EntryOf(calls, key)
    ensures Admitted(OfKey(calls, key), key) == Admitted(calls, key)
  {
    if calls == [] {
    } else {
      var rest, last := calls[..|calls| - 1], calls[|calls| - 1];
      OtherKeysDoNotMatter(rest, key);
      var own := OfKey(rest, key);
      if last.key == key {
        assert (own + [last])[..|own + [last]| - 1] == own;
      } else {
        assert own + [] == own;
      }
    }
  }

  // ----- the bound -----

  function CountIn(times: seq<int>, lo: int, hi: int): nat {
    if times == [] then 0 else
      var last := times[|times| - 1];
      CountIn(times[..|times| - 1], lo, hi) + (if lo <= last < hi then 1 else 0)
  }

  lemma CountSnoc(times: seq<int>, t: int, lo: int, hi: int)
    ensures CountIn(times + [t], lo, hi) == CountIn(times, lo, hi) + (if lo <= t < hi then 1 else 0)
  {
    assert (times + [t])[..|times + [t]| - 1] == times;
  }

  lemma {:induction false} CountSplits(times: seq<int>, lo: int, mid: int, hi: int)
    requires lo <= mid <= hi
    ensures CountIn(times, lo, hi) == CountIn(times, lo, mid) + CountIn(times, mid, hi)
  {
    if times == [] {
    } else {
      CountSplits(times[..|times| - 1], lo, mid, hi);
    }
  }

  lemma {:induction false} CountNone(times: seq<int>, lo: int, hi: int)
    requires forall t :: t in times ==> !(lo <= t < hi)
    ensures CountIn(times, lo, hi) == 0
  {
    if times == [] {
    } else {
      var rest, last := times[..|times| - 1], times[|times| - 1];
      assert times == rest + [last];
      assert last in times;
      assert forall t :: t in rest ==> t in times;
      CountNone(rest, lo, hi);
    }
  }

  ghost predicate Monotone(calls: seq<Call>) {
    forall i, j :: 0 <= i < j < |calls| ==> calls[i].now <= calls[j].now
  }

  ghost predicate Uniform(calls: seq<Call>, key: string, limit: nat, window: nat) {
    forall c :: c in calls && c.key == key ==> c.limit == limit && c.window == window
  }

  /**
   The current window holds `count` admissions, the first at its very start; all earlier ones lie before it, at most
   `limit - 1` of them less than a window length before.
   */
  ghost predicate Windowed(times: seq<int>, e: Entry, limit: nat, window: nat, now: int) {
    && e.count <= limit && e.start <= now && (limit > 0 ==> e.count > 0)
    && (forall t :: t in times ==> t <= now && t < e.start + window)
    && CountIn(times, e.start, e.start + window) == e.count
    && CountIn(times, e.start + 1, e.start + window) <= Max(0, e.count - 1)
    && (forall a :: e.start - window < a <= e.start ==> CountIn(times, a, e.start) <= Max(0, limit - 1))
  }

  ghost predicate Bounded(times: seq<int>, limit: nat, window: nat) {
    forall a: int :: CountFrom(times, a, window) <= Max(0, 2 * limit - 1)
  }

  /** The admissions in an interval of a window's length. */
  function CountFrom(times: seq<int>, from: int, window: nat): nat { CountIn(times, from, from + window) }

  /** A call that opens a window. */
  lemma OpensWindow(times: seq<int>, e: Entry, limit: nat, window: nat, now: int, t: int)
    requires 1 <= window && Windowed(times, e, limit, window, now) && now <= t && t - e.start >= window
    ensures forall a :: t - window < a <= t ==> CountIn(times, a, t) <= Max(0, limit - 1)
    ensures CountIn(times, t, t + window) == 0
  {
    CountNone(times, t, t + window);
    forall a | t - window < a <= t ensures CountIn(times, a, t) <= Max(0, limit - 1) {
      var end := e.start + window;
      CountNone(times, end, t);
      if a <= end {
        CountSplits(times, a, end, t);
        CountSplits(times, e.start + 1, a, end);
      } else {
        CountNone(times, a, t);
      }
    }
  }

  /** A later call of the same window. */
  lemma StaysInWindow(times: seq<int>, e: Entry, limit: nat, window: nat, now: int, t: int)
    requires 1 <= window && Windowed(times, e, limit, window, now) && now <= t < e.start + window && e.count < limit
    requires Bounded(times, limit, window)
    ensures Windowed(times + [t], Entry(e.start, e.count + 1), limit, window, t)
    ensures Bounded(times + [t], limit, window)
  {
    var times' := times + [t];
    forall lo: int, hi: int ensures CountIn(times', lo, hi) == CountIn(times, lo, hi) + (if lo <= t < hi then 1 else 0) {
      CountSnoc(times, t, lo, hi);
    }
    forall a: int ensures CountFrom(times', a, window) <= Max(0, 2 * limit - 1) {
      if a <= t < a + window {
        var end := e.start + window;
        if a <= e.start {
          CountSplits(times', a, e.start, a + window);
          CountSplits(times', e.start, a + window, end);
        } else {
          CountSplits(times', a, end, a + window);
          CountNone(times', end, a + window);
          CountSplits(times', e.start + 1, a, end);
        }
      } else {
        assert CountFrom(times, a, window) <= Max(0, 2 * limit - 1);
      }
    }
  }

  /** The first call of a window. */
  lemma StartsWindow(times: seq<int>, limit: nat, window: nat, t: int, admitted: bool)
    requires 1 <= window && Bounded(times, limit, window) && (admitted <==> limit > 0)
    requires forall x :: x in times ==> x <= t
    requires forall a :: t - window < a <= t ==> CountIn(times, a, t) <= Max(0, limit - 1)
    requires CountIn(times, t, t + window) == 0
    ensures var times' := if admitted then times + [t] else times;
            Windowed(times', Entry(t, if admitted then 1 else 0), limit, window, t) && Bounded(times', limit, window)
  {
    CountSplits(times, t, t + 1, t + window);
    if admitted {
      var times' := times + [t];
      forall lo: int, hi: int ensures CountIn(times', lo, hi) == CountIn(times, lo, hi) + (if lo <= t < hi then 1 else 0) {
        CountSnoc(times, t, lo, hi);
      }
      forall a: int ensures CountFrom(times', a, window) <= Max(0, 2 * limit - 1) {
        if a <= t < a + window {
          CountSplits(times', a, t, a + window);
          CountSplits(times', t, a + window, t + window);
        } else {
          assert CountFrom(times, a, window) <= Max(0, 2 * limit - 1);
        }
      }
    }
  }

  lemma NothingAdmitted(limit: nat, window: nat)
    ensures Bounded([], limit, window)
  {
  }

  lemma PrefixOf(calls: seq<Call>, key: string, limit: nat, window: nat)
    requires calls != [] && Monotone(calls) && Uniform(calls, key, limit, window)
    ensures var rest, last := calls[..|calls| - 1], calls[|calls| - 1];
            && Monotone(rest) && Uniform(rest, key, limit, window) && (last.key == key ==> last.limit == limit && last.window == window)
            && (rest != [] ==> rest[|rest| - 1].now <= last.now)
  {
    assert calls[|calls| - 1] in calls;
  }

  lemma {:induction false} WindowedOverRuns(calls: seq<Call>, key: string, limit: nat, window: nat)
    requires 1 <= window && Monotone(calls) && Uniform(calls, key, limit, window)
    ensures Bounded(Admitted(calls, key), limit, window)
    ensures EntryOf(calls, key).None? ==> Admitted(calls, key) == []
    ensures EntryOf(calls, key).Some? ==>
              calls != [] && Windowed(Admitted(calls, key), EntryOf(calls, key).value, limit, window, calls[|calls| - 1].now)
  {
    if calls == [] {
      NothingAdmitted(limit, window);
    } else {
      hide Windowed, Bounded, Monotone, Uniform, EntryOf, Admitted, Admits, EntryAfter;
      var rest, last := calls[..|calls| - 1], calls[|calls| - 1];
      assert calls == rest + [last];
      PrefixOf(calls, key, limit, window);
      WindowedOverRuns(rest, key, limit, window);
      NextState(rest, last, key);
      if last.key == key {
        NextCall(Admitted(rest, key), EntryOf(rest, key), limit, window, if rest == [] then last.now else rest[|rest| - 1].now, last);
      } else if EntryOf(rest, key).Some? {
        LaterNow(Admitted(rest, key), EntryOf(rest, key).value, limit, window, rest[|rest| - 1].now, last.now);
      }
    }
  }

  lemma NextState(rest: seq<Call>, last: Call, key: string)
    ensures EntryOf(rest + [last], key) == if last.key == key then Some(EntryAfter(EntryOf(rest, key), last)) else EntryOf(rest, key)
    ensures Admitted(rest + [last], key)
            == if last.key == key && Admits(EntryOf(rest, key), last) then Admitted(rest, key) + [last.now] else Admitted(rest, key)
  {
    assert (rest + [last])[..|rest + [last]| - 1] == rest;
    assert Admitted(rest, key) + [] == Admitted(rest, key);
  }

  lemma LaterNow(times: seq<int>, e: Entry, limit: nat, window: nat, now: int, later: int)
    requires Windowed(times, e, limit, window, now) && now <= later
    ensures Windowed(times, e, limit, window, later)
  {
  }

  lemma NextCall(times: seq<int>, e: Option<Entry>, limit: nat, window: nat, now: int, c: Call)
    requires 1 <= window && Bounded(times, limit, window) && now <= c.now && c.limit == limit && c.window == window
    requires if e.None? then times == [] else Windowed(times, e.value, limit, window, now)
    ensures var times' := if Admits(e, c) then times + [c.now] else times;
            Windowed(times', EntryAfter(e, c), limit, window, c.now) && Bounded(times', limit, window)
  {
    hide Bounded;
    if e.None? {
      NoneBefore(limit, window, c.now);
      StartsWindow(times, limit, window, c.now, limit > 0);
    } else if Max(0, c.now - e.value.start) >= window {
      OpensWindow(times, e.value, limit, window, now, c.now);
      assert forall x :: x in times ==> x <= c.now;
      hide Windowed;
      StartsWindow(times, limit, window, c.now, limit > 0);
    } else if e.value.count < limit {
      hide CountIn;
      StaysInWindow(times, e.value, limit, window, now, c.now);
    }
  }

  lemma NoneBefore(limit: nat, window: nat, t: int)
    ensures forall a :: t - window < a <= t ==> CountIn([], a, t) <= Max(0, limit - 1)
    ensures CountIn([], t, t + window) == 0
  {
  }

  /**
   For a key always checked with the same limit and window, under a clock that does not run backwards: the current
   window admits at most `limit` calls, and no interval of a window's length has more than `2 * limit - 1`.
   */
  lemma AdmissionBound(calls: seq<Call>, key: string, limit: nat, window: nat, from: int)
    requires Monotone(calls) && Uniform(calls, key, limit, window)
    ensures CountFrom(Admitted(calls, key), from, window) <= Max(0, 2 * limit - 1)
    ensures window > 0 && EntryOf(calls, key).Some? ==>
              var e := EntryOf(calls, key).value;
              CountIn(Admitted(calls, key), e.start, e.start + window) == e.count <= limit
  {
    if window == 0 {
      CountNone(Admitted(calls, key), from, from);
    } else {
      WindowedOverRuns(calls, key, limit, window);
    }
  }

  // ----- the bound is attained -----

  function Repeat(c: Call, n: nat): seq<Call> { if n == 0 then [] else Repeat(c, n - 1) + [c] }

  /** A call that is admitted into the window that starts at `start`. */
  lemma AdmitsOne(calls: seq<Call>, c: Call, start: int, count: nat, from: int)
    requires Admits(EntryOf(calls, c.key), c) && EntryAfter(EntryOf(calls, c.key), c) == Entry(start, count)
    requires from <= c.now < from + c.window
    ensures EntryOf(calls + [c], c.key) == Some(Entry(start, count))
    ensures CountFrom(Admitted(calls + [c], c.key), from, c.window) == CountFrom(Admitted(calls, c.key), from, c.window) + 1
  {
    assert (calls + [c])[..|calls + [c]| - 1] == calls;
    CountSnoc(Admitted(calls, c.key), c.now, from, from + c.window);
  }

  lemma {:induction false} AdmitsMany(calls: seq<Call>, c: Call, start: int, count: nat, n: nat, from: int)
    requires EntryOf(calls, c.key) == Some(Entry(start, count)) && start <= c.now < start + c.window && count + n <= c.limit
    requires from <= c.now < from + c.window
    ensures EntryOf(calls + Repeat(c, n), c.key) == Some(Entry(start, count + n))
    ensures CountFrom(Admitted(calls + Repeat(c, n), c.key), from, c.window) == CountFrom(Admitted(calls, c.key), from, c.window) + n
  {
    hide EntryOf, Admitted, CountFrom;
    if n == 0 {
      assert calls + [] == calls;
    } else {
      AdmitsMany(calls, c, start, count, n - 1, from);
      assert calls + Repeat(c, n) == calls + Repeat(c, n - 1) + [c];
      AdmitsOne(calls + Repeat(c, n - 1), c, start, count + n, from);
    }
  }

  lemma {:induction false} RepeatsOne(c: Call, n: nat)
    ensures |Repeat(c, n)| == n && forall x :: x in Repeat(c, n) ==> x == c
  {
    if n == 0 {
    } else {
      RepeatsOne(c, n - 1);
    }
  }

  /** One call opens a window, the rest of its admissions come at its end, and the next window is used up at once. */
  function Burst(first: Call, late: Call, next: Call, n: nat): seq<Call> {
    [first] + Repeat(late, n) + [next] + Repeat(next, n)
  }

  lemma BurstCount(first: Call, late: Call, next: Call, n: nat, from: int)
    requires first.key == late.key == next.key && first.limit == late.limit == next.limit == n + 1
    requires first.window == late.window == next.window >= 2
    requires first.now < from && from == late.now == first.now + first.window - 1 && next.now == from + 1
    ensures CountFrom(Admitted(Burst(first, late, next, n), first.key), from, first.window) == 2 * n + 1
  {
    FirstCall(first, from);
    hide EntryOf, Admitted, CountFrom, Repeat;
    AdmitsMany([first], late, first.now, 1, n, from);
    AdmitsOne([first] + Repeat(late, n), next, next.now, 1, from);
    AdmitsMany([first] + Repeat(late, n) + [next], next, next.now, 1, n, from);
  }

  lemma BoundIsAttained(key: string, limit: U32, window: nat) returns (calls: seq<Call>)
    requires 1 <= limit && 2 <= window
    ensures Monotone(calls) && Uniform(calls, key, limit, window)
    ensures CountFrom(Admitted(calls, key), window - 1, window) == 2 * limit - 1
  {
    hide EntryOf, Admitted, CountFrom, Monotone, Uniform, Repeat;
    var first, late, next := Call(key, limit, window, 0), Call(key, limit, window, window - 1), Call(key, limit, window, window);
    calls := Burst(first, late, next, limit - 1);
    BurstCount(first, late, next, limit - 1, window - 1);
    AttainingRun(calls, first, late, next, limit - 1);
  }

  lemma FirstCall(c: Call, from: int)
    requires 1 <= c.limit && c.now < from && 1 <= c.window
    ensures EntryOf([c], c.key) == Some(Entry(c.now, 1)) && CountFrom(Admitted([c], c.key), from, c.window) == 0
  {
    assert [c][..|[c]| - 1] == [];
    assert EntryOf([], c.key) == None;
    assert Admitted([c], c.key) == [] + [c.now];
    hide EntryOf, Admitted;
    CountNone([c.now], from, from + c.window);
  }

  lemma AttainingRun(calls: seq<Call>, first: Call, late: Call, next: Call, n: nat)
    requires calls == Burst(first, late, next, n)
    requires first.now <= late.now <= next.now && first.key == late.key == next.key
    requires first.limit == late.limit == next.limit && first.window == late.window == next.window
    ensures Monotone(calls) && Uniform(calls, first.key, first.limit, first.window)
  {
    RepeatsOne(late, n);
    RepeatsOne(next, n);
    forall i | 0 <= i < |calls| ensures calls[i] == if i == 0 then first else if i <= n then late else next {
      if 0 < i <= n {
        assert calls[i] == Repeat(late, n)[i - 1] && Repeat(late, n)[i - 1] in Repeat(late, n);
      } else if n + 1 < i {
        assert calls[i] == Repeat(next, n)[i - n - 2] && Repeat(next, n)[i - n - 2] in Repeat(next, n);
      }
    }
  }
}
