/** internal/httpapi/rate_limit.go: a fixed-window limiter over a bounded table. */
module RateLimit {
  import opened Prelude

  type Key = string

  datatype Entry = Entry(count: nat, reset: int)

  type Table = map<Key, Entry>

  predicate LiveEntry(t: Table, key: Key, now: int) {
    key in t && t[key].reset > now
  }

  /** The table without its expired entries. */
  function Swept(t: Table, now: int): Table {
    map k | k in t && LiveEntry(t, k, now) :: t[k]
  }

  /** Whether a call is admitted, and otherwise how long to wait. */
  function Verdict(t: Table, key: Key, limit: nat, now: int): (bool, int) {
    if !LiveEntry(t, key, now) || t[key].count < limit then (true, 0) else (false, t[key].reset - now)
  }

  /** The key's entry afterwards. */
  function Counted(t: Table, key: Key, limit: nat, window: int, now: int): Entry {
    if !LiveEntry(t, key, now) then Entry(1, now + window)
    else if t[key].count < limit then t[key].(count := t[key].count + 1)
    else t[key]
  }

  /** One call: the key is counted, every other entry stays unless it had expired
      or was the one sacrificed to a full table. */
  ghost predicate Stepped(t: Table, key: Key, limit: nat, window: int, now: int, t': Table, evicted: Option<Key>) {
    && key in t' && t'[key] == Counted(t, key, limit, window, now)
    && (forall k :: k in t' && k != key ==> k in t && t'[k] == t[k])
    && (forall k :: k in t && k != key && k !in t' ==> !LiveEntry(t, k, now) || evicted == Some(k))
    && evicted != Some(key)
  }

  /** Expired entries are invisible: sweeping them changes neither an answer, then
      or later, nor the entry left for the key. */
  lemma SweepInvisible(t: Table, key: Key, limit: nat, window: int, now: int, later: int)
    requires now <= later
    ensures Verdict(Swept(t, now), key, limit, later) == Verdict(t, key, limit, later)
    ensures Counted(Swept(t, now), key, limit, window, later) == Counted(t, key, limit, window, later)
  {}

  class Limiter {
    var entries: Table
    var ops: nat
    const maxKeys: nat

    constructor (maxKeys: nat)
      ensures entries == map[] && this.maxKeys == maxKeys
    {
      this.maxKeys := maxKeys;
      entries, ops := map[], 0;
    }

    method Sweep(now: int)
      modifies this`entries
      ensures entries == Swept(old(entries), now)
    {
      var rest := entries.Keys;
      while rest != {}
        invariant rest <= old(entries).Keys
        invariant forall k :: k in entries <==> k in old(entries) && (k in rest || LiveEntry(old(entries), k, now))
        invariant forall k :: k in entries ==> entries[k] == old(entries)[k]
        decreases rest
      {
        var candidate :| candidate in rest;
        rest := rest - {candidate};
        if entries[candidate].reset <= now {
          entries := entries - {candidate};
        }
      }
    }

    method Allow(key: Key, limit: nat, window: int, now: int)
      returns (ok: bool, retryAfter: int, ghost evicted: Option<Key>)
      modifies this
      ensures (ok, retryAfter) == Verdict(old(entries), key, limit, now)
      ensures Stepped(old(entries), key, limit, window, now, entries, evicted)
      ensures evicted.Some? ==> key !in Swept(old(entries), now) && |Swept(old(entries), now)| >= maxKeys
      ensures |old(entries)| <= maxKeys && maxKeys > 0 ==> |entries| <= maxKeys
    {
      hide Verdict, Stepped, Swept, Thinned;
      ghost var t := entries;
      evicted := None;
      ops := ops + 1;
      if ops % 1000 == 0 {
        Sweep(now);
        ThinnedSwept(t, t, now);
      }
      ghost var u := entries;
      if key !in entries || entries[key].reset <= now {
        if key !in entries && |entries| >= maxKeys {
          Sweep(now);
          ThinnedSwept(t, u, now);
          if |entries| >= maxKeys && entries != map[] {
            var candidate :| candidate in entries;
            evicted := Some(candidate);
            entries := entries - {candidate};
          }
        }
        NewEntry(t, entries, key, limit, window, now, evicted);
        entries := entries[key := Entry(1, now + window)];
        return true, 0, evicted;
      }
      OldEntry(t, u, key, limit, window, now);
      if entries[key].count >= limit {
        return false, entries[key].reset - now, evicted;
      }
      entries := entries[key := entries[key].(count := entries[key].count + 1)];
      return true, 0, evicted;
    }
  }

  /** A table that lost expired entries, and perhaps one sacrificed to capacity. */
  ghost predicate Thinned(t: Table, u: Table, now: int, evicted: Option<Key>) {
    && (forall k :: k in u ==> k in t && u[k] == t[k])
    && (forall k :: k in t && k !in u ==> !LiveEntry(t, k, now) || evicted == Some(k))
    && |u| <= |t|
  }

  lemma ThinnedSwept(t: Table, u: Table, now: int)
    requires Thinned(t, u, now, None)
    ensures Thinned(t, Swept(u, now), now, None) && Swept(u, now) == Swept(t, now) && |Swept(u, now)| <= |u|
  {
    assert Swept(u, now).Keys <= u.Keys;
    SubsetSize(Swept(u, now).Keys, u.Keys);
  }

  lemma NewEntry(t: Table, u: Table, key: Key, limit: nat, window: int, now: int, evicted: Option<Key>)
    requires Thinned(t, u, now, evicted) && !LiveEntry(t, key, now) && evicted != Some(key)
    ensures Stepped(t, key, limit, window, now, u[key := Entry(1, now + window)], evicted)
    ensures Verdict(t, key, limit, now) == (true, 0)
  {}

  lemma OldEntry(t: Table, u: Table, key: Key, limit: nat, window: int, now: int)
    requires Thinned(t, u, now, None) && LiveEntry(u, key, now)
    ensures u[key].count >= limit ==>
              Stepped(t, key, limit, window, now, u, None) && Verdict(t, key, limit, now) == (false, u[key].reset - now)
    ensures u[key].count < limit ==>
              Stepped(t, key, limit, window, now, u[key := u[key].(count := u[key].count + 1)], None)
                  && Verdict(t, key, limit, now) == (true, 0)
  {}

  // ---------------------------------------------------------- runs, by key

  /** A call in a run: `evicted` as reported by the limiter. */
  datatype Call = Call(key: Key, at: int, evicted: Option<Key>)

  /** The tables of a run in which every key has its own fixed limit and window. */
  ghost predicate Run(tables: seq<Table>, calls: seq<Call>, limit: Key -> nat, window: Key -> nat) {
    && |tables| == |calls| + 1 && tables[0] == map[]
    && (forall i :: 0 <= i < |calls| ==>
          Stepped(tables[i], calls[i].key, limit(calls[i].key), window(calls[i].key), calls[i].at, tables[i + 1],
              calls[i].evicted))
    && (forall i :: 0 <= i < |calls| - 1 ==> calls[i].at <= calls[i + 1].at)
  }

  /** When the key was admitted, among the first `n` calls. */
  function Admitted(tables: seq<Table>, calls: seq<Call>, key: Key, limit: nat, n: nat): seq<int>
    requires n <= |calls| < |tables|
  {
    if n == 0 then []
    else
      var c := calls[n - 1];
      Admitted(tables, calls, key, limit, n - 1)
      + if c.key == key && Verdict(tables[n - 1], key, limit, c.at).0 then [c.at] else []
  }

  function Within(times: seq<int>, from: int, to: int): nat {
    if times == [] then 0
    else Within(times[..|times| - 1], from, to) + if from <= times[|times| - 1] < to then 1 else 0
  }

  function Since(times: seq<int>, from: int): nat {
    if times == [] then 0 else Since(times[..|times| - 1], from) + if from <= times[|times| - 1] then 1 else 0
  }

  /** The capacity branch never takes a live entry of this key. */
  predicate Spared(tables: seq<Table>, calls: seq<Call>, key: Key)
    requires |calls| < |tables|
  {
    forall i :: 0 <= i < |calls| && calls[i].evicted == Some(key) ==> !LiveEntry(tables[i], key, calls[i].at)
  }

  /** Admissions in the half-open interval of one window's length from `t`. */
  function Burst(times: seq<int>, t: int, window: nat): nat {
    Within(times, t, t + window)
  }

  /** What holds of one key's admissions when its last window opened at `start`. */
  ghost predicate Paced(times: seq<int>, start: int, limit: nat, window: nat) {
    && Since(times, start) <= limit
    && Within(times, start - window, start) <= limit
    && (forall x :: x in times ==> x < start + window)
    && (forall t :: Burst(times, t, window) <= 2 * limit)
  }

  lemma {:induction false} SinceMonotone(times: seq<int>, a: int, b: int)
    requires a <= b
    ensures Since(times, b) <= Since(times, a)
  {
    if times != [] {
      SinceMonotone(times[..|times| - 1], a, b);
    }
  }

  lemma {:induction false} SinceSplit(times: seq<int>, a: int, b: int)
    requires a <= b
    ensures Since(times, a) == Within(times, a, b) + Since(times, b)
  {
    if times != [] {
      SinceSplit(times[..|times| - 1], a, b);
    }
  }

  lemma {:induction false} SinceNone(times: seq<int>, from: int)
    requires forall x :: x in times ==> x < from
    ensures Since(times, from) == 0
  {
    if times != [] {
      var n := |times| - 1;
      assert times[n] in times;
      forall x | x in times[..n] ensures x < from {
        assert x in times;
      }
      SinceNone(times[..n], from);
    }
  }

  lemma Appended(times: seq<int>, at: int, a: int, b: int)
    ensures Since(times + [at], a) == Since(times, a) + if a <= at then 1 else 0
    ensures Within(times + [at], a, b) == Within(times, a, b) + if a <= at < b then 1 else 0
  {
    assert (times + [at])[..|times|] == times;
  }

  /** One more admission in the open window. */
  lemma PacedMore(times: seq<int>, start: int, limit: nat, window: nat, at: int)
    requires Paced(times, start, limit, window) && start <= at < start + window && Since(times, start) < limit
    ensures Paced(times + [at], start, limit, window)
  {
    hide Within, Since;
    Appended(times, at, start, start);
    Appended(times, at, start - window, start);
    SinceSplit(times, start - window, start);
    forall t ensures Burst(times + [at], t, window) <= 2 * limit {
      Appended(times, at, t, t + window);
      assert Burst(times, t, window) <= 2 * limit;
      if t <= at < t + window {
        SinceMonotone(times, start - window, t);
        SinceSplit(times, t, t + window);
      }
    }
  }

  /** The first admission of a new window, the last one having run out. */
  lemma PacedAnew(times: seq<int>, start: int, limit: nat, window: nat, at: int)
    requires Paced(times, start, limit, window) && start + window <= at && limit > 0 && window > 0
    ensures Paced(times + [at], at, limit, window) && Since(times + [at], at) == 1
  {
    hide Within, Since;
    Appended(times, at, at, at);
    Appended(times, at, at - window, at);
    SinceNone(times, at);
    SinceMonotone(times, start, at - window);
    SinceSplit(times, at - window, at);
    forall t ensures Burst(times + [at], t, window) <= 2 * limit {
      Appended(times, at, t, t + window);
      assert Burst(times, t, window) <= 2 * limit;
      if t <= at < t + window {
        SinceMonotone(times, start, t);
        SinceSplit(times, t, t + window);
      }
    }
  }

  /** The key's entry in the table describes its last window. */
  ghost predicate Tracks(t: Table, key: Key, times: seq<int>, start: int, limit: nat, window: nat, now: int) {
    && Paced(times, start, limit, window)
    && (key in t ==> t[key].reset == start + window && Since(times, start) == t[key].count <= limit && start <= now)
    && (key !in t ==> start + window <= now)
  }

  lemma CallTracks(t: Table, key: Key, times: seq<int>, start: int, limit: nat, window: nat, before: int, c: Call,
                   climit: nat, cwindow: int, t': Table)
    returns (start': int)
    requires Tracks(t, key, times, start, limit, window, before) && before <= c.at && limit > 0 && window > 0
    requires Stepped(t, c.key, climit, cwindow, c.at, t', c.evicted)
    requires c.key == key ==> climit == limit && cwindow == window
    requires c.evicted == Some(key) ==> !LiveEntry(t, key, c.at)
    ensures Tracks(t', key, times + if c.key == key && Verdict(t, key, limit, c.at).0 then [c.at]
            else [], start', limit, window, c.at)
  {
    hide Paced, Since;
    start' := start;
    assert times + [] == times;
    if c.key == key {
      if !LiveEntry(t, key, c.at) {
        start' := c.at;
        PacedAnew(times, start, limit, window, c.at);
      } else if t[key].count < limit {
        PacedMore(times, start, limit, window, c.at);
        Appended(times, c.at, start, start);
      }
    }
  }

  lemma {:induction false} RunTracks(tables: seq<Table>, calls: seq<Call>, limit: Key -> nat, window: Key -> nat,
                                     key: Key, n: nat) returns (start: int)
    requires Run(tables, calls, limit, window) && Spared(tables, calls, key) && 0 < n <= |calls| && limit(key) > 0
             && window(key) > 0
    ensures Tracks(tables[n], key, Admitted(tables, calls, key, limit(key), n), start, limit(key), window(key),
            calls[n - 1].at)
  {
    var c := calls[n - 1];
    var l, w := limit(key), window(key);
    if n == 1 {
      assert Tracks(tables[0], key, [], c.at - w, l, w, c.at);
      assert Admitted(tables, calls, key, l, 0) == [];
      start := CallTracks(tables[0], key, [], c.at - w, l, w, c.at, c, limit(c.key), window(c.key), tables[1]);
    } else {
      var s := RunTracks(tables, calls, limit, window, key, n - 1);
      assert calls[n - 2].at <= calls[n - 1].at;
      start := CallTracks(tables[n - 1], key, Admitted(tables, calls, key, l, n - 1), s, l, w, calls[n - 2].at, c,
          limit(c.key), window(c.key), tables[n]);
    }
  }

  /** At most twice the limit in any half-open interval of a window's length, in
      every run that spares the key's live entry. */
  lemma AtMostTwice(tables: seq<Table>, calls: seq<Call>, limit: Key -> nat, window: Key -> nat, key: Key, from: int)
    requires Run(tables, calls, limit, window) && Spared(tables, calls, key) && limit(key) > 0 && window(key) > 0
    ensures Within(Admitted(tables, calls, key, limit(key), |calls|), from, from + window(key)) <= 2 * limit(key)
  {
    if |calls| > 0 {
      var start := RunTracks(tables, calls, limit, window, key, |calls|);
      assert Burst(Admitted(tables, calls, key, limit(key), |calls|), from, window(key)) <= 2 * limit(key);
    }
  }

  // ------------------------------------------------------- and never too few

  /** No entry counts a call that was not admitted in its window. */
  ghost predicate CountsOnly(t: Table, key: Key, times: seq<int>, window: nat, now: int) {
    key in t ==> t[key].reset <= now + window && t[key].count <= Since(times, t[key].reset - window)
  }

  lemma CallCounts(t: Table, key: Key, times: seq<int>, limit: nat, window: nat, before: int, c: Call, climit: nat,
                   cwindow: int, t': Table)
    requires CountsOnly(t, key, times, window, before) && before <= c.at
    requires Stepped(t, c.key, climit, cwindow, c.at, t', c.evicted)
    requires c.key == key ==> climit == limit && cwindow == window
    ensures limit > 0 ==> CountsOnly(t', key, times + if c.key == key && Verdict(t, key, limit, c.at).0 then [c.at]
            else [], window, c.at)
  {
    hide Since;
    assert times + [] == times;
    Appended(times, c.at, c.at, c.at);
    if key in t {
      Appended(times, c.at, t[key].reset - window, c.at);
    }
  }

  lemma {:induction false} RunCounts(tables: seq<Table>, calls: seq<Call>, limit: Key -> nat, window: Key -> nat,
                                     key: Key, n: nat)
    requires Run(tables, calls, limit, window) && 0 < n <= |calls| && limit(key) > 0
    ensures CountsOnly(tables[n], key, Admitted(tables, calls, key, limit(key), n), window(key), calls[n - 1].at)
  {
    hide CountsOnly, Stepped, Verdict;
    var c := calls[n - 1];
    var before := if n == 1 then c.at else calls[n - 2].at;
    if n == 1 {
      NothingCounted(tables[0], key, window(key), before);
      assert Admitted(tables, calls, key, limit(key), 0) == [];
    } else {
      RunCounts(tables, calls, limit, window, key, n - 1);
      assert calls[n - 2].at <= calls[n - 1].at;
    }
    CallCounts(tables[n - 1], key, Admitted(tables, calls, key, limit(key), n - 1), limit(key), window(key), before, c,
        limit(c.key), window(c.key), tables[n]);
  }

  lemma NothingCounted(t: Table, key: Key, window: nat, now: int)
    requires t == map[]
    ensures CountsOnly(t, key, [], window, now)
  {}

  /** A call is refused only after `limit` of its key's calls were admitted within the
      last window, evicted or not; and whoever waits as long as told is admitted. */
  lemma RefusedOnlyWhenFull(tables: seq<Table>, calls: seq<Call>, limit: Key -> nat, window: Key -> nat, n: nat)
    requires Run(tables, calls, limit, window) && n < |calls| && limit(calls[n].key) > 0
    requires !Verdict(tables[n], calls[n].key, limit(calls[n].key), calls[n].at).0
    ensures var c := calls[n];
            var wait := Verdict(tables[n], c.key, limit(c.key), c.at).1;
            && Since(Admitted(tables, calls, c.key, limit(c.key), n), c.at - window(c.key)) >= limit(c.key)
            && 0 < wait <= window(c.key)
            && forall t: Table, later :: (c.key in t ==> c.key in tables[n] && t[c.key] == tables[n][c.key])
                                         && later >= c.at + wait
                 ==> Verdict(t, c.key, limit(c.key), later).0
  {
    var c := calls[n];
    assert n > 0;
    RunCounts(tables, calls, limit, window, c.key, n);
    assert calls[n - 1].at <= calls[n].at;
    var times := Admitted(tables, calls, c.key, limit(c.key), n);
    SinceMonotone(times, c.at - window(c.key), tables[n][c.key].reset - window(c.key));
  }
}
