/** internal/auth/throttle.go: backoff per account on failed logins. */
module Throttle {
  import opened Prelude

  type Key = string

  /** Times are milliseconds. */
  const MAX_KEYS: nat := 50000
  const THRESHOLD: nat := 5
  const BASE_LOCK: int := 60 * 1000
  const MAX_LOCK: int := 15 * 60 * 1000
  const IDLE_TTL: int := 30 * 60 * 1000

  /** `lockUntil` is None until the threshold is reached. */
  datatype Record = Record(failures: nat, lockUntil: Option<int>, updatedAt: int)

  type Records = map<Key, Record>

  function Pow2(n: nat): nat {
    if n == 0 then 1 else 2 * Pow2(n - 1)
  }

  /** How long the k-th consecutive failure locks the account: not before the
      fifth, then 1, 2, 4 and 8 minutes, and 15 from the ninth on. */
  function LockFor(failures: nat): (lock: int)
    ensures failures < 5 ==> lock == 0
    ensures failures == 5 ==> lock == 60_000
    ensures failures == 6 ==> lock == 120_000
    ensures failures == 7 ==> lock == 240_000
    ensures failures == 8 ==> lock == 480_000
    ensures failures >= 9 ==> lock == 900_000
  {
    if failures < THRESHOLD then 0
    else
      var lock := BASE_LOCK * Pow2(if failures - THRESHOLD < 4 then failures - THRESHOLD else 4);
      assert Pow2(0) == 1 && Pow2(1) == 2 && Pow2(2) == 4 && Pow2(3) == 8 && Pow2(4) == 16;
      if lock > MAX_LOCK then MAX_LOCK else lock
  }

  /** From the threshold on each lock is twice the one before, up to the maximum. */
  lemma LockDoubles(failures: nat)
    requires failures >= THRESHOLD
    ensures LockFor(THRESHOLD) == BASE_LOCK
    ensures LockFor(failures + 1) == if 2 * LockFor(failures) > MAX_LOCK then MAX_LOCK else 2 * LockFor(failures)
    ensures BASE_LOCK <= LockFor(failures) <= LockFor(failures + 1) <= MAX_LOCK
  {}

  predicate Locked(r: Record, now: int) {
    r.lockUntil.Some? && r.lockUntil.value > now
  }

  predicate Stale(r: Record, now: int) {
    !Locked(r, now) && now - r.updatedAt >= IDLE_TTL
  }

  /** What evict leaves. */
  function Fresh(records: Records, now: int): Records {
    map k | k in records && !Stale(records[k], now) :: records[k]
  }

  /** Eviction drops a record exactly if its lock has run out, or never ran, and the
      account has been idle for half an hour; it never drops a running lock. */
  lemma EvictKeepsLocks(records: Records, key: Key, now: int)
    requires key in records
    ensures var r := records[key];
            key !in Fresh(records, now)
            <==> (r.lockUntil == None || r.lockUntil.value <= now) && r.updatedAt + 1_800_000 <= now
    ensures Locked(records[key], now) ==> key in Fresh(records, now) && Fresh(records, now)[key] == records[key]
  {}

  function Before(records: Records, key: Key): Record {
    if key in records then records[key] else Record(0, None, 0)
  }

  function Failed(r: Record, now: int): Record {
    Record(r.failures + 1,
           if r.failures + 1 >= THRESHOLD then Some(now + LockFor(r.failures + 1)) else r.lockUntil,
           now)
  }

  class LoginThrottle {
    var records: Records

    constructor ()
      ensures records == map[]
    {
      records := map[];
    }

    method RetryAfter(key: Key, now: int) returns (wait: int, blocked: bool)
      ensures blocked <==> key in records && Locked(records[key], now)
      ensures wait == if blocked then records[key].lockUntil.value - now else 0
      ensures blocked ==> wait > 0
    {
      if key !in records { return 0, false; }
      var state := records[key];
      if state.lockUntil.Some? && state.lockUntil.value > now {
        return state.lockUntil.value - now, true;
      }
      return 0, false;
    }

    method Evict(now: int)
      modifies this
      ensures records == Fresh(old(records), now)
    {
      var rest := records.Keys;
      while rest != {}
        invariant rest <= old(records).Keys
        invariant forall k :: k in records <==> k in old(records) && (k in rest || !Stale(old(records)[k], now))
        invariant forall k :: k in records ==> records[k] == old(records)[k]
        decreases rest
      {
        var key :| key in rest;
        rest := rest - {key};
        var state := records[key];
        if state.lockUntil.Some? && state.lockUntil.value > now { continue; }
        if now - state.updatedAt >= IDLE_TTL {
          records := records - {key};
        }
      }
    }

    method Fail(key: Key, now: int)
      modifies this
      ensures records == AfterFail(old(records), key, now)
      ensures |old(records)| <= MAX_KEYS ==> |records| <= MAX_KEYS
      ensures key in old(records) && !Stale(old(records)[key], now) ==>
                && key in records && records[key].failures == old(records)[key].failures + 1
                && records[key].updatedAt == now
      ensures key in old(records) && Stale(old(records)[key], now) && key in records ==> records[key].failures == 1
      ensures key !in old(records) && key in records ==> records[key].failures == 1
      ensures key !in records ==> |records| >= MAX_KEYS
      ensures key in records && records[key].failures >= 5 ==>
                records[key].lockUntil == Some(now + LockFor(records[key].failures))
    {
      FreshSmaller(records, now);
      Evict(now);
      var tracked := key in records;
      if !tracked && |records| >= MAX_KEYS { return; }
      var state := Before(records, key);
      var failures := state.failures + 1;
      var lockUntil := state.lockUntil;
      if failures >= THRESHOLD {
        var lock := BASE_LOCK * Pow2(if failures - THRESHOLD < 4 then failures - THRESHOLD else 4);
        if lock > MAX_LOCK {
          lock := MAX_LOCK;
        }
        lockUntil := Some(now + lock);
      }
      records := records[key := Record(failures, lockUntil, now)];
    }

    method Success(key: Key)
      modifies this
      ensures records == old(records) - {key}
    {
      records := records - {key};
    }
  }

  lemma FreshSmaller(records: Records, now: int)
    ensures |Fresh(records, now)| <= |records|
  {
    assert Fresh(records, now).Keys <= records.Keys;
    SubsetSize(Fresh(records, now).Keys, records.Keys);
  }

  // ----------------------------------------------------------- runs, by account

  /** What happens to one account, in order: a login that was let through and
      failed, a success, or a failure elsewhere that swept the table. */
  datatype Event = Failure(at: int) | Success(at: int) | Elsewhere(at: int)

  /** One account's record, with the failures since its last success and, for
      each, how many failures the record held after it. */
  datatype Account = Account(record: Option<Record>, streak: seq<int>, counts: seq<nat>, clock: int)

  function Swept(record: Option<Record>, now: int): Option<Record> {
    if record.Some? && Stale(record.value, now) then None else record
  }

  /** A failed login happens only when the account is not locked. */
  predicate Possible(a: Account, e: Event) {
    a.clock <= e.at && (e.Failure? ==> a.record.None? || !Locked(a.record.value, e.at))
  }

  /** The table is below capacity, so a failure is always recorded. */
  function Next(a: Account, e: Event): Account {
    match e
    case Success(at) => Account(None, [], [], at)
    case Elsewhere(at) => a.(record := Swept(a.record, at), clock := at)
    case Failure(at) =>
      var kept := Swept(a.record, at);
      var r := Failed(if kept.Some? then kept.value else Record(0, None, 0), at);
      Account(Some(r), a.streak + [at], a.counts + [r.failures], at)
  }

  function RecordOf(records: Records, key: Key): Option<Record> {
    if key in records then Some(records[key]) else None
  }

  /** The table after Fail, as its method states it. */
  function AfterFail(records: Records, key: Key, now: int): Records {
    var kept := Fresh(records, now);
    if key !in kept && |kept| >= MAX_KEYS then kept else kept[key := Failed(Before(kept, key), now)]
  }

  /** Below capacity the table shows each account what the run says: the failing
      one its failure, every other one a failure elsewhere. */
  lemma FailSeenByAccounts(records: Records, key: Key, other: Key, now: int, a: Account, b: Account)
    requires |Fresh(records, now)| < MAX_KEYS && other != key
    requires a.record == RecordOf(records, key) && b.record == RecordOf(records, other)
    ensures RecordOf(AfterFail(records, key, now), key) == Next(a, Failure(now)).record
    ensures RecordOf(AfterFail(records, key, now), other) == Next(b, Elsewhere(now)).record
  {}

  /** The record is the tail of the streak; if it is gone, the account was idle. */
  ghost predicate Recorded(a: Account) {
    && |a.counts| == |a.streak|
    && (a.streak != [] ==> a.streak[|a.streak| - 1] <= a.clock)
    && (a.record.Some? ==>
          && a.streak != []
          && a.record.value.updatedAt == a.streak[|a.streak| - 1]
          && a.record.value.failures == a.counts[|a.counts| - 1]
          && (a.record.value.failures >= THRESHOLD
              ==> a.record.value.lockUntil == Some(a.record.value.updatedAt + LockFor(a.record.value.failures))))
    && (a.record.None? && a.streak != [] ==> a.clock - a.streak[|a.streak| - 1] >= IDLE_TTL)
  }

  /** Between two consecutive failures: either the count goes on and the lock has
      been waited out, or the record was dropped after a long silence. */
  predicate Spaced(a: Account, p: nat)
    requires |a.counts| == |a.streak| && p + 1 < |a.streak|
  {
    var gap := a.streak[p + 1] - a.streak[p];
    || (a.counts[p + 1] == a.counts[p] + 1 && gap >= LockFor(a.counts[p]))
    || (a.counts[p + 1] == 1 && gap >= IDLE_TTL)
  }

  ghost predicate Steady(a: Account) {
    && Recorded(a)
    && (a.counts != [] ==> a.counts[0] == 1)
    && forall p :: 0 <= p && p + 1 < |a.streak| ==> Spaced(a, p)
  }

  lemma StepSteady(a: Account, e: Event)
    requires Steady(a) && Possible(a, e)
    ensures Steady(Next(a, e))
  {
    var b := Next(a, e);
    forall p | 0 <= p && p + 1 < |b.streak| ensures Spaced(b, p) {
      if p + 1 < |a.streak| {
        assert Spaced(a, p);
      }
    }
  }

  ghost predicate Run(states: seq<Account>, events: seq<Event>) {
    && |states| == |events| + 1 && states[0].record == None && states[0].streak == [] && states[0].counts == []
    && forall i :: 0 <= i < |events| ==> Possible(states[i], events[i]) && states[i + 1] == Next(states[i], events[i])
  }

  lemma {:induction false} RunSteady(states: seq<Account>, events: seq<Event>, k: nat)
    requires Run(states, events) && k < |states|
    ensures Steady(states[k])
  {
    if k > 0 {
      RunSteady(states, events, k - 1);
      StepSteady(states[k - 1], events[k - 1]);
    }
  }

  /** After the k-th recorded failure the next attempt that gets through comes at
      least the k-th lock later; eviction in between only means a longer wait. */
  lemma WaitsOutTheLock(states: seq<Account>, events: seq<Event>, k: nat, p: nat)
    requires Run(states, events) && k < |states| && |states[k].counts| == |states[k].streak|
             && p + 1 < |states[k].streak|
    ensures states[k].streak[p + 1] - states[k].streak[p] >= LockFor(states[k].counts[p])
  {
    RunSteady(states, events, k);
    assert Spaced(states[k], p);
  }

  /** Unless the account was once silent for the idle time, the record holds every
      failure of the streak, so the attempt after the k-th waits out the k-th lock. */
  lemma KthFailureLocks(states: seq<Account>, events: seq<Event>, k: nat, p: nat)
    requires Run(states, events) && k < |states| && p + 1 < |states[k].streak|
    requires forall j :: 0 <= j < p ==> Gap(states[k], j) < IDLE_TTL
    ensures |states[k].counts| == |states[k].streak| && states[k].counts[p] == p + 1
    ensures p == 4 ==> Gap(states[k], p) >= 60_000
    ensures p == 5 ==> Gap(states[k], p) >= 120_000
    ensures p == 6 ==> Gap(states[k], p) >= 240_000
    ensures p == 7 ==> Gap(states[k], p) >= 480_000
    ensures p >= 8 ==> Gap(states[k], p) >= 900_000
  {
    RunSteady(states, events, k);
    EveryFailureCounted(states[k], p);
    WaitsOutTheLock(states, events, k, p);
  }

  lemma {:induction false} EveryFailureCounted(a: Account, p: nat)
    requires Steady(a) && p < |a.streak|
    requires forall j :: 0 <= j < p ==> Gap(a, j) < IDLE_TTL
    ensures a.counts[p] == p + 1
  {
    if p > 0 {
      EveryFailureCounted(a, p - 1);
      assert Spaced(a, p - 1) && Gap(a, p - 1) < IDLE_TTL;
    }
  }

  /** Any six consecutive failures that were let through, with no success between
      them, contain a gap of at least the base lock. */
  lemma SixFailuresPause(states: seq<Account>, events: seq<Event>, k: nat, i: nat)
    requires Run(states, events) && k < |states| && i + 5 < |states[k].streak|
    ensures exists j :: i <= j < i + 5 && Gap(states[k], j) >= BASE_LOCK
  {
    RunSteady(states, events, k);
    var a := states[k];
    GrowOrGap(a, i, 4);
    if a.counts[i + 4] >= THRESHOLD {
      assert Spaced(a, i + 4);
      assert Gap(a, i + 4) >= BASE_LOCK;
    } else {
      var j :| i <= j < i + 4 && Gap(a, j) >= BASE_LOCK;
    }
  }

  function Gap(a: Account, j: nat): int
    requires j + 1 < |a.streak|
  {
    a.streak[j + 1] - a.streak[j]
  }

  /** Failures either add up or leave a gap. */
  lemma {:induction false} GrowOrGap(a: Account, i: nat, n: nat)
    requires Steady(a) && i + n < |a.streak|
    ensures a.counts[i + n] >= n + 1 || exists j :: i <= j < i + n && Gap(a, j) >= BASE_LOCK
  {
    if n == 0 {
      CountsPositive(a, i);
    } else {
      GrowOrGap(a, i, n - 1);
      assert Spaced(a, i + n - 1);
      if a.counts[i + n] < n + 1 {
        if a.counts[i + n - 1] >= n {
          assert Gap(a, i + n - 1) >= BASE_LOCK;
        }
      }
    }
  }

  lemma {:induction false} CountsPositive(a: Account, p: nat)
    requires Steady(a) && p < |a.counts|
    ensures a.counts[p] >= 1
  {
    if p > 0 {
      assert Spaced(a, p - 1);
      CountsPositive(a, p - 1);
    }
  }
}
