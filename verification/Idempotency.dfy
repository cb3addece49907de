/** internal/idempotency/service.go: a record per (scope, key) is a 24-hour lease.
    The importer uses the same table with a record written in its own transaction. */
module Idempotency {
  import opened Prelude

  datatype Slot = Slot(scope: string, key: string)

  type Hash = nat

  /** `response` is None until the holder completes. */
  datatype Row<+R> = Row(actor: string, hash: Hash, response: Option<R>, expires: int)

  type Records<R> = map<Slot, Row<R>>

  /** Milliseconds. */
  const LEASE: int := 24 * 60 * 60 * 1000

  datatype Refusal = InvalidKey | Conflict | InProgress

  datatype Outcome<+R> = Granted | Replayed(response: R) | Refused(why: Refusal)

  predicate ValidCall(slot: Slot, actor: string) {
    16 <= |slot.key| <= 128 && 0 < |slot.scope| <= 100 && actor != ""
  }

  predicate Live<R>(records: Records<R>, slot: Slot, now: int) {
    slot in records && records[slot].expires > now
  }

  /** The record of a slot that has not run out. */
  function Current<R>(records: Records<R>, slot: Slot, now: int): Option<Row<R>> {
    if slot in records && now < records[slot].expires then Some(records[slot]) else None
  }

  /** What a caller is told, by the live record alone. */
  function Answer<R>(records: Records<R>, slot: Slot, actor: string, hash: Hash, now: int): Outcome<R> {
    if !ValidCall(slot, actor) then Refused(InvalidKey)
    else if !Live(records, slot, now) then Granted
    else if records[slot].actor != actor || records[slot].hash != hash then Refused(Conflict)
    else if records[slot].response == None then Refused(InProgress)
    else Replayed(records[slot].response.value)
  }

  /** Complete and Abort find the record by holder, not by lease. */
  predicate Held<R>(records: Records<R>, slot: Slot, actor: string, hash: Hash) {
    slot in records && records[slot].actor == actor && records[slot].hash == hash && records[slot].response == None
  }

  function AfterBegin<R>(records: Records<R>, slot: Slot, actor: string, hash: Hash, now: int): Records<R> {
    if Answer(records, slot, actor, hash, now) == Granted then records[slot := Row(actor, hash, None, now + LEASE)]
    else records
  }

  function AfterComplete<R>(records: Records<R>, slot: Slot, actor: string, hash: Hash, response: R): Records<R> {
    if Held(records, slot, actor, hash) then records[slot := records[slot].(response := Some(response))] else records
  }

  function AfterAbort<R>(records: Records<R>, slot: Slot, actor: string, hash: Hash): Records<R> {
    if Held(records, slot, actor, hash) then records - {slot} else records
  }

  class Service<R(==)> {
    var records: Records<R>

    constructor ()
      ensures records == map[]
    {
      records := map[];
    }

    method Begin(slot: Slot, actor: string, hash: Hash, now: int) returns (outcome: Outcome<R>)
      modifies this
      ensures outcome == Answer(old(records), slot, actor, hash, now)
      ensures records == AfterBegin(old(records), slot, actor, hash, now)
      ensures 16 <= |slot.key| <= 128 && 0 < |slot.scope| <= 100 && actor != "" ==>
                match Current(old(records), slot, now)
                case None => outcome == Granted && records == old(records)[slot := Row(actor, hash, None, now + LEASE)]
                case Some(row) =>
                  && records == old(records)
                  && if row.actor != actor || row.hash != hash then outcome == Refused(Conflict)
                     else outcome == match row.response case None => Refused(InProgress) case Some(v) => Replayed(v)
    {
      if |slot.key| < 16 || |slot.key| > 128 || slot.scope == "" || |slot.scope| > 100 || actor == "" {
        return Refused(InvalidKey);
      }
      if slot in records && records[slot].expires <= now {
        records := records - {slot};
      }
      if slot in records {
        var stored := records[slot];
        if stored.actor != actor || stored.hash != hash {
          return Refused(Conflict);
        }
        if stored.response == None {
          return Refused(InProgress);
        }
        return Replayed(stored.response.value);
      }
      records := records[slot := Row(actor, hash, None, now + LEASE)];
      return Granted;
    }

    method Complete(slot: Slot, actor: string, hash: Hash, status: int, response: R) returns (ok: bool)
      modifies this
      ensures ok <==> 200 <= status <= 599 && Held(old(records), slot, actor, hash)
      ensures records == if ok then AfterComplete(old(records), slot, actor, hash, response) else old(records)
    {
      if status < 200 || status > 599 { return false; }
      ok := Held(records, slot, actor, hash);
      if ok {
        records := records[slot := records[slot].(response := Some(response))];
      }
    }

    method Abort(slot: Slot, actor: string, hash: Hash)
      modifies this
      ensures records == AfterAbort(old(records), slot, actor, hash)
    {
      if Held(records, slot, actor, hash) {
        records := records - {slot};
      }
    }
  }

  // ------------------------------------------------------- runs of the lease

  datatype Status<+R> = Open | Completed(response: R) | Aborted

  /** A reservation handed out, with what its holder did with it. */
  datatype Grant<+R> = Grant(slot: Slot, actor: string, hash: Hash, expires: int, status: Status<R>)

  datatype State<R> = State(records: Records<R>, grants: map<nat, Grant<R>>, clock: int)

  datatype Event<+R> =
    | BeginCall(id: nat, slot: Slot, actor: string, hash: Hash, at: int)
    | CompleteCall(id: nat, response: R, at: int)
    | AbortCall(id: nat, at: int)

  predicate Possible<R>(s: State<R>, e: Event<R>) {
    && s.clock <= e.at
    && (e.BeginCall? ==> e.id !in s.grants)
    && (!e.BeginCall? ==> e.id in s.grants && s.grants[e.id].status.Open?)
  }

  function Next<R>(s: State<R>, e: Event<R>): State<R>
    requires Possible(s, e)
  {
    match e
    case BeginCall(id, slot, actor, hash, at) =>
      State(AfterBegin(s.records, slot, actor, hash, at),
            if Answer(s.records, slot, actor, hash, at) == Granted
            then s.grants[id := Grant(slot, actor, hash, at + LEASE, Open)] else s.grants,
            at)
    case CompleteCall(id, response, at) =>
      var g := s.grants[id];
      State(AfterComplete(s.records, g.slot, g.actor, g.hash, response),
            if Held(s.records, g.slot, g.actor, g.hash) then s.grants[id := g.(status := Completed(response))]
            else s.grants,
            at)
    case AbortCall(id, at) =>
      var g := s.grants[id];
      State(AfterAbort(s.records, g.slot, g.actor, g.hash), s.grants[id := g.(status := Aborted)], at)
  }

  /** The holder settles before its lease runs out. */
  predicate Prompt<R>(s: State<R>, e: Event<R>)
    requires Possible(s, e)
  {
    !e.BeginCall? ==> e.at < s.grants[e.id].expires
  }

  /** A lease still in force: neither aborted nor run out. */
  predicate Holding<R>(s: State<R>, id: nat, now: int) {
    id in s.grants && !s.grants[id].status.Aborted? && s.grants[id].expires > now
  }

  function RowOf<R>(g: Grant<R>): Row<R> {
    Row(g.actor, g.hash, if g.status.Completed? then Some(g.status.response) else None, g.expires)
  }

  /** Every lease in force owns its slot's record, so no slot has two. */
  ghost predicate Leased<R>(s: State<R>) {
    && (forall id :: Holding(s, id, s.clock)
         ==> s.grants[id].slot in s.records && s.records[s.grants[id].slot] == RowOf(s.grants[id]))
    && (forall i, j :: i != j && Holding(s, i, s.clock) && Holding(s, j, s.clock)
         ==> s.grants[i].slot != s.grants[j].slot)
  }

  lemma StepLeased<R>(s: State<R>, e: Event<R>)
    requires Leased(s) && Possible(s, e) && Prompt(s, e)
    ensures Leased(Next(s, e))
  {
    var t := Next(s, e);
    forall id | Holding(t, id, t.clock) && id in s.grants ensures Holding(s, id, s.clock) {}
  }

  ghost predicate Run<R>(states: seq<State<R>>, events: seq<Event<R>>) {
    && |states| == |events| + 1
    && states[0].records == map[] && states[0].grants == map[]
    && forall i :: 0 <= i < |events| ==> Possible(states[i], events[i]) && states[i + 1] == Next(states[i], events[i])
  }

  ghost predicate PromptRun<R>(states: seq<State<R>>, events: seq<Event<R>>) {
    && Run(states, events)
    && forall i :: 0 <= i < |events| ==> Prompt(states[i], events[i])
  }

  lemma {:induction false} RunLeased<R>(states: seq<State<R>>, events: seq<Event<R>>, k: nat)
    requires PromptRun(states, events) && k < |states|
    ensures Leased(states[k])
  {
    if k > 0 {
      RunLeased(states, events, k - 1);
      StepLeased(states[k - 1], events[k - 1]);
    }
  }

  /** Two grants of one slot are separated by an abort or by expiry. */
  lemma GrantsSeparated<R>(states: seq<State<R>>, events: seq<Event<R>>, k: nat, earlier: nat)
    requires PromptRun(states, events) && k < |events|
    requires events[k].BeginCall? && earlier in states[k].grants && states[k].grants[earlier].slot == events[k].slot
    requires Answer(states[k].records, events[k].slot, events[k].actor, events[k].hash, events[k].at) == Granted
    ensures states[k].grants[earlier].status.Aborted? || states[k].grants[earlier].expires <= events[k].at
  {
    RunLeased(states, events, k);
    assert Possible(states[k], events[k]);
    if Holding(states[k], earlier, events[k].at) {
      assert Holding(states[k], earlier, states[k].clock);
    }
  }

  /** A completed grant keeps its response for good. */
  lemma {:induction false} CompletedPersists<R>(states: seq<State<R>>, events: seq<Event<R>>, i: nat, k: nat, id: nat)
    requires Run(states, events) && i <= k < |states|
    requires id in states[i].grants && states[i].grants[id].status.Completed?
    ensures id in states[k].grants && states[k].grants[id] == states[i].grants[id]
    ensures states[i].clock <= states[k].clock
    decreases k - i
  {
    if i < k {
      assert Possible(states[i], events[i]) && states[i + 1] == Next(states[i], events[i]);
      CompletedPersists(states, events, i + 1, k, id);
    }
  }

  /** Until the lease runs out, the same caller with the same request is replayed
      exactly what was stored and anybody else is refused. */
  lemma ReplaysExactly<R>(states: seq<State<R>>, events: seq<Event<R>>, i: nat, k: nat, id: nat)
    requires PromptRun(states, events) && i <= k < |events|
    requires id in states[i].grants && states[i].grants[id].status.Completed?
    requires events[k].BeginCall? && events[k].slot == states[i].grants[id].slot
             && events[k].at < states[i].grants[id].expires
    ensures var g, e := states[i].grants[id], events[k];
            Answer(states[k].records, e.slot, e.actor, e.hash, e.at)
            == if !ValidCall(e.slot, e.actor) then Refused(InvalidKey)
               else if e.actor == g.actor && e.hash == g.hash then Replayed(g.status.response) else Refused(Conflict)
  {
    CompletedPersists(states, events, i, k, id);
    RunLeased(states, events, k);
    assert Possible(states[k], events[k]);
    assert Holding(states[k], id, states[k].clock);
  }

  /** An Abort, early or late, takes the record of another lease in force exactly
      when that lease is open and was granted for the same slot, actor and request. */
  lemma AbortTakesAnother<R>(s: State<R>, e: Event<R>, other: nat)
    requires Leased(s) && e.AbortCall? && Possible(s, e)
    requires other != e.id && Holding(s, other, e.at)
    ensures s.grants[other].slot !in Next(s, e).records
            <==> var a, b := s.grants[e.id], s.grants[other];
                 b.status.Open? && a.slot == b.slot && a.actor == b.actor && a.hash == b.hash
  {
    assert Holding(s, other, s.clock);
  }

  /** A Complete, early or late, answers under the lease of another exactly when that
      lease is open and was granted for the same slot, actor and request; from then
      on every repeat is answered with the response of the wrong holder. */
  lemma CompleteAnswersForAnother<R>(s: State<R>, e: Event<R>, other: nat)
    requires Leased(s) && e.CompleteCall? && Possible(s, e)
    requires other != e.id && Holding(s, other, e.at)
    ensures var a, b := s.grants[e.id], s.grants[other];
            var taken := b.status.Open? && a.slot == b.slot && a.actor == b.actor && a.hash == b.hash;
            && b.slot in Next(s, e).records
            && (Next(s, e).records[b.slot] != s.records[b.slot] <==> taken)
            && (taken && ValidCall(b.slot, b.actor) ==>
                  Answer(Next(s, e).records, b.slot, b.actor, b.hash, e.at) == Replayed(e.response))
  {
    assert Holding(s, other, s.clock);
  }

  /** Without promptness exclusion fails: the first holder's late Abort frees the
      second holder's lease, and a third is granted while the second is open. */
  lemma LateAbortBreaksExclusion(slot: Slot, actor: string, hash: Hash)
    returns (states: seq<State<nat>>, events: seq<Event<nat>>)
    requires ValidCall(slot, actor)
    ensures Run(states, events) && |states| == 5 && !PromptRun(states, events)
    ensures Holding(states[4], 2, states[4].clock) && Holding(states[4], 3, states[4].clock)
    ensures states[4].grants[2].slot == states[4].grants[3].slot == slot && states[4].grants[2].status.Open?
  {
    events := [BeginCall(1, slot, actor, hash, 0), BeginCall(2, slot, actor, hash, LEASE), AbortCall(1, LEASE),
        BeginCall(3, slot, actor, hash, LEASE)];
    var s0: State<nat> := State(map[], map[], 0);
    var s1 := Next(s0, events[0]);
    var s2 := Next(s1, events[1]);
    var s3 := Next(s2, events[2]);
    var s4 := Next(s3, events[3]);
    states := [s0, s1, s2, s3, s4];
    assert !Prompt(s2, events[2]);
    assert states[2] == s2;
  }

  // ------------------------------------- the importer's in-transaction variant

  datatype ImportAnswer<+R> = Apply | Cached(response: R) | Clash

  /** loadIdempotentResult */
  function Lookup<R>(records: Records<R>, slot: Slot, actor: string, hash: Hash, now: int): ImportAnswer<R> {
    if !Live(records, slot, now) then Apply
    else if records[slot].actor != actor || records[slot].hash != hash then Clash
    else if records[slot].response == None then Clash
    else Cached(records[slot].response.value)
  }

  function AfterImport<R>(records: Records<R>, slot: Slot, actor: string, hash: Hash, now: int,
                          response: R): Records<R> {
    records[slot := Row(actor, hash, Some(response), now + LEASE)]
  }

  /** One committed import that applied its effect. */
  datatype Applied<+R> = Applied(slot: Slot, actor: string, hash: Hash, at: int, response: R)

  /** A run of imports: `log` is what was applied, in order. */
  datatype ImportState<R> = ImportState(records: Records<R>, log: seq<Applied<R>>, clock: int)

  datatype ImportCall<+R> = ImportCall(slot: Slot, actor: string, hash: Hash, at: int, effect: Option<R>)

  /** `effect` is None when the import itself fails and is rolled back. */
  function NextImport<R>(s: ImportState<R>, c: ImportCall<R>): ImportState<R>
    requires s.clock <= c.at
  {
    if Lookup(s.records, c.slot, c.actor, c.hash, c.at) == Apply && c.effect.Some?
    then ImportState(AfterImport(s.records, c.slot, c.actor, c.hash, c.at, c.effect.value),
                     s.log + [Applied(c.slot, c.actor, c.hash, c.at, c.effect.value)], c.at)
    else s.(clock := c.at)
  }

  /** The last entry of a slot still within its time is its record; entries of
      one slot are a lease apart. */
  ghost predicate OnceEach<R>(s: ImportState<R>) {
    && (forall i :: 0 <= i < |s.log| ==> s.log[i].at <= s.clock)
    && (forall i, j :: 0 <= i < j < |s.log| && s.log[i].slot == s.log[j].slot ==> s.log[i].at + LEASE <= s.log[j].at)
    && (forall i :: 0 <= i < |s.log| && s.clock < s.log[i].at + LEASE ==> Stored(s, i))
    && (forall slot :: Live(s.records, slot, s.clock)
         ==> exists i :: 0 <= i < |s.log| && s.log[i].slot == slot && Stored(s, i))
  }

  ghost predicate Stored<R>(s: ImportState<R>, i: nat)
    requires i < |s.log|
  {
    var a := s.log[i];
    a.slot in s.records && s.records[a.slot] == Row(a.actor, a.hash, Some(a.response), a.at + LEASE)
  }

  lemma ImportStepOnce<R>(s: ImportState<R>, c: ImportCall<R>)
    requires OnceEach(s) && s.clock <= c.at
    ensures OnceEach(NextImport(s, c))
  {
    var t := NextImport(s, c);
    forall i | 0 <= i < |t.log| && t.clock < t.log[i].at + LEASE ensures Stored(t, i) {
      if i < |s.log| {
        assert Stored(s, i);
      }
    }
    forall slot | Live(t.records, slot, t.clock)
      ensures exists i :: 0 <= i < |t.log| && t.log[i].slot == slot && Stored(t, i)
    {
      if t.log != s.log && slot == c.slot {
        assert Stored(t, |s.log|);
      } else {
        assert Live(s.records, slot, s.clock);
        var i :| 0 <= i < |s.log| && s.log[i].slot == slot && Stored(s, i);
        assert Stored(t, i);
      }
    }
  }

  ghost predicate ImportRun<R>(states: seq<ImportState<R>>, calls: seq<ImportCall<R>>) {
    && |states| == |calls| + 1 && states[0].records == map[] && states[0].log == []
    && forall i :: 0 <= i < |calls|
        ==> states[i].clock <= calls[i].at && states[i + 1] == NextImport(states[i], calls[i])
  }

  lemma {:induction false} ImportRunOnce<R>(states: seq<ImportState<R>>, calls: seq<ImportCall<R>>, k: nat)
    requires ImportRun(states, calls) && k < |states|
    ensures OnceEach(states[k])
  {
    if k > 0 {
      ImportRunOnce(states, calls, k - 1);
      ImportStepOnce(states[k - 1], calls[k - 1]);
    }
  }

  /** In any run an import key takes effect at most once per lease, and a repeat
      is answered with the response of the very import that took effect. */
  lemma ImportedOncePerKey<R>(states: seq<ImportState<R>>, calls: seq<ImportCall<R>>, k: nat)
    requires ImportRun(states, calls) && k < |calls|
    ensures forall i, j :: 0 <= i < j < |states[k].log| && states[k].log[i].slot == states[k].log[j].slot ==>
              states[k].log[i].at + LEASE <= states[k].log[j].at
    ensures var c := calls[k];
            var answer := Lookup(states[k].records, c.slot, c.actor, c.hash, c.at);
            answer.Cached? ==>
              exists i :: 0 <= i < |states[k].log|
                  && states[k].log[i] == Applied(c.slot, c.actor, c.hash, states[k].log[i].at, answer.response)
                          && c.at < states[k].log[i].at + LEASE
  {
    ImportRunOnce(states, calls, k);
    var s, c := states[k], calls[k];
    if Live(s.records, c.slot, c.at) {
      assert Live(s.records, c.slot, s.clock);
    }
  }

  /** And it is answered: until the lease of an import that took effect runs out,
      the same caller and request get its response, anybody else a clash. */
  lemma RepeatsAreAnswered<R>(states: seq<ImportState<R>>, calls: seq<ImportCall<R>>, k: nat, i: nat)
    requires ImportRun(states, calls) && k < |calls| && i < |states[k].log|
    requires calls[k].slot == states[k].log[i].slot && calls[k].at < states[k].log[i].at + LEASE
    ensures var c, a := calls[k], states[k].log[i];
            && Lookup(states[k].records, c.slot, c.actor, c.hash, c.at)
               == (if c.actor == a.actor && c.hash == a.hash then Cached(a.response) else Clash)
            && states[k + 1].log == states[k].log && states[k + 1].records == states[k].records
  {
    ImportRunOnce(states, calls, k);
    assert Stored(states[k], i);
  }
}
