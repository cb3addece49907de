/** internal/maintenance/backup.go: swapping a staged restore into place, with
    compensation when a step fails and a rerun when the process dies. */
module Restore {
  datatype Component = Database | Assets | MasterKey | AnalyticsKey

  type Content = nat
  type Files = map<Component, Content>

  const ORDER: seq<Component> := [Database, Assets, MasterKey, AnalyticsKey]

  /** The live files, the staged `.restore-pending` and the kept `.pre-restore`. */
  datatype Disk = Disk(live: Files, pending: Files, previous: Files)

  /** Calls that may fail; the compensating calls are taken to succeed. */
  datatype Fault =
    | StatPending(c: Component) | StatLive(c: Component) | Preserve(c: Component) | Install(c: Component) | Sync

  datatype Entry = Entry(component: Component, hadPrevious: bool)

  /** What the instance should look like once the restore has gone through. */
  function Target(d: Disk): Files {
    d.live + d.pending
  }

  /** A step of this component fails. */
  predicate FaultAt(faults: set<Fault>, d: Disk, c: Component) {
    || StatPending(c) in faults
    || (c in d.pending && (StatLive(c) in faults || (c in d.live && Preserve(c) in faults) || Install(c) in faults))
  }

  /** The restore cannot complete. */
  predicate Faulty(faults: set<Fault>, d: Disk) {
    (exists c :: c in ORDER && FaultAt(faults, d, c)) || (d.pending != map[] && Sync in faults)
  }

  /** The calls a run makes on this disk. */
  ghost predicate Made(d: Disk, call: Fault) {
    match call
    case StatPending(_) => true
    case StatLive(c) => c in d.pending
    case Preserve(c) => c in d.pending && c in d.live
    case Install(c) => c in d.pending
    case Sync => exists c :: c in d.pending
  }

  lemma AllListed(c: Component)
    ensures c in ORDER
  {
    assert ORDER[0] == Database && ORDER[1] == Assets && ORDER[2] == MasterKey && ORDER[3] == AnalyticsKey;
  }

  /** A restore cannot complete exactly when one of the calls it makes fails. */
  lemma FaultyIs(faults: set<Fault>, d: Disk)
    ensures Faulty(faults, d) <==> exists call :: call in faults && Made(d, call)
  {
    if call :| call in faults && Made(d, call) {
      match call {
        case StatPending(c) => AllListed(c); assert FaultAt(faults, d, c);
        case StatLive(c) => AllListed(c); assert FaultAt(faults, d, c);
        case Preserve(c) => AllListed(c); assert FaultAt(faults, d, c);
        case Install(c) => AllListed(c); assert FaultAt(faults, d, c);
        case Sync => assert d.pending != map[];
      }
    }
    if Faulty(faults, d) {
      if c :| c in ORDER && FaultAt(faults, d, c) {
        assert || (StatPending(c) in faults && Made(d, StatPending(c)))
               || (StatLive(c) in faults && Made(d, StatLive(c)))
               || (Preserve(c) in faults && Made(d, Preserve(c)))
               || (Install(c) in faults && Made(d, Install(c)));
      } else {
        assert Made(d, Sync);
      }
    }
  }

  /** The swapped components know how to get `before` back. */
  ghost predicate Undoable(d: Disk, entries: seq<Entry>, before: Files) {
    && (forall i, j :: 0 <= i < j < |entries| ==> entries[i].component != entries[j].component)
    && (forall i :: 0 <= i < |entries| ==> UndoableEntry(d, entries[i], before))
    && (forall c :: (forall i :: 0 <= i < |entries| ==> entries[i].component != c) ==> SameAt(d.live, before, c))
  }

  predicate UndoableEntry(d: Disk, e: Entry, before: Files) {
    if e.hadPrevious
        then e.component in before && e.component in d.previous && d.previous[e.component] == before[e.component]
    else e.component !in before
  }

  predicate SameAt(a: Files, b: Files, c: Component) {
    (c in a <==> c in b) && (c in a ==> a[c] == b[c])
  }

  lemma SameFiles(a: Files, b: Files)
    requires forall c :: SameAt(a, b, c)
    ensures a == b
  {
    forall c ensures c in a <==> c in b {
      assert SameAt(a, b, c);
    }
    forall c | c in a ensures a[c] == b[c] {
      assert SameAt(a, b, c);
    }
  }

  // --------------------------------------------------------- undisturbed runs

  function Cleared(d: Disk, c: Component): Disk {
    d.(previous := d.previous - {c})
  }

  function Preserved(d: Disk, c: Component): Disk {
    if c in d.live then d.(live := d.live - {c}, previous := d.previous[c := d.live[c]]) else d
  }

  function Installed(d: Disk, c: Component): Disk
    requires c in d.pending
  {
    d.(live := d.live[c := d.pending[c]], pending := d.pending - {c})
  }

  /** The durable states of swapping in one component. */
  function SwapStates(d: Disk, c: Component): (states: seq<Disk>)
    requires c in d.pending
    ensures states != [] && states[|states| - 1] == Installed(Preserved(Cleared(d, c), c), c)
  {
    var d1 := Cleared(d, c);
    var d2 := Preserved(d1, c);
    if c in d.live then [d1, d2, Installed(d2, c)] else [d1, Installed(d2, c)]
  }

  /** The durable states of a run that nothing disturbs, up to component `i`. */
  function RunTo(d: Disk, i: nat): (states: seq<Disk>)
    requires i <= |ORDER|
    ensures states != [] && states[0] == d
  {
    if i == 0 then [d]
    else
      var states := RunTo(d, i - 1);
      if ORDER[i - 1] in Last(states).pending then states + SwapStates(Last(states), ORDER[i - 1]) else states
  }

  function Last(states: seq<Disk>): Disk
    requires states != []
  {
    states[|states| - 1]
  }

  function EntriesTo(d: Disk, i: nat): seq<Entry>
    requires i <= |ORDER|
  {
    if i == 0 then []
    else
      var last := Last(RunTo(d, i - 1));
      if ORDER[i - 1] in last.pending then EntriesTo(d, i - 1) + [Entry(ORDER[i - 1], ORDER[i - 1] in last.live)]
      else EntriesTo(d, i - 1)
  }

  lemma RunStarts(d: Disk)
    ensures RunTo(d, 0) == [d] && EntriesTo(d, 0) == []
  {}

  lemma RunSkips(d: Disk, i: nat)
    requires i < |ORDER| && ORDER[i] !in Last(RunTo(d, i)).pending
    ensures RunTo(d, i + 1) == RunTo(d, i) && EntriesTo(d, i + 1) == EntriesTo(d, i)
  {}

  lemma RunSwaps(d: Disk, i: nat)
    requires i < |ORDER| && ORDER[i] in Last(RunTo(d, i)).pending
    ensures var last, c := Last(RunTo(d, i)), ORDER[i];
            && RunTo(d, i + 1) == RunTo(d, i) + SwapStates(last, c)
            && Last(RunTo(d, i + 1)) == Installed(Preserved(Cleared(last, c), c), c)
            && EntriesTo(d, i + 1) == EntriesTo(d, i) + [Entry(c, c in last.live)]
  {
    hide SwapStates;
  }

  /** The whole run, the disk it leaves and the swaps it has recorded. */
  function Undisturbed(d: Disk): seq<Disk> {
    RunTo(d, |ORDER|)
  }

  function Restored(d: Disk): Disk {
    Last(RunTo(d, |ORDER|))
  }

  function Swaps(d: Disk): seq<Entry> {
    EntriesTo(d, |ORDER|)
  }

  /** Undoing recorded swaps, last first. */
  function UndoOne(d: Disk, e: Entry): Disk {
    var cleared := d.live - {e.component};
    if e.hadPrevious && e.component in d.previous
    then d.(live := cleared[e.component := d.previous[e.component]], previous := d.previous - {e.component})
    else d.(live := cleared)
  }

  function Undo(d: Disk, entries: seq<Entry>): Disk
    decreases |entries|
  {
    if entries == [] then d else Undo(UndoOne(d, entries[|entries| - 1]), entries[..|entries| - 1])
  }

  class Instance {
    var disk: Disk
    var components: seq<Entry>
    var applied: bool

    /** RestoreSwap.Rollback */
    method Rollback(ghost before: Files)
      requires applied <==> components != []
      requires Undoable(disk, components, before)
      modifies this
      ensures disk.live == before && disk.pending == old(disk.pending) && !applied && components == old(components)
      ensures disk == Undo(old(disk), components)
    {
      hide Undoable, Undo;
      if !applied {
        UndoNothing(disk);
        AllUndone(disk, components, before);
        return;
      }
      var index := |components|;
      assert components[..index] == components;
      while index > 0
        invariant 0 <= index <= |components| && components == old(components)
        invariant Undoable(disk, components[..index], before)
        invariant disk.pending == old(disk.pending)
        invariant Undo(disk, components[..index]) == Undo(old(disk), components)
      {
        index := index - 1;
        var e := components[index];
        ghost var was := disk;
        assert components[..index + 1][index] == e && components[..index + 1][..index] == components[..index];
        EntryFacts(disk, components[..index + 1], before);
        var live := disk.live - {e.component};
        var previous := disk.previous;
        if e.hadPrevious {
          live := live[e.component := previous[e.component]];
          previous := previous - {e.component};
        }
        disk := disk.(live := live, previous := previous);
        UndoLast(was, components[..index + 1]);
        assert disk == UndoOne(was, e);
        UndoneEntry(was, disk, components[..index + 1], before);
      }
      AllUndone(disk, components[..0], before);
      UndoNothing(disk);
      applied := false;
    }

    /** ApplyPendingRestore */
    method ApplyPendingRestore(faults: set<Fault>) returns (ok: bool, ghost trace: seq<Disk>)
      modifies this
      ensures ok <==> !Faulty(faults, old(disk))
      ensures !ok ==> disk.live == old(disk.live)
      ensures ok ==>
                && disk.live == Target(old(disk)) && disk.pending == map[]
                && Undoable(disk, components, old(disk.live))
      ensures ok ==> (applied <==> components != [])
      ensures ok ==> trace == Undisturbed(old(disk)) && disk == Restored(old(disk)) && components == Swaps(old(disk))
    {
      hide Progress, Undoable, Target, Faulty, UndoableEntry, RunTo, EntriesTo, SwapStates, Undo;
      ghost var start := disk;
      components, applied := [], false;
      trace := [disk];
      ProgressStart(disk);
      RunStarts(disk);
      var i := 0;
      while i < |ORDER|
        invariant 0 <= i <= |ORDER|
        invariant Progress(start, disk, components, i)
        invariant applied <==> components != []
        invariant forall k :: 0 <= k < i ==> !FaultAt(faults, start, ORDER[k])
        invariant trace == RunTo(start, i) && disk == Last(trace) && components == EntriesTo(start, i)
      {
        var c := ORDER[i];
        ProgressAt(start, disk, components, i);
        if StatPending(c) in faults {
          Failed(faults, start, c);
          Rollback(start.live);
          return false, trace;
        }
        if c !in disk.pending {
          SkipProgress(start, disk, components, i);
          RunSkips(start, i);
          i := i + 1;
          continue;
        }
        ghost var d0 := disk;
        disk := disk.(previous := disk.previous - {c});
        ghost var d1 := disk;
        ClearedKeeps(start, d0, d1, components, c, i);
        if StatLive(c) in faults {
          Failed(faults, start, c);
          Rollback(start.live);
          return false, trace;
        }
        var hadPrevious := c in disk.live;
        if hadPrevious {
          if Preserve(c) in faults {
            Failed(faults, start, c);
            Rollback(start.live);
            return false, trace;
          }
          disk := disk.(live := disk.live - {c}, previous := disk.previous[c := disk.live[c]]);
        }
        if Install(c) in faults {
          if hadPrevious {
            disk := disk.(live := disk.live[c := disk.previous[c]], previous := disk.previous - {c});
          }
          PutBack(start, d1, disk, components, c);
          Failed(faults, start, c);
          Rollback(start.live);
          return false, trace;
        }
        disk := disk.(live := disk.live[c := disk.pending[c]], pending := disk.pending - {c});
        InstalledKeeps(start, d1, components, i);
        RunSwaps(start, i);
        trace := trace + SwapStates(d0, c);
        components := components + [Entry(c, hadPrevious)];
        applied := true;
        i := i + 1;
      }
      AllProgress(start, disk, components);
      if applied && Sync in faults {
        SyncFailed(faults, start, disk, components);
        Rollback(start.live);
        return false, trace;
      }
      NoneFaulty(faults, start, disk, components);
      return true, trace;
    }

    /** RestoreSwap.Commit: only the kept copies go. */
    method Commit()
      modifies this
      ensures disk.live == old(disk.live) && disk.pending == old(disk.pending)
      ensures applied ==> forall i :: 0 <= i < |components| ==> components[i].component !in disk.previous
      ensures components == old(components) && applied == old(applied)
    {
      if !applied { return; }
      for i := 0 to |components|
        invariant disk.live == old(disk.live) && disk.pending == old(disk.pending)
        invariant components == old(components) && applied
        invariant forall j :: 0 <= j < i ==> components[j].component !in disk.previous
      {
        disk := disk.(previous := disk.previous - {components[i].component});
      }
    }
  }

  lemma AllUndone(d: Disk, entries: seq<Entry>, before: Files)
    requires entries == [] && Undoable(d, entries, before)
    ensures d.live == before
  {
    SameFiles(d.live, before);
  }

  lemma UndoNothing(d: Disk)
    ensures Undo(d, []) == d
  {}

  lemma UndoLast(d: Disk, entries: seq<Entry>)
    requires entries != []
    ensures Undo(d, entries) == Undo(UndoOne(d, entries[|entries| - 1]), entries[..|entries| - 1])
  {}

  lemma EntryFacts(d: Disk, entries: seq<Entry>, before: Files)
    requires entries != [] && Undoable(d, entries, before)
    ensures var e := entries[|entries| - 1]; e.hadPrevious ==> e.component in d.previous
  {
    assert UndoableEntry(d, entries[|entries| - 1], before);
  }

  lemma UndoneEntry(d: Disk, d': Disk, entries: seq<Entry>, before: Files)
    requires entries != [] && Undoable(d, entries, before)
    requires var e := entries[|entries| - 1];
             d' == d.(live := if e.hadPrevious then (d.live - {e.component})[e.component := d.previous[e.component]]
                 else d.live - {e.component},
                      previous := if e.hadPrevious then d.previous - {e.component} else d.previous)
    ensures Undoable(d', entries[..|entries| - 1], before)
  {
    var n := |entries| - 1;
    var e := entries[n];
    assert UndoableEntry(d, e, before);
    forall i | 0 <= i < n ensures UndoableEntry(d', entries[..n][i], before) {
      assert UndoableEntry(d, entries[i], before) && entries[i].component != e.component;
    }
    forall c | forall i :: 0 <= i < n ==> entries[..n][i].component != c ensures SameAt(d'.live, before, c) {
      if c != e.component {
        assert forall i :: 0 <= i < |entries| ==> entries[i].component != c by {
          assert forall i :: 0 <= i < n ==> entries[..n][i] == entries[i];
        }
        assert SameAt(d.live, before, c);
      }
    }
  }

  // ------------------------------------------------------------ the main loop

  /** After `i` components: those staged are in place, the rest untouched. */
  ghost predicate Progress(start: Disk, d: Disk, entries: seq<Entry>, i: nat) {
    && i <= |ORDER|
    && Undoable(d, entries, start.live)
    && Target(d) == Target(start)
    && (forall e :: e in entries ==> exists k :: 0 <= k < i && ORDER[k] == e.component && e.component in start.pending)
    && (forall k :: 0 <= k < i ==> ORDER[k] !in d.pending)
    && (forall k :: i <= k < |ORDER|
         ==> SameAt(d.live, start.live, ORDER[k]) && SameAt(d.pending, start.pending, ORDER[k]))
    && (forall k :: 0 <= k < i && ORDER[k] in start.pending ==> entries != [])
  }

  lemma OrderDistinct()
    ensures forall j, k :: 0 <= j < k < |ORDER| ==> ORDER[j] != ORDER[k]
    ensures forall c: Component :: c in ORDER
  {
    forall c: Component ensures c in ORDER {
      match c {
        case Database => assert ORDER[0] == c;
        case Assets => assert ORDER[1] == c;
        case MasterKey => assert ORDER[2] == c;
        case AnalyticsKey => assert ORDER[3] == c;
      }
    }
  }

  lemma ProgressStart(d: Disk)
    ensures Progress(d, d, [], 0)
  {}

  lemma ProgressAt(start: Disk, d: Disk, entries: seq<Entry>, i: nat)
    requires Progress(start, d, entries, i) && i < |ORDER|
    ensures Undoable(d, entries, start.live)
    ensures SameAt(d.live, start.live, ORDER[i]) && SameAt(d.pending, start.pending, ORDER[i])
  {}

  lemma SkipProgress(start: Disk, d: Disk, entries: seq<Entry>, i: nat)
    requires Progress(start, d, entries, i) && i < |ORDER| && ORDER[i] !in d.pending
    ensures Progress(start, d, entries, i + 1)
  {
    assert SameAt(d.pending, start.pending, ORDER[i]);
  }

  lemma Failed(faults: set<Fault>, start: Disk, c: Component)
    requires FaultAt(faults, start, c)
    ensures Faulty(faults, start)
  {
    OrderDistinct();
  }

  lemma ClearedKeeps(start: Disk, d: Disk, d': Disk, entries: seq<Entry>, c: Component, i: nat)
    requires Progress(start, d, entries, i) && i < |ORDER| && c == ORDER[i] && d' == Cleared(d, c)
    ensures Progress(start, d', entries, i)
    ensures Undoable(d', entries, start.live) && SameAt(d'.live, start.live, c) && SameAt(d'.pending, start.pending, c)
  {
    forall j | 0 <= j < |entries| ensures UndoableEntry(d', entries[j], start.live) {
      assert UndoableEntry(d, entries[j], start.live);
    }
  }

  /** Undoing the half-done component leaves it as it was. */
  lemma PutBack(start: Disk, d1: Disk, d: Disk, entries: seq<Entry>, c: Component)
    requires Undoable(d1, entries, start.live) && c !in d1.previous
    requires d == d1.(live := d.live) && SameFilesAt(d.live, d1.live)
    ensures Undoable(d, entries, start.live)
  {
    SameFiles(d.live, d1.live);
  }

  ghost predicate SameFilesAt(a: Files, b: Files) {
    forall c :: SameAt(a, b, c)
  }

  lemma InstalledKeeps(start: Disk, d: Disk, entries: seq<Entry>, i: nat)
    requires i < |ORDER| && Progress(start, d, entries, i) && ORDER[i] in d.pending
    ensures Progress(start, Installed(Preserved(d, ORDER[i]), ORDER[i]),
            entries + [Entry(ORDER[i], ORDER[i] in d.live)], i + 1)
  {
    var c := ORDER[i];
    var more := entries + [Entry(c, c in d.live)];
    ProgressAt(start, d, entries, i);
    InstalledUndoable(start, d, entries, c);
    OthersSame(start, d, entries, i);
    InstalledTarget(d, c);
    hide Undoable, Target, UndoableEntry, Installed, Preserved;
    assert more[|entries|] == Entry(c, c in d.live);
  }

  lemma InstalledTarget(d: Disk, c: Component)
    requires c in d.pending
    ensures Target(Installed(Preserved(d, c), c)) == Target(d)
  {}

  lemma OthersSame(start: Disk, d: Disk, entries: seq<Entry>, i: nat)
    requires i < |ORDER| && Progress(start, d, entries, i) && ORDER[i] in d.pending
    ensures var d' := Installed(Preserved(d, ORDER[i]), ORDER[i]);
            && (forall k :: 0 <= k < i + 1 ==> ORDER[k] !in d'.pending)
            && forall k :: i + 1 <= k < |ORDER|
                ==> SameAt(d'.live, start.live, ORDER[k]) && SameAt(d'.pending, start.pending, ORDER[k])
  {
    hide Undoable, Target, UndoableEntry;
    OrderDistinct();
    var c := ORDER[i];
    forall k | i + 1 <= k < |ORDER|
      ensures ORDER[k] != c && SameAt(d.live, start.live, ORDER[k]) && SameAt(d.pending, start.pending, ORDER[k])
    {}
  }

  lemma InstalledUndoable(start: Disk, d: Disk, entries: seq<Entry>, c: Component)
    requires Undoable(d, entries, start.live) && c in d.pending && SameAt(d.live, start.live, c)
    requires forall j :: 0 <= j < |entries| ==> entries[j].component != c
    ensures Undoable(Installed(Preserved(d, c), c), entries + [Entry(c, c in d.live)], start.live)
  {
    var d' := Installed(Preserved(d, c), c);
    var more := entries + [Entry(c, c in d.live)];
    forall j | 0 <= j < |more| ensures UndoableEntry(d', more[j], start.live) {
      if j < |entries| {
        assert UndoableEntry(d, entries[j], start.live);
      }
    }
    forall x | forall j :: 0 <= j < |more| ==> more[j].component != x ensures SameAt(d'.live, start.live, x) {
      assert more[|entries|].component != x;
      assert forall j :: 0 <= j < |entries| ==> entries[j] == more[j];
      assert SameAt(d.live, start.live, x);
    }
  }

  lemma AllProgress(start: Disk, d: Disk, entries: seq<Entry>)
    requires Progress(start, d, entries, |ORDER|)
    ensures d.pending == map[] && d.live == Target(start) && Undoable(d, entries, start.live)
  {
    OrderDistinct();
    forall c: Component ensures c !in d.pending {
      assert c in ORDER;
    }
    assert d.pending == map[];
    assert Target(d) == d.live;
  }

  lemma SyncFailed(faults: set<Fault>, start: Disk, d: Disk, entries: seq<Entry>)
    requires Progress(start, d, entries, |ORDER|) && entries != [] && Sync in faults
    ensures Faulty(faults, start)
  {
    assert entries[0] in entries;
  }

  lemma NoneFaulty(faults: set<Fault>, start: Disk, d: Disk, entries: seq<Entry>)
    requires Progress(start, d, entries, |ORDER|)
    requires forall k :: 0 <= k < |ORDER| ==> !FaultAt(faults, start, ORDER[k])
    requires entries == [] || Sync !in faults
    ensures !Faulty(faults, start)
  {
    if entries == [] {
      OrderDistinct();
      forall c: Component ensures c !in start.pending {
        assert c in ORDER;
      }
      assert start.pending == map[];
    }
  }

  // ------------------------------------------------------------------ crashes

  /** What a disk may look like somewhere in a run from `d`. */
  ghost predicate Between(d: Disk, s: Disk) {
    forall c :: BetweenAt(d, s, c)
  }

  predicate BetweenAt(d: Disk, s: Disk, c: Component) {
    if c !in d.pending then c !in s.pending && SameAt(s.live, d.live, c)
    else if c in s.pending then s.pending[c] == d.pending[c] && (c in s.live ==> SameAt(s.live, d.live, c))
    else c in s.live && s.live[c] == d.pending[c]
  }

  lemma SwapStatesBetween(d: Disk, s: Disk, c: Component)
    requires Between(d, s) && c in s.pending
    ensures forall k :: 0 <= k < |SwapStates(s, c)| ==> Between(d, SwapStates(s, c)[k])
  {
    forall k | 0 <= k < |SwapStates(s, c)| ensures Between(d, SwapStates(s, c)[k]) {
      forall x ensures BetweenAt(d, SwapStates(s, c)[k], x) {
        assert BetweenAt(d, s, x) && BetweenAt(d, s, c);
      }
    }
  }

  lemma {:induction false} RunBetween(d: Disk, i: nat, k: nat)
    requires i <= |ORDER| && k < |RunTo(d, i)|
    ensures Between(d, RunTo(d, i)[k])
  {
    if i == 0 {
      forall c ensures BetweenAt(d, d, c) {}
    } else {
      var before := RunTo(d, i - 1);
      if k < |before| {
        RunBetween(d, i - 1, k);
      } else {
        RunBetween(d, i - 1, |before| - 1);
        SwapStatesBetween(d, Last(before), ORDER[i - 1]);
      }
    }
  }

  lemma BetweenTarget(d: Disk, s: Disk)
    requires Between(d, s)
    ensures Target(s) == Target(d)
  {
    forall c ensures SameAt(Target(s), Target(d), c) {
      assert BetweenAt(d, s, c);
    }
    SameFiles(Target(s), Target(d));
  }

  /** An undisturbed run goes through and can be undone. */
  lemma {:induction false} RunProgress(d: Disk, i: nat)
    requires i <= |ORDER|
    ensures Progress(d, Last(RunTo(d, i)), EntriesTo(d, i), i)
  {
    hide Progress, RunTo, EntriesTo, SwapStates;
    if i == 0 {
      RunStarts(d);
      ProgressStart(d);
    } else {
      RunProgress(d, i - 1);
      var last := Last(RunTo(d, i - 1));
      if ORDER[i - 1] in last.pending {
        ClearedKeeps(d, last, Cleared(last, ORDER[i - 1]), EntriesTo(d, i - 1), ORDER[i - 1], i - 1);
        InstalledKeeps(d, Cleared(last, ORDER[i - 1]), EntriesTo(d, i - 1), i - 1);
        RunSwaps(d, i - 1);
      } else {
        RunSkips(d, i - 1);
        SkipProgress(d, last, EntriesTo(d, i - 1), i - 1);
      }
    }
  }

  lemma RestoredFacts(d: Disk)
    ensures Restored(d).pending == map[] && Restored(d).live == Target(d) && Undoable(Restored(d), Swaps(d), d.live)
  {
    RunProgress(d, |ORDER|);
    AllProgress(d, Restored(d), Swaps(d));
  }

  /** A crash anywhere in an undisturbed run and a rerun, itself undisturbed, end
      with the live files of an uninterrupted run. */
  lemma CrashAndRerun(d: Disk, k: nat)
    requires k < |Undisturbed(d)|
    ensures Restored(Undisturbed(d)[k]).live == Restored(d).live
    ensures Restored(Undisturbed(d)[k]).pending == map[]
  {
    var s := Undisturbed(d)[k];
    RunBetween(d, |ORDER|, k);
    BetweenTarget(d, s);
    RestoredFacts(d);
    RestoredFacts(s);
  }

  lemma {:induction false} Undone(d: Disk, entries: seq<Entry>, before: Files)
    requires Undoable(d, entries, before)
    ensures Undo(d, entries).live == before
    decreases |entries|
  {
    if entries == [] {
      AllUndone(d, entries, before);
    } else {
      EntryFacts(d, entries, before);
      var e := entries[|entries| - 1];
      assert UndoOne(d, e).live == if e.hadPrevious
          then (d.live - {e.component})[e.component := d.previous[e.component]] else d.live - {e.component};
      UndoneEntry(d, UndoOne(d, e), entries, before);
      Undone(UndoOne(d, e), entries[..|entries| - 1], before);
    }
  }

  /** At the crash no staged component is between its two renames, and those
      already installed equal what they replaced. */
  ghost predicate Unharmed(d: Disk, s: Disk) {
    forall c :: c in d.pending ==>
      if c in s.pending then c in d.live ==> c in s.live else c in d.live && d.live[c] == d.pending[c]
  }

  /** A crash at state `k`, a rerun and then a rollback give back the live files
      found at the crash: the original ones if and only if it left them unharmed. */
  lemma RollbackAfterRerun(d: Disk, k: nat)
    requires k < |Undisturbed(d)|
    ensures var s := Undisturbed(d)[k];
            var undone := Undo(Restored(s), Swaps(s)).live;
            undone == s.live && (undone == d.live <==> Unharmed(d, s))
  {
    var s := Undisturbed(d)[k];
    RestoredFacts(s);
    Undone(Restored(s), Swaps(s), s.live);
    RunBetween(d, |ORDER|, k);
    if s.live == d.live {
      forall c | c in d.pending
        ensures if c in s.pending then c in d.live ==> c in s.live else c in d.live && d.live[c] == d.pending[c]
      {
        assert BetweenAt(d, s, c);
      }
    }
    if Unharmed(d, s) {
      forall c ensures SameAt(s.live, d.live, c) {
        assert BetweenAt(d, s, c);
      }
      SameFiles(s.live, d.live);
    }
  }

  lemma {:induction false} RunPrefix(d: Disk, i: nat, j: nat)
    requires i <= j <= |ORDER|
    ensures RunTo(d, i) <= RunTo(d, j)
  {
    if i < j {
      RunPrefix(d, i, j - 1);
    }
  }

  /** The database is staged with the assets. A crash between its two renames, a
      rerun and a rollback leave no database at all; a crash after it is installed
      leaves the new database beside the old assets. */
  lemma RollbackAfterRerunLoses() returns (d: Disk)
    ensures d == Disk(map[Database := 1, Assets := 1], map[Database := 2, Assets := 2], map[])
    ensures |Undisturbed(d)| > 3
    ensures Undo(Restored(Undisturbed(d)[2]), Swaps(Undisturbed(d)[2])).live == map[Assets := 1]
    ensures Undo(Restored(Undisturbed(d)[3]), Swaps(Undisturbed(d)[3])).live == map[Database := 2, Assets := 1]
  {
    d := Disk(map[Database := 1, Assets := 1], map[Database := 2, Assets := 2], map[]);
    var d1 := Cleared(d, Database);
    var d2 := Preserved(d1, Database);
    assert RunTo(d, 1) == [d, d1, d2, Installed(d2, Database)];
    assert d2.live == map[Assets := 1] && Installed(d2, Database).live == map[Database := 2, Assets := 1];
    RunPrefix(d, 1, |ORDER|);
    hide RunTo, Undo, Restored, Swaps;
    RollbackAfterRerun(d, 2);
    RollbackAfterRerun(d, 3);
  }
}
