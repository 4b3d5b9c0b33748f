/** Point-in-time restore of one namespace: which backups are replayed and what the result is. */
module Restore {
  import opened Wrappers
  import opened History
  import opened BackupState
  import opened TimeBounds
  import opened Backend
  import opened Routine
  import opened RoutineInvariant

  /** Replaying the full backup `full` and then, instant by instant, every stored incremental up to `t`. */
  ghost function ReplayUpTo(incrs: map<Folder, Data>, ns: string, base: Data, full: Time, t: Time): Data {
    var earlier := if t <= full then base else ReplayUpTo(incrs, ns, base, full, t - 1);
    if full <= t && (t, ns) in incrs then earlier + incrs[(t, ns)] else earlier
  }

  /** The latest completed incremental scan up to `t`, stored or discarded as empty, or the full backup. */
  ghost function LastPoint(log: map<Folder, Scan>, ns: string, full: Time, t: Time): Time {
    if t <= full then full
    else if (t, ns) in log then t
    else LastPoint(log, ns, full, t - 1)
  }

  lemma {:induction false} LastPointBounds(log: map<Folder, Scan>, ns: string, full: Time, t: Time)
    requires full <= t
    ensures full <= LastPoint(log, ns, full, t) <= t
    ensures forall x :: full < x <= t && (x, ns) in log ==> x <= LastPoint(log, ns, full, t)
  {
    if full < t && (t, ns) !in log {
      LastPointBounds(log, ns, full, t - 1);
    }
  }

  /** `full` is a stored full backup of the namespace and the latest one known up to `t`. */
  ghost predicate Base(s: State, ns: string, full: Time, t: Time) {
    full <= t && (full, ns) in s.fulls && forall g :: g in s.known && g <= t ==> g <= full
  }

  /** Between `full` and `t` every run that advanced LastIncrRun completed for the namespace. */
  ghost predicate RunsCompleted(s: State, ns: string, full: Time, t: Time) {
    forall x :: x in s.marks && full < x <= t ==> (x, ns) in s.log
  }

  /** Between `full` and `t` the stored incrementals of the namespace are the completed, non-empty scans. */
  ghost predicate StoredAsScanned(s: State, ns: string, full: Time, t: Time) {
    && (forall x :: full <= x <= t && (x, ns) in s.incrs ==> (x, ns) in s.log)
    && (forall x :: full < x <= t && (x, ns) in s.log && s.log[(x, ns)].data != map[] ==> (x, ns) in s.incrs)
  }

  /** The windows of a namespace leave no gap at `x`: the window of the scan stamped `x`
      starts no later than the preceding scan, or than the full backup. */
  ghost predicate NoGapAt(s: State, ns: string, full: Time, x: Time)
    requires 0 < x && (x, ns) in s.log
  {
    s.log[(x, ns)].from <= LastPoint(s.log, ns, full, x - 1)
  }

  ghost predicate NoGaps(s: State, ns: string, full: Time, t: Time) {
    forall x :: full < x <= t && (x, ns) in s.log ==> NoGapAt(s, ns, full, x)
  }

  /** The backups between the full backup and `t` are as they should be. */
  ghost predicate Sound(s: State, ns: string, full: Time, t: Time) {
    Base(s, ns, full, t) && StoredAsScanned(s, ns, full, t) && NoGaps(s, ns, full, t)
  }

  lemma {:induction false} LastPointIsScanned(log: map<Folder, Scan>, ns: string, full: Time, t: Time)
    ensures LastPoint(log, ns, full, t) == full || (LastPoint(log, ns, full, t), ns) in log
  {
    if full < t && (t, ns) !in log {
      LastPointIsScanned(log, ns, full, t - 1);
    }
  }

  lemma NoGapUnfolds(s: State, ns: string, full: Time, x: Time)
    requires full < x && (x, ns) in s.log
    ensures var from := s.log[(x, ns)].from;
            NoGapAt(s, ns, full, x) <==> from <= full || exists y :: full < y < x && from <= y && (y, ns) in s.log
  {
    var from, last := s.log[(x, ns)].from, LastPoint(s.log, ns, full, x - 1);
    LastPointBounds(s.log, ns, full, x - 1);
    LastPointIsScanned(s.log, ns, full, x - 1);
    if full < from <= last {
      assert full < last < x && from <= last && (last, ns) in s.log;
    }
  }

  /** The runs stamped from `from` on, up to the one stamped `x`, all failed for the namespace. */
  ghost predicate NoneSince(s: State, ns: string, from: Time, x: Time) {
    forall y :: from <= y < x ==> (y, ns) !in s.log
  }

  /** In every reachable state a window leaves a gap for one of two causes only, and each of them does:
      a full backup completed between the two clock readings of the run, so that the window starts
      after the run's own stamp; or the window starts at an incremental run that advanced LastIncrRun
      without completing for the namespace, as none has since. */
  lemma NoGapIff(c: Settings, s: State, ns: string, full: Time, x: Time)
    requires Inv(c, s) && Base(s, ns, full, x) && full < x && (x, ns) in s.log
    ensures var from := s.log[(x, ns)].from;
            !NoGapAt(s, ns, full, x) <==> x < from || (full < from < x && from in s.marks && NoneSince(s, ns, from, x))
  {
    NoGapUnfolds(s, ns, full, x);
    assert Origin(s, s.log[(x, ns)].from, x);
  }

  /** When every run that advanced LastIncrRun completed, only the first cause remains. The code
      never checks for it: it sets the upper bound after construction, past the test of
      NewTimeBounds. */
  lemma NoGapIffForward(c: Settings, s: State, ns: string, full: Time, x: Time)
    requires Inv(c, s) && (x, ns) in s.log && full < x
    requires Base(s, ns, full, x) && RunsCompleted(s, ns, full, x)
    ensures NoGapAt(s, ns, full, x) <==> NewTimeBounds(Some(s.log[(x, ns)].from), Some(x)).Ok?
  {
    NoGapIff(c, s, ns, full, x);
  }

  /** `m` is a history position after the end of every scan that is replayed up to `t`. */
  ghost predicate ScansEndBy(s: State, ns: string, full: Time, t: Time, m: nat) {
    && m <= |s.hist|
    && ((full, ns) in s.fulls ==> s.fulls[(full, ns)].hi <= m)
    && (forall x :: full <= x <= t && (x, ns) in s.log ==> s.log[(x, ns)].hi <= m)
  }

  /** The restored record is the version that was current just before `at`. */
  ghost predicate Rebuilds(s: State, result: Data, at: Time, ns: string, key: string) {
    Holds(result, key, Before(s.hist, |s.hist|, at, ns, key))
  }

  /** What it means that a quiet record is rebuilt: the last write to it before `at` is there, and without such
      a write nothing is. */
  lemma RebuiltIsLastWrite(s: State, result: Data, at: Time, ns: string, key: string)
    requires Rebuilds(s, result, at, ns, key)
    ensures forall i | 0 <= i < |s.hist| && s.hist[i].ns == ns && s.hist[i].key == key && s.hist[i].at < at
                       && (forall j :: i < j < |s.hist| && s.hist[j].ns == ns && s.hist[j].key == key ==> at <= s.hist[j].at)
              :: key in result && result[key] == s.hist[i].val
    ensures (forall i :: 0 <= i < |s.hist| && s.hist[i].ns == ns && s.hist[i].key == key ==> at <= s.hist[i].at) ==> key !in result
  {
    forall i | 0 <= i < |s.hist| && s.hist[i].ns == ns && s.hist[i].key == key && s.hist[i].at < at
               && (forall j :: i < j < |s.hist| && s.hist[j].ns == ns && s.hist[j].key == key ==> at <= s.hist[j].at)
      ensures key in result && result[key] == s.hist[i].val
    {
      BeforeIsLastWrite(s.hist, |s.hist|, at, ns, key, i);
    }
    if forall i :: 0 <= i < |s.hist| && s.hist[i].ns == ns && s.hist[i].key == key ==> at <= s.hist[i].at {
      BeforeFirstWrite(s.hist, |s.hist|, at, ns, key);
    }
  }

  /** In every reachable state every stored record, and every record that a completed incremental scan found,
      was written to the cluster: before the scan ended, no earlier than its window, and with a sealed
      policy before its stamp. */
  lemma StoredWasWritten(c: Settings, steps: seq<Step>, s: State, f: Folder, key: string) returns (i: nat)
    requires c.namespaces != {} && Reaches(c, steps, s)
    requires (f in s.fulls && key in s.fulls[f].data) || (f in s.log && key in s.log[f].data)
    ensures i < |s.hist| && s.hist[i].ns == f.1 && s.hist[i].key == key && (c.sealed ==> s.hist[i].at < f.0)
    ensures if f in s.fulls && key in s.fulls[f].data then s.hist[i].val == s.fulls[f].data[key]
            else s.hist[i].val == s.log[f].data[key] && s.log[f].from <= s.hist[i].at
  {
    ReachableInv(c, steps, s);
    if f in s.fulls && key in s.fulls[f].data {
      i := ScannedWasWritten(s.hist, c.sealed, f.1, s.fulls[f], key);
    } else {
      i := ScannedWasWritten(s.hist, c.sealed, f.1, s.log[f], key);
    }
  }

  ghost function Restored(s: State, ns: string, full: Time, t: Time): Data
    requires (full, ns) in s.fulls
  {
    ReplayUpTo(s.incrs, ns, s.fulls[(full, ns)].data, full, t)
  }

  /** The full backup alone, with an incremental stamped at the same instant if there is one. */
  lemma RestoredAtFull(c: Settings, s: State, ns: string, full: Time, m: nat, key: string)
    requires Inv(c, s) && Sound(s, ns, full, full) && ScansEndBy(s, ns, full, full, m)
    requires Quiet(s.hist, m, full, ns, key)
    ensures Rebuilds(s, Restored(s, ns, full, full), full, ns, key)
  {
    ScanOfQuietRecord(s.hist, c.sealed, ns, s.fulls[(full, ns)], m, key);
    if (full, ns) in s.log {
      ScanOfQuietRecord(s.hist, c.sealed, ns, s.log[(full, ns)], m, key);
    }
  }

  /** A record older than the window at `t` was already quiet at the preceding point. */
  lemma QuietAtPredecessor(c: Settings, s: State, ns: string, t: Time, q: Time, m: nat, key: string)
    requires Inv(c, s) && (t, ns) in s.log && q <= t && s.log[(t, ns)].from <= q
    requires s.log[(t, ns)].hi <= m <= |s.hist| && Quiet(s.hist, m, t, ns, key)
    requires var v := Before(s.hist, |s.hist|, t, ns, key); v.Version? ==> v.at < s.log[(t, ns)].from
    ensures Quiet(s.hist, m, q, ns, key)
    ensures Before(s.hist, |s.hist|, q, ns, key) == Before(s.hist, |s.hist|, t, ns, key)
  {
    var h := s.hist;
    assert Faithful(h, c.sealed, ns, s.log[(t, ns)]);
    forall i | 0 <= i < m && Touches(h[i], ns, key)
      ensures h[i].at < q
    {
      BeforeIsLatest(h, |h|, t, ns, key, i);
    }
    BeforeOfQuiet(h, m, q, t, ns, key);
    BeforeOfSuffix(h, m, |h|, t, ns, key);
    BeforeOfSuffix(h, m, |h|, q, ns, key);
  }

  lemma SoundEarlier(s: State, ns: string, full: Time, t: Time, m: nat)
    requires full < t && Sound(s, ns, full, t) && ScansEndBy(s, ns, full, t, m)
    ensures Sound(s, ns, full, t - 1) && ScansEndBy(s, ns, full, t - 1, m)
  {
  }

  /** A record the scan at `t` does not report is left as the earlier backups restored it. */
  lemma RestoredWithoutScan(c: Settings, s: State, ns: string, full: Time, t: Time, key: string)
    requires Archived(c, s) && full < t && (full, ns) in s.fulls && StoredAsScanned(s, ns, full, t)
    requires (t, ns) in s.log ==> key !in s.log[(t, ns)].data
    ensures var a, b := Restored(s, ns, full, t - 1), Restored(s, ns, full, t);
            (key in a <==> key in b) && (key in a ==> a[key] == b[key])
  {
  }

  /** A record the scan at `t` reports is restored as reported. */
  lemma RestoredFromScan(c: Settings, s: State, ns: string, full: Time, t: Time, key: string)
    requires Archived(c, s) && full < t && (full, ns) in s.fulls && StoredAsScanned(s, ns, full, t)
    requires (t, ns) in s.log && key in s.log[(t, ns)].data
    ensures var b := Restored(s, ns, full, t); key in b && b[key] == s.log[(t, ns)].data[key]
  {
  }

  /** Restoring to `t` gives every record that was not written between the last scanned point
      and the end of the scans exactly the version it had at that point. */
  lemma {:induction false} RestoredUpTo(c: Settings, s: State, ns: string, full: Time, t: Time, m: nat, key: string)
    requires Inv(c, s) && Sound(s, ns, full, t) && ScansEndBy(s, ns, full, t, m)
    requires Quiet(s.hist, m, LastPoint(s.log, ns, full, t), ns, key)
    ensures Rebuilds(s, Restored(s, ns, full, t), LastPoint(s.log, ns, full, t), ns, key)
    decreases t
  {
    if t == full {
      RestoredAtFull(c, s, ns, full, m, key);
    } else {
      SoundEarlier(s, ns, full, t, m);
      if (t, ns) in s.log {
        var b := s.log[(t, ns)];
        ScanOfQuietRecord(s.hist, c.sealed, ns, b, m, key);
        if key in b.data {
          RestoredFromScan(c, s, ns, full, t, key);
          return;
        }
        OlderThanWindow(c, s, ns, full, t, m, key);
      }
      RestoredUpTo(c, s, ns, full, t - 1, m, key);
      RestoredWithoutScan(c, s, ns, full, t, key);
    }
  }

  lemma OlderThanWindow(c: Settings, s: State, ns: string, full: Time, t: Time, m: nat, key: string)
    requires Inv(c, s) && full < t && Sound(s, ns, full, t) && ScansEndBy(s, ns, full, t, m)
    requires (t, ns) in s.log && Quiet(s.hist, m, t, ns, key)
    requires var v := Before(s.hist, |s.hist|, t, ns, key); v.Version? ==> v.at < s.log[(t, ns)].from
    ensures var q := LastPoint(s.log, ns, full, t - 1);
            Quiet(s.hist, m, q, ns, key) && Before(s.hist, |s.hist|, q, ns, key) == Before(s.hist, |s.hist|, t, ns, key)
  {
    assert NoGapAt(s, ns, full, t);
    LastPointBounds(s.log, ns, full, t - 1);
    QuietAtPredecessor(c, s, ns, t, LastPoint(s.log, ns, full, t - 1), m, key);
  }

  // ----- the selection made from the metadata in storage -----

  ghost function FoldersOf(all: seq<Metadata>): set<Folder> {
    set m | m in all :: (m.created, m.ns)
  }

  /** `all` is the metadata of exactly these folders, in any order. */
  ghost predicate Lists(all: seq<Metadata>, folders: set<Folder>) {
    FoldersOf(all) == folders
  }

  /** Every listed incremental is a stored one. */
  ghost predicate InStore(list: seq<Metadata>, incrs: map<Folder, Data>) {
    forall i :: 0 <= i < |list| ==> (list[i].created, list[i].ns) in incrs
  }

  /** Replaying the first `n` incrementals of a list in its order. */
  ghost function ReplayFirst(base: Data, incrs: map<Folder, Data>, list: seq<Metadata>, n: nat): Data
    requires n <= |list| && InStore(list, incrs)
  {
    if n == 0 then base
    else ReplayFirst(base, incrs, list, n - 1) + incrs[(list[n - 1].created, list[n - 1].ns)]
  }

  ghost function ReplayList(base: Data, incrs: map<Folder, Data>, list: seq<Metadata>): Data
    requires InStore(list, incrs)
  {
    ReplayFirst(base, incrs, list, |list|)
  }

  /** `x` lies strictly between the neighbours at positions `n - 1` and `n`. */
  ghost predicate Between(list: seq<Metadata>, n: nat, x: Time) {
    n <= |list| && (n > 0 ==> list[n - 1].created < x) && (n < |list| ==> x < list[n].created)
  }

  /** `list` selects the incrementals of the namespace in [full, t]: it is sorted, its elements
      are stored there, and nothing is stored between its neighbours. */
  ghost predicate Selects(list: seq<Metadata>, incrs: map<Folder, Data>, ns: string, full: Time, t: Time) {
    && SortedByCreated(list) && InStore(list, incrs)
    && (forall i :: 0 <= i < |list| ==> list[i].ns == ns && full <= list[i].created <= t)
    && (forall n: nat, x: Time :: Between(list, n, x) && full <= x <= t ==> (x, ns) !in incrs)
  }

  /** Instants at which nothing is stored change nothing. */
  lemma {:induction false} ReplayIdle(incrs: map<Folder, Data>, ns: string, base: Data, full: Time, y: Time, t: Time)
    requires full <= y <= t
    requires forall x :: y < x <= t ==> (x, ns) !in incrs
    ensures ReplayUpTo(incrs, ns, base, full, t) == ReplayUpTo(incrs, ns, base, full, y)
  {
    if y < t {
      ReplayIdle(incrs, ns, base, full, y, t - 1);
    }
  }

  lemma {:induction false} ReplayNone(incrs: map<Folder, Data>, ns: string, base: Data, full: Time, t: Time)
    requires forall x :: full <= x <= t ==> (x, ns) !in incrs
    ensures ReplayUpTo(incrs, ns, base, full, t) == base
  {
    if full < t {
      ReplayNone(incrs, ns, base, full, t - 1);
    }
  }

  /** Up to just before its first backup, a selection leaves the full backup as it is. */
  lemma BeforeFirstSelected(base: Data, incrs: map<Folder, Data>, list: seq<Metadata>, ns: string, full: Time, t: Time)
    requires Selects(list, incrs, ns, full, t) && list != [] && full < list[0].created
    ensures ReplayUpTo(incrs, ns, base, full, list[0].created - 1) == base
  {
    forall z | full <= z < list[0].created
      ensures (z, ns) !in incrs
    {
      assert Between(list, 0, z);
    }
    ReplayNone(incrs, ns, base, full, list[0].created - 1);
  }

  /** Between neighbours of a selection the replay stands still. */
  lemma BetweenSelected(base: Data, incrs: map<Folder, Data>, list: seq<Metadata>, ns: string, full: Time, t: Time, n: nat)
    requires Selects(list, incrs, ns, full, t) && 0 < n < |list| && list[n - 1].created < list[n].created
    ensures ReplayUpTo(incrs, ns, base, full, list[n].created - 1) == ReplayUpTo(incrs, ns, base, full, list[n - 1].created)
  {
    forall z | list[n - 1].created < z < list[n].created
      ensures (z, ns) !in incrs
    {
      assert Between(list, n, z);
    }
    ReplayIdle(incrs, ns, base, full, list[n - 1].created, list[n].created - 1);
  }

  /** Replaying the backup stamped `x` on top of everything before it, or once more on top of itself. */
  lemma ReplayOneMore(base: Data, incrs: map<Folder, Data>, ns: string, full: Time, x: Time, prior: Data)
    requires full <= x && (x, ns) in incrs
    requires || prior == (if x == full then base else ReplayUpTo(incrs, ns, base, full, x - 1))
             || prior == ReplayUpTo(incrs, ns, base, full, x)
    ensures prior + incrs[(x, ns)] == ReplayUpTo(incrs, ns, base, full, x)
  {
  }

  /** Replaying the first `n` selected backups is replaying instant by instant up to the last of them. */
  lemma {:induction false} ReplayOfFirst(base: Data, incrs: map<Folder, Data>, list: seq<Metadata>, ns: string, full: Time, t: Time, n: nat)
    requires Selects(list, incrs, ns, full, t) && 0 < n <= |list|
    ensures ReplayFirst(base, incrs, list, n) == ReplayUpTo(incrs, ns, base, full, list[n - 1].created)
    decreases n
  {
    var x := list[n - 1].created;
    if n == 1 {
      if full < x {
        BeforeFirstSelected(base, incrs, list, ns, full, t);
      }
      ReplayOneMore(base, incrs, ns, full, x, base);
    } else {
      ReplayOfFirst(base, incrs, list, ns, full, t, n - 1);
      var y := list[n - 2].created;
      var prior := ReplayUpTo(incrs, ns, base, full, y);
      if y < x {
        BetweenSelected(base, incrs, list, ns, full, t, n - 1);
      }
      ReplayOneMore(base, incrs, ns, full, x, prior);
    }
  }

  /** Replaying the sorted selection is replaying instant by instant. */
  lemma ReplayOfSelection(base: Data, incrs: map<Folder, Data>, list: seq<Metadata>, ns: string, full: Time, t: Time)
    requires full <= t && Selects(list, incrs, ns, full, t)
    ensures ReplayList(base, incrs, list) == ReplayUpTo(incrs, ns, base, full, t)
  {
    var n := |list|;
    forall x | full <= x <= t && (n > 0 ==> list[n - 1].created < x)
      ensures (x, ns) !in incrs
    {
      assert Between(list, n, x);
    }
    if n == 0 {
      ReplayNone(incrs, ns, base, full, t);
    } else {
      ReplayOfFirst(base, incrs, list, ns, full, t, n);
      ReplayIdle(incrs, ns, base, full, list[n - 1].created, t);
    }
  }

  /** The stamp of the backup replayed last. */
  function LastReplayed(full: Time, list: seq<Metadata>): Time {
    if list == [] then full else list[|list| - 1].created
  }

  /** A selection up to `t` is also the selection up to the last backup it contains. */
  lemma SelectionUpToLast(incrs: map<Folder, Data>, list: seq<Metadata>, ns: string, full: Time, t: Time)
    requires full <= t && Selects(list, incrs, ns, full, t)
    ensures full <= LastReplayed(full, list) <= t && Selects(list, incrs, ns, full, LastReplayed(full, list))
  {
  }

  /** `full` is the stamp of the latest stored full backup up to `t`. */
  ghost predicate LatestFull(stamps: set<Time>, full: Time, t: Time) {
    full in stamps && full <= t && forall x :: x in stamps && x <= t ==> x <= full
  }

  /** A restore takes up a namespace when the full backup that it found holds it. */
  ghost predicate TakesUp(group: seq<Metadata>, ns: string) {
    exists m :: m in group && m.ns == ns
  }

  /** What a restore to `t` finds: the last full backup up to `t`, and for a namespace the result of
      FindIncrementalBackupsForNamespace. */
  ghost predicate RestorePlan(s: State, ns: string, t: Time, full: Time, list: seq<Metadata>,
                              fullMeta: seq<Metadata>, incrMeta: seq<Metadata>, group: seq<Metadata>) {
    && Lists(fullMeta, s.fulls.Keys) && Lists(incrMeta, s.incrs.Keys)
    && IsLastFull(fullMeta, t, Ok(group)) && group[0].created == full
    && SortedByCreated(list)
    && multiset(list) == multiset(Keep(Keep(incrMeta, Within(TimeBounds(Some(full), Some(t)))), InNamespace(ns)))
  }

  /** The full backup found is the latest one in storage up to `t`, and the restore takes up exactly
      the namespaces that it holds. */
  lemma PlanBase(s: State, t: Time, full: Time, fullMeta: seq<Metadata>, group: seq<Metadata>)
    requires Lists(fullMeta, s.fulls.Keys) && IsLastFull(fullMeta, t, Ok(group)) && group[0].created == full
    ensures LatestFull(Stamps(s.fulls), full, t)
    ensures forall ns :: TakesUp(group, ns) <==> (full, ns) in s.fulls
  {
    forall ns
      ensures TakesUp(group, ns) <==> (full, ns) in s.fulls
    {
      GroupHolds(s.fulls.Keys, full, fullMeta, ns);
    }
    assert group[0] in group && TakesUp(group, group[0].ns);
    forall x | x in Stamps(s.fulls) && x <= t
      ensures x <= full
    {
      var f :| f in s.fulls && f.0 == x;
      assert f in FoldersOf(fullMeta);
    }
  }

  lemma GroupHolds(folders: set<Folder>, full: Time, fullMeta: seq<Metadata>, ns: string)
    requires Lists(fullMeta, folders)
    ensures TakesUp(Keep(fullMeta, At(full)), ns) <==> (full, ns) in folders
  {
    if (full, ns) in folders {
      var m :| m in fullMeta && (m.created, m.ns) == (full, ns);
      assert m in Keep(fullMeta, At(full));
    }
    if m :| m in Keep(fullMeta, At(full)) && m.ns == ns {
      assert (full, ns) in FoldersOf(fullMeta);
    }
  }

  ghost predicate Exactly(list: seq<Metadata>, all: seq<Metadata>, ns: string, full: Time, t: Time) {
    forall m :: m in list <==> m in all && m.ns == ns && full <= m.created <= t
  }

  lemma SelectedAreStored(list: seq<Metadata>, all: seq<Metadata>, ns: string, full: Time, t: Time, i: nat)
    requires Exactly(list, all, ns, full, t) && i < |list|
    ensures list[i].ns == ns && full <= list[i].created <= t && (list[i].created, ns) in FoldersOf(all)
  {
    assert list[i] in list;
  }

  lemma NothingBetween(list: seq<Metadata>, all: seq<Metadata>, ns: string, full: Time, t: Time, n: nat, x: Time)
    requires Exactly(list, all, ns, full, t) && SortedByCreated(list) && Between(list, n, x) && full <= x <= t
    ensures (x, ns) !in FoldersOf(all)
  {
    forall m | m in all && m.ns == ns
      ensures m.created != x
    {
      if m in list {
        var i :| 0 <= i < |list| && list[i] == m;
        assert i < n ==> list[i].created <= list[n - 1].created;
        assert n < i ==> list[n].created <= list[i].created;
      }
    }
  }

  /** The incrementals of a plan are exactly those stored for the namespace in [full, t]. */
  lemma PlanSelects(incrs: map<Folder, Data>, ns: string, t: Time, full: Time, list: seq<Metadata>, incrMeta: seq<Metadata>)
    requires full <= t && Lists(incrMeta, incrs.Keys) && SortedByCreated(list)
    requires multiset(list) == multiset(Keep(Keep(incrMeta, Within(TimeBounds(Some(full), Some(t)))), InNamespace(ns)))
    ensures Selects(list, incrs, ns, full, t)
  {
    IncrementalSelectionIsExact(incrMeta, full, t, ns, list);
    assert Exactly(list, incrMeta, ns, full, t);
    forall i | 0 <= i < |list|
      ensures list[i].ns == ns && full <= list[i].created <= t && (list[i].created, ns) in incrs.Keys
    {
      SelectedAreStored(list, incrMeta, ns, full, t, i);
    }
    forall n: nat, x: Time | Between(list, n, x) && full <= x <= t
      ensures (x, ns) !in incrs.Keys
    {
      NothingBetween(list, incrMeta, ns, full, t, n, x);
    }
  }

  /** Point-in-time restore. Let K be the stamp of the backup replayed last. In every reachable
      state, if the backups up to K are sound, every record that was not written between K and the
      end of the replayed scans is restored to exactly the version it had at K. */
  lemma PointInTimeRestore(c: Settings, s: State, ns: string, t: Time, full: Time, list: seq<Metadata>,
                           fullMeta: seq<Metadata>, incrMeta: seq<Metadata>, group: seq<Metadata>, m: nat, key: string)
    requires Inv(c, s) && RestorePlan(s, ns, t, full, list, fullMeta, incrMeta, group)
    requires var k := LastReplayed(full, list); Sound(s, ns, full, k) && ScansEndBy(s, ns, full, k, m)
    requires Quiet(s.hist, m, LastReplayed(full, list), ns, key)
    ensures TakesUp(group, ns) && (full, ns) in s.fulls && InStore(list, s.incrs)
    ensures Rebuilds(s, ReplayList(s.fulls[(full, ns)].data, s.incrs, list), LastReplayed(full, list), ns, key)
  {
    PlanBase(s, t, full, fullMeta, group);
    PlanSelects(s.incrs, ns, t, full, list, incrMeta);
    var k := LastReplayed(full, list);
    SelectionUpToLast(s.incrs, list, ns, full, t);
    ReplayOfSelection(s.fulls[(full, ns)].data, s.incrs, list, ns, full, k);
    if list != [] {
      assert (k, ns) in s.incrs;
    }
    assert LastPoint(s.log, ns, full, k) == k;
    RestoredUpTo(c, s, ns, full, k, m, key);
  }
}
