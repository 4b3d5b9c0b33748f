/** Full backups that hold every namespace of the routine, and those that do not: the metadata of a full
    backup is written one namespace at a time, so a run that fails can leave a part of one behind. */
module FullBackups {
  import opened Wrappers
  import opened History
  import opened TimeBounds
  import opened Backend
  import opened Routine
  import opened RoutineInvariant
  import opened Restore
  import opened CleanRuns

  /** The full backup stamped `f` is stored for every namespace. */
  ghost predicate HoldsAll(c: Settings, s: State, f: Time) {
    forall ns :: ns in c.namespaces ==> (f, ns) in s.fulls
  }

  // ----- when a restore takes up every namespace -----

  /** A restore to `t` finds a full backup that holds the namespace. */
  ghost predicate HasPlan(s: State, ns: string, t: Time) {
    exists full, list, fullMeta, incrMeta, group :: RestorePlan(s, ns, t, full, list, fullMeta, incrMeta, group) && TakesUp(group, ns)
  }

  lemma {:induction false} ListFolders(folders: set<Folder>) returns (all: seq<Metadata>)
    ensures Lists(all, folders)
    decreases |folders|
  {
    if folders == {} {
      all := [];
    } else {
      var f :| f in folders;
      var rest := ListFolders(folders - {f});
      all := rest + [Metadata(f.0, f.1, 0)];
      assert FoldersOf(all) == FoldersOf(rest) + {f};
    }
  }

  lemma GroupIsLast(folders: set<Folder>, all: seq<Metadata>, full: Time, ns: string, t: Time)
    requires Lists(all, folders) && (full, ns) in folders && full <= t && forall f :: f in folders && f.0 <= t ==> f.0 <= full
    ensures var group := Keep(all, At(full)); IsLastFull(all, t, Ok(group)) && group[0].created == full
  {
    GroupHolds(folders, full, all, ns);
    var group := Keep(all, At(full));
    assert group[0] in group;
    forall m | m in all && m.created <= t
      ensures m.created <= full
    {
      assert (m.created, m.ns) in FoldersOf(all);
    }
  }

  lemma PlanExists(s: State, ns: string, t: Time, full: Time)
    requires LatestFull(Stamps(s.fulls), full, t) && (full, ns) in s.fulls
    ensures HasPlan(s, ns, t)
  {
    var fullMeta := ListFolders(s.fulls.Keys);
    var incrMeta := ListFolders(s.incrs.Keys);
    forall f | f in s.fulls.Keys && f.0 <= t
      ensures f.0 <= full
    {
      assert f.0 in Stamps(s.fulls);
    }
    GroupIsLast(s.fulls.Keys, fullMeta, full, ns, t);
    GroupHolds(s.fulls.Keys, full, fullMeta, ns);
    var list := SortByCreated(Keep(Keep(incrMeta, Within(TimeBounds(Some(full), Some(t)))), InNamespace(ns)));
    assert RestorePlan(s, ns, t, full, list, fullMeta, incrMeta, Keep(fullMeta, At(full)));
  }

  /** The latest stored full backup up to `t` holds the namespace. */
  ghost predicate LatestHolds(s: State, ns: string, t: Time) {
    exists full: Time :: LatestFull(Stamps(s.fulls), full, t) && (full, ns) in s.fulls
  }

  lemma PlanIff(s: State, ns: string, t: Time)
    ensures HasPlan(s, ns, t) <==> LatestHolds(s, ns, t)
  {
    if HasPlan(s, ns, t) {
      var full, list, fullMeta, incrMeta, group :| RestorePlan(s, ns, t, full, list, fullMeta, incrMeta, group) && TakesUp(group, ns);
      PlanBase(s, t, full, fullMeta, group);
    }
    if LatestHolds(s, ns, t) {
      var full: Time :| LatestFull(Stamps(s.fulls), full, t) && (full, ns) in s.fulls;
      PlanExists(s, ns, t, full);
    }
  }

  lemma LatestHoldsIff(s: State, ns: string, full: Time, t: Time)
    requires LatestFull(Stamps(s.fulls), full, t)
    ensures LatestHolds(s, ns, t) <==> (full, ns) in s.fulls
  {
    if LatestHolds(s, ns, t) {
      var other: Time :| LatestFull(Stamps(s.fulls), other, t) && (other, ns) in s.fulls;
      assert other == full;
    }
  }

  /** A restore to `t` takes up every namespace of the routine exactly when the latest stored full
      backup up to `t`, whose stamp is `full`, holds all of them. */
  lemma EveryNamespaceIff(c: Settings, s: State, full: Time, t: Time)
    requires LatestFull(Stamps(s.fulls), full, t)
    ensures (forall ns :: ns in c.namespaces ==> HasPlan(s, ns, t)) <==> HoldsAll(c, s, full)
  {
    forall ns | ns in c.namespaces
      ensures HasPlan(s, ns, t) <==> (full, ns) in s.fulls
    {
      PlanIff(s, ns, t);
      LatestHoldsIff(s, ns, full, t);
    }
  }

  // ----- runs that leave no part of a full backup behind -----

  /** No stored full backup lacks a namespace. */
  ghost predicate AllWhole(c: Settings, s: State) {
    forall f :: f in s.fulls ==> HoldsAll(c, s, f.0)
  }

  /** A full backup fails, and the service crashes, only when that leaves no part of one behind:
      before the first metadata file is written or after the last one, and under RemoveAll before
      the first folder is cleared. A retry that completes the stamp makes up for an earlier failure. */
  ghost predicate Thorough(c: Settings, s: State, step: Step) {
    (step.Full? && step.full.FullFail?) || (step.Env? && step.env.Restart?) ==> AllWhole(c, s)
  }

  /** The full run that is at work on the storage. */
  predicate AtWork(s: State, id: nat) {
    id in s.fullRuns && (s.fullRuns[id].phase.Starting? || s.fullRuns[id].phase.Waiting?)
  }

  ghost predicate InNamespaces(c: Settings, s: State) {
    forall f :: f in s.fulls ==> f.1 in c.namespaces
  }

  ghost predicate WholeUnlessAtWork(c: Settings, s: State) {
    (forall id :: id in s.fullRuns ==> !AtWork(s, id)) ==> AllWhole(c, s)
  }

  ghost predicate WholeAtWork(c: Settings, s: State) {
    forall id :: id in s.fullRuns ==>
      && (s.fullRuns[id].phase.Starting? ==>
            if RemoveFullBackup(c.remove) then forall f :: f in s.fulls ==> f.1 !in s.fullHandlers else AllWhole(c, s))
      && (s.fullRuns[id].phase.Waiting? ==>
            && (forall ns :: ns in s.fullRuns[id].phase.written ==> (s.fullRuns[id].stamp, ns) in s.fulls)
            && (forall f :: f in s.fulls && f.0 != s.fullRuns[id].stamp ==> HoldsAll(c, s, f.0)))
  }

  ghost predicate WholeInv(c: Settings, s: State) {
    InNamespaces(c, s) && WholeUnlessAtWork(c, s) && WholeAtWork(c, s)
  }

  /** A step that leaves the full backups and their runs alone. */
  ghost predicate FullsAlone(s: State, t: State) {
    t.fulls == s.fulls && t.fullRuns == s.fullRuns && t.fullHandlers == s.fullHandlers
  }

  lemma WholeFrame(c: Settings, s: State, t: State)
    requires WholeInv(c, s) && FullsAlone(s, t)
    ensures WholeInv(c, t)
  {
  }

  lemma IncrLeavesFulls(c: Settings, s: State, step: IncrStep)
    requires IncrEnabled(c, s, step)
    ensures FullsAlone(s, ApplyIncr(c, s, step))
  {
  }

  lemma WholeEnv(c: Settings, s: State, step: EnvStep)
    requires WholeInv(c, s) && EnvEnabled(s, step) && Thorough(c, s, Env(step))
    ensures WholeInv(c, ApplyEnv(s, step))
  {
    if !step.Restart? {
      WholeFrame(c, s, ApplyEnv(s, step));
    }
  }

  lemma WholeStart(c: Settings, s: State, step: FullStep)
    requires step.FullStart?
    requires WholeInv(c, s) && Exclusive(c, s) && FullEnabled(c, s, step) && Thorough(c, s, Full(step))
    ensures WholeInv(c, ApplyFull(c, s, step))
  {
  }

  lemma WholeAllStarted(c: Settings, s: State, step: FullStep)
    requires step.FullAllStarted?
    requires WholeInv(c, s) && Exclusive(c, s) && FullEnabled(c, s, step) && Thorough(c, s, Full(step))
    ensures WholeInv(c, ApplyFull(c, s, step))
  {
  }

  lemma WholeWrite(c: Settings, s: State, step: FullStep)
    requires step.FullWrite?
    requires WholeInv(c, s) && Exclusive(c, s) && FullEnabled(c, s, step) && Thorough(c, s, Full(step))
    ensures WholeInv(c, ApplyFull(c, s, step))
  {
  }

  lemma WholeEnds(c: Settings, s: State, step: FullStep)
    requires step.FullUpdate? || step.FullFail?
    requires WholeInv(c, s) && Exclusive(c, s) && FullEnabled(c, s, step) && Thorough(c, s, Full(step))
    ensures WholeInv(c, ApplyFull(c, s, step))
  {
  }

  lemma WholeRest(c: Settings, s: State, step: FullStep)
    requires !step.FullStart? && !step.FullAllStarted? && !step.FullWrite? && !step.FullUpdate? && !step.FullFail?
    requires WholeInv(c, s) && Exclusive(c, s) && FullEnabled(c, s, step) && Thorough(c, s, Full(step))
    ensures WholeInv(c, ApplyFull(c, s, step))
  {
  }

  lemma WholeFull(c: Settings, s: State, step: FullStep)
    requires WholeInv(c, s) && Exclusive(c, s) && FullEnabled(c, s, step) && Thorough(c, s, Full(step))
    ensures WholeInv(c, ApplyFull(c, s, step))
  {
    match step
    case FullStart(_, _) => WholeStart(c, s, step);
    case FullAllStarted(_) => WholeAllStarted(c, s, step);
    case FullWrite(_, _, _, _) => WholeWrite(c, s, step);
    case FullUpdate(_) => WholeEnds(c, s, step);
    case FullFail(_) => WholeEnds(c, s, step);
    case _ => WholeRest(c, s, step);
  }

  lemma WholeStep(c: Settings, s: State, step: Step)
    requires WholeInv(c, s) && Exclusive(c, s) && Enabled(c, s, step) && Thorough(c, s, step)
    ensures WholeInv(c, Apply(c, s, step))
  {
    match step
    case Env(e) => WholeEnv(c, s, e);
    case Full(f) => WholeFull(c, s, f);
    case Incr(i) =>
      IncrLeavesFulls(c, s, i);
      WholeFrame(c, s, ApplyIncr(c, s, i));
  }

  /** A step keeps the full backups whole exactly when it does not break off one that has begun. */
  lemma WholeStepIff(c: Settings, s: State, step: Step)
    requires WholeInv(c, s) && Exclusive(c, s) && Enabled(c, s, step)
    ensures WholeInv(c, Apply(c, s, step)) <==> Thorough(c, s, step)
    ensures Thorough(c, s, step) <==>
              ((step.Full? && step.full.FullFail?) || (step.Env? && step.env.Restart?) ==>
                 forall f, ns :: f in s.fulls && ns in c.namespaces ==> (f.0, ns) in s.fulls)
  {
    if Thorough(c, s, step) {
      WholeStep(c, s, step);
    } else {
      BrokenOff(c, s, step);
    }
  }

  lemma BrokenOff(c: Settings, s: State, step: Step)
    requires Exclusive(c, s) && Enabled(c, s, step) && !Thorough(c, s, step)
    ensures !WholeUnlessAtWork(c, Apply(c, s, step))
  {
    var t := Apply(c, s, step);
    assert t.fulls == s.fulls;
    assert forall id :: id in t.fullRuns ==> !AtWork(t, id);
  }

  /** `s` is reached by a clean run that breaks off no full backup. */
  ghost predicate ReachesThoroughly(c: Settings, steps: seq<Step>, s: State)
    decreases |steps|
  {
    if steps == [] then s == Init()
    else
      var n := |steps| - 1;
      exists prev :: ReachesThoroughly(c, steps[..n], prev) && Enabled(c, prev, steps[n]) && Clean(c, prev, steps[n])
                     && Thorough(c, prev, steps[n]) && s == Apply(c, prev, steps[n])
  }

  lemma {:induction false} ReachableThoroughly(c: Settings, steps: seq<Step>, s: State)
    requires c.namespaces != {} && ReachesThoroughly(c, steps, s)
    ensures ReachesCleanly(c, steps, s) && WholeInv(c, s)
    decreases |steps|
  {
    if steps != [] {
      var n := |steps| - 1;
      var prev :| ReachesThoroughly(c, steps[..n], prev) && Enabled(c, prev, steps[n]) && Clean(c, prev, steps[n])
                  && Thorough(c, prev, steps[n]) && s == Apply(c, prev, steps[n]);
      ReachableThoroughly(c, steps[..n], prev);
      ReachableCleanly(c, steps[..n], prev);
      WholeStep(c, prev, steps[n]);
    }
  }

  /** No full run is rewriting the full backup stamped `full`. */
  ghost predicate Undisturbed(c: Settings, s: State, full: Time) {
    forall id :: AtWork(s, id) ==> !RemoveFullBackup(c.remove) && s.fullRuns[id].stamp != full
  }

  lemma UndisturbedIsWhole(c: Settings, s: State, full: Time)
    requires WholeInv(c, s) && Undisturbed(c, s, full) && full in Stamps(s.fulls)
    ensures HoldsAll(c, s, full)
  {
    var f :| f in s.fulls && f.0 == full;
    if id :| AtWork(s, id) {
      assert s.fullRuns[id].stamp != full;
    } else {
      assert AllWhole(c, s);
    }
  }

  /** Restore after a clean run that broke off no full backup takes up every namespace of the routine,
      and rebuilds every record that was not written between the last replayed backup's stamp K and
      the end of the replayed scans as it was at K. */
  lemma RestoreEveryNamespace(c: Settings, steps: seq<Step>, s: State, ns: string, t: Time, full: Time, list: seq<Metadata>,
                              fullMeta: seq<Metadata>, incrMeta: seq<Metadata>, group: seq<Metadata>, m: nat, key: string)
    requires ReachesThoroughly(c, steps, s) && Undisturbed(c, s, full) && ns in c.namespaces
    requires RestorePlan(s, ns, t, full, list, fullMeta, incrMeta, group)
    ensures TakesUp(group, ns) && (full, ns) in s.fulls && InStore(list, s.incrs)
    ensures ScansEndBy(s, ns, full, LastReplayed(full, list), m) && Quiet(s.hist, m, LastReplayed(full, list), ns, key) ==>
              Rebuilds(s, ReplayList(s.fulls[(full, ns)].data, s.incrs, list), LastReplayed(full, list), ns, key)
  {
    ReachableThoroughly(c, steps, s);
    PlanBase(s, t, full, fullMeta, group);
    UndisturbedIsWhole(c, s, full);
    PlanSelects(s.incrs, ns, t, full, list, incrMeta);
    if ScansEndBy(s, ns, full, LastReplayed(full, list), m) && Quiet(s.hist, m, LastReplayed(full, list), ns, key) {
      RestoreAfterCleanRun(c, steps, s, ns, t, full, list, fullMeta, incrMeta, group, m, key);
    }
  }

  /** The same, record by record: if no write to a record between the last replayed backup's stamp K and the
      end of the replayed scans is stamped K or later, the restore gives it the value of its last write
      before K, and leaves it out if there is none. */
  lemma RestoreEveryRecord(c: Settings, steps: seq<Step>, s: State, ns: string, t: Time, full: Time, list: seq<Metadata>,
                           fullMeta: seq<Metadata>, incrMeta: seq<Metadata>, group: seq<Metadata>, m: nat, key: string)
    requires ReachesThoroughly(c, steps, s) && s.fullRuns == map[] && ns in c.namespaces
    requires RestorePlan(s, ns, t, full, list, fullMeta, incrMeta, group) && ScansEndBy(s, ns, full, LastReplayed(full, list), m)
    requires forall i :: 0 <= i < m && s.hist[i].ns == ns && s.hist[i].key == key ==> s.hist[i].at < LastReplayed(full, list)
    ensures (full, ns) in s.fulls && InStore(list, s.incrs)
    ensures var k, result := LastReplayed(full, list), ReplayList(s.fulls[(full, ns)].data, s.incrs, list);
            && (forall i | 0 <= i < |s.hist| && s.hist[i].ns == ns && s.hist[i].key == key && s.hist[i].at < k
                           && (forall j :: i < j < |s.hist| && s.hist[j].ns == ns && s.hist[j].key == key ==> k <= s.hist[j].at)
                  :: key in result && result[key] == s.hist[i].val)
            && ((forall i :: 0 <= i < |s.hist| && s.hist[i].ns == ns && s.hist[i].key == key ==> k <= s.hist[i].at) ==> key !in result)
  {
    RestoreEveryNamespace(c, steps, s, ns, t, full, list, fullMeta, incrMeta, group, m, key);
    RebuiltIsLastWrite(s, ReplayList(s.fulls[(full, ns)].data, s.incrs, list), LastReplayed(full, list), ns, key);
  }

  // ----- every reachable state -----

  /** What a full run has written is stored. */
  ghost predicate Written(c: Settings, s: State) {
    forall id :: id in s.fullRuns ==>
      match s.fullRuns[id].phase
      case Waiting(written) => forall ns :: ns in written ==> (s.fullRuns[id].stamp, ns) in s.fulls
      case Updated => HoldsAll(c, s, s.fullRuns[id].stamp)
      case _ => true
  }

  lemma WrittenFrame(c: Settings, s: State, t: State)
    requires Written(c, s) && FullsAlone(s, t)
    ensures Written(c, t)
  {
  }

  lemma WrittenFull(c: Settings, s: State, step: FullStep)
    requires Written(c, s) && Exclusive(c, s) && FullEnabled(c, s, step)
    ensures Written(c, ApplyFull(c, s, step))
  {
  }

  lemma WrittenStep(c: Settings, s: State, step: Step)
    requires Written(c, s) && Exclusive(c, s) && Enabled(c, s, step)
    ensures Written(c, Apply(c, s, step))
  {
    match step
    case Env(e) =>
      if !e.Restart? {
        WrittenFrame(c, s, ApplyEnv(s, e));
      }
    case Full(f) => WrittenFull(c, s, f);
    case Incr(i) =>
      IncrLeavesFulls(c, s, i);
      WrittenFrame(c, s, ApplyIncr(c, s, i));
  }

  lemma {:induction false} ReachableWritten(c: Settings, steps: seq<Step>, s: State)
    requires c.namespaces != {} && Reaches(c, steps, s)
    ensures Written(c, s)
    decreases |steps|
  {
    if steps != [] {
      var n := |steps| - 1;
      var prev :| Reaches(c, steps[..n], prev) && Enabled(c, prev, steps[n]) && s == Apply(c, prev, steps[n]);
      ReachableWritten(c, steps[..n], prev);
      ReachableInv(c, steps[..n], prev);
      WrittenStep(c, prev, steps[n]);
    }
  }
}
