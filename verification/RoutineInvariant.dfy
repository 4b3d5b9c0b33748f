/** What every reachable state of the backup protocol keeps. */
module RoutineInvariant {
  import opened Wrappers
  import opened History
  import opened BackupState
  import opened Routine

  /** Stamps come from a clock that never goes back. */
  ghost predicate Clocked(s: State) {
    && 0 < s.now && s.lastTrigger <= s.now
    && Ordered(s.hist) && (forall i :: 0 <= i < |s.hist| ==> s.hist[i].at <= s.now)
    && (forall t :: t in s.triggered ==> 0 < t <= s.now)
    && (forall id :: id in s.fullRuns ==> 0 < s.fullRuns[id].stamp <= s.now)
    && (forall t :: t in s.known ==> 0 < t <= s.now)
  }

  /** Incremental runs are no newer than the latest one triggered. */
  ghost predicate Dated(s: State) {
    && (forall f :: f in s.log ==> 0 < f.0 <= s.lastTrigger)
    && (forall f :: f in s.incrs ==> 0 < f.0 <= s.lastTrigger)
    && (forall t :: t in s.marks ==> 0 < t <= s.lastTrigger)
  }

  /** The run in progress is newer than every earlier incremental run. */
  ghost predicate Newest(s: State) {
    !s.incr.Idle? ==>
      && 0 < s.incr.created == s.lastTrigger
      && (forall t :: t in s.marks ==> t < s.incr.created)
      && (forall f :: f in s.log && f.0 == s.incr.created ==> s.incr.Draining? && f.1 in s.incr.done)
      && (forall f :: f in s.incrs && f.0 == s.incr.created ==> s.incr.Draining? && f.1 in s.incr.done)
  }

  /** At most one full run is past the compare-and-swap; the flag says whether there is one,
      and the handler map is empty whenever the flag is clear. */
  ghost predicate Exclusive(c: Settings, s: State) {
    && (s.inProgress <==> s.fullRuns != map[])
    && (forall a, b :: a in s.fullRuns && b in s.fullRuns ==> a == b)
    && (!s.inProgress ==> s.fullHandlers == map[])
    && (forall id :: id in s.fullRuns ==>
          match s.fullRuns[id].phase
          case Entered => s.fullHandlers == map[]
          case Released => s.fullHandlers == map[]
          case Updated => s.fullRuns[id].stamp in s.known && s.lastFull == s.fullRuns[id].stamp
          case Waiting(written) => written <= s.fullHandlers.Keys == c.namespaces && (written != {} ==> s.fullRuns[id].stamp in s.known)
          case _ => true)
  }

  /** No incremental gets past its guards before a full backup is known. */
  ghost predicate Guarded(s: State) {
    && (s.lastFull != 0 ==> s.lastFull in s.known)
    && (s.incr.Admitted? || s.incr.Opening? || s.incr.Draining? ==> s.lastFull != 0)
    && (s.lastIncr != 0 ==> s.lastIncr in s.marks)
    && (s.incr.Idle? || s.incr.Triggered? || s.incr.Admitted? ==> s.incrHandlers == map[])
  }

  /** Writes that follow the start of a scan are not stamped before its run. */
  ghost predicate Since(s: State, lo: nat, stamp: Time) {
    lo <= |s.hist| && forall i :: lo <= i < |s.hist| ==> stamp <= s.hist[i].at
  }

  ghost predicate InFlight(s: State) {
    && (forall id, ns :: id in s.fullRuns && ns in s.fullHandlers ==> Since(s, s.fullHandlers[ns], s.fullRuns[id].stamp))
    && (!s.incr.Idle? ==> forall ns :: ns in s.incrHandlers && s.incrHandlers[ns].Some? ==>
          Since(s, s.incrHandlers[ns].value, s.incr.created))
  }

  /** Stored full backups and completed incremental scans are faithful scans. */
  ghost predicate Archived(c: Settings, s: State) {
    && (forall f :: f in s.fulls ==>
          s.fulls[f].created == f.0 && s.fulls[f].from == 0 && Faithful(s.hist, c.sealed, f.1, s.fulls[f]))
    && (forall f :: f in s.log ==> s.log[f].created == f.0 && Faithful(s.hist, c.sealed, f.1, s.log[f]))
    && (forall f :: f in s.log && f in s.incrs ==> s.incrs[f] == s.log[f].data)
  }

  /** A window starts at zero, at an earlier run that advanced LastIncrRun, or at a full backup. */
  ghost predicate Origin(s: State, from: Time, created: Time) {
    from == 0 || (from in s.marks && from < created) || from in s.known
  }

  ghost predicate Sourced(c: Settings, s: State) {
    && (forall f :: f in s.fulls ==> f.0 in s.known)
    && (!RemoveFullBackup(c.remove) ==> forall t :: t in s.known ==> t in Stamps(s.fulls))
    && (forall f :: f in s.log ==> Origin(s, s.log[f].from, f.0))
    && (s.incr.Opening? || s.incr.Draining? ==> Origin(s, s.incr.from, s.incr.created))
  }

  ghost predicate Inv(c: Settings, s: State) {
    && c.namespaces != {}
    && Clocked(s) && Dated(s) && Newest(s) && Exclusive(c, s) && Guarded(s) && InFlight(s) && Archived(c, s) && Sourced(c, s)
  }

  lemma ClockedEnv(c: Settings, s: State, step: EnvStep)
    requires Clocked(s) && EnvEnabled(s, step)
    ensures Clocked(ApplyEnv(s, step))
  {
  }

  lemma ClockedFull(c: Settings, s: State, step: FullStep)
    requires Clocked(s) && FullEnabled(c, s, step)
    ensures Clocked(ApplyFull(c, s, step))
  {
  }

  lemma ClockedIncr(c: Settings, s: State, step: IncrStep)
    requires Clocked(s) && IncrEnabled(c, s, step)
    ensures Clocked(ApplyIncr(c, s, step))
  {
  }

  lemma ClockedStep(c: Settings, s: State, step: Step)
    requires Clocked(s) && Enabled(c, s, step)
    ensures Clocked(Apply(c, s, step))
  {
    match step
    case Env(e) => ClockedEnv(c, s, e);
    case Full(f) => ClockedFull(c, s, f);
    case Incr(i) => ClockedIncr(c, s, i);
  }

  lemma DatedEnv(c: Settings, s: State, step: EnvStep)
    requires Dated(s) && EnvEnabled(s, step)
    ensures Dated(ApplyEnv(s, step))
  {
  }

  lemma DatedFull(c: Settings, s: State, step: FullStep)
    requires Dated(s) && FullEnabled(c, s, step)
    ensures Dated(ApplyFull(c, s, step))
  {
  }

  lemma DatedIncr(c: Settings, s: State, step: IncrStep)
    requires s.lastTrigger <= s.now && Dated(s) && Newest(s) && IncrEnabled(c, s, step)
    ensures Dated(ApplyIncr(c, s, step))
  {
  }

  lemma DatedStep(c: Settings, s: State, step: Step)
    requires s.lastTrigger <= s.now && Dated(s) && Newest(s) && Enabled(c, s, step)
    ensures Dated(Apply(c, s, step))
  {
    match step
    case Env(e) => DatedEnv(c, s, e);
    case Full(f) => DatedFull(c, s, f);
    case Incr(i) => DatedIncr(c, s, i);
  }

  lemma NewestEnv(c: Settings, s: State, step: EnvStep)
    requires 0 < s.now && Dated(s) && Newest(s) && EnvEnabled(s, step)
    ensures Newest(ApplyEnv(s, step))
  {
  }

  lemma NewestFull(c: Settings, s: State, step: FullStep)
    requires Newest(s) && FullEnabled(c, s, step)
    ensures Newest(ApplyFull(c, s, step))
  {
  }

  lemma NewestIncr(c: Settings, s: State, step: IncrStep)
    requires 0 < s.now && Dated(s) && Newest(s) && IncrEnabled(c, s, step)
    ensures Newest(ApplyIncr(c, s, step))
  {
  }

  lemma NewestStep(c: Settings, s: State, step: Step)
    requires 0 < s.now && Dated(s) && Newest(s) && Enabled(c, s, step)
    ensures Newest(Apply(c, s, step))
  {
    match step
    case Env(e) => NewestEnv(c, s, e);
    case Full(f) => NewestFull(c, s, f);
    case Incr(i) => NewestIncr(c, s, i);
  }

  lemma ExclusiveEnv(c: Settings, s: State, step: EnvStep)
    requires Exclusive(c, s) && EnvEnabled(s, step)
    ensures Exclusive(c, ApplyEnv(s, step))
  {
  }

  lemma ExclusiveFull(c: Settings, s: State, step: FullStep)
    requires c.namespaces != {} && Exclusive(c, s) && FullEnabled(c, s, step)
    ensures Exclusive(c, ApplyFull(c, s, step))
  {
  }

  lemma ExclusiveIncr(c: Settings, s: State, step: IncrStep)
    requires Exclusive(c, s) && IncrEnabled(c, s, step)
    ensures Exclusive(c, ApplyIncr(c, s, step))
  {
  }

  lemma ExclusiveStep(c: Settings, s: State, step: Step)
    requires c.namespaces != {} && Exclusive(c, s) && Enabled(c, s, step)
    ensures Exclusive(c, Apply(c, s, step))
  {
    match step
    case Env(e) => ExclusiveEnv(c, s, e);
    case Full(f) => ExclusiveFull(c, s, f);
    case Incr(i) => ExclusiveIncr(c, s, i);
  }

  lemma GuardedEnv(c: Settings, s: State, step: EnvStep)
    requires Clocked(s) && Guarded(s) && Sourced(c, s) && EnvEnabled(s, step)
    ensures Guarded(ApplyEnv(s, step))
  {
  }

  lemma GuardedFull(c: Settings, s: State, step: FullStep)
    requires c.namespaces != {} && Clocked(s) && Exclusive(c, s) && Guarded(s) && FullEnabled(c, s, step)
    ensures Guarded(ApplyFull(c, s, step))
  {
  }

  lemma GuardedIncr(c: Settings, s: State, step: IncrStep)
    requires Newest(s) && Guarded(s) && IncrEnabled(c, s, step)
    ensures Guarded(ApplyIncr(c, s, step))
  {
  }

  lemma GuardedStep(c: Settings, s: State, step: Step)
    requires c.namespaces != {} && Clocked(s) && Newest(s) && Exclusive(c, s) && Guarded(s) && Sourced(c, s) && Enabled(c, s, step)
    ensures Guarded(Apply(c, s, step))
  {
    match step
    case Env(e) => GuardedEnv(c, s, e);
    case Full(f) => GuardedFull(c, s, f);
    case Incr(i) => GuardedIncr(c, s, i);
  }

  lemma InFlightEnv(c: Settings, s: State, step: EnvStep)
    requires Clocked(s) && Newest(s) && InFlight(s) && EnvEnabled(s, step)
    ensures InFlight(ApplyEnv(s, step))
  {
  }

  lemma InFlightFull(c: Settings, s: State, step: FullStep)
    requires Clocked(s) && Exclusive(c, s) && InFlight(s) && FullEnabled(c, s, step)
    ensures InFlight(ApplyFull(c, s, step))
  {
  }

  lemma InFlightIncr(c: Settings, s: State, step: IncrStep)
    requires Clocked(s) && Guarded(s) && InFlight(s) && IncrEnabled(c, s, step)
    ensures InFlight(ApplyIncr(c, s, step))
  {
  }

  lemma InFlightStep(c: Settings, s: State, step: Step)
    requires Clocked(s) && Newest(s) && Exclusive(c, s) && Guarded(s) && InFlight(s) && Enabled(c, s, step)
    ensures InFlight(Apply(c, s, step))
  {
    match step
    case Env(e) => InFlightEnv(c, s, e);
    case Full(f) => InFlightFull(c, s, f);
    case Incr(i) => InFlightIncr(c, s, i);
  }

  lemma ArchivedPut(c: Settings, s: State, w: Write)
    requires Clocked(s) && Dated(s) && Archived(c, s) && Sourced(c, s) && w.at == s.now
    ensures Archived(c, s.(hist := s.hist + [w]))
  {
    forall f | f in s.fulls
      ensures Faithful(s.hist + [w], c.sealed, f.1, s.fulls[f])
    {
      FaithfulOfExtension(s.hist, w, c.sealed, f.1, s.fulls[f]);
    }
    forall f | f in s.log
      ensures Faithful(s.hist + [w], c.sealed, f.1, s.log[f])
    {
      FaithfulOfExtension(s.hist, w, c.sealed, f.1, s.log[f]);
    }
  }

  lemma ArchivedFullWrite(c: Settings, s: State, id: nat, ns: string, data: Data, hi: nat)
    requires Archived(c, s) && InFlight(s) && FullEnabled(c, s, FullWrite(id, ns, data, hi))
    ensures Archived(c, ApplyFull(c, s, FullWrite(id, ns, data, hi)))
  {
    var scan := FullScan(s, id, ns, data, hi);
    assert Faithful(s.hist, c.sealed, ns, scan) by {
      assert Since(s, scan.lo, scan.created);
    }
  }

  lemma ArchivedIncrWrite(c: Settings, s: State, ns: string, data: Data, hi: nat)
    requires Archived(c, s) && InFlight(s) && IncrEnabled(c, s, IncrWrite(ns, data, hi))
    ensures Archived(c, ApplyIncr(c, s, IncrWrite(ns, data, hi)))
  {
    var scan := IncrScan(s, ns, data, hi);
    assert Faithful(s.hist, c.sealed, ns, scan) by {
      assert Since(s, scan.lo, scan.created);
    }
  }

  /** A state whose archive differs only by removals, and by incrementals outside the log. */
  ghost predicate ArchiveShrinks(s: State, t: State) {
    && t.hist == s.hist && t.log == s.log
    && (forall f :: f in t.fulls ==> f in s.fulls && t.fulls[f] == s.fulls[f])
    && (forall f :: f in t.incrs && f in s.log ==> f in s.incrs && t.incrs[f] == s.incrs[f])
  }

  lemma ArchivedFrame(c: Settings, s: State, t: State)
    requires Archived(c, s) && ArchiveShrinks(s, t)
    ensures Archived(c, t)
  {
  }

  lemma FullShrinksArchive(c: Settings, s: State, step: FullStep)
    requires !step.FullWrite? && FullEnabled(c, s, step)
    ensures ArchiveShrinks(s, ApplyFull(c, s, step))
  {
  }

  lemma IncrShrinksArchive(c: Settings, s: State, step: IncrStep)
    requires !step.IncrWrite? && Newest(s) && IncrEnabled(c, s, step)
    ensures ArchiveShrinks(s, ApplyIncr(c, s, step))
  {
  }

  lemma ArchivedEnv(c: Settings, s: State, step: EnvStep)
    requires Clocked(s) && Dated(s) && Archived(c, s) && Sourced(c, s) && EnvEnabled(s, step)
    ensures Archived(c, ApplyEnv(s, step))
  {
    if step.Put? {
      ArchivedPut(c, s, Write(s.now, step.ns, step.key, step.val));
    } else {
      ArchivedFrame(c, s, ApplyEnv(s, step));
    }
  }

  lemma ArchivedFull(c: Settings, s: State, step: FullStep)
    requires Archived(c, s) && InFlight(s) && FullEnabled(c, s, step)
    ensures Archived(c, ApplyFull(c, s, step))
  {
    if step.FullWrite? {
      ArchivedFullWrite(c, s, step.id, step.ns, step.data, step.hi);
    } else {
      FullShrinksArchive(c, s, step);
      ArchivedFrame(c, s, ApplyFull(c, s, step));
    }
  }

  lemma ArchivedIncr(c: Settings, s: State, step: IncrStep)
    requires Newest(s) && Archived(c, s) && InFlight(s) && IncrEnabled(c, s, step)
    ensures Archived(c, ApplyIncr(c, s, step))
  {
    if step.IncrWrite? {
      ArchivedIncrWrite(c, s, step.ns, step.data, step.hi);
    } else {
      IncrShrinksArchive(c, s, step);
      ArchivedFrame(c, s, ApplyIncr(c, s, step));
    }
  }

  lemma ArchivedStep(c: Settings, s: State, step: Step)
    requires Clocked(s) && Dated(s) && Newest(s) && InFlight(s) && Archived(c, s) && Sourced(c, s) && Enabled(c, s, step)
    ensures Archived(c, Apply(c, s, step))
  {
    match step
    case Env(e) => ArchivedEnv(c, s, e);
    case Full(f) => ArchivedFull(c, s, f);
    case Incr(i) => ArchivedIncr(c, s, i);
  }

  lemma SourcedEnv(c: Settings, s: State, step: EnvStep)
    requires Sourced(c, s) && EnvEnabled(s, step)
    ensures Sourced(c, ApplyEnv(s, step))
  {
  }

  lemma SourcedFull(c: Settings, s: State, step: FullStep)
    requires Sourced(c, s) && FullEnabled(c, s, step)
    ensures Sourced(c, ApplyFull(c, s, step))
  {
  }

  lemma SourcedIncr(c: Settings, s: State, step: IncrStep)
    requires Newest(s) && Guarded(s) && Sourced(c, s) && IncrEnabled(c, s, step)
    ensures Sourced(c, ApplyIncr(c, s, step))
  {
  }

  lemma SourcedStep(c: Settings, s: State, step: Step)
    requires Newest(s) && Guarded(s) && Sourced(c, s) && Enabled(c, s, step)
    ensures Sourced(c, Apply(c, s, step))
  {
    match step
    case Env(e) => SourcedEnv(c, s, e);
    case Full(f) => SourcedFull(c, s, f);
    case Incr(i) => SourcedIncr(c, s, i);
  }

  /** Every step keeps the invariant. */
  lemma InvStep(c: Settings, s: State, step: Step)
    requires Inv(c, s) && Enabled(c, s, step)
    ensures Inv(c, Apply(c, s, step))
  {
    ClockedStep(c, s, step);
    DatedStep(c, s, step);
    NewestStep(c, s, step);
    ExclusiveStep(c, s, step);
    GuardedStep(c, s, step);
    InFlightStep(c, s, step);
    ArchivedStep(c, s, step);
    SourcedStep(c, s, step);
  }

  /** Every reachable state satisfies the invariant, whatever was interleaved, failed or crashed. */
  lemma {:induction false} ReachableInv(c: Settings, steps: seq<Step>, s: State)
    requires c.namespaces != {} && Reaches(c, steps, s)
    ensures Inv(c, s)
    decreases |steps|
  {
    if steps != [] {
      var n := |steps| - 1;
      var prev :| Reaches(c, steps[..n], prev) && Enabled(c, prev, steps[n]) && s == Apply(c, prev, steps[n]);
      ReachableInv(c, steps[..n], prev);
      InvStep(c, prev, steps[n]);
    }
  }
}
