/** Runs of the backup protocol in which restore is correct without further conditions. */
module CleanRuns {
  import opened Wrappers
  import opened History
  import opened BackupState
  import opened Backend
  import opened Routine
  import opened RoutineInvariant
  import opened Restore

  /** What a run must avoid; everything else, in particular failed and retried full backups
      and any overlap of full and incremental runs, is allowed. */
  ghost predicate Clean(c: Settings, s: State, step: Step)
    requires Enabled(c, s, step)
  {
    match step
    case Env(e) => CleanEnv(c, s, e)
    case Full(f) => CleanFull(c, s, f)
    case Incr(i) => CleanIncr(c, s, i)
  }

  /** A crash does not hit between the metadata files of one incremental run. */
  ghost predicate CleanEnv(c: Settings, s: State, step: EnvStep) {
    step.Restart? && s.incr.Draining? ==> s.incr.done == {} || s.incr.done == c.namespaces
  }

  /** Under RemoveAll a full run that takes the flag is no older than any full backup ever stored. */
  ghost predicate NoStaleEntry(c: Settings, s: State, step: FullStep) {
    step.FullEnter? && RemoveFullBackup(c.remove) && !s.inProgress ==> forall g :: g in s.known ==> g <= step.stamp
  }

  /** A full backup is known that is stamped no earlier than `y` and no later than `x`. */
  ghost predicate Covered(s: State, y: Time, x: Time) {
    exists g :: g in s.known && y <= g <= x
  }

  ghost predicate CleanFull(c: Settings, s: State, step: FullStep)
    requires FullEnabled(c, s, step)
  {
    match step
    // under RemoveAll no full backup enters, as a late retry may, that is older than a stored one
    case FullEnter(_, _) => NoStaleEntry(c, s, step)
    // no incremental that is deleted belongs after the full backup, or between an incremental that
    // is being taken and the full backup that this one follows
    case FullDelete(id) =>
      && (forall f :: f in s.incrs ==> f.0 < s.fullRuns[id].stamp)
      && (!s.incr.Idle? ==> forall f :: f in s.incrs ==> Covered(s, f.0, s.incr.created))
    case _ => true
  }

  ghost predicate CleanIncr(c: Settings, s: State, step: IncrStep)
    requires IncrEnabled(c, s, step)
  {
    match step
    // no full backup completes between the two clock readings of an incremental run
    case IncrOpen => LatestRun(s.lastFull, s.lastIncr) <= s.incr.created
    // incremental scans succeed
    case IncrStartFail(_) => false
    case IncrPartial(_, _) => false
    case IncrAllStarted => s.incrHandlers.Keys == c.namespaces
    case _ => true
  }

  /** The steps that a clean run must not take, in full: a crash between two metadata files of one incremental
      run; under RemoveAll a full run that is older than a stored full backup; clearing incrementals that
      are no older than the full backup, or that a draining incremental still needs; reading LastRun after
      the run's own stamp; and an incremental scan that does not start or does not complete. */
  lemma HazardIff(c: Settings, s: State, step: Step)
    requires Enabled(c, s, step)
    ensures !Clean(c, s, step) <==>
              || (step.Env? && step.env.Restart? && s.incr.Draining? && s.incr.done != {} && s.incr.done != c.namespaces)
              || (step.Full? && step.full.FullEnter? && c.remove == RemoveAll && !s.inProgress && exists g :: g in s.known && step.full.stamp < g)
              || (step.Full? && step.full.FullDelete? && exists f :: f in s.incrs && s.fullRuns[step.full.id].stamp <= f.0)
              || (step.Full? && step.full.FullDelete? && !s.incr.Idle?
                  && exists f :: f in s.incrs && forall g :: g in s.known ==> g < f.0 || s.incr.created < g)
              || (step.Incr? && step.incr.IncrOpen? && (s.incr.created < s.lastFull || s.incr.created < s.lastIncr))
              || (step.Incr? && (step.incr.IncrStartFail? || step.incr.IncrPartial?))
              || (step.Incr? && step.incr.IncrAllStarted? && s.incrHandlers.Keys != c.namespaces)
  {
    match step
    case Env(_) =>
    case Full(f) => HazardOfFull(c, s, f);
    case Incr(_) =>
  }

  lemma HazardOfFull(c: Settings, s: State, step: FullStep)
    requires FullEnabled(c, s, step)
    ensures !CleanFull(c, s, step) <==>
              || (step.FullEnter? && c.remove == RemoveAll && !s.inProgress && exists g :: g in s.known && step.stamp < g)
              || (step.FullDelete? && exists f :: f in s.incrs && s.fullRuns[step.id].stamp <= f.0)
              || (step.FullDelete? && !s.incr.Idle?
                  && exists f :: f in s.incrs && forall g :: g in s.known ==> g < f.0 || s.incr.created < g)
  {
    if step.FullDelete? && !s.incr.Idle? {
      forall f | f in s.incrs
        ensures !Covered(s, f.0, s.incr.created) <==> forall g :: g in s.known ==> g < f.0 || s.incr.created < g
      {
      }
    }
  }

  ghost predicate ReachesCleanly(c: Settings, steps: seq<Step>, s: State)
    decreases |steps|
  {
    if steps == [] then s == Init()
    else
      var n := |steps| - 1;
      exists prev :: ReachesCleanly(c, steps[..n], prev) && Enabled(c, prev, steps[n]) && Clean(c, prev, steps[n])
                     && s == Apply(c, prev, steps[n])
  }

  /** The run stamped `t` completed for every namespace. */
  ghost predicate Whole(c: Settings, s: State, t: Time) {
    forall ns :: ns in c.namespaces ==> (t, ns) in s.log
  }

  ghost predicate Completed(c: Settings, s: State) {
    && (forall f :: f in s.incrs ==> f in s.log)
    && (forall f :: f in s.incrs ==> Whole(c, s, f.0) || (s.incr.Draining? && f.0 == s.incr.created))
    && (forall t :: t in s.marks ==> Whole(c, s, t))
  }

  ghost predicate Handled(c: Settings, s: State) {
    && (forall ns :: ns in s.incrHandlers ==> s.incrHandlers[ns].Some?)
    && (s.incr.Draining? ==>
          && s.incrHandlers.Keys == c.namespaces && s.incr.done <= c.namespaces
          && (forall ns :: ns in s.incr.done ==> (s.incr.created, ns) in s.log)
          && (forall f :: f in s.incrs && f.0 == s.incr.created ==> f.1 in s.incr.done))
  }

  /** What was found between the latest full backup up to `x` and `x` is stored. */
  ghost predicate Complete(s: State, x: Time, ns: string) {
    forall y :: y < x && (y, ns) in s.log && s.log[(y, ns)].data != map[] && !Covered(s, y, x) ==> (y, ns) in s.incrs
  }

  /** What was not cleared is still stored, and nothing that a stored incremental needs was cleared. */
  ghost predicate Kept(c: Settings, s: State) {
    && (s.cleared != 0 ==> s.cleared in s.known && RemoveIncrementalBackup(c.remove))
    && (forall f :: f in s.log && s.log[f].data != map[] && s.cleared <= f.0 ==> f in s.incrs)
    && (forall f :: f in s.incrs ==> Complete(s, f.0, f.1))
    && (!s.incr.Idle? ==> forall ns :: Complete(s, s.incr.created, ns))
  }

  ghost predicate Forward(s: State) {
    && (forall f :: f in s.log ==> s.log[f].from <= f.0)
    && (s.incr.Opening? || s.incr.Draining? ==> s.incr.from <= s.incr.created)
  }

  /** Under RemoveAll the stored full backup is the newest one known. */
  ghost predicate Replaced(c: Settings, s: State) {
    RemoveFullBackup(c.remove) ==>
      && (forall f :: f in s.fulls ==> f.1 in c.namespaces)
      && (forall f, g :: f in s.fulls && g in s.known ==> g <= f.0)
      && (forall id :: id in s.fullRuns ==>
            && (forall g :: g in s.known ==> g <= s.fullRuns[id].stamp)
            && (s.fullRuns[id].phase.Starting? ==> forall f :: f in s.fulls ==> f.1 !in s.fullHandlers)
            && (s.fullRuns[id].phase.Waiting? ==> forall f :: f in s.fulls ==> f.0 == s.fullRuns[id].stamp))
  }

  ghost predicate CleanInv(c: Settings, s: State) {
    Completed(c, s) && Handled(c, s) && Kept(c, s) && Forward(s) && Replaced(c, s)
  }

  /** A crash leaves only whole runs behind, so the run read back is a whole one. */
  lemma CompletedRestart(c: Settings, s: State, step: EnvStep)
    requires Completed(c, s) && Handled(c, s) && step.Restart? && EnvEnabled(s, step) && CleanEnv(c, s, step)
    ensures Completed(c, ApplyEnv(s, step))
  {
    forall f | f in s.incrs
      ensures Whole(c, s, f.0)
    {
    }
    if step.incrRun != 0 {
      var f :| f in s.incrs && f.0 == step.incrRun;
    }
  }

  lemma CompletedEnv(c: Settings, s: State, step: EnvStep)
    requires Completed(c, s) && Handled(c, s) && EnvEnabled(s, step) && CleanEnv(c, s, step)
    ensures Completed(c, ApplyEnv(s, step))
  {
    if step.Restart? {
      CompletedRestart(c, s, step);
    }
  }

  lemma CompletedFull(c: Settings, s: State, step: FullStep)
    requires Completed(c, s) && FullEnabled(c, s, step) && CleanFull(c, s, step)
    ensures Completed(c, ApplyFull(c, s, step))
  {
  }

  lemma CompletedIncr(c: Settings, s: State, step: IncrStep)
    requires Completed(c, s) && Handled(c, s) && IncrEnabled(c, s, step) && CleanIncr(c, s, step)
    ensures Completed(c, ApplyIncr(c, s, step))
  {
  }

  lemma CompletedStep(c: Settings, s: State, step: Step)
    requires Completed(c, s) && Handled(c, s) && Enabled(c, s, step) && Clean(c, s, step)
    ensures Completed(c, Apply(c, s, step))
  {
    match step
    case Env(e) => CompletedEnv(c, s, e);
    case Full(f) => CompletedFull(c, s, f);
    case Incr(i) => CompletedIncr(c, s, i);
  }

  lemma HandledEnv(c: Settings, s: State, step: EnvStep)
    requires Handled(c, s) && EnvEnabled(s, step) && CleanEnv(c, s, step)
    ensures Handled(c, ApplyEnv(s, step))
  {
  }

  lemma HandledFull(c: Settings, s: State, step: FullStep)
    requires Handled(c, s) && FullEnabled(c, s, step) && CleanFull(c, s, step)
    ensures Handled(c, ApplyFull(c, s, step))
  {
  }

  lemma HandledIncr(c: Settings, s: State, step: IncrStep)
    requires Newest(s) && Guarded(s) && Handled(c, s) && IncrEnabled(c, s, step) && CleanIncr(c, s, step)
    ensures Handled(c, ApplyIncr(c, s, step))
  {
  }

  lemma HandledStep(c: Settings, s: State, step: Step)
    requires Newest(s) && Guarded(s) && Handled(c, s) && Enabled(c, s, step) && Clean(c, s, step)
    ensures Handled(c, Apply(c, s, step))
  {
    match step
    case Env(e) => HandledEnv(c, s, e);
    case Full(f) => HandledFull(c, s, f);
    case Incr(i) => HandledIncr(c, s, i);
  }

  /** A step that leaves the incrementals alone. */
  ghost predicate IncrsAlone(s: State, t: State) {
    && t.incrs == s.incrs && t.log == s.log && t.cleared == s.cleared && s.known <= t.known
    && (t.incr.Idle? || (!s.incr.Idle? && t.incr.created == s.incr.created))
  }

  lemma CompleteFrame(s: State, t: State, x: Time, ns: string)
    requires Complete(s, x, ns) && t.incrs == s.incrs && t.log == s.log && s.known <= t.known
    ensures Complete(t, x, ns)
  {
    assert forall y: Time :: Covered(s, y, x) ==> Covered(t, y, x);
  }

  lemma KeptFrame(c: Settings, s: State, t: State)
    requires Kept(c, s) && IncrsAlone(s, t)
    ensures Kept(c, t)
  {
    forall x, ns | Complete(s, x, ns)
      ensures Complete(t, x, ns)
    {
      CompleteFrame(s, t, x, ns);
    }
  }

  lemma KeptEnv(c: Settings, s: State, step: EnvStep)
    requires Kept(c, s) && EnvEnabled(s, step)
    ensures Kept(c, ApplyEnv(s, step))
  {
    KeptFrame(c, s, ApplyEnv(s, step));
  }

  lemma MostFullsLeaveIncrsAlone(c: Settings, s: State, step: FullStep)
    requires !step.FullDelete? && FullEnabled(c, s, step)
    ensures IncrsAlone(s, ApplyFull(c, s, step))
  {
  }

  lemma KeptDelete(c: Settings, s: State, id: nat)
    requires Exclusive(c, s) && Kept(c, s) && FullEnabled(c, s, FullDelete(id)) && CleanFull(c, s, FullDelete(id))
    ensures Kept(c, ApplyFull(c, s, FullDelete(id)))
  {
    var t := ApplyFull(c, s, FullDelete(id));
    assert t.log == s.log && t.known == s.known && t.incr == s.incr && s.fullRuns[id].stamp in s.known;
    forall f | f in t.log && t.log[f].data != map[]
      ensures f.0 < t.cleared
    {
      assert f in s.incrs ==> f.0 < s.fullRuns[id].stamp;
    }
    if !s.incr.Idle? {
      forall ns
        ensures Complete(t, s.incr.created, ns)
      {
        NothingNeeded(s, t, s.incr.created, ns);
      }
    }
  }

  lemma NothingNeeded(s: State, t: State, x: Time, ns: string)
    requires Complete(s, x, ns) && t.log == s.log && t.known == s.known && forall f :: f in s.incrs ==> Covered(s, f.0, x)
    ensures Complete(t, x, ns)
  {
    forall y | y < x && (y, ns) in t.log && t.log[(y, ns)].data != map[]
      ensures Covered(t, y, x)
    {
      assert (y, ns) in s.incrs ==> Covered(s, (y, ns).0, x);
      assert Covered(s, y, x) ==> Covered(t, y, x);
    }
  }

  lemma KeptFull(c: Settings, s: State, step: FullStep)
    requires Exclusive(c, s) && Kept(c, s) && FullEnabled(c, s, step) && CleanFull(c, s, step)
    ensures Kept(c, ApplyFull(c, s, step))
  {
    if step.FullDelete? {
      KeptDelete(c, s, step.id);
    } else {
      MostFullsLeaveIncrsAlone(c, s, step);
      KeptFrame(c, s, ApplyFull(c, s, step));
    }
  }

  lemma MostIncrsLeaveIncrsAlone(c: Settings, s: State, step: IncrStep)
    requires !step.IncrTrigger? && !step.IncrWrite? && !step.IncrPartial? && IncrEnabled(c, s, step)
    ensures IncrsAlone(s, ApplyIncr(c, s, step))
  {
  }

  /** What a new run follows is complete: what is not stored was cleared by a full backup up to now. */
  lemma KeptTrigger(c: Settings, s: State)
    requires Clocked(s) && Kept(c, s) && IncrEnabled(c, s, IncrTrigger)
    ensures Kept(c, ApplyIncr(c, s, IncrTrigger))
  {
    var t := ApplyIncr(c, s, IncrTrigger);
    forall ns, y | y < s.now && (y, ns) in s.log && s.log[(y, ns)].data != map[] && (y, ns) !in s.incrs
      ensures Covered(t, y, s.now)
    {
      assert s.cleared in t.known && y <= s.cleared <= s.now;
    }
    forall x, ns | Complete(s, x, ns)
      ensures Complete(t, x, ns)
    {
      CompleteFrame(s, t, x, ns);
    }
  }

  lemma KeptWrite(c: Settings, s: State, step: IncrStep)
    requires step.IncrWrite? && Dated(s) && Newest(s) && Kept(c, s) && IncrEnabled(c, s, step)
    ensures Kept(c, ApplyIncr(c, s, step))
  {
    var t := ApplyIncr(c, s, step);
    var folder := (s.incr.created, step.ns);
    assert folder !in s.incrs && folder !in s.log;
    forall x: Time, ns | x <= s.incr.created && Complete(s, x, ns)
      ensures Complete(t, x, ns)
    {
      assert forall y: Time :: Covered(t, y, x) == Covered(s, y, x);
    }
  }

  lemma KeptIncr(c: Settings, s: State, step: IncrStep)
    requires Clocked(s) && Dated(s) && Newest(s) && Kept(c, s) && IncrEnabled(c, s, step) && CleanIncr(c, s, step)
    ensures Kept(c, ApplyIncr(c, s, step))
  {
    if step.IncrTrigger? {
      KeptTrigger(c, s);
    } else if step.IncrWrite? {
      KeptWrite(c, s, step);
    } else {
      MostIncrsLeaveIncrsAlone(c, s, step);
      KeptFrame(c, s, ApplyIncr(c, s, step));
    }
  }

  lemma KeptStep(c: Settings, s: State, step: Step)
    requires Clocked(s) && Dated(s) && Newest(s) && Exclusive(c, s) && Kept(c, s) && Enabled(c, s, step) && Clean(c, s, step)
    ensures Kept(c, Apply(c, s, step))
  {
    match step
    case Env(e) => KeptEnv(c, s, e);
    case Full(f) => KeptFull(c, s, f);
    case Incr(i) => KeptIncr(c, s, i);
  }

  lemma ForwardEnv(c: Settings, s: State, step: EnvStep)
    requires Forward(s) && EnvEnabled(s, step) && CleanEnv(c, s, step)
    ensures Forward(ApplyEnv(s, step))
  {
  }

  lemma ForwardFull(c: Settings, s: State, step: FullStep)
    requires Forward(s) && FullEnabled(c, s, step) && CleanFull(c, s, step)
    ensures Forward(ApplyFull(c, s, step))
  {
  }

  lemma ForwardIncr(c: Settings, s: State, step: IncrStep)
    requires Forward(s) && IncrEnabled(c, s, step) && CleanIncr(c, s, step)
    ensures Forward(ApplyIncr(c, s, step))
  {
  }

  lemma ForwardStep(c: Settings, s: State, step: Step)
    requires Forward(s) && Enabled(c, s, step) && Clean(c, s, step)
    ensures Forward(Apply(c, s, step))
  {
    match step
    case Env(e) => ForwardEnv(c, s, e);
    case Full(f) => ForwardFull(c, s, f);
    case Incr(i) => ForwardIncr(c, s, i);
  }

  lemma ReplacedEnv(c: Settings, s: State, step: EnvStep)
    requires Replaced(c, s) && EnvEnabled(s, step)
    ensures Replaced(c, ApplyEnv(s, step))
  {
  }

  lemma ReplacedFull(c: Settings, s: State, step: FullStep)
    requires Exclusive(c, s) && Replaced(c, s) && FullEnabled(c, s, step) && NoStaleEntry(c, s, step)
    ensures Replaced(c, ApplyFull(c, s, step))
  {
    if step.FullStart? {
      ReplacedFullStart(c, s, step);
    } else if step.FullWrite? {
      ReplacedFullWrite(c, s, step);
    }
  }

  lemma ReplacedFullStart(c: Settings, s: State, step: FullStep)
    requires step.FullStart? && Exclusive(c, s) && Replaced(c, s) && FullEnabled(c, s, step)
    ensures Replaced(c, ApplyFull(c, s, step))
  {
  }

  lemma ReplacedFullWrite(c: Settings, s: State, step: FullStep)
    requires step.FullWrite? && Exclusive(c, s) && Replaced(c, s) && FullEnabled(c, s, step)
    ensures Replaced(c, ApplyFull(c, s, step))
  {
  }

  lemma ReplacedIncr(c: Settings, s: State, step: IncrStep)
    requires Replaced(c, s) && IncrEnabled(c, s, step)
    ensures Replaced(c, ApplyIncr(c, s, step))
  {
  }

  lemma ReplacedStep(c: Settings, s: State, step: Step)
    requires Exclusive(c, s) && Replaced(c, s) && Enabled(c, s, step) && (step.Full? ==> NoStaleEntry(c, s, step.full))
    ensures Replaced(c, Apply(c, s, step))
  {
    match step
    case Env(e) => ReplacedEnv(c, s, e);
    case Full(f) => ReplacedFull(c, s, f);
    case Incr(i) => ReplacedIncr(c, s, i);
  }

  /** Under RemoveAll a step keeps the stored full backup, and the one being taken, the newest one
      ever stored exactly when it is not the entry of a full run that is older than one of them. */
  lemma ReplacedStepIff(c: Settings, s: State, step: Step)
    requires Exclusive(c, s) && Replaced(c, s) && Enabled(c, s, step)
    ensures Replaced(c, Apply(c, s, step)) <==> (step.Full? ==> NoStaleEntry(c, s, step.full))
  {
    if step.Full? && !NoStaleEntry(c, s, step.full) {
      StaleEntry(c, s, step.full);
    } else {
      ReplacedStep(c, s, step);
    }
  }

  lemma StaleEntry(c: Settings, s: State, step: FullStep)
    requires FullEnabled(c, s, step) && !NoStaleEntry(c, s, step)
    ensures !Replaced(c, ApplyFull(c, s, step))
  {
    var t := ApplyFull(c, s, step);
    assert t.fullRuns[step.id].stamp == step.stamp && t.known == s.known;
  }

  /** A full run that is older than one ever stored makes storage go back as soon as it stores a
      namespace: under RemoveAll nothing newer is left of that namespace. */
  lemma StaleWrite(c: Settings, s: State, id: nat, ns: string, data: Data, hi: nat, g: Time)
    requires Exclusive(c, s) && RemoveFullBackup(c.remove) && FullEnabled(c, s, FullWrite(id, ns, data, hi))
    requires g in s.known && s.fullRuns[id].stamp < g && forall f :: f in s.fulls ==> f.1 != ns
    ensures var t := ApplyFull(c, s, FullWrite(id, ns, data, hi));
            (forall f :: f in t.fulls && f.1 == ns ==> f.0 == s.fullRuns[id].stamp) && g in t.known && !Replaced(c, t)
  {
    var t := ApplyFull(c, s, FullWrite(id, ns, data, hi));
    assert (s.fullRuns[id].stamp, ns) in t.fulls;
  }

  lemma CleanStep(c: Settings, s: State, step: Step)
    requires Inv(c, s) && CleanInv(c, s) && Enabled(c, s, step) && Clean(c, s, step)
    ensures Inv(c, Apply(c, s, step)) && CleanInv(c, Apply(c, s, step))
  {
    InvStep(c, s, step);
    CompletedStep(c, s, step);
    HandledStep(c, s, step);
    KeptStep(c, s, step);
    ForwardStep(c, s, step);
    ReplacedStep(c, s, step);
  }

  lemma {:induction false} ReachableCleanly(c: Settings, steps: seq<Step>, s: State)
    requires c.namespaces != {} && ReachesCleanly(c, steps, s)
    ensures Inv(c, s) && CleanInv(c, s)
    decreases |steps|
  {
    if steps != [] {
      var n := |steps| - 1;
      var prev :| ReachesCleanly(c, steps[..n], prev) && Enabled(c, prev, steps[n]) && Clean(c, prev, steps[n])
                  && s == Apply(c, prev, steps[n]);
      ReachableCleanly(c, steps[..n], prev);
      CleanStep(c, prev, steps[n]);
    }
  }

  /** The latest stored full backup is the latest known one, under every removal policy. */
  lemma LatestStoredIsLatestKnown(c: Settings, s: State, ns: string, full: Time, t: Time)
    requires Inv(c, s) && CleanInv(c, s) && (full, ns) in s.fulls && LatestFull(Stamps(s.fulls), full, t)
    ensures Base(s, ns, full, t)
  {
    forall g | g in s.known && g <= t
      ensures g <= full
    {
      if RemoveFullBackup(c.remove) {
        assert g <= (full, ns).0;
      } else {
        assert g in Stamps(s.fulls);
      }
    }
  }

  lemma SelectionIsComplete(c: Settings, s: State, ns: string, full: Time, t: Time)
    requires Completed(c, s) && Kept(c, s) && Base(s, ns, full, t)
    requires t == full || (t, ns) in s.incrs || c.remove == KeepAll
    ensures StoredAsScanned(s, ns, full, t)
  {
    forall x | full < x <= t && (x, ns) in s.log && s.log[(x, ns)].data != map[]
      ensures (x, ns) in s.incrs
    {
      if x < t && c.remove != KeepAll {
        assert (t, ns) in s.incrs && Complete(s, (t, ns).0, (t, ns).1);
        assert !Covered(s, x, t);
      }
    }
  }

  /** After a clean run the backups are sound up to every stored incremental of a full backup's
      namespace, and under KeepAll up to every instant. */
  lemma CleanRunsAreSound(c: Settings, s: State, ns: string, full: Time, t: Time)
    requires Inv(c, s) && CleanInv(c, s) && ns in c.namespaces && (full, ns) in s.fulls && LatestFull(Stamps(s.fulls), full, t)
    requires t == full || (t, ns) in s.incrs || c.remove == KeepAll
    ensures Sound(s, ns, full, t)
  {
    LatestStoredIsLatestKnown(c, s, ns, full, t);
    assert StoredAsScanned(s, ns, full, t) by {
      SelectionIsComplete(c, s, ns, full, t);
    }
    assert RunsCompleted(s, ns, full, t);
    forall x | full < x <= t && (x, ns) in s.log
      ensures NoGapAt(s, ns, full, x)
    {
      NoGapIffForward(c, s, ns, full, x);
    }
  }

  /** Restore after any clean run, for sealed and unsealed policies alike, of every namespace that the
      restore takes up: a record not written between the last replayed backup's stamp K and the end
      of the replayed scans is restored to the version it had at K. */
  lemma RestoreAfterCleanRun(c: Settings, steps: seq<Step>, s: State, ns: string, t: Time, full: Time, list: seq<Metadata>,
                             fullMeta: seq<Metadata>, incrMeta: seq<Metadata>, group: seq<Metadata>, m: nat, key: string)
    requires ReachesCleanly(c, steps, s) && ns in c.namespaces
    requires RestorePlan(s, ns, t, full, list, fullMeta, incrMeta, group) && TakesUp(group, ns)
    requires ScansEndBy(s, ns, full, LastReplayed(full, list), m) && Quiet(s.hist, m, LastReplayed(full, list), ns, key)
    ensures (full, ns) in s.fulls && InStore(list, s.incrs)
    ensures Rebuilds(s, ReplayList(s.fulls[(full, ns)].data, s.incrs, list), LastReplayed(full, list), ns, key)
  {
    ReachableCleanly(c, steps, s);
    PlanBase(s, t, full, fullMeta, group);
    PlanSelects(s.incrs, ns, t, full, list, incrMeta);
    SelectionUpToLast(s.incrs, list, ns, full, t);
    CleanRunsAreSound(c, s, ns, full, LastReplayed(full, list));
    PointInTimeRestore(c, s, ns, t, full, list, fullMeta, incrMeta, group, m, key);
  }

  /** Under KeepAll the windows of consecutive runs leave no gap at all, and restoring to any
      instant `t` rebuilds quiet records as of the last run up to `t`, even when that run found
      nothing and its folder was discarded. */
  lemma NoGapUnderKeepAll(c: Settings, steps: seq<Step>, s: State, ns: string, full: Time, t: Time, m: nat, key: string)
    requires c.remove == KeepAll && ReachesCleanly(c, steps, s) && ns in c.namespaces
    requires (full, ns) in s.fulls && LatestFull(Stamps(s.fulls), full, t)
    requires ScansEndBy(s, ns, full, t, m) && Quiet(s.hist, m, LastPoint(s.log, ns, full, t), ns, key)
    ensures forall x :: full < x <= t && (x, ns) in s.log ==> NoGapAt(s, ns, full, x)
    ensures Rebuilds(s, Restored(s, ns, full, t), LastPoint(s.log, ns, full, t), ns, key)
  {
    ReachableCleanly(c, steps, s);
    CleanRunsAreSound(c, s, ns, full, t);
    RestoredUpTo(c, s, ns, full, t, m, key);
  }
}
