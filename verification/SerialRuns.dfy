/** Runs in which full and incremental backups do not overlap. */
module SerialRuns {
  import opened Wrappers
  import opened History
  import opened BackupState
  import opened Backend
  import opened Routine
  import opened RoutineInvariant
  import opened Restore
  import opened CleanRuns

  /** No overlap, stamps taken when a run starts, incremental scans succeed, restarts between runs. */
  ghost predicate Serial(c: Settings, s: State, step: Step)
    requires Enabled(c, s, step)
  {
    match step
    case Env(e) => SerialEnv(c, s, e)
    case Full(f) => SerialFull(c, s, f)
    case Incr(i) => SerialIncr(c, s, i)
  }

  ghost predicate SerialEnv(c: Settings, s: State, step: EnvStep) {
    step.Restart? ==> s.incr.Idle? && s.fullRuns == map[]
  }

  ghost predicate SerialFull(c: Settings, s: State, step: FullStep) {
    step.FullEnter? ==> s.incr.Idle? && step.stamp == s.now && s.lastTrigger < s.now
  }

  ghost predicate SerialIncr(c: Settings, s: State, step: IncrStep) {
    match step
    case IncrTrigger => s.fullRuns == map[] && forall g :: g in s.known ==> g < s.now
    case IncrStartFail(_) => false
    case IncrPartial(_, _) => false
    case IncrAllStarted => s.incrHandlers.Keys == c.namespaces
    case _ => true
  }

  /** The steps that a serial run must not take, in full: a restart while a run is going on; a full run
      that begins while an incremental is going on, with the stamp of an earlier instant or of an
      incremental; an incremental that is triggered while a full run is going on, or at the instant of
      one; and an incremental scan that does not start or does not complete. */
  lemma OverlapIff(c: Settings, s: State, step: Step)
    requires Enabled(c, s, step)
    ensures !Serial(c, s, step) <==>
              || (step.Env? && step.env.Restart? && (!s.incr.Idle? || s.fullRuns != map[]))
              || (step.Full? && step.full.FullEnter? && (!s.incr.Idle? || step.full.stamp != s.now || s.now <= s.lastTrigger))
              || (step.Incr? && step.incr.IncrTrigger? && (s.fullRuns != map[] || exists g :: g in s.known && s.now <= g))
              || (step.Incr? && (step.incr.IncrStartFail? || step.incr.IncrPartial?))
              || (step.Incr? && step.incr.IncrAllStarted? && s.incrHandlers.Keys != c.namespaces)
  {
    match step
    case Env(_) =>
    case Full(_) =>
    case Incr(_) =>
  }

  ghost predicate ReachesSerially(c: Settings, steps: seq<Step>, s: State)
    decreases |steps|
  {
    if steps == [] then s == Init()
    else
      var n := |steps| - 1;
      exists prev :: ReachesSerially(c, steps[..n], prev) && Enabled(c, prev, steps[n]) && Serial(c, prev, steps[n])
                     && s == Apply(c, prev, steps[n])
  }

  ghost predicate Apart(s: State) {
    && (s.fullRuns != map[] ==> s.incr.Idle?)
    && (forall id :: id in s.fullRuns ==> s.lastTrigger < s.fullRuns[id].stamp)
    && (forall id, g :: id in s.fullRuns && g in s.known ==> g <= s.fullRuns[id].stamp)
    && (!s.incr.Idle? ==> forall g :: g in s.known ==> g < s.incr.created)
    && (forall f :: f in s.log ==> f.0 !in s.known)
  }

  /** Later stamps belong to scans that ended later. */
  ghost predicate EndsInOrder(s: State) {
    && (forall f, g :: f in s.log && g in s.log && f.0 < g.0 ==> s.log[f].hi <= s.log[g].hi)
    && (forall f, g :: f in s.fulls && g in s.log && f.0 <= g.0 ==> s.fulls[f].hi <= s.log[g].hi)
  }

  /** The scans that are going on began after the end of every earlier one. */
  ghost predicate StartsInOrder(s: State) {
    !s.incr.Idle? ==> forall ns :: ns in s.incrHandlers && s.incrHandlers[ns].Some? ==> BeginsAfter(s, s.incrHandlers[ns].value)
  }

  ghost predicate BeginsAfter(s: State, lo: nat)
    requires !s.incr.Idle?
  {
    && (forall f :: f in s.log && f.0 < s.incr.created ==> s.log[f].hi <= lo)
    && (forall f :: f in s.fulls ==> s.fulls[f].hi <= lo)
  }

  ghost predicate SerialInv(s: State) {
    Apart(s) && EndsInOrder(s) && StartsInOrder(s)
  }

  lemma SerialIsClean(c: Settings, s: State, step: Step)
    requires Inv(c, s) && SerialInv(s) && Enabled(c, s, step) && Serial(c, s, step)
    ensures Clean(c, s, step)
  {
  }

  lemma ApartEnv(c: Settings, s: State, step: EnvStep)
    requires Clocked(s) && Apart(s) && EnvEnabled(s, step) && SerialEnv(c, s, step)
    ensures Apart(ApplyEnv(s, step))
  {
  }

  lemma ApartFull(c: Settings, s: State, step: FullStep)
    requires Clocked(s) && Dated(s) && Exclusive(c, s) && Apart(s) && FullEnabled(c, s, step) && SerialFull(c, s, step)
    ensures Apart(ApplyFull(c, s, step))
  {
  }

  lemma ApartIncr(c: Settings, s: State, step: IncrStep)
    requires Clocked(s) && Dated(s) && Newest(s) && Exclusive(c, s) && Apart(s) && IncrEnabled(c, s, step) && SerialIncr(c, s, step)
    ensures Apart(ApplyIncr(c, s, step))
  {
  }

  lemma ApartStep(c: Settings, s: State, step: Step)
    requires Clocked(s) && Dated(s) && Newest(s) && Exclusive(c, s) && Apart(s) && Enabled(c, s, step) && Serial(c, s, step)
    ensures Apart(Apply(c, s, step))
  {
    match step
    case Env(e) => ApartEnv(c, s, e);
    case Full(f) => ApartFull(c, s, f);
    case Incr(i) => ApartIncr(c, s, i);
  }

  /** No scan has ended later than now. */
  ghost predicate Ended(s: State) {
    && (forall f :: f in s.log ==> s.log[f].hi <= |s.hist|)
    && (forall f :: f in s.fulls ==> s.fulls[f].hi <= |s.hist|)
  }

  lemma ArchivedIsEnded(c: Settings, s: State)
    requires Archived(c, s)
    ensures Ended(s)
  {
    forall f | f in s.log
      ensures s.log[f].hi <= |s.hist|
    {
      assert Faithful(s.hist, c.sealed, f.1, s.log[f]);
    }
    forall f | f in s.fulls
      ensures s.fulls[f].hi <= |s.hist|
    {
      assert Faithful(s.hist, c.sealed, f.1, s.fulls[f]);
    }
  }

  lemma StartsInOrderEnv(c: Settings, s: State, step: EnvStep)
    requires StartsInOrder(s) && EnvEnabled(s, step)
    ensures StartsInOrder(ApplyEnv(s, step))
  {
  }

  lemma StartsInOrderFull(c: Settings, s: State, step: FullStep)
    requires Apart(s) && StartsInOrder(s) && FullEnabled(c, s, step)
    ensures StartsInOrder(ApplyFull(c, s, step))
  {
  }

  lemma StartsInOrderIncr(c: Settings, s: State, step: IncrStep)
    requires Guarded(s) && Ended(s) && StartsInOrder(s) && IncrEnabled(c, s, step)
    ensures StartsInOrder(ApplyIncr(c, s, step))
  {
  }

  lemma EndsInOrderEnv(c: Settings, s: State, step: EnvStep)
    requires EndsInOrder(s) && EnvEnabled(s, step)
    ensures EndsInOrder(ApplyEnv(s, step))
  {
  }

  lemma EndsInOrderFull(c: Settings, s: State, step: FullStep)
    requires Dated(s) && Apart(s) && EndsInOrder(s) && FullEnabled(c, s, step)
    ensures EndsInOrder(ApplyFull(c, s, step))
  {
  }

  lemma EndsInOrderWrite(c: Settings, s: State, step: IncrStep)
    requires step.IncrWrite? && Dated(s) && Newest(s) && EndsInOrder(s) && StartsInOrder(s) && IncrEnabled(c, s, step)
    ensures EndsInOrder(ApplyIncr(c, s, step))
  {
    assert BeginsAfter(s, s.incrHandlers[step.ns].value);
  }

  lemma EndsInOrderIncr(c: Settings, s: State, step: IncrStep)
    requires Dated(s) && Newest(s) && EndsInOrder(s) && StartsInOrder(s) && IncrEnabled(c, s, step)
    ensures EndsInOrder(ApplyIncr(c, s, step))
  {
    if step.IncrWrite? {
      EndsInOrderWrite(c, s, step);
    }
  }

  lemma InOrderStep(c: Settings, s: State, step: Step)
    requires Dated(s) && Newest(s) && Guarded(s) && Ended(s) && SerialInv(s) && Enabled(c, s, step)
    ensures EndsInOrder(Apply(c, s, step)) && StartsInOrder(Apply(c, s, step))
  {
    match step
    case Env(e) =>
      EndsInOrderEnv(c, s, e);
      StartsInOrderEnv(c, s, e);
    case Full(f) =>
      EndsInOrderFull(c, s, f);
      StartsInOrderFull(c, s, f);
    case Incr(i) =>
      EndsInOrderIncr(c, s, i);
      StartsInOrderIncr(c, s, i);
  }

  lemma SerialStep(c: Settings, s: State, step: Step)
    requires Inv(c, s) && CleanInv(c, s) && SerialInv(s) && Enabled(c, s, step) && Serial(c, s, step)
    ensures Clean(c, s, step)
    ensures Inv(c, Apply(c, s, step)) && CleanInv(c, Apply(c, s, step)) && SerialInv(Apply(c, s, step))
  {
    SerialIsClean(c, s, step);
    CleanStep(c, s, step);
    ApartStep(c, s, step);
    ArchivedIsEnded(c, s);
    InOrderStep(c, s, step);
  }

  /** A serial run is a clean one. */
  lemma {:induction false} ReachableSerially(c: Settings, steps: seq<Step>, s: State)
    requires c.namespaces != {} && ReachesSerially(c, steps, s)
    ensures ReachesCleanly(c, steps, s) && Inv(c, s) && CleanInv(c, s) && SerialInv(s)
    decreases |steps|
  {
    if steps != [] {
      var n := |steps| - 1;
      var prev :| ReachesSerially(c, steps[..n], prev) && Enabled(c, prev, steps[n]) && Serial(c, prev, steps[n])
                  && s == Apply(c, prev, steps[n]);
      ReachableSerially(c, steps[..n], prev);
      SerialStep(c, prev, steps[n]);
    }
  }

  /** The end of the scan of the backup stamped `k`. */
  ghost function EndOfScan(s: State, ns: string, full: Time, k: Time): nat
    requires (full, ns) in s.fulls
  {
    if (k, ns) in s.log then s.log[(k, ns)].hi else s.fulls[(full, ns)].hi
  }

  lemma LastScanEndsLast(c: Settings, s: State, ns: string, full: Time, k: Time)
    requires Archived(c, s) && Sourced(c, s) && SerialInv(s) && (full, ns) in s.fulls && full <= k
    requires k == full || (k, ns) in s.log
    ensures ScansEndBy(s, ns, full, k, EndOfScan(s, ns, full, k))
  {
    ArchivedIsEnded(c, s);
  }

  /** When runs do not overlap, only writes up to the end of the last replayed scan matter: a
      record not written between the last replayed backup's stamp K and the end of that backup's
      own scan is restored to the version it had at K. */
  lemma RestoreAfterSerialRun(c: Settings, steps: seq<Step>, s: State, ns: string, t: Time, full: Time, list: seq<Metadata>,
                              fullMeta: seq<Metadata>, incrMeta: seq<Metadata>, group: seq<Metadata>, key: string)
    requires ReachesSerially(c, steps, s) && ns in c.namespaces
    requires RestorePlan(s, ns, t, full, list, fullMeta, incrMeta, group)
    requires (full, ns) in s.fulls && EndOfScan(s, ns, full, LastReplayed(full, list)) <= |s.hist|
    requires Quiet(s.hist, EndOfScan(s, ns, full, LastReplayed(full, list)), LastReplayed(full, list), ns, key)
    ensures InStore(list, s.incrs)
    ensures Rebuilds(s, ReplayList(s.fulls[(full, ns)].data, s.incrs, list), LastReplayed(full, list), ns, key)
  {
    ReachableSerially(c, steps, s);
    PlanBase(s, t, full, fullMeta, group);
    PlanSelects(s.incrs, ns, t, full, list, incrMeta);
    var k := LastReplayed(full, list);
    assert k == full || (k, ns) in s.log by {
      assert list != [] ==> (k, ns) in s.incrs;
    }
    LastScanEndsLast(c, s, ns, full, k);
    RestoreAfterCleanRun(c, steps, s, ns, t, full, list, fullMeta, incrMeta, group, EndOfScan(s, ns, full, k), key);
  }
}
