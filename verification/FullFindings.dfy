/** Runs in which a failed, retried or overlapping full backup spoils a restore. */
module FullFindings {
  import opened Wrappers
  import opened History
  import opened BackupState
  import opened Backend
  import opened Routine
  import opened RoutineInvariant
  import opened RoutineSteps
  import opened Restore
  import opened CleanRuns
  import opened FullBackups
  import opened Findings

  // ----- a full backup that fails between two namespaces -----

  ghost predicate CleanlyReachable(c: Settings, s: State) {
    exists steps :: ReachesCleanly(c, steps, s)
  }

  /** Reached without any hazard as long as no incremental was triggered. */
  ghost predicate CleanSoFar(c: Settings, s: State) {
    Inv(c, s) && (s.lastTrigger == 0 ==> CleanlyReachable(c, s))
  }

  lemma OneMoreClean(c: Settings, s: State, step: Step, t: State)
    requires CleanlyReachable(c, s) && Enabled(c, s, step) && Clean(c, s, step) && t == Apply(c, s, step)
    ensures CleanlyReachable(c, t)
  {
    var steps :| ReachesCleanly(c, steps, s);
    assert (steps + [step])[..|steps|] == steps;
    assert ReachesCleanly(c, steps + [step], t);
  }

  lemma FullStepsAreClean(c: Settings, s: State, step: FullStep)
    requires c.remove == KeepAll && FullEnabled(c, s, step)
    ensures CleanFull(c, s, step) && ApplyFull(c, s, step).lastTrigger == s.lastTrigger
  {
  }

  lemma NoIncrStep(c: Settings, s: State, step: IncrStep)
    requires Newest(s) && 0 < s.now && IncrEnabled(c, s, step)
    ensures ApplyIncr(c, s, step).lastTrigger > 0
  {
  }

  lemma EnvStepsAreClean(c: Settings, s: State, step: EnvStep)
    requires Newest(s) && s.lastTrigger == 0 && EnvEnabled(s, step)
    ensures CleanEnv(c, s, step)
  {
  }

  lemma EnvKeepsTrigger(s: State, step: EnvStep)
    requires EnvEnabled(s, step)
    ensures ApplyEnv(s, step).lastTrigger == s.lastTrigger
  {
  }

  /** Under KeepAll no step before the first incremental is a hazard. */
  lemma StepBeforeIncrementals(c: Settings, s: State, step: Step)
    requires c.remove == KeepAll && Newest(s) && 0 < s.now && Enabled(c, s, step) && Apply(c, s, step).lastTrigger == 0
    ensures s.lastTrigger == 0 && Clean(c, s, step)
  {
    match step
    case Env(e) =>
      EnvKeepsTrigger(s, e);
      EnvStepsAreClean(c, s, e);
    case Full(f) => FullStepsAreClean(c, s, f);
    case Incr(i) => NoIncrStep(c, s, i);
  }

  lemma CleanSoFarIsClosed(c: Settings)
    requires c.remove == KeepAll && c.namespaces != {}
    ensures Closed(c, s => CleanSoFar(c, s)) && CleanSoFar(c, Init())
  {
    assert Reaches(c, [], Init()) && ReachesCleanly(c, [], Init());
    ReachableInv(c, [], Init());
    forall s, step, t | CleanSoFar(c, s) && Next(c, s, step) == Some(t)
      ensures CleanSoFar(c, t)
    {
      InvStep(c, s, step);
      if t.lastTrigger == 0 {
        StepBeforeIncrementals(c, s, step);
        OneMoreClean(c, s, step, t);
      }
    }
  }

  /** One record of namespace "b", written at instant 1. */
  function OneWrite(): seq<Write> {
    [Write(1, "b", "k", "v")]
  }

  lemma OneWriteNow(c: Settings, created: Time)
    requires 1 < created
    ensures ReadsNow(OneWrite(), c.sealed, "a", 0, created, map[]) && ReadsNow(OneWrite(), c.sealed, "b", 0, created, map["k" := "v"])
  {
    var h := OneWrite();
    forall ns, key
      ensures Current(h, 1, ns, key) == if ns == "b" && key == "k" then Version(1, "v") else Absent
    {
      assert Current(h, 0, ns, key) == Absent;
    }
  }

  /** A full run of both namespaces up to its last scan. */
  lemma ScanBoth(c: Settings, R: State -> bool, s: State) returns (s': State)
    requires Closed(c, R) && R(s) && Calm(s) && c.namespaces == {"a", "b"} && c.remove == KeepAll
    ensures R(s')
    ensures s' == s.(triggered := s.triggered + {s.now}, inProgress := true, fullRuns := One(s.now, Waiting({})),
                     fullHandlers := map["a" := |s.hist|, "b" := |s.hist|])
  {
    s' := BeginFull(c, R, s);
    s' := ScanFull(c, R, s', s.now, "a");
    s' := ScanFull(c, R, s', s.now, "b");
    assert s'.fullHandlers == map["a" := |s.hist|, "b" := |s.hist|] && s'.fullHandlers.Keys == {"a", "b"};
    s' := AwaitFull(c, R, s', s.now);
  }

  /** A whole full backup at instant 2; the one at instant 3 fails after storing namespace "a". */
  lemma PartialRun(c: Settings, R: State -> bool) returns (s: State)
    requires Closed(c, R) && R(Init()) && c.namespaces == {"a", "b"} && c.remove == KeepAll
    ensures R(s) && s.lastTrigger == 0 && s.fullRuns == map[]
    ensures s.fulls.Keys == {(2, "a"), (2, "b"), (3, "a")} && s.fulls[(2, "b")].data == map["k" := "v"]
  {
    s := WriteRecord(c, R, Init(), "b", "k", "v");
    assert s.hist == OneWrite();
    s := AdvanceTo(c, R, s, 2);
    s := ScanBoth(c, R, s);
    OneWriteNow(c, 2);
    s := WriteFull(c, R, s, 2, {}, "a", map[]);
    s := WriteFull(c, R, s, 2, {} + {"a"}, "b", map["k" := "v"]);
    assert {} + {"a"} + {"b"} == s.fullHandlers.Keys;
    s := EndFull(c, R, s, 2);
    s := AdvanceTo(c, R, s, 3);
    s := ScanBoth(c, R, s);
    OneWriteNow(c, 3);
    s := WriteFull(c, R, s, 3, {}, "a", map[]);
    s := FailFull(c, R, s, 3, Waiting({} + {"a"}));
    s := LeaveFull(c, R, s, 3);
  }

  /** A full backup that fails between two namespaces is still the latest one. Restoring to its stamp
      takes up the namespace that it stored and silently leaves out the other one, although an
      earlier full backup holds it; no other hazard is needed. */
  lemma PartialFullHidesNamespace(c: Settings) returns (s: State)
    requires c.namespaces == {"a", "b"} && c.remove == KeepAll
    ensures CleanlyReachable(c, s) && s.fullRuns == map[]
    ensures (2, "b") in s.fulls && s.fulls[(2, "b")].data == map["k" := "v"]
    ensures HasPlan(s, "a", 3) && !HasPlan(s, "b", 3)
  {
    CleanSoFarIsClosed(c);
    s := PartialRun(c, x => CleanSoFar(c, x));
    OnlyOnePlan(s);
  }

  lemma OnlyOnePlan(s: State)
    requires s.fulls.Keys == {(2, "a"), (2, "b"), (3, "a")}
    ensures HasPlan(s, "a", 3) && !HasPlan(s, "b", 3)
  {
    assert (3, "a") in s.fulls && (3, "b") !in s.fulls;
    assert Stamps(s.fulls) == {2, 3} by {
      assert (2, "a") in s.fulls;
    }
    LatestHoldsIff(s, "a", 3, 3);
    LatestHoldsIff(s, "b", 3, 3);
    PlanIff(s, "a", 3);
    PlanIff(s, "b", 3);
  }

  // ----- a retried full backup that clears newer incrementals -----

  /** Records "k" and "j", written at instants 3 and 5. */
  function LateWrites(n: nat): seq<Write>
    requires n <= 2
  {
    [Write(3, "n", "k", "v"), Write(5, "n", "j", "w")][..n]
  }

  lemma LateWritesNow(c: Settings)
    requires c.sealed
    ensures ReadsNow(LateWrites(1), c.sealed, "n", 1, 4, map["k" := "v"])
    ensures ReadsNow(LateWrites(1), c.sealed, "n", 0, 2, map[])
    ensures ReadsNow(LateWrites(2), c.sealed, "n", 4, 6, map["j" := "w"])
  {
    var h := LateWrites(2);
    assert LateWrites(1) == [Write(3, "n", "k", "v")] && h == [Write(3, "n", "k", "v"), Write(5, "n", "j", "w")];
    forall key
      ensures Current(LateWrites(1), 1, "n", key) == if key == "k" then Version(3, "v") else Absent
      ensures Current(h, 2, "n", key) == if key == "j" then Version(5, "w") else if key == "k" then Version(3, "v") else Absent
    {
      assert Current(LateWrites(1), 0, "n", key) == Absent;
      assert Current(h, 0, "n", key) == Absent;
      assert Current(h, 1, "n", key) == if key == "k" then Version(3, "v") else Absent;
    }
  }

  /** One incremental run of one namespace from its trigger to its end. */
  lemma TakeIncr(c: Settings, R: State -> bool, s: State, data: Data) returns (s': State)
    requires Closed(c, R) && R(s) && Calm(s) && c.namespaces == {"n"}
    requires s.incr.Idle? && s.lastTrigger < s.now && s.lastFull != 0 && s.incrHandlers == map[]
    requires ReadsNow(s.hist, c.sealed, "n", LatestRun(s.lastFull, s.lastIncr), s.now, data)
    ensures R(s')
    ensures s' == s.(lastTrigger := s.now, lastIncr := s.now, marks := s.marks + {s.now},
                     incrs := StoreIncr(s.incrs, (s.now, "n"), data),
                     log := s.log[(s.now, "n") := Scan(s.now, LatestRun(s.lastFull, s.lastIncr), |s.hist|, |s.hist|, data)])
  {
    s' := BeginIncr(c, R, s);
    s' := DrainIncr(c, R, s', "n");
    s' := WriteIncr(c, R, s', "n", data);
    assert s'.incr.done == s'.incrHandlers.Keys;
    s' := UpdateIncr(c, R, s');
  }

  /** A full run that fails before its first scan; its trigger stays pending. */
  lemma FailEarly(c: Settings, R: State -> bool, s: State) returns (s': State)
    requires Closed(c, R) && R(s) && Calm(s) && s.fullHandlers == map[]
    ensures R(s') && s' == s.(triggered := s.triggered + {s.now})
  {
    s' := BeginFull(c, R, s);
    s' := FailFull(c, R, s', s.now, Starting);
    s' := LeaveFull(c, R, s', s.now);
  }

  /** The stored full backups after a run of one namespace. */
  function WithFull(c: Settings, s: State, stamp: Time, data: Data): map<Folder, Scan> {
    (if RemoveFullBackup(c.remove) then WithoutFulls(s.fulls, "n") else s.fulls)[(stamp, "n") := Scan(stamp, 0, |s.hist|, |s.hist|, data)]
  }

  /** A full run with a stamp triggered before, which scans one namespace. */
  lemma ScanOne(c: Settings, R: State -> bool, s: State, stamp: Time, data: Data) returns (s': State)
    requires Closed(c, R) && R(s) && Calm(s) && c.namespaces == {"n"} && stamp in s.triggered
    requires ReadsNow(s.hist, c.sealed, "n", 0, stamp, data)
    ensures R(s')
    ensures s' == s.(inProgress := true, fullHandlers := map["n" := |s.hist|], fullRuns := One(stamp, Updated), lastFull := stamp,
                     known := s.known + {stamp}, fulls := WithFull(c, s, stamp, data))
  {
    s' := EnterFull(c, R, s, stamp);
    s' := OpenFull(c, R, s', stamp);
    s' := ScanFull(c, R, s', stamp, "n");
    assert s'.fullHandlers == map["n" := |s.hist|] && s'.fullHandlers.Keys == {"n"};
    s' := AwaitFull(c, R, s', stamp);
    s' := WriteFull(c, R, s', stamp, {}, "n", data);
    assert {} + {"n"} == s'.fullHandlers.Keys;
    s' := UpdateFull(c, R, s', stamp);
  }

  /** A full run that clears the incrementals. */
  lemma ScanAndClear(c: Settings, R: State -> bool, s: State, stamp: Time, data: Data) returns (s': State)
    requires Closed(c, R) && R(s) && Calm(s) && c.namespaces == {"n"} && stamp in s.triggered
    requires RemoveIncrementalBackup(c.remove) && ReadsNow(s.hist, c.sealed, "n", 0, stamp, data)
    ensures R(s')
    ensures s' == s.(fullHandlers := map[], lastFull := stamp, known := s.known + {stamp}, incrs := map[], cleared := Later(s.cleared, stamp),
                     fulls := WithFull(c, s, stamp, data))
  {
    s' := ScanOne(c, R, s, stamp, data);
    s' := DeleteIncrs(c, R, s', stamp);
    s' := LeaveFull(c, R, s', stamp);
  }

  /** A full run that fails to clear the incrementals, or need not. */
  lemma ScanAndKeep(c: Settings, R: State -> bool, s: State, stamp: Time, data: Data) returns (s': State)
    requires Closed(c, R) && R(s) && Calm(s) && c.namespaces == {"n"} && stamp in s.triggered
    requires ReadsNow(s.hist, c.sealed, "n", 0, stamp, data)
    ensures R(s')
    ensures s' == s.(fullHandlers := map[], lastFull := stamp, known := s.known + {stamp}, fulls := WithFull(c, s, stamp, data))
  {
    s' := ScanOne(c, R, s, stamp, data);
    s' := KeepIncrs(c, R, s', stamp);
    s' := LeaveFull(c, R, s', stamp);
  }

  /** Full backup 1, a failed full backup 2, record "k", incremental 4. */
  lemma UpToRetry(c: Settings, R: State -> bool) returns (s: State)
    requires Closed(c, R) && R(Init()) && c.namespaces == {"n"} && c.remove == RemoveIncremental && c.sealed
    ensures R(s) && Calm(s) && s.incr.Idle? && s.incrHandlers == map[] && 2 in s.triggered && s.hist == LateWrites(1)
    ensures s.now == 4 && s.lastTrigger == 4 && s.lastIncr == 4 && s.log.Keys == {(4, "n")}
    ensures s.fulls == map[(1, "n") := Scan(1, 0, 0, 0, map[])] && s.incrs == map[(4, "n") := map["k" := "v"]]
  {
    assert ReadsNow(Init().hist, c.sealed, "n", 0, 1, map[]);
    s := TakeFull(c, R, Init(), "n", map[]);
    s := AdvanceTo(c, R, s, 2);
    s := FailEarly(c, R, s);
    s := AdvanceTo(c, R, s, 3);
    s := WriteRecord(c, R, s, "n", "k", "v");
    assert s.hist == LateWrites(1);
    s := AdvanceTo(c, R, s, 4);
    LateWritesNow(c);
    assert "k" in map["k" := "v"];
    s := TakeIncr(c, R, s, map["k" := "v"]);
  }

  /** The retry of full backup 2, record "j", incremental 6. */
  lemma AfterRetry(c: Settings, R: State -> bool) returns (s: State)
    requires Closed(c, R) && R(Init()) && c.namespaces == {"n"} && c.remove == RemoveIncremental && c.sealed
    ensures R(s) && s.hist == LateWrites(2) && s.fulls.Keys == {(1, "n"), (2, "n")} && s.fulls[(2, "n")].data == map[]
    ensures s.incrs == map[(6, "n") := map["j" := "w"]] && s.log.Keys == {(4, "n"), (6, "n")}
  {
    s := UpToRetry(c, R);
    LateWritesNow(c);
    s := ScanAndClear(c, R, s, 2, map[]);
    s := AdvanceTo(c, R, s, 5);
    s := WriteRecord(c, R, s, "n", "j", "w");
    assert s.hist == LateWrites(2);
    s := AdvanceTo(c, R, s, 6);
    assert "j" in map["j" := "w"];
    s := TakeIncr(c, R, s, map["j" := "w"]);
  }

  /** A retried full backup keeps its stamp, and when it completes it clears the incrementals taken
      since, although its own sealed scan ends at the stamp. Restoring to the next incremental misses
      what was written in between. */
  lemma RetriedFullLosesRecord(c: Settings) returns (s: State)
    requires c.namespaces == {"n"} && c.remove == RemoveIncremental && c.sealed
    ensures Reachable(c, s) && (6, "n") in s.incrs && Loses(s, "n", 2, 6, "k")
    ensures s.hist == [Write(3, "n", "k", "v"), Write(5, "n", "j", "w")] && s.fulls.Keys == {(1, "n"), (2, "n")}
    ensures "k" !in Restored(s, "n", 2, 6)
  {
    ReachableIsClosed(c);
    s := AfterRetry(c, x => Reachable(c, x));
    OnlyIncremental(s, 2, 6, "j");
    assert LastPoint(s.log, "n", 2, 6) == 6 && Touches(s.hist[0], "n", "k");
  }

  /** Nothing but the record `j` is restored when it is all that is stored. */
  lemma OnlyIncremental(s: State, full: Time, t: Time, j: string)
    requires 0 < full < t && (full, "n") in s.fulls && s.fulls[(full, "n")].data == map[]
    requires (t, "n") in s.incrs && s.incrs[(t, "n")].Keys == {j} && forall x :: (x, "n") in s.incrs ==> x == t
    ensures Restored(s, "n", full, t).Keys == {j}
  {
    ReplayNone(s.incrs, "n", map[], full, t - 1);
  }

  // ----- a full backup that clears while an incremental is still draining -----

  /** Records "k" and "j", written at instants 2 and 3. */
  function EarlyWrites(n: nat): seq<Write>
    requires n <= 2
  {
    [Write(2, "n", "k", "v"), Write(3, "n", "j", "w")][..n]
  }

  lemma EarlyWritesNow(c: Settings)
    ensures ReadsNow(EarlyWrites(1), c.sealed, "n", 1, 3, map["k" := "v"])
    ensures ReadsNow(EarlyWrites(2), c.sealed, "n", 3, 4, map["j" := "w"])
    ensures ReadsNow(EarlyWrites(2), c.sealed, "n", 0, 5, map["k" := "v", "j" := "w"])
  {
    var h := EarlyWrites(2);
    assert EarlyWrites(1) == [Write(2, "n", "k", "v")] && h == [Write(2, "n", "k", "v"), Write(3, "n", "j", "w")];
    forall key
      ensures Current(EarlyWrites(1), 1, "n", key) == if key == "k" then Version(2, "v") else Absent
      ensures Current(h, 2, "n", key) == if key == "j" then Version(3, "w") else if key == "k" then Version(2, "v") else Absent
    {
      assert Current(EarlyWrites(1), 0, "n", key) == Absent;
      assert Current(h, 0, "n", key) == Absent;
      assert Current(h, 1, "n", key) == if key == "k" then Version(2, "v") else Absent;
    }
  }

  /** Full backup 1, record "k", incremental 3, record "j", incremental 4 up to its scan. */
  lemma UpToDraining(c: Settings, R: State -> bool) returns (s: State)
    requires Closed(c, R) && R(Init()) && c.namespaces == {"n"} && c.remove == RemoveIncremental
    ensures R(s) && Calm(s) && s.hist == EarlyWrites(2) && s.now == 4 && s.lastTrigger == 4 && s.fullHandlers == map[]
    ensures s.incr == Draining(4, 3, {}) && s.incrHandlers == map["n" := Some(2)]
    ensures s.fulls == map[(1, "n") := Scan(1, 0, 0, 0, map[])] && s.log.Keys == {(3, "n")}
  {
    assert ReadsNow(Init().hist, c.sealed, "n", 0, 1, map[]);
    s := TakeFull(c, R, Init(), "n", map[]);
    s := AdvanceTo(c, R, s, 2);
    s := WriteRecord(c, R, s, "n", "k", "v");
    assert s.hist == EarlyWrites(1);
    s := AdvanceTo(c, R, s, 3);
    EarlyWritesNow(c);
    s := TakeIncr(c, R, s, map["k" := "v"]);
    s := WriteRecord(c, R, s, "n", "j", "w");
    assert s.hist == EarlyWrites(2);
    s := AdvanceTo(c, R, s, 4);
    s := BeginIncr(c, R, s);
    s := DrainIncr(c, R, s, "n");
  }

  /** Full backup 5 completes and clears; then incremental 4 is stored. */
  lemma ClearedWhileDraining(c: Settings, R: State -> bool) returns (s: State)
    requires Closed(c, R) && R(Init()) && c.namespaces == {"n"} && c.remove == RemoveIncremental
    ensures R(s) && s.hist == EarlyWrites(2) && s.fulls.Keys == {(1, "n"), (5, "n")} && s.fulls[(1, "n")].data == map[]
    ensures s.incrs == map[(4, "n") := map["j" := "w"]] && s.log.Keys == {(3, "n"), (4, "n")}
  {
    s := UpToDraining(c, R);
    s := AdvanceTo(c, R, s, 5);
    EarlyWritesNow(c);
    var triggered := s.(triggered := s.triggered + {5});
    Go(c, R, s, Full(FullTrigger), triggered);
    s := ScanAndClear(c, R, triggered, 5, map["k" := "v", "j" := "w"]);
    assert "j" in map["j" := "w"];
    s := WriteIncr(c, R, s, "n", map["j" := "w"]);
  }

  /** A full run does not ask whether an incremental is going on. If it clears the incrementals while
      an older one is still draining, that one is stored without its predecessors, and restoring to
      it misses what they held. */
  lemma ClearingWhileDrainingLosesRecord(c: Settings) returns (s: State)
    requires c.namespaces == {"n"} && c.remove == RemoveIncremental
    ensures Reachable(c, s) && (4, "n") in s.incrs && Loses(s, "n", 1, 4, "k")
    ensures s.hist == [Write(2, "n", "k", "v"), Write(3, "n", "j", "w")] && s.fulls.Keys == {(1, "n"), (5, "n")}
    ensures "k" !in Restored(s, "n", 1, 4)
  {
    ReachableIsClosed(c);
    s := ClearedWhileDraining(c, x => Reachable(c, x));
    OnlyIncremental(s, 1, 4, "j");
    assert LastPoint(s.log, "n", 1, 4) == 4 && Touches(s.hist[0], "n", "k");
  }

  // ----- under RemoveAll, a late retry that replaces a newer full backup -----

  /** Records "k" and "j", written at instants 2 and 3. */
  lemma EarlyWritesSealed(c: Settings)
    requires c.sealed
    ensures ReadsNow(EarlyWrites(1), c.sealed, "n", 0, 3, map["k" := "v"])
    ensures ReadsNow(EarlyWrites(2), c.sealed, "n", 0, 2, map[])
  {
    var h := EarlyWrites(2);
    assert EarlyWrites(1) == [Write(2, "n", "k", "v")] && h == [Write(2, "n", "k", "v"), Write(3, "n", "j", "w")];
    forall key
      ensures Current(EarlyWrites(1), 1, "n", key) == if key == "k" then Version(2, "v") else Absent
      ensures Current(h, 2, "n", key) == if key == "j" then Version(3, "w") else if key == "k" then Version(2, "v") else Absent
    {
      assert Current(EarlyWrites(1), 0, "n", key) == Absent;
      assert Current(h, 0, "n", key) == Absent;
      assert Current(h, 1, "n", key) == if key == "k" then Version(2, "v") else Absent;
    }
  }

  /** A failed full backup 2, record "k", full backup 3, record "j", incremental 4 up to its scan. */
  lemma UpToStaleRetry(c: Settings, R: State -> bool) returns (s: State)
    requires Closed(c, R) && R(Init()) && c.namespaces == {"n"} && c.remove == RemoveAll && c.sealed
    ensures R(s) && Calm(s) && s.hist == EarlyWrites(2) && s.now == 4 && 2 in s.triggered && s.fullHandlers == map[]
    ensures s.incr == Draining(4, 3, {}) && s.incrHandlers == map["n" := Some(2)]
    ensures s.fulls.Keys == {(3, "n")} && s.fulls[(3, "n")].data == map["k" := "v"] && s.log == map[]
  {
    s := AdvanceTo(c, R, Init(), 2);
    s := FailEarly(c, R, s);
    s := WriteRecord(c, R, s, "n", "k", "v");
    assert s.hist == EarlyWrites(1);
    s := AdvanceTo(c, R, s, 3);
    EarlyWritesSealed(c);
    var triggered := s.(triggered := s.triggered + {3});
    Go(c, R, s, Full(FullTrigger), triggered);
    s := ScanAndClear(c, R, triggered, 3, map["k" := "v"]);
    s := WriteRecord(c, R, s, "n", "j", "w");
    assert s.hist == EarlyWrites(2);
    s := AdvanceTo(c, R, s, 4);
    s := BeginIncr(c, R, s);
    s := DrainIncr(c, R, s, "n");
  }

  /** The retry of full backup 2 replaces full backup 3 and clears; then incremental 4 is stored. */
  lemma StaleRetry(c: Settings, R: State -> bool) returns (s: State)
    requires Closed(c, R) && R(Init()) && c.namespaces == {"n"} && c.remove == RemoveAll && c.sealed
    ensures R(s) && s.hist == EarlyWrites(2) && s.fulls.Keys == {(2, "n")} && s.fulls[(2, "n")].data == map[]
    ensures s.incrs == map[(4, "n") := map["j" := "w"]] && s.log.Keys == {(4, "n")}
  {
    s := UpToStaleRetry(c, R);
    EarlyWritesSealed(c);
    EarlyWritesNow(c);
    s := ScanAndClear(c, R, s, 2, map[]);
    assert s.fulls.Keys == {(2, "n")};
    assert "j" in map["j" := "w"];
    s := WriteIncr(c, R, s, "n", map["j" := "w"]);
  }

  /** Under RemoveAll a namespace has one folder for its full backup. A late retry replaces a newer full
      backup by an older one, and restoring to an incremental that follows the newer one misses what
      was written in between. */
  lemma StaleRetryLosesRecord(c: Settings) returns (s: State)
    requires c.namespaces == {"n"} && c.remove == RemoveAll && c.sealed
    ensures Reachable(c, s) && (4, "n") in s.incrs && Loses(s, "n", 2, 4, "k")
    ensures s.hist == [Write(2, "n", "k", "v"), Write(3, "n", "j", "w")] && s.fulls.Keys == {(2, "n")}
    ensures "k" !in Restored(s, "n", 2, 4)
  {
    ReachableIsClosed(c);
    s := StaleRetry(c, x => Reachable(c, x));
    OnlyIncremental(s, 2, 4, "j");
    assert LastPoint(s.log, "n", 2, 4) == 4 && Touches(s.hist[0], "n", "k");
  }

  // ----- the same without sealing, when clearing fails -----

  /** Record "k", written at instants 3 and 4, and record "j", written at instant 5. */
  function TwoVersions(n: nat): seq<Write>
    requires n <= 3
  {
    [Write(3, "n", "k", "u"), Write(4, "n", "k", "v"), Write(5, "n", "j", "w")][..n]
  }

  lemma TwoVersionsCurrent(key: string)
    ensures Current(TwoVersions(1), 1, "n", key) == if key == "k" then Version(3, "u") else Absent
    ensures Current(TwoVersions(2), 2, "n", key) == if key == "k" then Version(4, "v") else Absent
    ensures Current(TwoVersions(3), 3, "n", key) == if key == "j" then Version(5, "w") else if key == "k" then Version(4, "v") else Absent
  {
    var a, b, h := TwoVersions(1), TwoVersions(2), TwoVersions(3);
    assert a == [h[0]] && b == [h[0], h[1]];
    assert Current(a, 0, "n", key) == Absent && Current(b, 0, "n", key) == Absent && Current(h, 0, "n", key) == Absent;
    assert Current(b, 1, "n", key) == if key == "k" then Version(3, "u") else Absent;
    assert Current(h, 1, "n", key) == if key == "k" then Version(3, "u") else Absent;
    assert Current(h, 2, "n", key) == if key == "k" then Version(4, "v") else Absent;
  }

  lemma TwoVersionsNow(c: Settings)
    requires !c.sealed
    ensures ReadsNow(TwoVersions(1), c.sealed, "n", 1, 4, map["k" := "u"])
    ensures ReadsNow(TwoVersions(2), c.sealed, "n", 0, 5, map["k" := "v"])
    ensures ReadsNow(TwoVersions(3), c.sealed, "n", 5, 6, map["j" := "w"])
    ensures ReadsNow(TwoVersions(3), c.sealed, "n", 0, 2, map["k" := "v", "j" := "w"])
  {
    forall key
      ensures Current(TwoVersions(1), 1, "n", key) == if key == "k" then Version(3, "u") else Absent
      ensures Current(TwoVersions(2), 2, "n", key) == if key == "k" then Version(4, "v") else Absent
      ensures Current(TwoVersions(3), 3, "n", key) == if key == "j" then Version(5, "w") else if key == "k" then Version(4, "v") else Absent
    {
      TwoVersionsCurrent(key);
    }
  }

  /** A full run triggered and taken now; clearing fails. */
  lemma TakeAndKeep(c: Settings, R: State -> bool, s: State, data: Data) returns (s': State)
    requires Closed(c, R) && R(s) && Calm(s) && c.namespaces == {"n"} && ReadsNow(s.hist, c.sealed, "n", 0, s.now, data)
    ensures R(s')
    ensures s' == s.(triggered := s.triggered + {s.now}, fullHandlers := map[], lastFull := s.now, known := s.known + {s.now},
                     fulls := WithFull(c, s, s.now, data))
  {
    s' := s.(triggered := s.triggered + {s.now});
    Go(c, R, s, Full(FullTrigger), s');
    s' := ScanAndKeep(c, R, s', s.now, data);
  }

  /** Full backup 1, a failed full backup 2, incremental 4, full backup 5. */
  lemma UpToFifth(c: Settings, R: State -> bool) returns (s: State)
    requires Closed(c, R) && R(Init()) && c.namespaces == {"n"} && c.remove == RemoveAll && !c.sealed
    ensures R(s) && Calm(s) && s.hist == TwoVersions(2) && s.now == 5 && 2 in s.triggered && s.incr.Idle? && s.incrHandlers == map[]
    ensures s.lastFull == 5 && s.lastIncr == 4 && s.lastTrigger == 4 && s.fulls.Keys == {(5, "n")}
    ensures s.incrs == map[(4, "n") := map["k" := "u"]]
  {
    assert ReadsNow(Init().hist, c.sealed, "n", 0, 1, map[]);
    s := TakeAndKeep(c, R, Init(), map[]);
    s := AdvanceTo(c, R, s, 2);
    s := FailEarly(c, R, s);
    s := AdvanceTo(c, R, s, 3);
    s := WriteRecord(c, R, s, "n", "k", "u");
    assert s.hist == TwoVersions(1);
    s := AdvanceTo(c, R, s, 4);
    TwoVersionsNow(c);
    assert "k" in map["k" := "u"];
    s := TakeIncr(c, R, s, map["k" := "u"]);
    s := WriteRecord(c, R, s, "n", "k", "v");
    assert s.hist == TwoVersions(2);
    s := AdvanceTo(c, R, s, 5);
    s := TakeAndKeep(c, R, s, map["k" := "v"]);
  }

  /** Incremental 6, and the retry of full backup 2. */
  lemma StaleRetryUnsealed(c: Settings, R: State -> bool) returns (s: State)
    requires Closed(c, R) && R(Init()) && c.namespaces == {"n"} && c.remove == RemoveAll && !c.sealed
    ensures R(s) && s.hist == TwoVersions(3) && s.fulls.Keys == {(2, "n")} && s.fulls[(2, "n")].data == map["k" := "v", "j" := "w"]
    ensures s.incrs == map[(4, "n") := map["k" := "u"], (6, "n") := map["j" := "w"]]
  {
    s := UpToFifth(c, R);
    s := WriteRecord(c, R, s, "n", "j", "w");
    assert s.hist == TwoVersions(3);
    s := AdvanceTo(c, R, s, 6);
    TwoVersionsNow(c);
    assert "j" in map["j" := "w"];
    s := TakeIncr(c, R, s, map["j" := "w"]);
    s := ScanAndKeep(c, R, s, 2, map["k" := "v", "j" := "w"]);
    assert s.fulls.Keys == {(2, "n")};
  }

  /** A full backup that is not sealed holds everything written before its scan, but when the earlier
      full backup could not clear the incrementals before it, a late retry brings them back behind the
      older stamp, and restoring replays an old version on top of a newer one. */
  lemma StaleRetryGoesBack(c: Settings) returns (s: State)
    requires c.namespaces == {"n"} && c.remove == RemoveAll && !c.sealed
    ensures Reachable(c, s) && (6, "n") in s.incrs && (2, "n") in s.fulls && LatestFull(Stamps(s.fulls), 2, 6)
    ensures Quiet(s.hist, |s.hist|, 6, "n", "k") && !Rebuilds(s, Restored(s, "n", 2, 6), 6, "n", "k")
    ensures s.hist == [Write(3, "n", "k", "u"), Write(4, "n", "k", "v"), Write(5, "n", "j", "w")]
    ensures "k" in Restored(s, "n", 2, 6) && Restored(s, "n", 2, 6)["k"] == "u"
  {
    ReachableIsClosed(c);
    s := StaleRetryUnsealed(c, x => Reachable(c, x));
    assert (2, "n") in s.fulls;
    OldVersionRestored(s);
    assert Stamps(s.fulls) == {2};
  }

  lemma OldVersionRestored(s: State)
    requires s.hist == TwoVersions(3) && (2, "n") in s.fulls
    requires s.incrs == map[(4, "n") := map["k" := "u"], (6, "n") := map["j" := "w"]]
    ensures !Rebuilds(s, Restored(s, "n", 2, 6), 6, "n", "k")
    ensures "k" in Restored(s, "n", 2, 6) && Restored(s, "n", 2, 6)["k"] == "u"
  {
    var base := s.fulls[(2, "n")].data;
    ReplayNone(s.incrs, "n", base, 2, 3);
    assert ReplayUpTo(s.incrs, "n", base, 2, 4) == base + map["k" := "u"];
    assert ReplayUpTo(s.incrs, "n", base, 2, 5) == base + map["k" := "u"];
    assert Restored(s, "n", 2, 6) == base + map["k" := "u"] + map["j" := "w"];
    assert Restored(s, "n", 2, 6)["k"] == "u";
    assert Before(s.hist, 3, 6, "n", "k") == Version(4, "v");
  }
}
