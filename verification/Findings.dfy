/** Runs in which a record is lost although every backup that is replayed exists: each breaks
    one condition of a clean run, and shows that the condition is needed. */
module Findings {
  import opened Wrappers
  import opened History
  import opened BackupState
  import opened Routine
  import opened RoutineInvariant
  import opened RoutineSteps
  import opened Restore

  /** No full run is going on. */
  ghost predicate Calm(s: State) {
    !s.inProgress && s.fullRuns == map[] && 0 < s.now
  }

  /** The state after a full backup of one namespace taken at the present instant. */
  ghost function AfterFull(s: State, ns: string, data: Data): State {
    s.(triggered := s.triggered + {s.now}, fullHandlers := map[], lastFull := s.now, known := s.known + {s.now},
       fulls := s.fulls[(s.now, ns) := Scan(s.now, 0, |s.hist|, |s.hist|, data)])
  }

  /** A full run from its trigger to the start of its scans. */
  lemma BeginFull(c: Settings, R: State -> bool, s: State) returns (s': State)
    requires Closed(c, R) && R(s) && Calm(s)
    ensures R(s')
    ensures s' == s.(triggered := s.triggered + {s.now}, inProgress := true, fullRuns := One(s.now, Starting), fullHandlers := map[])
  {
    s' := s.(triggered := s.triggered + {s.now});
    Go(c, R, s, Full(FullTrigger), s');
    s' := EnterFull(c, R, s', s.now);
    s' := OpenFull(c, R, s', s.now);
  }

  /** A full run from its last metadata file to its end, deleting nothing. */
  lemma EndFull(c: Settings, R: State -> bool, s: State, stamp: Time) returns (s': State)
    requires Closed(c, R) && R(s) && s.fullRuns == One(stamp, Waiting(s.fullHandlers.Keys))
    ensures R(s') && s' == s.(lastFull := stamp, inProgress := false, fullRuns := map[], fullHandlers := map[])
  {
    s' := UpdateFull(c, R, s, stamp);
    s' := KeepIncrs(c, R, s', stamp);
    s' := LeaveFull(c, R, s', stamp);
  }

  lemma TakeFull(c: Settings, R: State -> bool, s: State, ns: string, data: Data) returns (s': State)
    requires c.namespaces == {ns} && !RemoveFullBackup(c.remove) && Closed(c, R) && R(s) && Calm(s)
    requires ReadsNow(s.hist, c.sealed, ns, 0, s.now, data)
    ensures R(s') && s' == AfterFull(s, ns, data)
  {
    s' := BeginFull(c, R, s);
    s' := ScanFull(c, R, s', s.now, ns);
    assert s'.fullHandlers == map[ns := |s.hist|] && s'.fullHandlers.Keys == {ns};
    s' := AwaitFull(c, R, s', s.now);
    s' := WriteFull(c, R, s', s.now, {}, ns, data);
    assert {} + {ns} == {ns};
    s' := EndFull(c, R, s', s.now);
  }

  /** Triggering an incremental run and passing its guards. */
  lemma BeginIncr(c: Settings, R: State -> bool, s: State) returns (s': State)
    requires Closed(c, R) && R(s) && Calm(s) && s.incr.Idle? && s.lastTrigger < s.now && s.lastFull != 0 && s.incrHandlers == map[]
    ensures R(s') && s' == s.(incr := Admitted(s.now), lastTrigger := s.now)
  {
    s' := TriggerIncr(c, R, s);
    s' := AdmitIncr(c, R, s');
  }

  /** Reading LastRun and starting the scan of the one namespace. */
  lemma DrainIncr(c: Settings, R: State -> bool, s: State, ns: string) returns (s': State)
    requires c.namespaces == {ns} && Closed(c, R) && R(s) && s.incr.Admitted?
    ensures R(s')
    ensures s' == s.(incr := Draining(s.incr.created, LatestRun(s.lastFull, s.lastIncr), {}), incrHandlers := map[ns := Some(|s.hist|)])
  {
    s' := OpenIncr(c, R, s);
    s' := ScanIncr(c, R, s', ns);
    assert s'.incrHandlers.Keys == {ns};
    s' := AwaitIncr(c, R, s');
  }

  /** A run in which the record `key`, written once long before `t`, is missing from the restore to `t`. */
  ghost predicate Loses(s: State, ns: string, full: Time, t: Time, key: string) {
    && (full, ns) in s.fulls && (forall f :: f in s.fulls && f.0 <= t ==> f.0 <= full)
    && key !in Restored(s, ns, full, t)
    && (exists i :: 0 <= i < |s.hist| && Touches(s.hist[i], ns, key) && s.hist[i].at < LastPoint(s.log, ns, full, t))
    && Quiet(s.hist, |s.hist|, LastPoint(s.log, ns, full, t), ns, key)
  }

  /** A full backup of an empty namespace at instant 1, then a record written at instant 2. */
  lemma Prelude(c: Settings, R: State -> bool) returns (s: State)
    requires Closed(c, R) && R(Init())
    requires c.namespaces == {"n"} && c.remove == KeepAll
    ensures R(s) && Calm(s) && s.incr.Idle? && s.incrHandlers == map[]
    ensures s.now == 3 && s.lastTrigger == 0 && s.lastFull == 1 && s.lastIncr == 0
    ensures s.hist == [Write(2, "n", "k", "v")] && s.fulls == map[(1, "n") := Scan(1, 0, 0, 0, map[])]
    ensures s.incrs == map[] && s.log == map[] && s.marks == {}
  {
    s := Init();
    assert ReadsNow(s.hist, c.sealed, "n", 0, s.now, map[]);
    s := TakeFull(c, R, s, "n", map[]);
    s := AdvanceTo(c, R, s, 2);
    s := WriteRecord(c, R, s, "n", "k", "v");
    s := AdvanceTo(c, R, s, 3);
  }

  /** The only record is older than the window. */
  lemma NothingInWindow(c: Settings, from: Time, created: Time)
    requires 2 < from
    ensures ReadsNow([Write(2, "n", "k", "v")], c.sealed, "n", from, created, map[])
  {
    var h := [Write(2, "n", "k", "v")];
    forall key
      ensures Reports(map[], key, Current(h, 1, "n", key), from, c.sealed, created)
    {
      assert Current(h, 0, "n", key) == Absent;
    }
  }

  lemma RestoredNothing(s: State, full: Time, t: Time)
    requires s.incrs == map[] && (full, "n") in s.fulls && s.fulls[(full, "n")].data == map[]
    ensures Restored(s, "n", full, t) == map[]
  {
    ReplayNone(s.incrs, "n", map[], full, t);
  }

  lemma {:induction false} NoPoint(log: map<Folder, Scan>, ns: string, full: Time, t: Time)
    requires forall x :: full < x <= t ==> (x, ns) !in log
    ensures LastPoint(log, ns, full, t) == full
  {
    if full < t {
      NoPoint(log, ns, full, t - 1);
    }
  }

  /** The incremental at instant 3 fails; the one at instant 4 finds nothing in its window. */
  lemma FailedRun(c: Settings, R: State -> bool) returns (s: State)
    requires Closed(c, R) && R(Init()) && c.namespaces == {"n"} && c.remove == KeepAll
    ensures R(s)
    ensures s.hist == [Write(2, "n", "k", "v")] && s.fulls == map[(1, "n") := Scan(1, 0, 0, 0, map[])]
    ensures s.incrs == map[] && s.log == map[(4, "n") := Scan(4, 3, 1, 1, map[])]
  {
    s := Prelude(c, R);
    s := BeginIncr(c, R, s);
    s := DrainIncr(c, R, s, "n");
    s := FailIncr(c, R, s, "n", map[]);
    assert s.incr.done == s.incrHandlers.Keys;
    s := UpdateIncr(c, R, s);
    s := AdvanceTo(c, R, s, 4);
    s := BeginIncr(c, R, s);
    s := DrainIncr(c, R, s, "n");
    NothingInWindow(c, 3, 4);
    s := WriteIncr(c, R, s, "n", map[]);
    assert s.incr.done == s.incrHandlers.Keys;
    s := UpdateIncr(c, R, s);
  }

  /** LastIncrRun advances past a failed incremental, so the next window starts after the
      records that the failed one did not store. */
  lemma FailedIncrementalLosesRecord(c: Settings) returns (s: State)
    requires c.namespaces == {"n"} && c.remove == KeepAll
    ensures Reachable(c, s) && Loses(s, "n", 1, 4, "k")
    ensures (4, "n") in s.log && !NoGapAt(s, "n", 1, 4)
    ensures s.hist == [Write(2, "n", "k", "v")] && s.fulls.Keys == {(1, "n")} && "k" !in Restored(s, "n", 1, 4)
  {
    ReachableIsClosed(c);
    s := FailedRun(c, x => Reachable(c, x));
    RestoredNothing(s, 1, 4);
    assert LastPoint(s.log, "n", 1, 4) == 4;
    NoPoint(s.log, "n", 1, 3);
    assert Touches(s.hist[0], "n", "k");
  }

  /** The incremental reads the clock at 3; a full backup stamped 4 completes before it reads LastRun. */
  lemma RacingRun(c: Settings, R: State -> bool) returns (s: State)
    requires Closed(c, R) && R(Init()) && c.namespaces == {"n"} && c.remove == KeepAll
    ensures R(s)
    ensures s.hist == [Write(2, "n", "k", "v")] && s.incrs == map[] && s.log == map[(3, "n") := Scan(3, 4, 1, 1, map[])]
    ensures s.fulls == map[(1, "n") := Scan(1, 0, 0, 0, map[]), (4, "n") := Scan(4, 0, 1, 1, map["k" := "v"])]
  {
    s := Prelude(c, R);
    s := BeginIncr(c, R, s);
    s := AdvanceTo(c, R, s, 4);
    var data: Data := map["k" := "v"];
    forall key
      ensures Reports(data, key, Current(s.hist, 1, "n", key), 0, c.sealed, 4)
    {
      assert Current(s.hist, 0, "n", key) == Absent;
    }
    s := TakeFull(c, R, s, "n", data);
    s := DrainIncr(c, R, s, "n");
    NothingInWindow(c, 4, 3);
    s := WriteIncr(c, R, s, "n", map[]);
    assert s.incr.done == s.incrHandlers.Keys;
    s := UpdateIncr(c, R, s);
  }

  /** An incremental run reads the clock before it reads LastRun. If a full backup starts and
      completes in between, the window starts after the run's own stamp, and restoring to that
      stamp misses what was written since the previous full backup. */
  lemma FullBetweenClockReadingsLosesRecord(c: Settings) returns (s: State)
    requires c.namespaces == {"n"} && c.remove == KeepAll
    ensures Reachable(c, s) && (3, "n") in s.log && s.log[(3, "n")].from == 4 && Loses(s, "n", 1, 3, "k")
    ensures !NoGapAt(s, "n", 1, 3)
    ensures s.hist == [Write(2, "n", "k", "v")] && s.fulls.Keys == {(1, "n"), (4, "n")} && "k" !in Restored(s, "n", 1, 3)
  {
    ReachableIsClosed(c);
    s := RacingRun(c, x => Reachable(c, x));
    RestoredNothing(s, 1, 3);
    assert LastPoint(s.log, "n", 1, 3) == 3;
    NoPoint(s.log, "n", 1, 2);
    assert Touches(s.hist[0], "n", "k");
  }

  // ----- a crash between the namespaces of one incremental run -----

  /** Records "j" of namespace "a" and "k" of namespace "b", both written at instant 2. */
  function TwoWrites(): seq<Write> {
    [Write(2, "a", "j", "w"), Write(2, "b", "k", "v")]
  }

  lemma TwoWritesNow(c: Settings, ns: string, from: Time, created: Time, data: Data)
    requires 0 < from && 2 < created
    requires from > 2 ==> data == map[]
    requires from <= 2 && ns == "a" ==> data == map["j" := "w"]
    requires from <= 2 && ns == "b" ==> data == map["k" := "v"]
    requires ns == "a" || ns == "b"
    ensures ReadsNow(TwoWrites(), c.sealed, ns, from, created, data)
  {
    var h := TwoWrites();
    forall key
      ensures Reports(data, key, Current(h, 2, ns, key), from, c.sealed, created)
    {
      assert Current(h, 0, ns, key) == Absent;
      assert Current(h, 1, ns, key) == if ns == "a" && key == "j" then Version(2, "w") else Absent;
    }
  }

  /** A full backup of both namespaces at instant 1, then one write to each at instant 2. */
  lemma TwoPrelude(c: Settings, R: State -> bool) returns (s: State)
    requires Closed(c, R) && R(Init()) && c.namespaces == {"a", "b"} && c.remove == KeepAll
    ensures R(s) && Calm(s) && s.incr.Idle? && s.incrHandlers == map[]
    ensures s.now == 3 && s.lastTrigger == 0 && s.lastFull == 1 && s.lastIncr == 0 && s.hist == TwoWrites()
    ensures s.fulls == map[(1, "a") := Scan(1, 0, 0, 0, map[]), (1, "b") := Scan(1, 0, 0, 0, map[])]
    ensures s.incrs == map[] && s.log == map[]
  {
    s := BeginFull(c, R, Init());
    s := ScanFull(c, R, s, 1, "a");
    s := ScanFull(c, R, s, 1, "b");
    assert s.fullHandlers.Keys == {"a", "b"};
    s := AwaitFull(c, R, s, 1);
    s := WriteFull(c, R, s, 1, {}, "a", map[]);
    s := WriteFull(c, R, s, 1, {} + {"a"}, "b", map[]);
    assert {} + {"a"} + {"b"} == s.fullHandlers.Keys;
    s := EndFull(c, R, s, 1);
    s := AdvanceTo(c, R, s, 2);
    s := WriteRecord(c, R, s, "a", "j", "w");
    s := WriteRecord(c, R, s, "b", "k", "v");
    s := AdvanceTo(c, R, s, 3);
  }

  /** Opening a run and starting the scans of both namespaces. */
  lemma TwoDrain(c: Settings, R: State -> bool, s: State) returns (s': State)
    requires c.namespaces == {"a", "b"} && Closed(c, R) && R(s) && s.incr.Admitted?
    ensures R(s')
    ensures s' == s.(incr := Draining(s.incr.created, LatestRun(s.lastFull, s.lastIncr), {}),
                     incrHandlers := map["a" := Some(|s.hist|), "b" := Some(|s.hist|)])
  {
    s' := OpenIncr(c, R, s);
    s' := ScanIncr(c, R, s', "a");
    s' := ScanIncr(c, R, s', "b");
    assert s'.incrHandlers == map["a" := Some(|s.hist|), "b" := Some(|s.hist|)];
    assert s'.incrHandlers.Keys == {"a", "b"};
    s' := AwaitIncr(c, R, s');
  }

  /** The incremental at instant 3 has stored namespace "a" when the service crashes. */
  lemma CrashedRun(c: Settings, R: State -> bool) returns (s: State)
    requires Closed(c, R) && R(Init()) && c.namespaces == {"a", "b"} && c.remove == KeepAll
    ensures R(s) && Calm(s) && s.incr.Idle? && s.incrHandlers == map[]
    ensures s.now == 4 && s.lastTrigger == 3 && s.lastFull == 1 && s.lastIncr == 3 && s.hist == TwoWrites()
    ensures s.fulls == map[(1, "a") := Scan(1, 0, 0, 0, map[]), (1, "b") := Scan(1, 0, 0, 0, map[])]
    ensures s.incrs == map[(3, "a") := map["j" := "w"]] && s.log == map[(3, "a") := Scan(3, 1, 2, 2, map["j" := "w"])]
  {
    s := TwoPrelude(c, R);
    s := BeginIncr(c, R, s);
    s := TwoDrain(c, R, s);
    var data: Data := map["j" := "w"];
    assert "j" in data;
    TwoWritesNow(c, "a", 1, 3, data);
    s := WriteIncr(c, R, s, "a", data);
    assert (1, "a") in s.fulls && (3, "a") in s.incrs;
    assert Stamps(s.fulls) == {1} && Stamps(s.incrs) == {3};
    s := Crash(c, R, s, 1, 3);
    s := AdvanceTo(c, R, s, 4);
  }

  lemma Crash(c: Settings, R: State -> bool, s: State, lastFull: Time, lastIncr: Time) returns (s': State)
    requires Closed(c, R) && R(s) && lastIncr != 0
    requires Stamps(s.fulls) == {lastFull} && Stamps(s.incrs) == {lastIncr}
    ensures R(s')
    ensures s' == s.(lastFull := lastFull, lastIncr := lastIncr, triggered := {}, inProgress := false, fullRuns := map[],
                     fullHandlers := map[], incr := Idle, incrHandlers := map[], marks := s.marks + {lastIncr})
  {
    s' := s.(lastFull := lastFull, lastIncr := lastIncr, triggered := {}, inProgress := false, fullRuns := map[],
             fullHandlers := map[], incr := Idle, incrHandlers := map[], marks := s.marks + {lastIncr});
    Go(c, R, s, Env(Restart(lastFull, lastIncr)), s');
  }

  /** The next incremental finds nothing of namespace "b" in its window. */
  lemma CrashAftermath(c: Settings, R: State -> bool) returns (s: State)
    requires Closed(c, R) && R(Init()) && c.namespaces == {"a", "b"} && c.remove == KeepAll
    ensures R(s) && s.hist == TwoWrites()
    ensures s.fulls == map[(1, "a") := Scan(1, 0, 0, 0, map[]), (1, "b") := Scan(1, 0, 0, 0, map[])]
    ensures (forall x :: (x, "b") !in s.incrs) && (4, "b") in s.log && s.log[(4, "b")].from == 3
    ensures forall x :: (x, "b") in s.log ==> x == 4
  {
    s := CrashedRun(c, R);
    s := BeginIncr(c, R, s);
    s := TwoDrain(c, R, s);
    TwoWritesNow(c, "b", 3, 4, map[]);
    s := WriteIncr(c, R, s, "b", map[]);
  }

  /** After a crash between the metadata files of one incremental run, the restart takes that run
      for completed, and the namespaces it had not stored lose what they wrote in its window. */
  lemma CrashMidIncrementalLosesRecord(c: Settings) returns (s: State)
    requires c.namespaces == {"a", "b"} && c.remove == KeepAll
    ensures Reachable(c, s) && Loses(s, "b", 1, 4, "k")
    ensures (4, "b") in s.log && !NoGapAt(s, "b", 1, 4)
    ensures s.hist == [Write(2, "a", "j", "w"), Write(2, "b", "k", "v")] && s.fulls.Keys == {(1, "a"), (1, "b")}
    ensures "k" !in Restored(s, "b", 1, 4)
  {
    ReachableIsClosed(c);
    s := CrashAftermath(c, x => Reachable(c, x));
    ReplayNone(s.incrs, "b", map[], 1, 4);
    assert LastPoint(s.log, "b", 1, 4) == 4;
    NoPoint(s.log, "b", 1, 3);
    assert Touches(s.hist[1], "b", "k");
  }
}
