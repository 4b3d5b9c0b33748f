/** A run that meets every condition of the restore theorems at once: under every policy of removal, sealed or
    not, a full backup, a write and an incremental that stores it, without overlap or failure. */
module SampleRun {
  import opened Wrappers
  import opened History
  import opened TimeBounds
  import opened Backend
  import opened BackupState
  import opened Routine
  import opened RoutineInvariant
  import opened RoutineSteps
  import opened Restore
  import opened CleanRuns
  import opened FullBackups
  import opened SerialRuns

  /** Reached by one run that is serial and breaks off no full backup. */
  ghost predicate Smoothly(c: Settings, s: State) {
    c.namespaces == {"n"} && exists steps :: ReachesSerially(c, steps, s) && ReachesThoroughly(c, steps, s)
  }

  /** A serial step that breaks off no full backup. */
  lemma Step(c: Settings, s: State, step: Step, t: State)
    requires Smoothly(c, s) && Next(c, s, step) == Some(t) && Serial(c, s, step) && Thorough(c, s, step)
    ensures Smoothly(c, t)
  {
    var steps :| ReachesSerially(c, steps, s) && ReachesThoroughly(c, steps, s);
    assert c.namespaces != {} by {
      assert "n" in c.namespaces;
    }
    ReachableSerially(c, steps, s);
    SerialIsClean(c, s, step);
    var more := steps + [step];
    assert more[..|steps|] == steps && more[|steps|] == step;
    assert ReachesSerially(c, more, t) && ReachesThoroughly(c, more, t);
  }

  /** A step of a full run that has entered. */
  lemma FullStep(c: Settings, s: State, step: Routine.FullStep, t: State)
    requires Smoothly(c, s) && FullEnabled(c, s, step) && t == ApplyFull(c, s, step) && !step.FullEnter? && !step.FullFail?
    ensures Smoothly(c, t)
  {
    Step(c, s, Full(step), t);
  }

  lemma IncrStep(c: Settings, s: State, step: Routine.IncrStep, t: State)
    requires Smoothly(c, s) && IncrEnabled(c, s, step) && t == ApplyIncr(c, s, step) && SerialIncr(c, s, step)
    ensures Smoothly(c, t)
  {
    Step(c, s, Incr(step), t);
  }

  /** The state between the runs: a full backup stamped 1 of an empty namespace. */
  function AfterFull(now: Time, hist: seq<Write>): State {
    State(now, hist, 1, 0, {1}, false, map[], map[], Idle, map[], map[(1, "n") := Scan(1, 0, 0, 0, map[])], map[], 0, {1}, map[], {}, 0)
  }

  /** A full run at instant 1 up to its metadata file. */
  lemma FullBegins(c: Settings) returns (s: State)
    requires c.namespaces == {"n"}
    ensures Smoothly(c, s) && s == Init().(triggered := {1}, inProgress := true, fullRuns := One(1, Waiting({})), fullHandlers := map["n" := 0])
  {
    assert ReachesSerially(c, [], Init()) && ReachesThoroughly(c, [], Init());
    var s1 := Init().(triggered := {} + {1});
    FullStep(c, Init(), FullTrigger, s1);
    var s2 := s1.(inProgress := true, fullRuns := One(1, Entered));
    Step(c, s1, Full(FullEnter(0, 1)), s2);
    var s3 := s2.(fullRuns := One(1, Starting));
    OneMoves(1, Entered, Starting);
    FullStep(c, s2, FullOpen(0), s3);
    var s4 := s3.(fullHandlers := map["n" := 0]);
    assert WithoutFulls(map[], "n") == map[];
    FullStep(c, s3, FullStart(0, "n"), s4);
    s := s4.(fullRuns := One(1, Waiting({})));
    OneMoves(1, Starting, Waiting({}));
    assert s4.fullHandlers.Keys == {"n"};
    FullStep(c, s4, FullAllStarted(0), s);
    assert {} + {1} == {1};
  }

  lemma FullEnds(c: Settings) returns (s: State)
    requires c.namespaces == {"n"}
    ensures Smoothly(c, s) && s == AfterFull(1, [])
  {
    var s0 := FullBegins(c);
    var s1 := s0.(fullRuns := One(1, Waiting({"n"})), known := {1}, fulls := map[(1, "n") := Scan(1, 0, 0, 0, map[])]);
    assert {} + {"n"} == {"n"} && {} + {1} == {1};
    OneMoves(1, Waiting({}), Waiting({"n"}));
    assert ReadsNow([], c.sealed, "n", 0, 1, map[]);
    ScanNow([], c.sealed, "n", Scan(1, 0, 0, 0, map[]));
    FullStep(c, s0, FullWrite(0, "n", map[], 0), s1);
    s := FullLeaves(c, s1);
  }

  lemma FullLeaves(c: Settings, s: State) returns (s': State)
    requires Smoothly(c, s) && s.fullRuns == One(1, Waiting({"n"})) && s.fullHandlers.Keys == {"n"}
    ensures Smoothly(c, s') && s' == s.(lastFull := 1, inProgress := false, fullRuns := map[], fullHandlers := map[])
  {
    var s1 := s.(fullRuns := One(1, Updated), lastFull := 1);
    OneMoves(1, Waiting({"n"}), Updated);
    FullStep(c, s, FullUpdate(0), s1);
    var s2 := s1.(fullRuns := One(1, Closing));
    OneMoves(1, Updated, Closing);
    FullStep(c, s1, FullKeep(0), s2);
    s' := FullExits(c, s2);
  }

  lemma FullExits(c: Settings, s: State) returns (s': State)
    requires Smoothly(c, s) && s.fullRuns == One(1, Closing)
    ensures Smoothly(c, s') && s' == s.(inProgress := false, fullRuns := map[], fullHandlers := map[])
  {
    var s3 := s.(fullRuns := One(1, Released), fullHandlers := map[]);
    OneMoves(1, Closing, Released);
    FullStep(c, s, FullClear(0), s3);
    s' := s3.(fullRuns := map[], inProgress := false);
    assert One(1, Released) - {0} == map[];
    FullStep(c, s3, FullExit(0), s');
  }

  /** A record is written at instant 2, and an incremental begins at instant 3. */
  lemma WriteAndDrain(c: Settings) returns (s: State)
    requires c.namespaces == {"n"}
    ensures Smoothly(c, s)
    ensures s == AfterFull(3, [Write(2, "n", "k", "v")]).(incr := Draining(3, 1, {}), incrHandlers := map["n" := Some(1)], lastTrigger := 3)
  {
    var s0 := FullEnds(c);
    Step(c, s0, Env(Advance(2)), AfterFull(2, []));
    var h := [Write(2, "n", "k", "v")];
    assert [] + h == h;
    Step(c, AfterFull(2, []), Env(Put("n", "k", "v")), AfterFull(2, h));
    Step(c, AfterFull(2, h), Env(Advance(3)), AfterFull(3, h));
    s := Drain(c, AfterFull(3, h));
  }

  lemma Drain(c: Settings, s: State) returns (s': State)
    requires Smoothly(c, s) && s.now == 3 && s.lastFull == 1 && s.lastIncr == 0 && s.lastTrigger == 0 && s.incr.Idle? && s.incrHandlers == map[]
    requires !s.inProgress && s.fullRuns == map[] && s.known == {1}
    ensures Smoothly(c, s') && s' == s.(incr := Draining(3, 1, {}), incrHandlers := map["n" := Some(|s.hist|)], lastTrigger := 3)
  {
    var s1 := s.(incr := Triggered(3), lastTrigger := 3);
    IncrStep(c, s, IncrTrigger, s1);
    var s2 := s1.(incr := Admitted(3));
    IncrStep(c, s1, IncrAdmit, s2);
    var s3 := s2.(incr := Opening(3, 1));
    IncrStep(c, s2, IncrOpen, s3);
    var s4 := s3.(incrHandlers := map["n" := Some(|s.hist|)]);
    IncrStep(c, s3, IncrStart("n"), s4);
    s' := s4.(incr := Draining(3, 1, {}));
    assert s4.incrHandlers.Keys == {"n"};
    IncrStep(c, s4, IncrAllStarted, s');
  }

  /** The run ends with the record stored in the incremental, and a restore to any instant from then on
      gives it back. */
  lemma RecordIsRestored(c: Settings, t: Time) returns (steps: seq<Routine.Step>, s: State)
    requires c.namespaces == {"n"} && 3 <= t
    ensures ReachesSerially(c, steps, s) && ReachesThoroughly(c, steps, s) && ReachesCleanly(c, steps, s)
    ensures s.hist == [Write(2, "n", "k", "v")] && s.fullRuns == map[] && s.lastIncr == 3
    ensures s.incrs == map[(3, "n") := map["k" := "v"]] && s.fulls == map[(1, "n") := Scan(1, 0, 0, 0, map[])]
    ensures HasPlan(s, "n", t) && Restored(s, "n", 1, t) == map["k" := "v"] && Rebuilds(s, Restored(s, "n", 1, t), 3, "n", "k")
  {
    var s0 := WriteAndDrain(c);
    var data: Data := map["k" := "v"];
    assert "k" in data;
    var scan := Scan(3, 1, 1, 1, data);
    ReadAtEnd(c);
    ScanNow(s0.hist, c.sealed, "n", scan);
    var s1 := s0.(incr := Draining(3, 1, {"n"}), incrs := map[(3, "n") := data], log := map[(3, "n") := scan]);
    assert {} + {"n"} == {"n"};
    IncrStep(c, s0, IncrWrite("n", data, 1), s1);
    s := s1.(incr := Idle, incrHandlers := map[], lastIncr := 3, marks := {3});
    assert {} + {3} == {3};
    assert s1.incrHandlers.Keys == {"n"};
    IncrStep(c, s1, IncrUpdate, s);
    steps :| ReachesSerially(c, steps, s) && ReachesThoroughly(c, steps, s);
    assert c.namespaces != {} by {
      assert "n" in c.namespaces;
    }
    ReachableSerially(c, steps, s);
    RestoredRecord(s, t);
  }

  lemma ReadAtEnd(c: Settings)
    ensures ReadsNow([Write(2, "n", "k", "v")], c.sealed, "n", 1, 3, map["k" := "v"])
  {
    var h := [Write(2, "n", "k", "v")];
    forall key
      ensures Reports(map["k" := "v"], key, Current(h, 1, "n", key), 1, c.sealed, 3)
    {
      assert Current(h, 0, "n", key) == Absent;
    }
  }

  lemma RestoredRecord(s: State, t: Time)
    requires 3 <= t && s.hist == [Write(2, "n", "k", "v")]
    requires s.incrs == map[(3, "n") := map["k" := "v"]] && s.fulls == map[(1, "n") := Scan(1, 0, 0, 0, map[])]
    ensures HasPlan(s, "n", t) && Restored(s, "n", 1, t) == map["k" := "v"] && Rebuilds(s, Restored(s, "n", 1, t), 3, "n", "k")
  {
    assert (1, "n") in s.fulls;
    assert Stamps(s.fulls) == {1};
    assert LatestFull(Stamps(s.fulls), 1, t);
    PlanIff(s, "n", t);
    ReplayNone(s.incrs, "n", map[], 1, 2);
    assert ReplayUpTo(s.incrs, "n", map[], 1, 3) == map["k" := "v"];
    ReplayIdle(s.incrs, "n", map[], 1, 3, t);
    assert Before(s.hist, 0, 3, "n", "k") == Absent;
  }
}
