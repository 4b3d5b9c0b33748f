/** Following the protocol step by step. */
module RoutineSteps {
  import opened Wrappers
  import opened History
  import opened BackupState
  import opened Routine

  /** The outcome of a step, if it can happen. */
  ghost function Next(c: Settings, s: State, step: Step): Option<State> {
    if Enabled(c, s, step) then Some(Apply(c, s, step)) else None
  }

  /** `R` holds of everything that one more step leads to. */
  ghost predicate Closed(c: Settings, R: State -> bool) {
    forall s, step, t :: R(s) && Next(c, s, step) == Some(t) ==> R(t)
  }

  lemma Go(c: Settings, R: State -> bool, s: State, step: Step, t: State)
    requires Closed(c, R) && R(s) && Next(c, s, step) == Some(t)
    ensures R(t)
  {
  }

  ghost predicate Reachable(c: Settings, s: State) {
    exists steps :: Reaches(c, steps, s)
  }

  lemma ReachableIsClosed(c: Settings)
    ensures Closed(c, s => Reachable(c, s)) && Reachable(c, Init())
  {
    assert Reaches(c, [], Init());
    forall s, step, t | Reachable(c, s) && Next(c, s, step) == Some(t)
      ensures Reachable(c, t)
    {
      var steps :| Reaches(c, steps, s);
      assert (steps + [step])[..|steps|] == steps;
      assert Reaches(c, steps + [step], t);
    }
  }

  /** A scan that reads everything at the present instant. */
  ghost predicate ReadsNow(h: seq<Write>, sealed: bool, ns: string, from: Time, created: Time, data: Data) {
    forall key :: Reports(data, key, Current(h, |h|, ns, key), from, sealed, created)
  }

  lemma ScanNow(h: seq<Write>, sealed: bool, ns: string, b: Scan)
    requires b.lo <= b.hi == |h| && ReadsNow(h, sealed, ns, b.from, b.created, b.data)
    ensures forall key :: Observed(h, sealed, ns, b, key)
  {
    forall key
      ensures Observed(h, sealed, ns, b, key)
    {
      assert Reports(b.data, key, Current(h, b.hi, ns, key), b.from, sealed, b.created);
    }
  }

  /** The only full run, at the given phase. */
  function One(stamp: Time, phase: FullPhase): map<nat, FullRun> {
    map[0 := FullRun(stamp, phase)]
  }

  lemma OneMoves(stamp: Time, a: FullPhase, b: FullPhase)
    ensures One(stamp, a)[0 := FullRun(stamp, b)] == One(stamp, b)
  {
  }

  // ----- full backups -----

  lemma EnterFull(c: Settings, R: State -> bool, s: State, stamp: Time) returns (s': State)
    requires Closed(c, R) && R(s) && !s.inProgress && s.fullRuns == map[] && stamp in s.triggered
    ensures R(s') && s' == s.(inProgress := true, fullRuns := One(stamp, Entered))
  {
    s' := s.(inProgress := true, fullRuns := One(stamp, Entered));
    Go(c, R, s, Full(FullEnter(0, stamp)), s');
  }

  lemma AbandonFull(c: Settings, R: State -> bool, s: State, stamp: Time) returns (s': State)
    requires Closed(c, R) && R(s) && s.fullRuns == One(stamp, Entered)
    ensures R(s') && s' == s.(inProgress := false, fullRuns := map[])
  {
    s' := s.(inProgress := false, fullRuns := map[]);
    assert One(stamp, Entered) - {0} == map[];
    Go(c, R, s, Full(FullNoClient(0)), s');
  }

  lemma OpenFull(c: Settings, R: State -> bool, s: State, stamp: Time) returns (s': State)
    requires Closed(c, R) && R(s) && s.fullRuns == One(stamp, Entered)
    ensures R(s') && s' == s.(fullRuns := One(stamp, Starting), fullHandlers := map[])
  {
    s' := s.(fullRuns := One(stamp, Starting), fullHandlers := map[]);
    OneMoves(stamp, Entered, Starting);
    Go(c, R, s, Full(FullOpen(0)), s');
  }

  /** The scan of a namespace starts, which under RemoveAll clears its folder. */
  lemma ScanFull(c: Settings, R: State -> bool, s: State, stamp: Time, ns: string) returns (s': State)
    requires Closed(c, R) && R(s) && s.fullRuns == One(stamp, Starting) && ns in c.namespaces && ns !in s.fullHandlers
    ensures R(s')
    ensures s' == s.(fullHandlers := s.fullHandlers[ns := |s.hist|],
                     fulls := if RemoveFullBackup(c.remove) then WithoutFulls(s.fulls, ns) else s.fulls)
  {
    s' := s.(fullHandlers := s.fullHandlers[ns := |s.hist|],
             fulls := if RemoveFullBackup(c.remove) then WithoutFulls(s.fulls, ns) else s.fulls);
    Go(c, R, s, Full(FullStart(0, ns)), s');
  }

  lemma AwaitFull(c: Settings, R: State -> bool, s: State, stamp: Time) returns (s': State)
    requires Closed(c, R) && R(s) && s.fullRuns == One(stamp, Starting) && s.fullHandlers.Keys == c.namespaces
    ensures R(s') && s' == s.(fullRuns := One(stamp, Waiting({})))
  {
    s' := s.(fullRuns := One(stamp, Waiting({})));
    OneMoves(stamp, Starting, Waiting({}));
    Go(c, R, s, Full(FullAllStarted(0)), s');
  }

  lemma WriteFull(c: Settings, R: State -> bool, s: State, stamp: Time, done: set<string>, ns: string, data: Data) returns (s': State)
    requires Closed(c, R) && R(s) && s.fullRuns == One(stamp, Waiting(done))
    requires ns in s.fullHandlers && ns !in done && s.fullHandlers[ns] == |s.hist|
    requires ReadsNow(s.hist, c.sealed, ns, 0, stamp, data)
    ensures R(s')
    ensures s' == s.(fullRuns := One(stamp, Waiting(done + {ns})), known := s.known + {stamp},
                     fulls := s.fulls[(stamp, ns) := Scan(stamp, 0, |s.hist|, |s.hist|, data)])
  {
    ScanNow(s.hist, c.sealed, ns, Scan(stamp, 0, |s.hist|, |s.hist|, data));
    s' := s.(fullRuns := One(stamp, Waiting(done + {ns})), known := s.known + {stamp},
             fulls := s.fulls[(stamp, ns) := Scan(stamp, 0, |s.hist|, |s.hist|, data)]);
    OneMoves(stamp, Waiting(done), Waiting(done + {ns}));
    Go(c, R, s, Full(FullWrite(0, ns, data, |s.hist|)), s');
  }

  lemma UpdateFull(c: Settings, R: State -> bool, s: State, stamp: Time) returns (s': State)
    requires Closed(c, R) && R(s) && s.fullRuns == One(stamp, Waiting(s.fullHandlers.Keys))
    ensures R(s') && s' == s.(fullRuns := One(stamp, Updated), lastFull := stamp)
  {
    s' := s.(fullRuns := One(stamp, Updated), lastFull := stamp);
    OneMoves(stamp, Waiting(s.fullHandlers.Keys), Updated);
    Go(c, R, s, Full(FullUpdate(0)), s');
  }

  lemma DeleteIncrs(c: Settings, R: State -> bool, s: State, stamp: Time) returns (s': State)
    requires Closed(c, R) && R(s) && s.fullRuns == One(stamp, Updated) && RemoveIncrementalBackup(c.remove)
    ensures R(s') && s' == s.(fullRuns := One(stamp, Closing), incrs := map[], cleared := Later(s.cleared, stamp))
  {
    s' := s.(fullRuns := One(stamp, Closing), incrs := map[], cleared := Later(s.cleared, stamp));
    OneMoves(stamp, Updated, Closing);
    Go(c, R, s, Full(FullDelete(0)), s');
  }

  lemma KeepIncrs(c: Settings, R: State -> bool, s: State, stamp: Time) returns (s': State)
    requires Closed(c, R) && R(s) && s.fullRuns == One(stamp, Updated)
    ensures R(s') && s' == s.(fullRuns := One(stamp, Closing))
  {
    s' := s.(fullRuns := One(stamp, Closing));
    OneMoves(stamp, Updated, Closing);
    Go(c, R, s, Full(FullKeep(0)), s');
  }

  lemma FailFull(c: Settings, R: State -> bool, s: State, stamp: Time, phase: FullPhase) returns (s': State)
    requires Closed(c, R) && R(s) && s.fullRuns == One(stamp, phase) && (phase.Starting? || phase.Waiting?)
    ensures R(s') && s' == s.(fullRuns := One(stamp, Closing))
  {
    s' := s.(fullRuns := One(stamp, Closing));
    OneMoves(stamp, phase, Closing);
    Go(c, R, s, Full(FullFail(0)), s');
  }

  lemma LeaveFull(c: Settings, R: State -> bool, s: State, stamp: Time) returns (s': State)
    requires Closed(c, R) && R(s) && s.fullRuns == One(stamp, Closing)
    ensures R(s') && s' == s.(inProgress := false, fullRuns := map[], fullHandlers := map[])
  {
    var s1 := s.(fullRuns := One(stamp, Released), fullHandlers := map[]);
    OneMoves(stamp, Closing, Released);
    Go(c, R, s, Full(FullClear(0)), s1);
    s' := s1.(fullRuns := map[], inProgress := false);
    assert One(stamp, Released) - {0} == map[];
    Go(c, R, s1, Full(FullExit(0)), s');
  }

  // ----- incremental backups -----

  lemma TriggerIncr(c: Settings, R: State -> bool, s: State) returns (s': State)
    requires Closed(c, R) && R(s) && s.incr.Idle? && s.lastTrigger < s.now
    ensures R(s') && s' == s.(incr := Triggered(s.now), lastTrigger := s.now)
  {
    s' := s.(incr := Triggered(s.now), lastTrigger := s.now);
    Go(c, R, s, Incr(IncrTrigger), s');
  }

  lemma SkipIncr(c: Settings, R: State -> bool, s: State) returns (s': State)
    requires Closed(c, R) && R(s) && (s.incr.Triggered? || s.incr.Admitted?)
    ensures R(s') && s' == s.(incr := Idle)
  {
    s' := s.(incr := Idle);
    Go(c, R, s, Incr(if s.incr.Triggered? then IncrSkip else IncrNoClient), s');
  }

  lemma AdmitIncr(c: Settings, R: State -> bool, s: State) returns (s': State)
    requires Closed(c, R) && R(s) && s.incr.Triggered? && s.lastFull != 0 && !s.inProgress && s.incrHandlers == map[]
    ensures R(s') && s' == s.(incr := Admitted(s.incr.created))
  {
    s' := s.(incr := Admitted(s.incr.created));
    Go(c, R, s, Incr(IncrAdmit), s');
  }

  lemma OpenIncr(c: Settings, R: State -> bool, s: State) returns (s': State)
    requires Closed(c, R) && R(s) && s.incr.Admitted?
    ensures R(s') && s' == s.(incr := Opening(s.incr.created, LatestRun(s.lastFull, s.lastIncr)), incrHandlers := map[])
  {
    s' := s.(incr := Opening(s.incr.created, LatestRun(s.lastFull, s.lastIncr)), incrHandlers := map[]);
    Go(c, R, s, Incr(IncrOpen), s');
  }

  lemma ScanIncr(c: Settings, R: State -> bool, s: State, ns: string) returns (s': State)
    requires Closed(c, R) && R(s) && s.incr.Opening? && ns in c.namespaces && ns !in s.incrHandlers
    ensures R(s') && s' == s.(incrHandlers := s.incrHandlers[ns := Some(|s.hist|)])
  {
    s' := s.(incrHandlers := s.incrHandlers[ns := Some(|s.hist|)]);
    Go(c, R, s, Incr(IncrStart(ns)), s');
  }

  lemma ScanIncrFails(c: Settings, R: State -> bool, s: State, ns: string) returns (s': State)
    requires Closed(c, R) && R(s) && s.incr.Opening? && ns in c.namespaces && ns !in s.incrHandlers
    ensures R(s') && s' == s.(incrHandlers := s.incrHandlers[ns := None])
  {
    s' := s.(incrHandlers := s.incrHandlers[ns := None]);
    Go(c, R, s, Incr(IncrStartFail(ns)), s');
  }

  lemma AwaitIncr(c: Settings, R: State -> bool, s: State) returns (s': State)
    requires Closed(c, R) && R(s) && s.incr.Opening? && (s.incrHandlers.Keys == c.namespaces || s.incrHandlers == map[])
    ensures R(s') && s' == s.(incr := Draining(s.incr.created, s.incr.from, {}))
  {
    s' := s.(incr := Draining(s.incr.created, s.incr.from, {}));
    Go(c, R, s, Incr(IncrAllStarted), s');
  }

  /** One namespace of an incremental run completes. */
  lemma WriteIncr(c: Settings, R: State -> bool, s: State, ns: string, data: Data) returns (s': State)
    requires Closed(c, R) && R(s) && s.incr.Draining? && ns !in s.incr.done
    requires ns in s.incrHandlers && s.incrHandlers[ns] == Some(|s.hist|)
    requires ReadsNow(s.hist, c.sealed, ns, s.incr.from, s.incr.created, data)
    ensures R(s')
    ensures s' == s.(incr := s.incr.(done := s.incr.done + {ns}), incrs := StoreIncr(s.incrs, (s.incr.created, ns), data),
                     log := s.log[(s.incr.created, ns) := Scan(s.incr.created, s.incr.from, |s.hist|, |s.hist|, data)])
  {
    var scan := Scan(s.incr.created, s.incr.from, |s.hist|, |s.hist|, data);
    ScanNow(s.hist, c.sealed, ns, scan);
    s' := s.(incr := s.incr.(done := s.incr.done + {ns}), incrs := StoreIncr(s.incrs, (s.incr.created, ns), data),
             log := s.log[(s.incr.created, ns) := scan]);
    Go(c, R, s, Incr(IncrWrite(ns, data, |s.hist|)), s');
  }

  /** One namespace of an incremental run fails; some of it may still be stored. */
  lemma FailIncr(c: Settings, R: State -> bool, s: State, ns: string, data: Data) returns (s': State)
    requires Closed(c, R) && R(s) && s.incr.Draining? && ns !in s.incr.done
    requires ns in s.incrHandlers && s.incrHandlers[ns].Some?
    ensures R(s')
    ensures s' == s.(incr := s.incr.(done := s.incr.done + {ns}), incrs := StoreIncr(s.incrs, (s.incr.created, ns), data))
  {
    s' := s.(incr := s.incr.(done := s.incr.done + {ns}), incrs := StoreIncr(s.incrs, (s.incr.created, ns), data));
    Go(c, R, s, Incr(IncrPartial(ns, data)), s');
  }

  lemma PanicIncr(c: Settings, R: State -> bool, s: State, ns: string) returns (s': State)
    requires Closed(c, R) && R(s) && s.incr.Draining? && ns in s.incrHandlers && s.incrHandlers[ns].None?
    ensures R(s') && s' == s.(incr := Idle, incrHandlers := map[])
  {
    s' := s.(incr := Idle, incrHandlers := map[]);
    Go(c, R, s, Incr(IncrPanic), s');
  }

  lemma UpdateIncr(c: Settings, R: State -> bool, s: State) returns (s': State)
    requires Closed(c, R) && R(s) && s.incr.Draining? && s.incr.done == s.incrHandlers.Keys
    ensures R(s')
    ensures s' == s.(incr := Idle, incrHandlers := map[], lastIncr := s.incr.created, marks := s.marks + {s.incr.created})
  {
    s' := s.(incr := Idle, incrHandlers := map[], lastIncr := s.incr.created, marks := s.marks + {s.incr.created});
    Go(c, R, s, Incr(IncrUpdate), s');
  }

  // ----- the environment -----

  lemma AdvanceTo(c: Settings, R: State -> bool, s: State, to: Time) returns (s': State)
    requires Closed(c, R) && R(s) && s.now < to
    ensures R(s') && s' == s.(now := to)
  {
    s' := s.(now := to);
    Go(c, R, s, Env(Advance(to)), s');
  }

  /** Writing one record at the present instant. */
  lemma WriteRecord(c: Settings, R: State -> bool, s: State, ns: string, key: string, val: string) returns (s': State)
    requires Closed(c, R) && R(s)
    ensures R(s') && s' == s.(hist := s.hist + [Write(s.now, ns, key, val)])
  {
    s' := s.(hist := s.hist + [Write(s.now, ns, key, val)]);
    Go(c, R, s, Env(Put(ns, key, val)), s');
  }
}
