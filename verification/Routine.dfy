/** The backup protocol of one routine as a state machine.

    Every step is one atomic action of pkg/service/backup_routine_handler.go (or of its
    environment: the clock, writes to the cluster, a crash), so that a run of the machine
    is an arbitrary interleaving of scheduled, ad hoc and retried full backups with
    incremental backups, of their failures and of restarts. */
module Routine {
  import opened Wrappers
  import opened History
  import opened BackupState

  /** What a full backup removes. An unset policy behaves like KeepAll. */
  datatype RemoveFiles = KeepAll | RemoveAll | RemoveIncremental

  predicate RemoveFullBackup(r: RemoveFiles) {
    r == RemoveAll
  }

  predicate RemoveIncrementalBackup(r: RemoveFiles) {
    r == RemoveIncremental || r == RemoveAll
  }

  datatype Settings = Settings(namespaces: set<string>, sealed: bool, remove: RemoveFiles)

  /** A backup folder, named by the run's stamp and the namespace. */
  type Folder = (Time, string)

  /** Where one call of runFullBackupInternal stands after its compare-and-swap succeeded. */
  datatype FullPhase =
    | Entered                        // flag taken, no client yet
    | Starting                       // starting one scan per namespace
    | Waiting(written: set<string>)  // waiting; metadata written for these namespaces
    | Updated                        // LastFullRun set
    | Closing                        // leaving; deferred clean-up still to run
    | Released                       // client closed and handlers cleared

  datatype FullRun = FullRun(stamp: Time, phase: FullPhase)

  /** Where the incremental job stands; Idle means its isRunning flag is clear. */
  datatype IncrRun =
    | Idle
    | Triggered(created: Time)                                // clock read
    | Admitted(created: Time)                                 // guards passed
    | Opening(created: Time, from: Time)                      // LastRun read
    | Draining(created: Time, from: Time, done: set<string>)  // waiting for these handlers is over

  datatype State = State(
    now: Time,
    hist: seq<Write>,
    // BackupState
    lastFull: Time,
    lastIncr: Time,
    // full backups
    triggered: set<Time>,
    inProgress: bool,
    fullRuns: map<nat, FullRun>,
    fullHandlers: map<string, nat>,
    // incremental backups
    incr: IncrRun,
    incrHandlers: map<string, Option<nat>>,
    // storage: folders that hold a metadata file
    fulls: map<Folder, Scan>,
    incrs: map<Folder, Data>,
    // history of the run, not visible to the program
    lastTrigger: Time,        // stamp of the latest incremental run
    known: set<Time>,         // stamps of all full backups ever stored, even in part
    log: map<Folder, Scan>,   // incremental scans that completed, and were stored unless empty
    marks: set<Time>,         // values LastIncrRun has taken
    cleared: Time)            // latest stamp of a full backup that cleared the incrementals

  /** The clock, writes to the cluster, and a crash with the run times read back after it. */
  datatype EnvStep =
    | Advance(to: Time)
    | Put(ns: string, key: string, val: string)
    | Restart(fullRun: Time, incrRun: Time)

  datatype FullStep =
    | FullTrigger
    | FullEnter(id: nat, stamp: Time)
    | FullNoClient(id: nat)
    | FullOpen(id: nat)
    | FullStart(id: nat, ns: string)
    | FullAllStarted(id: nat)
    | FullWrite(id: nat, ns: string, data: Data, hi: nat)  // of a scan that ended at position `hi`
    | FullFail(id: nat)
    | FullUpdate(id: nat)
    | FullDelete(id: nat)
    | FullKeep(id: nat)
    | FullClear(id: nat)
    | FullExit(id: nat)

  datatype IncrStep =
    | IncrTrigger
    | IncrSkip
    | IncrAdmit
    | IncrNoClient
    | IncrOpen
    | IncrStart(ns: string)
    | IncrStartFail(ns: string)
    | IncrAllStarted
    | IncrWrite(ns: string, data: Data, hi: nat)           // of a scan that ended at position `hi`
    | IncrPartial(ns: string, data: Data)
    | IncrPanic
    | IncrUpdate

  datatype Step = Env(env: EnvStep) | Full(full: FullStep) | Incr(incr: IncrStep)

  function Init(): State {
    State(1, [], 0, 0, {}, false, map[], map[], Idle, map[], map[], map[], 0, {}, map[], {}, 0)
  }

  function Stamps<V>(folders: map<Folder, V>): set<Time> {
    set f | f in folders :: f.0
  }

  /** A stamp read back from storage: the latest one, or zero if there is none or the
      list could not be read. */
  ghost predicate ReadBack(t: Time, stamps: set<Time>) {
    t == 0 || (t in stamps && forall x :: x in stamps ==> x <= t)
  }

  predicate HasFull(s: State, id: nat, phase: FullPhase) {
    id in s.fullRuns && s.fullRuns[id].phase == phase
  }

  function FullScan(s: State, id: nat, ns: string, data: Data, hi: nat): Scan
    requires id in s.fullRuns && ns in s.fullHandlers
  {
    Scan(s.fullRuns[id].stamp, 0, s.fullHandlers[ns], hi, data)
  }

  function IncrScan(s: State, ns: string, data: Data, hi: nat): Scan
    requires s.incr.Draining? && ns in s.incrHandlers && s.incrHandlers[ns].Some?
  {
    Scan(s.incr.created, s.incr.from, s.incrHandlers[ns].value, hi, data)
  }

  /** When a step can happen. */
  ghost predicate Enabled(c: Settings, s: State, step: Step) {
    match step
    case Env(e) => EnvEnabled(s, e)
    case Full(f) => FullEnabled(c, s, f)
    case Incr(i) => IncrEnabled(c, s, i)
  }

  ghost predicate EnvEnabled(s: State, step: EnvStep) {
    match step
    case Advance(to) => s.now < to
    case Put(_, _, _) => true
    case Restart(fullRun, incrRun) => ReadBack(fullRun, Stamps(s.fulls)) && ReadBack(incrRun, Stamps(s.incrs))
  }

  ghost predicate FullEnabled(c: Settings, s: State, step: FullStep) {
    match step
    case FullTrigger => true
    case FullEnter(id, stamp) => stamp in s.triggered && id !in s.fullRuns
    case FullNoClient(id) => HasFull(s, id, Entered)
    case FullOpen(id) => HasFull(s, id, Entered)
    case FullStart(id, ns) => HasFull(s, id, Starting) && ns in c.namespaces && ns !in s.fullHandlers
    case FullAllStarted(id) => HasFull(s, id, Starting) && s.fullHandlers.Keys == c.namespaces
    case FullWrite(id, ns, data, hi) =>
      && id in s.fullRuns && s.fullRuns[id].phase.Waiting?
      && ns in s.fullHandlers && ns !in s.fullRuns[id].phase.written
      && s.fullHandlers[ns] <= hi <= |s.hist|
      && (forall key :: Observed(s.hist, c.sealed, ns, FullScan(s, id, ns, data, hi), key))
    case FullFail(id) => id in s.fullRuns && (s.fullRuns[id].phase.Starting? || s.fullRuns[id].phase.Waiting?)
    case FullUpdate(id) => HasFull(s, id, Waiting(s.fullHandlers.Keys))
    case FullDelete(id) => HasFull(s, id, Updated) && RemoveIncrementalBackup(c.remove)
    case FullKeep(id) => HasFull(s, id, Updated)  // nothing to delete, or the deletion failed
    case FullClear(id) => HasFull(s, id, Closing)
    case FullExit(id) => HasFull(s, id, Released)
  }

  ghost predicate IncrEnabled(c: Settings, s: State, step: IncrStep) {
    match step
    case IncrTrigger => s.incr.Idle? && s.lastTrigger < s.now
    case IncrSkip => s.incr.Triggered?
    case IncrAdmit => s.incr.Triggered? && s.lastFull != 0 && !s.inProgress && s.incrHandlers == map[]
    case IncrNoClient => s.incr.Admitted?
    case IncrOpen => s.incr.Admitted?
    case IncrStart(ns) => s.incr.Opening? && ns in c.namespaces && ns !in s.incrHandlers
    case IncrStartFail(ns) => s.incr.Opening? && ns in c.namespaces && ns !in s.incrHandlers
    // every namespace was tried, or the namespaces could not be listed
    case IncrAllStarted => s.incr.Opening? && (s.incrHandlers.Keys == c.namespaces || s.incrHandlers == map[])
    case IncrWrite(ns, data, hi) =>
      && s.incr.Draining? && ns in s.incrHandlers && s.incrHandlers[ns].Some? && ns !in s.incr.done
      && s.incrHandlers[ns].value <= hi <= |s.hist|
      && (forall key :: Observed(s.hist, c.sealed, ns, IncrScan(s, ns, data, hi), key))
    // the scan or its metadata file failed; whatever was scanned may still get stored
    case IncrPartial(ns, _) => s.incr.Draining? && ns in s.incrHandlers && s.incrHandlers[ns].Some? && ns !in s.incr.done
    // a namespace whose scan did not start left a nil handler behind
    case IncrPanic => s.incr.Draining? && exists ns :: ns in s.incrHandlers && s.incrHandlers[ns].None?
    case IncrUpdate => s.incr.Draining? && s.incr.done == s.incrHandlers.Keys
  }

  function Leave(s: State, id: nat, phase: FullPhase): State
    requires id in s.fullRuns
  {
    s.(fullRuns := s.fullRuns[id := s.fullRuns[id].(phase := phase)])
  }

  /** Storing an empty incremental means deleting its folder. */
  function StoreIncr(incrs: map<Folder, Data>, folder: Folder, data: Data): map<Folder, Data> {
    if data == map[] then incrs - {folder} else incrs[folder := data]
  }

  /** Under RemoveAll a full backup has one folder per namespace, cleared when its scan starts. */
  function WithoutFulls(fulls: map<Folder, Scan>, ns: string): map<Folder, Scan> {
    map f | f in fulls && f.1 != ns :: fulls[f]
  }

  function Later(a: Time, b: Time): Time {
    if a < b then b else a
  }

  /** What a step does. */
  ghost function Apply(c: Settings, s: State, step: Step): State
    requires Enabled(c, s, step)
  {
    match step
    case Env(e) => ApplyEnv(s, e)
    case Full(f) => ApplyFull(c, s, f)
    case Incr(i) => ApplyIncr(c, s, i)
  }

  ghost function ApplyEnv(s: State, step: EnvStep): State
    requires EnvEnabled(s, step)
  {
    match step
    case Advance(to) => s.(now := to)
    case Put(ns, key, val) => s.(hist := s.hist + [Write(s.now, ns, key, val)])
    case Restart(fullRun, incrRun) =>
      s.(lastFull := fullRun, lastIncr := incrRun, triggered := {}, inProgress := false, fullRuns := map[],
         fullHandlers := map[], incr := Idle, incrHandlers := map[],
         marks := if incrRun == 0 then s.marks else s.marks + {incrRun})
  }

  ghost function ApplyFull(c: Settings, s: State, step: FullStep): State
    requires FullEnabled(c, s, step)
  {
    match step
    case FullTrigger => s.(triggered := s.triggered + {s.now})
    case FullEnter(id, stamp) =>
      if s.inProgress then s
      else s.(inProgress := true, fullRuns := s.fullRuns[id := FullRun(stamp, Entered)])
    case FullNoClient(id) => s.(inProgress := false, fullRuns := s.fullRuns - {id})
    case FullOpen(id) => Leave(s, id, Starting).(fullHandlers := map[])
    case FullStart(id, ns) =>
      s.(fullHandlers := s.fullHandlers[ns := |s.hist|],
         fulls := if RemoveFullBackup(c.remove) then WithoutFulls(s.fulls, ns) else s.fulls)
    case FullAllStarted(id) => Leave(s, id, Waiting({}))
    case FullWrite(id, ns, data, hi) =>
      var run := s.fullRuns[id];
      Leave(s, id, Waiting(run.phase.written + {ns})).(
        fulls := s.fulls[(run.stamp, ns) := FullScan(s, id, ns, data, hi)],
        known := s.known + {run.stamp})
    case FullFail(id) => Leave(s, id, Closing)
    case FullUpdate(id) => Leave(s, id, Updated).(lastFull := s.fullRuns[id].stamp)
    case FullDelete(id) => Leave(s, id, Closing).(incrs := map[], cleared := Later(s.cleared, s.fullRuns[id].stamp))
    case FullKeep(id) => Leave(s, id, Closing)
    case FullClear(id) => Leave(s, id, Released).(fullHandlers := map[])
    case FullExit(id) => s.(inProgress := false, fullRuns := s.fullRuns - {id})
  }

  ghost function ApplyIncr(c: Settings, s: State, step: IncrStep): State
    requires IncrEnabled(c, s, step)
  {
    match step
    case IncrTrigger => s.(incr := Triggered(s.now), lastTrigger := s.now)
    case IncrSkip => s.(incr := Idle)
    case IncrAdmit => s.(incr := Admitted(s.incr.created))
    case IncrNoClient => s.(incr := Idle)
    case IncrOpen => s.(incr := Opening(s.incr.created, LatestRun(s.lastFull, s.lastIncr)), incrHandlers := map[])
    case IncrStart(ns) => s.(incrHandlers := s.incrHandlers[ns := Some(|s.hist|)])
    case IncrStartFail(ns) => s.(incrHandlers := s.incrHandlers[ns := None])
    case IncrAllStarted => s.(incr := Draining(s.incr.created, s.incr.from, {}))
    case IncrWrite(ns, data, hi) =>
      var folder := (s.incr.created, ns);
      s.(incr := s.incr.(done := s.incr.done + {ns}),
         incrs := StoreIncr(s.incrs, folder, data),
         log := s.log[folder := IncrScan(s, ns, data, hi)])
    case IncrPartial(ns, data) =>
      s.(incr := s.incr.(done := s.incr.done + {ns}),
         incrs := StoreIncr(s.incrs, (s.incr.created, ns), data))
    case IncrPanic => s.(incr := Idle, incrHandlers := map[])
    case IncrUpdate =>
      s.(lastIncr := s.incr.created, marks := s.marks + {s.incr.created}, incr := Idle, incrHandlers := map[])
  }

  /** `s` is reached by taking the steps in order from the initial state. */
  ghost predicate Reaches(c: Settings, steps: seq<Step>, s: State)
    decreases |steps|
  {
    if steps == [] then s == Init()
    else
      var n := |steps| - 1;
      exists prev :: Reaches(c, steps[..n], prev) && Enabled(c, prev, steps[n]) && s == Apply(c, prev, steps[n])
  }
}
