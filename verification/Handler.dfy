/** The handler of one routine, statement by statement, as in pkg/service/backup_routine_handler.go.
    A call without interference takes steps of the protocol only: whatever property `R` is closed
    under the steps of the protocol holds after the call if it held before. */
module Handler {
  import opened Wrappers
  import opened History
  import opened TimeBounds
  import BackupState
  import opened Routine
  import opened RoutineSteps
  import RoutineInvariant

  /** The invariant of the protocol and reachability are such properties. */
  lemma InvariantIsClosed(c: Settings)
    ensures Closed(c, s => RoutineInvariant.Inv(c, s)) && Closed(c, s => Reachable(c, s))
  {
    ReachableIsClosed(c);
    forall s, step, t | RoutineInvariant.Inv(c, s) && Next(c, s, step) == Some(t)
      ensures RoutineInvariant.Inv(c, t)
    {
      RoutineInvariant.InvStep(c, s, step);
    }
  }

  /** What the calls of the backup library, the storage and the cluster will return. What a scan
      finds, or leaves behind when it fails, depends on the window it is started with. */
  datatype World = World(
    hasClient: bool,
    listsNamespaces: bool,
    starts: string -> bool,
    scans: (TimeBounds, string) -> Option<Data>,
    partial: (TimeBounds, string) -> Data,
    writes: string -> bool,
    deletes: bool)

  /** The content of a window as the backup library sees it: from its lower end up to, but without,
      its upper end. */
  ghost predicate Covers(h: seq<Write>, tb: TimeBounds, ns: string, data: Data) {
    var from := if tb.fromTime.Some? then tb.fromTime.value else 0;
    var until := if tb.toTime.Some? then tb.toTime.value else 0;
    forall key :: Reports(data, key, Current(h, |h|, ns, key), from, tb.toTime.Some?, until)
  }

  /** Scans that succeed read every record of their window as it is. */
  ghost predicate Truthful(w: World, h: seq<Write>) {
    forall tb, ns :: w.scans(tb, ns).Some? ==> Covers(h, tb, ns, w.scans(tb, ns).value)
  }

  /** The window of a full backup. */
  function FullBounds(c: Settings, now: Time): TimeBounds {
    TimeBounds(None, if c.sealed then Some(now) else None)
  }

  /** The window of an incremental backup that starts at `from`. */
  function IncrBounds(c: Settings, from: Time, now: Time): TimeBounds {
    TimeBounds(Some(from), if c.sealed then Some(now) else None)
  }

  lemma CoversNow(c: Settings, h: seq<Write>, from: Time, now: Time, ns: string, data: Data)
    ensures Covers(h, IncrBounds(c, from, now), ns, data) <==> ReadsNow(h, c.sealed, ns, from, now, data)
    ensures Covers(h, FullBounds(c, now), ns, data) <==> ReadsNow(h, c.sealed, ns, 0, now, data)
  {
  }

  /** Which handlers are not nil. */
  function Started<T>(handlers: map<string, Option<T>>): map<string, bool> {
    map ns | ns in handlers :: handlers[ns].Some?
  }

  lemma StartedNext<T>(handlers: map<string, Option<T>>, ns: string, h: Option<T>)
    ensures Started(handlers[ns := h]) == Started(handlers)[ns := h.Some?]
  {
  }

  lemma NoneStarted<T>(handlers: map<string, Option<T>>)
    ensures Started(handlers) == map[] <==> handlers == map[]
  {
    assert Started(handlers).Keys == handlers.Keys;
  }

  lemma SameStarted<T, U>(a: map<string, Option<T>>, b: map<string, Option<U>>)
    requires Started(a) == Started(b)
    ensures a.Keys == b.Keys && forall ns :: ns in a ==> (a[ns].Some? <==> b[ns].Some?)
  {
    assert Started(a).Keys == a.Keys && Started(b).Keys == b.Keys;
    forall ns | ns in a
      ensures a[ns].Some? <==> b[ns].Some?
    {
      assert Started(a)[ns] == Started(b)[ns];
    }
  }

  /** All handlers that are not nil scan this window. */
  ghost predicate Windowed(handlers: map<string, Option<TimeBounds>>, tb: TimeBounds) {
    forall ns :: ns in handlers && handlers[ns].Some? ==> handlers[ns].value == tb
  }

  /** Every started scan began at the present position of the history. */
  ghost predicate Begun(w: World, m: State) {
    forall ns :: ns in m.incrHandlers ==> m.incrHandlers[ns] == if w.starts(ns) then Some(|m.hist|) else None
  }

  /** Every scan of a full run began at the present position of the history. */
  ghost predicate FullsBegun(m: State) {
    forall ns :: ns in m.fullHandlers ==> m.fullHandlers[ns] == |m.hist|
  }

  lemma SomeNil(w: World, m: State, handlers: map<string, Option<TimeBounds>>)
    requires Begun(w, m) && Started(m.incrHandlers) == Started(handlers)
    ensures None in handlers.Values <==> exists ns :: ns in m.incrHandlers.Keys && !w.starts(ns)
  {
    SameStarted(m.incrHandlers, handlers);
    if ns :| ns in m.incrHandlers.Keys && !w.starts(ns) {
      assert handlers[ns] == None;
    }
  }

  /** What is kept of the scan of a namespace: nothing if its metadata file could not be written. */
  function Kept(w: World, tb: TimeBounds, ns: string): Data {
    var data := if w.scans(tb, ns).Some? then w.scans(tb, ns).value else w.partial(tb, ns);
    if w.writes(ns) then data else map[]
  }

  /** The incrementals after the scans of the given namespaces, in order. */
  ghost function StoreAll(w: World, tb: TimeBounds, incrs: map<Folder, Data>, created: Time, order: seq<string>): map<Folder, Data> {
    if order == [] then incrs else
      var n := |order| - 1;
      StoreIncr(StoreAll(w, tb, incrs, created, order[..n]), (created, order[n]), Kept(w, tb, order[n]))
  }

  lemma StoreNext(w: World, tb: TimeBounds, incrs: map<Folder, Data>, created: Time, order: seq<string>, ns: string)
    ensures StoreAll(w, tb, incrs, created, order + [ns]) == StoreIncr(StoreAll(w, tb, incrs, created, order), (created, ns), Kept(w, tb, ns))
  {
    assert (order + [ns])[..|order|] == order;
  }

  /** What is stored of the given namespaces of an incremental run: of a scan that succeeded what it
      found, of one that failed what it left behind, unless that is nothing or its metadata file could
      not be written. Other folders are untouched. */
  ghost predicate FoundIsStored(w: World, tb: TimeBounds, before: map<Folder, Data>, after: map<Folder, Data>, created: Time, done: set<string>) {
    && (forall ns :: ns in done && w.writes(ns) && w.scans(tb, ns).Some? ==>
          ((created, ns) in after <==> w.scans(tb, ns).value != map[])
          && ((created, ns) in after ==> after[(created, ns)] == w.scans(tb, ns).value))
    && (forall ns :: ns in done && w.writes(ns) && w.scans(tb, ns).None? ==>
          ((created, ns) in after <==> w.partial(tb, ns) != map[])
          && ((created, ns) in after ==> after[(created, ns)] == w.partial(tb, ns)))
    && (forall ns :: ns in done && !w.writes(ns) ==> (created, ns) !in after)
    && (forall f: Folder :: !(f.0 == created && f.1 in done) ==> (f in after <==> f in before) && (f in after ==> after[f] == before[f]))
  }

  lemma {:induction false} StoreAllAt(w: World, tb: TimeBounds, incrs: map<Folder, Data>, created: Time, order: seq<string>, f: Folder)
    ensures var after := StoreAll(w, tb, incrs, created, order);
            if f.0 == created && f.1 in order then
              (f in after <==> Kept(w, tb, f.1) != map[]) && (f in after ==> after[f] == Kept(w, tb, f.1))
            else
              (f in after <==> f in incrs) && (f in after ==> after[f] == incrs[f])
  {
    if order != [] {
      var n := |order| - 1;
      var before := StoreAll(w, tb, incrs, created, order[..n]);
      StoreAllAt(w, tb, incrs, created, order[..n], f);
      StoreAt(before, (created, order[n]), Kept(w, tb, order[n]), f);
      assert order == order[..n] + [order[n]];
      assert StoreAll(w, tb, incrs, created, order) == StoreIncr(before, (created, order[n]), Kept(w, tb, order[n]));
    }
  }

  /** Whatever the order of the namespaces. */
  lemma StoredAsFound(w: World, tb: TimeBounds, incrs: map<Folder, Data>, created: Time, order: seq<string>)
    ensures FoundIsStored(w, tb, incrs, StoreAll(w, tb, incrs, created, order), created, Elements(order))
  {
    var after := StoreAll(w, tb, incrs, created, order);
    forall ns | ns in order
      ensures ((created, ns) in after <==> Kept(w, tb, ns) != map[]) && ((created, ns) in after ==> after[(created, ns)] == Kept(w, tb, ns))
    {
      StoreAllAt(w, tb, incrs, created, order, (created, ns));
    }
    forall f: Folder | !(f.0 == created && f.1 in order)
      ensures (f in after <==> f in incrs) && (f in after ==> after[f] == incrs[f])
    {
      StoreAllAt(w, tb, incrs, created, order, f);
    }
  }

  /** The record files and the metadata of a scan that succeeded are there, unless it found nothing. */
  lemma SuccessfulScanIsStored(w: World, tb: TimeBounds, before: map<Folder, Data>, after: map<Folder, Data>, created: Time, done: set<string>,
                               ns: string, data: Data)
    requires FoundIsStored(w, tb, before, after, created, done) && ns in done && w.scans(tb, ns) == Some(data)
    ensures (created, ns) in after <==> w.writes(ns) && data != map[]
    ensures (created, ns) in after ==> after[(created, ns)] == data
  {
  }

  /** A scan that fails is stored as far as it got. */
  lemma FailedScanIsStored(w: World, tb: TimeBounds, before: map<Folder, Data>, after: map<Folder, Data>, created: Time, done: set<string>,
                           ns: string)
    requires FoundIsStored(w, tb, before, after, created, done) && ns in done && w.scans(tb, ns) == None
    ensures (created, ns) in after <==> w.writes(ns) && w.partial(tb, ns) != map[]
    ensures (created, ns) in after ==> after[(created, ns)] == w.partial(tb, ns)
  {
  }

  lemma OthersAreUntouched(w: World, tb: TimeBounds, before: map<Folder, Data>, after: map<Folder, Data>, created: Time, done: set<string>,
                           f: Folder)
    requires FoundIsStored(w, tb, before, after, created, done) && (f.0 != created || f.1 !in done)
    ensures (f in after <==> f in before) && (f in after ==> after[f] == before[f])
  {
  }

  lemma StoreAt(incrs: map<Folder, Data>, folder: Folder, data: Data, f: Folder)
    ensures var after := StoreIncr(incrs, folder, data);
            if f == folder then
              (f in after <==> data != map[]) && (f in after ==> after[f] == data)
            else
              (f in after <==> f in incrs) && (f in after ==> after[f] == incrs[f])
  {
  }

  function Elements(order: seq<string>): set<string> {
    set ns | ns in order
  }

  /** The protocol's view after waiting for the given namespaces of an incremental run. */
  ghost function Waited(w: World, tb: TimeBounds, m: State, order: seq<string>, log: map<Folder, Scan>): State
    requires m.incr.Draining?
  {
    m.(incr := m.incr.(done := Elements(order)), incrs := StoreAll(w, tb, m.incrs, m.incr.created, order), log := log)
  }

  lemma WaitedNext(w: World, tb: TimeBounds, m: State, order: seq<string>, log: map<Folder, Scan>, ns: string, to: map<Folder, Scan>)
    requires m.incr.Draining?
    ensures var now := Waited(w, tb, m, order, log);
            Waited(w, tb, m, order + [ns], to) ==
              now.(incr := now.incr.(done := now.incr.done + {ns}), incrs := StoreIncr(now.incrs, (m.incr.created, ns), Kept(w, tb, ns)), log := to)
  {
    StoreNext(w, tb, m.incrs, m.incr.created, order, ns);
    assert Elements(order + [ns]) == Elements(order) + {ns};
  }

  /** The handlers of these namespaces, all scanning one window. */
  ghost predicate Scanning(handlers: map<string, TimeBounds>, namespaces: set<string>, tb: TimeBounds) {
    handlers.Keys == namespaces && forall ns :: ns in handlers ==> handlers[ns] == tb
  }

  /** The stored full backups after the scans of these namespaces have started: under RemoveAll the
      one folder of each of them is cleared. */
  ghost predicate StartedOver(c: Settings, before: map<Folder, Scan>, after: map<Folder, Scan>, namespaces: set<string>) {
    forall f: Folder :: (f in after <==> f in before && (c.remove == RemoveAll ==> f.1 !in namespaces)) && (f in after ==> after[f] == before[f])
  }

  /** What is stored of these namespaces is what their scans found. */
  ghost predicate HoldsScans(w: World, tb: TimeBounds, fulls: map<Folder, Scan>, now: Time, done: set<string>) {
    forall ns :: ns in done ==> (now, ns) in fulls && w.scans(tb, ns) == Some(fulls[(now, ns)].data)
  }

  /** The stored full backups after these namespaces of the run stamped `now` were written. */
  ghost predicate WrittenOver(before: map<Folder, Scan>, after: map<Folder, Scan>, now: Time, done: set<string>) {
    && (forall ns :: ns in done ==> (now, ns) in after)
    && forall f: Folder :: !(f.0 == now && f.1 in done) ==> (f in after <==> f in before) && (f in after ==> after[f] == before[f])
  }

  /** The stored full backups after a full run that started these scans and wrote what it found of
      some of them: under RemoveAll the earlier ones of the namespaces started are gone. */
  ghost predicate FullsAfter(c: Settings, w: World, before: map<Folder, Scan>, after: map<Folder, Scan>, now: Time,
                             started: set<string>, done: set<string>) {
    && (forall ns :: ns in done ==> (now, ns) in after && w.scans(FullBounds(c, now), ns) == Some(after[(now, ns)].data))
    && forall f: Folder :: !(f.0 == now && f.1 in done) ==>
         (f in after <==> f in before && (c.remove == RemoveAll ==> f.1 !in started)) && (f in after ==> after[f] == before[f])
  }

  lemma FullsCompose(c: Settings, w: World, before: map<Folder, Scan>, middle: map<Folder, Scan>, after: map<Folder, Scan>, now: Time,
                     started: set<string>, done: set<string>)
    requires StartedOver(c, before, middle, started) && WrittenOver(middle, after, now, done)
    requires HoldsScans(w, FullBounds(c, now), after, now, done)
    ensures FullsAfter(c, w, before, after, now, started, done)
  {
  }

  datatype End = Skipped | Panicked | Ran

  /** `m` is the protocol's view: the fields below, the storage, and the history of the run. */
  class BackupRoutineHandler {
    const c: Settings
    const state: BackupState.BackupState
    var fullBackupInProgress: bool
    var fullBackupHandlers: map<string, TimeBounds>          // with the windows they scan
    var incrBackupHandlers: map<string, Option<TimeBounds>>  // `None` stands for a nil handler
    ghost var m: State

    ghost predicate Valid()
      reads this, state
    {
      && m.lastFull == state.lastFullRun && m.lastIncr == state.lastIncrRun && m.inProgress == fullBackupInProgress
      && m.fullHandlers.Keys == fullBackupHandlers.Keys && Started(m.incrHandlers) == Started(incrBackupHandlers)
    }

    /** A new handler reads the run times back from the storage of the one before. */
    constructor (c: Settings, fullRun: Time, incrRun: Time, ghost before: State, ghost R: State -> bool)
      requires Closed(c, R) && R(before) && ReadBack(fullRun, Stamps(before.fulls)) && ReadBack(incrRun, Stamps(before.incrs))
      ensures Valid() && R(m) && this.c == c && m.fulls == before.fulls && m.incrs == before.incrs && fresh(state)
      ensures state.lastFullRun == fullRun && state.lastIncrRun == incrRun
    {
      this.c, fullBackupInProgress, fullBackupHandlers, incrBackupHandlers := c, false, map[], map[];
      state := new BackupState.BackupState(fullRun, incrRun);
      m := ApplyEnv(before, Restart(fullRun, incrRun));
      new;
      Go(c, R, before, Env(Restart(fullRun, incrRun)), m);
    }

    // ----- full backups -----

    /** The folder of a namespace is cleared by the start of its scan under RemoveAll. */
    method BackupRun(now: Time, tb: TimeBounds, ns: string, ghost R: State -> bool)
      requires Valid() && Closed(c, R) && R(m) && m.fullRuns == One(now, Starting) && ns in c.namespaces && ns !in fullBackupHandlers.Keys
      requires FullsBegun(m) && Scanning(fullBackupHandlers, fullBackupHandlers.Keys, tb)
      modifies this`fullBackupHandlers, this`m
      ensures Valid() && R(m) && Scanning(fullBackupHandlers, old(fullBackupHandlers).Keys + {ns}, tb)
      ensures m == old(m).(fullHandlers := m.fullHandlers, fulls := m.fulls) && FullsBegun(m)
      ensures m.fulls == if c.remove == RemoveAll then map f | f in old(m).fulls && f.1 != ns :: old(m).fulls[f] else old(m).fulls
    {
      m := ScanFull(c, R, m, now, ns);
      fullBackupHandlers := fullBackupHandlers[ns := tb];
    }

    method StartFulls(now: Time, tb: TimeBounds, w: World, ghost R: State -> bool) returns (ok: bool)
      requires Valid() && Closed(c, R) && R(m) && m.fullRuns == One(now, Starting) && fullBackupHandlers == map[]
      modifies this`fullBackupHandlers, this`m
      ensures Valid() && R(m) && ok == forall ns :: ns in c.namespaces ==> w.starts(ns)
      ensures ok ==> Scanning(fullBackupHandlers, c.namespaces, tb)
      ensures m == old(m).(fullHandlers := m.fullHandlers, fulls := m.fulls)
      ensures StartedOver(c, old(m).fulls, m.fulls, fullBackupHandlers.Keys)
      ensures FullsBegun(m)
    {
      var todo := c.namespaces;
      while todo != {}
        invariant todo <= c.namespaces && Scanning(fullBackupHandlers, c.namespaces - todo, tb)
        invariant Valid() && R(m) && m == old(m).(fullHandlers := m.fullHandlers, fulls := m.fulls)
        invariant FullsBegun(m) && StartedOver(c, old(m).fulls, m.fulls, fullBackupHandlers.Keys)
        invariant forall ns :: ns in c.namespaces && ns !in todo ==> w.starts(ns)
        decreases todo
      {
        var ns :| ns in todo;
        if !w.starts(ns) {
          return false;
        }
        BackupRun(now, tb, ns, R);
        todo := todo - {ns};
      }
      return true;
    }

    method StartFullBackupForAllNamespaces(now: Time, w: World, ghost R: State -> bool) returns (ok: bool)
      requires Valid() && Closed(c, R) && R(m) && m.fullRuns == One(now, Starting) && fullBackupHandlers == map[]
      modifies this`fullBackupHandlers, this`m
      ensures Valid() && R(m) && ok == (w.listsNamespaces && forall ns :: ns in c.namespaces ==> w.starts(ns))
      ensures ok ==> Scanning(fullBackupHandlers, c.namespaces, FullBounds(c, now))
      ensures m == old(m).(fullHandlers := m.fullHandlers, fulls := m.fulls)
      ensures StartedOver(c, old(m).fulls, m.fulls, fullBackupHandlers.Keys)
      ensures FullsBegun(m)
    {
      var timebounds := TimeBounds(None, None);
      if c.sealed {
        timebounds := timebounds.(toTime := Some(now));
      }
      if !w.listsNamespaces {
        return false;
      }
      ok := StartFulls(now, timebounds, w, R);
    }

    method WriteFullMetadata(now: Time, ns: string, w: World, ghost before: map<Folder, Scan>, ghost done: set<string>, ghost R: State -> bool)
      requires Valid() && Closed(c, R) && R(m) && m.fullRuns == One(now, Waiting(done)) && ns !in done && Truthful(w, m.hist)
      requires ns in m.fullHandlers && m.fullHandlers[ns] == |m.hist| && w.scans(FullBounds(c, now), ns).Some?
      requires WrittenOver(before, m.fulls, now, done) && HoldsScans(w, FullBounds(c, now), m.fulls, now, done)
      modifies this`m
      ensures Valid() && R(m) && m == old(m).(fullRuns := One(now, Waiting(done + {ns})), known := m.known, fulls := m.fulls)
      ensures WrittenOver(before, m.fulls, now, done + {ns}) && HoldsScans(w, FullBounds(c, now), m.fulls, now, done + {ns})
    {
      var data := w.scans(FullBounds(c, now), ns).value;
      CoversNow(c, m.hist, 0, now, ns, data);
      m := WriteFull(c, R, m, now, done, ns, data);
    }

    /** Waits for the scans in any order; the first failure ends the wait and leaves the metadata
        written so far behind. */
    method WaitForFullBackups(now: Time, w: World, ghost R: State -> bool) returns (ok: bool, ghost done: set<string>)
      requires Valid() && Closed(c, R) && R(m) && m.fullRuns == One(now, Waiting({})) && Scanning(fullBackupHandlers, c.namespaces, FullBounds(c, now))
      requires Truthful(w, m.hist) && FullsBegun(m)
      modifies this`m
      ensures Valid() && R(m) && done <= c.namespaces
      ensures ok == forall ns :: ns in c.namespaces ==> w.scans(FullBounds(c, now), ns).Some? && w.writes(ns)
      ensures m == old(m).(fullRuns := One(now, Waiting(done)), known := m.known, fulls := m.fulls)
      ensures WrittenOver(old(m).fulls, m.fulls, now, done) && HoldsScans(w, FullBounds(c, now), m.fulls, now, done)
      ensures ok ==> done == c.namespaces
    {
      var todo := fullBackupHandlers.Keys;
      done := {};
      while todo != {}
        invariant todo <= c.namespaces && done == c.namespaces - todo
        invariant Valid() && R(m) && m == old(m).(fullRuns := One(now, Waiting(done)), known := m.known, fulls := m.fulls)
        invariant forall ns :: ns in done ==> w.scans(FullBounds(c, now), ns).Some? && w.writes(ns)
        invariant WrittenOver(old(m).fulls, m.fulls, now, done) && HoldsScans(w, FullBounds(c, now), m.fulls, now, done)
        decreases todo
      {
        var ns :| ns in todo;
        var scan := w.scans(fullBackupHandlers[ns], ns);
        if scan.None? || !w.writes(ns) {
          return false, done;
        }
        WriteFullMetadata(now, ns, w, old(m).fulls, done, R);
        done := done + {ns};
        todo := todo - {ns};
      }
      return true, done;
    }

    /** The run times and the deletion after a full backup of every namespace. */
    method CompleteFull(now: Time, w: World, ghost R: State -> bool)
      requires Valid() && Closed(c, R) && R(m) && m.fullRuns == One(now, Waiting(fullBackupHandlers.Keys))
      modifies this`m, state
      ensures Valid() && R(m)
      ensures state.lastFullRun == now && state.lastIncrRun == old(state.lastIncrRun)
      ensures m == old(m).(fullRuns := One(now, Closing), lastFull := now, incrs := m.incrs, cleared := m.cleared)
      ensures m.incrs == if c.remove != KeepAll && w.deletes then map[] else old(m).incrs
    {
      m := UpdateFull(c, R, m, now);
      state.SetLastFullRun(now);
      ClearIncrementals(now, w, R);
    }

    /** The deletion is asked for by the policy, and a deletion that fails is only logged. */
    method ClearIncrementals(now: Time, w: World, ghost R: State -> bool)
      requires Valid() && Closed(c, R) && R(m) && m.fullRuns == One(now, Updated)
      modifies this`m
      ensures Valid() && R(m)
      ensures m == old(m).(fullRuns := One(now, Closing), incrs := m.incrs, cleared := m.cleared)
      ensures m.incrs == if c.remove != KeepAll && w.deletes then map[] else old(m).incrs
    {
      if RemoveIncrementalBackup(c.remove) && w.deletes {
        m := DeleteIncrs(c, R, m, now);
      } else {
        m := KeepIncrs(c, R, m, now);
      }
    }

    /** All scans of a full run, from the first start to the last wait or the first failure. */
    method ScanFulls(now: Time, w: World, ghost R: State -> bool) returns (ok: bool, ghost phase: FullPhase, ghost done: set<string>)
      requires Valid() && Closed(c, R) && R(m) && m.fullRuns == One(now, Entered) && Truthful(w, m.hist)
      modifies this`fullBackupHandlers, this`m
      ensures Valid() && R(m) && (phase.Starting? || phase.Waiting?)
      ensures m == old(m).(fullRuns := One(now, phase), fullHandlers := m.fullHandlers, known := m.known, fulls := m.fulls)
      ensures ok == (w.listsNamespaces && forall ns :: ns in c.namespaces ==> w.starts(ns) && w.scans(FullBounds(c, now), ns).Some? && w.writes(ns))
      ensures ok ==> phase == Waiting(c.namespaces) && Scanning(fullBackupHandlers, c.namespaces, FullBounds(c, now))
      ensures done <= c.namespaces && (ok ==> done == c.namespaces) && FullsAfter(c, w, old(m).fulls, m.fulls, now, fullBackupHandlers.Keys, done)
    {
      m := OpenFull(c, R, m, now);
      fullBackupHandlers := map[];
      phase, done := Starting, {};
      ok := StartFullBackupForAllNamespaces(now, w, R);
      ghost var started := m.fulls;
      if ok {
        m := AwaitFull(c, R, m, now);
        ok, done := WaitForFullBackups(now, w, R);
        phase := Waiting(done);
      }
      FullsCompose(c, w, old(m).fulls, started, m.fulls, now, fullBackupHandlers.Keys, done);
    }

    /** A full run that got a client. */
    method RunFullBackupWithClient(now: Time, w: World, ghost R: State -> bool) returns (ok: bool, ghost started: set<string>, ghost done: set<string>)
      requires Valid() && Closed(c, R) && R(m) && m.fullRuns == One(now, Entered) && Truthful(w, m.hist)
      modifies this, state
      ensures Valid() && R(m) && m.fullRuns == One(now, Closing)
      ensures ok == (w.listsNamespaces && forall ns :: ns in c.namespaces ==> w.starts(ns) && w.scans(FullBounds(c, now), ns).Some? && w.writes(ns))
      ensures state.lastIncrRun == old(state.lastIncrRun) && state.lastFullRun == if ok then now else old(state.lastFullRun)
      ensures m.incrs == if ok && c.remove != KeepAll && w.deletes then map[] else old(m).incrs
      ensures done <= c.namespaces && (ok ==> started == done == c.namespaces) && FullsAfter(c, w, old(m).fulls, m.fulls, now, started, done)
    {
      ghost var phase;
      ok, phase, done := ScanFulls(now, w, R);
      started := fullBackupHandlers.Keys;
      if !ok {
        m := FailFull(c, R, m, now, phase);
        return;
      }
      CompleteFull(now, w, R);
    }

    /** A full run takes the flag or leaves everything as it is; it always gives the flag back and
        forgets its handlers. It succeeds exactly when every namespace is scanned and stored, and only
        then does it advance the last run and, unless the policy keeps all, clear the incrementals.
        Under RemoveAll the earlier full backups of the namespaces whose scans started are gone;
        otherwise they stay. */
    method RunFullBackupInternal(now: Time, w: World, ghost R: State -> bool) returns (ok: bool, ghost started: set<string>, ghost done: set<string>)
      requires Valid() && Closed(c, R) && R(m) && now in m.triggered && Truthful(w, m.hist)
      requires !fullBackupInProgress ==> m.fullRuns == map[]
      modifies this, state
      ensures Valid() && R(m) && fullBackupInProgress == old(fullBackupInProgress)
      ensures old(fullBackupInProgress) ==> ok && m == old(m)
      ensures var tb := TimeBounds(None, if c.sealed then Some(now) else None);
              !old(fullBackupInProgress) ==>
                && m.fullRuns == map[] && state.lastIncrRun == old(state.lastIncrRun)
                && ok == (w.hasClient && w.listsNamespaces && forall ns :: ns in c.namespaces ==> w.starts(ns) && w.scans(tb, ns).Some? && w.writes(ns))
                && state.lastFullRun == (if ok then now else old(state.lastFullRun))
                && (w.hasClient ==> fullBackupHandlers == map[])
      ensures !old(fullBackupInProgress) && ok && w.deletes && (c.remove == RemoveAll || c.remove == RemoveIncremental) ==> m.incrs == map[]
      ensures !ok || !w.deletes || c.remove == KeepAll ==> m.incrs == old(m).incrs
      ensures done <= c.namespaces && (!old(fullBackupInProgress) && ok ==> started == done == c.namespaces)
      ensures FullsAfter(c, w, old(m).fulls, m.fulls, now, started, done)
      ensures var tb := TimeBounds(None, if c.sealed then Some(now) else None);
              !old(fullBackupInProgress) && ok ==>
                forall ns :: ns in c.namespaces ==> (now, ns) in m.fulls && w.scans(tb, ns) == Some(m.fulls[(now, ns)].data)
      ensures forall f: Folder :: f.0 != now ==> (f in m.fulls <==> f in old(m).fulls && (c.remove == RemoveAll ==> f.1 !in started))
      ensures forall f: Folder :: f.0 != now && f in m.fulls ==> m.fulls[f] == old(m).fulls[f]
    {
      started, done := {}, {};
      if fullBackupInProgress {
        return true, {}, {};
      }
      m := EnterFull(c, R, m, now);
      fullBackupInProgress := true;
      if !w.hasClient {
        m := AbandonFull(c, R, m, now);
        fullBackupInProgress := false;
        return false, {}, {};
      }
      ok, started, done := RunFullBackupWithClient(now, w, R);
      m := LeaveFull(c, R, m, now);
      fullBackupHandlers := map[];
      fullBackupInProgress := false;
    }

    // ----- incremental backups -----

    method StartIncremental(tb: TimeBounds, ns: string, w: World, ghost R: State -> bool)
      requires Valid() && Closed(c, R) && R(m) && m.incr.Opening? && ns in c.namespaces && ns !in m.incrHandlers
      requires Begun(w, m) && Windowed(incrBackupHandlers, tb)
      modifies this`incrBackupHandlers, this`m
      ensures Valid() && R(m) && m == old(m).(incrHandlers := m.incrHandlers) && m.incrHandlers.Keys == old(m).incrHandlers.Keys + {ns}
      ensures Begun(w, m) && Windowed(incrBackupHandlers, tb)
    {
      StartedNext(m.incrHandlers, ns, if w.starts(ns) then Some(|m.hist|) else None);
      var handler := if w.starts(ns) then Some(tb) else None;
      StartedNext(incrBackupHandlers, ns, handler);
      if w.starts(ns) {
        m := ScanIncr(c, R, m, ns);
      } else {
        m := ScanIncrFails(c, R, m, ns);
      }
      incrBackupHandlers := incrBackupHandlers[ns := handler];
    }

    method StartAll(tb: TimeBounds, w: World, ghost R: State -> bool)
      requires Valid() && Closed(c, R) && R(m) && m.incr.Opening? && m.incrHandlers == map[] && incrBackupHandlers == map[]
      modifies this`incrBackupHandlers, this`m
      ensures Valid() && R(m) && m == old(m).(incrHandlers := m.incrHandlers) && m.incrHandlers.Keys == c.namespaces && Begun(w, m)
      ensures Windowed(incrBackupHandlers, tb)
    {
      var todo := c.namespaces;
      while todo != {}
        invariant todo <= c.namespaces && m.incrHandlers.Keys == c.namespaces - todo
        invariant Valid() && R(m) && m == old(m).(incrHandlers := m.incrHandlers) && Begun(w, m)
        invariant Windowed(incrBackupHandlers, tb)
        decreases todo
      {
        var ns :| ns in todo;
        StartIncremental(tb, ns, w, R);
        todo := todo - {ns};
      }
    }

    method SinceLastRun(now: Time) returns (timebounds: TimeBounds)
      ensures timebounds == IncrBounds(c, BackupState.LatestRun(state.lastFullRun, state.lastIncrRun), now)
    {
      var from := state.LastRun();
      timebounds := NewTimeBoundsFrom(from);
      if c.sealed {
        timebounds := timebounds.(toTime := Some(now));
      }
    }

    /** Every scan covers what came since the last run, up to this one if the policy is sealed; a
        scan that does not start leaves a nil handler. */
    method StartIncrementalBackupForAllNamespaces(now: Time, w: World, ghost R: State -> bool)
      requires Valid() && Closed(c, R) && R(m) && m.incr == Admitted(now)
      modifies this`incrBackupHandlers, this`m
      ensures Valid() && R(m)
      ensures var from := BackupState.LatestRun(state.lastFullRun, state.lastIncrRun);
              m == old(m).(incr := Draining(now, from, {}), incrHandlers := m.incrHandlers) && Windowed(incrBackupHandlers, IncrBounds(c, from, now))
      ensures m.incrHandlers.Keys == (if w.listsNamespaces then c.namespaces else {}) && Begun(w, m)
    {
      var timebounds := SinceLastRun(now);
      m := OpenIncr(c, R, m);
      incrBackupHandlers := map[];
      if w.listsNamespaces {
        StartAll(timebounds, w, R);
      }
      m := AwaitIncr(c, R, m);
    }

    /** An empty incremental is deleted, any other gets its metadata. */
    method FinishIncremental(tb: TimeBounds, ns: string, w: World, ghost R: State -> bool)
      requires Valid() && Closed(c, R) && R(m) && m.incr.Draining? && ns !in m.incr.done
      requires ns in m.incrHandlers && m.incrHandlers[ns] == Some(|m.hist|)
      requires Truthful(w, m.hist) && tb == IncrBounds(c, m.incr.from, m.incr.created)
      modifies this`m
      ensures Valid() && R(m)
      ensures m == old(m).(incr := old(m).incr.(done := old(m).incr.done + {ns}),
                           incrs := StoreIncr(old(m).incrs, (old(m).incr.created, ns), Kept(w, tb, ns)), log := m.log)
    {
      if w.scans(tb, ns).Some? && Kept(w, tb, ns) == w.scans(tb, ns).value {
        CoversNow(c, m.hist, m.incr.from, m.incr.created, ns, w.scans(tb, ns).value);
        m := WriteIncr(c, R, m, ns, w.scans(tb, ns).value);
      } else {
        m := FailIncr(c, R, m, ns, Kept(w, tb, ns));
      }
    }

    /** Waits for the scans in any order and stores what they found, whether they succeeded or not;
        a nil handler ends the wait with a panic. */
    method WaitForIncrementalBackups(w: World, ghost tb: TimeBounds, ghost R: State -> bool) returns (panicked: bool, ghost order: seq<string>)
      requires Valid() && Closed(c, R) && R(m) && m.incr.Draining? && m.incr.done == {} && Begun(w, m)
      requires Truthful(w, m.hist) && tb == IncrBounds(c, m.incr.from, m.incr.created) && Windowed(incrBackupHandlers, tb)
      modifies this`m
      ensures Valid() && R(m)
      ensures m == Waited(w, tb, old(m), order, m.log) && FoundIsStored(w, tb, old(m).incrs, m.incrs, m.incr.created, Elements(order))
      ensures panicked <==> None in incrBackupHandlers.Values
      ensures forall ns :: ns in order ==> ns in incrBackupHandlers
      ensures !panicked ==> forall ns :: ns in order <==> ns in incrBackupHandlers
    {
      SameStarted(m.incrHandlers, incrBackupHandlers);
      var todo := incrBackupHandlers.Keys;
      order := [];
      while todo != {}
        invariant todo <= incrBackupHandlers.Keys && forall ns :: ns in order <==> ns in incrBackupHandlers && ns !in todo
        invariant Valid() && R(m)
        invariant m == Waited(w, tb, old(m), order, m.log)
        invariant forall ns :: ns in order ==> incrBackupHandlers[ns].Some?
        decreases todo
      {
        var ns :| ns in todo;
        if incrBackupHandlers[ns].None? {
          StoredAsFound(w, tb, old(m).incrs, m.incr.created, order);
          return true, order;
        }
        ghost var log := m.log;
        FinishIncremental(incrBackupHandlers[ns].value, ns, w, R);
        WaitedNext(w, tb, old(m), order, log, ns, m.log);
        order := order + [ns];
        todo := todo - {ns};
      }
      StoredAsFound(w, tb, old(m).incrs, m.incr.created, order);
      return false, order;
    }

    /** All scans of an incremental run, from the first start to the last wait. */
    method ScanIncrementals(now: Time, w: World, ghost R: State -> bool) returns (panicked: bool, ghost done: set<string>)
      requires Valid() && Closed(c, R) && R(m) && m.incr == Admitted(now) && Truthful(w, m.hist)
      modifies this`m, this`incrBackupHandlers
      ensures Valid() && R(m) && m.incr.Draining? && m.incr.created == now
      ensures panicked == (w.listsNamespaces && exists ns :: ns in c.namespaces && !w.starts(ns))
      ensures panicked ==> None in incrBackupHandlers.Values
      ensures !panicked ==> m.incr.done == m.incrHandlers.Keys && done == if w.listsNamespaces then c.namespaces else {}
      ensures done <= (if w.listsNamespaces then c.namespaces else {}) && m.fulls == old(m).fulls
      ensures FoundIsStored(w, IncrBounds(c, BackupState.LatestRun(state.lastFullRun, state.lastIncrRun), now), old(m).incrs, m.incrs, now, done)
    {
      ghost var tb := IncrBounds(c, BackupState.LatestRun(state.lastFullRun, state.lastIncrRun), now);
      StartIncrementalBackupForAllNamespaces(now, w, R);
      SomeNil(w, m, incrBackupHandlers);
      SameStarted(m.incrHandlers, incrBackupHandlers);
      ghost var order;
      panicked, order := WaitForIncrementalBackups(w, tb, R);
      done := Elements(order);
    }

    /** The guards of an incremental run, and its client. */
    method EnterIncremental(now: Time, w: World, ghost R: State -> bool) returns (entered: bool)
      requires Valid() && Closed(c, R) && R(m) && m.incr.Idle? && m.lastTrigger < m.now == now
      modifies this`m
      ensures Valid() && R(m) && m.incr == if entered then Admitted(now) else Idle
      ensures entered <==> state.lastFullRun != 0 && !fullBackupInProgress && incrBackupHandlers == map[] && w.hasClient
      ensures m == old(m).(incr := m.incr, lastTrigger := now)
    {
      m := TriggerIncr(c, R, m);
      NoneStarted(m.incrHandlers);
      NoneStarted(incrBackupHandlers);
      var empty := state.LastFullRunIsEmpty();
      if empty || fullBackupInProgress || incrBackupHandlers != map[] {
        m := SkipIncr(c, R, m);
        return false;
      }
      m := AdmitIncr(c, R, m);
      if !w.hasClient {
        m := SkipIncr(c, R, m);
        return false;
      }
      return true;
    }

    /** An incremental run is skipped before the first full backup, during one, and during another
        incremental run. Once it has a client it advances the last run however its scans end, unless
        one of them did not start; then it panics. */
    method RunIncrementalBackup(now: Time, w: World, ghost R: State -> bool) returns (end: End, ghost done: set<string>)
      requires Valid() && Closed(c, R) && R(m) && m.incr.Idle? && m.lastTrigger < m.now == now
      requires Truthful(w, m.hist)
      modifies this, state
      ensures Valid() && R(m) && m.incr.Idle? && state.lastFullRun == old(state.lastFullRun)
      ensures end == Skipped <==> old(state.lastFullRun) == 0 || fullBackupInProgress || old(incrBackupHandlers) != map[] || !w.hasClient
      ensures end == Panicked <==> end != Skipped && w.listsNamespaces && exists ns :: ns in c.namespaces && !w.starts(ns)
      ensures state.lastIncrRun == if end == Ran then now else old(state.lastIncrRun)
      ensures var from := if old(state.lastIncrRun) > old(state.lastFullRun) then old(state.lastIncrRun) else old(state.lastFullRun);
              end != Skipped ==> FoundIsStored(w, TimeBounds(Some(from), if c.sealed then Some(now) else None), old(m).incrs, m.incrs, now, done)
      ensures end == Skipped ==> m.incrs == old(m).incrs
      ensures done <= (if end != Skipped && w.listsNamespaces then c.namespaces else {}) && m.fulls == old(m).fulls
      ensures end == Ran && w.listsNamespaces ==> done == c.namespaces
      ensures end != Skipped ==> incrBackupHandlers == map[]
      ensures fullBackupInProgress == old(fullBackupInProgress)
    {
      var entered := EnterIncremental(now, w, R);
      if !entered {
        return Skipped, {};
      }
      end, done := RunIncrementalWithClient(now, w, R);
    }

    method RunIncrementalWithClient(now: Time, w: World, ghost R: State -> bool) returns (end: End, ghost done: set<string>)
      requires Valid() && Closed(c, R) && R(m) && m.incr == Admitted(now)
      requires Truthful(w, m.hist)
      modifies this`m, this`incrBackupHandlers, state
      ensures Valid() && R(m) && m.incr.Idle? && state.lastFullRun == old(state.lastFullRun)
      ensures end == if w.listsNamespaces && exists ns :: ns in c.namespaces && !w.starts(ns) then Panicked else Ran
      ensures state.lastIncrRun == if end == Ran then now else old(state.lastIncrRun)
      ensures var from := if old(state.lastIncrRun) > old(state.lastFullRun) then old(state.lastIncrRun) else old(state.lastFullRun);
              FoundIsStored(w, TimeBounds(Some(from), if c.sealed then Some(now) else None), old(m).incrs, m.incrs, now, done)
      ensures done <= (if w.listsNamespaces then c.namespaces else {}) && m.fulls == old(m).fulls
      ensures end == Ran && w.listsNamespaces ==> done == c.namespaces
      ensures incrBackupHandlers == map[]
    {
      var panicked;
      panicked, done := ScanIncrementals(now, w, R);
      if panicked {
        SameStarted(m.incrHandlers, incrBackupHandlers);
        ghost var ns :| ns in incrBackupHandlers && incrBackupHandlers[ns].None?;
        m := PanicIncr(c, R, m, ns);
        incrBackupHandlers := map[];
        return Panicked, done;
      }
      m := UpdateIncr(c, R, m);
      state.SetLastIncrRun(now);
      incrBackupHandlers := map[];
      return Ran, done;
    }
  }
}
