/** Exclusion, restarts and clearing: what the invariants mean for the routine. */
module RoutineProperties {
  import opened Wrappers
  import opened History
  import opened BackupState
  import Backend
  import opened Routine
  import opened RoutineInvariant
  import opened Restore
  import opened CleanRuns
  import opened FullBackups

  /** Full-backup exclusion, over every interleaving of scheduled, ad hoc and retried runs. */
  lemma FullBackupExclusion(c: Settings, steps: seq<Step>, s: State)
    requires c.namespaces != {} && Reaches(c, steps, s)
    ensures s.inProgress <==> |s.fullRuns| == 1
    ensures |s.fullRuns| <= 1
    ensures !s.inProgress ==> s.fullHandlers == map[]
    ensures s.incr.Admitted? || s.incr.Opening? || s.incr.Draining? ==> s.lastFull in s.known
  {
    ReachableInv(c, steps, s);
    if id :| id in s.fullRuns {
      assert s.fullRuns.Keys == {id};
      assert |s.fullRuns| == |s.fullRuns.Keys|;
    }
  }

  lemma ExitOfFull(c: Settings, s: State, step: FullStep, id: nat)
    requires Exclusive(c, s) && FullEnabled(c, s, step) && id in s.fullRuns && id !in ApplyFull(c, s, step).fullRuns
    ensures !ApplyFull(c, s, step).inProgress && ApplyFull(c, s, step).fullHandlers == map[]
  {
    assert s.fullRuns[id].phase.Entered? || s.fullRuns[id].phase.Released?;
  }

  lemma IncrKeepsFullRuns(c: Settings, s: State, step: IncrStep)
    requires IncrEnabled(c, s, step)
    ensures ApplyIncr(c, s, step).fullRuns == s.fullRuns
  {
  }

  lemma ExitByRestart(s: State, step: EnvStep, id: nat)
    requires EnvEnabled(s, step) && id in s.fullRuns && id !in ApplyEnv(s, step).fullRuns
    ensures !ApplyEnv(s, step).inProgress && ApplyEnv(s, step).fullHandlers == map[]
  {
  }

  /** Every way out of a full run releases the flag and leaves no handler behind. */
  lemma ExitReleases(c: Settings, s: State, step: Step, id: nat)
    requires Exclusive(c, s) && Enabled(c, s, step) && id in s.fullRuns && id !in Apply(c, s, step).fullRuns
    ensures !Apply(c, s, step).inProgress && Apply(c, s, step).fullHandlers == map[]
  {
    match step
    case Env(e) => ExitByRestart(s, e, id);
    case Full(f) => ExitOfFull(c, s, f, id);
    case Incr(i) => IncrKeepsFullRuns(c, s, i);
  }

  /** What the backend reads from the listing of these folders, none of which lies in the future, is what
      a restart reads back: their latest stamp, or zero exactly if there are none or they cannot be read. */
  lemma StateIsReadBack(listing: Backend.Listing, all: seq<Backend.Metadata>, folders: set<Folder>, now: Time, t: Time)
    requires Lists(all, folders) && (listing.Ok? ==> Backend.Decodes(listing.value, all)) && Backend.ReadsAs(listing, now, t)
    requires forall f :: f in folders ==> 0 < f.0 <= now
    ensures ReadBack(t, set f | f in folders :: f.0)
    ensures t != 0 ==> (exists f :: f in folders && f.0 == t) && forall f :: f in folders ==> f.0 <= t
    ensures t == 0 <==> listing.Err? || folders == {}
  {
    assert forall m :: m in all ==> (m.created, m.ns) in FoldersOf(all);
    if listing.Ok? {
      forall i | 0 <= i < |listing.value|
        ensures listing.value[i] != None
      {
        assert listing.value[i] == Some(all[i]);
      }
      if folders != {} {
        var f :| f in folders;
        assert f in FoldersOf(all);
        assert Backend.IsLatest(all, now, t);
      }
      forall f | f in folders
        ensures f.0 <= t
      {
        assert f in FoldersOf(all);
      }
    }
  }

  /** The run times a restart reads back, when storage can be read. */
  ghost predicate ReadsStorage(s: State, step: EnvStep) {
    && step.Restart?
    && (step.fullRun == 0 ==> s.fulls == map[]) && (step.incrRun == 0 ==> s.incrs == map[])
  }

  /** A restart moves LastRun forward exactly when storage holds a backup stamped later than
      LastRun: the metadata of a run that did not get to update the state. */
  lemma RestartKeepsLastRunIff(c: Settings, s: State, step: EnvStep)
    requires Inv(c, s) && EnvEnabled(s, step) && ReadsStorage(s, step)
    ensures var t := ApplyEnv(s, step);
            LatestRun(t.lastFull, t.lastIncr) <= LatestRun(s.lastFull, s.lastIncr)
            <==> (forall f :: f in s.fulls.Keys + s.incrs.Keys ==> f.0 <= LatestRun(s.lastFull, s.lastIncr))
  {
    if step.fullRun != 0 {
      assert step.fullRun in Stamps(s.fulls);
      var f :| f in s.fulls && f.0 == step.fullRun;
      assert f in s.fulls.Keys + s.incrs.Keys;
    }
    if step.incrRun != 0 {
      assert step.incrRun in Stamps(s.incrs);
      var f :| f in s.incrs && f.0 == step.incrRun;
      assert f in s.fulls.Keys + s.incrs.Keys;
    }
    forall f | f in s.fulls.Keys + s.incrs.Keys
      ensures f.0 <= LatestRun(step.fullRun, step.incrRun)
    {
      if f in s.fulls {
        assert f.0 in Stamps(s.fulls);
      } else {
        assert f.0 in Stamps(s.incrs);
      }
    }
  }

  /** The stamps of the incrementals that restoring to `t` would replay on top of `full`. */
  function Selected(incrs: map<Folder, Data>, ns: string, full: Time, t: Time): set<Time> {
    set f | f in incrs && f.1 == ns && full <= f.0 <= t :: f.0
  }

  lemma {:induction false} LatestExists(stamps: set<Time>, f: Time, t: Time) returns (full: Time)
    requires f in stamps && f <= t
    ensures LatestFull(stamps, full, t) && f <= full
    decreases t - f
  {
    if x :| x in stamps && f < x <= t {
      full := LatestExists(stamps, x, t);
    } else {
      full := f;
    }
  }

  /** When the full backup stamped `f` is stored, clearing the incremental folder leaves the
      selection of every restore to an instant at or after `f` unchanged exactly when no
      incremental of the namespace is stamped at or after `f`. */
  lemma ClearingIsSafeIff(stamps: set<Time>, incrs: map<Folder, Data>, ns: string, f: Time)
    requires f in stamps
    ensures (forall t, full :: f <= t && LatestFull(stamps, full, t) ==> Selected(incrs, ns, full, t) == Selected(map[], ns, full, t))
            <==> (forall x :: x in incrs && x.1 == ns ==> x.0 < f)
  {
    if x :| x in incrs && x.1 == ns && f <= x.0 {
      var full := LatestExists(stamps, f, x.0);
      assert x.0 in Selected(incrs, ns, full, x.0);
      assert x.0 !in Selected(map[], ns, full, x.0);
    } else {
      forall t, full | f <= t && LatestFull(stamps, full, t)
        ensures Selected(incrs, ns, full, t) == Selected(map[], ns, full, t)
      {
        assert f <= full;
      }
    }
  }

  predicate PartOf(a: Data, b: Data) {
    forall key :: key in a ==> key in b && b[key] == a[key]
  }

  /** Every incremental of the namespace stamped at `f` or later says nothing that the full backup
      before it does not. */
  ghost predicate Redundant(s: State, ns: string, f: Time) {
    forall x: Time, full: Time :: f <= x && (x, ns) in s.incrs && LatestFull(Stamps(s.fulls), full, x) && (full, ns) in s.fulls ==>
      PartOf(s.incrs[(x, ns)], s.fulls[(full, ns)].data)
  }

  /** Every restore of the namespace to an instant at or after `f` gives the same data. */
  ghost predicate SameRestores(s: State, t: State, ns: string, f: Time)
    requires t.fulls == s.fulls
  {
    forall x: Time, full: Time :: f <= x && LatestFull(Stamps(s.fulls), full, x) && (full, ns) in s.fulls ==>
      Restored(t, ns, full, x) == Restored(s, ns, full, x)
  }

  lemma {:induction false} ReplayRedundant(incrs: map<Folder, Data>, ns: string, base: Data, full: Time, t: Time)
    requires full <= t && forall x: Time :: full <= x <= t && (x, ns) in incrs ==> PartOf(incrs[(x, ns)], base)
    ensures ReplayUpTo(incrs, ns, base, full, t) == base
  {
    if full < t {
      ReplayRedundant(incrs, ns, base, full, t - 1);
    }
    if (t, ns) in incrs {
      assert base + incrs[(t, ns)] == base;
    }
  }

  lemma LatestBetween(stamps: set<Time>, full: Time, x: Time, t: Time)
    requires LatestFull(stamps, full, t) && full <= x <= t
    ensures LatestFull(stamps, full, x)
  {
  }

  lemma RedundantRestores(s: State, ns: string, f: Time, full: Time, t: Time)
    requires Redundant(s, ns, f) && f in Stamps(s.fulls) && f <= t && LatestFull(Stamps(s.fulls), full, t) && (full, ns) in s.fulls
    ensures Restored(s, ns, full, t) == s.fulls[(full, ns)].data
  {
    forall x: Time | full <= x <= t && (x, ns) in s.incrs
      ensures PartOf(s.incrs[(x, ns)], s.fulls[(full, ns)].data)
    {
      LatestBetween(Stamps(s.fulls), full, x, t);
    }
    ReplayRedundant(s.incrs, ns, s.fulls[(full, ns)].data, full, t);
  }

  lemma ClearedRestores(s: State, ns: string, full: Time, t: Time)
    requires s.incrs == map[] && (full, ns) in s.fulls
    ensures Restored(s, ns, full, t) == s.fulls[(full, ns)].data
  {
    ReplayNone(s.incrs, ns, s.fulls[(full, ns)].data, full, t);
  }

  /** Clearing in state `s`, which leads to `t`. */
  lemma SameRestoresIff(s: State, t: State, ns: string, f: Time)
    requires t.fulls == s.fulls && t.incrs == map[] && f in Stamps(s.fulls)
    ensures SameRestores(s, t, ns, f) <==> Redundant(s, ns, f)
  {
    if Redundant(s, ns, f) {
      forall x: Time, full: Time | f <= x && LatestFull(Stamps(s.fulls), full, x) && (full, ns) in s.fulls
        ensures Restored(t, ns, full, x) == Restored(s, ns, full, x)
      {
        RedundantRestores(s, ns, f, full, x);
        ClearedRestores(t, ns, full, x);
      }
    }
    if SameRestores(s, t, ns, f) {
      forall x: Time, full: Time | f <= x && (x, ns) in s.incrs && LatestFull(Stamps(s.fulls), full, x) && (full, ns) in s.fulls
        ensures PartOf(s.incrs[(x, ns)], s.fulls[(full, ns)].data)
      {
        ClearedRestores(t, ns, full, x);
        assert Restored(s, ns, full, x) == s.fulls[(full, ns)].data;
      }
    }
  }

  /** In every reachable state, the clearing after the full backup stamped `f` changes no restore to an
      instant at or after `f` exactly when every incremental stamped at `f` or later is redundant. It
      is enough that there is none. */
  lemma ClearingKeepsRestoresIff(c: Settings, steps: seq<Step>, s: State, id: nat, ns: string)
    requires c.namespaces != {} && Reaches(c, steps, s) && FullEnabled(c, s, FullDelete(id))
    ensures var t, f := ApplyFull(c, s, FullDelete(id)), s.fullRuns[id].stamp;
            && f in Stamps(s.fulls) && t.fulls == s.fulls
            && (SameRestores(s, t, ns, f) <==> Redundant(s, ns, f))
            && ((forall x :: x in s.incrs && x.1 == ns ==> x.0 < f) ==> SameRestores(s, t, ns, f))
  {
    ReachableWritten(c, steps, s);
    var f := s.fullRuns[id].stamp;
    var some :| some in c.namespaces;
    assert (f, some) in s.fulls;
    SameRestoresIff(s, ApplyFull(c, s, FullDelete(id)), ns, f);
  }

  // ----- clearing while an incremental is draining -----

  /** What a restore has replayed just before instant `x`. */
  ghost function Prior(s: State, ns: string, full: Time, x: Time): Data
    requires (full, ns) in s.fulls
  {
    if x <= full then s.fulls[(full, ns)].data else Restored(s, ns, full, x - 1)
  }

  /** Every record that `prior` holds other than `base` is also in `data`. */
  predicate Overridden(prior: Data, base: Data, data: Data) {
    forall key :: key in prior ==> key in data || (key in base && base[key] == prior[key])
  }

  lemma {:induction false} ReplayExtends(incrs: map<Folder, Data>, ns: string, base: Data, full: Time, t: Time)
    ensures base.Keys <= ReplayUpTo(incrs, ns, base, full, t).Keys
  {
    if full < t {
      ReplayExtends(incrs, ns, base, full, t - 1);
    }
  }

  lemma {:induction false} ReplayAgrees(a: map<Folder, Data>, b: map<Folder, Data>, ns: string, base: Data, full: Time, t: Time)
    requires forall x: Time :: full <= x <= t ==> ((x, ns) in a <==> (x, ns) in b) && ((x, ns) in a ==> a[(x, ns)] == b[(x, ns)])
    ensures ReplayUpTo(a, ns, base, full, t) == ReplayUpTo(b, ns, base, full, t)
  {
    if full < t {
      ReplayAgrees(a, b, ns, base, full, t - 1);
    }
  }

  /** Nothing of the namespace is stored at `x` or later. */
  ghost predicate NothingFrom(s: State, ns: string, x: Time) {
    forall y: Time :: x <= y ==> (y, ns) !in s.incrs
  }

  /** The state once the incremental stamped `x` is stored. */
  function Storing(s: State, x: Time, ns: string, data: Data): State {
    s.(incrs := StoreIncr(s.incrs, (x, ns), data))
  }

  lemma RestoredAfterStoring(s: State, ns: string, full: Time, x: Time, t: Time, data: Data)
    requires (full, ns) in s.fulls && full <= x <= t && NothingFrom(s, ns, x)
    ensures Restored(Storing(s, x, ns, data), ns, full, t) == Prior(s, ns, full, x) + data
  {
    var base, stored := s.fulls[(full, ns)].data, StoreIncr(s.incrs, (x, ns), data);
    ReplayIdle(stored, ns, base, full, x, t);
    if full < x {
      ReplayAgrees(s.incrs, stored, ns, base, full, x - 1);
    }
    assert data == map[] ==> Prior(s, ns, full, x) + data == Prior(s, ns, full, x);
  }

  lemma SameUnderData(prior: Data, base: Data, data: Data)
    requires base.Keys <= prior.Keys
    ensures prior + data == base + data <==> Overridden(prior, base, data)
  {
    if prior + data == base + data {
      forall key | key in prior && key !in data
        ensures key in base && base[key] == prior[key]
      {
        assert key in prior + data;
        assert (prior + data)[key] == prior[key];
      }
    }
  }

  lemma StoringIff(s: State, ns: string, full: Time, x: Time, t: Time, data: Data)
    requires (full, ns) in s.fulls && full <= x <= t && NothingFrom(s, ns, x)
    ensures Restored(Storing(s.(incrs := map[]), x, ns, data), ns, full, t) == Restored(Storing(s, x, ns, data), ns, full, t)
            <==> Overridden(Prior(s, ns, full, x), s.fulls[(full, ns)].data, data)
  {
    var cleared, base := s.(incrs := map[]), s.fulls[(full, ns)].data;
    RestoredAfterStoring(s, ns, full, x, t, data);
    RestoredAfterStoring(cleared, ns, full, x, t, data);
    if full < x {
      ClearedRestores(cleared, ns, full, x - 1);
      ReplayExtends(s.incrs, ns, base, full, x - 1);
    }
    SameUnderData(Prior(s, ns, full, x), base, data);
  }

  lemma DrainingIsNewest(s: State, ns: string)
    requires Dated(s) && Newest(s) && s.incr.Draining? && ns !in s.incr.done
    ensures NothingFrom(s, ns, s.incr.created)
  {
    forall y: Time | s.incr.created <= y
      ensures (y, ns) !in s.incrs
    {
      assert (y, ns) in s.incrs ==> (y, ns).0 <= s.lastTrigger;
    }
  }

  lemma SameStorage(a: State, b: State, ns: string, full: Time, t: Time)
    requires a.fulls == b.fulls && a.incrs == b.incrs && (full, ns) in a.fulls
    ensures Restored(a, ns, full, t) == Restored(b, ns, full, t)
  {
  }

  lemma NothingToOverride(s: State, ns: string, full: Time, x: Time)
    requires (full, ns) in s.fulls && forall y: Time :: full <= y < x ==> (y, ns) !in s.incrs
    ensures Prior(s, ns, full, x) == s.fulls[(full, ns)].data
  {
    if full < x {
      ReplayNone(s.incrs, ns, s.fulls[(full, ns)].data, full, x - 1);
    }
  }

  /** In every reachable state in which the clearing meets an incremental stamped `x` that is still
      draining: storing what it found of a namespace afterwards is restored to `x` or later as it would
      be without the clearing exactly when every record that the cleared incrementals since the full
      backup before `x` had changed is overridden by what it found. It is enough that there are none. */
  lemma ClearingWhileDrainingIff(c: Settings, steps: seq<Step>, s: State, id: nat, ns: string, full: Time, t: Time, data: Data)
    requires c.namespaces != {} && Reaches(c, steps, s) && FullEnabled(c, s, FullDelete(id))
    requires s.incr.Draining? && ns !in s.incr.done
    requires (full, ns) in s.fulls && LatestFull(Stamps(s.fulls), full, t) && full <= s.incr.created <= t
    ensures var x, after := s.incr.created, ApplyFull(c, s, FullDelete(id));
            && after.fulls == s.fulls
            && (Restored(Storing(after, x, ns, data), ns, full, t) == Restored(Storing(s, x, ns, data), ns, full, t)
                <==> Overridden(Prior(s, ns, full, x), s.fulls[(full, ns)].data, data))
            && ((forall y: Time :: full <= y < x ==> (y, ns) !in s.incrs) ==>
                  Restored(Storing(after, x, ns, data), ns, full, t) == Restored(Storing(s, x, ns, data), ns, full, t))
  {
    ReachableInv(c, steps, s);
    var x, after := s.incr.created, ApplyFull(c, s, FullDelete(id));
    DrainingIsNewest(s, ns);
    StoringIff(s, ns, full, x, t, data);
    SameStorage(Storing(after, x, ns, data), Storing(s.(incrs := map[]), x, ns, data), ns, full, t);
    if forall y: Time :: full <= y < x ==> (y, ns) !in s.incrs {
      NothingToOverride(s, ns, full, x);
    }
  }

  /** The run stamped `t` completed and found nothing in any namespace. */
  ghost predicate FoundNothing(c: Settings, s: State, t: Time) {
    forall ns :: ns in c.namespaces ==> (t, ns) in s.log && s.log[(t, ns)].data == map[]
  }

  lemma ClearedRunFoundNothing(c: Settings, s: State, id: nat)
    requires Completed(c, s) && Kept(c, s) && FullEnabled(c, s, FullDelete(id)) && CleanFull(c, s, FullDelete(id))
    requires s.lastIncr in s.marks && s.fullRuns[id].stamp < s.lastIncr && s.cleared <= s.lastIncr
    ensures FoundNothing(c, s, s.lastIncr)
  {
    assert Whole(c, s, s.lastIncr);
    forall ns | ns in c.namespaces
      ensures (s.lastIncr, ns) in s.log && s.log[(s.lastIncr, ns)].data == map[]
    {
      assert s.log[(s.lastIncr, ns)].data != map[] ==> (s.lastIncr, ns) in s.incrs;
    }
  }

  lemma DeletionKeepsRuns(c: Settings, s: State, id: nat)
    requires Exclusive(c, s) && FullEnabled(c, s, FullDelete(id))
    ensures var t := ApplyFull(c, s, FullDelete(id)); t.incrs == map[] && t.lastFull == s.fullRuns[id].stamp && t.lastIncr == s.lastIncr
  {
  }

  /** After a clean clearing the next window starts at the full backup, unless a later incremental
      run found nothing, or was already cleared by a later full backup; then it starts there. */
  lemma WindowAfterClearing(c: Settings, s: State, id: nat)
    requires Inv(c, s) && CleanInv(c, s) && FullEnabled(c, s, FullDelete(id)) && CleanFull(c, s, FullDelete(id))
    ensures var t, stamp := ApplyFull(c, s, FullDelete(id)), s.fullRuns[id].stamp;
            t.incrs == map[]
            && if s.lastIncr <= stamp then LatestRun(t.lastFull, t.lastIncr) == stamp
               else LatestRun(t.lastFull, t.lastIncr) == s.lastIncr && (s.lastIncr < s.cleared || FoundNothing(c, s, s.lastIncr))
  {
    DeletionKeepsRuns(c, s, id);
    if s.fullRuns[id].stamp < s.lastIncr && s.cleared <= s.lastIncr {
      ClearedRunFoundNothing(c, s, id);
    }
  }
}
