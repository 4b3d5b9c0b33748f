/** The code of one namespace worker, statement by statement, as in pkg/service/restore_data.go. A call
    without interference takes steps of the restore protocol only: whatever property `R` is closed
    under the steps of runs holds after the call if it held before. */
module DataRestorer {
  import opened Wrappers
  import opened History
  import opened Backend
  import opened JobsHolder
  import opened RestoreWorkers
  import opened RestoreRuns

  ghost predicate Closed(R: (Jobs, Run) -> bool) {
    forall jobs, r, step, js, to :: R(jobs, r) && RunNext(jobs, r, step) == Some((js, to)) ==> R(js, to)
  }

  /** Worker `i` takes one step. */
  lemma Take(R: (Jobs, Run) -> bool, jobs: Jobs, r: Run, i: nat, step: WorkerStep, w: Worker) returns (to: Run)
    requires Closed(R) && R(jobs, r) && r.main == Spawned && i < |r.workers| && Next(r.workers[i], r.time, step) == Some(w)
    requires step != Append
    ensures R(Report(jobs, r.id, i, r.workers[i], step), to) && At(to, r, i, w)
  {
    to := r.(workers := r.workers[i := w], log := Logged(r.log, i, r.workers[i], step));
    assert RunNext(jobs, r, OnWorker(i, step)) == Some((Report(jobs, r.id, i, r.workers[i], step), to));
  }

  /** The run is where it was, except for worker `i`. */
  ghost predicate At(to: Run, r: Run, i: nat, w: Worker) {
    && to.id == r.id && to.time == r.time && to.main == r.main && to.errors == r.errors && i < |r.workers|
    && to.workers == r.workers[i := w]
  }

  /** A worker that has selected its plan, with the first `counted` backups counted. */
  function Planned(full: Metadata, listed: seq<Metadata>, incrs: seq<Metadata>, counted: nat): Worker {
    Worker(false, full, true, listed, [full] + incrs, Counting, counted, [], 0, 0)
  }

  /** A worker at the backup `k` of its plan. */
  function Standing(w: Worker, k: nat, fetched: seq<nat>): Worker {
    w.(phase := Starting(k), counted := |w.plan|, fetched := fetched, registered := k, completed := k)
  }

  /** Adds the records of every backup of the plan to the total of the job. */
  method CountAll(holder: RestoreJobsHolder, full: Metadata, listed: seq<Metadata>, incrs: seq<Metadata>, ghost i: nat, ghost start: Run,
                  id: Id, ghost R: (Jobs, Run) -> bool) returns (ghost r: Run)
    requires Closed(R) && R(holder.jobs, start) && start.main == Spawned && i < |start.workers| && id == start.id
    requires start.workers[i] == Planned(full, listed, incrs, 0)
    modifies holder
    ensures R(holder.jobs, r) && At(r, start, i, Standing(Planned(full, listed, incrs, 0), 0, []))
    ensures holder.jobs.Keys == old(holder.jobs).Keys
    ensures id in holder.jobs ==> holder.jobs[id].totalRecords == old(holder.jobs)[id].totalRecords + SumRecords([full] + incrs)
  {
    r := start;
    var plan := [full] + incrs;
    for k := 0 to |plan|
      invariant R(holder.jobs, r) && At(r, start, i, Planned(full, listed, incrs, k)) && holder.jobs.Keys == old(holder.jobs).Keys
      invariant id in holder.jobs ==> holder.jobs[id].totalRecords == old(holder.jobs)[id].totalRecords + SumRecords(plan[..k])
    {
      r := Take(R, holder.jobs, r, i, Count, Planned(full, listed, incrs, k + 1));
      holder.AddTotalRecords(id, plan[k].records);
      assert plan[..k + 1][..k] == plan[..k];
    }
    assert plan[..|plan|] == plan;
    r := Take(R, holder.jobs, r, i, CountEnds, Standing(Planned(full, listed, incrs, 0), 0, []));
  }

  /** One backup: start, hand the handler to the holder, wait. */
  method RestoreOne(holder: RestoreJobsHolder, ghost w: Worker, k: nat, starts: bool, ends: bool, i: nat, ghost start: Run, id: Id,
                    ghost fetched: seq<nat>, ghost R: (Jobs, Run) -> bool) returns (ok: bool, ghost r: Run, ghost to: Worker)
    requires Closed(R) && R(holder.jobs, start) && start.main == Spawned && i < |start.workers| && id == start.id
    requires k < |w.plan| && !w.byPath && start.workers[i] == Standing(w, k, fetched)
    modifies holder
    ensures ok == (starts && ends) && R(holder.jobs, r) && holder.jobs.Keys == old(holder.jobs).Keys
    ensures At(r, start, i, to)
    ensures if ok then to == Standing(w, k + 1, fetched + [0]) else to.phase == Erring && to.completed == k && to.plan == w.plan
  {
    var here := Standing(w, k, fetched);
    if !starts {
      to := here.(phase := Erring);
      r := Take(R, holder.jobs, start, i, StartFails, to);
      return false, r, to;
    }
    var begun := here.(fetched := fetched + [0], phase := Registering(k));
    r := Take(R, holder.jobs, start, i, Start, begun);
    var registered := begun.(registered := k + 1, phase := Waiting(k));
    r := Take(R, holder.jobs, r, i, Register, registered);
    holder.AddHandler(id, Handler(i, k));
    if !ends {
      to := registered.(phase := Erring);
      r := Take(R, holder.jobs, r, i, WaitFails, to);
      return false, r, to;
    }
    to := Standing(w, k + 1, fetched + [0]);
    r := Take(R, holder.jobs, r, i, WaitEnds, to);
    return true, r, to;
  }

  /** The outcomes of the calls to the backend and the restore library: the incrementals listed and
      selected, and which restores start and which end well. */
  datatype World = World(selection: Option<(seq<Metadata>, seq<Metadata>)>, starts: nat -> bool, ends: nat -> bool)

  predicate AllEndWell(w: World, n: nat) {
    forall k :: 0 <= k < n ==> w.starts(k) && w.ends(k)
  }

  /** The incrementals of the namespace are found, and every restore starts and ends well. */
  predicate Succeeds(w: World) {
    w.selection.Some? && AllEndWell(w, 1 + |w.selection.value.1|)
  }

  /** The restores of a plan, in order; the first failure ends them. */
  method RestoreAll(holder: RestoreJobsHolder, ghost w: Worker, n: nat, world: World, i: nat, ghost start: Run, id: Id,
                    ghost R: (Jobs, Run) -> bool) returns (ok: bool, ghost r: Run, ghost to: Worker)
    requires Closed(R) && R(holder.jobs, start) && start.main == Spawned && i < |start.workers| && id == start.id
    requires n == |w.plan| && !w.byPath && start.workers[i] == Standing(w, 0, [])
    modifies holder
    ensures ok == (forall k :: 0 <= k < n ==> world.starts(k) && world.ends(k)) && R(holder.jobs, r) && At(r, start, i, to) && to.plan == w.plan
    ensures holder.jobs.Keys == old(holder.jobs).Keys
    ensures if ok then to.phase == Finished(true) && to.completed == n else to.phase == Erring && to.completed < n
  {
    r, to := start, Standing(w, 0, []);
    ghost var fetched := [];
    for k := 0 to n
      invariant R(holder.jobs, r) && At(r, start, i, to) && to == Standing(w, k, fetched) && AllEndWell(world, k)
      invariant holder.jobs.Keys == old(holder.jobs).Keys
    {
      ok, r, to := RestoreOne(holder, w, k, world.starts(k), world.ends(k), i, r, id, fetched, R);
      if !ok {
        return;
      }
      fetched := fetched + [0];
    }
    to := to.(phase := Finished(true));
    r := Take(R, holder.jobs, r, i, Return, to);
    return true, r, to;
  }

  /** The worker of one namespace succeeds exactly when its incrementals are found and every restore
      starts and ends well. Either way it has added the whole plan to the total once it has one. */
  method RestoreNamespace(holder: RestoreJobsHolder, full: Metadata, ghost time: Time, world: World, i: nat, ghost start: Run, id: Id,
                          ghost R: (Jobs, Run) -> bool) returns (ok: bool, ghost r: Run, ghost to: Worker)
    requires Closed(R) && R(holder.jobs, start) && start.main == Spawned && i < |start.workers| && id == start.id && time == start.time
    requires start.workers[i] == NewWorker(false, full)
    requires world.selection.Some? ==> IsSelection(full, time, world.selection.value.0, world.selection.value.1)
    modifies holder
    ensures R(holder.jobs, r) && At(r, start, i, to) && holder.jobs.Keys == old(holder.jobs).Keys
    ensures ok == (world.selection.Some? && forall k :: 0 <= k < 1 + |world.selection.value.1| ==> world.starts(k) && world.ends(k))
    ensures to.phase == if ok then Finished(true) else Erring
    ensures world.selection.Some? ==> to.plan == [full] + world.selection.value.1
    ensures ok ==> to.completed == |to.plan|
  {
    if world.selection.None? {
      to := start.workers[i].(phase := Erring);
      r := Take(R, holder.jobs, start, i, SelectFails, to);
      return false, r, to;
    }
    var (listed, incrs) := world.selection.value;
    r := Take(R, holder.jobs, start, i, Select(listed, incrs), Planned(full, listed, incrs, 0));
    r := CountAll(holder, full, listed, incrs, i, r, id, R);
    ok, r, to := RestoreAll(holder, Planned(full, listed, incrs, 0), 1 + |incrs|, world, i, r, id, R);
  }

  /** The one backup of a restore by path; its total is added after the start. */
  method RestoreFromPath(holder: RestoreJobsHolder, backup: Metadata, starts: bool, ends: bool, ghost start: Run, id: Id,
                       ghost R: (Jobs, Run) -> bool) returns (ok: bool, ghost r: Run, ghost to: Worker)
    requires Closed(R) && R(holder.jobs, start) && start.main == Spawned && id == start.id && start.workers == [NewWorker(true, backup)]
    modifies holder
    ensures R(holder.jobs, r) && At(r, start, 0, to) && ok == (starts && ends) && holder.jobs.Keys == old(holder.jobs).Keys
    ensures if ok then to.phase == Finished(true) && to.completed == 1 else to.phase == Erring && to.completed == 0
  {
    to := NewWorker(true, backup);
    if !starts {
      to := to.(phase := Erring);
      r := Take(R, holder.jobs, start, 0, StartFails, to);
      return false, r, to;
    }
    to := to.(fetched := to.fetched + [0], phase := Counting);
    r := Take(R, holder.jobs, start, 0, Start, to);
    ok, r, to := WaitByPath(holder, backup, ends, r, id, to.fetched, R);
  }

  /** A worker by path whose backup has started. */
  function Begun(backup: Metadata, fetched: seq<nat>, phase: Phase, counted: nat): Worker {
    Worker(true, backup, false, [], [backup], phase, counted, fetched, 0, 0)
  }

  method WaitByPath(holder: RestoreJobsHolder, backup: Metadata, ends: bool, ghost start: Run, id: Id, ghost fetched: seq<nat>,
                    ghost R: (Jobs, Run) -> bool) returns (ok: bool, ghost r: Run, ghost to: Worker)
    requires Closed(R) && R(holder.jobs, start) && start.main == Spawned && id == start.id
    requires start.workers == [Begun(backup, fetched, Counting, 0)]
    modifies holder
    ensures R(holder.jobs, r) && At(r, start, 0, to) && ok == ends && holder.jobs.Keys == old(holder.jobs).Keys
    ensures if ok then to.phase == Finished(true) && to.completed == 1 else to.phase == Erring && to.completed == 0
  {
    r := Take(R, holder.jobs, start, 0, Count, Begun(backup, fetched, Counting, 1));
    holder.AddTotalRecords(id, backup.records);
    r := Take(R, holder.jobs, r, 0, CountEnds, Begun(backup, fetched, Registering(0), 1));
    ok, r, to := FinishByPath(holder, backup, ends, r, id, fetched, R);
  }

  method FinishByPath(holder: RestoreJobsHolder, backup: Metadata, ends: bool, ghost start: Run, id: Id, ghost fetched: seq<nat>,
                      ghost R: (Jobs, Run) -> bool) returns (ok: bool, ghost r: Run, ghost to: Worker)
    requires Closed(R) && R(holder.jobs, start) && start.main == Spawned && id == start.id
    requires start.workers == [Begun(backup, fetched, Registering(0), 1)]
    modifies holder
    ensures R(holder.jobs, r) && At(r, start, 0, to) && ok == ends && holder.jobs.Keys == old(holder.jobs).Keys
    ensures if ok then to.phase == Finished(true) && to.completed == 1 else to.phase == Erring && to.completed == 0
  {
    to := start.workers[0].(registered := 1, phase := Waiting(0));
    r := Take(R, holder.jobs, start, 0, Register, to);
    holder.AddHandler(id, Handler(0, 0));
    if !ends {
      to := to.(phase := Erring);
      r := Take(R, holder.jobs, r, 0, WaitFails, to);
      return false, r, to;
    }
    to := to.(completed := 1, phase := Starting(1));
    r := Take(R, holder.jobs, r, 0, WaitEnds, to);
    to := to.(phase := Finished(true));
    r := Take(R, holder.jobs, r, 0, Return, to);
    return true, r, to;
  }

  // ----- whole jobs -----

  lemma Go(R: (Jobs, Run) -> bool, jobs: Jobs, r: Run, step: RunStep, js: Jobs, to: Run)
    requires Closed(R) && R(jobs, r) && RunNext(jobs, r, step) == Some((js, to))
    ensures R(js, to)
  {
  }

  /** The workers that fail among the first `n`. */
  function Failing(worlds: seq<World>, n: nat): seq<nat>
    requires n <= |worlds|
  {
    if n == 0 then [] else Failing(worlds, n - 1) + if Succeeds(worlds[n - 1]) then [] else [n - 1]
  }

  lemma {:induction false} FailingAre(worlds: seq<World>, n: nat)
    requires n <= |worlds|
    ensures forall i :: i in Failing(worlds, n) <==> 0 <= i < n && !Succeeds(worlds[i])
  {
    if n > 0 {
      FailingAre(worlds, n - 1);
    }
  }

  /** The first `n` workers have finished, the others have not begun. */
  ghost predicate Through(r: Run, fulls: seq<Metadata>, worlds: seq<World>, n: nat)
    requires n <= |worlds| == |fulls|
  {
    && r.main == Spawned && |r.workers| == |fulls| && r.errors == Failing(worlds, n)
    && (forall i :: 0 <= i < n ==> r.workers[i].phase == Finished(Succeeds(worlds[i])))
    && forall i :: n <= i < |fulls| ==> r.workers[i] == NewWorker(false, fulls[i])
  }

  /** The selections are those of the backend. */
  ghost predicate Selected(fulls: seq<Metadata>, worlds: seq<World>, time: Time) {
    |worlds| == |fulls| && forall i :: 0 <= i < |fulls| && worlds[i].selection.Some? ==>
      IsSelection(fulls[i], time, worlds[i].selection.value.0, worlds[i].selection.value.1)
  }

  /** One namespace, and the error appended if it fails. */
  method RestoreAndAppend(holder: RestoreJobsHolder, fulls: seq<Metadata>, worlds: seq<World>, i: nat, errors: seq<nat>, ghost start: Run, id: Id,
                          ghost R: (Jobs, Run) -> bool) returns (after: seq<nat>, ghost r: Run)
    requires Closed(R) && R(holder.jobs, start) && id == start.id && i < |fulls| && Selected(fulls, worlds, start.time)
    requires Through(start, fulls, worlds, i) && errors == start.errors
    modifies holder
    ensures R(holder.jobs, r) && r.id == id && r.time == start.time && Through(r, fulls, worlds, i + 1) && after == r.errors
    ensures holder.jobs.Keys == old(holder.jobs).Keys
  {
    var ok;
    ghost var w;
    ok, r, w := RestoreNamespace(holder, fulls[i], start.time, worlds[i], i, start, id, R);
    after := errors;
    if !ok {
      after := errors + [i];
      ghost var to := r.(workers := r.workers[i := w.(phase := Finished(false))], errors := after);
      Go(R, holder.jobs, r, OnWorker(i, Append), holder.jobs, to);
      r := to;
    }
  }

  /** The job fails without a client; otherwise every namespace is restored, and the job is done
      exactly when all of them succeed, and fails with exactly those that do not. */
  method RestoreByTimeSync(holder: RestoreJobsHolder, hasClient: bool, fulls: seq<Metadata>, worlds: seq<World>, ghost start: Run, id: Id,
                           ghost R: (Jobs, Run) -> bool) returns (ghost r: Run)
    requires Closed(R) && R(holder.jobs, start) && id == start.id && id in holder.jobs && Selected(fulls, worlds, start.time)
    requires start == NewRun(id, start.time, false, fulls)
    modifies holder
    ensures R(holder.jobs, r) && r.id == id && r.main == Ended && holder.jobs.Keys == old(holder.jobs).Keys
    ensures holder.jobs[id].status == Done <==> hasClient && forall i :: 0 <= i < |fulls| ==> Succeeds(worlds[i])
    ensures holder.jobs[id].status != Done ==> holder.jobs[id].status == Failed && holder.jobs[id].err.Some?
    ensures !hasClient ==> holder.jobs[id].err == Some(NoClient)
    ensures hasClient && holder.jobs[id].status == Failed ==>
              && holder.jobs[id].err.value.Namespaces?
              && forall i :: i in holder.jobs[id].err.value.workers <==> 0 <= i < |fulls| && !Succeeds(worlds[i])
  {
    r := start;
    if !hasClient {
      Go(R, holder.jobs, r, ConnectFails, WithFailed(holder.jobs, id, NoClient), r.(main := Ended));
      r := r.(main := Ended);
      holder.SetFailed(id, NoClient);
      return;
    }
    Go(R, holder.jobs, r, Connect, holder.jobs, r.(main := Spawned));
    var errors;
    errors, r := RestoreNamespaces(holder, fulls, worlds, r.(main := Spawned), id, R);
    FailingAre(worlds, |fulls|);
    JoinRun(R, holder.jobs, r);
    r := r.(main := Ended);
    if errors != [] {
      assert errors[0] in errors;
      holder.SetFailed(id, Namespaces(errors));
    } else {
      holder.SetDone(id);
    }
  }

  method RestoreNamespaces(holder: RestoreJobsHolder, fulls: seq<Metadata>, worlds: seq<World>, ghost start: Run, id: Id,
                           ghost R: (Jobs, Run) -> bool) returns (errors: seq<nat>, ghost r: Run)
    requires Closed(R) && R(holder.jobs, start) && id == start.id && Selected(fulls, worlds, start.time) && Through(start, fulls, worlds, 0)
    modifies holder
    ensures R(holder.jobs, r) && r.id == id && Through(r, fulls, worlds, |fulls|) && errors == r.errors
    ensures holder.jobs.Keys == old(holder.jobs).Keys
  {
    errors, r := [], start;
    for i := 0 to |fulls|
      invariant R(holder.jobs, r) && r.id == id && r.time == start.time && Through(r, fulls, worlds, i) && errors == r.errors
      invariant holder.jobs.Keys == old(holder.jobs).Keys
    {
      errors, r := RestoreAndAppend(holder, fulls, worlds, i, errors, r, id, R);
    }
  }

  lemma JoinRun(R: (Jobs, Run) -> bool, jobs: Jobs, r: Run)
    requires Closed(R) && R(jobs, r) && r.main == Spawned && AllFinished(r.workers)
    ensures R(if r.errors == [] then WithDone(jobs, r.id) else WithFailed(jobs, r.id, Namespaces(r.errors)), r.(main := Ended))
  {
    Go(R, jobs, r, Join, if r.errors == [] then WithDone(jobs, r.id) else WithFailed(jobs, r.id, Namespaces(r.errors)), r.(main := Ended));
  }

  datatype RestoreError = BackendNotFound | RestoreFailed(error: BackendError)

  /** An unknown routine or a missing full backup is refused before there is a job. */
  method RestoreByTime(holder: RestoreJobsHolder, found: bool, last: Result<seq<Metadata>, BackendError>, drawn: Id, jobLabel: string, now: Time,
                       time: Time, hasClient: bool, worlds: seq<World>, ghost R: (Jobs, Run) -> bool)
    returns (id: Result<Id, RestoreError>, ghost r: Run)
    requires last.Ok? ==> last.value != [] && Selected(last.value, worlds, time)
    requires found && last.Ok? ==> Closed(R) && R(WithNewJob(holder.jobs, drawn, jobLabel, now), NewRun(drawn, time, false, last.value))
    modifies holder
    ensures id == if !found then Err(BackendNotFound) else if last.Err? then Err(RestoreFailed(last.error)) else Ok(drawn)
    ensures id.Err? ==> holder.jobs == old(holder.jobs)
    ensures id.Ok? ==> R(holder.jobs, r) && r.main == Ended && drawn in holder.jobs
                       && (holder.jobs[drawn].status == Done <==> hasClient && forall i :: 0 <= i < |last.value| ==> Succeeds(worlds[i]))
                       && (holder.jobs[drawn].status == Done || holder.jobs[drawn].status == Failed)
  {
    r := NewRun(drawn, time, false, []);
    if !found {
      return Err(BackendNotFound), r;
    }
    if last.Err? {
      return Err(RestoreFailed(last.error)), r;
    }
    var jobId := holder.NewJob(drawn, jobLabel, now);
    r := NewRun(drawn, time, false, last.value);
    r := RestoreByTimeSync(holder, hasClient, last.value, worlds, r, jobId, R);
    return Ok(jobId), r;
  }

  /** A restore by path: a job of its own, one backup, and one report. */
  method RestoreByPath(holder: RestoreJobsHolder, backup: Metadata, drawn: Id, jobLabel: string, now: Time, hasClient: bool, starts: bool, ends: bool,
                       ghost R: (Jobs, Run) -> bool) returns (id: Id, ghost r: Run)
    requires Closed(R) && R(WithNewJob(holder.jobs, drawn, jobLabel, now), NewRun(drawn, 0, true, [backup]))
    modifies holder
    ensures R(holder.jobs, r) && r.main == Ended && id == drawn && id in holder.jobs
    ensures holder.jobs[id].status == if hasClient && starts && ends then Done else Failed
    ensures !hasClient ==> holder.jobs[id].err == Some(NoClient)
    ensures hasClient && !(starts && ends) ==> holder.jobs[id].err == Some(Namespaces([0]))
  {
    id := holder.NewJob(drawn, jobLabel, now);
    r := NewRun(drawn, 0, true, [backup]);
    assert r.workers == [NewWorker(true, backup)];
    if !hasClient {
      Go(R, holder.jobs, r, ConnectFails, WithFailed(holder.jobs, id, NoClient), r.(main := Ended));
      r := r.(main := Ended);
      holder.SetFailed(id, NoClient);
      return;
    }
    Go(R, holder.jobs, r, Connect, holder.jobs, r.(main := Spawned));
    var ok;
    ghost var w;
    ok, r, w := RestoreFromPath(holder, backup, starts, ends, r.(main := Spawned), id, R);
    if !ok {
      ghost var to := r.(workers := r.workers[0 := w.(phase := Finished(false))], errors := [0]);
      assert [] + [0] == [0];
      Go(R, holder.jobs, r, OnWorker(0, Append), holder.jobs, to);
      r := to;
      JoinRun(R, holder.jobs, r);
      r := r.(main := Ended);
      holder.SetFailed(id, Namespaces([0]));
      return;
    }
    JoinRun(R, holder.jobs, r);
    r := r.(main := Ended);
    holder.SetDone(id);
  }
}
