/** What a restore job that is done has restored: the accounting of jobs and the content of backups
    brought together. */
module RestoredJobs {
  import opened Wrappers
  import opened History
  import opened Backend
  import opened JobsHolder
  import opened RestoreWorkers
  import RestoreRuns
  import RestoreProperties
  import opened Routine
  import opened Restore
  import opened FullBackups

  /** The run restores this group of full backups to `t`, one worker each. */
  ghost predicate OfGroup(r: RestoreRuns.Run, t: Time, group: seq<Metadata>) {
    && r.time == t && |r.workers| == |group|
    && forall i :: 0 <= i < |group| ==> r.workers[i].full == group[i] && !r.workers[i].byPath
  }

  lemma NewRunIsOfGroup(id: Id, t: Time, group: seq<Metadata>)
    ensures OfGroup(RestoreRuns.NewRun(id, t, false, group), t, group)
  {
  }

  /** Every step of a run stays with its group. */
  lemma StepIsOfGroup(jobs: Jobs, r: RestoreRuns.Run, step: RestoreRuns.RunStep, js: Jobs, to: RestoreRuns.Run, t: Time, group: seq<Metadata>)
    requires OfGroup(r, t, group) && RestoreRuns.RunNext(jobs, r, step) == Some((js, to))
    ensures OfGroup(to, t, group)
  {
    if step.OnWorker? {
      var w := r.workers[step.worker];
      assert Next(w, r.time, step.step).value.full == w.full && Next(w, r.time, step.step).value.byPath == w.byPath;
    }
  }

  /** A worker of a job that is done has selected its plan, begun it in order and completed it. */
  lemma DoneWorker(job: Job, r: RestoreRuns.Run, i: nat)
    requires RestoreRuns.RunInv(job, r) && job.status == Done && i < |r.workers| && !r.workers[i].byPath
    ensures var w := r.workers[i];
            && |w.plan| >= 1 && w.plan[0] == w.full && w.completed == |w.plan| && RestoreRuns.BegunBy(r.log, i) == w.plan
            && IsSelection(w.full, r.time, w.listed, w.plan[1..])
  {
    var w := r.workers[i];
    assert WorkerInv(w, r.time);
    assert RestoreRuns.StatusInv(job, r) && i !in r.errors && w.phase.Finished?;
    assert w.phase.ok && |w.fetched| == |w.plan| && w.selected;
    assert w.plan[..|w.fetched|] == w.plan;
  }

  /** Each worker of a job that is done has begun, in order, exactly the plan that the last full
      backup and the listed incrementals determine, and has completed it. */
  lemma DoneWorkerHasPlan(job: Job, r: RestoreRuns.Run, s: State, t: Time, fullMeta: seq<Metadata>, group: seq<Metadata>, i: nat)
    requires RestoreRuns.RunInv(job, r) && job.status == Done && OfGroup(r, t, group) && i < |group|
    requires Lists(fullMeta, s.fulls.Keys) && IsLastFull(fullMeta, t, Ok(group)) && Lists(r.workers[i].listed, s.incrs.Keys)
    ensures var w := r.workers[i];
            && |w.plan| >= 1 && w.completed == |w.plan| && RestoreRuns.BegunBy(r.log, i) == w.plan
            && w.plan[0] == w.full && TakesUp(group, w.full.ns)
            && RestorePlan(s, w.full.ns, t, w.full.created, w.plan[1..], fullMeta, w.listed, group)
  {
    DoneWorker(job, r, i);
    assert group[i] in group && group[i].created == group[0].created;
  }

  /** A restore that is done, after a clean run that broke off no full backup, has a worker for every
      namespace of the routine, and what that worker has restored rebuilds every record that was not
      written between the last replayed backup's stamp K and the end of the replayed scans as it was
      at K. */
  lemma DoneJobRebuilds(c: Settings, steps: seq<Step>, s: State, job: Job, r: RestoreRuns.Run, t: Time,
                        fullMeta: seq<Metadata>, group: seq<Metadata>, ns: string, m: nat, key: string) returns (i: nat)
    requires ReachesThoroughly(c, steps, s) && ns in c.namespaces
    requires RestoreRuns.RunInv(job, r) && job.status == Done && OfGroup(r, t, group)
    requires Lists(fullMeta, s.fulls.Keys) && IsLastFull(fullMeta, t, Ok(group)) && Undisturbed(c, s, group[0].created)
    requires forall j :: 0 <= j < |group| ==> Lists(r.workers[j].listed, s.incrs.Keys)
    ensures i < |r.workers| && r.workers[i].full.ns == ns && RestoreRuns.BegunBy(r.log, i) == r.workers[i].plan && |r.workers[i].plan| >= 1
    ensures var full, list := r.workers[i].full.created, r.workers[i].plan[1..];
            && (full, ns) in s.fulls && InStore(list, s.incrs)
            && (ScansEndBy(s, ns, full, LastReplayed(full, list), m) && Quiet(s.hist, m, LastReplayed(full, list), ns, key) ==>
                  Rebuilds(s, ReplayList(s.fulls[(full, ns)].data, s.incrs, list), LastReplayed(full, list), ns, key))
  {
    ReachableThoroughly(c, steps, s);
    PlanBase(s, t, group[0].created, fullMeta, group);
    UndisturbedIsWhole(c, s, group[0].created);
    assert TakesUp(group, ns);
    i :| 0 <= i < |group| && group[i].ns == ns;
    DoneWorkerHasPlan(job, r, s, t, fullMeta, group, i);
    var w := r.workers[i];
    RestoreEveryNamespace(c, steps, s, ns, t, w.full.created, w.plan[1..], fullMeta, w.listed, group, m, key);
  }

  // ----- for the jobs of the service -----

  /** One step of the service leaves run `i` with its id and its group. */
  lemma ServiceStepKeepsGroup(a: RestoreRuns.Service, step: RestoreRuns.Step, b: RestoreRuns.Service, i: nat, t: Time, group: seq<Metadata>)
    requires RestoreRuns.ServiceNext(a, step) == Some(b) && i < |a.runs| && OfGroup(a.runs[i], t, group)
    ensures i < |b.runs| && b.runs[i].id == a.runs[i].id && OfGroup(b.runs[i], t, group)
  {
    if step.OnRun? && step.run == i {
      StepIsOfGroup(a.jobs, a.runs[i], step.step, b.jobs, b.runs[i], t, group);
    }
  }

  /** The run that a restore by time began keeps its place, its id and its group. */
  lemma {:induction false} GroupOfTrace(states: seq<RestoreRuns.Service>, service: seq<RestoreRuns.Step>, k: nat, n: nat)
    requires RestoreProperties.Trace(states, service) && k < n <= |service| && service[k].RestoreByTime?
    ensures var i := |states[k].runs|;
            i < |states[n].runs| && states[n].runs[i].id == service[k].id && OfGroup(states[n].runs[i], service[k].time, service[k].fulls)
  {
    var i := |states[k].runs|;
    if n == k + 1 {
      NewRunIsOfGroup(service[k].id, service[k].time, service[k].fulls);
    } else {
      GroupOfTrace(states, service, k, n - 1);
      ServiceStepKeepsGroup(states[n - 1], service[n - 1], states[n], i, service[k].time, service[k].fulls);
    }
  }

  /** The listings from which the workers of a run selected their incrementals are those of `s`. */
  ghost predicate ListedFrom(r: RestoreRuns.Run, s: State) {
    forall j :: 0 <= j < |r.workers| ==> Lists(r.workers[j].listed, s.incrs.Keys)
  }

  /** The service restores a routine whose storage was left by a clean run that broke off no full
      backup: step `k` of the service begins the restore with the last full backup up to its time, its
      workers list the incrementals of that storage, and by step `n` the job is done. Then every
      namespace of the routine has a worker that has restored, in order, backups which rebuild every
      record that was not written between the last replayed backup's stamp K and the end of the
      replayed scans as it was at K. */
  lemma DoneJobOfTraceRebuilds(states: seq<RestoreRuns.Service>, service: seq<RestoreRuns.Step>, k: nat, n: nat,
                               c: Settings, steps: seq<Step>, s: State, fullMeta: seq<Metadata>, ns: string, m: nat, key: string)
    returns (r: RestoreRuns.Run, j: nat)
    requires RestoreProperties.Trace(states, service) && k < n <= |service| && service[k].RestoreByTime?
    requires ReachesThoroughly(c, steps, s) && ns in c.namespaces && Lists(fullMeta, s.fulls.Keys)
    requires IsLastFull(fullMeta, service[k].time, Ok(service[k].fulls)) && Undisturbed(c, s, service[k].fulls[0].created)
    requires |states[k].runs| < |states[n].runs| && ListedFrom(states[n].runs[|states[k].runs|], s)
    requires service[k].id in states[n].jobs && states[n].jobs[service[k].id].status == Done
    ensures r in states[n].runs && r.id == service[k].id && j < |r.workers| && r.workers[j].full.ns == ns
    ensures |r.workers[j].plan| >= 1 && RestoreRuns.BegunBy(r.log, j) == r.workers[j].plan
    ensures var full, list := r.workers[j].full.created, r.workers[j].plan[1..];
            && (full, ns) in s.fulls && InStore(list, s.incrs)
            && (ScansEndBy(s, ns, full, LastReplayed(full, list), m) && Quiet(s.hist, m, LastReplayed(full, list), ns, key) ==>
                  Rebuilds(s, ReplayList(s.fulls[(full, ns)].data, s.incrs, list), LastReplayed(full, list), ns, key))
  {
    GroupOfTrace(states, service, k, n);
    RestoreProperties.TraceInv(states, service, n);
    var i := |states[k].runs|;
    r := states[n].runs[i];
    assert r.id in states[n].jobs && RestoreRuns.RunInv(states[n].jobs[r.id], r);
    j := DoneJobRebuilds(c, steps, s, states[n].jobs[r.id], r, service[k].time, fullMeta, service[k].fulls, ns, m, key);
  }
}
