/** What holds of every restore job in every interleaving. */
module RestoreProperties {
  import opened Wrappers
  import opened History
  import opened TimeBounds
  import opened Backend
  import opened JobsHolder
  import opened RestoreWorkers
  import opened RestoreRuns

  // ----- every step keeps the invariant -----

  lemma MainInv(jobs: Jobs, r: Run, step: RunStep, js: Jobs, to: Run)
    requires !step.OnWorker? && r.id in jobs && RunInv(jobs[r.id], r) && RunNext(jobs, r, step) == Some((js, to))
    ensures r.id in js && RunInv(js[r.id], to)
  {
    assert to.workers == r.workers && to.log == r.log && to.errors == r.errors && to.time == r.time;
    assert js[r.id].handlers == jobs[r.id].handlers && js[r.id].totalRecords == jobs[r.id].totalRecords;
    assert WorkersInv(to) && LogInv(to) && ErrorsInv(to);
    assert StatusInv(js[r.id], to);
  }

  lemma RunStepInv(jobs: Jobs, r: Run, step: RunStep, js: Jobs, to: Run)
    requires r.id in jobs && RunInv(jobs[r.id], r) && RunNext(jobs, r, step) == Some((js, to))
    ensures to.id == r.id && r.id in js && RunInv(js[r.id], to)
  {
    if step.OnWorker? {
      OnWorkerInv(jobs, r, step.worker, step.step, js, to);
    } else {
      MainInv(jobs, r, step, js, to);
    }
  }

  /** A step of a run changes the record of its own job only. */
  lemma OnlyItsJob(jobs: Jobs, r: Run, step: RunStep, js: Jobs, to: Run)
    requires RunNext(jobs, r, step) == Some((js, to))
    ensures js.Keys == jobs.Keys && forall id :: id in jobs && id != r.id ==> js[id] == jobs[id]
  {
  }

  lemma NewRunInv(id: Id, time: Time, byPath: bool, fulls: seq<Metadata>, job: Job)
    requires fulls != [] && job.handlers == [] && job.status == Running && job.err == None && job.totalRecords == 0
    ensures RunInv(job, NewRun(id, time, byPath, fulls))
  {
    var r := NewRun(id, time, byPath, fulls);
    NothingCounted(r.workers);
    assert forall i :: 0 <= i < |r.workers| ==> r.workers[i] == NewWorker(byPath, fulls[i]);
    assert WorkersInv(r);
  }

  lemma {:induction false} NothingCounted(ws: seq<Worker>)
    requires forall i :: 0 <= i < |ws| ==> ws[i].counted == 0
    ensures Counted(ws) == 0
  {
    if ws != [] {
      NothingCounted(ws[..|ws| - 1]);
      assert CountedBy(ws[|ws| - 1]) == 0;
    }
  }

  // ----- whole runs of the service -----

  /** Runs have different jobs, and each keeps its invariant. */
  ghost predicate Inv(s: Service) {
    && (forall i, j :: 0 <= i < j < |s.runs| ==> s.runs[i].id != s.runs[j].id)
    && (forall i :: 0 <= i < |s.runs| ==> s.runs[i].id in s.jobs)
    && forall i :: 0 <= i < |s.runs| ==> RunInv(s.jobs[s.runs[i].id], s.runs[i])
  }

  /** A drawn id is not in use. */
  predicate Fresh(s: Service, step: Step) {
    step.OnRun? || step.id !in s.jobs
  }

  lemma BeginInv(s: Service, id: Id, jobLabel: string, now: Time, time: Time, byPath: bool, fulls: seq<Metadata>)
    requires Inv(s) && id !in s.jobs && fulls != []
    ensures Inv(Service(WithNewJob(s.jobs, id, jobLabel, now), s.runs + [NewRun(id, time, byPath, fulls)]))
  {
    NewRunInv(id, time, byPath, fulls, WithNewJob(s.jobs, id, jobLabel, now)[id]);
  }

  lemma OnRunInv(s: Service, i: nat, step: RunStep, js: Jobs, to: Run)
    requires Inv(s) && i < |s.runs| && RunNext(s.jobs, s.runs[i], step) == Some((js, to))
    ensures Inv(Service(js, s.runs[i := to]))
  {
    RunStepInv(s.jobs, s.runs[i], step, js, to);
    OnlyItsJob(s.jobs, s.runs[i], step, js, to);
  }

  lemma ServiceInv(s: Service, step: Step, to: Service)
    requires Inv(s) && Fresh(s, step) && ServiceNext(s, step) == Some(to)
    ensures Inv(to)
  {
    match step
    case RestoreByTime(id, jobLabel, now, time, fulls) => BeginInv(s, id, jobLabel, now, time, false, fulls);
    case RestoreByPath(id, jobLabel, now, backup) => BeginInv(s, id, jobLabel, now, 0, true, [backup]);
    case OnRun(i, rs) =>
      var next := RunNext(s.jobs, s.runs[i], rs).value;
      OnRunInv(s, i, rs, next.0, next.1);
  }

  /** A run of the service: every step can be taken and draws a fresh id. */
  ghost predicate Trace(states: seq<Service>, steps: seq<Step>) {
    && |states| == |steps| + 1 && states[0] == Service(map[], [])
    && forall k :: 0 <= k < |steps| ==> Fresh(states[k], steps[k]) && ServiceNext(states[k], steps[k]) == Some(states[k + 1])
  }

  /** Traces begin with no jobs, and go on with every step that can be taken; a restore draws an id
      that no job has. */
  lemma LongerTrace(states: seq<Service>, steps: seq<Step>, step: Step, to: Service)
    ensures Trace([Service(map[], [])], [])
    ensures Trace(states, steps) && (step.OnRun? || step.id !in states[|steps|].jobs) && ServiceNext(states[|steps|], step) == Some(to) ==>
              Trace(states + [to], steps + [step])
  {
    var more, all := states + [to], steps + [step];
    if Trace(states, steps) && (step.OnRun? || step.id !in states[|steps|].jobs) && ServiceNext(states[|steps|], step) == Some(to) {
      forall k | 0 <= k < |all|
        ensures Fresh(more[k], all[k]) && ServiceNext(more[k], all[k]) == Some(more[k + 1])
      {
      }
    }
  }

  /** A restore by time begins with the full backups that were found: a running job, and one worker for
      each of them that has nothing yet but the full backup. */
  lemma RestoreBegins(s: Service, id: Id, jobLabel: string, now: Time, time: Time, fulls: seq<Metadata>)
    ensures ServiceNext(s, Step.RestoreByTime(id, jobLabel, now, time, fulls)).Some? <==> fulls != []
    ensures fulls != [] ==>
              var to := ServiceNext(s, Step.RestoreByTime(id, jobLabel, now, time, fulls)).value;
              && to.jobs == s.jobs[id := Job([], Running, None, 0, now, jobLabel)]
              && |to.runs| == |s.runs| + 1 && to.runs[..|s.runs|] == s.runs && to.runs[|s.runs|].id == id
              && to.runs[|s.runs|].time == time && |to.runs[|s.runs|].workers| == |fulls|
              && forall i :: 0 <= i < |fulls| ==> to.runs[|s.runs|].workers[i].full == fulls[i] && to.runs[|s.runs|].workers[i].plan == [fulls[i]]
  {
  }

  lemma {:induction false} TraceInv(states: seq<Service>, steps: seq<Step>, n: nat)
    requires Trace(states, steps) && n <= |steps|
    ensures Inv(states[n])
  {
    if n > 0 {
      TraceInv(states, steps, n - 1);
      ServiceInv(states[n - 1], steps[n - 1], states[n]);
    }
  }

  // ----- the outcome of a job -----

  /** The full backup and all selected incrementals of the worker were restored. */
  predicate Restored(w: Worker) {
    (w.byPath || w.selected) && w.completed == |w.plan|
  }

  predicate AllRestored(r: Run) {
    forall i :: 0 <= i < |r.workers| ==> Restored(r.workers[i])
  }

  lemma FinishedWorker(w: Worker, t: Time)
    requires WorkerInv(w, t) && w.phase.Finished?
    ensures w.phase.ok <==> Restored(w)
  {
  }

  /** A job is running until its run ends; then it is done exactly when every backup of every
      namespace was restored, and otherwise the error names exactly the namespaces that failed. */
  lemma Outcome(job: Job, r: Run)
    requires RunInv(job, r)
    ensures job.status == Running <==> r.main != Ended
    ensures r.main == Ended ==> (job.status == Done <==> AllRestored(r)) && (job.err == None <==> job.status == Done)
    ensures job.err.Some? && job.err.value.Namespaces? ==>
              forall i :: 0 <= i < |r.workers| ==> (i in job.err.value.workers <==> !Restored(r.workers[i]))
  {
    forall i | 0 <= i < |r.workers| && r.workers[i].phase.Finished?
      ensures r.workers[i].phase.ok <==> Restored(r.workers[i])
    {
      assert WorkerInv(r.workers[i], r.time);
      FinishedWorker(r.workers[i], r.time);
    }
    if job.status == Failed {
      if job.err == Some(NoClient) {
        assert WorkerInv(r.workers[0], r.time);
        assert !Restored(r.workers[0]);
      } else {
        var i := r.errors[0];
        assert i in r.errors;
        assert !Restored(r.workers[i]);
      }
    }
  }

  /** What no step takes back. */
  predicate Settled(jobs: Jobs, id: Id, status: Status, err: Option<Failure>) {
    id in jobs && jobs[id].status == status && jobs[id].err == err
  }

  lemma FinalStep(s: Service, step: Step, to: Service, id: Id, status: Status, err: Option<Failure>)
    requires Inv(s) && Fresh(s, step) && ServiceNext(s, step) == Some(to)
    requires status != Running && Settled(s.jobs, id, status, err)
    ensures Settled(to.jobs, id, status, err)
  {
    if step.OnRun? {
      var r := s.runs[step.run];
      assert RunInv(s.jobs[r.id], r);
      OnlyItsJob(s.jobs, r, step.step, to.jobs, to.runs[step.run]);
      assert StatusInv(s.jobs[r.id], r);
    }
  }

  /** A job gets one final status and keeps it for the rest of the run. */
  lemma {:induction false} StatusIsFinal(states: seq<Service>, steps: seq<Step>, m: nat, n: nat, id: Id)
    requires Trace(states, steps) && m <= n <= |steps|
    requires id in states[m].jobs && states[m].jobs[id].status != Running
    ensures id in states[n].jobs && states[n].jobs[id].status == states[m].jobs[id].status && states[n].jobs[id].err == states[m].jobs[id].err
  {
    if m < n {
      StatusIsFinal(states, steps, m, n - 1, id);
      TraceInv(states, steps, n - 1);
      FinalStep(states[n - 1], steps[n - 1], states[n], id, states[m].jobs[id].status, states[m].jobs[id].err);
    }
  }

  // ----- order -----

  /** The backups begun for a namespace are a prefix of its full backup followed by exactly the
      stored incrementals between that backup and the time of the restore, oldest first. */
  lemma BegunInOrder(job: Job, r: Run, i: nat)
    requires RunInv(job, r) && i < |r.workers|
    ensures BegunBy(r.log, i) <= r.workers[i].plan && r.workers[i].plan[0] == r.workers[i].full
    ensures r.workers[i].selected ==>
              var incrs := r.workers[i].plan[1..];
              && SortedByCreated(incrs)
              && forall m :: m in incrs <==>
                   m in r.workers[i].listed && m.ns == r.workers[i].full.ns && r.workers[i].full.created <= m.created <= r.time
  {
    var w := r.workers[i];
    assert WorkerInv(w, r.time);
    if w.selected {
      IncrementalSelectionIsExact(w.listed, w.full.created, r.time, w.full.ns, w.plan[1..]);
    }
  }

  // ----- progress -----

  /** What the handler of a backup has read. */
  function FetchedBy(ws: seq<Worker>, h: Handler): nat {
    if h.worker < |ws| && h.index < |ws[h.worker].fetched| then ws[h.worker].fetched[h.index] else 0
  }

  function Fetched(ws: seq<Worker>): Handler -> nat {
    h => FetchedBy(ws, h)
  }

  /** No handler reads more than the records of its backup. */
  predicate WithinRecords(w: Worker) {
    |w.fetched| <= |w.plan| && forall k :: 0 <= k < |w.fetched| ==> w.fetched[k] <= w.plan[k].records
  }

  /** The reads of worker `i` at the given backups. */
  function ReadsAt(ws: seq<Worker>, i: nat, indices: seq<nat>): nat {
    if indices == [] then 0 else ReadsAt(ws, i, indices[..|indices| - 1]) + FetchedBy(ws, Handler(i, indices[|indices| - 1]))
  }

  /** The reads of the first `n` workers through the handlers. */
  function ReadsBy(ws: seq<Worker>, hs: seq<Handler>, n: nat): nat {
    if n == 0 then 0 else ReadsBy(ws, hs, n - 1) + ReadsAt(ws, n - 1, Indices(hs, n - 1))
  }

  lemma ReadsAtNext(ws: seq<Worker>, i: nat, ks: seq<nat>, k: nat)
    ensures ReadsAt(ws, i, ks + [k]) == ReadsAt(ws, i, ks) + FetchedBy(ws, Handler(i, k))
  {
    assert (ks + [k])[..|ks|] == ks;
  }

  lemma {:induction false} ReadsByNext(ws: seq<Worker>, hs: seq<Handler>, h: Handler, n: nat)
    ensures ReadsBy(ws, hs + [h], n) == ReadsBy(ws, hs, n) + if h.worker < n then FetchedBy(ws, h) else 0
  {
    if n > 0 {
      ReadsByNext(ws, hs, h, n - 1);
      var ks := Indices(hs, n - 1);
      IndicesNext(hs, h, n - 1);
      ReadsAtNext(ws, n - 1, ks, h.index);
      assert Indices(hs + [h], n - 1) == if h.worker == n - 1 then ks + [h.index] else ks;
      assert h.worker == n - 1 ==> Handler(n - 1, h.index) == h;
    }
  }

  lemma {:induction false} NoReads(ws: seq<Worker>, n: nat)
    ensures ReadsBy(ws, [], n) == 0
  {
    if n > 0 {
      NoReads(ws, n - 1);
    }
  }

  /** The sum over the handlers, in the order they came in, is the sum over the workers. */
  lemma {:induction false} ReadsByWorker(ws: seq<Worker>, hs: seq<Handler>)
    requires forall k :: 0 <= k < |hs| ==> hs[k].worker < |ws|
    ensures SumReads(hs, Fetched(ws)) == ReadsBy(ws, hs, |ws|)
  {
    if hs == [] {
      NoReads(ws, |ws|);
    } else {
      var front, h := hs[..|hs| - 1], hs[|hs| - 1];
      assert front + [h] == hs;
      ReadsByWorker(ws, front);
      ReadsByNext(ws, front, h, |ws|);
      SumOneMore(front, h, Fetched(ws));
    }
  }

  lemma {:induction false} ReadsUpTo(ws: seq<Worker>, i: nat, n: nat)
    requires i < |ws| && WithinRecords(ws[i]) && n <= |ws[i].plan|
    ensures ReadsAt(ws, i, UpTo(n)) <= SumRecords(ws[i].plan[..n])
  {
    if n > 0 {
      ReadsUpTo(ws, i, n - 1);
      assert UpTo(n)[..n - 1] == UpTo(n - 1);
      assert ws[i].plan[..n][..n - 1] == ws[i].plan[..n - 1];
    }
  }

  /** Backups are counted before they are registered. */
  predicate CountedFirst(w: Worker) {
    w.registered <= |w.plan| && (w.registered > 0 ==> w.counted == |w.plan|)
  }

  lemma {:induction false} WorkerReads(ws: seq<Worker>, i: nat)
    requires i < |ws| && WithinRecords(ws[i]) && CountedFirst(ws[i])
    ensures ReadsAt(ws, i, UpTo(ws[i].registered)) <= CountedBy(ws[i])
  {
    var w := ws[i];
    if w.registered > 0 {
      ReadsUpTo(ws, i, w.registered);
      PrefixSum(w.plan, w.registered);
      assert w.plan[..w.counted] == w.plan;
    }
  }

  lemma CountedNext(ws: seq<Worker>, n: nat)
    requires 0 < n <= |ws|
    ensures Counted(ws[..n]) == Counted(ws[..n - 1]) + CountedBy(ws[n - 1])
  {
    assert ws[..n][..n - 1] == ws[..n - 1];
  }

  lemma {:induction false} ReadsAtMostCounted(ws: seq<Worker>, hs: seq<Handler>, n: nat)
    requires n <= |ws| && HandlersInv(hs, ws)
    requires forall i :: 0 <= i < |ws| ==> WithinRecords(ws[i]) && CountedFirst(ws[i])
    ensures ReadsBy(ws, hs, n) <= Counted(ws[..n])
  {
    if n > 0 {
      ReadsAtMostCounted(ws, hs, n - 1);
      CountedNext(ws, n);
      assert ReadsAt(ws, n - 1, Indices(hs, n - 1)) <= CountedBy(ws[n - 1]) by {
        assert WithinRecords(ws[n - 1]) && Indices(hs, n - 1) == UpTo(ws[n - 1].registered);
        WorkerReads(ws, n - 1);
      }
    }
  }

  lemma {:induction false} PrefixSum(ms: seq<Metadata>, n: nat)
    requires n <= |ms|
    ensures SumRecords(ms[..n]) <= SumRecords(ms)
  {
    if n == |ms| {
      assert ms[..n] == ms;
    } else {
      PrefixSum(ms[..|ms| - 1], n);
      assert ms[..|ms| - 1][..n] == ms[..n];
    }
  }

  /** In every reachable state the handlers of a job have read at most its total, so the percentage
      it reports stays within 0..100. */
  lemma ProgressWithinTotal(job: Job, r: Run, now: Time)
    requires RunInv(job, r) && job.startTime <= now && forall i :: 0 <= i < |r.workers| ==> WithinRecords(r.workers[i])
    ensures SumReads(job.handlers, Fetched(r.workers)) <= job.totalRecords
    ensures var p := NewRunningJob(job.startTime, now, SumReads(job.handlers, Fetched(r.workers)), job.totalRecords);
            p.Some? ==> 0 <= p.value.percentageDone <= 100
  {
    var ws, hs := r.workers, job.handlers;
    forall i | 0 <= i < |ws|
      ensures CountedFirst(ws[i])
    {
      assert WorkerInv(ws[i], r.time);
    }
    ReadsWithinTotal(ws, hs);
    if job.totalRecords > 0 {
      ProgressIsBounded(job.startTime, now, SumReads(hs, Fetched(ws)), job.totalRecords);
    }
  }

  lemma {:induction false} HandlerIsListed(hs: seq<Handler>, k: nat)
    requires k < |hs|
    ensures hs[k].index in Indices(hs, hs[k].worker)
  {
    if k < |hs| - 1 {
      HandlerIsListed(hs[..|hs| - 1], k);
    }
  }

  /** Every handler of a job is that of a backup which has been started. */
  lemma HandlerHasBackup(job: Job, r: Run, k: nat)
    requires RunInv(job, r) && k < |job.handlers|
    ensures var h := job.handlers[k]; h.worker < |r.workers| && h.index < r.workers[h.worker].registered <= |r.workers[h.worker].fetched|
  {
    var h := job.handlers[k];
    HandlerIsListed(job.handlers, k);
    assert h.index in UpTo(r.workers[h.worker].registered);
    assert WorkerInv(r.workers[h.worker], r.time);
  }

  lemma {:induction false} ReadsAtAfter(ws: seq<Worker>, to: seq<Worker>, i: nat, index: nat, more: nat, n: nat)
    requires |to| == |ws| && i < |ws| && n <= |ws[i].fetched| && index < |ws[i].fetched|
    requires to[i].fetched == ws[i].fetched[index := ws[i].fetched[index] + more]
    ensures ReadsAt(to, i, UpTo(n)) == ReadsAt(ws, i, UpTo(n)) + if index < n then more else 0
  {
    if n > 0 {
      ReadsAtAfter(ws, to, i, index, more, n - 1);
      assert UpTo(n)[..n - 1] == UpTo(n - 1);
    }
  }

  lemma {:induction false} ReadsAtOther(ws: seq<Worker>, to: seq<Worker>, j: nat, ks: seq<nat>)
    requires |to| == |ws| && j < |ws| && to[j] == ws[j]
    ensures ReadsAt(to, j, ks) == ReadsAt(ws, j, ks)
  {
    if ks != [] {
      ReadsAtOther(ws, to, j, ks[..|ks| - 1]);
    }
  }

  /** Worker `i` has read more from the backup at `index`, the others have not. */
  ghost predicate HasRead(ws: seq<Worker>, to: seq<Worker>, i: nat, index: nat, more: nat) {
    && |to| == |ws| && i < |ws| && (forall j :: 0 <= j < |ws| && j != i ==> to[j] == ws[j])
    && index < |ws[i].fetched| && to[i].fetched == ws[i].fetched[index := ws[i].fetched[index] + more]
  }

  lemma WorkerAfter(ws: seq<Worker>, to: seq<Worker>, hs: seq<Handler>, i: nat, index: nat, more: nat, j: nat)
    requires HasRead(ws, to, i, index, more) && j < |ws|
    requires Indices(hs, i) == UpTo(ws[i].registered) && index < ws[i].registered <= |ws[i].fetched|
    ensures ReadsAt(to, j, Indices(hs, j)) == ReadsAt(ws, j, Indices(hs, j)) + if j == i then more else 0
  {
    if j == i {
      ReadsAtAfter(ws, to, i, index, more, ws[i].registered);
    } else {
      ReadsAtOther(ws, to, j, Indices(hs, j));
    }
  }

  lemma {:induction false} ReadsByAfter(ws: seq<Worker>, to: seq<Worker>, hs: seq<Handler>, i: nat, more: nat, n: nat)
    requires forall j :: 0 <= j < n ==> ReadsAt(to, j, Indices(hs, j)) == ReadsAt(ws, j, Indices(hs, j)) + if j == i then more else 0
    ensures ReadsBy(to, hs, n) == ReadsBy(ws, hs, n) + if i < n then more else 0
  {
    if n > 0 {
      ReadsByAfter(ws, to, hs, i, more, n - 1);
    }
  }

  lemma ReadsAfter(ws: seq<Worker>, to: seq<Worker>, hs: seq<Handler>, i: nat, index: nat, more: nat)
    requires HandlersInv(hs, ws) && HasRead(ws, to, i, index, more) && index < ws[i].registered <= |ws[i].fetched|
    ensures SumReads(hs, Fetched(to)) == SumReads(hs, Fetched(ws)) + more
  {
    ReadsByWorker(ws, hs);
    ReadsByWorker(to, hs);
    forall j | 0 <= j < |ws|
      ensures ReadsAt(to, j, Indices(hs, j)) == ReadsAt(ws, j, Indices(hs, j)) + if j == i then more else 0
    {
      WorkerAfter(ws, to, hs, i, index, more, j);
    }
    ReadsByAfter(ws, to, hs, i, more, |ws|);
  }

  /** What is read from a backup that has been handed to the holder is added to what the job reports
      as read, once. */
  lemma {:induction false} ProgressIsReported(jobs: Jobs, r: Run, i: nat, index: nat, more: nat, js: Jobs, to: Run)
    requires RunNext(jobs, r, OnWorker(i, Progress(index, more))) == Some((js, to)) && r.id in jobs && RunInv(jobs[r.id], r)
    requires index < r.workers[i].registered
    ensures js == jobs && SumReads(js[r.id].handlers, Fetched(to.workers)) == SumReads(jobs[r.id].handlers, Fetched(r.workers)) + more
  {
    ReadsMore(jobs, r, i, index, more, js, to);
    RegisteredAreStarted(jobs[r.id], r, i);
    ReadsAfter(r.workers, to.workers, jobs[r.id].handlers, i, index, more);
  }

  lemma ReadsMore(jobs: Jobs, r: Run, i: nat, index: nat, more: nat, js: Jobs, to: Run)
    requires RunNext(jobs, r, OnWorker(i, Progress(index, more))) == Some((js, to))
    ensures js == jobs && to.id == r.id && HasRead(r.workers, to.workers, i, index, more)
  {
    var w := r.workers[i];
    assert Next(w, r.time, Progress(index, more)).value.fetched == w.fetched[index := w.fetched[index] + more];
  }

  lemma RegisteredAreStarted(job: Job, r: Run, i: nat)
    requires RunInv(job, r) && i < |r.workers|
    ensures HandlersInv(job.handlers, r.workers) && r.workers[i].registered <= |r.workers[i].fetched|
  {
    assert WorkerInv(r.workers[i], r.time);
  }

  lemma ReadsWithinTotal(ws: seq<Worker>, hs: seq<Handler>)
    requires HandlersInv(hs, ws) && forall i :: 0 <= i < |ws| ==> WithinRecords(ws[i]) && CountedFirst(ws[i])
    ensures SumReads(hs, Fetched(ws)) <= Counted(ws)
  {
    ReadsByWorker(ws, hs);
    ReadsAtMostCounted(ws, hs, |ws|);
    assert ws[..|ws|] == ws;
  }

  /** All records of all selected backups. */
  function AllRecords(ws: seq<Worker>): nat {
    if ws == [] then 0 else AllRecords(ws[..|ws| - 1]) + SumRecords(ws[|ws| - 1].plan)
  }

  lemma {:induction false} AllCounted(ws: seq<Worker>)
    requires forall i :: 0 <= i < |ws| ==> ws[i].counted == |ws[i].plan|
    ensures Counted(ws) == AllRecords(ws)
  {
    if ws != [] {
      var w := ws[|ws| - 1];
      AllCounted(ws[..|ws| - 1]);
      assert w.plan[..w.counted] == w.plan;
    }
  }

  /** The total of a job that is done is the sum over all selected backups. */
  lemma TotalOfDone(job: Job, r: Run)
    requires RunInv(job, r) && job.status == Done
    ensures job.totalRecords == AllRecords(r.workers)
  {
    forall i | 0 <= i < |r.workers|
      ensures r.workers[i].counted == |r.workers[i].plan|
    {
      assert WorkerInv(r.workers[i], r.time);
      assert i !in r.errors;
    }
    AllCounted(r.workers);
  }

  /** In every state of every run of the service, for every job: it is running until its run ends, it
      ends done exactly when everything selected was restored, its handlers never read more than its
      total, and that total is complete when the job is done. */
  lemma JobsOfTrace(states: seq<Service>, steps: seq<Step>, n: nat, i: nat)
    requires Trace(states, steps) && n <= |steps| && i < |states[n].runs|
    ensures var s := states[n]; var r := s.runs[i];
            && r.id in s.jobs
            && (s.jobs[r.id].status == Running <==> r.main != Ended)
            && (r.main == Ended ==> (s.jobs[r.id].status == Done <==> AllRestored(r)))
            && ((forall k :: 0 <= k < |r.workers| ==> WithinRecords(r.workers[k])) ==>
                  SumReads(s.jobs[r.id].handlers, Fetched(r.workers)) <= s.jobs[r.id].totalRecords)
            && (s.jobs[r.id].status == Done ==> s.jobs[r.id].totalRecords == AllRecords(r.workers))
  {
    TraceInv(states, steps, n);
    var r := states[n].runs[i];
    var job := states[n].jobs[r.id];
    assert RunInv(job, r);
    Outcome(job, r);
    if forall k :: 0 <= k < |r.workers| ==> WithinRecords(r.workers[k]) {
      ProgressWithinTotal(job, r, job.startTime);
    }
    if job.status == Done {
      TotalOfDone(job, r);
    }
  }
}
