/** All restore jobs of the service at once: each job is a run with its workers, and every run
    reports to the same jobs holder. */
module RestoreRuns {
  import opened Wrappers
  import opened History
  import opened Backend
  import opened JobsHolder
  import opened RestoreWorkers

  datatype Main = Connecting | Spawned | Ended

  /** A restore of some worker that was begun, in the order of beginning. */
  datatype Begun = Begun(worker: nat, backup: Metadata)

  datatype Run = Run(id: Id, time: Time, main: Main, workers: seq<Worker>, errors: seq<nat>, log: seq<Begun>)

  datatype Service = Service(jobs: Jobs, runs: seq<Run>)

  datatype RunStep =
    | Connect
    | ConnectFails
    | OnWorker(worker: nat, step: WorkerStep)
    | Join

  datatype Step =
    | RestoreByTime(id: Id, jobLabel: string, now: Time, time: Time, fulls: seq<Metadata>)
    | RestoreByPath(id: Id, jobLabel: string, now: Time, backup: Metadata)
    | OnRun(run: nat, step: RunStep)

  function NewRun(id: Id, time: Time, byPath: bool, fulls: seq<Metadata>): Run {
    Run(id, time, Connecting, seq(|fulls|, i requires 0 <= i < |fulls| => NewWorker(byPath, fulls[i])), [], [])
  }

  // ----- one step of a run -----

  /** What a step of worker `i` tells the jobs holder. */
  function Report(jobs: Jobs, id: Id, i: nat, w: Worker, step: WorkerStep): Jobs {
    match step
    case Count => if w.counted < |w.plan| then WithMoreRecords(jobs, id, w.plan[w.counted].records) else jobs
    case Register => if w.phase.Registering? then WithHandler(jobs, id, Handler(i, w.phase.next)) else jobs
    case _ => jobs
  }

  function Logged(log: seq<Begun>, i: nat, w: Worker, step: WorkerStep): seq<Begun> {
    if step == Start && w.phase.Starting? && w.phase.next < |w.plan| then log + [Begun(i, w.plan[w.phase.next])] else log
  }

  predicate AllFinished(ws: seq<Worker>) {
    forall i :: 0 <= i < |ws| ==> ws[i].phase.Finished?
  }

  /** The run and the jobs after a step, if it can be taken. */
  ghost function RunNext(jobs: Jobs, r: Run, step: RunStep): Option<(Jobs, Run)> {
    match step
    case Connect => if r.main == Connecting then Some((jobs, r.(main := Spawned))) else None
    case ConnectFails => if r.main == Connecting then Some((WithFailed(jobs, r.id, NoClient), r.(main := Ended))) else None
    case OnWorker(i, ws) =>
      if r.main == Spawned && i < |r.workers| && Next(r.workers[i], r.time, ws).Some? then
        var w := r.workers[i];
        Some((Report(jobs, r.id, i, w, ws),
              r.(workers := r.workers[i := Next(w, r.time, ws).value],
                 errors := if ws == Append then r.errors + [i] else r.errors,
                 log := Logged(r.log, i, w, ws))))
      else None
    case Join =>
      if r.main == Spawned && AllFinished(r.workers) then
        Some((if r.errors == [] then WithDone(jobs, r.id) else WithFailed(jobs, r.id, Namespaces(r.errors)), r.(main := Ended)))
      else None
  }

  /** One step of the service. A restore by time begins with the full backups that were found. */
  ghost function ServiceNext(s: Service, step: Step): Option<Service> {
    match step
    case RestoreByTime(id, jobLabel, now, time, fulls) =>
      if fulls != [] then Some(Service(WithNewJob(s.jobs, id, jobLabel, now), s.runs + [NewRun(id, time, false, fulls)])) else None
    case RestoreByPath(id, jobLabel, now, backup) =>
      Some(Service(WithNewJob(s.jobs, id, jobLabel, now), s.runs + [NewRun(id, 0, true, [backup])]))
    case OnRun(i, rs) =>
      if i < |s.runs| && RunNext(s.jobs, s.runs[i], rs).Some? then
        var to := RunNext(s.jobs, s.runs[i], rs).value;
        Some(Service(to.0, s.runs[i := to.1]))
      else None
  }

  // ----- conservation -----

  function SumRecords(ms: seq<Metadata>): nat {
    if ms == [] then 0 else SumRecords(ms[..|ms| - 1]) + ms[|ms| - 1].records
  }

  /** The records of the backups that a worker has added to the total. */
  function CountedBy(w: Worker): nat {
    if w.counted <= |w.plan| then SumRecords(w.plan[..w.counted]) else 0
  }

  function Counted(ws: seq<Worker>): nat {
    if ws == [] then 0 else Counted(ws[..|ws| - 1]) + CountedBy(ws[|ws| - 1])
  }

  lemma {:induction false} CountedUpdate(ws: seq<Worker>, i: nat, w: Worker)
    requires i < |ws|
    ensures Counted(ws[i := w]) == Counted(ws) - CountedBy(ws[i]) + CountedBy(w)
  {
    var n := |ws| - 1;
    if i < n {
      CountedUpdate(ws[..n], i, w);
      assert ws[i := w][..n] == ws[..n][i := w];
    } else {
      assert ws[i := w][..n] == ws[..n];
    }
  }

  lemma CountOneMore(w: Worker)
    requires w.counted < |w.plan|
    ensures CountedBy(w.(counted := w.counted + 1)) == CountedBy(w) + w.plan[w.counted].records
  {
    assert w.plan[..w.counted + 1][..w.counted] == w.plan[..w.counted];
  }

  /** The backups of worker `i` in the order of their handlers. */
  function Indices(hs: seq<Handler>, i: nat): seq<nat> {
    if hs == [] then [] else
      var h := hs[|hs| - 1];
      Indices(hs[..|hs| - 1], i) + if h.worker == i then [h.index] else []
  }

  function BegunBy(log: seq<Begun>, i: nat): seq<Metadata> {
    if log == [] then [] else
      var b := log[|log| - 1];
      BegunBy(log[..|log| - 1], i) + if b.worker == i then [b.backup] else []
  }

  function UpTo(n: nat): seq<nat> {
    seq(n, i => i)
  }

  // ----- what a run keeps -----

  ghost predicate WorkersInv(r: Run) {
    forall i :: 0 <= i < |r.workers| ==> WorkerInv(r.workers[i], r.time)
  }

  /** The handlers of each worker are those of the backups it has registered, each once. */
  ghost predicate HandlersInv(hs: seq<Handler>, ws: seq<Worker>) {
    && (forall k :: 0 <= k < |hs| ==> hs[k].worker < |ws|)
    && forall i :: 0 <= i < |ws| ==> Indices(hs, i) == UpTo(ws[i].registered)
  }

  /** Every worker has begun a prefix of its plan, in order. */
  ghost predicate LogInv(r: Run) {
    forall i :: 0 <= i < |r.workers| ==> |r.workers[i].fetched| <= |r.workers[i].plan|
                                          && BegunBy(r.log, i) == r.workers[i].plan[..|r.workers[i].fetched|]
  }

  /** The errors name exactly the workers that failed. */
  ghost predicate ErrorsInv(r: Run) {
    && (forall i :: i in r.errors ==> i < |r.workers|)
    && forall i :: 0 <= i < |r.workers| ==> (i in r.errors <==> r.workers[i].phase == Finished(false))
  }

  ghost predicate StatusInv(job: Job, r: Run) {
    && |r.workers| >= 1
    && (job.status == Running <==> r.main != Ended)
    && (job.status == Running ==> job.err == None)
    && (job.status == Done ==> AllFinished(r.workers) && r.errors == [] && job.err == None)
    && (job.status == Failed ==> job.err == Some(NoClient) || (AllFinished(r.workers) && r.errors != [] && job.err == Some(Namespaces(r.errors))))
    && (r.main == Connecting || job.err == Some(NoClient) ==> forall i :: 0 <= i < |r.workers| ==> r.workers[i].completed == 0)
  }

  ghost predicate RunInv(job: Job, r: Run) {
    WorkersInv(r) && HandlersInv(job.handlers, r.workers) && LogInv(r) && ErrorsInv(r) && StatusInv(job, r) && job.totalRecords == Counted(r.workers)
  }

  // ----- a step of a worker keeps them -----

  lemma IndicesNext(hs: seq<Handler>, h: Handler, i: nat)
    ensures Indices(hs + [h], i) == Indices(hs, i) + if h.worker == i then [h.index] else []
  {
    assert (hs + [h])[..|hs|] == hs;
  }

  lemma BegunNext(log: seq<Begun>, b: Begun, i: nat)
    ensures BegunBy(log + [b], i) == BegunBy(log, i) + if b.worker == i then [b.backup] else []
  {
    assert (log + [b])[..|log|] == log;
  }

  lemma OneMoreHandler(hs: seq<Handler>, ws: seq<Worker>, i: nat, to: Worker)
    requires i < |ws| && HandlersInv(hs, ws) && to.registered == ws[i].registered + 1
    ensures HandlersInv(hs + [Handler(i, ws[i].registered)], ws[i := to])
  {
    var h := Handler(i, ws[i].registered);
    forall j | 0 <= j < |ws|
      ensures Indices(hs + [h], j) == UpTo(ws[i := to][j].registered)
    {
      IndicesNext(hs, h, j);
    }
  }

  lemma SameHandlers(hs: seq<Handler>, ws: seq<Worker>, i: nat, to: Worker)
    requires i < |ws| && HandlersInv(hs, ws) && to.registered == ws[i].registered
    ensures HandlersInv(hs, ws[i := to])
  {
  }

  lemma HandlersStep(jobs: Jobs, id: Id, ws: seq<Worker>, i: nat, t: Time, step: WorkerStep, to: Worker)
    requires id in jobs && i < |ws| && Progressed(ws[i]) && Next(ws[i], t, step) == Some(to)
    requires HandlersInv(jobs[id].handlers, ws)
    ensures HandlersInv(Report(jobs, id, i, ws[i], step)[id].handlers, ws[i := to])
  {
    if step == Register {
      OneMoreHandler(jobs[id].handlers, ws, i, to);
    } else {
      SameHandlers(jobs[id].handlers, ws, i, to);
    }
  }

  lemma LogStep(r: Run, i: nat, step: WorkerStep, to: Worker)
    requires i < |r.workers| && Progressed(r.workers[i]) && Next(r.workers[i], r.time, step) == Some(to)
    requires LogInv(r)
    ensures LogInv(r.(workers := r.workers[i := to], log := Logged(r.log, i, r.workers[i], step)))
  {
    var w := r.workers[i];
    if step == Start {
      var b := Begun(i, w.plan[w.phase.next]);
      forall j | 0 <= j < |r.workers|
        ensures BegunBy(r.log + [b], j) == r.workers[i := to][j].plan[..|r.workers[i := to][j].fetched|]
      {
        BegunNext(r.log, b, j);
        assert j != i ==> r.workers[i := to][j] == r.workers[j];
      }
    } else {
      assert |to.fetched| == |w.fetched| && to.plan[..|w.fetched|] == w.plan[..|w.fetched|];
    }
  }

  lemma ErrorsStep(r: Run, i: nat, step: WorkerStep, to: Worker)
    requires i < |r.workers| && Next(r.workers[i], r.time, step) == Some(to) && ErrorsInv(r)
    ensures ErrorsInv(r.(workers := r.workers[i := to], errors := if step == Append then r.errors + [i] else r.errors))
  {
    var ws := r.workers[i := to];
    assert step == Append <==> to.phase == Finished(false) && r.workers[i].phase != Finished(false);
    assert r.workers[i].phase == Finished(false) ==> to.phase == Finished(false);
  }

  lemma TotalStep(jobs: Jobs, id: Id, ws: seq<Worker>, i: nat, t: Time, step: WorkerStep, to: Worker)
    requires id in jobs && i < |ws| && Progressed(ws[i]) && Next(ws[i], t, step) == Some(to)
    requires jobs[id].totalRecords == Counted(ws)
    ensures Report(jobs, id, i, ws[i], step)[id].totalRecords == Counted(ws[i := to])
  {
    CountedUpdate(ws, i, to);
    if step == Count {
      CountOneMore(ws[i]);
    } else {
      assert to.counted == ws[i].counted && to.plan[..to.counted] == ws[i].plan[..to.counted];
    }
  }

  lemma WorkersStep(r: Run, i: nat, step: WorkerStep, to: Worker)
    requires i < |r.workers| && WorkersInv(r) && Next(r.workers[i], r.time, step) == Some(to)
    ensures WorkersInv(r.(workers := r.workers[i := to]))
  {
    assert WorkerInv(r.workers[i], r.time);
    WorkerStepInv(r.workers[i], r.time, step);
  }

  lemma StatusStep(jobs: Jobs, r: Run, i: nat, step: WorkerStep, to: Run)
    requires r.id in jobs && r.main == Spawned && StatusInv(jobs[r.id], r)
    requires to.main == Spawned && |to.workers| == |r.workers| && i < |r.workers|
    ensures StatusInv(Report(jobs, r.id, i, r.workers[i], step)[r.id], to)
  {
  }

  /** Every step of a worker keeps the invariant of its run. */
  lemma OnWorkerInv(jobs: Jobs, r: Run, i: nat, step: WorkerStep, js: Jobs, to: Run)
    requires r.id in jobs && RunInv(jobs[r.id], r) && RunNext(jobs, r, OnWorker(i, step)) == Some((js, to))
    ensures r.id in js && RunInv(js[r.id], to)
  {
    var w := Next(r.workers[i], r.time, step).value;
    assert WorkerInv(r.workers[i], r.time);
    WorkersStep(r, i, step, w);
    HandlersStep(jobs, r.id, r.workers, i, r.time, step, w);
    LogStep(r, i, step, w);
    ErrorsStep(r, i, step, w);
    StatusStep(jobs, r, i, step, to);
    TotalStep(jobs, r.id, r.workers, i, r.time, step, w);
  }
}
