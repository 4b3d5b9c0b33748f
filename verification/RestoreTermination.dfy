/** Every restore job ends: until then some step can be taken, and no run takes infinitely many. */
module RestoreTermination {
  import opened Wrappers
  import opened History
  import opened Backend
  import opened JobsHolder
  import opened RestoreWorkers
  import opened RestoreRuns

  /** Workers whose plan is not known yet. */
  function Unselected(ws: seq<Worker>): nat {
    if ws == [] then 0 else Unselected(ws[..|ws| - 1]) + if ws[|ws| - 1].phase.Selecting? then 1 else 0
  }

  /** A bound on the steps that a worker with a plan can still take. */
  function Left(w: Worker): int {
    var n := |w.plan|;
    match w.phase
    case Selecting => 0
    case Counting => n - w.counted + 3 * n + 3
    case Starting(k) => if w.byPath && k == 0 then 4 * n + 4 else 3 * (n - k) + 2
    case Registering(k) => 3 * (n - k) + 1
    case Waiting(k) => 3 * (n - k)
    case Erring => 1
    case Finished(_) => 0
  }

  function LeftAll(ws: seq<Worker>): int {
    if ws == [] then 0 else LeftAll(ws[..|ws| - 1]) + Left(ws[|ws| - 1])
  }

  function MainLeft(m: Main): nat {
    match m
    case Connecting => 2
    case Spawned => 1
    case Ended => 0
  }

  /** The pairs of naturals in lexicographic order. */
  function Measure(r: Run): (int, int) {
    (Unselected(r.workers), LeftAll(r.workers) + MainLeft(r.main))
  }

  predicate Below(a: (int, int), b: (int, int)) {
    0 <= a.0 && 0 <= a.1 && (a.0 < b.0 || (a.0 == b.0 && a.1 < b.1))
  }

  lemma {:induction false} UpdateSums(ws: seq<Worker>, i: nat, w: Worker)
    requires i < |ws|
    ensures LeftAll(ws[i := w]) == LeftAll(ws) - Left(ws[i]) + Left(w)
    ensures Unselected(ws[i := w]) == Unselected(ws) - (if ws[i].phase.Selecting? then 1 else 0) + (if w.phase.Selecting? then 1 else 0)
  {
    var n := |ws| - 1;
    if i < n {
      UpdateSums(ws[..n], i, w);
      assert ws[i := w][..n] == ws[..n][i := w];
    } else {
      assert ws[i := w][..n] == ws[..n];
    }
  }

  lemma {:induction false} LeftIsNatural(ws: seq<Worker>, t: Time)
    requires forall i :: 0 <= i < |ws| ==> WorkerInv(ws[i], t)
    ensures LeftAll(ws) >= 0
  {
    if ws != [] {
      LeftIsNatural(ws[..|ws| - 1], t);
      assert WorkerInv(ws[|ws| - 1], t);
    }
  }

  lemma WorkerMovesOn(w: Worker, t: Time, step: WorkerStep, to: Worker)
    requires WorkerInv(w, t) && !step.Progress? && Next(w, t, step) == Some(to)
    ensures !to.phase.Selecting? && (w.phase.Selecting? || Left(to) < Left(w))
  {
  }

  /** Every step but the reading of records brings the run closer to its end. */
  lemma StepsRunOut(jobs: Jobs, r: Run, step: RunStep, js: Jobs, to: Run)
    requires WorkersInv(r) && WorkersInv(to) && RunNext(jobs, r, step) == Some((js, to))
    requires step.OnWorker? ==> !step.step.Progress?
    ensures Below(Measure(to), Measure(r))
  {
    LeftIsNatural(to.workers, to.time);
    if step.OnWorker? {
      var i := step.worker;
      assert WorkerInv(r.workers[i], r.time);
      UpdateSums(r.workers, i, to.workers[i]);
      WorkerMovesOn(r.workers[i], r.time, step.step, to.workers[i]);
    }
  }

  /** A step that a worker can take until it has finished. */
  function Forward(w: Worker): WorkerStep {
    match w.phase
    case Selecting => SelectFails
    case Counting => if w.counted < |w.plan| then Count else CountEnds
    case Starting(k) => if k < |w.plan| then Start else Return
    case Registering(_) => Register
    case Waiting(_) => WaitEnds
    case Erring => Append
    case Finished(_) => Append
  }

  lemma WorkerNeverStuck(w: Worker, t: Time)
    requires WorkerInv(w, t) && !w.phase.Finished?
    ensures Next(w, t, Forward(w)).Some? && !Forward(w).Progress?
  {
  }

  /** A run that has not ended can take a step other than reading. */
  lemma NeverStuck(jobs: Jobs, r: Run) returns (step: RunStep)
    requires WorkersInv(r) && r.main != Ended
    ensures RunNext(jobs, r, step).Some? && !step.ConnectFails? && (step.OnWorker? ==> !step.step.Progress?)
  {
    if r.main == Connecting {
      return Connect;
    }
    if AllFinished(r.workers) {
      return Join;
    }
    var i :| 0 <= i < |r.workers| && !r.workers[i].phase.Finished?;
    assert WorkerInv(r.workers[i], r.time);
    WorkerNeverStuck(r.workers[i], r.time);
    return OnWorker(i, Forward(r.workers[i]));
  }
}
