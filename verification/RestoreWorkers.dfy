/** Restore jobs as interleaved steps of their namespace workers, as in pkg/service/restore_data.go.
    Each call of a locked method of the jobs holder is one step, and so is appending an error. */
module RestoreWorkers {
  import opened Wrappers
  import opened History
  import opened TimeBounds
  import opened Backend
  import opened JobsHolder

  datatype Phase =
    | Selecting
    | Counting
    | Starting(next: nat)
    | Registering(next: nat)
    | Waiting(next: nat)
    | Erring
    | Finished(ok: bool)

  /** A worker restores one namespace: the plan is the full backup and then its incrementals. A
      restore by path has one worker, whose plan is the one backup.

      `counted`, `fetched`, `registered` and `completed` say how many backups of the plan have been
      added to the total, started (with what has been read of each), handed to the holder and
      waited for with success. */
  datatype Worker = Worker(byPath: bool, full: Metadata, selected: bool, listed: seq<Metadata>, plan: seq<Metadata>, phase: Phase,
                           counted: nat, fetched: seq<nat>, registered: nat, completed: nat)

  function NewWorker(byPath: bool, full: Metadata): Worker {
    Worker(byPath, full, false, [], [full], if byPath then Starting(0) else Selecting, 0, [], 0, 0)
  }

  datatype WorkerStep =
    | Select(listed: seq<Metadata>, incrs: seq<Metadata>)
    | SelectFails
    | Count
    | CountEnds
    | Start
    | StartFails
    | Register
    | WaitEnds
    | WaitFails
    | Return
    | Append
    | Progress(index: nat, more: nat)

  /** The incrementals that the backend selects for the full backup from those listed. */
  ghost predicate IsSelection(full: Metadata, t: Time, listed: seq<Metadata>, incrs: seq<Metadata>) {
    && full.created <= t && SortedByCreated(incrs)
    && multiset(incrs) == multiset(Keep(Keep(listed, Within(TimeBounds(Some(full.created), Some(t)))), InNamespace(full.ns)))
  }

  /** One step of a worker, if it can be taken. A restore by path adds its total after the start. */
  ghost function Next(w: Worker, t: Time, step: WorkerStep): Option<Worker> {
    match step
    case Select(listed, incrs) =>
      if w.phase == Selecting && IsSelection(w.full, t, listed, incrs)
      then Some(w.(selected := true, listed := listed, plan := [w.full] + incrs, phase := Counting)) else None
    case SelectFails =>
      if w.phase == Selecting then Some(w.(phase := Erring)) else None
    case Count =>
      if w.phase == Counting && w.counted < |w.plan| then Some(w.(counted := w.counted + 1)) else None
    case CountEnds =>
      if w.phase == Counting && w.counted == |w.plan|
      then Some(w.(phase := if w.byPath then Registering(0) else Starting(0))) else None
    case Start =>
      if w.phase.Starting? && w.phase.next < |w.plan|
      then Some(w.(fetched := w.fetched + [0], phase := if w.byPath then Counting else Registering(w.phase.next))) else None
    case StartFails =>
      if w.phase.Starting? && w.phase.next < |w.plan| then Some(w.(phase := Erring)) else None
    case Register =>
      if w.phase.Registering? then Some(w.(registered := w.registered + 1, phase := Waiting(w.phase.next))) else None
    case WaitEnds =>
      if w.phase.Waiting? then Some(w.(completed := w.completed + 1, phase := Starting(w.phase.next + 1))) else None
    case WaitFails =>
      if w.phase.Waiting? then Some(w.(phase := Erring)) else None
    case Return =>
      if w.phase == Starting(|w.plan|) then Some(w.(phase := Finished(true))) else None
    case Append =>
      if w.phase == Erring then Some(w.(phase := Finished(false))) else None
    case Progress(index, more) =>
      if index < |w.fetched| then Some(w.(fetched := w.fetched[index := w.fetched[index] + more])) else None
  }

  // ----- what a worker keeps -----

  /** The full backup first, and then exactly what was selected. */
  ghost predicate IsPlan(w: Worker, t: Time) {
    && |w.plan| >= 1 && w.plan[0] == w.full
    && if w.selected then !w.byPath && IsSelection(w.full, t, w.listed, w.plan[1..]) else |w.plan| == 1
  }

  /** The counts of a worker that is at the backup `k` of its plan. */
  predicate Tally(w: Worker, counted: nat, started: nat, registered: nat, completed: nat) {
    w.counted == counted && |w.fetched| == started && w.registered == registered && w.completed == completed
  }

  predicate Progressed(w: Worker) {
    match w.phase
    case Selecting => !w.byPath && !w.selected && Tally(w, 0, 0, 0, 0)
    case Counting => w.counted <= |w.plan| && Tally(w, w.counted, if w.byPath then 1 else 0, 0, 0)
    case Starting(k) => k <= |w.plan| && Tally(w, if w.byPath && k == 0 then 0 else |w.plan|, k, k, k)
    case Registering(k) => k < |w.plan| && Tally(w, |w.plan|, k + 1, k, k)
    case Waiting(k) => k < |w.plan| && Tally(w, |w.plan|, k + 1, k + 1, k)
    case Erring => Broken(w)
    case Finished(ok) => if ok then Tally(w, |w.plan|, |w.plan|, |w.plan|, |w.plan|) else Broken(w)
  }

  /** Some backup of the plan was not completed. */
  predicate Broken(w: Worker) {
    w.completed < |w.plan| && w.counted <= |w.plan| && w.registered <= |w.fetched| <= |w.plan|
    && (w.registered > 0 ==> w.counted == |w.plan|)
  }

  /** Nothing is restored before the incrementals are selected. */
  predicate Ready(w: Worker) {
    !w.byPath && !w.selected ==> w.fetched == [] && (w.phase.Selecting? || w.phase.Erring? || w.phase == Finished(false))
  }

  ghost predicate WorkerInv(w: Worker, t: Time) {
    IsPlan(w, t) && Progressed(w) && Ready(w)
  }

  lemma PlanStep(w: Worker, t: Time, step: WorkerStep)
    requires IsPlan(w, t) && Progressed(w) && Next(w, t, step).Some?
    ensures IsPlan(Next(w, t, step).value, t)
  {
    if step.Select? {
      assert ([w.full] + step.incrs)[1..] == step.incrs;
    }
  }

  lemma PlanningStep(w: Worker, t: Time, step: WorkerStep, to: Worker)
    requires step.Select? || step.SelectFails? || step.Count? || step.CountEnds?
    requires |w.plan| >= 1 && (w.byPath ==> |w.plan| == 1) && Progressed(w) && Ready(w) && Next(w, t, step) == Some(to)
    ensures Progressed(to) && Ready(to)
  {
  }

  lemma StartingStep(w: Worker, t: Time, step: WorkerStep, to: Worker)
    requires step.Start? || step.StartFails? || step.Return?
    requires |w.plan| >= 1 && (w.byPath ==> |w.plan| == 1) && Progressed(w) && Ready(w) && Next(w, t, step) == Some(to)
    ensures Progressed(to) && Ready(to)
  {
  }

  lemma WaitingStep(w: Worker, t: Time, step: WorkerStep, to: Worker)
    requires step.Register? || step.WaitEnds? || step.WaitFails? || step.Append?
    requires |w.plan| >= 1 && (w.byPath ==> |w.plan| == 1) && Progressed(w) && Ready(w) && Next(w, t, step) == Some(to)
    ensures Progressed(to) && Ready(to)
  {
  }

  lemma ReadingStep(w: Worker, t: Time, step: WorkerStep, to: Worker)
    requires step.Progress?
    requires |w.plan| >= 1 && (w.byPath ==> |w.plan| == 1) && Progressed(w) && Ready(w) && Next(w, t, step) == Some(to)
    ensures Progressed(to) && Ready(to)
  {
  }

  lemma ProgressedStep(w: Worker, t: Time, step: WorkerStep)
    requires |w.plan| >= 1 && (w.byPath ==> |w.plan| == 1) && Progressed(w) && Ready(w) && Next(w, t, step).Some?
    ensures Progressed(Next(w, t, step).value) && Ready(Next(w, t, step).value)
  {
    var to := Next(w, t, step).value;
    if step.Select? || step.SelectFails? || step.Count? || step.CountEnds? {
      PlanningStep(w, t, step, to);
    } else if step.Start? || step.StartFails? || step.Return? {
      StartingStep(w, t, step, to);
    } else if step.Progress? {
      ReadingStep(w, t, step, to);
    } else {
      WaitingStep(w, t, step, to);
    }
  }

  lemma WorkerStepInv(w: Worker, t: Time, step: WorkerStep)
    requires WorkerInv(w, t) && Next(w, t, step).Some?
    ensures WorkerInv(Next(w, t, step).value, t)
  {
    PlanStep(w, t, step);
    ProgressedStep(w, t, step);
  }
}
