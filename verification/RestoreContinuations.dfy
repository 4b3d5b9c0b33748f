/** What can still happen to restore jobs: every job can end, and what becomes of final statuses when
    an id is drawn a second time. */
module RestoreContinuations {
  import opened Wrappers
  import opened History
  import opened Backend
  import opened JobsHolder
  import opened RestoreWorkers
  import opened RestoreRuns
  import opened RestoreProperties
  import opened RestoreTermination

  /** The steps lead from `s` to `t`, drawing fresh ids. */
  ghost predicate Continues(s: Service, steps: seq<Step>, t: Service)
    decreases |steps|
  {
    if steps == [] then t == s
    else Fresh(s, steps[0]) && ServiceNext(s, steps[0]).Some? && Continues(ServiceNext(s, steps[0]).value, steps[1..], t)
  }

  lemma ContinuesOneMore(s: Service, step: Step, to: Service, steps: seq<Step>, t: Service)
    requires Fresh(s, step) && ServiceNext(s, step) == Some(to) && Continues(to, steps, t)
    ensures Continues(s, [step] + steps, t)
  {
    assert ([step] + steps)[1..] == steps;
  }

  // ----- every job can end -----

  /** The outcome of a run that was joined. */
  predicate Joined(job: Job) {
    job.status == Done || (job.status == Failed && job.err.Some? && job.err.value.Namespaces?)
  }

  /** A step that brings run `i` closer to its end. */
  lemma StepForward(s: Service, i: nat) returns (step: RunStep, to: Service)
    requires i < |s.runs| && WorkersInv(s.runs[i]) && s.runs[i].main != Ended
    ensures ServiceNext(s, OnRun(i, step)) == Some(to) && |to.runs| == |s.runs| && to.jobs.Keys == s.jobs.Keys
    ensures to.runs[i].id == s.runs[i].id && WorkersInv(to.runs[i]) && Below(Measure(to.runs[i]), Measure(s.runs[i]))
    ensures to.runs[i].main == Ended && s.runs[i].id in s.jobs ==> Joined(to.jobs[s.runs[i].id])
  {
    var r := s.runs[i];
    step := NeverStuck(s.jobs, r);
    var next := RunNext(s.jobs, r, step).value;
    to := Service(next.0, s.runs[i := next.1]);
    OnlyItsJob(s.jobs, r, step, next.0, next.1);
    if step.OnWorker? {
      assert WorkerInv(r.workers[step.worker], r.time);
      WorkersStep(r, step.worker, step.step, next.1.workers[step.worker]);
      assert next.1.workers == r.workers[step.worker := next.1.workers[step.worker]];
    }
    assert WorkersInv(next.1);
    StepsRunOut(s.jobs, r, step, next.0, next.1);
  }

  /** Whatever has happened, the job of run `i` can still end by joining its workers, in finitely
      many steps. */
  lemma {:induction false} EndRun(s: Service, i: nat) returns (steps: seq<Step>, t: Service)
    requires i < |s.runs| && WorkersInv(s.runs[i]) && s.runs[i].main != Ended
    ensures Continues(s, steps, t) && |t.runs| == |s.runs| && t.runs[i].main == Ended && t.runs[i].id == s.runs[i].id
    ensures t.jobs.Keys == s.jobs.Keys && (s.runs[i].id in s.jobs ==> Joined(t.jobs[s.runs[i].id]))
    decreases Measure(s.runs[i]).0, Measure(s.runs[i]).1
  {
    var step, to := StepForward(s, i);
    if to.runs[i].main == Ended {
      steps, t := [], to;
    } else {
      steps, t := EndRun(to, i);
    }
    ContinuesOneMore(s, OnRun(i, step), to, steps, t);
    steps := [OnRun(i, step)] + steps;
  }

  /** From every state of every run of the service, every job that is running can be brought to its
      end in finitely many steps. */
  lemma EveryJobCanEnd(states: seq<Service>, steps: seq<Step>, n: nat, i: nat) returns (more: seq<Step>, t: Service)
    requires Trace(states, steps) && n <= |steps| && i < |states[n].runs|
    ensures Continues(states[n], more, t) && i < |t.runs| && t.runs[i].main == Ended && t.runs[i].id == states[n].runs[i].id
    ensures t.runs[i].id in t.jobs && t.jobs[t.runs[i].id].status != Running
  {
    TraceInv(states, steps, n);
    var r := states[n].runs[i];
    assert RunInv(states[n].jobs[r.id], r);
    if r.main == Ended {
      assert StatusInv(states[n].jobs[r.id], r);
      return [], states[n];
    }
    more, t := EndRun(states[n], i);
  }

  // ----- drawing an id a second time -----

  /** Final statuses and their errors are kept. */
  ghost predicate FinalKept(before: Jobs, after: Jobs) {
    forall id :: id in before && before[id].status != Running ==> Settled(after, id, before[id].status, before[id].err)
  }

  /** Final statuses are kept by the step to `to` and ever after. */
  ghost predicate KeepsFinal(s: Service, to: Service) {
    && FinalKept(s.jobs, to.jobs)
    && forall a, m, b, n :: Continues(to, a, m) && Continues(m, b, n) ==> FinalKept(m.jobs, n.jobs)
  }

  lemma FinalKeptByStep(s: Service, step: Step, to: Service)
    requires Inv(s) && Fresh(s, step) && ServiceNext(s, step) == Some(to)
    ensures FinalKept(s.jobs, to.jobs)
  {
    forall id | id in s.jobs && s.jobs[id].status != Running
      ensures Settled(to.jobs, id, s.jobs[id].status, s.jobs[id].err)
    {
      FinalStep(s, step, to, id, s.jobs[id].status, s.jobs[id].err);
    }
  }

  lemma {:induction false} ContinuesInv(s: Service, steps: seq<Step>, t: Service)
    requires Inv(s) && Continues(s, steps, t)
    ensures Inv(t) && FinalKept(s.jobs, t.jobs)
    decreases |steps|
  {
    if steps != [] {
      var to := ServiceNext(s, steps[0]).value;
      ServiceInv(s, steps[0], to);
      FinalKeptByStep(s, steps[0], to);
      ContinuesInv(to, steps[1..], t);
    }
  }

  /** Every job was made by a run. */
  ghost predicate Owned(s: Service) {
    forall id :: id in s.jobs ==> exists i :: 0 <= i < |s.runs| && s.runs[i].id == id
  }

  lemma OwnedStep(s: Service, step: Step, to: Service)
    requires Owned(s) && ServiceNext(s, step) == Some(to)
    ensures Owned(to)
  {
    if step.OnRun? {
      OnlyItsJob(s.jobs, s.runs[step.run], step.step, to.jobs, to.runs[step.run]);
      assert to.runs[step.run].id == s.runs[step.run].id;
    } else {
      assert to.runs[|s.runs|].id == step.id;
    }
    forall id | id in to.jobs
      ensures exists i :: 0 <= i < |to.runs| && to.runs[i].id == id
    {
      if id in s.jobs {
        var i :| 0 <= i < |s.runs| && s.runs[i].id == id;
        assert to.runs[i].id == id;
      } else {
        assert to.runs[|s.runs|].id == id;
      }
    }
  }

  lemma {:induction false} TraceOwned(states: seq<Service>, steps: seq<Step>, n: nat)
    requires Trace(states, steps) && n <= |steps|
    ensures Owned(states[n])
  {
    if n > 0 {
      TraceOwned(states, steps, n - 1);
      OwnedStep(states[n - 1], steps[n - 1], states[n]);
    }
  }

  lemma RunOf(s: Service, id: Id) returns (i: nat)
    requires Inv(s) && Owned(s) && id in s.jobs && s.jobs[id].status == Running
    ensures i < |s.runs| && s.runs[i].id == id && WorkersInv(s.runs[i]) && s.runs[i].main != Ended
  {
    i :| 0 <= i < |s.runs| && s.runs[i].id == id;
    assert RunInv(s.jobs[id], s.runs[i]);
    assert StatusInv(s.jobs[id], s.runs[i]);
  }

  lemma FailToConnect(s: Service, j: nat) returns (t: Service)
    requires j < |s.runs| && s.runs[j].main == Connecting && s.runs[j].id in s.jobs
    ensures Continues(s, [OnRun(j, ConnectFails)], t) && t.jobs.Keys == s.jobs.Keys
    ensures t.runs == s.runs[j := s.runs[j].(main := Ended)]
    ensures t.jobs[s.runs[j].id].status == Failed && t.jobs[s.runs[j].id].err == Some(NoClient)
  {
    var next := RunNext(s.jobs, s.runs[j], ConnectFails).value;
    t := Service(next.0, s.runs[j := next.1]);
    ContinuesOneMore(s, OnRun(j, ConnectFails), t, [], t);
    assert [OnRun(j, ConnectFails)] + [] == [OnRun(j, ConnectFails)];
  }

  /** Two runs that report to one job: the new one fails to connect, and the old one goes on and
      overwrites that outcome. */
  lemma SharedIdLosesStatus(s: Service, step: Step, to: Service)
    requires Inv(s) && Owned(s) && !step.OnRun? && ServiceNext(s, step) == Some(to)
    requires step.id in s.jobs && s.jobs[step.id].status == Running
    ensures !KeepsFinal(s, to)
  {
    var i := RunOf(s, step.id);
    var j := |s.runs|;
    assert to.runs[i] == s.runs[i] && to.runs[j].main == Connecting && to.runs[j].id == step.id;
    var m := FailToConnect(to, j);
    assert m.runs[i] == s.runs[i];
    var b, n := EndRun(m, i);
    assert !FinalKept(m.jobs, n.jobs) by {
      assert Joined(n.jobs[step.id]);
    }
  }

  /** A restore keeps final statuses, its own and those of others, now and ever after, exactly when
      the id it draws is not in use. */
  lemma DrawnIdKeepsFinalIff(s: Service, step: Step, to: Service)
    requires Inv(s) && Owned(s) && !step.OnRun? && ServiceNext(s, step) == Some(to)
    ensures KeepsFinal(s, to) <==> step.id !in s.jobs
  {
    if step.id !in s.jobs {
      ServiceInv(s, step, to);
      FinalKeptByStep(s, step, to);
      forall a, m, b, n | Continues(to, a, m) && Continues(m, b, n)
        ensures FinalKept(m.jobs, n.jobs)
      {
        ContinuesInv(to, a, m);
        ContinuesInv(m, b, n);
      }
    } else if s.jobs[step.id].status == Running {
      SharedIdLosesStatus(s, step, to);
    } else {
      assert to.jobs[step.id].status == Running;
    }
  }

  /** One more step at the end. */
  lemma {:induction false} ContinuesThen(s: Service, steps: seq<Step>, m: Service, step: Step, t: Service)
    requires Continues(s, steps, m) && Fresh(m, step) && ServiceNext(m, step) == Some(t)
    ensures Continues(s, steps + [step], t)
    decreases |steps|
  {
    if steps == [] {
      ContinuesOneMore(s, step, t, [], t);
      assert [] + [step] == [step] + [];
    } else {
      var next := ServiceNext(s, steps[0]).value;
      ContinuesThen(next, steps[1..], m, step, t);
      ContinuesOneMore(s, steps[0], next, steps[1..] + [step], t);
      assert [steps[0]] + (steps[1..] + [step]) == steps + [step];
    }
  }

  /** A restore that is begun and fails to connect. */
  function FailedJob(jobLabel: string, now: Time): Job {
    Job([], Failed, Some(NoClient), 0, now, jobLabel)
  }

  /** The id of a running job is drawn again. The first run fails to connect and reports it; then the
      second one starts, fails and reports that: the error of the failed job changes. */
  lemma SharedIdChangesError(b: Metadata) returns (first: Service, second: Service, early: Service, steps: seq<Step>, late: Service)
    ensures ServiceNext(Service(map[], []), RestoreByPath(7, "first", 1, b)) == Some(first)
    ensures ServiceNext(first, RestoreByPath(7, "second", 2, b)) == Some(second) && first.jobs[7].status == Running
    ensures ServiceNext(second, OnRun(0, ConnectFails)) == Some(early) && early.jobs == map[7 := FailedJob("second", 2)]
    ensures Continues(early, steps, late)
    ensures 7 in late.jobs && late.jobs[7].status == Failed && late.jobs[7].err == Some(Namespaces([0]))
  {
    var w := NewWorker(true, b);
    var r := NewRun(7, 0, true, [b]);
    assert r.workers == [w];
    var job := Job([], Running, None, 0, 2, "second");
    first := Service(map[7 := Job([], Running, None, 0, 1, "first")], [r]);
    assert [] + [r] == [r];
    second := Service(map[7 := job], [r, r]);
    assert [r] + [r] == [r, r] && first.jobs[7 := job] == second.jobs;
    early := Service(map[7 := FailedJob("second", 2)], [r.(main := Ended), r]);
    assert [r, r][0 := r.(main := Ended)] == early.runs && second.jobs[7 := FailedJob("second", 2)] == early.jobs;
    steps, late := LateFailure(early, r, w);
  }

  lemma LateFailure(s: Service, r: Run, w: Worker) returns (steps: seq<Step>, t: Service)
    requires |s.runs| == 2 && s.runs[1] == r && r.main == Connecting && r.workers == [w] && r.errors == [] && w.phase == Starting(0) && |w.plan| == 1
    requires r.id in s.jobs
    ensures Continues(s, steps, t) && r.id in t.jobs && t.jobs[r.id].status == Failed && t.jobs[r.id].err == Some(Namespaces([0]))
  {
    var r1 := r.(main := Spawned);
    var s1 := s.(runs := s.runs[1 := r1]);
    ContinuesThen(s, [], s, OnRun(1, Connect), s1);
    var r2 := r1.(workers := [w.(phase := Erring)]);
    var s2 := s1.(runs := s1.runs[1 := r2]);
    assert r1.workers[0 := w.(phase := Erring)] == r2.workers;
    ContinuesThen(s, [] + [OnRun(1, Connect)], s1, OnRun(1, OnWorker(0, StartFails)), s2);
    var r3 := r2.(workers := [w.(phase := Finished(false))], errors := [0]);
    var s3 := s2.(runs := s2.runs[1 := r3]);
    assert r2.workers[0 := w.(phase := Finished(false))] == r3.workers && [] + [0] == [0];
    ContinuesThen(s, [] + [OnRun(1, Connect)] + [OnRun(1, OnWorker(0, StartFails))], s2, OnRun(1, OnWorker(0, Append)), s3);
    t := Service(WithFailed(s3.jobs, r.id, Namespaces([0])), s3.runs[1 := r3.(main := Ended)]);
    steps := [] + [OnRun(1, Connect)] + [OnRun(1, OnWorker(0, StartFails))] + [OnRun(1, OnWorker(0, Append))];
    ContinuesThen(s, steps, s3, OnRun(1, Join), t);
    steps := steps + [OnRun(1, Join)];
  }
}
