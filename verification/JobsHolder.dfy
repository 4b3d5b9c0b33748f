/** The records of restore jobs and their progress, as in pkg/service/jobs_holder.go and
    pkg/service/estimates.go. */
module JobsHolder {
  import opened Wrappers
  import opened History

  type Id = int

  datatype Status = Running | Done | Failed

  /** The handler that restores one backup of one namespace. */
  datatype Handler = Handler(worker: nat, index: nat)

  /** No connection to the cluster, or the namespaces that could not be restored. */
  datatype Failure = NoClient | Namespaces(workers: seq<nat>)

  datatype Job = Job(handlers: seq<Handler>, status: Status, err: Option<Failure>, totalRecords: nat, startTime: Time, jobLabel: string)

  type Jobs = map<Id, Job>

  function WithNewJob(jobs: Jobs, id: Id, jobLabel: string, now: Time): Jobs {
    jobs[id := Job([], Running, None, 0, now, jobLabel)]
  }

  function WithHandler(jobs: Jobs, id: Id, h: Handler): Jobs {
    if id in jobs then jobs[id := jobs[id].(handlers := jobs[id].handlers + [h])] else jobs
  }

  function WithMoreRecords(jobs: Jobs, id: Id, n: nat): Jobs {
    if id in jobs then jobs[id := jobs[id].(totalRecords := jobs[id].totalRecords + n)] else jobs
  }

  function WithDone(jobs: Jobs, id: Id): Jobs {
    if id in jobs then jobs[id := jobs[id].(status := Done)] else jobs
  }

  function WithFailed(jobs: Jobs, id: Id, err: Failure): Jobs {
    if id in jobs then jobs[id := jobs[id].(status := Failed, err := Some(err))] else jobs
  }

  // ----- progress -----

  datatype RunningJob = RunningJob(startTime: Time, doneRecords: nat, totalRecords: nat, estimatedEndTime: Option<int>, percentageDone: int)

  function Fraction(done: nat, total: nat): real
    requires total > 0
  {
    done as real / total as real
  }

  /** The estimate, once one percent is done. */
  function EstimatedEndTime(start: Time, now: Time, fraction: real): (r: Option<int>)
    ensures r.Some? <==> fraction >= 0.01
  {
    if fraction < 0.01 then None else Some(start + ((now as real - start as real) / fraction).Floor)
  }

  function NewRunningJob(start: Time, now: Time, done: nat, total: nat): Option<RunningJob> {
    if total == 0 then None else
      var fraction := Fraction(done, total);
      Some(RunningJob(start, done, total, EstimatedEndTime(start, now, fraction), (fraction * 100.0).Floor))
  }

  lemma FractionBounds(done: nat, total: nat)
    requires total > 0
    ensures 0.0 <= Fraction(done, total)
    ensures done <= total <==> Fraction(done, total) <= 1.0
    ensures done == total <==> Fraction(done, total) == 1.0
  {
    var f := Fraction(done, total);
    assert f * total as real == done as real;
    if done < total {
      assert f < 1.0;
    } else {
      assert f >= 1.0;
    }
  }

  /** As long as no more is done than the total, the percentage is within 0..100, it is 100 only at
      the end, and an estimate never lies in the past. */
  lemma ProgressIsBounded(start: Time, now: Time, done: nat, total: nat)
    requires total > 0 && done <= total && start <= now
    ensures var r := NewRunningJob(start, now, done, total).value;
            0 <= r.percentageDone <= 100
            && (r.percentageDone == 100 <==> done == total)
            && (r.estimatedEndTime.Some? ==> now <= r.estimatedEndTime.value)
            && (done == total ==> r.estimatedEndTime == Some(now))
  {
    var f := Fraction(done, total);
    FractionBounds(done, total);
    if f >= 0.01 {
      var elapsed := now as real - start as real;
      assert (elapsed / f) * f == elapsed;
      assert elapsed / f >= elapsed;
      assert elapsed == (now - start) as real;
      assert (elapsed / f).Floor >= now - start;
    }
  }

  lemma Scaled(x: real, y: real, r: real)
    requires r > 0.0
    ensures x <= y ==> x * r <= y * r
    ensures x < y ==> x * r < y * r
  {
  }

  lemma IntProduct(a: int, b: int)
    ensures (a * b) as real == a as real * b as real
  {
  }

  lemma FloorOfQuotient(a: int, b: nat, q: real)
    requires b > 0 && q * b as real == a as real
    ensures q.Floor * b <= a < (q.Floor + 1) * b
  {
    var k := q.Floor;
    Scaled(k as real, q, b as real);
    Scaled(q, (k + 1) as real, b as real);
    IntProduct(k, b);
    IntProduct(k + 1, b);
  }

  /** The percentage is the whole part of 100 * done / total. */
  lemma PercentageIsQuotient(start: Time, now: Time, done: nat, total: nat)
    requires total > 0
    ensures var p := NewRunningJob(start, now, done, total).value.percentageDone; p * total <= 100 * done < (p + 1) * total
  {
    var f := Fraction(done, total);
    assert f * total as real == done as real;
    FloorOfQuotient(100 * done, total, f * 100.0);
  }

  lemma ExtrapolatedTime(elapsed: int, done: nat, total: nat)
    requires total > 0 && done > 0
    ensures elapsed as real / Fraction(done, total) * done as real == (elapsed * total) as real
  {
    var f, t := Fraction(done, total), total as real;
    assert f * t == done as real;
    var q := elapsed as real / f;
    assert q * f == elapsed as real;
    calc {
      q * done as real;
      q * (f * t);
      (q * f) * t;
      elapsed as real * t;
      { IntProduct(elapsed, total); }
      (elapsed * total) as real;
    }
  }

  lemma OnePercent(done: nat, total: nat)
    requires total > 0
    ensures Fraction(done, total) >= 0.01 <==> 100 * done >= total
  {
    var f, t := Fraction(done, total), total as real;
    assert f * t == done as real;
    if f >= 0.01 {
      Scaled(0.01, f, t);
    } else {
      Scaled(f, 0.01, t);
    }
  }

  lemma FloorOfExtrapolation(elapsed: int, done: nat, total: nat)
    requires total > 0 && done > 0
    ensures var k := (elapsed as real / Fraction(done, total)).Floor; k * done <= elapsed * total < (k + 1) * done
  {
    ExtrapolatedTime(elapsed, done, total);
    FloorOfQuotient(elapsed * total, done, elapsed as real / Fraction(done, total));
  }

  /** There is an estimate once one percent is done; it extends the time taken so far in proportion. */
  lemma EstimateIsProportional(start: Time, now: Time, done: nat, total: nat)
    requires total > 0
    ensures var end := NewRunningJob(start, now, done, total).value.estimatedEndTime;
            && (end.Some? <==> 100 * done >= total)
            && (end.Some? ==> var k := end.value - start; k * done <= (now - start) * total < (k + 1) * done)
  {
    OnePercent(done, total);
    if done > 0 {
      assert now as real - start as real == (now - start) as real;
      FloorOfExtrapolation(now - start, done, total);
    }
  }

  // ----- the status of a restore job -----

  function SumReads(hs: seq<Handler>, read: Handler -> nat): nat {
    if hs == [] then 0 else SumReads(hs[..|hs| - 1], read) + read(hs[|hs| - 1])
  }

  /** The statistics of a restore handler. */
  datatype Counters = Counters(read: nat, inserted: nat, indexes: nat, udfs: nat, fresher: nat, skipped: nat, existed: nat, expired: nat, bytes: nat)

  /** The sums of the statistics are sums of each of them. */
  ghost predicate IsSum(sum: Counters, hs: seq<Handler>, stats: Handler -> Counters) {
    && sum.read == SumReads(hs, h => stats(h).read) && sum.inserted == SumReads(hs, h => stats(h).inserted)
    && sum.indexes == SumReads(hs, h => stats(h).indexes) && sum.udfs == SumReads(hs, h => stats(h).udfs)
    && sum.fresher == SumReads(hs, h => stats(h).fresher) && sum.skipped == SumReads(hs, h => stats(h).skipped)
    && sum.existed == SumReads(hs, h => stats(h).existed) && sum.expired == SumReads(hs, h => stats(h).expired)
    && sum.bytes == SumReads(hs, h => stats(h).bytes)
  }

  lemma SumOneMore(hs: seq<Handler>, h: Handler, read: Handler -> nat)
    ensures SumReads(hs + [h], read) == SumReads(hs, read) + read(h)
  {
    assert (hs + [h])[..|hs|] == hs;
  }

  lemma IsSumOneMore(sum: Counters, hs: seq<Handler>, h: Handler, stats: Handler -> Counters)
    requires IsSum(sum, hs, stats)
    ensures var x := stats(h);
            IsSum(Counters(sum.read + x.read, sum.inserted + x.inserted, sum.indexes + x.indexes, sum.udfs + x.udfs,
                           sum.fresher + x.fresher, sum.skipped + x.skipped, sum.existed + x.existed, sum.expired + x.expired,
                           sum.bytes + x.bytes), hs + [h], stats)
  {
    SumOneMore(hs, h, h => stats(h).read);
    SumOneMore(hs, h, h => stats(h).inserted);
    SumOneMore(hs, h, h => stats(h).indexes);
    SumOneMore(hs, h, h => stats(h).udfs);
    SumOneMore(hs, h, h => stats(h).fresher);
    SumOneMore(hs, h, h => stats(h).skipped);
    SumOneMore(hs, h, h => stats(h).existed);
    SumOneMore(hs, h, h => stats(h).expired);
    SumOneMore(hs, h, h => stats(h).bytes);
  }

  datatype JobStatus = JobStatus(status: Status, counters: Counters, current: Option<RunningJob>, err: Option<Failure>)

  /** `p` reports `done` of `total` records since `start`: the percentage is the whole part of
      100 * done / total; from one percent on there is an estimated end, which extends the time taken
      so far in proportion. */
  ghost predicate ReportsProgress(p: RunningJob, start: Time, now: Time, done: nat, total: nat) {
    && p.startTime == start && p.doneRecords == done && p.totalRecords == total
    && p.percentageDone * total <= 100 * done < (p.percentageDone + 1) * total
    && (p.estimatedEndTime.Some? <==> 100 * done >= total)
    && (p.estimatedEndTime.Some? ==>
          (p.estimatedEndTime.value - start) * done <= (now - start) * total < (p.estimatedEndTime.value - start + 1) * done)
  }

  lemma NewRunningJobReports(start: Time, now: Time, done: nat, total: nat)
    ensures NewRunningJob(start, now, done, total).None? <==> total == 0
    ensures total > 0 ==> ReportsProgress(NewRunningJob(start, now, done, total).value, start, now, done, total)
  {
    if total > 0 {
      PercentageIsQuotient(start, now, done, total);
      EstimateIsProportional(start, now, done, total);
    }
  }

  /** What the status of a job reports: progress exactly while it is running and its total is known. */
  ghost predicate Shows(r: JobStatus, job: Job, stats: Handler -> Counters, now: Time) {
    && r.status == job.status && r.err == job.err && IsSum(r.counters, job.handlers, stats)
    && (r.current.Some? <==> job.status == Running && job.totalRecords > 0)
    && (r.current.Some? ==> ReportsProgress(r.current.value, job.startTime, now, r.counters.read, job.totalRecords))
  }

  /** Adds up the statistics of the handlers. */
  method RestoreJobStatus(job: Job, stats: Handler -> Counters, now: Time) returns (r: JobStatus)
    ensures Shows(r, job, stats, now)
    ensures r.status == job.status && r.err == job.err
    ensures r.counters.read == SumReads(job.handlers, h => stats(h).read)
    ensures r.counters.inserted == SumReads(job.handlers, h => stats(h).inserted)
    ensures r.counters.indexes == SumReads(job.handlers, h => stats(h).indexes)
    ensures r.counters.udfs == SumReads(job.handlers, h => stats(h).udfs)
    ensures r.counters.fresher == SumReads(job.handlers, h => stats(h).fresher)
    ensures r.counters.skipped == SumReads(job.handlers, h => stats(h).skipped)
    ensures r.counters.existed == SumReads(job.handlers, h => stats(h).existed)
    ensures r.counters.expired == SumReads(job.handlers, h => stats(h).expired)
    ensures r.counters.bytes == SumReads(job.handlers, h => stats(h).bytes)
    ensures r.current.Some? <==> job.status == Running && job.totalRecords > 0
    ensures r.current.Some? ==> r.current.value.startTime == job.startTime
    ensures r.current.Some? ==> r.current.value.doneRecords == r.counters.read && r.current.value.totalRecords == job.totalRecords
    ensures r.current.Some? ==> var p := r.current.value.percentageDone;
                                p * job.totalRecords <= 100 * r.counters.read < (p + 1) * job.totalRecords
  {
    var sum := Counters(0, 0, 0, 0, 0, 0, 0, 0, 0);
    for i := 0 to |job.handlers|
      invariant IsSum(sum, job.handlers[..i], stats)
    {
      var x := stats(job.handlers[i]);
      IsSumOneMore(sum, job.handlers[..i], job.handlers[i], stats);
      assert job.handlers[..i + 1] == job.handlers[..i] + [job.handlers[i]];
      sum := Counters(sum.read + x.read, sum.inserted + x.inserted, sum.indexes + x.indexes, sum.udfs + x.udfs,
                      sum.fresher + x.fresher, sum.skipped + x.skipped, sum.existed + x.existed, sum.expired + x.expired,
                      sum.bytes + x.bytes);
    }
    assert job.handlers[..|job.handlers|] == job.handlers;
    var current := None;
    NewRunningJobReports(job.startTime, now, sum.read, job.totalRecords);
    if job.status == Running {
      current := NewRunningJob(job.startTime, now, sum.read, job.totalRecords);
    }
    r := JobStatus(job.status, sum, current, job.err);
  }

  class RestoreJobsHolder {
    var jobs: Jobs

    constructor ()
      ensures jobs == map[]
    {
      jobs := map[];
    }

    /** The new id is drawn at random. */
    method NewJob(drawn: Id, jobLabel: string, now: Time) returns (id: Id)
      modifies this
      ensures id == drawn && jobs == WithNewJob(old(jobs), id, jobLabel, now)
      ensures id in jobs && jobs[id].status == Running && jobs[id].startTime == now && jobs[id].jobLabel == jobLabel
      ensures jobs[id].handlers == [] && jobs[id].totalRecords == 0 && jobs[id].err == None && jobs - {id} == old(jobs) - {id}
    {
      id := drawn;
      jobs := jobs[id := Job([], Running, None, 0, now, jobLabel)];
    }

    method AddHandler(id: Id, h: Handler)
      modifies this
      ensures jobs == WithHandler(old(jobs), id, h)
      ensures id in old(jobs) ==> jobs == old(jobs)[id := old(jobs)[id].(handlers := old(jobs)[id].handlers + [h])]
      ensures id !in old(jobs) ==> jobs == old(jobs)
    {
      if id in jobs {
        jobs := jobs[id := jobs[id].(handlers := jobs[id].handlers + [h])];
      }
    }

    method AddTotalRecords(id: Id, n: nat)
      modifies this
      ensures jobs == WithMoreRecords(old(jobs), id, n)
      ensures id in old(jobs) ==> jobs == old(jobs)[id := old(jobs)[id].(totalRecords := old(jobs)[id].totalRecords + n)]
      ensures id !in old(jobs) ==> jobs == old(jobs)
    {
      if id in jobs {
        jobs := jobs[id := jobs[id].(totalRecords := jobs[id].totalRecords + n)];
      }
    }

    method SetDone(id: Id)
      modifies this
      ensures jobs == WithDone(old(jobs), id)
      ensures id in old(jobs) ==> jobs == old(jobs)[id := old(jobs)[id].(status := Done)]
      ensures id !in old(jobs) ==> jobs == old(jobs)
    {
      if id in jobs {
        jobs := jobs[id := jobs[id].(status := Done)];
      }
    }

    method SetFailed(id: Id, err: Failure)
      modifies this
      ensures jobs == WithFailed(old(jobs), id, err)
      ensures id in old(jobs) ==> jobs == old(jobs)[id := old(jobs)[id].(status := Failed, err := Some(err))]
      ensures id !in old(jobs) ==> jobs == old(jobs)
    {
      if id in jobs {
        jobs := jobs[id := jobs[id].(status := Failed, err := Some(err))];
      }
    }

    /** An unknown id is an error. */
    method GetStatus(id: Id, stats: Handler -> Counters, now: Time) returns (r: Option<JobStatus>)
      ensures r.Some? <==> id in jobs
      ensures r.Some? ==> Shows(r.value, jobs[id], stats, now)
      ensures r.Some? ==> r.value.status == jobs[id].status && r.value.err == jobs[id].err
      ensures r.Some? ==> (r.value.current.Some? <==> jobs[id].status == Running && jobs[id].totalRecords > 0)
    {
      if id in jobs {
        var status := RestoreJobStatus(jobs[id], stats, now);
        return Some(status);
      }
      return None;
    }
  }

  // ----- the status of a running backup -----

  datatype Stats = Stats(readRecords: nat, totalRecords: nat, startTime: Time)

  function ReadOf(s: Stats): nat {
    s.readRecords
  }

  function TotalOf(s: Stats): nat {
    s.totalRecords
  }

  /** A sum over the handlers of a routine, in no particular order. */
  ghost function SumStats(m: map<string, Stats>, f: Stats -> nat): nat {
    if m == map[] then 0 else
      var k :| k in m;
      f(m[k]) + SumStats(m - {k}, f)
  }

  lemma {:induction false} SumStatsTake(m: map<string, Stats>, f: Stats -> nat, k: string)
    requires k in m
    ensures SumStats(m, f) == f(m[k]) + SumStats(m - {k}, f)
    decreases |m|
  {
    var first :| first in m && SumStats(m, f) == f(m[first]) + SumStats(m - {first}, f);
    if first != k {
      SumStatsTake(m - {first}, f, k);
      SumStatsTake(m - {k}, f, first);
      assert m - {first} - {k} == m - {k} - {first};
    }
  }

  lemma {:induction false} SumStatsAtMost(m: map<string, Stats>, f: Stats -> nat, g: Stats -> nat)
    requires forall k :: k in m ==> f(m[k]) <= g(m[k])
    ensures SumStats(m, f) <= SumStats(m, g)
    decreases |m|
  {
    if m != map[] {
      var k :| k in m;
      SumStatsTake(m, f, k);
      SumStatsTake(m, g, k);
      SumStatsAtMost(m - {k}, f, g);
    }
  }

  /** While no namespace has read more than it holds, neither has the routine. */
  lemma BackupProgressIsBounded(handlers: map<string, Stats>, start: Time, now: Time)
    requires start <= now && forall n :: n in handlers ==> handlers[n].readRecords <= handlers[n].totalRecords
    ensures var r := NewRunningJob(start, now, SumStats(handlers, ReadOf), SumStats(handlers, TotalOf));
            r.Some? ==> 0 <= r.value.percentageDone <= 100
  {
    SumStatsAtMost(handlers, ReadOf, TotalOf);
    if SumStats(handlers, TotalOf) > 0 {
      ProgressIsBounded(start, now, SumStats(handlers, ReadOf), SumStats(handlers, TotalOf));
    }
  }

  /** A handler is nil when its backup did not start. */
  datatype Panic = NilHandler

  predicate NoneNil(handlers: map<string, Option<Stats>>) {
    forall n :: n in handlers ==> handlers[n].Some?
  }

  /** The statistics of the handlers that are not nil. */
  function Given(handlers: map<string, Option<Stats>>): map<string, Stats> {
    map n | n in handlers && handlers[n].Some? :: handlers[n].value
  }

  /** What has been added up, and what is still to be added, make up the sums of all handlers. */
  ghost predicate AddsUpTo(handlers: map<string, Option<Stats>>, todo: map<string, Option<Stats>>, done: nat, total: nat) {
    && done + SumStats(Given(todo), ReadOf) == SumStats(Given(handlers), ReadOf)
    && total + SumStats(Given(todo), TotalOf) == SumStats(Given(handlers), TotalOf)
  }

  lemma AddOne(handlers: map<string, Option<Stats>>, todo: map<string, Option<Stats>>, done: nat, total: nat, n: string)
    requires AddsUpTo(handlers, todo, done, total) && n in todo && todo[n].Some?
    ensures AddsUpTo(handlers, todo - {n}, done + todo[n].value.readRecords, total + todo[n].value.totalRecords)
  {
    SumStatsTake(Given(todo), ReadOf, n);
    SumStatsTake(Given(todo), TotalOf, n);
    assert Given(todo - {n}) == Given(todo) - {n};
  }

  /** The sums over all namespaces, whatever the order of the map; a nil handler ends them. */
  method SumHandlers(handlers: map<string, Option<Stats>>) returns (r: Option<(nat, nat)>)
    ensures r.Some? <==> NoneNil(handlers)
    ensures r.Some? ==> AddsUpTo(handlers, map[], r.value.0, r.value.1)
  {
    var done: nat, total: nat, todo := 0, 0, handlers;
    while todo != map[]
      invariant todo.Keys <= handlers.Keys && forall n :: n in todo ==> todo[n] == handlers[n]
      invariant forall n :: n in handlers && n !in todo ==> handlers[n].Some?
      invariant AddsUpTo(handlers, todo, done, total)
      decreases |todo|
    {
      var n :| n in todo;
      if todo[n].None? {
        return None;
      }
      AddOne(handlers, todo, done, total, n);
      done := done + todo[n].value.readRecords;
      total := total + todo[n].value.totalRecords;
      todo := todo - {n};
    }
    r := Some((done, total));
  }

  /** Nothing without handlers, a panic exactly when one of them is nil, and otherwise the namespaces
      taken together, since the start of one of them. */
  method CurrentBackupStatus(handlers: map<string, Option<Stats>>, now: Time) returns (r: Result<Option<RunningJob>, Panic>)
    ensures r.Ok? <==> forall n :: n in handlers ==> handlers[n].Some?
    ensures handlers == map[] ==> r == Ok(None)
    ensures r.Ok? ==> (r.value.Some? <==> handlers != map[] && SumStats(Given(handlers), TotalOf) > 0)
    ensures r.Ok? && r.value.Some? ==>
              exists n :: n in Given(handlers)
                && ReportsProgress(r.value.value, Given(handlers)[n].startTime, now, SumStats(Given(handlers), ReadOf), SumStats(Given(handlers), TotalOf))
    ensures r.Ok? && r.value.Some? ==>
              var p := r.value.value;
              && p.doneRecords == SumStats(Given(handlers), ReadOf) && p.totalRecords == SumStats(Given(handlers), TotalOf)
              && p.percentageDone * p.totalRecords <= 100 * p.doneRecords < (p.percentageDone + 1) * p.totalRecords
  {
    if handlers == map[] {
      return Ok(None);
    }
    var sums := SumHandlers(handlers);
    if sums.None? {
      return Err(NilHandler);
    }
    assert Given(map[]) == map[];
    var n :| n in handlers;
    assert n in Given(handlers);
    NewRunningJobReports(handlers[n].value.startTime, now, sums.value.0, sums.value.1);
    r := Ok(NewRunningJob(handlers[n].value.startTime, now, sums.value.0, sums.value.1));
  }
}
