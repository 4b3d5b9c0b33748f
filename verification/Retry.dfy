/** The retry service of one routine as a state machine, as in pkg/service/retry_service.go.

    Calls, timer callbacks and the scheduler may interleave in any way: a goroutine that has
    been started waits for the mutex, and stopping a timer that has already fired does not
    call its goroutine back. */
module Retry {
  import opened Wrappers

  const MIN_INT32: int := -0x8000_0000
  const MAX_INT32: int := 0x7fff_ffff

  /** 32-bit subtraction of one. */
  function Dec(n: int): int {
    if n == MIN_INT32 then MAX_INT32 else n - 1
  }

  /** The number of decrements, by 32-bit subtraction, that take `n` to zero: its value read without sign. */
  function Budget(n: int): int {
    if n < 0 then n + 0x1_0000_0000 else n
  }

  /** A pending or running execution of the function given to call `call`, with `n` retries left. */
  datatype Job = Job(call: nat, n: int)

  datatype State = State(
    // the service
    locked: bool,
    timer: Option<nat>,
    // its environment
    waiting: map<nat, Job>,  // goroutines at the mutex
    inside: map<nat, Job>,   // goroutines running the function
    unfired: map<nat, Job>,  // timers that have neither fired nor been stopped
    // history of the run
    timers: set<nat>,        // all timers ever created
    calls: map<nat, int>,    // retry budget of each call
    ran: map<nat, nat>,      // executions per call
    succeeded: set<nat>)     // calls whose function has succeeded

  datatype Step =
    | Call(g: nat, call: nat, n: int)
    | Enter(g: nat)
    | Succeed(g: nat)
    | GiveUp(g: nat)
    | Schedule(g: nat, timer: nat)
    | Fire(timer: nat, g: nat)

  function Init(): State {
    State(false, None, map[], map[], map[], {}, map[], map[], {})
  }

  predicate Fresh(s: State, g: nat) {
    g !in s.waiting && g !in s.inside
  }

  predicate Enabled(s: State, step: Step) {
    match step
    case Call(g, call, n) => Fresh(s, g) && call !in s.calls && Int32(n)
    case Enter(g) => g in s.waiting && !s.locked
    case Succeed(g) => g in s.inside
    case GiveUp(g) => g in s.inside && s.inside[g].n == 0
    case Schedule(g, timer) => g in s.inside && s.inside[g].n != 0 && timer !in s.timers
    case Fire(timer, g) => timer in s.unfired && Fresh(s, g)
  }

  /** Stops the current timer, if there is one that has not fired. */
  function ClearTimer(s: State): State {
    if s.timer.Some? then s.(unfired := s.unfired - {s.timer.value}) else s
  }

  function Apply(s: State, step: Step): State
    requires Enabled(s, step)
  {
    match step
    case Call(g, call, n) =>
      s.(waiting := s.waiting[g := Job(call, n)], calls := s.calls[call := n])
    case Enter(g) =>
      var job := s.waiting[g];
      ClearTimer(s.(locked := true, waiting := s.waiting - {g}, inside := s.inside[g := job],
                    ran := s.ran[job.call := Runs(s, job.call) + 1]))
    case Succeed(g) => s.(locked := false, inside := s.inside - {g}, succeeded := s.succeeded + {s.inside[g].call})
    case GiveUp(g) => s.(locked := false, inside := s.inside - {g})
    case Schedule(g, timer) =>
      var job := s.inside[g];
      s.(locked := false, inside := s.inside - {g}, timer := Some(timer), timers := s.timers + {timer},
         unfired := s.unfired[timer := Job(job.call, Dec(job.n))])
    case Fire(timer, g) => s.(unfired := s.unfired - {timer}, waiting := s.waiting[g := s.unfired[timer]])
  }

  /** The state after the steps in order, if each of them can happen. */
  function Run(steps: seq<Step>): Option<State> {
    if steps == [] then Some(Init())
    else
      var n := |steps| - 1;
      match Run(steps[..n])
      case None => None
      case Some(s) => if Enabled(s, steps[n]) then Some(Apply(s, steps[n])) else None
  }

  /** The mutex is held by the one goroutine that runs the function; meanwhile no timer is armed,
      and otherwise only the current timer can be. */
  ghost predicate Serialized(s: State) {
    && (s.locked <==> s.inside != map[])
    && (forall a, b :: a in s.inside && b in s.inside ==> a == b)
    && (s.inside != map[] ==> s.unfired == map[])
    && (forall t :: t in s.unfired ==> s.timer == Some(t))
    && (forall t :: t in s.unfired ==> t in s.timers)
  }

  /** No call has more than one execution pending or running. */
  ghost predicate Single(s: State) {
    && (forall a, b :: a in s.waiting && b in s.waiting && s.waiting[a].call == s.waiting[b].call ==> a == b)
    && (forall a, b :: a in s.waiting && b in s.inside ==> s.waiting[a].call != s.inside[b].call)
    && (forall a, t :: a in s.waiting && t in s.unfired ==> s.waiting[a].call != s.unfired[t].call)
    && Disjoint(s)
  }

  /** A call that has succeeded is not pending. */
  ghost predicate Disjoint(s: State) {
    && (forall a :: a in s.waiting ==> s.waiting[a].call in s.calls && s.waiting[a].call !in s.succeeded)
    && (forall a :: a in s.inside ==> s.inside[a].call in s.calls && s.inside[a].call !in s.succeeded)
    && (forall t :: t in s.unfired ==> s.unfired[t].call in s.calls && s.unfired[t].call !in s.succeeded)
    && s.succeeded <= s.calls.Keys
  }

  /** How often the function of a call has been executed. */
  function Runs(s: State, call: nat): nat {
    if call in s.ran then s.ran[call] else 0
  }

  predicate Int32(n: int) {
    MIN_INT32 <= n <= MAX_INT32
  }

  /** Executions and remaining retries add up to the budget of the call. */
  predicate AddsUp(s: State, job: Job, current: nat) {
    job.call in s.calls && Int32(job.n) && Runs(s, job.call) + Budget(job.n) == Budget(s.calls[job.call]) + current
  }

  ghost predicate PendingAddUp(s: State) {
    && (forall a :: a in s.waiting ==> AddsUp(s, s.waiting[a], 0))
    && (forall a :: a in s.inside ==> AddsUp(s, s.inside[a], 1))
    && (forall t :: t in s.unfired ==> AddsUp(s, s.unfired[t], 0))
  }

  ghost predicate Bounded(s: State) {
    && (forall call :: call in s.calls ==> Int32(s.calls[call]) && Runs(s, call) <= Budget(s.calls[call]) + 1)
    && (forall call :: call in s.ran ==> call in s.calls)
  }

  ghost predicate Budgeted(s: State) {
    PendingAddUp(s) && Bounded(s)
  }

  ghost predicate Inv(s: State) {
    Serialized(s) && Single(s) && Budgeted(s)
  }

  lemma SerializedStep(s: State, step: Step)
    requires Serialized(s) && Enabled(s, step)
    ensures Serialized(Apply(s, step))
  {
  }

  lemma SingleStep(s: State, step: Step)
    requires Serialized(s) && Single(s) && Enabled(s, step)
    ensures Single(Apply(s, step))
  {
  }

  lemma PendingEnter(s: State, g: nat)
    requires Single(s) && PendingAddUp(s) && Enabled(s, Enter(g))
    ensures PendingAddUp(Apply(s, Enter(g)))
  {
    var t := Apply(s, Enter(g));
    var call := s.waiting[g].call;
    assert t.calls == s.calls && t.ran == s.ran[call := Runs(s, call) + 1];
    assert AddsUp(s, s.waiting[g], 0);
    forall a | a in t.waiting
      ensures AddsUp(t, t.waiting[a], 0)
    {
      assert AddsUp(s, s.waiting[a], 0) && s.waiting[a].call != call;
    }
    forall a | a in t.inside && a != g
      ensures AddsUp(t, t.inside[a], 1)
    {
      assert AddsUp(s, s.inside[a], 1) && s.inside[a].call != call;
    }
    forall x | x in t.unfired
      ensures AddsUp(t, t.unfired[x], 0)
    {
      assert AddsUp(s, s.unfired[x], 0) && s.unfired[x].call != call;
    }
  }

  lemma BudgetedEnter(s: State, g: nat)
    requires Single(s) && Budgeted(s) && Enabled(s, Enter(g))
    ensures Budgeted(Apply(s, Enter(g)))
  {
    PendingEnter(s, g);
    assert AddsUp(s, s.waiting[g], 0);
    assert forall x :: x != s.waiting[g].call ==> Runs(Apply(s, Enter(g)), x) == Runs(s, x);
  }

  lemma BudgetedLeave(s: State, step: Step)
    requires Budgeted(s) && (step.Succeed? || step.GiveUp?) && Enabled(s, step)
    ensures Budgeted(Apply(s, step))
  {
    var t := Apply(s, step);
    assert t.calls == s.calls && t.ran == s.ran;
    assert forall job, k :: AddsUp(t, job, k) == AddsUp(s, job, k);
  }

  lemma BudgetedSchedule(s: State, g: nat, timer: nat)
    requires Budgeted(s) && Enabled(s, Schedule(g, timer))
    ensures Budgeted(Apply(s, Schedule(g, timer)))
  {
    assert AddsUp(s, s.inside[g], 1);
  }

  lemma BudgetedCall(s: State, g: nat, call: nat, n: int)
    requires Single(s) && Budgeted(s) && Enabled(s, Call(g, call, n))
    ensures Budgeted(Apply(s, Call(g, call, n)))
  {
    var t := Apply(s, Call(g, call, n));
    assert Runs(s, call) == 0 && t.ran == s.ran;
    assert forall job: Job, k :: job.call in s.calls ==> AddsUp(t, job, k) == AddsUp(s, job, k);
  }

  lemma BudgetedFire(s: State, timer: nat, g: nat)
    requires Budgeted(s) && Enabled(s, Fire(timer, g))
    ensures Budgeted(Apply(s, Fire(timer, g)))
  {
    assert AddsUp(s, s.unfired[timer], 0);
  }

  lemma BudgetedStep(s: State, step: Step)
    requires Single(s) && Budgeted(s) && Enabled(s, step)
    ensures Budgeted(Apply(s, step))
  {
    match step
    case Call(g, call, n) => BudgetedCall(s, g, call, n);
    case Enter(g) => BudgetedEnter(s, g);
    case Schedule(g, timer) => BudgetedSchedule(s, g, timer);
    case Fire(timer, g) => BudgetedFire(s, timer, g);
    case Succeed(g) => BudgetedLeave(s, step);
    case GiveUp(g) => BudgetedLeave(s, step);
  }

  lemma InvStep(s: State, step: Step)
    requires Inv(s) && Enabled(s, step)
    ensures Inv(Apply(s, step))
  {
    SerializedStep(s, step);
    SingleStep(s, step);
    BudgetedStep(s, step);
  }

  /** Every reachable state satisfies the invariant. */
  lemma {:induction false} RunInv(steps: seq<Step>, s: State)
    requires Run(steps) == Some(s)
    ensures Inv(s)
  {
    if steps != [] {
      var n := |steps| - 1;
      var prev := Run(steps[..n]).value;
      RunInv(steps[..n], prev);
      InvStep(prev, steps[n]);
    }
  }

  lemma AtMostOne<V>(m: map<nat, V>)
    requires forall a, b :: a in m && b in m ==> a == b
    ensures |m| <= 1
  {
    if g :| g in m {
      assert m.Keys == {g};
      assert |m.Keys| == |m|;
    }
  }

  /** Over any interleaving: executions never overlap, at most one timer is armed, and a call
      executes its function at most once more than its budget, which is n for n >= 0. */
  lemma RetryBound(steps: seq<Step>, s: State)
    requires Run(steps) == Some(s)
    ensures |s.inside| <= 1 && |s.unfired| <= 1
    ensures forall call :: call in s.calls ==> Runs(s, call) <= Budget(s.calls[call]) + 1
  {
    RunInv(steps, s);
    AtMostOne(s.inside);
    AtMostOne(s.unfired);
  }

  lemma SucceededStays(s: State, step: Step, call: nat)
    requires Disjoint(s) && Enabled(s, step) && call in s.succeeded
    ensures call in Apply(s, step).succeeded && Runs(Apply(s, step), call) == Runs(s, call)
  {
  }

  /** After its first success a call is never executed again, whatever happens later. */
  lemma {:induction false} StopsAtFirstSuccess(steps: seq<Step>, k: nat, early: State, s: State, call: nat)
    requires k <= |steps| && Run(steps[..k]) == Some(early) && Run(steps) == Some(s) && call in early.succeeded
    ensures call in s.succeeded && Runs(s, call) == Runs(early, call)
  {
    if k == |steps| {
      assert steps[..k] == steps;
    } else {
      var n := |steps| - 1;
      assert steps[..n][..k] == steps[..k];
      var prev := Run(steps[..n]).value;
      StopsAtFirstSuccess(steps[..n], k, early, prev, call);
      RunInv(steps[..n], prev);
      SucceededStays(prev, steps[n], call);
    }
  }

  /** However a run goes on after the function of a call has succeeded, it does not execute that call again. */
  lemma {:induction false} NoRetryAfterSuccess(steps: seq<Step>, k: nat, before: State, s: State, g: nat)
    requires k < |steps| && Run(steps[..k]) == Some(before) && steps[k] == Succeed(g) && Run(steps) == Some(s) && g in before.inside
    ensures Runs(s, before.inside[g].call) == Runs(before, before.inside[g].call)
  {
    assert steps[..k + 1][..k] == steps[..k];
    RunPrefix(steps, k + 1);
    StopsAtFirstSuccess(steps, k + 1, Apply(before, Succeed(g)), s, before.inside[g].call);
  }

  /** Every prefix of a run is a run. */
  lemma {:induction false} RunPrefix(steps: seq<Step>, k: nat)
    requires k <= |steps| && Run(steps).Some?
    ensures Run(steps[..k]).Some?
  {
    if k == |steps| {
      assert steps[..k] == steps;
    } else {
      var n := |steps| - 1;
      RunPrefix(steps[..n], k);
      assert steps[..n][..k] == steps[..k];
    }
  }

  /** A failed execution arms a timer with one retry less as long as the call has not used up its budget,
      and gives up otherwise. */
  lemma FailureOutcome(steps: seq<Step>, s: State, g: nat, timer: nat)
    requires Run(steps) == Some(s) && g in s.inside && timer !in s.timers
    ensures var call := s.inside[g].call;
            && call in s.calls
            && (Enabled(s, GiveUp(g)) <==> Runs(s, call) == Budget(s.calls[call]) + 1)
            && (Enabled(s, Schedule(g, timer)) <==> Runs(s, call) <= Budget(s.calls[call]))
            && (Enabled(s, Schedule(g, timer)) ==>
                  var t := Apply(s, Schedule(g, timer));
                  t.timer == Some(timer) && timer in t.unfired && t.unfired[timer].call == call
                  && Runs(t, call) + Budget(t.unfired[timer].n) == Budget(t.calls[call]))
  {
    RunInv(steps, s);
    assert AddsUp(s, s.inside[g], 1);
  }

  // ----- the bound is reached -----

  /** A call with `n` whose function has failed `k` times, with its timer armed again. */
  ghost predicate Failed(s: State, n: int, k: nat) {
    && !s.locked && s.waiting == map[] && s.inside == map[] && s.calls == map[0 := n] && Runs(s, 0) == k
    && exists t :: s.timer == Some(t) && s.unfired.Keys == {t} && s.unfired[t].call == 0
                   && Int32(s.unfired[t].n) && Budget(s.unfired[t].n) == Budget(n) - k
  }

  /** A timer that was never created. */
  lemma NewTimer(timers: set<nat>) returns (t: nat)
    ensures t !in timers
  {
    t := 0;
    var below: set<nat> := {};
    while t in timers
      invariant below <= timers && forall x :: x in below ==> x < t
      decreases |timers - below|
    {
      assert t in timers - below;
      below := below + {t};
      t := t + 1;
    }
  }

  lemma Snoc(steps: seq<Step>, s: State, step: Step)
    requires Run(steps) == Some(s) && Enabled(s, step)
    ensures Run(steps + [step]) == Some(Apply(s, step))
  {
    assert (steps + [step])[..|steps|] == steps;
  }

  /** The pending execution of the only call runs, fails and arms a timer. */
  lemma FailOnce(steps: seq<Step>, s: State, n: int, job: Job, k: nat) returns (more: seq<Step>, t: State)
    requires Run(steps) == Some(s) && !s.locked && s.waiting == map[0 := job] && s.inside == map[] && s.unfired == map[]
    requires s.calls == map[0 := n] && Runs(s, 0) == k && job.call == 0
    requires Int32(job.n) && job.n != 0 && Budget(job.n) == Budget(n) - k
    ensures Run(more) == Some(t) && Failed(t, n, k + 1)
  {
    var entered := Apply(s, Enter(0));
    Snoc(steps, s, Enter(0));
    assert entered.waiting == map[] && entered.inside == map[0 := job] && entered.unfired == map[];
    var x := NewTimer(entered.timers);
    Snoc(steps + [Enter(0)], entered, Schedule(0, x));
    more, t := steps + [Enter(0)] + [Schedule(0, x)], Apply(entered, Schedule(0, x));
    assert t.unfired == map[x := Job(0, Dec(job.n))] && t.inside == map[];
  }

  /** For every k up to the budget some run executes the function k times, all of them failing. */
  lemma {:induction false} FailsOnAndOn(n: int, k: nat) returns (steps: seq<Step>, s: State)
    requires Int32(n) && 0 < k <= Budget(n)
    ensures Run(steps) == Some(s) && Failed(s, n, k)
    decreases k
  {
    if k == 1 {
      var called := Apply(Init(), Call(0, 0, n));
      Snoc([], Init(), Call(0, 0, n));
      steps, s := FailOnce([] + [Call(0, 0, n)], called, n, Job(0, n), 0);
    } else {
      steps, s := FailsOnAndOn(n, k - 1);
      var x := s.timer.value;
      var fired := Apply(s, Fire(x, 0));
      Snoc(steps, s, Fire(x, 0));
      assert fired.unfired == map[];
      steps, s := FailOnce(steps + [Fire(x, 0)], fired, n, s.unfired[x], k - 1);
    }
  }

  /** The bound of RetryBound is reached: a call whose function always fails executes it once more
      than its budget. With n < 0 that is n + 2^32 + 1 times. */
  lemma BudgetIsReached(n: int) returns (steps: seq<Step>, s: State)
    requires Int32(n)
    ensures Run(steps) == Some(s) && s.calls == map[0 := n] && Runs(s, 0) == Budget(n) + 1
  {
    if n == 0 {
      var called := Apply(Init(), Call(0, 0, n));
      Snoc([], Init(), Call(0, 0, n));
      Snoc([] + [Call(0, 0, n)], called, Enter(0));
      return [] + [Call(0, 0, n)] + [Enter(0)], Apply(called, Enter(0));
    }
    steps, s := FailsOnAndOn(n, Budget(n));
    var x := s.timer.value;
    var fired := Apply(s, Fire(x, 0));
    Snoc(steps, s, Fire(x, 0));
    Snoc(steps + [Fire(x, 0)], fired, Enter(0));
    steps, s := steps + [Fire(x, 0)] + [Enter(0)], Apply(fired, Enter(0));
  }

  /** No run executes a call more than n + 1 times. */
  ghost predicate AtMostNPlusOne(n: int) {
    forall steps, s, call :: Run(steps) == Some(s) && call in s.calls && s.calls[call] == n ==> Runs(s, call) <= n + 1
  }

  /** A call with n retries is executed at most n + 1 times exactly when n is not negative; a
      negative one goes on for billions of executions, until the subtraction has wrapped around
      and come down to zero. */
  lemma BoundedIffNotNegative(n: int)
    requires Int32(n)
    ensures AtMostNPlusOne(n) <==> n >= 0
  {
    if n >= 0 {
      forall steps, s, call | Run(steps) == Some(s) && call in s.calls && s.calls[call] == n
        ensures Runs(s, call) <= n + 1
      {
        RetryBound(steps, s);
      }
    } else {
      var steps, s := BudgetIsReached(n);
      assert 0 in s.calls && Runs(s, 0) > n + 1;
    }
  }

  // ----- the budget of a routine's full backup -----

  const DEFAULT_MAX_RETRIES: int := 3

  function MaxRetriesOrDefault(maxRetries: Option<int>): int {
    if maxRetries.Some? then maxRetries.value else DEFAULT_MAX_RETRIES
  }

  /** The check of a policy's validation on its retry limit. */
  predicate ValidMaxRetries(maxRetries: Option<int>) {
    !(maxRetries.Some? && maxRetries.value < 0)
  }

  /** A policy is valid exactly when its retry limit, if it has one, is not negative; it then bounds the
      attempts of every full backup, by default to four. */
  lemma ValidPolicyBoundsAttempts(steps: seq<Step>, s: State, maxRetries: Option<int>, call: nat)
    requires Run(steps) == Some(s) && call in s.calls && s.calls[call] == MaxRetriesOrDefault(maxRetries)
    ensures ValidMaxRetries(maxRetries) <==> maxRetries.None? || maxRetries.value >= 0
    ensures maxRetries.None? ==> Runs(s, call) <= 4
    ensures maxRetries.Some? && maxRetries.value >= 0 ==> Runs(s, call) <= maxRetries.value + 1
  {
    RetryBound(steps, s);
  }
}
