/**
 The plan runner: a sequential branch, and a pool of worker threads that pop a shared queue from
 its end and push errors to a shared vector.  A worker step is one critical section or one item
 run, so a schedule (the sequence of workers that step) stands for an interleaving.
 Running an item may succeed, fail, or panic; a panic ends its thread and is ignored by the join.
 */
module WorkerPool {
  import opened Sequences

  datatype PlannedRun = PlannedRun(packFile: string, flowId: string)

  datatype Outcome = Done | Failed(error: string) | Panicked

  /** What the caller of the runner sees: `Completed` is the Ok result with the number of failed
      flows that best effort reports, `FirstError` and `FlowsFailed` are the two Err results of the
      sequential and the threaded branch, `Crashed` is a panic that reaches the caller. */
  datatype Verdict =
    | Completed(failedFlows: nat)
    | FirstError(error: string)
    | FlowsFailed(count: nat)
    | Crashed

  type Outcomes = PlannedRun -> Outcome

  function Fails(outcome: Outcomes): PlannedRun -> bool { item => outcome(item).Failed? }

  function ErrorOf(outcome: Outcomes): PlannedRun -> Option<string> {
    item => if outcome(item).Failed? then Some(outcome(item).error) else None
  }

  function ErrorsOf(items: seq<PlannedRun>, outcome: Outcomes): seq<string> {
    Collect(items, ErrorOf(outcome))
  }

  // ----- the sequential branch

  predicate Stops(o: Outcome, bestEffort: bool) {
    o.Panicked? || (o.Failed? && !bestEffort)
  }

  /** The index of the first item that ends a sequential run, or the length of the plan. */
  function StopIndex(plan: seq<PlannedRun>, outcome: Outcomes, bestEffort: bool): (k: nat)
    ensures k <= |plan|
    ensures forall i :: 0 <= i < k ==> !Stops(outcome(plan[i]), bestEffort)
    ensures k < |plan| ==> Stops(outcome(plan[k]), bestEffort)
  {
    if plan == [] || Stops(outcome(plan[0]), bestEffort) then 0
    else
      var k := StopIndex(plan[1..], outcome, bestEffort);
      assert forall i :: 0 < i < |plan| ==> plan[i] == plan[1..][i - 1];
      k + 1
  }

  function SequentialVerdict(plan: seq<PlannedRun>, outcome: Outcomes, bestEffort: bool): Verdict {
    var k := StopIndex(plan, outcome, bestEffort);
    if k == |plan| then Completed(|Filter(plan, Fails(outcome))|)
    else if outcome(plan[k]).Failed? then FirstError(outcome(plan[k]).error)
    else Crashed
  }

  method RunSequential(plan: seq<PlannedRun>, outcome: Outcomes, bestEffort: bool)
    returns (verdict: Verdict, executed: seq<PlannedRun>)
    ensures verdict == SequentialVerdict(plan, outcome, bestEffort)
    ensures var k := StopIndex(plan, outcome, bestEffort);
            executed == if k == |plan| then plan else plan[..k + 1]
  {
    var errors: seq<string> := [];
    executed := [];
    for i := 0 to |plan|
      invariant executed == plan[..i]
      invariant forall j :: 0 <= j < i ==> !Stops(outcome(plan[j]), bestEffort)
      invariant |errors| == |Filter(plan[..i], Fails(outcome))|
      invariant !bestEffort ==> errors == []
    {
      FilterPrefixStep(plan, i, Fails(outcome));
      executed := executed + [plan[i]];
      match outcome(plan[i]) {
        case Done =>
        case Failed(error) =>
          if bestEffort {
            errors := errors + [error];
          } else {
            return FirstError(error), executed;
          }
        case Panicked =>
          return Crashed, executed;
      }
    }
    assert plan[..|plan|] == plan;
    if bestEffort && errors != [] {
      return Completed(|errors|), executed;
    }
    return Completed(0), executed;
  }

  // ----- the threaded branch as a transition system

  datatype Worker =
    | Idle
    | Running(item: PlannedRun)
    | Reporting(item: PlannedRun, error: string)
    | Exited
    | Dead(item: PlannedRun)

  /** `finished` is history: the items whose run returned and was accounted for. */
  datatype Pool = Pool(
    queue: seq<PlannedRun>, workers: seq<Worker>, errors: seq<string>, finished: seq<PlannedRun>)

  predicate Halted(w: Worker) { w.Exited? || w.Dead? }

  ghost predicate Joined(p: Pool) {
    forall i :: 0 <= i < |p.workers| ==> Halted(p.workers[i])
  }

  function Start(plan: seq<PlannedRun>, parallel: nat): Pool {
    Pool(plan, seq(parallel, _ => Idle), [], [])
  }

  function Step(p: Pool, w: nat, outcome: Outcomes): Pool
    requires w < |p.workers| && !Halted(p.workers[w])
  {
    match p.workers[w]
    case Idle =>
      if p.queue == [] then p.(workers := p.workers[w := Exited])
      else
        var last := |p.queue| - 1;
        p.(queue := p.queue[..last], workers := p.workers[w := Running(p.queue[last])])
    case Running(item) => (
      match outcome(item)
      case Done => p.(workers := p.workers[w := Idle], finished := p.finished + [item])
      case Failed(error) => p.(workers := p.workers[w := Reporting(item, error)])
      case Panicked => p.(workers := p.workers[w := Dead(item)]))
    case Reporting(item, error) =>
      p.(workers := p.workers[w := Idle], errors := p.errors + [error], finished := p.finished + [item])
  }

  /** A schedule is possible from `p` when every step picks a live worker. */
  predicate Possible(p: Pool, schedule: seq<nat>, outcome: Outcomes)
    decreases |schedule|
  {
    schedule == [] ||
    (schedule[0] < |p.workers| && !Halted(p.workers[schedule[0]]) &&
     Possible(Step(p, schedule[0], outcome), schedule[1..], outcome))
  }

  function Run(p: Pool, schedule: seq<nat>, outcome: Outcomes): Pool
    requires Possible(p, schedule, outcome)
    decreases |schedule|
  {
    if schedule == [] then p else Run(Step(p, schedule[0], outcome), schedule[1..], outcome)
  }

  function ThreadedVerdict(errors: seq<string>, bestEffort: bool): Verdict {
    if errors == [] then Completed(0)
    else if bestEffort then Completed(|errors|)
    else FlowsFailed(|errors|)
  }

  // ----- what every step keeps

  function Holds(w: Worker, x: PlannedRun): nat {
    if (w.Running? || w.Reporting? || w.Dead?) && w.item == x then 1 else 0
  }

  /** How many workers hold the item `x`. */
  function InFlight(workers: seq<Worker>, x: PlannedRun): nat {
    if workers == [] then 0 else Holds(workers[0], x) + InFlight(workers[1..], x)
  }

  lemma {:induction false} InFlightUpdate(workers: seq<Worker>, w: nat, next: Worker, x: PlannedRun)
    requires w < |workers|
    ensures InFlight(workers[w := next], x) + Holds(workers[w], x) == InFlight(workers, x) + Holds(next, x)
  {
    if w == 0 {
      assert workers[w := next][1..] == workers[1..];
    } else {
      InFlightUpdate(workers[1..], w - 1, next, x);
      assert workers[w := next][1..] == workers[1..][w - 1 := next];
    }
  }

  function Doomed(w: Worker, outcome: Outcomes): nat {
    if w.Dead? || (w.Running? && outcome(w.item).Panicked?) then 1 else 0
  }

  function DoomedCount(workers: seq<Worker>, outcome: Outcomes): (n: nat)
    ensures n <= |workers|
  {
    if workers == [] then 0 else Doomed(workers[0], outcome) + DoomedCount(workers[1..], outcome)
  }

  lemma {:induction false} DoomedUpdate(workers: seq<Worker>, w: nat, x: Worker, outcome: Outcomes)
    requires w < |workers|
    ensures DoomedCount(workers[w := x], outcome) + Doomed(workers[w], outcome)
         == DoomedCount(workers, outcome) + Doomed(x, outcome)
    ensures Doomed(workers[w], outcome) == 0 ==> DoomedCount(workers, outcome) < |workers|
  {
    if w == 0 {
      assert workers[w := x][1..] == workers[1..];
    } else {
      DoomedUpdate(workers[1..], w - 1, x, outcome);
      assert workers[w := x][1..] == workers[1..][w - 1 := x];
    }
  }

  function PanicCount(items: seq<PlannedRun>, outcome: Outcomes): (n: nat)
    ensures n <= |items|
  {
    if items == [] then 0
    else (if outcome(items[0]).Panicked? then 1 else 0) + PanicCount(items[1..], outcome)
  }

  ghost predicate WorkerInv(w: Worker, queue: seq<PlannedRun>, outcome: Outcomes) {
    match w
    case Reporting(item, error) => outcome(item) == Failed(error)
    case Dead(item) => outcome(item).Panicked?
    case Exited => queue == []
    case _ => true
  }

  /** Conservation of `x`: as often as it was popped, it is in flight or finished. */
  ghost predicate Conserved(plan: seq<PlannedRun>, p: Pool, x: PlannedRun) {
    multiset(plan)[x] == multiset(p.queue)[x] + InFlight(p.workers, x) + multiset(p.finished)[x]
  }

  /** The queue is a prefix of the plan; the panicking items popped are held by as many doomed
      workers; the last pop was made while some worker was not doomed; errors follow the
      finished items in order. */
  ghost predicate PoolInv(plan: seq<PlannedRun>, p: Pool, outcome: Outcomes) {
    var n := |p.queue|;
    && n <= |plan|
    && p.queue == plan[..n]
    && PanicCount(plan[n..], outcome) == DoomedCount(p.workers, outcome)
    && (n < |plan| ==> PanicCount(plan[n + 1..], outcome) < |p.workers|)
    && (forall i :: 0 <= i < |p.workers| ==> WorkerInv(p.workers[i], p.queue, outcome))
    && p.errors == ErrorsOf(p.finished, outcome)
    && (forall i :: 0 <= i < |p.finished| ==> !outcome(p.finished[i]).Panicked?)
  }

  lemma {:induction false} IdleHoldsNothing(workers: seq<Worker>, outcome: Outcomes, x: PlannedRun)
    requires forall i :: 0 <= i < |workers| ==> workers[i] == Idle
    ensures InFlight(workers, x) == 0 && DoomedCount(workers, outcome) == 0
  {
    if workers != [] {
      IdleHoldsNothing(workers[1..], outcome, x);
    }
  }

  lemma StartInv(plan: seq<PlannedRun>, parallel: nat, outcome: Outcomes, x: PlannedRun)
    ensures PoolInv(plan, Start(plan, parallel), outcome)
    ensures Conserved(plan, Start(plan, parallel), x)
  {
    assert plan[..|plan|] == plan && plan[|plan|..] == [];
    IdleHoldsNothing(Start(plan, parallel).workers, outcome, x);
  }

  lemma PopKeepsInv(plan: seq<PlannedRun>, p: Pool, w: nat, outcome: Outcomes)
    requires PoolInv(plan, p, outcome)
    requires w < |p.workers| && p.workers[w].Idle? && p.queue != []
    ensures PoolInv(plan, Step(p, w, outcome), outcome)
  {
    var n := |p.queue|;
    DoomedUpdate(p.workers, w, Running(p.queue[n - 1]), outcome);
    assert plan[n - 1..] == [plan[n - 1]] + plan[n..];
    assert plan[n - 1..][1..] == plan[n..];
    assert p.queue[..n - 1] == plan[..n - 1];
  }

  lemma WorkKeepsInv(plan: seq<PlannedRun>, p: Pool, w: nat, outcome: Outcomes)
    requires PoolInv(plan, p, outcome)
    requires w < |p.workers| && (p.workers[w].Running? || p.workers[w].Reporting?)
    ensures PoolInv(plan, Step(p, w, outcome), outcome)
  {
    assert WorkerInv(p.workers[w], p.queue, outcome);
    DoomedUpdate(p.workers, w, Step(p, w, outcome).workers[w], outcome);
    CollectAppend(p.finished, p.workers[w].item, ErrorOf(outcome));
  }

  lemma StepKeepsInv(plan: seq<PlannedRun>, p: Pool, w: nat, outcome: Outcomes)
    requires PoolInv(plan, p, outcome)
    requires w < |p.workers| && !Halted(p.workers[w])
    ensures PoolInv(plan, Step(p, w, outcome), outcome)
  {
    match p.workers[w]
    case Idle =>
      if p.queue == [] {
        DoomedUpdate(p.workers, w, Exited, outcome);
      } else {
        PopKeepsInv(plan, p, w, outcome);
      }
    case _ => WorkKeepsInv(plan, p, w, outcome);
  }

  lemma PopConserves(plan: seq<PlannedRun>, p: Pool, w: nat, outcome: Outcomes, x: PlannedRun)
    requires Conserved(plan, p, x) && w < |p.workers| && p.workers[w].Idle?
    ensures Conserved(plan, Step(p, w, outcome), x)
  {
    var q := Step(p, w, outcome);
    InFlightUpdate(p.workers, w, q.workers[w], x);
    if p.queue != [] {
      var last := |p.queue| - 1;
      assert p.queue == p.queue[..last] + [p.queue[last]];
    }
  }

  lemma WorkConserves(plan: seq<PlannedRun>, p: Pool, w: nat, outcome: Outcomes, x: PlannedRun)
    requires Conserved(plan, p, x)
    requires w < |p.workers| && (p.workers[w].Running? || p.workers[w].Reporting?)
    ensures Conserved(plan, Step(p, w, outcome), x)
  {
    InFlightUpdate(p.workers, w, Step(p, w, outcome).workers[w], x);
    var item := p.workers[w].item;
    assert multiset(p.finished + [item])[x] == multiset(p.finished)[x] + multiset{item}[x];
  }

  lemma StepConserves(plan: seq<PlannedRun>, p: Pool, w: nat, outcome: Outcomes, x: PlannedRun)
    requires Conserved(plan, p, x)
    requires w < |p.workers| && !Halted(p.workers[w])
    ensures Conserved(plan, Step(p, w, outcome), x)
  {
    if p.workers[w].Idle? {
      PopConserves(plan, p, w, outcome, x);
    } else {
      WorkConserves(plan, p, w, outcome, x);
    }
  }

  /** Under every interleaving the invariant holds. */
  lemma {:induction false} RunKeepsInv(plan: seq<PlannedRun>, p: Pool, schedule: seq<nat>, outcome: Outcomes)
    requires PoolInv(plan, p, outcome)
    requires Possible(p, schedule, outcome)
    ensures PoolInv(plan, Run(p, schedule, outcome), outcome)
    decreases |schedule|
  {
    if schedule == [] {
      assert Run(p, schedule, outcome) == p;
    } else {
      var next := Step(p, schedule[0], outcome);
      assert Run(p, schedule, outcome) == Run(next, schedule[1..], outcome);
      StepKeepsInv(plan, p, schedule[0], outcome);
      RunKeepsInv(plan, next, schedule[1..], outcome);
    }
  }

  /** Under every interleaving every item is conserved. */
  lemma {:induction false} RunConserves(
      plan: seq<PlannedRun>, p: Pool, schedule: seq<nat>, outcome: Outcomes, x: PlannedRun)
    requires Conserved(plan, p, x)
    requires Possible(p, schedule, outcome)
    ensures Conserved(plan, Run(p, schedule, outcome), x)
    ensures |Run(p, schedule, outcome).workers| == |p.workers|
    decreases |schedule|
  {
    if schedule != [] {
      StepConserves(plan, p, schedule[0], outcome, x);
      RunConserves(plan, Step(p, schedule[0], outcome), schedule[1..], outcome, x);
    }
  }

  // ----- termination

  function Weight(w: Worker): nat {
    match w
    case Idle => 1
    case Running(_) => 3
    case Reporting(_, _) => 2
    case _ => 0
  }

  function TotalWeight(workers: seq<Worker>): nat {
    if workers == [] then 0 else Weight(workers[0]) + TotalWeight(workers[1..])
  }

  function Measure(p: Pool): nat { 3 * |p.queue| + TotalWeight(p.workers) }

  lemma {:induction false} TotalWeightUpdate(workers: seq<Worker>, w: nat, x: Worker)
    requires w < |workers|
    ensures TotalWeight(workers[w := x]) + Weight(workers[w]) == TotalWeight(workers) + Weight(x)
  {
    if w == 0 {
      assert workers[w := x][1..] == workers[1..];
    } else {
      TotalWeightUpdate(workers[1..], w - 1, x);
      assert workers[w := x][1..] == workers[1..][w - 1 := x];
    }
  }

  lemma StepDecreasesMeasure(p: Pool, w: nat, outcome: Outcomes)
    requires w < |p.workers| && !Halted(p.workers[w])
    ensures Measure(Step(p, w, outcome)) < Measure(p)
  {
    TotalWeightUpdate(p.workers, w, Step(p, w, outcome).workers[w]);
  }

  lemma {:induction false} StartWeight(workers: seq<Worker>)
    requires forall i :: 0 <= i < |workers| ==> workers[i] == Idle
    ensures TotalWeight(workers) == |workers|
  {
    if workers != [] {
      StartWeight(workers[1..]);
    }
  }

  lemma {:induction false} ScheduleWithinMeasure(p: Pool, schedule: seq<nat>, outcome: Outcomes)
    requires Possible(p, schedule, outcome)
    ensures |schedule| + Measure(Run(p, schedule, outcome)) <= Measure(p)
    decreases |schedule|
  {
    if schedule != [] {
      StepDecreasesMeasure(p, schedule[0], outcome);
      ScheduleWithinMeasure(Step(p, schedule[0], outcome), schedule[1..], outcome);
    }
  }

  /** Every interleaving is finite: no schedule takes more than three steps an item and one a worker. */
  lemma EveryRunIsBounded(plan: seq<PlannedRun>, parallel: nat, schedule: seq<nat>, outcome: Outcomes)
    requires Possible(Start(plan, parallel), schedule, outcome)
    ensures |schedule| <= 3 * |plan| + parallel
  {
    ScheduleWithinMeasure(Start(plan, parallel), schedule, outcome);
    StartWeight(Start(plan, parallel).workers);
  }

  // ----- the outcome of a joined run does not depend on the interleaving

  /** `n` items are left behind when `parallel` workers are available: either none is, or the items
      after them panic as often as there are workers and the first of those is such a panic. */
  ghost predicate IsLeftover(plan: seq<PlannedRun>, parallel: nat, outcome: Outcomes, n: nat) {
    && n <= |plan|
    && PanicCount(plan[n..], outcome) <= parallel
    && (n == 0 || PanicCount(plan[n..], outcome) == parallel)
    && (n < |plan| ==> PanicCount(plan[n + 1..], outcome) < parallel)
  }

  lemma {:induction false} PanicCountConcat(a: seq<PlannedRun>, b: seq<PlannedRun>, outcome: Outcomes)
    ensures PanicCount(a + b, outcome) == PanicCount(a, outcome) + PanicCount(b, outcome)
  {
    if a == [] {
      assert a + b == b;
    } else {
      PanicCountConcat(a[1..], b, outcome);
      assert (a + b)[1..] == a[1..] + b;
    }
  }

  lemma LeftoverUnique(plan: seq<PlannedRun>, parallel: nat, outcome: Outcomes, m: nat, n: nat)
    requires IsLeftover(plan, parallel, outcome, m) && IsLeftover(plan, parallel, outcome, n)
    ensures m == n
  {
    if m < n {
      assert plan[m + 1..] == plan[m + 1..n] + plan[n..];
      PanicCountConcat(plan[m + 1..n], plan[n..], outcome);
    } else if n < m {
      assert plan[n + 1..] == plan[n + 1..m] + plan[m..];
      PanicCountConcat(plan[n + 1..m], plan[m..], outcome);
    }
  }

  /** How many items at the front of the plan the pool never runs: read the plan from its end and
      stop at the item whose panic takes the last worker. */
  function Leftover(plan: seq<PlannedRun>, parallel: nat, outcome: Outcomes): nat {
    if parallel == 0 then |plan|
    else if plan == [] then 0
    else
      var last := |plan| - 1;
      Leftover(plan[..last], if outcome(plan[last]).Panicked? then parallel - 1 else parallel, outcome)
  }

  lemma PanicCountDropLast(plan: seq<PlannedRun>, n: nat, outcome: Outcomes)
    requires n < |plan|
    ensures var last := |plan| - 1;
            PanicCount(plan[n..], outcome)
              == PanicCount(plan[..last][n..], outcome) + PanicCount([plan[last]], outcome)
  {
    var last := |plan| - 1;
    assert plan[n..] == plan[..last][n..] + [plan[last]];
    PanicCountConcat(plan[..last][n..], [plan[last]], outcome);
  }

  lemma {:induction false} LeftoverMeaning(plan: seq<PlannedRun>, parallel: nat, outcome: Outcomes)
    ensures IsLeftover(plan, parallel, outcome, Leftover(plan, parallel, outcome))
  {
    if parallel == 0 {
      assert plan[|plan|..] == [];
    } else if plan != [] {
      var last := |plan| - 1;
      var rest := if outcome(plan[last]).Panicked? then parallel - 1 else parallel;
      LeftoverMeaning(plan[..last], rest, outcome);
      var n := Leftover(plan[..last], rest, outcome);
      assert PanicCount([plan[last]], outcome) == parallel - rest;
      PanicCountDropLast(plan, n, outcome);
      if n < last {
        PanicCountDropLast(plan, n + 1, outcome);
      } else {
        assert plan[n + 1..] == [];
      }
    }
  }

  lemma {:induction false} AllDead(workers: seq<Worker>, outcome: Outcomes)
    requires forall i :: 0 <= i < |workers| ==> workers[i].Dead?
    ensures DoomedCount(workers, outcome) == |workers|
  {
    if workers != [] {
      AllDead(workers[1..], outcome);
    }
  }

  lemma {:induction false} HaltedHoldOnlyPanics(
      workers: seq<Worker>, queue: seq<PlannedRun>, outcome: Outcomes, x: PlannedRun)
    requires forall i :: 0 <= i < |workers| ==> Halted(workers[i]) && WorkerInv(workers[i], queue, outcome)
    ensures InFlight(workers, x) > 0 ==> outcome(x).Panicked?
  {
    if workers != [] {
      assert WorkerInv(workers[0], queue, outcome);
      HaltedHoldOnlyPanics(workers[1..], queue, outcome, x);
    }
  }

  function Survives(outcome: Outcomes): PlannedRun -> bool { item => !outcome(item).Panicked? }

  lemma {:induction false} ErrorsOfSurvivors(items: seq<PlannedRun>, outcome: Outcomes)
    ensures ErrorsOf(Filter(items, Survives(outcome)), outcome) == ErrorsOf(items, outcome)
    ensures |ErrorsOf(items, outcome)| == |Filter(items, Fails(outcome))|
  {
    if items != [] {
      ErrorsOfSurvivors(items[1..], outcome);
      if Survives(outcome)(items[0]) {
        assert Filter(items, Survives(outcome))[1..] == Filter(items[1..], Survives(outcome));
      }
    }
  }

  /** The items the pool pops, whatever the interleaving. */
  function Popped(plan: seq<PlannedRun>, parallel: nat, outcome: Outcomes): seq<PlannedRun> {
    LeftoverMeaning(plan, parallel, outcome);
    plan[Leftover(plan, parallel, outcome)..]
  }

  lemma JoinedQueue(plan: seq<PlannedRun>, parallel: nat, p: Pool, outcome: Outcomes)
    requires PoolInv(plan, p, outcome) && Joined(p) && |p.workers| == parallel > 0
    ensures Leftover(plan, parallel, outcome) == |p.queue|
  {
    if p.queue != [] {
      forall i | 0 <= i < |p.workers| ensures p.workers[i].Dead? {
        assert WorkerInv(p.workers[i], p.queue, outcome);
      }
      AllDead(p.workers, outcome);
    }
    LeftoverMeaning(plan, parallel, outcome);
    LeftoverUnique(plan, parallel, outcome, Leftover(plan, parallel, outcome), |p.queue|);
  }

  /**
   Once all workers are joined the result does not depend on the interleaving: the queue holds the
   unpopped front of the plan, every popped item ran exactly once (a panicking one ended its
   worker), and the error vector holds exactly the errors of the popped items that failed.
   */
  lemma JoinedRun(plan: seq<PlannedRun>, parallel: nat, schedule: seq<nat>, outcome: Outcomes)
    requires parallel > 0
    requires Possible(Start(plan, parallel), schedule, outcome)
    requires Joined(Run(Start(plan, parallel), schedule, outcome))
    ensures var p := Run(Start(plan, parallel), schedule, outcome);
            var popped := Popped(plan, parallel, outcome);
            && p.queue + popped == plan
            && multiset(p.finished) == multiset(Filter(popped, Survives(outcome)))
            && (forall x :: InFlight(p.workers, x) == if outcome(x).Panicked? then multiset(popped)[x] else 0)
            && multiset(p.errors) == multiset(ErrorsOf(popped, outcome))
            && |p.errors| == |Filter(popped, Fails(outcome))|
  {
    var p := Run(Start(plan, parallel), schedule, outcome);
    var popped := Popped(plan, parallel, outcome);
    JoinedPlan(plan, parallel, schedule, outcome);
    forall x
      ensures InFlight(p.workers, x) == if outcome(x).Panicked? then multiset(popped)[x] else 0
      ensures multiset(p.finished)[x] == multiset(Filter(popped, Survives(outcome)))[x]
    {
      JoinedItem(plan, parallel, schedule, outcome, x);
    }
    JoinedErrors(p, popped, outcome);
  }

  lemma JoinedPlan(plan: seq<PlannedRun>, parallel: nat, schedule: seq<nat>, outcome: Outcomes)
    requires parallel > 0 && Possible(Start(plan, parallel), schedule, outcome)
    requires Joined(Run(Start(plan, parallel), schedule, outcome))
    ensures var p := Run(Start(plan, parallel), schedule, outcome);
            p.queue + Popped(plan, parallel, outcome) == plan && p.errors == ErrorsOf(p.finished, outcome)
  {
    var p := Run(Start(plan, parallel), schedule, outcome);
    StartInv(plan, parallel, outcome, PlannedRun("", ""));
    RunKeepsInv(plan, Start(plan, parallel), schedule, outcome);
    RunConserves(plan, Start(plan, parallel), schedule, outcome, PlannedRun("", ""));
    JoinedQueue(plan, parallel, p, outcome);
    assert plan == p.queue + Popped(plan, parallel, outcome);
  }

  lemma JoinedItem(plan: seq<PlannedRun>, parallel: nat, schedule: seq<nat>, outcome: Outcomes, x: PlannedRun)
    requires parallel > 0 && Possible(Start(plan, parallel), schedule, outcome)
    requires Joined(Run(Start(plan, parallel), schedule, outcome))
    ensures var p, popped := Run(Start(plan, parallel), schedule, outcome), Popped(plan, parallel, outcome);
            && InFlight(p.workers, x) == (if outcome(x).Panicked? then multiset(popped)[x] else 0)
            && multiset(p.finished)[x] == multiset(Filter(popped, Survives(outcome)))[x]
  {
    var p, popped := Run(Start(plan, parallel), schedule, outcome), Popped(plan, parallel, outcome);
    StartInv(plan, parallel, outcome, x);
    RunKeepsInv(plan, Start(plan, parallel), schedule, outcome);
    RunConserves(plan, Start(plan, parallel), schedule, outcome, x);
    JoinedPlan(plan, parallel, schedule, outcome);
    assert multiset(plan)[x] == multiset(p.queue)[x] + multiset(popped)[x];
    HaltedHoldOnlyPanics(p.workers, p.queue, outcome, x);
    FilterCount(popped, Survives(outcome), x);
    if outcome(x).Panicked? {
      assert x !in p.finished;
    }
  }

  lemma {:induction false} JoinedErrors(p: Pool, popped: seq<PlannedRun>, outcome: Outcomes)
    requires p.errors == ErrorsOf(p.finished, outcome)
    requires multiset(p.finished) == multiset(Filter(popped, Survives(outcome)))
    ensures multiset(p.errors) == multiset(ErrorsOf(popped, outcome))
    ensures |p.errors| == |Filter(popped, Fails(outcome))|
  {
    CollectRearranged(p.finished, Filter(popped, Survives(outcome)), ErrorOf(outcome));
    ErrorsOfSurvivors(popped, outcome);
    assert |multiset(p.errors)| == |multiset(ErrorsOf(popped, outcome))|;
  }

  /** The pool leaves nothing behind exactly when fewer items panic than there are workers, or the
      last worker is lost on the very first item of the plan. */
  lemma {:induction false} NothingLeftBehindIff(plan: seq<PlannedRun>, parallel: nat, outcome: Outcomes)
    requires parallel > 0
    ensures Popped(plan, parallel, outcome) == plan <==>
            PanicCount(plan, outcome) < parallel
            || (plan != [] && outcome(plan[0]).Panicked? && PanicCount(plan, outcome) == parallel)
  {
    LeftoverMeaning(plan, parallel, outcome);
    var n := Leftover(plan, parallel, outcome);
    assert plan == plan[..n] + plan[n..];
    PanicCountConcat(plan[..n], plan[n..], outcome);
    assert n == |plan| ==> plan[n..] == [];
    assert plan != [] ==> plan == [plan[0]] + plan[1..];
    if n > 0 {
      assert |plan[n..]| < |plan|;
      assert plan[..n] == [plan[0]] + plan[1..n];
      PanicCountConcat([plan[0]], plan[1..n], outcome);
    }
  }

  /** The verdict of the threaded branch, whatever the interleaving. */
  function ParallelVerdict(plan: seq<PlannedRun>, parallel: nat, outcome: Outcomes, bestEffort: bool): Verdict {
    var failures := |Filter(Popped(plan, parallel, outcome), Fails(outcome))|;
    if failures == 0 then Completed(0)
    else if bestEffort then Completed(failures)
    else FlowsFailed(failures)
  }

  lemma JoinedVerdict(plan: seq<PlannedRun>, parallel: nat, schedule: seq<nat>, outcome: Outcomes, bestEffort: bool)
    requires parallel > 0
    requires Possible(Start(plan, parallel), schedule, outcome)
    requires Joined(Run(Start(plan, parallel), schedule, outcome))
    ensures ThreadedVerdict(Run(Start(plan, parallel), schedule, outcome).errors, bestEffort)
         == ParallelVerdict(plan, parallel, outcome, bestEffort)
  {
    JoinedRun(plan, parallel, schedule, outcome);
  }

  // ----- agreement of the two branches

  predicate IsErr(v: Verdict) { v.FirstError? || v.FlowsFailed? }

  /** Both Err, or both Ok with the same reported number of failed flows. */
  predicate Agree(a: Verdict, b: Verdict) {
    (IsErr(a) && IsErr(b)) || (a.Completed? && a == b)
  }

  lemma {:induction false} NoPanics(items: seq<PlannedRun>, outcome: Outcomes)
    requires forall i :: 0 <= i < |items| ==> !outcome(items[i]).Panicked?
    ensures PanicCount(items, outcome) == 0
  {
    if items != [] {
      NoPanics(items[1..], outcome);
    }
  }

  /** Exactly when the two branches agree: the sequential run does not crash on a panic, and if it
      stops at a failure then some failing item lies in the part of the plan the pool reaches. */
  lemma BranchesAgreeIff(plan: seq<PlannedRun>, parallel: nat, outcome: Outcomes, bestEffort: bool)
    requires parallel > 0
    ensures Agree(SequentialVerdict(plan, outcome, bestEffort), ParallelVerdict(plan, parallel, outcome, bestEffort))
       <==> var k := StopIndex(plan, outcome, bestEffort);
            k == |plan| ||
            (outcome(plan[k]).Failed? && exists x :: x in Popped(plan, parallel, outcome) && outcome(x).Failed?)
  {
    var k := StopIndex(plan, outcome, bestEffort);
    var popped := Popped(plan, parallel, outcome);
    FilterMembers(popped, Fails(outcome));
    if k == |plan| {
      NoPanics(plan, outcome);
      NothingLeftBehindIff(plan, parallel, outcome);
      if !bestEffort {
        FilterNone(plan, Fails(outcome));
      }
    } else if outcome(plan[k]).Failed? {
      var failing := Filter(popped, Fails(outcome));
      if failing != [] {
        assert failing[0] in failing;
      }
    }
  }

  /** Two workers lost to the last two items leave the failing first one behind: the sequential branch
      reports its error, the threaded branch reports success. */
  lemma BranchesCanDiffer(a: PlannedRun, b: PlannedRun, c: PlannedRun, outcome: Outcomes, error: string)
    requires outcome(a) == Failed(error) && outcome(b) == Panicked && outcome(c) == Panicked
    ensures SequentialVerdict([a, b, c], outcome, false) == FirstError(error)
    ensures ParallelVerdict([a, b, c], 2, outcome, false) == Completed(0)
  {
    var plan, two, one := [a, b, c], [a, b], [a];
    assert plan[..2] == two && two[..1] == one;
    assert Leftover(two, 1, outcome) == Leftover(one, 0, outcome) == 1;
    assert Leftover(plan, 2, outcome) == Leftover(two, 1, outcome);
    var popped, last := [b, c], [c];
    assert plan[1..] == popped && popped[1..] == last && last[1..] == [];
    assert Filter(popped, Fails(outcome)) == Filter(last, Fails(outcome)) == [];
  }

  /** With fewer panicking items than workers the branches differ only when the sequential one crashes. */
  lemma BranchesAgreeWhenPanicsAreFew(plan: seq<PlannedRun>, parallel: nat, outcome: Outcomes, bestEffort: bool)
    requires PanicCount(plan, outcome) < parallel
    ensures Agree(SequentialVerdict(plan, outcome, bestEffort), ParallelVerdict(plan, parallel, outcome, bestEffort))
       <==> !SequentialVerdict(plan, outcome, bestEffort).Crashed?
  {
    BranchesAgreeIff(plan, parallel, outcome, bestEffort);
    NothingLeftBehindIff(plan, parallel, outcome);
    var k := StopIndex(plan, outcome, bestEffort);
    if k < |plan| {
      assert plan[k] in plan;
    }
  }

  // ----- the runner itself

  function RunPlanVerdict(plan: seq<PlannedRun>, parallel: nat, outcome: Outcomes, bestEffort: bool): Verdict {
    if parallel <= 1 then SequentialVerdict(plan, outcome, bestEffort)
    else ParallelVerdict(plan, parallel, outcome, bestEffort)
  }

  /** The runner with an arbitrary scheduler: it terminates and its verdict is determined. */
  method RunPlan(plan: seq<PlannedRun>, parallel: nat, outcome: Outcomes, bestEffort: bool)
    returns (verdict: Verdict)
    ensures verdict == RunPlanVerdict(plan, parallel, outcome, bestEffort)
  {
    if parallel <= 1 {
      var v, _ := RunSequential(plan, outcome, bestEffort);
      return v;
    }
    var queue, errors := plan, [];
    var workers := seq(parallel, _ => Idle);
    ghost var finished: seq<PlannedRun> := [];
    ghost var schedule: seq<nat> := [];
    ghost var start := Start(plan, parallel);
    while exists w :: 0 <= w < |workers| && !Halted(workers[w])
      invariant Possible(start, schedule, outcome)
      invariant Run(start, schedule, outcome) == Pool(queue, workers, errors, finished)
      decreases Measure(Pool(queue, workers, errors, finished))
    {
      var w :| 0 <= w < |workers| && !Halted(workers[w]);
      ghost var p := Pool(queue, workers, errors, finished);
      RunExtend(start, schedule, w, outcome);
      StepDecreasesMeasure(p, w, outcome);
      match workers[w] {
        case Idle =>
          if queue == [] {
            workers := workers[w := Exited];
          } else {
            var item := queue[|queue| - 1];
            queue := queue[..|queue| - 1];
            workers := workers[w := Running(item)];
          }
        case Running(item) =>
          match outcome(item) {
            case Done =>
              workers := workers[w := Idle];
              finished := finished + [item];
            case Failed(error) =>
              workers := workers[w := Reporting(item, error)];
            case Panicked =>
              workers := workers[w := Dead(item)];
          }
        case Reporting(item, error) =>
          errors := errors + [error];
          finished := finished + [item];
          workers := workers[w := Idle];
      }
      schedule := schedule + [w];
    }
    JoinedVerdict(plan, parallel, schedule, outcome, bestEffort);
    if errors == [] {
      return Completed(0);
    }
    if bestEffort {
      return Completed(|errors|);
    }
    return FlowsFailed(|errors|);
  }

  lemma {:induction false} RunExtend(p: Pool, schedule: seq<nat>, w: nat, outcome: Outcomes)
    requires Possible(p, schedule, outcome)
    requires var q := Run(p, schedule, outcome); w < |q.workers| && !Halted(q.workers[w])
    ensures Possible(p, schedule + [w], outcome)
    ensures Run(p, schedule + [w], outcome) == Step(Run(p, schedule, outcome), w, outcome)
    decreases |schedule|
  {
    if schedule == [] {
      assert schedule + [w] == [w] && [w][1..] == [];
    } else {
      RunExtend(Step(p, schedule[0], outcome), schedule[1..], w, outcome);
      assert (schedule + [w])[1..] == schedule[1..] + [w];
    }
  }
}
