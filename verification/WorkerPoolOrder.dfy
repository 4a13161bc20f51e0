/** First in, first out: in what order the pool takes tests and collects results. */
module WorkerPoolOrder {
  import opened WorkerPool
  import S = Sequences

  /** What is put in the input queue as number `m`: all tests in order, then poison. */
  function TagAt(plan: Plan, m: nat): Tag {
    if m < |plan.skips| then Test(m) else Poison
  }

  /** How many jobs the first `i` steps take from the input queue. */
  function Taken(steps: seq<Step>, i: nat): nat
    requires i <= |steps|
  {
    if i == 0 then 0 else Taken(steps, i - 1) + if steps[i - 1].Get? then 1 else 0
  }

  predicate QueueIs(plan: Plan, s: State, taken: nat) {
    && |s.inQueue| + taken == TestsDispatched(plan, s.main) + PoisonsDispatched(plan, s.main)
    && forall j :: 0 <= j < |s.inQueue| ==> s.inQueue[j].tag == TagAt(plan, taken + j)
  }

  lemma QueueStep(plan: Plan, s: State, step: Step, taken: nat)
    requires MainInRange(plan, s) && Enabled(plan, s, step) && QueueIs(plan, s, taken)
    ensures QueueIs(plan, Next(plan, s, step), taken + if step.Get? then 1 else 0)
  {}

  /** Job number `m` that workers take is test `m`, and poison once all tests are taken. */
  lemma {:induction false} TakenInOrder(plan: Plan, states: seq<State>, steps: seq<Step>, i: nat)
    requires IsRun(plan, states, steps) && i <= |steps|
    ensures QueueIs(plan, states[i], Taken(steps, i))
    ensures i < |steps| && steps[i].Get? ==>
              states[i + 1].workers[steps[i].w].Checking?
              && states[i + 1].workers[steps[i].w].job.tag == TagAt(plan, Taken(steps, i))
  {
    if i > 0 {
      TakenInOrder(plan, states, steps, i - 1);
      RunInv(plan, states, steps, i - 1);
      assert Enabled(plan, states[i - 1], steps[i - 1]);
      QueueStep(plan, states[i - 1], steps[i - 1], Taken(steps, i - 1));
    }
    if i < |steps| {
      assert Enabled(plan, states[i], steps[i]) && states[i + 1] == Next(plan, states[i], steps[i]);
    }
  }

  /** What the workers report in the first `i` steps. */
  ghost function Reports(plan: Plan, states: seq<State>, steps: seq<Step>, i: nat): seq<Job>
    requires IsRun(plan, states, steps) && i <= |steps|
  {
    if i == 0 then []
    else
      assert Enabled(plan, states[i - 1], steps[i - 1]);
      Reports(plan, states, steps, i - 1)
      + if steps[i - 1].Report? then [states[i - 1].workers[steps[i - 1].w].job] else []
  }

  lemma ReportStep(plan: Plan, s: State, step: Step)
    requires MainInRange(plan, s) && Enabled(plan, s, step)
    ensures var s' := Next(plan, s, step);
            s'.collected + s'.outQueue
              == s.collected + s.outQueue + if step.Report? then [s.workers[step.w].job] else []
  {
    if step.Report? {
      S.Assoc(s.collected, s.outQueue, [s.workers[step.w].job]);
    } else {
      S.Empty(s.collected + s.outQueue);
      if step == MainStep && s.main.Collecting? && s.main.k < |plan.skips| {
        S.Uncons(s.outQueue);
        S.Assoc(s.collected, [s.outQueue[0]], s.outQueue[1..]);
      }
    }
  }

  /** Results are collected in the order in which they are reported. */
  lemma {:induction false} CollectedInOrder(plan: Plan, states: seq<State>, steps: seq<Step>, i: nat)
    requires IsRun(plan, states, steps) && i <= |steps|
    ensures states[i].collected + states[i].outQueue == Reports(plan, states, steps, i)
    ensures states[i].collected <= Reports(plan, states, steps, i)
  {
    if i > 0 {
      CollectedInOrder(plan, states, steps, i - 1);
      RunInv(plan, states, steps, i - 1);
      assert Enabled(plan, states[i - 1], steps[i - 1]);
      ReportStep(plan, states[i - 1], steps[i - 1]);
    }
  }
}
