/** What an interrupt of the pool comes to: hardly any test is run any more. */
module WorkerPoolInterrupt {
  import opened WorkerPool

  /** How many workers have decided to run a test. */
  function Running(ws: seq<Worker>): nat {
    if ws == [] then 0 else (if ws[0].Running? then 1 else 0) + Running(ws[1..])
  }

  lemma {:induction false} RunningUpdate(ws: seq<Worker>, i: nat, w: Worker)
    requires i < |ws|
    ensures Running(ws[i := w]) + (if ws[i].Running? then 1 else 0) == Running(ws) + (if w.Running? then 1 else 0)
  {
    if i == 0 {
      assert ws[i := w][1..] == ws[1..];
    } else {
      assert ws[i := w][1..] == ws[1..][i - 1 := w];
      RunningUpdate(ws[1..], i - 1, w);
    }
  }

  lemma {:induction false} RunningBound(ws: seq<Worker>)
    ensures Running(ws) <= |ws|
  {
    if ws != [] {
      RunningBound(ws[1..]);
    }
  }

  /** How many tests the steps from `i` on and before `j` run. */
  function TestsRun(steps: seq<Step>, i: nat, j: nat): nat
    requires j <= |steps|
  {
    if j <= i then 0 else TestsRun(steps, i, j - 1) + if steps[j - 1].Run? then 1 else 0
  }

  /** Once the flag is set no worker decides to run a test, and each that has runs only that. */
  lemma StepAfterInterrupt(plan: Plan, s: State, step: Step)
    requires Enabled(plan, s, step) && s.threadExit
    ensures Next(plan, s, step).threadExit
    ensures Running(Next(plan, s, step).workers) + (if step.Run? then 1 else 0) <= Running(s.workers)
  {
    if step == MainStep {
      if s.main.Starting? && s.main.k < |s.workers| {
        RunningUpdate(s.workers, s.main.k, Waiting);
      }
    } else if step != Interrupt {
      RunningUpdate(s.workers, step.w, Next(plan, s, step).workers[step.w]);
    }
  }

  predicate Falls(states: seq<State>, steps: seq<Step>, k: nat)
    requires |states| == |steps| + 1 && k < |steps|
  {
    Running(states[k + 1].workers) + (if steps[k].Run? then 1 else 0) <= Running(states[k].workers)
  }

  lemma {:induction false} FallsAfterInterrupt(plan: Plan, states: seq<State>, steps: seq<Step>, i: nat, k: nat)
    requires IsRun(plan, states, steps) && i <= k < |steps| && states[i].threadExit
    ensures states[k].threadExit && states[k + 1].threadExit && Falls(states, steps, k)
    decreases k - i
  {
    if i < k {
      FallsAfterInterrupt(plan, states, steps, i, k - 1);
    }
    assert Enabled(plan, states[k], steps[k]);
    StepAfterInterrupt(plan, states[k], steps[k]);
  }

  lemma {:induction false} TestsRunWhileFalling(states: seq<State>, steps: seq<Step>, i: nat, j: nat)
    requires |states| == |steps| + 1 && i <= j <= |steps|
    requires forall k :: i <= k < j ==> Falls(states, steps, k)
    ensures TestsRun(steps, i, j) + Running(states[j].workers) <= Running(states[i].workers)
    decreases j - i
  {
    if i < j {
      TestsRunWhileFalling(states, steps, i, j - 1);
      assert Falls(states, steps, j - 1);
    }
  }

  /** After an interrupt a run runs no more tests than workers had decided to run one then, and so
      at most one a worker. */
  lemma InterruptStopsWork(plan: Plan, states: seq<State>, steps: seq<Step>, i: nat)
    requires IsRun(plan, states, steps) && i < |steps| && steps[i] == Interrupt
    ensures TestsRun(steps, i, |steps|) <= Running(states[i].workers) <= plan.processors
  {
    assert Enabled(plan, states[i], steps[i]);
    assert Falls(states, steps, i);
    forall k | i < k < |steps| ensures Falls(states, steps, k) {
      FallsAfterInterrupt(plan, states, steps, i + 1, k);
    }
    TestsRunWhileFalling(states, steps, i, |steps|);
    RunInv(plan, states, steps, i);
    RunningBound(states[i].workers);
  }

  // ---- which tests are interrupted ----

  /** A worker that has decided to run test `n` or to report it. */
  predicate HasDecided(w: Worker, n: nat) {
    (w.Running? || w.Reporting?) && w.job.tag == Test(n)
  }

  /** Nothing has been decided about test `n`: it is not dispatched, in the input queue or just
      taken from it. */
  predicate Undecided(s: State, n: nat) {
    && (forall w :: 0 <= w < |s.workers| ==> !HasDecided(s.workers[w], n))
    && (forall i :: 0 <= i < |s.outQueue| ==> s.outQueue[i].tag != Test(n))
    && (forall i :: 0 <= i < |s.collected| ==> s.collected[i].tag != Test(n))
  }

  predicate Marked(jobs: seq<Job>, n: nat, marked: bool) {
    forall i :: 0 <= i < |jobs| && jobs[i].tag == Test(n) ==> jobs[i].isBreak == marked
  }

  predicate WillMark(w: Worker, n: nat, marked: bool) {
    match w
    case Checking(job) => job.tag == Test(n) ==> marked
    case Running(job) => job.tag == Test(n) ==> !marked && !job.isBreak
    case Reporting(job) => job.tag == Test(n) ==> job.isBreak == marked
    case _ => true
  }

  /** Test `n` goes back with the break mark, or was decided on and goes back without it. */
  predicate Decided(plan: Plan, s: State, n: nat, marked: bool) {
    && (forall w :: 0 <= w < |s.workers| ==> WillMark(s.workers[w], n, marked))
    && Marked(s.outQueue, n, marked) && Marked(s.collected, n, marked)
    && (!marked ==> n < TestsDispatched(plan, s.main))
    && (!marked ==> forall i :: 0 <= i < |s.inQueue| ==> s.inQueue[i].tag != Test(n))
  }

  lemma MarkStep(plan: Plan, s: State, step: Step, n: nat, marked: bool)
    requires JobsOk(plan, s) && Enabled(plan, s, step) && step != MainStep && step != Interrupt && s.threadExit
    requires Decided(plan, s, n, marked)
    ensures WillMark(Next(plan, s, step).workers[step.w], n, marked)
    ensures step.Report? && s.workers[step.w].job.tag == Test(n) ==> s.workers[step.w].job.isBreak == marked
  {
    assert WillMark(s.workers[step.w], n, marked) && WorkerOk(plan, s.threadExit, s.workers[step.w]);
  }

  lemma DecidedStep(plan: Plan, s: State, step: Step, n: nat, marked: bool)
    requires JobsOk(plan, s) && MainInRange(plan, s) && Enabled(plan, s, step) && s.threadExit
    requires Decided(plan, s, n, marked)
    ensures Decided(plan, Next(plan, s, step), n, marked)
  {
    if step != MainStep && step != Interrupt {
      MarkStep(plan, s, step, n, marked);
    }
  }

  lemma {:induction false} StaysDecided(plan: Plan, states: seq<State>, steps: seq<Step>, i: nat, j: nat,
                                         n: nat, marked: bool)
    requires IsRun(plan, states, steps) && i <= j <= |steps|
    requires states[i].threadExit && Decided(plan, states[i], n, marked)
    ensures states[j].threadExit && Decided(plan, states[j], n, marked)
    decreases j - i
  {
    if i < j {
      StaysDecided(plan, states, steps, i, j - 1, n, marked);
      RunInv(plan, states, steps, j - 1);
      assert Enabled(plan, states[j - 1], steps[j - 1]);
      DecidedStep(plan, states[j - 1], steps[j - 1], n, marked);
    }
  }

  /** What an interrupt finds undecided is to be marked, and nothing else is. */
  lemma DecidedByInterrupt(plan: Plan, s: State, n: nat)
    requires Inv(plan, s) && !s.threadExit && n < |plan.skips|
    ensures Decided(plan, s, n, Undecided(s, n))
  {
    assert Anywhere(s, Test(n)) == Dispatched(plan, s.main, Test(n));
    if !Undecided(s, n) {
      if w :| 0 <= w < |s.workers| && HasDecided(s.workers[w], n) {
        MemberHeld(s.workers, w, Test(n));
        forall v | 0 <= v < |s.workers| ensures WillMark(s.workers[v], n, false) {
          assert WorkerOk(plan, s.threadExit, s.workers[v]);
          if v != w && Holds(s.workers[v], Test(n)) {
            HeldTwice(s.workers, v, w, Test(n));
          }
        }
      } else if i :| 0 <= i < |s.outQueue| && s.outQueue[i].tag == Test(n) {
        MemberIn(s.outQueue, i);
        NotHeld(plan, s, n);
      } else {
        var i :| 0 <= i < |s.collected| && s.collected[i].tag == Test(n);
        MemberIn(s.collected, i);
        NotHeld(plan, s, n);
      }
      forall i | 0 <= i < |s.inQueue| ensures s.inQueue[i].tag != Test(n) {
        MemberIn(s.inQueue, i);
      }
    }
  }

  lemma {:induction false} HeldTwice(ws: seq<Worker>, v: nat, w: nat, tag: Tag)
    requires v < |ws| && w < |ws| && v != w && Holds(ws[v], tag) && Holds(ws[w], tag)
    ensures Held(ws, tag) >= 2
  {
    if v == 0 {
      MemberHeld(ws[1..], w - 1, tag);
    } else if w == 0 {
      MemberHeld(ws[1..], v - 1, tag);
    } else {
      HeldTwice(ws[1..], v - 1, w - 1, tag);
    }
  }

  lemma NotHeld(plan: Plan, s: State, n: nat)
    requires JobsOk(plan, s) && Held(s.workers, Test(n)) == 0
    ensures forall v :: 0 <= v < |s.workers| ==> WillMark(s.workers[v], n, false)
  {
    forall v | 0 <= v < |s.workers| ensures WillMark(s.workers[v], n, false) {
      if Holds(s.workers[v], Test(n)) {
        MemberHeld(s.workers, v, Test(n));
      }
    }
  }

  /** The tests that come back as interrupted are exactly those about which nothing had been
      decided when the interrupt came; the others come back with their results. */
  lemma InterruptedTests(plan: Plan, states: seq<State>, steps: seq<Step>, i: nat, n: nat)
    requires IsRun(plan, states, steps) && 1 <= plan.processors && n < |plan.skips|
    requires i < |steps| && steps[i] == Interrupt
    requires var s := states[|steps|]; forall step :: Enabled(plan, s, step) ==> step == Interrupt
    ensures var jobs := states[|steps|].collected;
            && In(jobs, Test(n)) == 1
            && forall k :: 0 <= k < |jobs| && jobs[k].tag == Test(n) ==> (jobs[k].isBreak <==> Undecided(states[i], n))
  {
    RunInv(plan, states, steps, i);
    assert Enabled(plan, states[i], steps[i]) && states[i + 1] == Next(plan, states[i], steps[i]);
    DecidedByInterrupt(plan, states[i], n);
    StaysDecided(plan, states, steps, i + 1, |steps|, n, Undecided(states[i], n));
    MaximalRun(plan, states, steps);
  }
}
