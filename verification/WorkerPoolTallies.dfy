/** The tallies of the pool as numbers of tests and of jobs, told without the loop that counts. */
module WorkerPoolTallies {
  import opened WorkerPool
  import opened WorkerPoolResults
  import S = Sequences

  predicate WasSkipped(job: Job) {
    !job.isBreak && job.isSkip
  }

  /** Neither interrupted nor skipped, and so run. */
  predicate WasRun(job: Job) {
    !job.isBreak && !job.isSkip
  }

  predicate Returned0(job: Job) {
    WasRun(job) && job.returncode == 0
  }

  predicate Returned1(job: Job) {
    WasRun(job) && job.returncode == 1
  }

  predicate Returned2(job: Job) {
    WasRun(job) && job.returncode == 2
  }

  predicate ReturnedOther(job: Job) {
    WasRun(job) && job.returncode != 0 && job.returncode != 1 && job.returncode != 2
  }

  predicate TalliesOf(t: Tally, jobs: seq<Job>) {
    && t.skipped == |S.Places(jobs, WasSkipped)|
    && t.passed == |S.Places(jobs, Returned0)|
    && t.failed == |S.Places(jobs, Returned1)|
    && t.valgrind == |S.Places(jobs, Returned2)|
    && t.crashed == |S.Places(jobs, ReturnedOther)|
  }

  lemma {:induction false} CountIsPlaces(jobs: seq<Job>)
    ensures TalliesOf(Count(jobs), jobs)
  {
    if jobs == [] {
      NoPlaces(WasSkipped);
      NoPlaces(Returned0);
      NoPlaces(Returned1);
      NoPlaces(Returned2);
      NoPlaces(ReturnedOther);
    } else {
      CountIsPlaces(jobs[..|jobs| - 1]);
      S.PlacesGrow(jobs, WasSkipped);
      S.PlacesGrow(jobs, Returned0);
      S.PlacesGrow(jobs, Returned1);
      S.PlacesGrow(jobs, Returned2);
      S.PlacesGrow(jobs, ReturnedOther);
    }
  }

  lemma NoPlaces(p: Job -> bool)
    ensures S.Places<Job>([], p) == {}
  {}

  /** In every state of every run, finished or not, the tallies are the numbers of collected jobs
      that were skipped and that returned 0, 1, 2 and anything else; interrupted ones are in none. */
  lemma TalliesOfCollected(plan: Plan, states: seq<State>, steps: seq<Step>, i: nat)
    requires IsRun(plan, states, steps) && i < |states|
    ensures var s := states[i];
            && s.tally.skipped == |set k | 0 <= k < |s.collected| && !s.collected[k].isBreak && s.collected[k].isSkip|
            && TalliesOf(s.tally, s.collected)
  {
    RunInv(plan, states, steps, i);
    CountIsPlaces(states[i].collected);
    var s := states[i];
    assert S.Places(s.collected, WasSkipped)
        == set k | 0 <= k < |s.collected| && !s.collected[k].isBreak && s.collected[k].isSkip;
  }

  /** At the end of an uninterrupted run they are the numbers of tests to be skipped, and of the
      others those whose code is 0, 1, 2 and anything else. */
  lemma TalliesOfTests(plan: Plan, codes: seq<int>, states: seq<State>, steps: seq<Step>)
    requires |plan.skips| == |codes| && 1 <= plan.processors && IsRunWith(plan, codes, states, steps)
    requires var s := states[|steps|]; !s.threadExit && forall step :: Enabled(plan, s, step) ==> step == Interrupt
    ensures var t, tests := states[|steps|].tally, |codes|;
            && t.skipped == |set n | 0 <= n < tests && plan.skips[n]|
            && t.passed == |set n | 0 <= n < tests && !plan.skips[n] && codes[n] == 0|
            && t.failed == |set n | 0 <= n < tests && !plan.skips[n] && codes[n] == 1|
            && t.valgrind == |set n | 0 <= n < tests && !plan.skips[n] && codes[n] == 2|
            && t.crashed ==
               |set n | 0 <= n < tests && !plan.skips[n] && codes[n] != 0 && codes[n] != 1 && codes[n] != 2|
  {
    SameInAnyOrder(plan, codes, states, steps);
    PlacesOfResults(plan, codes);
  }

  lemma PlacesOfResults(plan: Plan, codes: seq<int>)
    requires |plan.skips| == |codes|
    ensures var t, tests := Count(Results(plan, codes, |codes|)), |codes|;
            && t.skipped == |set n | 0 <= n < tests && plan.skips[n]|
            && t.passed == |set n | 0 <= n < tests && !plan.skips[n] && codes[n] == 0|
            && t.failed == |set n | 0 <= n < tests && !plan.skips[n] && codes[n] == 1|
            && t.valgrind == |set n | 0 <= n < tests && !plan.skips[n] && codes[n] == 2|
            && t.crashed ==
               |set n | 0 <= n < tests && !plan.skips[n] && codes[n] != 0 && codes[n] != 1 && codes[n] != 2|
  {
    var jobs := Results(plan, codes, |codes|);
    CountIsPlaces(jobs);
    ResultsAre(plan, codes, |codes|);
    assert S.Places(jobs, WasSkipped) == set n | 0 <= n < |codes| && plan.skips[n];
    assert S.Places(jobs, Returned0) == set n | 0 <= n < |codes| && !plan.skips[n] && codes[n] == 0;
    assert S.Places(jobs, Returned1) == set n | 0 <= n < |codes| && !plan.skips[n] && codes[n] == 1;
    assert S.Places(jobs, Returned2) == set n | 0 <= n < |codes| && !plan.skips[n] && codes[n] == 2;
    assert S.Places(jobs, ReturnedOther)
        == set n | 0 <= n < |codes| && !plan.skips[n] && codes[n] != 0 && codes[n] != 1 && codes[n] != 2;
  }

  lemma {:induction false} ResultsAre(plan: Plan, codes: seq<int>, n: nat)
    requires n <= |plan.skips| == |codes|
    ensures |Results(plan, codes, n)| == n
    ensures forall k :: 0 <= k < n ==>
              Results(plan, codes, n)[k] == Job(Test(k), false, plan.skips[k], if plan.skips[k] then 0 else codes[k])
  {
    if n > 0 {
      ResultsAre(plan, codes, n - 1);
    }
  }
}
