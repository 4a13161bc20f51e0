/** What a run of the pool comes to when every test has a return code of its own: the same
    tallies and the same return value whatever the order of the steps. */
module WorkerPoolResults {
  import opened WorkerPool
  import S = Sequences

  /** Test `n` as it is dispatched, and as it comes back when no interrupt met it. */
  function Dispatch(plan: Plan, n: nat): Job
    requires n < |plan.skips|
  {
    Job(Test(n), false, plan.skips[n], 0)
  }

  function ResultOf(plan: Plan, codes: seq<int>, n: nat): Job
    requires n < |plan.skips| == |codes|
  {
    Dispatch(plan, n).(returncode := if plan.skips[n] then 0 else codes[n])
  }

  function Results(plan: Plan, codes: seq<int>, n: nat): seq<Job>
    requires n <= |plan.skips| == |codes|
  {
    if n == 0 then [] else Results(plan, codes, n - 1) + [ResultOf(plan, codes, n - 1)]
  }

  predicate IsDispatch(plan: Plan, job: Job) {
    job.tag.Test? ==> job.tag.n < |plan.skips| && job == Dispatch(plan, job.tag.n)
  }

  predicate IsResult(plan: Plan, codes: seq<int>, job: Job)
    requires |plan.skips| == |codes|
  {
    job.tag.Test? && job.tag.n < |codes| && (job.isBreak || job == ResultOf(plan, codes, job.tag.n))
  }

  predicate Carries(plan: Plan, codes: seq<int>, w: Worker)
    requires |plan.skips| == |codes|
  {
    match w
    case Checking(job) => IsDispatch(plan, job)
    case Running(job) => IsDispatch(plan, job)
    case Reporting(job) => IsResult(plan, codes, job)
    case _ => true
  }

  /** All jobs in flight are as dispatched or have the result of their test. */
  ghost predicate Exact(plan: Plan, codes: seq<int>, s: State)
    requires |plan.skips| == |codes|
  {
    && (forall i :: 0 <= i < |s.inQueue| ==> IsDispatch(plan, s.inQueue[i]))
    && (forall w :: 0 <= w < |s.workers| ==> Carries(plan, codes, s.workers[w]))
    && (forall i :: 0 <= i < |s.outQueue| ==> IsResult(plan, codes, s.outQueue[i]))
    && (forall i :: 0 <= i < |s.collected| ==> IsResult(plan, codes, s.collected[i]))
  }

  predicate HasCode(codes: seq<int>, job: Job, code: int) {
    job.tag.Test? && job.tag.n < |codes| ==> code == codes[job.tag.n]
  }

  /** Running a test gives its code. */
  predicate GivesCode(codes: seq<int>, s: State, step: Step) {
    step.Run? && step.w < |s.workers| && s.workers[step.w].Running? ==> HasCode(codes, s.workers[step.w].job, step.code)
  }

  lemma CarriesStep(plan: Plan, codes: seq<int>, s: State, step: Step)
    requires |plan.skips| == |codes| && Exact(plan, codes, s) && JobsOk(plan, s)
    requires Enabled(plan, s, step) && GivesCode(codes, s, step) && step != MainStep && step != Interrupt
    ensures Carries(plan, codes, Next(plan, s, step).workers[step.w])
  {
    assert Carries(plan, codes, s.workers[step.w]) && WorkerOk(plan, s.threadExit, s.workers[step.w]);
    if step.Get? {
      assert IsDispatch(plan, s.inQueue[0]);
    }
  }

  lemma ExactStep(plan: Plan, codes: seq<int>, s: State, step: Step)
    requires |plan.skips| == |codes| && Exact(plan, codes, s) && JobsOk(plan, s)
    requires Enabled(plan, s, step) && GivesCode(codes, s, step)
    ensures Exact(plan, codes, Next(plan, s, step))
  {
    if step != MainStep && step != Interrupt {
      CarriesStep(plan, codes, s, step);
      assert Carries(plan, codes, s.workers[step.w]);
    }
  }

  ghost predicate IsRunWith(plan: Plan, codes: seq<int>, states: seq<State>, steps: seq<Step>) {
    && IsRun(plan, states, steps)
    && forall i :: 0 <= i < |steps| ==> GivesCode(codes, states[i], steps[i])
  }

  lemma {:induction false} RunExact(plan: Plan, codes: seq<int>, states: seq<State>, steps: seq<Step>, i: nat)
    requires |plan.skips| == |codes| && IsRunWith(plan, codes, states, steps) && i < |states|
    ensures Exact(plan, codes, states[i])
  {
    if i > 0 {
      RunExact(plan, codes, states, steps, i - 1);
      RunInv(plan, states, steps, i - 1);
      assert Enabled(plan, states[i - 1], steps[i - 1]);
      ExactStep(plan, codes, states[i - 1], steps[i - 1]);
    }
  }

  // ---- counting in any order ----

  function Without(jobs: seq<Job>, i: nat): seq<Job>
    requires i < |jobs|
  {
    jobs[..i] + jobs[i + 1..]
  }

  lemma CountLast(jobs: seq<Job>, job: Job)
    ensures Count(jobs + [job]) == CountIn(Count(jobs), StatusOf(job))
  {
    assert (jobs + [job])[..|jobs|] == jobs;
  }

  lemma WithoutBeforeLast(front: seq<Job>, last: Job, i: nat)
    requires i < |front|
    ensures Without(front + [last], i) == Without(front, i) + [last]
  {
    assert (front + [last])[..i] == front[..i];
    assert (front + [last])[i + 1..] == front[i + 1..] + [last];
    S.Assoc(front[..i], front[i + 1..], [last]);
  }

  lemma CountInEitherOrder(t: Tally, a: Status, b: Status)
    ensures CountIn(CountIn(t, a), b) == CountIn(CountIn(t, b), a)
  {}

  lemma {:induction false} CountWithout(jobs: seq<Job>, i: nat)
    requires i < |jobs|
    ensures Count(jobs) == CountIn(Count(Without(jobs, i)), StatusOf(jobs[i]))
  {
    var n := |jobs| - 1;
    var front, last := jobs[..n], jobs[n];
    assert jobs == front + [last];
    CountLast(front, last);
    if i == n {
      assert Without(jobs, i) == front;
    } else {
      CountWithout(front, i);
      WithoutBeforeLast(front, last, i);
      CountLast(Without(front, i), last);
      CountInEitherOrder(Count(Without(front, i)), StatusOf(jobs[i]), StatusOf(last));
    }
  }

  lemma {:induction false} InWithout(jobs: seq<Job>, i: nat, tag: Tag)
    requires i < |jobs|
    ensures In(jobs, tag) == In(Without(jobs, i), tag) + if jobs[i].tag == tag then 1 else 0
  {
    var rest := Without(jobs, i);
    if i == 0 {
      assert rest == jobs[1..];
    } else {
      InWithout(jobs[1..], i - 1, tag);
      assert rest[0] == jobs[0] && rest[1..] == Without(jobs[1..], i - 1);
    }
  }

  /** The results of the first `n` tests, each once. */
  ghost predicate AreResults(plan: Plan, codes: seq<int>, jobs: seq<Job>, n: nat)
    requires n <= |plan.skips| == |codes|
  {
    && (forall i :: 0 <= i < |jobs| ==> IsResult(plan, codes, jobs[i]) && !jobs[i].isBreak && jobs[i].tag.n < n)
    && (forall k :: 0 <= k < n ==> In(jobs, Test(k)) == 1)
  }

  lemma WithoutResult(plan: Plan, codes: seq<int>, jobs: seq<Job>, n: nat, i: nat)
    requires 0 < n <= |plan.skips| == |codes| && AreResults(plan, codes, jobs, n)
    requires i < |jobs| && jobs[i].tag == Test(n - 1)
    ensures AreResults(plan, codes, Without(jobs, i), n - 1)
  {
    var rest := Without(jobs, i);
    forall k: nat | k < n ensures In(rest, Test(k)) == if k == n - 1 then 0 else 1 {
      InWithout(jobs, i, Test(k));
    }
    forall j | 0 <= j < |rest|
      ensures IsResult(plan, codes, rest[j]) && !rest[j].isBreak && rest[j].tag.n < n - 1
    {
      assert rest[j] == jobs[if j < i then j else j + 1];
      MemberIn(rest, j);
    }
  }

  /** They count the same in any order. */
  lemma {:induction false} CountInAnyOrder(plan: Plan, codes: seq<int>, jobs: seq<Job>, n: nat)
    requires n <= |plan.skips| == |codes| && AreResults(plan, codes, jobs, n)
    ensures Count(jobs) == Count(Results(plan, codes, n))
  {
    if n > 0 {
      var i := InMember(jobs, Test(n - 1));
      WithoutResult(plan, codes, jobs, n, i);
      CountWithout(jobs, i);
      CountInAnyOrder(plan, codes, Without(jobs, i), n - 1);
      CountLast(Results(plan, codes, n - 1), ResultOf(plan, codes, n - 1));
    }
  }

  predicate AllPass(plan: Plan, codes: seq<int>)
    requires |plan.skips| == |codes|
  {
    forall n :: 0 <= n < |codes| ==> plan.skips[n] || codes[n] == 0
  }

  lemma GoodResults(plan: Plan, codes: seq<int>, jobs: seq<Job>)
    requires |plan.skips| == |codes| && AreResults(plan, codes, jobs, |codes|)
    ensures (forall i :: 0 <= i < |jobs| ==> Good(jobs[i])) <==> AllPass(plan, codes)
  {
    if forall i :: 0 <= i < |jobs| ==> Good(jobs[i]) {
      forall n | 0 <= n < |codes| ensures plan.skips[n] || codes[n] == 0 {
        var i := InMember(jobs, Test(n));
        assert Good(jobs[i]) && IsResult(plan, codes, jobs[i]);
      }
    }
  }

  /** When nothing interrupted a run that can go on no further, its tallies are those of the
      tests one after the other, and it returns 0 exactly when each test is to be skipped or
      has the code 0: no order of the steps makes a difference. Interrupted or not, it returns 0
      only if that is so. */
  lemma SameInAnyOrder(plan: Plan, codes: seq<int>, states: seq<State>, steps: seq<Step>)
    requires |plan.skips| == |codes| && 1 <= plan.processors && IsRunWith(plan, codes, states, steps)
    requires var s := states[|steps|]; forall step :: Enabled(plan, s, step) ==> step == Interrupt
    ensures var s := states[|steps|];
            !s.threadExit ==>
              s.tally == Count(Results(plan, codes, |codes|)) && (ReturnValue(plan, s) == 0 <==> AllPass(plan, codes))
    ensures ReturnValue(plan, states[|steps|]) == 0 ==> AllPass(plan, codes)
  {
    var s := states[|steps|];
    MaximalRun(plan, states, steps);
    RunExact(plan, codes, states, steps, |steps|);
    RunInv(plan, states, steps, |steps|);
    if !s.threadExit || ReturnValue(plan, s) == 0 {
      NoneInterrupted(plan, codes, s);
      CountInAnyOrder(plan, codes, s.collected, |codes|);
      GoodResults(plan, codes, s.collected);
    }
  }

  lemma NoneInterrupted(plan: Plan, codes: seq<int>, s: State)
    requires |plan.skips| == |codes| && Exact(plan, codes, s) && JobsOk(plan, s)
    requires !s.threadExit || forall i :: 0 <= i < |s.collected| ==> Good(s.collected[i])
    requires forall n :: 0 <= n < |codes| ==> In(s.collected, Test(n)) == 1
    ensures AreResults(plan, codes, s.collected, |codes|)
  {
    forall i | 0 <= i < |s.collected| ensures IsResult(plan, codes, s.collected[i]) && !s.collected[i].isBreak {
      assert Returned(plan, s.threadExit, s.collected[i]);
      assert !s.threadExit || Good(s.collected[i]);
    }
  }
}
