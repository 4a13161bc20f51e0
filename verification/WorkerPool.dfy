/** The pool of worker threads that runs the tests: N workers and the main thread share a FIFO
    input queue, an output queue and a flag that an interrupt may set at any moment. The
    program is modelled by its atomic steps, so that what is proved of every run holds of
    every interleaving. */
module WorkerPool {
  /** Which job object it is: the n-th test dispatched, or one that tells a worker to stop. */
  datatype Tag = Test(n: nat) | Poison

  /** The fields of a job that the pool reads or writes. */
  datatype Job = Job(tag: Tag, isBreak: bool, isSkip: bool, returncode: int)

  /** Where a worker is in its loop. */
  datatype Worker =
    | Unstarted
    | Waiting               // about to take a job from the input queue
    | Checking(job: Job)    // has taken it
    | Running(job: Job)     // has decided to run it
    | Reporting(job: Job)   // about to put it in the output queue
    | Exited

  /** Where the main thread is; `k` counts the turns of the loop it is in. */
  datatype Main =
    | Starting(k: nat)
    | Dispatching(k: nat)
    | Breaking(k: nat)
    | Collecting(k: nat)
    | Joining(k: nat)

  datatype Tally = Tally(passed: nat, failed: nat, valgrind: nat, crashed: nat, skipped: nat)

  datatype State = State(main: Main, workers: seq<Worker>, inQueue: seq<Job>, outQueue: seq<Job>,
                         threadExit: bool, collected: seq<Job>, tally: Tally)

  /** How many workers there are, and for each test whether it is to be skipped. */
  datatype Plan = Plan(processors: nat, skips: seq<bool>)

  datatype Step = MainStep | Get(w: nat) | Check(w: nat) | Run(w: nat, code: int) | Report(w: nat) | Interrupt

  // ---- the program ----

  function Init(plan: Plan): State {
    State(Starting(0), seq(plan.processors, _ => Unstarted), [], [], false, [], Tally(0, 0, 0, 0, 0))
  }

  datatype Status = PASS | FAIL | VALGR | CRASH | SKIP | INTERRUPTED

  /** The status of a job as the main thread finds it in the output queue. */
  function StatusOf(job: Job): Status {
    if job.isBreak then INTERRUPTED
    else if job.isSkip then SKIP
    else if job.returncode == 0 then PASS
    else if job.returncode == 1 then FAIL
    else if job.returncode == 2 then VALGR
    else CRASH
  }

  function CountIn(tally: Tally, status: Status): Tally {
    match status
    case PASS => tally.(passed := tally.passed + 1)
    case FAIL => tally.(failed := tally.failed + 1)
    case VALGR => tally.(valgrind := tally.valgrind + 1)
    case CRASH => tally.(crashed := tally.crashed + 1)
    case SKIP => tally.(skipped := tally.skipped + 1)
    case INTERRUPTED => tally
  }

  /** Getting from an empty queue and joining a running thread block. An interrupt that finds
      the flag set changes nothing and is not counted as a step. */
  predicate Enabled(plan: Plan, s: State, step: Step) {
    match step
    case MainStep =>
      (match s.main
       case Starting(_) => true
       case Dispatching(_) => true
       case Breaking(_) => true
       case Collecting(k) => k < |plan.skips| ==> s.outQueue != []
       case Joining(k) => k < |s.workers| && s.workers[k] == Exited)
    case Get(w) => w < |s.workers| && s.workers[w] == Waiting && s.inQueue != []
    case Check(w) => w < |s.workers| && s.workers[w].Checking?
    case Run(w, _) => w < |s.workers| && s.workers[w].Running?
    case Report(w) => w < |s.workers| && s.workers[w].Reporting?
    case Interrupt => !s.threadExit
  }

  function MainNext(plan: Plan, s: State): State
    requires Enabled(plan, s, MainStep)
  {
    match s.main
    case Starting(k) =>
      if k < |s.workers| then s.(main := Starting(k + 1), workers := s.workers[k := Waiting])
      else s.(main := Dispatching(0))
    case Dispatching(k) =>
      if k < |plan.skips| then
        s.(main := Dispatching(k + 1), inQueue := s.inQueue + [Job(Test(k), false, plan.skips[k], 0)])
      else s.(main := Breaking(0))
    case Breaking(k) =>
      if k < plan.processors then
        s.(main := Breaking(k + 1), inQueue := s.inQueue + [Job(Poison, true, false, 0)])
      else s.(main := Collecting(0))
    case Collecting(k) =>
      if k < |plan.skips| then
        var job := s.outQueue[0];
        s.(main := Collecting(k + 1), outQueue := s.outQueue[1..], collected := s.collected + [job],
           tally := CountIn(s.tally, StatusOf(job)))
      else s.(main := Joining(0))
    case Joining(k) => s.(main := Joining(k + 1))
  }

  /** What a worker goes on to do with the job it has taken. */
  function AfterCheck(job: Job, threadExit: bool): Worker {
    if job.isBreak then Exited
    else if threadExit then Reporting(job.(isBreak := true))
    else if job.isSkip then Reporting(job)
    else Running(job)
  }

  function Next(plan: Plan, s: State, step: Step): State
    requires Enabled(plan, s, step)
  {
    match step
    case MainStep => MainNext(plan, s)
    case Get(w) => s.(workers := s.workers[w := Checking(s.inQueue[0])], inQueue := s.inQueue[1..])
    case Check(w) => s.(workers := s.workers[w := AfterCheck(s.workers[w].job, s.threadExit)])
    case Run(w, code) => s.(workers := s.workers[w := Reporting(s.workers[w].job.(returncode := code))])
    case Report(w) => s.(workers := s.workers[w := Waiting], outQueue := s.outQueue + [s.workers[w].job])
    case Interrupt => s.(threadExit := true)
  }

  predicate Finished(plan: Plan, s: State) {
    s.main == Joining(plan.processors)
  }

  function ReturnValue(plan: Plan, s: State): int {
    if s.tally.passed + s.tally.skipped == |plan.skips| then 0 else 1
  }

  // ---- where the jobs are ----

  /** How often job `tag` is in a queue. */
  function In(q: seq<Job>, tag: Tag): nat {
    if q == [] then 0 else (if q[0].tag == tag then 1 else 0) + In(q[1..], tag)
  }

  /** Whether a worker has job `tag` in its hands; a worker that left took one poison job
      with it. */
  predicate Holds(w: Worker, tag: Tag) {
    match w
    case Unstarted => false
    case Waiting => false
    case Checking(job) => job.tag == tag
    case Running(job) => job.tag == tag
    case Reporting(job) => job.tag == tag
    case Exited => tag == Poison
  }

  function Held(ws: seq<Worker>, tag: Tag): nat {
    if ws == [] then 0 else (if Holds(ws[0], tag) then 1 else 0) + Held(ws[1..], tag)
  }

  /** How many workers have a job in their hands or have taken one with them. */
  function Occupied(ws: seq<Worker>): nat {
    if ws == [] then 0
    else (if ws[0] == Unstarted || ws[0] == Waiting then 0 else 1) + Occupied(ws[1..])
  }

  function TestsDispatched(plan: Plan, main: Main): nat {
    match main
    case Starting(_) => 0
    case Dispatching(k) => k
    case _ => |plan.skips|
  }

  function PoisonsDispatched(plan: Plan, main: Main): nat {
    match main
    case Starting(_) => 0
    case Dispatching(_) => 0
    case Breaking(k) => k
    case _ => plan.processors
  }

  /** How often job `tag` was put in the input queue so far. */
  function Dispatched(plan: Plan, main: Main, tag: Tag): nat {
    match tag
    case Test(n) => if n < TestsDispatched(plan, main) then 1 else 0
    case Poison => PoisonsDispatched(plan, main)
  }

  /** How often it is in the input queue, in a worker's hands, in the output queue or
      collected, all together. */
  function Anywhere(s: State, tag: Tag): nat {
    In(s.inQueue, tag) + Held(s.workers, tag) + In(s.outQueue, tag) + In(s.collected, tag)
  }

  lemma {:induction false} InAppend(q: seq<Job>, job: Job, tag: Tag)
    ensures In(q + [job], tag) == In(q, tag) + if job.tag == tag then 1 else 0
  {
    if q == [] {
      assert q + [job] == [job];
    } else {
      assert (q + [job])[1..] == q[1..] + [job];
      InAppend(q[1..], job, tag);
    }
  }

  lemma {:induction false} HeldUpdate(ws: seq<Worker>, i: nat, w: Worker, tag: Tag)
    requires i < |ws|
    ensures Held(ws[i := w], tag) + (if Holds(ws[i], tag) then 1 else 0)
         == Held(ws, tag) + (if Holds(w, tag) then 1 else 0)
  {
    if i == 0 {
      assert ws[i := w][1..] == ws[1..];
    } else {
      assert ws[i := w][1..] == ws[1..][i - 1 := w];
      HeldUpdate(ws[1..], i - 1, w, tag);
    }
  }

  lemma {:induction false} OccupiedUpdate(ws: seq<Worker>, i: nat, w: Worker)
    requires i < |ws|
    ensures Occupied(ws[i := w]) + (if ws[i] == Unstarted || ws[i] == Waiting then 0 else 1)
         == Occupied(ws) + (if w == Unstarted || w == Waiting then 0 else 1)
  {
    if i == 0 {
      assert ws[i := w][1..] == ws[1..];
    } else {
      assert ws[i := w][1..] == ws[1..][i - 1 := w];
      OccupiedUpdate(ws[1..], i - 1, w);
    }
  }

  lemma {:induction false} InMember(q: seq<Job>, tag: Tag) returns (i: nat)
    requires In(q, tag) > 0
    ensures i < |q| && q[i].tag == tag
  {
    if q[0].tag == tag {
      i := 0;
    } else {
      i := InMember(q[1..], tag);
      i := i + 1;
    }
  }

  lemma {:induction false} MemberIn(q: seq<Job>, i: nat)
    requires i < |q|
    ensures In(q, q[i].tag) > 0
  {
    if i > 0 {
      MemberIn(q[1..], i - 1);
    }
  }

  lemma {:induction false} HeldMember(ws: seq<Worker>, tag: Tag) returns (i: nat)
    requires Held(ws, tag) > 0
    ensures i < |ws| && Holds(ws[i], tag)
  {
    if Holds(ws[0], tag) {
      i := 0;
    } else {
      i := HeldMember(ws[1..], tag);
      i := i + 1;
    }
  }

  lemma {:induction false} MemberHeld(ws: seq<Worker>, i: nat, tag: Tag)
    requires i < |ws| && Holds(ws[i], tag)
    ensures Held(ws, tag) > 0
  {
    if i > 0 {
      MemberHeld(ws[1..], i - 1, tag);
    }
  }

  /** N workers hold at most N poison jobs, and fewer when one of them holds none. */
  lemma {:induction false} HeldBound(ws: seq<Worker>, tag: Tag)
    ensures Held(ws, tag) <= |ws|
    ensures (exists i :: 0 <= i < |ws| && !Holds(ws[i], tag)) ==> Held(ws, tag) < |ws|
  {
    if ws != [] {
      HeldBound(ws[1..], tag);
      forall i | 0 < i < |ws| && !Holds(ws[i], tag) ensures Held(ws[1..], tag) < |ws[1..]| {
        assert !Holds(ws[1..][i - 1], tag);
      }
    }
  }

  // ---- the invariant ----

  predicate MainInRange(plan: Plan, s: State) {
    match s.main
    case Starting(k) => k <= plan.processors
    case Dispatching(k) => k <= |plan.skips|
    case Breaking(k) => k <= plan.processors
    case Collecting(k) => k <= |plan.skips|
    case Joining(k) => k <= plan.processors
  }

  function CollectedSoFar(plan: Plan, main: Main): nat {
    match main
    case Collecting(k) => k
    case Joining(_) => |plan.skips|
    case _ => 0
  }

  /** A job in the input queue or just taken from it: only poison jobs have the break mark. */
  predicate Fresh(plan: Plan, job: Job) {
    && (job.isBreak <==> job.tag == Poison)
    && (job.tag.Test? ==> job.tag.n < |plan.skips| && job.isSkip == plan.skips[job.tag.n])
  }

  /** A test on its way back: it has the break mark only if an interrupt came. */
  predicate Returned(plan: Plan, threadExit: bool, job: Job) {
    && job.tag.Test? && job.tag.n < |plan.skips| && job.isSkip == plan.skips[job.tag.n]
    && (job.isBreak ==> threadExit)
  }

  predicate WorkerOk(plan: Plan, threadExit: bool, w: Worker) {
    match w
    case Checking(job) => Fresh(plan, job)
    case Running(job) => Fresh(plan, job) && job.tag.Test? && !job.isSkip
    case Reporting(job) => Returned(plan, threadExit, job)
    case _ => true
  }

  predicate Started(main: Main, i: nat) {
    main.Starting? ==> i < main.k
  }

  /** Poison jobs are behind the tests, and once a worker has one no test is in the queue. */
  ghost predicate PoisonLast(s: State) {
    && (forall i, j :: 0 <= i < j < |s.inQueue| && s.inQueue[i].tag == Poison ==> s.inQueue[j].tag == Poison)
    && (forall w, j :: 0 <= w < |s.workers| && 0 <= j < |s.inQueue| && Holds(s.workers[w], Poison)
          ==> s.inQueue[j].tag == Poison)
  }

  function Count(jobs: seq<Job>): Tally {
    if jobs == [] then Tally(0, 0, 0, 0, 0)
    else CountIn(Count(jobs[..|jobs| - 1]), StatusOf(jobs[|jobs| - 1]))
  }

  ghost predicate Conserved(plan: Plan, s: State) {
    forall tag :: Anywhere(s, tag) == Dispatched(plan, s.main, tag)
  }

  /** As many jobs are somewhere as were dispatched. */
  predicate Counted(plan: Plan, s: State) {
    |s.inQueue| + Occupied(s.workers) + |s.outQueue| + |s.collected|
      == TestsDispatched(plan, s.main) + PoisonsDispatched(plan, s.main)
  }

  ghost predicate JobsOk(plan: Plan, s: State) {
    && (forall i :: 0 <= i < |s.inQueue| ==> Fresh(plan, s.inQueue[i]))
    && (forall w :: 0 <= w < |s.workers| ==> WorkerOk(plan, s.threadExit, s.workers[w]))
    && (forall i :: 0 <= i < |s.outQueue| ==> Returned(plan, s.threadExit, s.outQueue[i]))
    && (forall i :: 0 <= i < |s.collected| ==> Returned(plan, s.threadExit, s.collected[i]))
  }

  ghost predicate MainOk(plan: Plan, s: State) {
    && MainInRange(plan, s)
    && |s.workers| == plan.processors
    && (forall w :: 0 <= w < |s.workers| ==> (s.workers[w] == Unstarted <==> !Started(s.main, w)))
    && (s.main.Joining? ==> forall w :: 0 <= w < s.main.k ==> s.workers[w] == Exited)
    && |s.collected| == CollectedSoFar(plan, s.main)
    && s.tally == Count(s.collected)
  }

  ghost predicate Inv(plan: Plan, s: State) {
    MainOk(plan, s) && JobsOk(plan, s) && PoisonLast(s) && Conserved(plan, s) && Counted(plan, s)
  }

  // ---- every step keeps the invariant ----

  lemma {:induction false} NothingHeld(n: nat, tag: Tag)
    ensures Held(seq(n, _ => Unstarted), tag) == 0
  {
    if n > 0 {
      assert seq<Worker>(n, _ => Unstarted)[1..] == seq<Worker>(n - 1, _ => Unstarted);
      NothingHeld(n - 1, tag);
    }
  }

  lemma {:induction false} NothingOccupied(n: nat)
    ensures Occupied(seq(n, _ => Unstarted)) == 0
  {
    if n > 0 {
      assert seq<Worker>(n, _ => Unstarted)[1..] == seq<Worker>(n - 1, _ => Unstarted);
      NothingOccupied(n - 1);
    }
  }

  lemma InitInv(plan: Plan)
    ensures Inv(plan, Init(plan))
  {
    NothingOccupied(plan.processors);
    forall tag ensures Anywhere(Init(plan), tag) == Dispatched(plan, Starting(0), tag) {
      NothingHeld(plan.processors, tag);
    }
  }

  lemma ConservedMain(plan: Plan, s: State, tag: Tag)
    requires MainOk(plan, s) && Anywhere(s, tag) == Dispatched(plan, s.main, tag) && Enabled(plan, s, MainStep)
    ensures var s' := MainNext(plan, s); Anywhere(s', tag) == Dispatched(plan, s'.main, tag)
  {
    match s.main
    case Starting(k) =>
      if k < |s.workers| {
        HeldUpdate(s.workers, k, Waiting, tag);
      }
    case Dispatching(k) =>
      if k < |plan.skips| {
        InAppend(s.inQueue, Job(Test(k), false, plan.skips[k], 0), tag);
      }
    case Breaking(k) =>
      InAppend(s.inQueue, Job(Poison, true, false, 0), tag);
    case Collecting(k) =>
      if k < |plan.skips| {
        InAppend(s.collected, s.outQueue[0], tag);
      }
    case Joining(k) =>
  }

  lemma ConservedWorker(plan: Plan, s: State, step: Step, tag: Tag)
    requires JobsOk(plan, s) && Anywhere(s, tag) == Dispatched(plan, s.main, tag)
    requires Enabled(plan, s, step) && step != MainStep && step != Interrupt
    ensures var s' := Next(plan, s, step); Anywhere(s', tag) == Dispatched(plan, s'.main, tag)
  {
    assert WorkerOk(plan, s.threadExit, s.workers[step.w]);
    HeldUpdate(s.workers, step.w, Next(plan, s, step).workers[step.w], tag);
    if step.Report? {
      InAppend(s.outQueue, s.workers[step.w].job, tag);
    }
  }

  lemma ConservedStep(plan: Plan, s: State, step: Step)
    requires Inv(plan, s) && Enabled(plan, s, step)
    ensures Conserved(plan, Next(plan, s, step))
  {
    var s' := Next(plan, s, step);
    forall tag ensures Anywhere(s', tag) == Dispatched(plan, s'.main, tag) {
      assert Anywhere(s, tag) == Dispatched(plan, s.main, tag);
      if step == MainStep {
        ConservedMain(plan, s, tag);
      } else if step == Interrupt {
        assert Anywhere(s', tag) == Anywhere(s, tag);
      } else {
        ConservedWorker(plan, s, step, tag);
      }
    }
  }

  lemma CountedStep(plan: Plan, s: State, step: Step)
    requires MainOk(plan, s) && Counted(plan, s) && Enabled(plan, s, step)
    ensures Counted(plan, Next(plan, s, step))
  {
    if step == MainStep {
      if s.main.Starting? && s.main.k < |s.workers| {
        OccupiedUpdate(s.workers, s.main.k, Waiting);
      }
    } else if step != Interrupt {
      OccupiedUpdate(s.workers, step.w, Next(plan, s, step).workers[step.w]);
    }
  }

  /** Before the first poison job is dispatched, none is in the queue or in any hands. */
  lemma NoPoisonYet(plan: Plan, s: State)
    requires Conserved(plan, s) && PoisonsDispatched(plan, s.main) == 0
    ensures forall i :: 0 <= i < |s.inQueue| ==> s.inQueue[i].tag != Poison
    ensures forall w :: 0 <= w < |s.workers| ==> !Holds(s.workers[w], Poison)
  {
    assert Anywhere(s, Poison) == 0;
    forall i | 0 <= i < |s.inQueue| ensures s.inQueue[i].tag != Poison {
      MemberIn(s.inQueue, i);
    }
    forall w | 0 <= w < |s.workers| ensures !Holds(s.workers[w], Poison) {
      if Holds(s.workers[w], Poison) {
        MemberHeld(s.workers, w, Poison);
      }
    }
  }

  lemma PoisonLastStep(plan: Plan, s: State, step: Step)
    requires Inv(plan, s) && Enabled(plan, s, step)
    ensures PoisonLast(Next(plan, s, step))
  {
    if step == MainStep && s.main.Dispatching? {
      NoPoisonYet(plan, s);
    }
    if !step.MainStep? && !step.Interrupt? {
      assert WorkerOk(plan, s.threadExit, s.workers[step.w]);
    }
  }

  lemma JobsOkStep(plan: Plan, s: State, step: Step)
    requires MainInRange(plan, s) && JobsOk(plan, s) && Enabled(plan, s, step)
    ensures JobsOk(plan, Next(plan, s, step))
  {
    if !step.MainStep? && !step.Interrupt? {
      assert WorkerOk(plan, s.threadExit, s.workers[step.w]);
    }
  }

  lemma MainOkMain(plan: Plan, s: State)
    requires MainOk(plan, s) && Enabled(plan, s, MainStep)
    ensures MainOk(plan, MainNext(plan, s))
  {
    if s.main.Collecting? && s.main.k < |plan.skips| {
      var jobs := s.collected + [s.outQueue[0]];
      assert jobs[..|jobs| - 1] == s.collected;
    }
  }

  lemma MainOkWorker(plan: Plan, s: State, step: Step)
    requires MainOk(plan, s) && Enabled(plan, s, step) && step != MainStep
    ensures MainOk(plan, Next(plan, s, step))
  {
    if step != Interrupt {
      assert s.workers[step.w] != Unstarted && s.workers[step.w] != Exited;
    }
  }

  /** What the pool promises holds after every step, whoever takes it. */
  lemma StepInv(plan: Plan, s: State, step: Step)
    requires Inv(plan, s) && Enabled(plan, s, step)
    ensures Inv(plan, Next(plan, s, step))
  {
    ConservedStep(plan, s, step);
    CountedStep(plan, s, step);
    PoisonLastStep(plan, s, step);
    JobsOkStep(plan, s, step);
    if step == MainStep {
      MainOkMain(plan, s);
    } else {
      MainOkWorker(plan, s, step);
    }
  }

  // ---- runs ----

  /** A run: states linked by the steps taken. */
  ghost predicate IsRun(plan: Plan, states: seq<State>, steps: seq<Step>) {
    && |states| == |steps| + 1
    && states[0] == Init(plan)
    && forall i :: 0 <= i < |steps| ==>
         Enabled(plan, states[i], steps[i]) && states[i + 1] == Next(plan, states[i], steps[i])
  }

  lemma {:induction false} RunInv(plan: Plan, states: seq<State>, steps: seq<Step>, i: nat)
    requires IsRun(plan, states, steps) && i < |states|
    ensures Inv(plan, states[i])
  {
    if i == 0 {
      InitInv(plan);
    } else {
      RunInv(plan, states, steps, i - 1);
      assert Enabled(plan, states[i - 1], steps[i - 1]);
      StepInv(plan, states[i - 1], steps[i - 1]);
    }
  }

  /** In every state of every run each dispatched test is in exactly one place, a test not yet
      dispatched is nowhere, and when a worker has left, every test has been dispatched and
      none is waiting in the input queue. */
  lemma RunSafe(plan: Plan, states: seq<State>, steps: seq<Step>, i: nat)
    requires IsRun(plan, states, steps) && i < |states|
    ensures forall n: nat :: Anywhere(states[i], Test(n)) == if n < TestsDispatched(plan, states[i].main) then 1 else 0
    ensures forall w, j ::
              0 <= w < |states[i].workers| && states[i].workers[w] == Exited && 0 <= j < |states[i].inQueue| ==>
                states[i].inQueue[j].tag == Poison
    ensures (exists w :: 0 <= w < |states[i].workers| && states[i].workers[w] == Exited)
              ==> TestsDispatched(plan, states[i].main) == |plan.skips|
  {
    var s := states[i];
    RunInv(plan, states, steps, i);
    forall n: nat ensures Anywhere(s, Test(n)) == if n < TestsDispatched(plan, s.main) then 1 else 0 {
      assert Anywhere(s, Test(n)) == Dispatched(plan, s.main, Test(n));
    }
    forall w, j | 0 <= w < |s.workers| && s.workers[w] == Exited && 0 <= j < |s.inQueue|
      ensures s.inQueue[j].tag == Poison
    {
      assert Holds(s.workers[w], Poison);
    }
    if exists w :: 0 <= w < |s.workers| && s.workers[w] == Exited {
      var w :| 0 <= w < |s.workers| && s.workers[w] == Exited;
      assert Holds(s.workers[w], Poison);
      if PoisonsDispatched(plan, s.main) == 0 {
        NoPoisonYet(plan, s);
      }
    }
  }

  // ---- no deadlock ----

  /** A worker that can take a step on its own. */
  predicate Busy(w: Worker) {
    w.Checking? || w.Running? || w.Reporting?
  }

  function BusyStep(s: State, w: nat): Step
    requires w < |s.workers| && Busy(s.workers[w])
  {
    match s.workers[w]
    case Checking(_) => Check(w)
    case Running(_) => Run(w, 0)
    case _ => Report(w)
  }

  lemma {:induction false} OnlyExited(ws: seq<Worker>)
    requires forall w :: 0 <= w < |ws| ==> !Busy(ws[w])
    ensures Occupied(ws) == Held(ws, Poison)
  {
    if ws != [] {
      OnlyExited(ws[1..]);
    }
  }

  lemma {:induction false} SomeTest(q: seq<Job>) returns (i: nat)
    requires In(q, Poison) < |q|
    ensures i < |q| && q[i].tag != Poison
  {
    if q[0].tag != Poison {
      i := 0;
    } else {
      i := SomeTest(q[1..]);
      i := i + 1;
    }
  }

  lemma NoPoisonReturned(plan: Plan, threadExit: bool, q: seq<Job>)
    requires forall i :: 0 <= i < |q| ==> Returned(plan, threadExit, q[i])
    ensures In(q, Poison) == 0
  {
    if In(q, Poison) > 0 {
      var i := InMember(q, Poison);
    }
  }

  /** While results are outstanding and none has come in, a worker is busy or can get a job. */
  lemma CollectingProgress(plan: Plan, s: State) returns (w: nat)
    requires Inv(plan, s) && 1 <= plan.processors
    requires s.main.Collecting? && s.main.k < |plan.skips| && s.outQueue == []
    ensures w < |s.workers| && (Busy(s.workers[w]) || (s.workers[w] == Waiting && s.inQueue != []))
  {
    if w' :| 0 <= w' < |s.workers| && Busy(s.workers[w']) {
      w := w';
    } else {
      OnlyExited(s.workers);
      assert Anywhere(s, Poison) == Dispatched(plan, s.main, Poison);
      var j := SomeTest(s.inQueue);
      assert !Holds(s.workers[0], Poison);
      w := 0;
    }
  }

  /** A worker that main waits for is busy or still finds its poison job. */
  lemma JoiningProgress(plan: Plan, s: State)
    requires Inv(plan, s) && s.main.Joining? && s.main.k < plan.processors
    ensures var w := s.workers[s.main.k];
            w == Exited || Busy(w) || (w == Waiting && s.inQueue != [])
  {
    var w := s.workers[s.main.k];
    if w == Waiting {
      assert Anywhere(s, Poison) == Dispatched(plan, s.main, Poison);
      assert !Holds(w, Poison);
      HeldBound(s.workers, Poison);
      NoPoisonReturned(plan, s.threadExit, s.outQueue);
      NoPoisonReturned(plan, s.threadExit, s.collected);
    }
  }

  /** As long as main has not joined all workers, some thread can take a step. */
  lemma NoDeadlock(plan: Plan, s: State) returns (step: Step)
    requires Inv(plan, s) && 1 <= plan.processors && !Finished(plan, s)
    ensures Enabled(plan, s, step) && step != Interrupt
  {
    if Enabled(plan, s, MainStep) {
      step := MainStep;
    } else {
      var w := 0;
      if s.main.Collecting? {
        w := CollectingProgress(plan, s);
      } else {
        w := s.main.k;
        JoiningProgress(plan, s);
      }
      step := if s.workers[w] == Waiting then Get(w) else BusyStep(s, w);
    }
  }

  // ---- every run ends ----

  function Weight(w: Worker): nat {
    match w
    case Checking(_) => 4
    case Running(_) => 3
    case Reporting(_) => 2
    case _ => 0
  }

  function Weights(ws: seq<Worker>): nat {
    if ws == [] then 0 else Weight(ws[0]) + Weights(ws[1..])
  }

  function MainRank(plan: Plan, main: Main): int {
    var tests, n := |plan.skips|, plan.processors;
    match main
    case Starting(k) => 6 * tests + 6 * n + n + 4 + (n - k)
    case Dispatching(k) => 6 * (tests - k) + 6 * n + n + 3
    case Breaking(k) => 6 * (n - k) + n + 2
    case Collecting(_) => n + 1
    case Joining(k) => n - k
  }

  /** The steps the jobs and main still have before them. */
  function Remaining(plan: Plan, s: State): int {
    MainRank(plan, s.main) + 5 * |s.inQueue| + Weights(s.workers) + |s.outQueue| + (if s.threadExit then 0 else 1)
  }

  lemma {:induction false} WeightsUpdate(ws: seq<Worker>, i: nat, w: Worker)
    requires i < |ws|
    ensures Weights(ws[i := w]) + Weight(ws[i]) == Weights(ws) + Weight(w)
  {
    if i == 0 {
      assert ws[i := w][1..] == ws[1..];
    } else {
      assert ws[i := w][1..] == ws[1..][i - 1 := w];
      WeightsUpdate(ws[1..], i - 1, w);
    }
  }

  lemma MainDecreases(plan: Plan, s: State)
    requires MainOk(plan, s) && Enabled(plan, s, MainStep)
    ensures 0 <= Remaining(plan, MainNext(plan, s)) < Remaining(plan, s)
  {
    if s.main.Starting? && s.main.k < |s.workers| {
      WeightsUpdate(s.workers, s.main.k, Waiting);
    }
  }

  lemma WorkerDecreases(plan: Plan, s: State, step: Step)
    requires MainInRange(plan, s) && JobsOk(plan, s) && Enabled(plan, s, step) && step != MainStep && step != Interrupt
    ensures 0 <= Remaining(plan, Next(plan, s, step)) < Remaining(plan, s)
  {
    WeightsUpdate(s.workers, step.w, Next(plan, s, step).workers[step.w]);
  }

  /** Every step of any thread uses up some of it. */
  lemma StepDecreases(plan: Plan, s: State, step: Step)
    requires Inv(plan, s) && Enabled(plan, s, step)
    ensures 0 <= Remaining(plan, Next(plan, s, step)) < Remaining(plan, s)
  {
    if step == MainStep {
      MainDecreases(plan, s);
    } else if step != Interrupt {
      WorkerDecreases(plan, s, step);
    }
  }

  lemma {:induction false} NoWeight(n: nat)
    ensures Weights(seq(n, _ => Unstarted)) == 0
  {
    if n > 0 {
      assert seq<Worker>(n, _ => Unstarted)[1..] == seq<Worker>(n - 1, _ => Unstarted);
      NoWeight(n - 1);
    }
  }

  lemma {:induction false} RunRemaining(plan: Plan, states: seq<State>, steps: seq<Step>, i: nat)
    requires IsRun(plan, states, steps) && i < |states|
    ensures 0 <= Remaining(plan, states[i]) <= 6 * |plan.skips| + 8 * plan.processors + 5 - i
  {
    if i == 0 {
      NoWeight(plan.processors);
    } else {
      RunRemaining(plan, states, steps, i - 1);
      RunInv(plan, states, steps, i - 1);
      assert Enabled(plan, states[i - 1], steps[i - 1]);
      StepDecreases(plan, states[i - 1], steps[i - 1]);
    }
  }

  /** No interleaving goes on for ever: this many steps is the most any run can have. */
  lemma RunsAreFinite(plan: Plan, states: seq<State>, steps: seq<Step>)
    requires IsRun(plan, states, steps)
    ensures |steps| <= 6 * |plan.skips| + 8 * plan.processors + 5
  {
    RunRemaining(plan, states, steps, |steps|);
  }

  // ---- what a finished run has done ----

  function Interrupted(jobs: seq<Job>): nat {
    if jobs == [] then 0
    else Interrupted(jobs[..|jobs| - 1]) + if jobs[|jobs| - 1].isBreak then 1 else 0
  }

  predicate Good(job: Job) {
    StatusOf(job) == PASS || StatusOf(job) == SKIP
  }

  lemma {:induction false} CountSums(jobs: seq<Job>)
    ensures var t := Count(jobs);
            t.passed + t.failed + t.valgrind + t.crashed + t.skipped + Interrupted(jobs) == |jobs|
    ensures var t := Count(jobs);
            t.passed + t.skipped == |jobs| <==> forall i :: 0 <= i < |jobs| ==> Good(jobs[i])
  {
    if jobs != [] {
      var front := jobs[..|jobs| - 1];
      CountSums(front);
      assert forall i :: 0 <= i < |front| ==> front[i] == jobs[i];
    }
  }

  lemma {:induction false} AllExited(ws: seq<Worker>)
    requires forall w :: 0 <= w < |ws| ==> ws[w] == Exited
    ensures Held(ws, Poison) == Occupied(ws) == |ws|
    ensures forall n :: Held(ws, Test(n)) == 0
  {
    if ws != [] {
      AllExited(ws[1..]);
    }
  }

  /** A run that can go on no further has finished: both queues are empty, every worker took
      exactly one poison job and left, every test was collected exactly once, and the tallies
      and the interrupted tests add up to all of them. The program returns 0 exactly when all
      passed or were skipped; without an interrupt none is missing from the tallies. */
  lemma MaximalRun(plan: Plan, states: seq<State>, steps: seq<Step>)
    requires IsRun(plan, states, steps) && 1 <= plan.processors
    requires var s := states[|steps|]; forall step :: Enabled(plan, s, step) ==> step == Interrupt
    ensures var s := states[|steps|];
            && Finished(plan, s) && s.inQueue == [] && s.outQueue == []
            && |s.workers| == plan.processors && (forall w :: 0 <= w < |s.workers| ==> s.workers[w] == Exited)
            && Held(s.workers, Poison) == plan.processors
            && |s.collected| == |plan.skips| && (forall n :: 0 <= n < |plan.skips| ==> In(s.collected, Test(n)) == 1)
    ensures var s := states[|steps|];
            s.tally.passed + s.tally.failed + s.tally.valgrind + s.tally.crashed + s.tally.skipped
              + Interrupted(s.collected) == |plan.skips|
    ensures var s := states[|steps|];
            ReturnValue(plan, s) == 0 <==> forall i :: 0 <= i < |s.collected| ==> Good(s.collected[i])
    ensures var s := states[|steps|];
            !s.threadExit ==> forall i :: 0 <= i < |s.collected| ==> StatusOf(s.collected[i]) != INTERRUPTED
  {
    var s := states[|steps|];
    RunInv(plan, states, steps, |steps|);
    if !Finished(plan, s) {
      var step := NoDeadlock(plan, s);
    }
    AllExited(s.workers);
    forall n | 0 <= n < |plan.skips| ensures In(s.collected, Test(n)) == 1 {
      assert Anywhere(s, Test(n)) == Dispatched(plan, s.main, Test(n));
    }
    CountSums(s.collected);
  }
}
