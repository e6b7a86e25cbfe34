/**
 test.py: the pool that runs the tests. The main thread starts the workers, dispatches the jobs,
 sends one break job per worker, collects the results and joins; the workers share an input and
 an output queue; an interrupt may set `thread_exit` at any moment. Every interleaving of these
 steps is a run.
 */
module TestPool {
  import opened Sequences

  /** The fields of a Job that steer the protocol; the id stands for the identity of the object. */
  datatype Job = Job(id: nat, isBreak: bool, isSkip: bool, returnCode: int)

  /** What is known of a test when it is dispatched, and the code its command returns when left alone. */
  datatype Test = Test(isSkip: bool, code: int)

  datatype Config = Config(tests: seq<Test>, processors: nat) {
    function Jobs(): nat { |tests| }
  }

  datatype Worker =
    | Unborn
    | Waiting
    | Holding(job: Job)    // fetched, before the look at thread_exit
    | Running(job: Job)
    | Reporting(job: Job)  // about to be put on the output queue
    | Exited(breakId: nat)

  datatype Main = Spawn(i: nat) | Dispatch(i: nat) | Dismiss(i: nat) | Collect(i: nat) | Join(i: nat) | Done

  datatype Tally = Tally(passed: nat, failed: nat, valgrind: nat, crashed: nat, skipped: nat) {
    function Sum(): nat { passed + failed + valgrind + crashed + skipped }
  }

  datatype State = State(
    main: Main,
    input: seq<Job>,
    output: seq<Job>,
    workers: seq<Worker>,
    threadExit: bool,
    collected: seq<Job>,
    tally: Tally)

  datatype Action =
    | MainStep
    | Take(w: nat)
    | Check(w: nat)
    | Run(w: nat, code: int)
    | Report(w: nat)
    | Interrupt

  // ---------------------------------------------------------------- the steps

  /** The id-th job main puts on the input queue: first the tests, then one break job per worker. */
  function Created(cfg: Config, id: nat): Job {
    if id < cfg.Jobs() then Job(id, false, cfg.tests[id].isSkip, 0) else Job(id, true, false, 0)
  }

  /** One turn of the collection loop. */
  function Count(t: Tally, job: Job): Tally {
    if job.isBreak then t
    else if job.isSkip then t.(skipped := t.skipped + 1)
    else if job.returnCode == 0 then t.(passed := t.passed + 1)
    else if job.returnCode == 1 then t.(failed := t.failed + 1)
    else if job.returnCode == 2 then t.(valgrind := t.valgrind + 1)
    else t.(crashed := t.crashed + 1)
  }

  function Initial(cfg: Config): State {
    State(Spawn(0), [], [], seq(cfg.processors, i => Unborn), false, [], Tally(0, 0, 0, 0, 0))
  }

  predicate MainEnabled(cfg: Config, s: State) {
    match s.main
    case Spawn(i) => i <= |s.workers|
    case Collect(i) => i < cfg.Jobs() ==> s.output != []
    case Join(i) => i < cfg.processors ==> i < |s.workers| && s.workers[i].Exited?
    case Done => false
    case _ => true
  }

  function MainNext(cfg: Config, s: State): State
    requires MainEnabled(cfg, s)
  {
    match s.main
    case Spawn(i) =>
      if i < |s.workers| then s.(main := Spawn(i + 1), workers := s.workers[i := Waiting])
      else s.(main := Dispatch(0))
    case Dispatch(i) =>
      if i < cfg.Jobs() then s.(main := Dispatch(i + 1), input := s.input + [Created(cfg, i)])
      else s.(main := Dismiss(0))
    case Dismiss(i) =>
      if i < cfg.processors then s.(main := Dismiss(i + 1), input := s.input + [Created(cfg, cfg.Jobs() + i)])
      else s.(main := Collect(0))
    case Collect(i) =>
      if i < cfg.Jobs() then
        s.(main := Collect(i + 1), output := s.output[1..],
           collected := s.collected + [s.output[0]], tally := Count(s.tally, s.output[0]))
      else s.(main := Join(0))
    case Join(i) =>
      if i < cfg.processors then s.(main := Join(i + 1)) else s.(main := Done)
  }

  /** A command cut short by an interrupt may return anything. */
  predicate Enabled(cfg: Config, s: State, a: Action) {
    match a
    case MainStep => MainEnabled(cfg, s)
    case Take(w) => w < |s.workers| && s.workers[w].Waiting? && s.input != []
    case Check(w) => w < |s.workers| && s.workers[w].Holding?
    case Run(w, code) =>
      && w < |s.workers| && s.workers[w].Running?
      && var id := s.workers[w].job.id; id < cfg.Jobs() && (s.threadExit || code == cfg.tests[id].code)
    case Report(w) => w < |s.workers| && s.workers[w].Reporting?
    case Interrupt => !s.threadExit
  }

  function SetWorker(s: State, w: nat, worker: Worker): State
    requires w < |s.workers|
  {
    s.(workers := s.workers[w := worker])
  }

  function Next(cfg: Config, s: State, a: Action): State
    requires Enabled(cfg, s, a)
  {
    match a
    case MainStep => MainNext(cfg, s)
    case Take(w) =>
      var job := s.input[0];
      SetWorker(s, w, if job.isBreak then Exited(job.id) else Holding(job)).(input := s.input[1..])
    case Check(w) =>
      var job := s.workers[w].job;
      SetWorker(s, w, if s.threadExit then Reporting(job.(isBreak := true))
                      else if job.isSkip then Reporting(job)
                      else Running(job))
    case Run(w, code) => SetWorker(s, w, Reporting(s.workers[w].job.(returnCode := code)))
    case Report(w) => SetWorker(s, w, Waiting).(output := s.output + [s.workers[w].job])
    case Interrupt => s.(threadExit := true)
  }

  ghost predicate Step(cfg: Config, s: State, t: State) {
    exists a :: Enabled(cfg, s, a) && t == Next(cfg, s, a)
  }

  ghost predicate IsRun(cfg: Config, run: seq<State>) {
    && run != []
    && run[0] == Initial(cfg)
    && forall i :: 0 <= i < |run| - 1 ==> Step(cfg, run[i], run[i + 1])
  }

  ghost predicate RunTo(cfg: Config, run: seq<State>, s: State) {
    IsRun(cfg, run) && run[|run| - 1] == s
  }

  ghost predicate Reachable(cfg: Config, s: State) {
    exists run :: RunTo(cfg, run, s)
  }

  lemma ReachInitial(cfg: Config)
    ensures Reachable(cfg, Initial(cfg))
  {
    assert RunTo(cfg, [Initial(cfg)], Initial(cfg));
  }

  lemma ReachStep(cfg: Config, s: State, a: Action)
    requires Reachable(cfg, s) && Enabled(cfg, s, a)
    ensures Reachable(cfg, Next(cfg, s, a))
  {
    var run :| RunTo(cfg, run, s);
    var t := Next(cfg, s, a);
    assert Step(cfg, s, t);
    assert RunTo(cfg, run + [t], t);
  }

  // ---------------------------------------------------------------- the census of jobs

  /** How often a job occurs in a queue. */
  function CountIn(q: seq<Job>, id: nat): nat {
    if q == [] then 0 else CountIn(q[..|q| - 1], id) + if q[|q| - 1].id == id then 1 else 0
  }

  /** A worker that has left keeps the break job it was sent. */
  function Holds(w: Worker, id: nat): nat {
    match w
    case Unborn => 0
    case Waiting => 0
    case Exited(breakId) => if breakId == id then 1 else 0
    case _ => if w.job.id == id then 1 else 0
  }

  function HeldCount(ws: seq<Worker>, id: nat): nat {
    if ws == [] then 0 else HeldCount(ws[..|ws| - 1], id) + Holds(ws[|ws| - 1], id)
  }

  function Exits(w: Worker): nat {
    if w.Exited? then 1 else 0
  }

  function ExitedCount(ws: seq<Worker>): nat {
    if ws == [] then 0 else ExitedCount(ws[..|ws| - 1]) + Exits(ws[|ws| - 1])
  }

  /** How many jobs main has put on the input queue. */
  function CreatedSoFar(cfg: Config, m: Main): nat {
    match m
    case Spawn(_) => 0
    case Dispatch(i) => i
    case Dismiss(i) => cfg.Jobs() + i
    case _ => cfg.Jobs() + cfg.processors
  }

  function CollectedSoFar(cfg: Config, m: Main): nat {
    match m
    case Spawn(_) => 0
    case Dispatch(_) => 0
    case Dismiss(_) => 0
    case Collect(i) => i
    case _ => cfg.Jobs()
  }

  lemma CountInAppend(q: seq<Job>, j: Job, id: nat)
    ensures CountIn(q + [j], id) == CountIn(q, id) + if j.id == id then 1 else 0
  {
    assert (q + [j])[..|q|] == q;
  }

  lemma {:induction false} CountInPop(q: seq<Job>, id: nat)
    requires q != []
    ensures CountIn(q, id) == CountIn(q[1..], id) + if q[0].id == id then 1 else 0
  {
    if |q| > 1 {
      CountInPop(q[..|q| - 1], id);
      assert q[..|q| - 1][1..] == q[1..][..|q| - 2];
    }
  }

  lemma {:induction false} HeldUpdate(ws: seq<Worker>, w: nat, x: Worker, id: nat)
    requires w < |ws|
    ensures HeldCount(ws[w := x], id) + Holds(ws[w], id) == HeldCount(ws, id) + Holds(x, id)
  {
    var n := |ws| - 1;
    if w == n {
      assert ws[w := x][..n] == ws[..n];
    } else {
      HeldUpdate(ws[..n], w, x, id);
      assert ws[w := x][..n] == ws[..n][w := x];
    }
  }

  lemma {:induction false} ExitedUpdate(ws: seq<Worker>, w: nat, x: Worker)
    requires w < |ws|
    ensures ExitedCount(ws[w := x]) == ExitedCount(ws) - Exits(ws[w]) + Exits(x)
  {
    var n := |ws| - 1;
    if w == n {
      assert ws[w := x][..n] == ws[..n];
    } else {
      ExitedUpdate(ws[..n], w, x);
      assert ws[w := x][..n] == ws[..n][w := x];
    }
  }

  lemma {:induction false} ExitedAtMost(ws: seq<Worker>)
    ensures ExitedCount(ws) <= |ws|
  {
    if ws != [] {
      ExitedAtMost(ws[..|ws| - 1]);
    }
  }

  lemma {:induction false} AllExited(ws: seq<Worker>)
    ensures ExitedCount(ws) == |ws| <==> forall w :: 0 <= w < |ws| ==> ws[w].Exited?
  {
    if ws != [] {
      var front := ws[..|ws| - 1];
      AllExited(front);
      ExitedAtMost(front);
      assert ws == front + [ws[|ws| - 1]];
    }
  }

  lemma {:induction false} NoneExited(ws: seq<Worker>)
    ensures ExitedCount(ws) == 0 <==> forall w :: 0 <= w < |ws| ==> !ws[w].Exited?
  {
    if ws != [] {
      var front := ws[..|ws| - 1];
      NoneExited(front);
      assert ws == front + [ws[|ws| - 1]];
    }
  }

  lemma ExitedBounds(ws: seq<Worker>)
    ensures ExitedCount(ws) <= |ws|
    ensures ExitedCount(ws) == |ws| <==> forall w :: 0 <= w < |ws| ==> ws[w].Exited?
    ensures ExitedCount(ws) == 0 <==> forall w :: 0 <= w < |ws| ==> !ws[w].Exited?
  {
    ExitedAtMost(ws);
    AllExited(ws);
    NoneExited(ws);
  }

  // ---------------------------------------------------------------- the invariant

  /** How many jobs the workers have fetched from the input queue. */
  function Taken(cfg: Config, s: State): int {
    CreatedSoFar(cfg, s.main) - |s.input|
  }

  ghost predicate AllBorn(ws: seq<Worker>) {
    forall w :: 0 <= w < |ws| ==> !ws[w].Unborn?
  }

  ghost predicate ExitedUpTo(ws: seq<Worker>, i: nat) {
    i <= |ws| && forall w :: 0 <= w < i ==> ws[w].Exited?
  }

  ghost predicate StartedUpTo(ws: seq<Worker>, i: nat) {
    i <= |ws| && forall w :: 0 <= w < |ws| ==> if w < i then ws[w].Waiting? else ws[w].Unborn?
  }

  ghost predicate PhaseInv(cfg: Config, main: Main, ws: seq<Worker>) {
    && |ws| == cfg.processors
    && (main.Spawn? ==> StartedUpTo(ws, main.i))
    && (!main.Spawn? ==> AllBorn(ws))
    && (main.Dispatch? || main.Collect? ==> main.i <= cfg.Jobs())
    && (main.Dismiss? ==> main.i <= cfg.processors)
    && (main.Join? ==> ExitedUpTo(ws, main.i))
    && (main.Done? ==> ExitedUpTo(ws, |ws|))
  }

  /** The input queue holds, in order and untouched, the jobs created last. */
  ghost predicate QueueInv(cfg: Config, taken: int, input: seq<Job>) {
    0 <= taken && forall k :: 0 <= k < |input| ==> input[k] == Created(cfg, taken + k)
  }

  /** How often a job occurs in the hands of a worker, on the output queue or among the results. */
  function Occurrences(ws: seq<Worker>, output: seq<Job>, collected: seq<Job>, id: nat): nat {
    HeldCount(ws, id) + CountIn(output, id) + CountIn(collected, id)
  }

  /** Every job taken off the input queue is in exactly one other place. */
  ghost predicate CensusInv(taken: int, ws: seq<Worker>, output: seq<Job>, collected: seq<Job>) {
    forall id: nat :: Occurrences(ws, output, collected, id) == if id < taken then 1 else 0
  }

  ghost predicate CountInv(cfg: Config, s: State) {
    && ExitedCount(s.workers) == (if Taken(cfg, s) > cfg.Jobs() then Taken(cfg, s) - cfg.Jobs() else 0)
    && |s.collected| == CollectedSoFar(cfg, s.main)
    && s.tally == TallyOf(s.collected)
  }

  /** A job that has been reported is a test that ran, was skipped or was handed back as a break. */
  ghost predicate Settled(cfg: Config, threadExit: bool, job: Job) {
    && job.id < cfg.Jobs()
    && job.isSkip == cfg.tests[job.id].isSkip
    && (job.isBreak || job.isSkip ==> job.returnCode == 0)
    && (job.isBreak ==> threadExit)
    && (!job.isBreak && !job.isSkip && !threadExit ==> job.returnCode == cfg.tests[job.id].code)
  }

  ghost predicate WorkerInv(cfg: Config, threadExit: bool, w: Worker) {
    match w
    case Holding(job) => job.id < cfg.Jobs() && job == Created(cfg, job.id)
    case Running(job) => job.id < cfg.Jobs() && job == Created(cfg, job.id) && !job.isSkip
    case Reporting(job) => Settled(cfg, threadExit, job)
    case Exited(id) => cfg.Jobs() <= id
    case _ => true
  }

  ghost predicate WorkersInv(cfg: Config, threadExit: bool, ws: seq<Worker>) {
    forall w :: 0 <= w < |ws| ==> WorkerInv(cfg, threadExit, ws[w])
  }

  ghost predicate AllSettled(cfg: Config, threadExit: bool, q: seq<Job>) {
    forall k :: 0 <= k < |q| ==> Settled(cfg, threadExit, q[k])
  }

  ghost predicate Inv(cfg: Config, s: State) {
    && PhaseInv(cfg, s.main, s.workers)
    && QueueInv(cfg, Taken(cfg, s), s.input)
    && CensusInv(Taken(cfg, s), s.workers, s.output, s.collected)
    && CountInv(cfg, s)
    && WorkersInv(cfg, s.threadExit, s.workers)
    && AllSettled(cfg, s.threadExit, s.output)
    && AllSettled(cfg, s.threadExit, s.collected)
  }

  /** The counters after collecting the jobs in order. */
  function TallyOf(jobs: seq<Job>): Tally {
    if jobs == [] then Tally(0, 0, 0, 0, 0) else Count(TallyOf(jobs[..|jobs| - 1]), jobs[|jobs| - 1])
  }

  lemma {:induction false} NobodyHolds(ws: seq<Worker>)
    requires forall w :: 0 <= w < |ws| ==> ws[w].Unborn? || ws[w].Waiting?
    ensures ExitedCount(ws) == 0 && forall id :: HeldCount(ws, id) == 0
  {
    if ws != [] {
      NobodyHolds(ws[..|ws| - 1]);
    }
  }

  lemma InvInitial(cfg: Config)
    ensures Inv(cfg, Initial(cfg))
  {
    NobodyHolds(Initial(cfg).workers);
  }

  lemma InvSpawn(cfg: Config, s: State)
    requires Inv(cfg, s) && s.main.Spawn? && MainEnabled(cfg, s)
    ensures Inv(cfg, MainNext(cfg, s))
  {
    var t := MainNext(cfg, s);
    NobodyHolds(s.workers);
    NobodyHolds(t.workers);
    forall id: nat
      ensures Occurrences(t.workers, s.output, s.collected, id) == Occurrences(s.workers, s.output, s.collected, id)
    {
    }
  }

  lemma InvCreate(cfg: Config, s: State)
    requires Inv(cfg, s) && (s.main.Dispatch? || s.main.Dismiss?)
    ensures Inv(cfg, MainNext(cfg, s))
  {
    var t := MainNext(cfg, s);
    assert Taken(cfg, t) == Taken(cfg, s);
  }

  lemma InvCollect(cfg: Config, s: State)
    requires Inv(cfg, s) && s.main.Collect? && MainEnabled(cfg, s)
    ensures Inv(cfg, MainNext(cfg, s))
  {
    assert Taken(cfg, MainNext(cfg, s)) == Taken(cfg, s);
    if s.main.i < cfg.Jobs() {
      CollectOne(cfg, Taken(cfg, s), s.workers, s.threadExit, s.output, s.collected);
    }
  }

  lemma CollectOne(cfg: Config, taken: nat, ws: seq<Worker>, threadExit: bool, output: seq<Job>, collected: seq<Job>)
    requires CensusInv(taken, ws, output, collected) && output != []
    requires AllSettled(cfg, threadExit, output) && AllSettled(cfg, threadExit, collected)
    ensures CensusInv(taken, ws, output[1..], collected + [output[0]])
    ensures AllSettled(cfg, threadExit, output[1..]) && AllSettled(cfg, threadExit, collected + [output[0]])
    ensures TallyOf(collected + [output[0]]) == Count(TallyOf(collected), output[0])
  {
    forall id: nat
      ensures Occurrences(ws, output[1..], collected + [output[0]], id) == Occurrences(ws, output, collected, id)
    {
      CountInPop(output, id);
      CountInAppend(collected, output[0], id);
    }
    assert (collected + [output[0]])[..|collected|] == collected;
  }

  lemma InvJoin(cfg: Config, s: State)
    requires Inv(cfg, s) && s.main.Join? && MainEnabled(cfg, s)
    ensures Inv(cfg, MainNext(cfg, s))
  {
    assert Taken(cfg, MainNext(cfg, s)) == Taken(cfg, s);
  }

  /** Replacing one started worker's state keeps the phase facts. */
  lemma WorkerChanges(cfg: Config, main: Main, ws: seq<Worker>, w: nat, x: Worker, threadExit: bool)
    requires PhaseInv(cfg, main, ws) && WorkersInv(cfg, threadExit, ws) && !main.Spawn? && w < |ws|
    requires !ws[w].Exited? && !x.Unborn? && WorkerInv(cfg, threadExit, x)
    ensures PhaseInv(cfg, main, ws[w := x]) && WorkersInv(cfg, threadExit, ws[w := x])
  {
  }

  lemma InvTake(cfg: Config, s: State, w: nat)
    requires Inv(cfg, s) && Enabled(cfg, s, Take(w))
    ensures Inv(cfg, Next(cfg, s, Take(w)))
  {
    var job, taken, t := s.input[0], Taken(cfg, s), Next(cfg, s, Take(w));
    var x := if job.isBreak then Exited(job.id) else Holding(job);
    assert job == Created(cfg, taken + 0);
    assert t == SetWorker(s, w, x).(input := s.input[1..]);
    WorkerChanges(cfg, s.main, s.workers, w, x, s.threadExit);
    QueuePop(cfg, taken, s.input);
    CensusTake(taken, s.workers, w, x, s.output, s.collected);
    ExitedUpdate(s.workers, w, x);
    assert Taken(cfg, t) == taken + 1;
  }

  lemma CensusTake(taken: nat, ws: seq<Worker>, w: nat, x: Worker, output: seq<Job>, collected: seq<Job>)
    requires CensusInv(taken, ws, output, collected) && w < |ws| && ws[w].Waiting?
    requires forall id :: Holds(x, id) == if id == taken then 1 else 0
    ensures CensusInv(taken + 1, ws[w := x], output, collected)
  {
    var after := ws[w := x];
    forall id: nat
      ensures Occurrences(after, output, collected, id) == Occurrences(ws, output, collected, id) + Holds(x, id)
    {
      HeldUpdate(ws, w, x, id);
    }
  }

  lemma CensusReport(taken: nat, ws: seq<Worker>, w: nat, output: seq<Job>, collected: seq<Job>)
    requires CensusInv(taken, ws, output, collected) && w < |ws| && ws[w].Reporting?
    ensures CensusInv(taken, ws[w := Waiting], output + [ws[w].job], collected)
  {
    var after, more := ws[w := Waiting], output + [ws[w].job];
    forall id: nat
      ensures Occurrences(after, more, collected, id) == Occurrences(ws, output, collected, id)
    {
      HeldUpdate(ws, w, Waiting, id);
      CountInAppend(output, ws[w].job, id);
    }
  }

  lemma CensusKeep(taken: nat, ws: seq<Worker>, w: nat, x: Worker, output: seq<Job>, collected: seq<Job>)
    requires CensusInv(taken, ws, output, collected) && w < |ws|
    requires forall id :: Holds(x, id) == Holds(ws[w], id)
    ensures CensusInv(taken, ws[w := x], output, collected)
  {
    var after := ws[w := x];
    forall id: nat
      ensures Occurrences(after, output, collected, id) == Occurrences(ws, output, collected, id)
    {
      HeldUpdate(ws, w, x, id);
    }
  }

  lemma QueuePop(cfg: Config, taken: int, input: seq<Job>)
    requires QueueInv(cfg, taken, input) && input != []
    ensures QueueInv(cfg, taken + 1, input[1..])
  {
  }

  lemma InvReport(cfg: Config, s: State, w: nat)
    requires Inv(cfg, s) && Enabled(cfg, s, Report(w))
    ensures Inv(cfg, Next(cfg, s, Report(w)))
  {
    assert WorkerInv(cfg, s.threadExit, s.workers[w]);
    WorkerChanges(cfg, s.main, s.workers, w, Waiting, s.threadExit);
    CensusReport(Taken(cfg, s), s.workers, w, s.output, s.collected);
    ExitedUpdate(s.workers, w, Waiting);
    assert AllSettled(cfg, s.threadExit, s.output + [s.workers[w].job]);
    assert Taken(cfg, Next(cfg, s, Report(w))) == Taken(cfg, s);
  }

  /** The steps a worker takes on the job it holds. */
  lemma InvInside(cfg: Config, s: State, a: Action, w: nat)
    requires Inv(cfg, s) && Enabled(cfg, s, a) && (a == Check(w) || (a.Run? && a.w == w))
    ensures Inv(cfg, Next(cfg, s, a))
  {
    var x := Next(cfg, s, a).workers[w];
    assert WorkerInv(cfg, s.threadExit, s.workers[w]);
    WorkerChanges(cfg, s.main, s.workers, w, x, s.threadExit);
    CensusKeep(Taken(cfg, s), s.workers, w, x, s.output, s.collected);
    ExitedUpdate(s.workers, w, x);
    assert Taken(cfg, Next(cfg, s, a)) == Taken(cfg, s);
  }

  lemma InvInterrupt(cfg: Config, s: State)
    requires Inv(cfg, s)
    ensures Inv(cfg, s.(threadExit := true))
  {
  }

  lemma InvStep(cfg: Config, s: State, a: Action)
    requires Inv(cfg, s) && Enabled(cfg, s, a)
    ensures Inv(cfg, Next(cfg, s, a))
  {
    match a
    case MainStep =>
      match s.main {
        case Spawn(_) => InvSpawn(cfg, s);
        case Collect(_) => InvCollect(cfg, s);
        case Join(_) => InvJoin(cfg, s);
        case _ => InvCreate(cfg, s);
      }
    case Take(w) => InvTake(cfg, s, w);
    case Check(w) => InvInside(cfg, s, a, w);
    case Run(w, code) => InvInside(cfg, s, a, w);
    case Report(w) => InvReport(cfg, s, w);
    case Interrupt => InvInterrupt(cfg, s);
  }

  lemma {:induction false} InvRun(cfg: Config, run: seq<State>, n: nat)
    requires IsRun(cfg, run) && n < |run|
    ensures Inv(cfg, run[n])
  {
    if n == 0 {
      InvInitial(cfg);
    } else {
      InvRun(cfg, run, n - 1);
      assert Step(cfg, run[n - 1], run[n - 1 + 1]);
      var a :| Enabled(cfg, run[n - 1], a) && run[n] == Next(cfg, run[n - 1], a);
      InvStep(cfg, run[n - 1], a);
    }
  }

  lemma InvReachable(cfg: Config, s: State)
    requires Reachable(cfg, s)
    ensures Inv(cfg, s)
  {
    var run :| RunTo(cfg, run, s);
    InvRun(cfg, run, |run| - 1);
  }

  // ---------------------------------------------------------------- where the jobs are

  /** In every reachable state each job created so far is in exactly one place, exactly once. */
  lemma EachJobInOnePlace(cfg: Config, s: State, id: nat)
    requires Reachable(cfg, s)
    ensures CountIn(s.input, id) + HeldCount(s.workers, id) + CountIn(s.output, id) + CountIn(s.collected, id)
         == if id < CreatedSoFar(cfg, s.main) then 1 else 0
  {
    InvReachable(cfg, s);
    QueueCounts(cfg, Taken(cfg, s), s.input, id);
    assert Occurrences(s.workers, s.output, s.collected, id) == if id < Taken(cfg, s) then 1 else 0;
  }

  lemma {:induction false} QueueCounts(cfg: Config, taken: nat, input: seq<Job>, id: nat)
    requires QueueInv(cfg, taken, input)
    ensures CountIn(input, id) == if taken <= id < taken + |input| then 1 else 0
  {
    if input != [] {
      var front := input[..|input| - 1];
      QueueCounts(cfg, taken, front, id);
      assert input[|input| - 1] == Created(cfg, taken + |input| - 1);
    }
  }

  /** The input queue only ever holds jobs as main created them: no handed-back break re-enters it. */
  lemma InputIsPristine(cfg: Config, s: State, j: Job)
    requires Reachable(cfg, s) && j in s.input
    ensures j == Created(cfg, j.id)
    ensures j.isBreak <==> j.id >= cfg.Jobs()
  {
    InvReachable(cfg, s);
    var k :| 0 <= k < |s.input| && s.input[k] == j;
    assert j == Created(cfg, Taken(cfg, s) + k);
  }

  /** Once a worker has left, no test is waiting in the input queue any more. */
  lemma NoExitBeforeLastTest(cfg: Config, s: State, w: nat, j: Job)
    requires Reachable(cfg, s) && w < |s.workers| && s.workers[w].Exited? && j in s.input
    ensures j.isBreak
  {
    InvReachable(cfg, s);
    ExitedBounds(s.workers);
    var k :| 0 <= k < |s.input| && s.input[k] == j;
    assert j == Created(cfg, Taken(cfg, s) + k);
  }

  // ---------------------------------------------------------------- termination and progress

  function HeldWork(w: Worker): nat {
    match w
    case Holding(_) => 3
    case Running(_) => 2
    case Reporting(_) => 1
    case _ => 0
  }

  function AllHeldWork(ws: seq<Worker>): nat {
    if ws == [] then 0 else AllHeldWork(ws[..|ws| - 1]) + HeldWork(ws[|ws| - 1])
  }

  /** Steps main still has to take; creating a job also pays for the four steps a worker spends on it. */
  function MainWork(cfg: Config, m: Main): int {
    var n, p := cfg.Jobs(), cfg.processors;
    match m
    case Spawn(i) => (p - i) + 5 * n + 5 * p + n + p + 5
    case Dispatch(i) => 5 * (n - i) + 5 * p + n + p + 4
    case Dismiss(i) => 5 * (p - i) + n + p + 3
    case Collect(i) => (n - i) + p + 2
    case Join(i) => (p - i) + 1
    case Done => 0
  }

  function Measure(cfg: Config, s: State): int {
    MainWork(cfg, s.main) + 4 * |s.input| + AllHeldWork(s.workers) + if s.threadExit then 0 else 1
  }

  lemma {:induction false} HeldWorkUpdate(ws: seq<Worker>, w: nat, x: Worker)
    requires w < |ws|
    ensures AllHeldWork(ws[w := x]) + HeldWork(ws[w]) == AllHeldWork(ws) + HeldWork(x)
  {
    var n := |ws| - 1;
    if w == n {
      assert ws[w := x][..n] == ws[..n];
    } else {
      HeldWorkUpdate(ws[..n], w, x);
      assert ws[w := x][..n] == ws[..n][w := x];
    }
  }

  lemma {:induction false} NoHeldWork(ws: seq<Worker>)
    requires forall w :: 0 <= w < |ws| ==> ws[w].Unborn? || ws[w].Waiting?
    ensures AllHeldWork(ws) == 0
  {
    if ws != [] {
      NoHeldWork(ws[..|ws| - 1]);
    }
  }

  lemma MeasureMain(cfg: Config, s: State)
    requires Inv(cfg, s) && MainEnabled(cfg, s)
    ensures Measure(cfg, MainNext(cfg, s)) < Measure(cfg, s)
  {
    if s.main.Spawn? {
      MeasureSpawn(cfg, s);
    }
  }

  lemma MeasureSpawn(cfg: Config, s: State)
    requires Inv(cfg, s) && MainEnabled(cfg, s) && s.main.Spawn?
    ensures Measure(cfg, MainNext(cfg, s)) < Measure(cfg, s)
  {
    NoHeldWork(s.workers);
    NoHeldWork(MainNext(cfg, s).workers);
  }

  lemma MeasureWorker(cfg: Config, s: State, a: Action)
    requires Enabled(cfg, s, a) && !a.MainStep? && !a.Interrupt?
    ensures Measure(cfg, Next(cfg, s, a)) < Measure(cfg, s)
  {
    HeldWorkUpdate(s.workers, a.w, Next(cfg, s, a).workers[a.w]);
  }

  /** Every step, whoever takes it, brings the pool closer to its end. */
  lemma MeasureDecreases(cfg: Config, s: State, t: State)
    requires Inv(cfg, s) && Step(cfg, s, t)
    ensures Inv(cfg, t) && Measure(cfg, t) < Measure(cfg, s)
  {
    var a :| Enabled(cfg, s, a) && t == Next(cfg, s, a);
    InvStep(cfg, s, a);
    match a
    case MainStep => MeasureMain(cfg, s);
    case Interrupt =>
    case _ => MeasureWorker(cfg, s, a);
  }

  lemma MeasureBounds(cfg: Config, s: State)
    requires Inv(cfg, s)
    ensures 0 <= Measure(cfg, s)
  {
  }

  lemma MeasureAtStart(cfg: Config)
    ensures Measure(cfg, Initial(cfg)) == 6 * cfg.Jobs() + 7 * cfg.processors + 6
  {
    NoHeldWork(Initial(cfg).workers);
  }

  lemma {:induction false} MeasureAlongRun(cfg: Config, run: seq<State>, n: nat)
    requires IsRun(cfg, run) && n < |run|
    ensures Inv(cfg, run[n]) && Measure(cfg, run[n]) <= Measure(cfg, Initial(cfg)) - n
  {
    if n == 0 {
      InvInitial(cfg);
    } else {
      MeasureAlongRun(cfg, run, n - 1);
      assert Step(cfg, run[n - 1], run[n - 1 + 1]);
      MeasureDecreases(cfg, run[n - 1], run[n]);
    }
  }

  /** With n jobs and p workers no schedule, interrupted or not, takes more than 6n + 7p + 6 steps. */
  lemma RunsAreBounded(cfg: Config, run: seq<State>)
    requires IsRun(cfg, run)
    ensures |run| - 1 <= 6 * cfg.Jobs() + 7 * cfg.processors + 6
  {
    MeasureAtStart(cfg);
    MeasureAlongRun(cfg, run, |run| - 1);
    MeasureBounds(cfg, run[|run| - 1]);
  }

  // ---------------------------------------------------------------- after an interrupt

  function Runs(w: Worker): nat {
    if w.Running? then 1 else 0
  }

  /** How many commands are under way. */
  function RunningCount(ws: seq<Worker>): nat {
    if ws == [] then 0 else RunningCount(ws[..|ws| - 1]) + Runs(ws[|ws| - 1])
  }

  lemma {:induction false} RunningUpdate(ws: seq<Worker>, w: nat, x: Worker)
    requires w < |ws|
    ensures RunningCount(ws[w := x]) + Runs(ws[w]) == RunningCount(ws) + Runs(x)
  {
    var n := |ws| - 1;
    if w == n {
      assert ws[w := x][..n] == ws[..n];
    } else {
      RunningUpdate(ws[..n], w, x);
      assert ws[w := x][..n] == ws[..n][w := x];
    }
  }

  lemma {:induction false} RunningBounds(ws: seq<Worker>)
    ensures RunningCount(ws) <= |ws|
  {
    if ws != [] {
      RunningBounds(ws[..|ws| - 1]);
    }
  }

  /** The actions can be taken one after the other. */
  predicate Plays(cfg: Config, s: State, actions: seq<Action>)
    decreases |actions|
  {
    actions == [] || (Enabled(cfg, s, actions[0]) && Plays(cfg, Next(cfg, s, actions[0]), actions[1..]))
  }

  /** How many commands come to their end. */
  function Returns(actions: seq<Action>): nat {
    if actions == [] then 0 else (if actions[0].Run? then 1 else 0) + Returns(actions[1..])
  }

  /** Once interrupted the pool starts no command any more: each step ends one that is under way, or none. */
  lemma NoNewCommand(cfg: Config, s: State, a: Action)
    requires s.threadExit && Enabled(cfg, s, a)
    ensures Next(cfg, s, a).threadExit && |Next(cfg, s, a).workers| == |s.workers|
    ensures RunningCount(Next(cfg, s, a).workers) + (if a.Run? then 1 else 0) <= RunningCount(s.workers)
  {
    match a
    case MainStep =>
      if s.main.Spawn? && s.main.i < |s.workers| {
        RunningUpdate(s.workers, s.main.i, Waiting);
      }
    case Take(w) => RunningUpdate(s.workers, w, Next(cfg, s, a).workers[w]);
    case Check(w) => RunningUpdate(s.workers, w, Next(cfg, s, a).workers[w]);
    case Run(w, code) => RunningUpdate(s.workers, w, Next(cfg, s, a).workers[w]);
    case Report(w) => RunningUpdate(s.workers, w, Waiting);
  }

  lemma {:induction false} OnlyRunningReturn(cfg: Config, s: State, actions: seq<Action>)
    requires s.threadExit && Plays(cfg, s, actions)
    ensures Returns(actions) <= RunningCount(s.workers)
    decreases |actions|
  {
    if actions != [] {
      NoNewCommand(cfg, s, actions[0]);
      OnlyRunningReturn(cfg, Next(cfg, s, actions[0]), actions[1..]);
    }
  }

  /** After an interrupt at most one command for each worker still returns, however the run goes on. */
  lemma InterruptBoundsCommands(cfg: Config, s: State, actions: seq<Action>)
    requires Reachable(cfg, s) && s.threadExit && Plays(cfg, s, actions)
    ensures Returns(actions) <= RunningCount(s.workers) <= cfg.processors
  {
    OnlyRunningReturn(cfg, s, actions);
    RunningBounds(s.workers);
    InvReachable(cfg, s);
  }

  // ---------------------------------------------------------------- no deadlock

  /** Some step other than an interrupt is possible. */
  ghost predicate CanProceed(cfg: Config, s: State) {
    exists a :: Enabled(cfg, s, a) && !a.Interrupt?
  }

  /** A worker with a job in hand can always go on. */
  lemma BusyWorkerProceeds(cfg: Config, s: State, w: nat)
    requires Inv(cfg, s) && w < |s.workers|
    requires s.workers[w].Holding? || s.workers[w].Running? || s.workers[w].Reporting?
    ensures CanProceed(cfg, s)
  {
    assert WorkerInv(cfg, s.threadExit, s.workers[w]);
    match s.workers[w]
    case Holding(_) => assert Enabled(cfg, s, Check(w));
    case Running(job) => assert Enabled(cfg, s, Run(w, cfg.tests[job.id].code));
    case Reporting(_) => assert Enabled(cfg, s, Report(w));
  }

  // Counting heads: with every fetched job in exactly one place, the places hold as many as were fetched.

  function Ids(q: seq<Job>): seq<nat> {
    if q == [] then [] else Ids(q[..|q| - 1]) + [q[|q| - 1].id]
  }

  function IdsHeld(w: Worker): seq<nat> {
    match w
    case Unborn => []
    case Waiting => []
    case Exited(id) => [id]
    case _ => [w.job.id]
  }

  function HeldIds(ws: seq<Worker>): seq<nat> {
    if ws == [] then [] else HeldIds(ws[..|ws| - 1]) + IdsHeld(ws[|ws| - 1])
  }

  function Below(k: nat): multiset<nat> {
    if k == 0 then multiset{} else Below(k - 1) + multiset{k - 1}
  }

  lemma {:induction false} BelowCounts(k: nat, id: nat)
    ensures Below(k)[id] == if id < k then 1 else 0
    ensures |Below(k)| == k
  {
    if k > 0 {
      BelowCounts(k - 1, id);
    }
  }

  lemma {:induction false} IdsCount(q: seq<Job>, id: nat)
    ensures |Ids(q)| == |q| && multiset(Ids(q))[id] == CountIn(q, id)
  {
    if q != [] {
      var front, last := q[..|q| - 1], q[|q| - 1];
      IdsCount(front, id);
      MultisetConcat(Ids(front), [last.id], id);
    }
  }

  lemma IdsHeldCount(w: Worker, id: nat)
    ensures multiset(IdsHeld(w))[id] == Holds(w, id)
  {
  }

  lemma {:induction false} HeldIdsCount(ws: seq<Worker>, id: nat)
    ensures multiset(HeldIds(ws))[id] == HeldCount(ws, id)
  {
    if ws != [] {
      var front, last := ws[..|ws| - 1], ws[|ws| - 1];
      HeldIdsCount(front, id);
      IdsHeldCount(last, id);
      MultisetConcat(HeldIds(front), IdsHeld(last), id);
    }
  }

  lemma {:induction false} HeldIdsBounds(ws: seq<Worker>)
    ensures ExitedCount(ws) <= |HeldIds(ws)| <= |ws|
  {
    if ws != [] {
      HeldIdsBounds(ws[..|ws| - 1]);
    }
  }

  lemma {:induction false} IdleHoldBreaks(ws: seq<Worker>)
    requires Idle(ws)
    ensures |HeldIds(ws)| == ExitedCount(ws)
  {
    if ws != [] {
      IdleHoldBreaks(ws[..|ws| - 1]);
    }
  }

  lemma OneEach(s: seq<nat>, k: nat)
    requires forall id: nat :: multiset(s)[id] == if id < k then 1 else 0
    ensures |s| == k
  {
    forall id: nat
      ensures Below(k)[id] == multiset(s)[id]
    {
      BelowCounts(k, id);
    }
    BelowCounts(k, 0);
    assert multiset(s) == Below(k);
    assert |multiset(s)| == |s|;
  }

  lemma ConcatCount(a: seq<nat>, b: seq<nat>, c: seq<nat>, id: nat)
    ensures multiset(a + b + c)[id] == multiset(a)[id] + multiset(b)[id] + multiset(c)[id]
  {
    MultisetConcat(a, b, id);
    MultisetConcat(a + b, c, id);
  }

  lemma CensusCounts(taken: nat, ws: seq<Worker>, output: seq<Job>, collected: seq<Job>, id: nat)
    requires CensusInv(taken, ws, output, collected)
    ensures multiset(HeldIds(ws) + Ids(output) + Ids(collected))[id] == if id < taken then 1 else 0
  {
    ConcatCount(HeldIds(ws), Ids(output), Ids(collected), id);
    HeldIdsCount(ws, id);
    IdsCount(output, id);
    IdsCount(collected, id);
    assert Occurrences(ws, output, collected, id) == if id < taken then 1 else 0;
  }

  lemma FetchedJobsAddUp(cfg: Config, s: State)
    requires Inv(cfg, s)
    ensures Taken(cfg, s) == |HeldIds(s.workers)| + |s.output| + |s.collected|
  {
    var all: seq<nat> := HeldIds(s.workers) + Ids(s.output) + Ids(s.collected);
    forall id: nat
      ensures multiset(all)[id] == if id < Taken(cfg, s) then 1 else 0
    {
      CensusCounts(Taken(cfg, s), s.workers, s.output, s.collected, id);
    }
    OneEach(all, Taken(cfg, s));
    IdsCount(s.output, 0);
    IdsCount(s.collected, 0);
  }

  /** With at least one worker, or nothing to do, the pool never gets stuck before it is done. */
  lemma NoDeadlock(cfg: Config, s: State)
    requires Inv(cfg, s) && !s.main.Done? && (cfg.processors >= 1 || cfg.Jobs() == 0)
    ensures CanProceed(cfg, s)
  {
    if MainEnabled(cfg, s) {
      assert Enabled(cfg, s, MainStep);
    } else if w: nat :| w < |s.workers| && (s.workers[w].Holding? || s.workers[w].Running? || s.workers[w].Reporting?) {
      BusyWorkerProceeds(cfg, s, w);
    } else {
      SomeoneCanTake(cfg, s);
    }
  }

  ghost predicate Idle(ws: seq<Worker>) {
    forall w :: 0 <= w < |ws| ==> ws[w].Waiting? || ws[w].Exited?
  }

  lemma IdleCounts(cfg: Config, s: State)
    requires Inv(cfg, s) && Idle(s.workers)
    ensures Taken(cfg, s) == ExitedCount(s.workers) + |s.output| + |s.collected|
  {
    FetchedJobsAddUp(cfg, s);
    IdleHoldBreaks(s.workers);
  }

  /** When main waits and nobody is busy, a waiting worker finds a job in the queue. */
  lemma SomeoneCanTake(cfg: Config, s: State)
    requires Inv(cfg, s) && !MainEnabled(cfg, s) && !s.main.Done? && (cfg.processors >= 1 || cfg.Jobs() == 0)
    requires forall w :: 0 <= w < |s.workers| ==>
               !s.workers[w].Holding? && !s.workers[w].Running? && !s.workers[w].Reporting?
    ensures CanProceed(cfg, s)
  {
    var w := WaitingWorker(cfg, s);
    assert Enabled(cfg, s, Take(w));
  }

  lemma WaitingWorker(cfg: Config, s: State) returns (w: nat)
    requires Inv(cfg, s) && !MainEnabled(cfg, s) && !s.main.Done? && (cfg.processors >= 1 || cfg.Jobs() == 0)
    requires forall w :: 0 <= w < |s.workers| ==>
               !s.workers[w].Holding? && !s.workers[w].Running? && !s.workers[w].Reporting?
    ensures w < |s.workers| && s.workers[w].Waiting? && s.input != []
  {
    assert AllBorn(s.workers) && Idle(s.workers);
    IdleCounts(cfg, s);
    ExitedBounds(s.workers);
    w := if s.main.Collect? then 0 else s.main.i;
  }

  // ---------------------------------------------------------------- the end of a run

  /** When main is done, everything has been collected and every worker has left on a break job of its own. */
  lemma AtTheEnd(cfg: Config, s: State)
    requires Inv(cfg, s) && s.main.Done?
    ensures s.input == [] && s.output == [] && |s.collected| == cfg.Jobs()
    ensures forall id: nat :: CountIn(s.collected, id) == if id < cfg.Jobs() then 1 else 0
    ensures forall w :: 0 <= w < |s.workers| ==> s.workers[w].Exited?
    ensures forall id: nat :: HeldCount(s.workers, id) == if cfg.Jobs() <= id < cfg.Jobs() + cfg.processors then 1 else 0
  {
    FetchedJobsAddUp(cfg, s);
    HeldIdsBounds(s.workers);
    ExitedBounds(s.workers);
    forall id: nat
      ensures CountIn(s.collected, id) == if id < cfg.Jobs() then 1 else 0
      ensures HeldCount(s.workers, id) == if cfg.Jobs() <= id < cfg.Jobs() + cfg.processors then 1 else 0
    {
      assert Occurrences(s.workers, s.output, s.collected, id) == if id < Taken(cfg, s) then 1 else 0;
      HeldAreBreaks(cfg, s.threadExit, s.workers, id);
      CollectedAreTests(cfg, s.threadExit, s.collected, id);
    }
  }

  lemma {:induction false} HeldAreBreaks(cfg: Config, threadExit: bool, ws: seq<Worker>, id: nat)
    requires WorkersInv(cfg, threadExit, ws) && forall w :: 0 <= w < |ws| ==> ws[w].Exited?
    ensures id < cfg.Jobs() ==> HeldCount(ws, id) == 0
  {
    if ws != [] {
      HeldAreBreaks(cfg, threadExit, ws[..|ws| - 1], id);
      assert WorkerInv(cfg, threadExit, ws[|ws| - 1]);
    }
  }

  lemma {:induction false} CollectedAreTests(cfg: Config, threadExit: bool, q: seq<Job>, id: nat)
    requires AllSettled(cfg, threadExit, q)
    ensures id >= cfg.Jobs() ==> CountIn(q, id) == 0
  {
    if q != [] {
      CollectedAreTests(cfg, threadExit, q[..|q| - 1], id);
      assert Settled(cfg, threadExit, q[|q| - 1]);
    }
  }

  // ---------------------------------------------------------------- deadlock, exactly

  /** A pool without workers collects forever as soon as there is a job. */
  lemma {:induction false} DispatchWithoutWorkers(cfg: Config, i: nat)
    requires cfg.processors == 0 && i <= cfg.Jobs()
    ensures Reachable(cfg, State(Dispatch(i), QueueOf(cfg, i), [], [], false, [], Tally(0, 0, 0, 0, 0)))
  {
    if i == 0 {
      ReachInitial(cfg);
      assert Initial(cfg).workers == [];
      ReachStep(cfg, Initial(cfg), MainStep);
    } else {
      DispatchWithoutWorkers(cfg, i - 1);
      ReachStep(cfg, State(Dispatch(i - 1), QueueOf(cfg, i - 1), [], [], false, [], Tally(0, 0, 0, 0, 0)), MainStep);
    }
  }

  function QueueOf(cfg: Config, i: nat): seq<Job> {
    if i == 0 then [] else QueueOf(cfg, i - 1) + [Created(cfg, i - 1)]
  }

  lemma StuckWithoutWorkers(cfg: Config) returns (s: State)
    requires cfg.processors == 0 && cfg.Jobs() > 0
    ensures Reachable(cfg, s) && !s.main.Done? && !CanProceed(cfg, s)
  {
    var n := cfg.Jobs();
    DispatchWithoutWorkers(cfg, n);
    var dispatched := State(Dispatch(n), QueueOf(cfg, n), [], [], false, [], Tally(0, 0, 0, 0, 0));
    ReachStep(cfg, dispatched, MainStep);
    ReachStep(cfg, dispatched.(main := Dismiss(0)), MainStep);
    s := dispatched.(main := Collect(0));
  }

  /** The pool is free of deadlock exactly when it has a worker or nothing to do. */
  lemma DeadlockFreeIff(cfg: Config)
    ensures (forall s :: Reachable(cfg, s) && !s.main.Done? ==> CanProceed(cfg, s))
       <==> cfg.processors >= 1 || cfg.Jobs() == 0
  {
    if cfg.processors >= 1 || cfg.Jobs() == 0 {
      forall s | Reachable(cfg, s) && !s.main.Done?
        ensures CanProceed(cfg, s)
      {
        InvReachable(cfg, s);
        NoDeadlock(cfg, s);
      }
    } else {
      var s := StuckWithoutWorkers(cfg);
    }
  }

  /** From every reachable state the pool can be driven to its end. */
  lemma {:induction false} CanAlwaysFinish(cfg: Config, s: State) returns (t: State)
    requires Reachable(cfg, s) && (cfg.processors >= 1 || cfg.Jobs() == 0)
    ensures Reachable(cfg, t) && t.main.Done?
    decreases Measure(cfg, s)
  {
    if s.main.Done? {
      t := s;
    } else {
      InvReachable(cfg, s);
      NoDeadlock(cfg, s);
      MeasureBounds(cfg, s);
      var a :| Enabled(cfg, s, a) && !a.Interrupt?;
      ReachStep(cfg, s, a);
      assert Step(cfg, s, Next(cfg, s, a));
      MeasureDecreases(cfg, s, Next(cfg, s, a));
      t := CanAlwaysFinish(cfg, Next(cfg, s, a));
    }
  }

  // ---------------------------------------------------------------- the counters

  // What each counter stands for.

  predicate IsSkipped(j: Job) { !j.isBreak && j.isSkip }

  predicate IsPassed(j: Job) { !j.isBreak && !j.isSkip && j.returnCode == 0 }

  predicate IsFailed(j: Job) { !j.isBreak && !j.isSkip && j.returnCode == 1 }

  predicate IsValgrind(j: Job) { !j.isBreak && !j.isSkip && j.returnCode == 2 }

  predicate IsCrashed(j: Job) { !j.isBreak && !j.isSkip && j.returnCode !in {0, 1, 2} }

  /** Each counter is the number of results of its kind. */
  predicate CountsKinds(t: Tally, results: seq<Job>) {
    && t.passed == |Positions(results, IsPassed)|
    && t.failed == |Positions(results, IsFailed)|
    && t.valgrind == |Positions(results, IsValgrind)|
    && t.crashed == |Positions(results, IsCrashed)|
    && t.skipped == |Positions(results, IsSkipped)|
  }

  lemma CountsOneMore(t: Tally, results: seq<Job>, j: Job)
    requires CountsKinds(t, results)
    ensures CountsKinds(Count(t, j), results + [j])
  {
    PositionsAppend(results, j, IsPassed);
    PositionsAppend(results, j, IsFailed);
    PositionsAppend(results, j, IsValgrind);
    PositionsAppend(results, j, IsCrashed);
    PositionsAppend(results, j, IsSkipped);
  }

  lemma {:induction false} TallyCountsKinds(results: seq<Job>)
    ensures CountsKinds(TallyOf(results), results)
  {
    if results != [] {
      var front, last := results[..|results| - 1], results[|results| - 1];
      TallyCountsKinds(front);
      CountsOneMore(TallyOf(front), front, last);
      assert results == front + [last];
    }
  }

  /** At the end of a run each counter is the number of collected results of its kind. */
  lemma FinalTallyCountsKinds(cfg: Config, s: State)
    requires Reachable(cfg, s) && s.main.Done?
    ensures CountsKinds(s.tally, s.collected)
  {
    InvReachable(cfg, s);
    TallyCountsKinds(s.collected);
  }

  /** The collection loop's counters, on the results in the order they arrive. */
  method CountResults(results: seq<Job>) returns (tally: Tally)
    ensures tally == TallyOf(results)
    ensures CountsKinds(tally, results)
  {
    TallyCountsKinds(results);
    var passed, failed, valgrind, crashed, skipped := 0, 0, 0, 0, 0;
    for i := 0 to |results|
      invariant Tally(passed, failed, valgrind, crashed, skipped) == TallyOf(results[..i])
    {
      var job := results[i];
      assert results[..i + 1][..i] == results[..i];
      if !job.isBreak {
        if job.isSkip {
          skipped := skipped + 1;
        } else if job.returnCode == 0 {
          passed := passed + 1;
        } else if job.returnCode == 1 {
          failed := failed + 1;
        } else if job.returnCode == 2 {
          valgrind := valgrind + 1;
        } else {
          crashed := crashed + 1;
        }
      }
    }
    assert results[..|results|] == results;
    return Tally(passed, failed, valgrind, crashed, skipped);
  }

  function ExitCode(tally: Tally, total: nat): int {
    if tally.passed + tally.skipped == total then 0 else 1
  }

  /** The result of a test that nobody interrupts. */
  function Undisturbed(cfg: Config, id: nat): Job
    requires id < cfg.Jobs()
  {
    var t := cfg.tests[id];
    Job(id, false, t.isSkip, if t.isSkip then 0 else t.code)
  }

  /** The tests run one after the other, in the order they are dispatched. */
  function Sequentially(cfg: Config, k: nat): seq<Job>
    requires k <= cfg.Jobs()
  {
    if k == 0 then [] else Sequentially(cfg, k - 1) + [Undisturbed(cfg, k - 1)]
  }

  lemma TallyAppend(q: seq<Job>, j: Job)
    ensures TallyOf(q + [j]) == Count(TallyOf(q), j)
  {
    assert (q + [j])[..|q|] == q;
  }

  lemma CountsCommute(t: Tally, i: Job, j: Job)
    ensures Count(Count(t, i), j) == Count(Count(t, j), i)
  {
  }

  lemma {:induction false} TallyIgnoresPosition(a: seq<Job>, j: Job, b: seq<Job>)
    ensures TallyOf(a + [j] + b) == Count(TallyOf(a + b), j)
  {
    if b == [] {
      assert a + [j] + b == a + [j] && a + b == a;
      TallyAppend(a, j);
    } else {
      var front, last := b[..|b| - 1], b[|b| - 1];
      TallyIgnoresPosition(a, j, front);
      assert b == front + [last];
      assert a + [j] + b == a + [j] + front + [last] && a + b == a + front + [last];
      TallyAppend(a + [j] + front, last);
      TallyAppend(a + front, last);
      CountsCommute(TallyOf(a + front), j, last);
    }
  }

  lemma {:induction false} CountInConcat(a: seq<Job>, b: seq<Job>, id: nat)
    ensures CountIn(a + b, id) == CountIn(a, id) + CountIn(b, id)
  {
    if b == [] {
      assert a + b == a;
    } else {
      var front, last := b[..|b| - 1], b[|b| - 1];
      CountInConcat(a, front, id);
      assert (a + b)[..|a + b| - 1] == a + front;
    }
  }

  lemma {:induction false} FindJob(q: seq<Job>, id: nat) returns (p: nat)
    requires CountIn(q, id) > 0
    ensures p < |q| && q[p].id == id
  {
    var n := |q| - 1;
    if q[n].id == id {
      p := n;
    } else {
      p := FindJob(q[..n], id);
    }
  }

  /** Taking out the last test leaves the others, once each. */
  lemma WithoutLast(a: seq<Job>, j: Job, b: seq<Job>, k: nat, id: nat)
    requires k > 0 && j.id == k - 1 && CountIn(a + [j] + b, id) == if id < k then 1 else 0
    ensures CountIn(a + b, id) == if id < k - 1 then 1 else 0
  {
    CountInConcat(a + [j], b, id);
    CountInConcat(a, b, id);
    CountInAppend(a, j, id);
  }

  lemma SplitAt(q: seq<Job>, p: nat) returns (a: seq<Job>, b: seq<Job>)
    requires p < |q|
    ensures q == a + [q[p]] + b && |a + b| == |q| - 1
    ensures forall i :: 0 <= i < |a + b| ==> (a + b)[i] in q
  {
    a, b := q[..p], q[p + 1..];
  }

  /** The counters do not depend on the order in which the results arrive. */
  lemma {:induction false} TallyOfAnyOrder(cfg: Config, q: seq<Job>, k: nat)
    requires k <= cfg.Jobs() && |q| == k
    requires forall id: nat :: CountIn(q, id) == if id < k then 1 else 0
    requires forall j :: j in q ==> j.id < cfg.Jobs() && j == Undisturbed(cfg, j.id)
    ensures TallyOf(q) == TallyOf(Sequentially(cfg, k))
    decreases k
  {
    if k > 0 {
      assert CountIn(q, k - 1) == 1;
      var p := FindJob(q, k - 1);
      var a, b := SplitAt(q, p);
      TallyIgnoresPosition(a, q[p], b);
      forall id: nat
        ensures CountIn(a + b, id) == if id < k - 1 then 1 else 0
      {
        WithoutLast(a, q[p], b, k, id);
      }
      TallyOfAnyOrder(cfg, a + b, k - 1);
      TallyAppend(Sequentially(cfg, k - 1), Undisturbed(cfg, k - 1));
    }
  }

  /** Left alone, the pool reports what a sequential run would report, whatever the schedule. */
  lemma ScheduleDoesNotMatter(cfg: Config, s: State)
    requires Reachable(cfg, s) && s.main.Done? && !s.threadExit
    ensures s.tally == TallyOf(Sequentially(cfg, cfg.Jobs()))
    ensures s.tally.Sum() == cfg.Jobs()
  {
    InvReachable(cfg, s);
    AtTheEnd(cfg, s);
    forall j | j in s.collected
      ensures j.id < cfg.Jobs() && j == Undisturbed(cfg, j.id)
    {
      assert Settled(cfg, false, j);
    }
    TallyOfAnyOrder(cfg, s.collected, cfg.Jobs());
    TallySums(s.collected);
    NoBreaks(s.collected);
  }

  // What the tests are counted as when nobody interrupts.

  predicate Skips(t: Test) { t.isSkip }

  predicate Passes(t: Test) { !t.isSkip && t.code == 0 }

  predicate Fails(t: Test) { !t.isSkip && t.code == 1 }

  predicate HasErrors(t: Test) { !t.isSkip && t.code == 2 }

  predicate Crashes(t: Test) { !t.isSkip && t.code !in {0, 1, 2} }

  predicate CountsTests(tally: Tally, tests: seq<Test>) {
    && tally.passed == |Positions(tests, Passes)|
    && tally.failed == |Positions(tests, Fails)|
    && tally.valgrind == |Positions(tests, HasErrors)|
    && tally.crashed == |Positions(tests, Crashes)|
    && tally.skipped == |Positions(tests, Skips)|
  }

  lemma CountsOneTest(cfg: Config, tally: Tally, k: nat)
    requires k < cfg.Jobs() && CountsTests(tally, cfg.tests[..k])
    ensures CountsTests(Count(tally, Undisturbed(cfg, k)), cfg.tests[..k + 1])
  {
    var front, t := cfg.tests[..k], cfg.tests[k];
    PrefixStep(cfg.tests, k);
    PositionsAppend(front, t, Passes);
    PositionsAppend(front, t, Fails);
    PositionsAppend(front, t, HasErrors);
    PositionsAppend(front, t, Crashes);
    PositionsAppend(front, t, Skips);
  }

  lemma {:induction false} SequentialCounts(cfg: Config, k: nat)
    requires k <= cfg.Jobs()
    ensures CountsTests(TallyOf(Sequentially(cfg, k)), cfg.tests[..k])
  {
    if k > 0 {
      SequentialCounts(cfg, k - 1);
      CountsOneTest(cfg, TallyOf(Sequentially(cfg, k - 1)), k - 1);
      TallyAppend(Sequentially(cfg, k - 1), Undisturbed(cfg, k - 1));
    }
  }

  /** Left alone, the pool counts the tests by what their commands return. */
  lemma UndisturbedCounts(cfg: Config, s: State)
    requires Reachable(cfg, s) && s.main.Done? && !s.threadExit
    ensures CountsTests(s.tally, cfg.tests)
  {
    ScheduleDoesNotMatter(cfg, s);
    SequentialCounts(cfg, cfg.Jobs());
    WholePrefix(cfg.tests);
  }

  predicate IsBreak(j: Job) { j.isBreak }

  function BreakCount(q: seq<Job>): nat {
    |Positions(q, IsBreak)|
  }

  predicate Good(j: Job) {
    !j.isBreak && (j.isSkip || j.returnCode == 0)
  }

  predicate AllGood(q: seq<Job>) {
    q == [] || (AllGood(q[..|q| - 1]) && Good(q[|q| - 1]))
  }

  lemma {:induction false} AllGoodMembers(q: seq<Job>)
    ensures AllGood(q) <==> forall i :: 0 <= i < |q| ==> Good(q[i])
  {
    if q != [] {
      AllGoodMembers(q[..|q| - 1]);
      assert forall i :: 0 <= i < |q| - 1 ==> q[..|q| - 1][i] == q[i];
    }
  }

  /** The job was collected as PASS or SKIP. */
  ghost predicate PassedOrSkipped(collected: seq<Job>, id: nat) {
    exists i :: 0 <= i < |collected| && collected[i].id == id && Good(collected[i])
  }

  lemma NoBreaks(q: seq<Job>)
    requires forall i :: 0 <= i < |q| ==> !q[i].isBreak
    ensures BreakCount(q) == 0
  {
    assert Positions(q, IsBreak) == {};
  }

  /** The counters account for every collected job but the breaks. */
  lemma {:induction false} TallySums(q: seq<Job>)
    ensures TallyOf(q).Sum() + BreakCount(q) == |q|
  {
    if q != [] {
      var front, last := q[..|q| - 1], q[|q| - 1];
      TallySums(front);
      LastOf(q);
      CountSums(TallyOf(front), last);
      PositionsAppend(front, last, IsBreak);
    }
  }

  lemma CountSums(t: Tally, j: Job)
    ensures Count(t, j).Sum() == t.Sum() + if j.isBreak then 0 else 1
  {
  }

  lemma {:induction false} TallyGoodAtMost(q: seq<Job>)
    ensures TallyOf(q).passed + TallyOf(q).skipped <= |q|
  {
    if q != [] {
      TallyGoodAtMost(q[..|q| - 1]);
    }
  }

  /** Every job is counted as PASS or SKIP exactly when every job is good. */
  lemma {:induction false} TallyAllGood(q: seq<Job>)
    ensures TallyOf(q).passed + TallyOf(q).skipped == |q| <==> AllGood(q)
  {
    if q != [] {
      TallyAllGood(q[..|q| - 1]);
      TallyGoodAtMost(q[..|q| - 1]);
    }
  }

  /** After an interrupt the counters fall short by exactly the jobs that came back as breaks. */
  lemma ShortfallIsBreaks(cfg: Config, s: State)
    requires Reachable(cfg, s) && s.main.Done?
    ensures s.tally.Sum() + BreakCount(s.collected) == cfg.Jobs()
  {
    InvReachable(cfg, s);
    AtTheEnd(cfg, s);
    TallySums(s.collected);
  }

  /** The exit code is 0 exactly when every dispatched test was collected as PASS or SKIP. */
  lemma ExitCodeZeroIff(cfg: Config, s: State)
    requires Reachable(cfg, s) && s.main.Done?
    ensures ExitCode(s.tally, cfg.Jobs()) == 0 <==>
              forall id: nat :: id < cfg.Jobs() ==> PassedOrSkipped(s.collected, id)
  {
    InvReachable(cfg, s);
    AtTheEnd(cfg, s);
    TallyAllGood(s.collected);
    AllGoodMembers(s.collected);
    if forall i :: 0 <= i < |s.collected| ==> Good(s.collected[i]) {
      forall id: nat | id < cfg.Jobs()
        ensures PassedOrSkipped(s.collected, id)
      {
        assert CountIn(s.collected, id) == 1;
        var p := FindJob(s.collected, id);
      }
    }
    if forall id: nat :: id < cfg.Jobs() ==> PassedOrSkipped(s.collected, id) {
      forall k | 0 <= k < |s.collected|
        ensures Good(s.collected[k])
      {
        var id := s.collected[k].id;
        assert Settled(cfg, s.threadExit, s.collected[k]);
        assert PassedOrSkipped(s.collected, id);
        var i :| 0 <= i < |s.collected| && s.collected[i].id == id && Good(s.collected[i]);
        OnlyOnce(s.collected, i, k);
      }
    }
  }

  lemma {:induction false} OnlyOnce(q: seq<Job>, i: nat, k: nat)
    requires i < |q| && k < |q| && q[i].id == q[k].id && CountIn(q, q[i].id) == 1
    ensures i == k
  {
    if i != k {
      var lo, hi := if i < k then i else k, if i < k then k else i;
      assert q == q[..hi] + q[hi..];
      CountInConcat(q[..hi], q[hi..], q[i].id);
      Occurs(q[..hi], lo);
      Occurs(q[hi..], 0);
    }
  }

  lemma {:induction false} Occurs(q: seq<Job>, i: nat)
    requires i < |q|
    ensures CountIn(q, q[i].id) >= 1
  {
    if i < |q| - 1 {
      Occurs(q[..|q| - 1], i);
    }
  }

  // ---------------------------------------------------------------- what an interrupt leaves undone

  /** Where the actions lead. */
  function EndOf(cfg: Config, s: State, actions: seq<Action>): State
    requires Plays(cfg, s, actions)
    decreases |actions|
  {
    if actions == [] then s else EndOf(cfg, Next(cfg, s, actions[0]), actions[1..])
  }

  /** No worker has looked at the job yet: it is not under way, reported or collected. */
  ghost predicate Untouched(s: State, id: nat) {
    && (forall w :: 0 <= w < |s.workers| && (s.workers[w].Running? || s.workers[w].Reporting?) ==> s.workers[w].job.id != id)
    && (forall j :: j in s.output || j in s.collected ==> j.id != id)
  }

  /** Whatever has come back of the job came back as a break, and it is not being run. */
  ghost predicate OnlyAsBreak(s: State, id: nat) {
    && (forall w :: 0 <= w < |s.workers| && s.workers[w].Running? ==> s.workers[w].job.id != id)
    && (forall w :: 0 <= w < |s.workers| && s.workers[w].Reporting? && s.workers[w].job.id == id ==> s.workers[w].job.isBreak)
    && (forall j :: (j in s.output || j in s.collected) && j.id == id ==> j.isBreak)
  }

  /** The job is past the look at the flag, and nothing that has come back of it is a break. */
  ghost predicate NeverAsBreak(cfg: Config, s: State, id: nat) {
    && id < CreatedSoFar(cfg, s.main)
    && (forall j :: j in s.input ==> j.id != id)
    && (forall w :: 0 <= w < |s.workers| && s.workers[w].Holding? ==> s.workers[w].job.id != id)
    && (forall w :: 0 <= w < |s.workers| && s.workers[w].Reporting? && s.workers[w].job.id == id ==> !s.workers[w].job.isBreak)
    && (forall j :: (j in s.output || j in s.collected) && j.id == id ==> !j.isBreak)
  }

  /** After the interrupt a job nobody has looked at comes back as a break, be it a skip or not. */
  lemma OnlyAsBreakStays(cfg: Config, s: State, a: Action, id: nat)
    requires s.threadExit && Enabled(cfg, s, a) && OnlyAsBreak(s, id)
    ensures OnlyAsBreak(Next(cfg, s, a), id)
  {
  }

  lemma NeverAsBreakMain(cfg: Config, s: State, id: nat)
    requires Inv(cfg, s) && MainEnabled(cfg, s) && NeverAsBreak(cfg, s, id)
    ensures NeverAsBreak(cfg, MainNext(cfg, s), id)
  {
  }

  lemma NeverAsBreakWorker(cfg: Config, s: State, a: Action, id: nat)
    requires Inv(cfg, s) && Enabled(cfg, s, a) && !a.MainStep? && NeverAsBreak(cfg, s, id)
    ensures NeverAsBreak(cfg, Next(cfg, s, a), id)
  {
  }

  lemma {:induction false} AsBreakPlays(cfg: Config, s: State, actions: seq<Action>, id: nat)
    requires Inv(cfg, s) && s.threadExit && Plays(cfg, s, actions)
    ensures var t := EndOf(cfg, s, actions);
            && Inv(cfg, t)
            && (OnlyAsBreak(s, id) ==> OnlyAsBreak(t, id))
            && (NeverAsBreak(cfg, s, id) ==> NeverAsBreak(cfg, t, id))
    decreases |actions|
  {
    if actions != [] {
      var a, next := actions[0], Next(cfg, s, actions[0]);
      InvStep(cfg, s, a);
      if OnlyAsBreak(s, id) {
        OnlyAsBreakStays(cfg, s, a, id);
      }
      if NeverAsBreak(cfg, s, id) {
        if a.MainStep? {
          NeverAsBreakMain(cfg, s, id);
        } else {
          NeverAsBreakWorker(cfg, s, a, id);
        }
      }
      AsBreakPlays(cfg, next, actions[1..], id);
    }
  }

  lemma {:induction false} HeldAtLeast(ws: seq<Worker>, w: nat, id: nat)
    requires w < |ws|
    ensures HeldCount(ws, id) >= Holds(ws[w], id)
  {
    if w < |ws| - 1 {
      HeldAtLeast(ws[..|ws| - 1], w, id);
    }
  }

  lemma HeldTwice(ws: seq<Worker>, v: nat, w: nat, id: nat)
    requires v < |ws| && w < |ws| && v != w
    ensures HeldCount(ws, id) >= Holds(ws[v], id) + Holds(ws[w], id)
  {
    HeldUpdate(ws, v, Waiting, id);
    HeldAtLeast(ws[v := Waiting], w, id);
  }

  lemma CountedMember(q: seq<Job>, j: Job)
    requires j in q
    ensures CountIn(q, j.id) >= 1
  {
    var i :| 0 <= i < |q| && q[i] == j;
    Occurs(q, i);
  }

  /** A job that somebody has looked at is held by nobody else. */
  lemma TouchedIsPast(cfg: Config, s: State, id: nat)
    requires Inv(cfg, s) && !Untouched(s, id)
    ensures id < Taken(cfg, s)
    ensures forall w :: 0 <= w < |s.workers| && s.workers[w].Holding? ==> s.workers[w].job.id != id
  {
    var taken := Taken(cfg, s);
    assert Occurrences(s.workers, s.output, s.collected, id) == if id < taken then 1 else 0;
    if j :| (j in s.output || j in s.collected) && j.id == id {
      if j in s.output {
        CountedMember(s.output, j);
      } else {
        CountedMember(s.collected, j);
      }
      forall w | 0 <= w < |s.workers| && s.workers[w].Holding?
        ensures s.workers[w].job.id != id
      {
        HeldAtLeast(s.workers, w, id);
      }
    } else {
      var v :| 0 <= v < |s.workers| && (s.workers[v].Running? || s.workers[v].Reporting?) && s.workers[v].job.id == id;
      HeldAtLeast(s.workers, v, id);
      forall w | 0 <= w < |s.workers| && s.workers[w].Holding?
        ensures s.workers[w].job.id != id
      {
        HeldTwice(s.workers, v, w, id);
      }
    }
  }

  /** At the moment of the interrupt a job is untouched, or it will never be a break. */
  lemma TouchedOrNot(cfg: Config, s: State, id: nat)
    requires Inv(cfg, s) && !s.threadExit && id < cfg.Jobs()
    ensures if Untouched(s, id) then OnlyAsBreak(s.(threadExit := true), id) else NeverAsBreak(cfg, s.(threadExit := true), id)
  {
    if !Untouched(s, id) {
      TouchedIsPast(cfg, s, id);
      forall j | j in s.input
        ensures j.id != id
      {
        var k :| 0 <= k < |s.input| && s.input[k] == j;
        assert s.input[k] == Created(cfg, Taken(cfg, s) + k);
      }
      forall j | j in s.output || j in s.collected
        ensures !j.isBreak
      {
        assert Settled(cfg, false, j);
      }
      forall w | 0 <= w < |s.workers| && s.workers[w].Reporting?
        ensures !s.workers[w].job.isBreak
      {
        assert WorkerInv(cfg, false, s.workers[w]);
      }
    }
  }

  /** The tests that come back as breaks are exactly those nobody had looked at when the interrupt came. */
  lemma BreaksAreUntouched(cfg: Config, s: State, actions: seq<Action>, j: Job)
    requires Reachable(cfg, s) && !s.threadExit && Plays(cfg, Next(cfg, s, Interrupt), actions)
    requires EndOf(cfg, Next(cfg, s, Interrupt), actions).main.Done?
    requires j in EndOf(cfg, Next(cfg, s, Interrupt), actions).collected
    ensures j.isBreak <==> Untouched(s, j.id)
  {
    var after := Next(cfg, s, Interrupt);
    InvReachable(cfg, s);
    InvStep(cfg, s, Interrupt);
    AsBreakPlays(cfg, after, actions, j.id);
    var t := EndOf(cfg, after, actions);
    assert Settled(cfg, t.threadExit, j);
    TouchedOrNot(cfg, s, j.id);
  }

  function IdsAt(q: seq<Job>, places: set<nat>): set<nat>
    requires forall i :: i in places ==> i < |q|
  {
    set i | i in places :: q[i].id
  }

  lemma {:induction false} IdsAtCount(q: seq<Job>, places: set<nat>)
    requires forall i :: i in places ==> i < |q|
    requires forall i, k :: i in places && k in places && q[i].id == q[k].id ==> i == k
    ensures |IdsAt(q, places)| == |places|
    decreases |places|
  {
    if places != {} {
      var i :| i in places;
      IdsAtCount(q, places - {i});
      assert IdsAt(q, places) == IdsAt(q, places - {i}) + {q[i].id};
      assert q[i].id !in IdsAt(q, places - {i});
    }
  }

  ghost function UntouchedTests(cfg: Config, s: State): set<nat> {
    set id: nat | id < cfg.Jobs() && Untouched(s, id)
  }

  /** The counters fall short by exactly the tests nobody had looked at when the interrupt came. */
  lemma ShortfallIsUntouched(cfg: Config, s: State, actions: seq<Action>)
    requires Reachable(cfg, s) && !s.threadExit && Plays(cfg, Next(cfg, s, Interrupt), actions)
    requires EndOf(cfg, Next(cfg, s, Interrupt), actions).main.Done?
    ensures EndOf(cfg, Next(cfg, s, Interrupt), actions).tally.Sum() + |UntouchedTests(cfg, s)| == cfg.Jobs()
  {
    var after := Next(cfg, s, Interrupt);
    var t := EndOf(cfg, after, actions);
    InvReachable(cfg, s);
    InvStep(cfg, s, Interrupt);
    AsBreakPlays(cfg, after, actions, 0);
    AtTheEnd(cfg, t);
    TallySums(t.collected);
    BreaksByTest(cfg, s, actions, t);
  }

  lemma BreaksByTest(cfg: Config, s: State, actions: seq<Action>, t: State)
    requires Reachable(cfg, s) && !s.threadExit && Plays(cfg, Next(cfg, s, Interrupt), actions)
    requires t == EndOf(cfg, Next(cfg, s, Interrupt), actions) && t.main.Done?
    requires forall id: nat :: CountIn(t.collected, id) == if id < cfg.Jobs() then 1 else 0
    ensures BreakCount(t.collected) == |UntouchedTests(cfg, s)|
  {
    var q, places := t.collected, Positions(t.collected, IsBreak);
    forall i, k | i in places && k in places && q[i].id == q[k].id
      ensures i == k
    {
      Occurs(q, i);
      OnlyOnce(q, i, k);
    }
    IdsAtCount(q, places);
    forall id: nat
      ensures id in IdsAt(q, places) <==> id < cfg.Jobs() && Untouched(s, id)
    {
      BreakOfTest(cfg, s, actions, t, id);
    }
    assert IdsAt(q, places) == UntouchedTests(cfg, s);
  }

  lemma BreakOfTest(cfg: Config, s: State, actions: seq<Action>, t: State, id: nat)
    requires Reachable(cfg, s) && !s.threadExit && Plays(cfg, Next(cfg, s, Interrupt), actions)
    requires t == EndOf(cfg, Next(cfg, s, Interrupt), actions) && t.main.Done?
    requires CountIn(t.collected, id) == if id < cfg.Jobs() then 1 else 0
    ensures id in IdsAt(t.collected, Positions(t.collected, IsBreak)) <==> id < cfg.Jobs() && Untouched(s, id)
  {
    var q := t.collected;
    if id in IdsAt(q, Positions(q, IsBreak)) {
      var i :| i in Positions(q, IsBreak) && q[i].id == id;
      Occurs(q, i);
      BreaksAreUntouched(cfg, s, actions, q[i]);
    }
    if id < cfg.Jobs() && Untouched(s, id) {
      var p := FindJob(q, id);
      BreaksAreUntouched(cfg, s, actions, q[p]);
      assert p in Positions(q, IsBreak);
    }
  }
}
