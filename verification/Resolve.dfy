/**
 rbacScoper.resolve: one review per namespace, at most eight at a time, in goroutines that append to a
 shared list. Each goroutine and the spawning loop move one step at a time; `reviews` counts how often
 each namespace was reviewed and is history.
 */
module Resolve {
  import opened Prelude
  import opened Scoping
  import opened Sorting

  const SAR_CONCURRENCY := 8

  /** What a SubjectAccessReview comes back with. */
  datatype Verdict = Granted | Denied | Failure(error: string)

  /** The loop that spawns the goroutines, and the wait after it. */
  datatype MainPc = Adding | Acquiring | Spawning | Waiting | Returned

  /** One goroutine; from Recording to Recorded it holds the mutex. */
  datatype TaskPc = Unborn | Reviewing | Answered | Recording | Recorded | Unlocked | Released | Finished

  datatype State = State(
    next: nat,
    main: MainPc,
    wg: int,
    tokens: int,
    mu: Option<nat>,
    tasks: seq<TaskPc>,
    allowed: seq<string>,
    firstErr: Option<string>,
    reviews: seq<nat>)

  /** The listing, and what the review of each listed namespace will answer. */
  datatype Job = Job(names: seq<string>, verdicts: seq<Verdict>) {
    ghost predicate Valid() {
      |names| == |verdicts|
    }
  }

  datatype Step =
    | Add | Acquire | Spawn | StartWait | Return
    | Review(i: nat) | Lock(i: nat) | Record(i: nat) | Unlock(i: nat) | Release(i: nat) | Done(i: nat)

  function Start(job: Job): State {
    State(0, Adding, 0, 0, None, seq(|job.names|, i => Unborn), [], None, seq(|job.names|, i => 0))
  }

  predicate At(s: State, i: nat, pc: TaskPc) {
    i < |s.tasks| && s.tasks[i] == pc
  }

  predicate Enabled(job: Job, s: State, step: Step) {
    match step
    case Add => s.main.Adding? && s.next < |job.names|
    case Acquire => s.main.Acquiring? && s.tokens < SAR_CONCURRENCY
    case Spawn => s.main.Spawning? && s.next < |s.tasks|
    case StartWait => s.main.Adding? && s.next == |job.names|
    case Return => s.main.Waiting? && s.wg == 0
    case Review(i) => At(s, i, Reviewing) && i < |s.reviews|
    case Lock(i) => At(s, i, Answered) && s.mu.None?
    case Record(i) => At(s, i, Recording) && i < |job.names| && i < |job.verdicts|
    case Unlock(i) => At(s, i, Recorded)
    case Release(i) => At(s, i, Unlocked)
    case Done(i) => At(s, i, Released)
  }

  function Move(s: State, i: nat, pc: TaskPc): State
    requires i < |s.tasks|
  {
    s.(tasks := s.tasks[i := pc])
  }

  function RecordVerdict(job: Job, s: State, i: nat): State
    requires i < |job.names| && i < |job.verdicts|
  {
    match job.verdicts[i]
    case Failure(e) => if s.firstErr.None? then s.(firstErr := Some(e)) else s
    case Granted => s.(allowed := s.allowed + [job.names[i]])
    case Denied => s
  }

  function Apply(job: Job, s: State, step: Step): State
    requires Enabled(job, s, step)
  {
    match step
    case Add => s.(wg := s.wg + 1, main := Acquiring)
    case Acquire => s.(tokens := s.tokens + 1, main := Spawning)
    case Spawn => Move(s, s.next, Reviewing).(next := s.next + 1, main := Adding)
    case StartWait => s.(main := Waiting)
    case Return => s.(main := Returned)
    case Review(i) => Move(s, i, Answered).(reviews := s.reviews[i := s.reviews[i] + 1])
    case Lock(i) => Move(s, i, Recording).(mu := Some(i))
    case Record(i) => RecordVerdict(job, Move(s, i, Recorded), i)
    case Unlock(i) => Move(s, i, Unlocked).(mu := None)
    case Release(i) => Move(s, i, Released).(tokens := s.tokens - 1)
    case Done(i) => Move(s, i, Finished).(wg := s.wg - 1)
  }

  /** What resolve returns once the wait is over: fail closed on any error, else the sorted list. */
  function Outcome(s: State): Result<Scope, string> {
    if s.firstErr.Some? then Err(s.firstErr.value) else Ok(Only(SortStrings(s.allowed)))
  }

  // ---------------------------------------------------------------------------
  // The invariant
  // ---------------------------------------------------------------------------

  predicate HoldsToken(pc: TaskPc) {
    pc.Reviewing? || pc.Answered? || pc.Recording? || pc.Recorded? || pc.Unlocked?
  }

  predicate Counted(pc: TaskPc) {
    HoldsToken(pc) || pc.Released?
  }

  predicate HasRecorded(pc: TaskPc) {
    pc.Recorded? || pc.Unlocked? || pc.Released? || pc.Finished?
  }

  function Holders(tasks: seq<TaskPc>): set<nat> {
    set i: nat | i < |tasks| && HoldsToken(tasks[i])
  }

  function Live(tasks: seq<TaskPc>): set<nat> {
    set i: nat | i < |tasks| && Counted(tasks[i])
  }

  function OneGrant(job: Job, pc: TaskPc, i: nat, name: string): nat
    requires i < |job.names| && i < |job.verdicts|
  {
    if HasRecorded(pc) && job.verdicts[i].Granted? && job.names[i] == name then 1 else 0
  }

  /** How many of the first k tasks have recorded a grant for this name. */
  function Grants(job: Job, tasks: seq<TaskPc>, k: nat, name: string): nat
    requires k <= |tasks| && k <= |job.names| && k <= |job.verdicts|
  {
    if k == 0 then 0 else Grants(job, tasks, k - 1, name) + OneGrant(job, tasks[k - 1], k - 1, name)
  }

  ghost predicate Shape(job: Job, s: State) {
    && job.Valid()
    && |s.tasks| == |s.reviews| == |job.names|
    && s.next <= |s.tasks|
    && (s.main.Acquiring? || s.main.Spawning? ==> s.next < |s.tasks|)
    && (s.main.Waiting? || s.main.Returned? ==> s.next == |s.tasks|)
    && (forall i :: 0 <= i < |s.tasks| ==> (s.tasks[i].Unborn? <==> i >= s.next))
    && (forall i :: 0 <= i < |s.tasks| ==>
          s.reviews[i] == if s.tasks[i].Unborn? || s.tasks[i].Reviewing? then 0 else 1)
  }

  ghost predicate MutexRight(s: State) {
    && (s.mu.Some? ==> s.mu.value < |s.tasks|)
    && forall i: nat :: i < |s.tasks| ==> (s.tasks[i].Recording? || s.tasks[i].Recorded? <==> s.mu == Some(i))
  }

  ghost predicate CountsRight(s: State) {
    && s.tokens == |Holders(s.tasks)| + (if s.main.Spawning? then 1 else 0)
    && s.tokens <= SAR_CONCURRENCY
    && s.wg == |Live(s.tasks)| + (if s.main.Acquiring? || s.main.Spawning? then 1 else 0)
    && (s.main.Returned? ==> s.wg == 0)
  }

  ghost predicate ResultsRight(job: Job, s: State)
    requires Shape(job, s)
  {
    (forall name :: multiset(s.allowed)[name] == Grants(job, s.tasks, |s.tasks|, name)) && ErrorRight(job, s)
  }

  ghost predicate ErrorRight(job: Job, s: State)
    requires Shape(job, s)
  {
    && (s.firstErr.Some? ==>
          exists i: nat :: i < |s.tasks| && HasRecorded(s.tasks[i]) && job.verdicts[i] == Failure(s.firstErr.value))
    && (s.firstErr.None? ==> forall i: nat :: i < |s.tasks| && HasRecorded(s.tasks[i]) ==> !job.verdicts[i].Failure?)
  }

  ghost predicate Inv(job: Job, s: State) {
    Shape(job, s) && MutexRight(s) && CountsRight(s) && ResultsRight(job, s)
  }

  lemma {:induction false} StartGrants(job: Job, k: nat, name: string)
    requires job.Valid() && k <= |job.names|
    ensures Grants(job, Start(job).tasks, k, name) == 0
  {
    if k > 0 {
      StartGrants(job, k - 1, name);
    }
  }

  lemma StartSatisfies(job: Job)
    requires job.Valid()
    ensures Inv(job, Start(job))
  {
    forall name
      ensures Grants(job, Start(job).tasks, |job.names|, name) == 0
    {
      StartGrants(job, |job.names|, name);
    }
    assert Holders(Start(job).tasks) == {} && Live(Start(job).tasks) == {};
  }

  lemma OneMember(was: set<nat>, now: set<nat>, i: nat)
    requires forall j: nat :: j != i ==> (j in was <==> j in now)
    ensures |now| == |was| + (if i in now then 1 else 0) - (if i in was then 1 else 0)
  {
    if i in now {
      assert now == was + {i};
    } else {
      assert now == was - {i};
    }
  }

  lemma MoveHolders(tasks: seq<TaskPc>, i: nat, pc: TaskPc)
    requires i < |tasks|
    ensures |Holders(tasks[i := pc])| ==
            |Holders(tasks)| + (if HoldsToken(pc) then 1 else 0) - (if HoldsToken(tasks[i]) then 1 else 0)
  {
    OneMember(Holders(tasks), Holders(tasks[i := pc]), i);
  }

  lemma MoveLive(tasks: seq<TaskPc>, i: nat, pc: TaskPc)
    requires i < |tasks|
    ensures |Live(tasks[i := pc])| ==
            |Live(tasks)| + (if Counted(pc) then 1 else 0) - (if Counted(tasks[i]) then 1 else 0)
  {
    OneMember(Live(tasks), Live(tasks[i := pc]), i);
  }

  /** The state one goroutine's step leaves its own program counter in. */
  function NextPc(step: Step): TaskPc {
    match step
    case Review(_) => Answered
    case Lock(_) => Recording
    case Record(_) => Recorded
    case Unlock(_) => Unlocked
    case Release(_) => Released
    case Done(_) => Finished
    case _ => Reviewing
  }

  function TaskRank(pc: TaskPc): nat {
    match pc
    case Unborn => 6
    case Reviewing => 6
    case Answered => 5
    case Recording => 4
    case Recorded => 3
    case Unlocked => 2
    case Released => 1
    case Finished => 0
  }

  predicate TaskStep(step: Step) {
    step.Review? || step.Lock? || step.Record? || step.Unlock? || step.Release? || step.Done?
  }

  lemma TaskStepMoves(job: Job, s: State, step: Step)
    requires Enabled(job, s, step) && TaskStep(step)
    ensures step.i < |s.tasks|
    ensures var t := Apply(job, s, step);
            t.tasks == s.tasks[step.i := NextPc(step)] && t.next == s.next && t.main == s.main
    ensures TaskRank(NextPc(step)) == TaskRank(s.tasks[step.i]) - 1
  {
  }

  /** A task that records a verdict adds its own grant and nothing else. */
  lemma {:induction false} MoveGrants(job: Job, tasks: seq<TaskPc>, next: seq<TaskPc>, i: nat, k: nat, name: string)
    requires job.Valid() && |tasks| == |next| == |job.names| && i < |tasks| && k <= |tasks|
    requires forall j :: 0 <= j < |tasks| && j != i ==> next[j] == tasks[j]
    ensures Grants(job, next, k, name) - Grants(job, tasks, k, name) ==
            if i < k then OneGrant(job, next[i], i, name) - OneGrant(job, tasks[i], i, name) else 0
  {
    if k > 0 {
      MoveGrants(job, tasks, next, i, k - 1, name);
    }
  }

  lemma StepKeepsCounts(job: Job, s: State, step: Step)
    requires Shape(job, s) && CountsRight(s) && Enabled(job, s, step)
    ensures CountsRight(Apply(job, s, step))
  {
    if TaskStep(step) {
      TaskStepMoves(job, s, step);
      MoveHolders(s.tasks, step.i, NextPc(step));
      MoveLive(s.tasks, step.i, NextPc(step));
    } else if step.Spawn? {
      MoveHolders(s.tasks, s.next, Reviewing);
      MoveLive(s.tasks, s.next, Reviewing);
    }
  }

  lemma StepKeepsShape(job: Job, s: State, step: Step)
    requires Shape(job, s) && Enabled(job, s, step)
    ensures Shape(job, Apply(job, s, step))
  {
    if TaskStep(step) {
      TaskStepMoves(job, s, step);
    }
  }

  lemma StepKeepsMutex(job: Job, s: State, step: Step)
    requires Shape(job, s) && MutexRight(s) && Enabled(job, s, step)
    ensures MutexRight(Apply(job, s, step))
  {
    if TaskStep(step) {
      TaskStepMoves(job, s, step);
    }
  }

  /** Moving a task that records nothing new leaves the results as they were. */
  lemma QuietMove(job: Job, s: State, i: nat, pc: TaskPc, t: State)
    requires Shape(job, s) && ResultsRight(job, s) && Shape(job, t) && i < |s.tasks|
    requires t.tasks == s.tasks[i := pc] && t.allowed == s.allowed && t.firstErr == s.firstErr
    requires HasRecorded(pc) <==> HasRecorded(s.tasks[i])
    ensures ResultsRight(job, t)
  {
    forall name
      ensures Grants(job, t.tasks, |s.tasks|, name) == Grants(job, s.tasks, |s.tasks|, name)
    {
      MoveGrants(job, s.tasks, t.tasks, i, |s.tasks|, name);
    }
    if s.firstErr.Some? {
      var j: nat :| j < |s.tasks| && HasRecorded(s.tasks[j]) && job.verdicts[j] == Failure(s.firstErr.value);
      assert HasRecorded(t.tasks[j]);
    }
  }

  lemma RecordMove(job: Job, s: State, i: nat)
    requires Shape(job, s) && ResultsRight(job, s) && Enabled(job, s, Record(i))
    requires Shape(job, Apply(job, s, Record(i)))
    ensures ResultsRight(job, Apply(job, s, Record(i)))
  {
    var t := Apply(job, s, Record(i));
    assert t.tasks == s.tasks[i := Recorded];
    forall name
      ensures multiset(t.allowed)[name] == Grants(job, t.tasks, |t.tasks|, name)
    {
      MoveGrants(job, s.tasks, t.tasks, i, |s.tasks|, name);
    }
    RecordError(job, s, i);
  }

  lemma RecordError(job: Job, s: State, i: nat)
    requires Shape(job, s) && ResultsRight(job, s) && Enabled(job, s, Record(i))
    requires Shape(job, Apply(job, s, Record(i)))
    ensures ErrorRight(job, Apply(job, s, Record(i)))
  {
    var t := Apply(job, s, Record(i));
    assert t.tasks == s.tasks[i := Recorded];
    if s.firstErr.Some? {
      var j: nat :| j < |s.tasks| && HasRecorded(s.tasks[j]) && job.verdicts[j] == Failure(s.firstErr.value);
      assert HasRecorded(t.tasks[j]);
    } else if t.firstErr.Some? {
      assert HasRecorded(t.tasks[i]) && job.verdicts[i] == Failure(t.firstErr.value);
    }
  }

  lemma StepKeepsResults(job: Job, s: State, step: Step)
    requires Shape(job, s) && ResultsRight(job, s) && Enabled(job, s, step)
    requires Shape(job, Apply(job, s, step))
    ensures ResultsRight(job, Apply(job, s, step))
  {
    var t := Apply(job, s, step);
    match step
    case Spawn => QuietMove(job, s, s.next, Reviewing, t);
    case Review(i) => QuietMove(job, s, i, Answered, t);
    case Lock(i) => QuietMove(job, s, i, Recording, t);
    case Record(i) => RecordMove(job, s, i);
    case Unlock(i) => QuietMove(job, s, i, Unlocked, t);
    case Release(i) => QuietMove(job, s, i, Released, t);
    case Done(i) => QuietMove(job, s, i, Finished, t);
    case _ => assert t.tasks == s.tasks && t.allowed == s.allowed && t.firstErr == s.firstErr;
  }

  lemma StepKeepsInv(job: Job, s: State, step: Step)
    requires Inv(job, s) && Enabled(job, s, step)
    ensures Inv(job, Apply(job, s, step))
  {
    StepKeepsShape(job, s, step);
    StepKeepsMutex(job, s, step);
    StepKeepsCounts(job, s, step);
    StepKeepsResults(job, s, step);
  }

  // ---------------------------------------------------------------------------
  // Runs
  // ---------------------------------------------------------------------------

  ghost predicate IsRun(job: Job, states: seq<State>, steps: seq<Step>) {
    && job.Valid()
    && |states| == |steps| + 1
    && states[0] == Start(job)
    && forall i {:trigger steps[i]} :: 0 <= i < |steps| ==>
         Enabled(job, states[i], steps[i]) && states[i + 1] == Apply(job, states[i], steps[i])
  }

  lemma {:induction false} RunKeepsInv(job: Job, states: seq<State>, steps: seq<Step>, i: nat)
    requires IsRun(job, states, steps) && i < |states|
    ensures Inv(job, states[i])
  {
    if i == 0 {
      StartSatisfies(job);
    } else {
      RunKeepsInv(job, states, steps, i - 1);
      StepKeepsInv(job, states[i - 1], steps[i - 1]);
    }
  }

  /** The namespaces being reviewed at this moment. */
  function InFlight(s: State): set<nat> {
    set i: nat | i < |s.tasks| && s.tasks[i].Reviewing?
  }

  /** In every reachable state at most eight reviews are in flight, and the counters never go negative. */
  lemma AtMostEightInFlight(job: Job, states: seq<State>, steps: seq<Step>, i: nat)
    requires IsRun(job, states, steps) && i < |states|
    ensures |InFlight(states[i])| <= 8
    ensures 0 <= states[i].tokens <= 8 && 0 <= states[i].wg
  {
    RunKeepsInv(job, states, steps, i);
    SubsetSize(InFlight(states[i]), Holders(states[i].tasks));
  }

  /** The loop waits for the semaphore only while eight goroutines hold it. */
  lemma SlotsAreUsed(job: Job, states: seq<State>, steps: seq<Step>, i: nat)
    requires IsRun(job, states, steps) && i < |states| && states[i].main.Acquiring?
    ensures Enabled(job, states[i], Acquire) <==> |Holders(states[i].tasks)| < 8
  {
    RunKeepsInv(job, states, steps, i);
  }

  /** The error reported is the first one recorded: later ones do not replace it. */
  lemma {:induction false} FirstErrorStays(job: Job, states: seq<State>, steps: seq<Step>, i: nat, j: nat)
    requires IsRun(job, states, steps) && i <= j < |states| && states[i].firstErr.Some?
    ensures states[j].firstErr == states[i].firstErr
  {
    if i < j {
      FirstErrorStays(job, states, steps, i, j - 1);
      StepKeepsError(job, states[j - 1], steps[j - 1]);
    }
  }

  lemma StepKeepsError(job: Job, s: State, step: Step)
    requires Enabled(job, s, step) && s.firstErr.Some?
    ensures Apply(job, s, step).firstErr == s.firstErr
  {
  }

  /** When the wait returns, every listed namespace was reviewed exactly once and everything is released. */
  lemma ReturnedIsComplete(job: Job, s: State)
    requires Inv(job, s) && s.main.Returned?
    ensures forall i :: 0 <= i < |s.tasks| ==> s.tasks[i].Finished? && s.reviews[i] == 1
    ensures s.tokens == 0 && s.mu.None?
  {
    assert Live(s.tasks) == {};
    forall i: nat | i < |s.tasks|
      ensures s.tasks[i].Finished?
    {
      assert i !in Live(s.tasks);
    }
    assert Holders(s.tasks) == {};
  }

  // ---------------------------------------------------------------------------
  // No deadlock, and every schedule ends
  // ---------------------------------------------------------------------------

  function TasksRank(tasks: seq<TaskPc>): nat {
    if tasks == [] then 0 else TasksRank(tasks[..|tasks| - 1]) + TaskRank(tasks[|tasks| - 1])
  }

  function MainRank(pc: MainPc): int {
    match pc
    case Adding => 2
    case Acquiring => 1
    case Spawning => 0
    case Waiting => 1
    case Returned => 0
  }

  /** The number of steps left. */
  function Rank(s: State): int {
    3 * (|s.tasks| - s.next) + MainRank(s.main) + TasksRank(s.tasks)
  }

  lemma {:induction false} MoveRank(tasks: seq<TaskPc>, i: nat, pc: TaskPc)
    requires i < |tasks|
    ensures TasksRank(tasks[i := pc]) == TasksRank(tasks) + TaskRank(pc) - TaskRank(tasks[i])
  {
    var n := |tasks| - 1;
    var next := tasks[i := pc];
    if i == n {
      assert next[..n] == tasks[..n];
    } else {
      MoveRank(tasks[..n], i, pc);
      assert next[..n] == tasks[..n][i := pc];
    }
  }

  lemma StepUsesOneRank(job: Job, s: State, step: Step)
    requires Shape(job, s) && Enabled(job, s, step)
    ensures Rank(Apply(job, s, step)) == Rank(s) - 1
  {
    if TaskStep(step) {
      TaskStepMoves(job, s, step);
      MoveRank(s.tasks, step.i, NextPc(step));
    } else if step.Spawn? {
      MoveRank(s.tasks, s.next, Reviewing);
    }
  }

  lemma {:induction false} StartRank(n: nat)
    ensures TasksRank(seq(n, i => Unborn)) == 6 * n
  {
    if n > 0 {
      StartRank(n - 1);
      var tasks := seq(n, i => Unborn);
      assert tasks[..n - 1] == seq(n - 1, i => Unborn);
    }
  }

  lemma {:induction false} StepsLeft(job: Job, states: seq<State>, steps: seq<Step>, i: nat)
    requires IsRun(job, states, steps) && i < |states|
    ensures Rank(states[i]) == 9 * |job.names| + 2 - i
  {
    if i == 0 {
      StartRank(|job.names|);
    } else {
      StepsLeft(job, states, steps, i - 1);
      RunKeepsInv(job, states, steps, i - 1);
      StepUsesOneRank(job, states[i - 1], steps[i - 1]);
    }
  }

  /** Every schedule of n reviews returns after exactly 9n + 2 steps. */
  lemma ScheduleLength(job: Job, states: seq<State>, steps: seq<Step>, i: nat)
    requires IsRun(job, states, steps) && i < |states|
    ensures i <= 9 * |job.names| + 2
    ensures states[i].main.Returned? <==> i == 9 * |job.names| + 2
  {
    StepsLeft(job, states, steps, i);
    RunKeepsInv(job, states, steps, i);
    RankIsLeft(job, states[i]);
  }

  lemma RankIsLeft(job: Job, s: State)
    requires Inv(job, s)
    ensures Rank(s) >= 0
    ensures s.main.Returned? <==> Rank(s) == 0
  {
    if s.main.Returned? {
      ReturnedIsComplete(job, s);
      NothingLeft(s.tasks);
    } else if s.main.Spawning? {
      OneRank(s.tasks, s.next);
    }
  }

  lemma {:induction false} OneRank(tasks: seq<TaskPc>, i: nat)
    requires i < |tasks|
    ensures TasksRank(tasks) >= TaskRank(tasks[i])
  {
    if i < |tasks| - 1 {
      OneRank(tasks[..|tasks| - 1], i);
    }
  }

  lemma {:induction false} NothingLeft(tasks: seq<TaskPc>)
    requires forall i :: 0 <= i < |tasks| ==> tasks[i].Finished?
    ensures TasksRank(tasks) == 0
  {
    if tasks != [] {
      NothingLeft(tasks[..|tasks| - 1]);
    }
  }

  /** Until resolve has returned, some goroutine can move: no reachable state is deadlocked. */
  lemma NoDeadlock(job: Job, s: State) returns (step: Step)
    requires Inv(job, s) && !s.main.Returned?
    ensures Enabled(job, s, step)
  {
    if i: nat :| i < |s.tasks| && (s.tasks[i].Recording? || s.tasks[i].Recorded?) {
      step := if s.tasks[i].Recording? then Record(i) else Unlock(i);
    } else if i: nat :| i < |s.tasks| && Counted(s.tasks[i]) {
      assert s.mu.None?;
      step := match s.tasks[i]
        case Reviewing => Review(i)
        case Answered => Lock(i)
        case Unlocked => Release(i)
        case _ => Done(i);
    } else {
      assert Holders(s.tasks) == {} && Live(s.tasks) == {};
      step := match s.main
        case Adding => if s.next < |s.tasks| then Add else StartWait
        case Acquiring => Acquire
        case Spawning => Spawn
        case _ => Return;
    }
  }

  // ---------------------------------------------------------------------------
  // Every schedule gives the same scope
  // ---------------------------------------------------------------------------

  /** The names whose review granted access, as listed. */
  function GrantedNames(job: Job, k: nat): seq<string>
    requires k <= |job.names| && k <= |job.verdicts|
  {
    if k == 0 then []
    else if job.verdicts[k - 1].Granted? then GrantedNames(job, k - 1) + [job.names[k - 1]]
    else GrantedNames(job, k - 1)
  }

  lemma {:induction false} AllGrants(job: Job, tasks: seq<TaskPc>, k: nat, name: string)
    requires job.Valid() && |tasks| == |job.names| && k <= |tasks|
    requires forall i :: 0 <= i < |tasks| ==> HasRecorded(tasks[i])
    ensures Grants(job, tasks, k, name) == multiset(GrantedNames(job, k))[name]
  {
    if k > 0 {
      AllGrants(job, tasks, k - 1, name);
    }
  }

  ghost predicate SomeFailure(job: Job) {
    exists i :: 0 <= i < |job.verdicts| && job.verdicts[i].Failure?
  }

  /**
   Whatever order the goroutines finish in, resolve reports a failure if any review failed (one of the
   failures that occurred), and otherwise the sorted list of exactly the granted names.
   */
  lemma OutcomeOfAnySchedule(job: Job, s: State)
    requires Inv(job, s) && s.main.Returned?
    ensures SomeFailure(job) ==> Outcome(s).Err? && Failure(Outcome(s).error) in job.verdicts
    ensures !SomeFailure(job) ==> Outcome(s) == Ok(Only(SortStrings(GrantedNames(job, |job.names|))))
  {
    ReturnedIsComplete(job, s);
    assert forall i: nat :: i < |s.tasks| ==> HasRecorded(s.tasks[i]);
    if !SomeFailure(job) {
      var listed := GrantedNames(job, |job.names|);
      forall name
        ensures multiset(s.allowed)[name] == multiset(listed)[name]
      {
        AllGrants(job, s.tasks, |s.tasks|, name);
      }
      SortStringsSorts(s.allowed);
      SortStringsSorts(listed);
      SortedIsUnique(SortStrings(s.allowed), SortStrings(listed));
    }
  }

  /** Two complete schedules of the same reviews agree. */
  lemma ScheduleIndependence(job: Job, a: seq<State>, aSteps: seq<Step>, b: seq<State>, bSteps: seq<Step>)
    requires IsRun(job, a, aSteps) && IsRun(job, b, bSteps)
    requires a[|aSteps|].main.Returned? && b[|bSteps|].main.Returned?
    ensures var x, y := Outcome(a[|aSteps|]), Outcome(b[|bSteps|]);
            |aSteps| == |bSteps| && (x == y || (x.Err? && y.Err?))
  {
    RunKeepsInv(job, a, aSteps, |aSteps|);
    RunKeepsInv(job, b, bSteps, |bSteps|);
    ScheduleLength(job, a, aSteps, |aSteps|);
    ScheduleLength(job, b, bSteps, |bSteps|);
    OutcomeOfAnySchedule(job, a[|aSteps|]);
    OutcomeOfAnySchedule(job, b[|bSteps|]);
  }

  lemma {:induction false} GrantedAmongListed(job: Job, k: nat, name: string)
    requires job.Valid() && k <= |job.names|
    ensures Occurs(GrantedNames(job, k), name) <= Occurs(job.names[..k], name)
  {
    if k > 0 {
      GrantedAmongListed(job, k - 1, name);
      var front, x := job.names[..k - 1], job.names[k - 1];
      assert job.names[..k] == front + [x];
      OccursAppend(front, x, name);
      OccursAppend(GrantedNames(job, k - 1), x, name);
    }
  }

  lemma {:induction false} GrantedByReview(job: Job, k: nat, name: string)
    requires job.Valid() && k <= |job.names|
    ensures name in GrantedNames(job, k) <==> exists i :: 0 <= i < k && job.names[i] == name && job.verdicts[i].Granted?
  {
    if k > 0 {
      GrantedByReview(job, k - 1, name);
    }
  }

  /**
   The resolved scope admits exactly the namespaces some review granted; it is sorted, and strictly so
   when the listing has no repeats (resolve itself removes none).
   */
  lemma ResolvedScope(job: Job, s: State, ns: string)
    requires Inv(job, s) && s.main.Returned? && !SomeFailure(job)
    ensures Outcome(s).Ok? && Outcome(s).value.Only?
    ensures Allows(Outcome(s).value, ns) <==>
            exists i :: 0 <= i < |job.names| && job.names[i] == ns && job.verdicts[i].Granted?
    ensures Sorted(Outcome(s).value.namespaces)
    ensures NoRepeats(job.names) ==> NoRepeats(Outcome(s).value.namespaces)
  {
    OutcomeOfAnySchedule(job, s);
    var n := |job.names|;
    var listed := GrantedNames(job, n);
    SortStringsSorts(listed);
    var sorted := SortStrings(listed);
    GrantedByReview(job, n, ns);
    assert ns in sorted <==> ns in multiset(sorted);
    assert ns in listed <==> ns in multiset(listed);
    if NoRepeats(job.names) {
      forall x
        ensures multiset(sorted)[x] <= 1
      {
        GrantedAmongListed(job, n, x);
        OccursIsCount(listed, x);
        OccursIsCount(job.names, x);
        assert job.names[..n] == job.names;
        CountOne(job.names, x);
      }
      CountsForbidRepeats(sorted);
    }
  }

  // ---------------------------------------------------------------------------
  // Listing the namespaces
  // ---------------------------------------------------------------------------

  /** One page of the namespace list; an empty continue token ends the listing. */
  datatype Page = PageError(error: string) | Page(names: seq<string>, cont: string)

  predicate LastPage(p: Page) {
    p.PageError? || p.cont == ""
  }

  /** The API server's answers to successive requests: the listing ends with the last of them. */
  predicate EndsListing(pages: seq<Page>) {
    && pages != []
    && LastPage(pages[|pages| - 1])
    && forall i :: 0 <= i < |pages| - 1 ==> !LastPage(pages[i])
  }

  function Concat(pages: seq<Page>): seq<string>
    requires forall i :: 0 <= i < |pages| ==> pages[i].Page?
  {
    if pages == [] then [] else Concat(pages[..|pages| - 1]) + pages[|pages| - 1].names
  }

  /** Listing in two parts gives the names of both parts, in order. */
  lemma {:induction false} ConcatAppend(a: seq<Page>, b: seq<Page>)
    requires forall i :: 0 <= i < |a| ==> a[i].Page?
    requires forall i :: 0 <= i < |b| ==> b[i].Page?
    ensures Concat(a + b) == Concat(a) + Concat(b)
    ensures |a| == 1 ==> Concat(a) == a[0].names
  {
    if b == [] {
      assert a + b == a;
    } else {
      ConcatAppend(a, b[..|b| - 1]);
      assert (a + b)[..|a + b| - 1] == a + b[..|b| - 1];
    }
  }

  /** listNamespaces: all the names of all the pages in order, or nothing at all once a page fails. */
  method ListNamespaces(pages: seq<Page>) returns (r: Result<seq<string>, string>)
    requires EndsListing(pages)
    ensures r.Err? <==> pages[|pages| - 1].PageError?
    ensures r.Err? ==> r.error == pages[|pages| - 1].error
    ensures r.Ok? ==> (forall i :: 0 <= i < |pages| ==> pages[i].Page?) && r.value == Concat(pages)
  {
    var names := [];
    var i := 0;
    while true
      invariant 0 <= i < |pages|
      invariant forall j :: 0 <= j < i ==> pages[j].Page?
      invariant names == Concat(pages[..i])
      decreases |pages| - i
    {
      var page := pages[i];
      if page.PageError? {
        assert i == |pages| - 1;
        return Err(page.error);
      }
      names := names + page.names;
      assert pages[..i + 1][..i] == pages[..i];
      if page.cont == "" {
        assert i == |pages| - 1 && pages[..i + 1] == pages;
        return Ok(names);
      }
      i := i + 1;
    }
  }

  // ---------------------------------------------------------------------------
  // The whole of resolve
  // ---------------------------------------------------------------------------

  ghost predicate CompleteRun(job: Job, s: State) {
    exists states, steps :: IsRun(job, states, steps) && states[|steps|] == s && s.main.Returned?
  }

  /** r is what resolve may return: cluster-wide review first, then the listing, then one review per name. */
  ghost predicate MayReturn(cluster: Verdict, pages: seq<Page>, verdicts: seq<Verdict>, r: Result<Scope, string>)
    requires EndsListing(pages)
  {
    match cluster
    case Failure(e) => r == Err(e)
    case Granted => r == Ok(AllowAll)
    case Denied =>
      if pages[|pages| - 1].PageError? then r == Err(pages[|pages| - 1].error)
      else
        var job := Job(Concat(pages), verdicts);
        exists s :: CompleteRun(job, s) && r == Outcome(s)
  }

  /** Some schedule always completes, so resolve always returns something. */
  lemma {:induction false} ScheduleCompletes(job: Job, states: seq<State>, steps: seq<Step>) returns (s: State)
    requires IsRun(job, states, steps)
    ensures CompleteRun(job, s)
    decreases 9 * |job.names| + 2 - |steps|
  {
    ScheduleLength(job, states, steps, |steps|);
    RunKeepsInv(job, states, steps, |steps|);
    var last := states[|steps|];
    if last.main.Returned? {
      s := last;
    } else {
      var step := NoDeadlock(job, last);
      s := ScheduleCompletes(job, states + [Apply(job, last, step)], steps + [step]);
    }
  }

  /** Whatever the answers, there is something resolve may return. */
  lemma ResolveReturns(cluster: Verdict, pages: seq<Page>, verdicts: seq<Verdict>) returns (r: Result<Scope, string>)
    requires EndsListing(pages)
    requires !pages[|pages| - 1].PageError? ==> |verdicts| == |Concat(pages)|
    ensures MayReturn(cluster, pages, verdicts, r)
  {
    match cluster
    case Failure(e) => r := Err(e);
    case Granted => r := Ok(AllowAll);
    case Denied =>
      if pages[|pages| - 1].PageError? {
        r := Err(pages[|pages| - 1].error);
      } else {
        var job := Job(Concat(pages), verdicts);
        var s := ScheduleCompletes(job, [Start(job)], []);
        r := Outcome(s);
      }
  }

  /** Nothing failed on the way: the cluster-wide review, and without a cluster-wide grant the rest too. */
  ghost predicate NothingFailed(cluster: Verdict, pages: seq<Page>, verdicts: seq<Verdict>)
    requires pages != []
  {
    cluster.Granted?
    || (&& cluster.Denied? && !pages[|pages| - 1].PageError?
        && forall i :: 0 <= i < |verdicts| ==> !verdicts[i].Failure?)
  }

  /** A scope comes out exactly if nothing failed, and it says exactly what the reviews said. */
  lemma ResolveFailsClosed(cluster: Verdict, pages: seq<Page>, verdicts: seq<Verdict>, r: Result<Scope, string>,
                           ns: string)
    requires EndsListing(pages) && MayReturn(cluster, pages, verdicts, r)
    ensures r.Ok? <==> NothingFailed(cluster, pages, verdicts)
    ensures r.Ok? ==> !cluster.Failure? && r.value != Disabled && (r.value.AllowAll? <==> cluster.Granted?)
    ensures r.Ok? && r.value.Only? ==>
              && !pages[|pages| - 1].PageError?
              && var names := Concat(pages);
                 && |names| == |verdicts|
                 && (forall i :: 0 <= i < |verdicts| ==> !verdicts[i].Failure?)
                 && (Allows(r.value, ns) <==> exists i :: 0 <= i < |names| && names[i] == ns && verdicts[i].Granted?)
  {
    if cluster.Denied? && !pages[|pages| - 1].PageError? {
      var job := Job(Concat(pages), verdicts);
      var s :| CompleteRun(job, s) && r == Outcome(s);
      var states, steps :| IsRun(job, states, steps) && states[|steps|] == s;
      RunKeepsInv(job, states, steps, |steps|);
      OutcomeOfAnySchedule(job, s);
      if !SomeFailure(job) {
        ResolvedScope(job, s, ns);
      }
    }
  }
}
