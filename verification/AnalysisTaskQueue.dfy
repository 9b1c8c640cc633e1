/**
 The analysis task queue: any number of workers claim tasks with a compare-and-set on `pending`, a
 recovery sweep fails tasks that have been processing too long, and the claimer's last write is
 unguarded. Every event is one database statement; a run is any interleaving of them.
 */
module AnalysisTaskQueue {
  import opened Options
  import opened Basics

  datatype Status = Pending | Processing | Completed | Failed

  /** One task row. `claims` is a history variable counting the successful claims. */
  datatype Task = Task(
    owner: Option<nat>,
    stock: string,
    runAfter: Option<nat>,
    status: Status,
    startedAt: Option<nat>,
    completedAt: Option<nat>,
    claims: nat)
  {
    predicate Active() { status == Pending || status == Processing }
    predicate Ready(now: nat) { status == Pending && (runAfter.Some? ==> runAfter.value <= now) }
    predicate Stale(cutoff: int) {
      status == Processing && completedAt.None? && startedAt.Some? && startedAt.value <= cutoff
    }
  }

  datatype Worker =
    | Idle
    | Picked(task: nat)
    | Running(task: nat)
    | Sweeping(now: nat, cutoff: int, stale: seq<nat>)

  /** A submission that found no active task of its owner and stock, and has not inserted its own yet. */
  datatype Request = Request(owner: nat, stock: string)

  /** `indexed` says whether the partial unique index is in place. */
  datatype State = State(
    clock: nat,
    staleTimeoutMs: nat,
    indexed: bool,
    tasks: map<nat, Task>,
    workers: map<nat, Worker>,
    requests: map<nat, Request>)
  {
    function WorkerOf(w: nat): Worker { if w in workers then workers[w] else Idle }
    function SetWorker(w: nat, worker: Worker): State { this.(workers := workers[w := worker]) }
    function SetTask(t: nat, task: Task): State { this.(tasks := tasks[t := task]) }
    predicate IsRunning(w: nat, t: nat) { WorkerOf(w) == Running(t) }
  }

  datatype Event =
    | Tick(ms: nat)
    | CheckDuplicate(client: nat, owner: nat, stock: string)
    | Submit(client: nat, task: nat, runAfter: Option<nat>)
    | SubmitScheduled(task: nat, owner: nat, stock: string)
    | ImportUnowned(task: nat, stock: string)
    | SubmitFailed(task: nat, owner: nat, stock: string)
    | Pick(worker: nat, task: nat)
    | Claim(worker: nat)
    | Complete(worker: nat)
    | Fail(worker: nat)
    | SweepRead(worker: nat, stale: seq<nat>)
    | SweepOne(worker: nat)
    | Crash(worker: nat)

  function PendingTask(owner: Option<nat>, stock: string, runAfter: Option<nat>): Task {
    Task(owner, stock, runAfter, Pending, None, None, 0)
  }

  /** The partial unique index on (owner, stock) over the active rows; NULL owners never collide. */
  predicate IndexAdmits(tasks: map<nat, Task>, owner: Option<nat>, stock: string) {
    owner.Some? ==> forall t :: t in tasks && tasks[t].Active() ==> !(tasks[t].owner == owner && tasks[t].stock == stock)
  }

  /** The duplicate check finds nothing in the way. */
  predicate NoActive(tasks: map<nat, Task>, owner: nat, stock: string) {
    IndexAdmits(tasks, Some(owner), stock)
  }

  function InsertPending(s: State, t: nat, owner: Option<nat>, stock: string, runAfter: Option<nat>): State {
    if t !in s.tasks && (!s.indexed || IndexAdmits(s.tasks, owner, stock)) then s.SetTask(t, PendingTask(owner, stock, runAfter)) else s
  }

  /** The insert of a checked request; the check is not repeated. */
  function SubmitStep(s: State, c: nat, t: nat, runAfter: Option<nat>): State {
    if c !in s.requests then s
    else InsertPending(s, t, Some(s.requests[c].owner), s.requests[c].stock, runAfter).(requests := s.requests - {c})
  }

  function Claiming(task: Task, clock: nat): Task {
    task.(status := Processing, startedAt := Some(clock), claims := task.claims + 1)
  }

  function Ending(task: Task, status: Status, at: nat): Task {
    task.(status := status, completedAt := Some(at))
  }

  function ClaimStep(s: State, w: nat): State {
    match s.WorkerOf(w)
    case Picked(t) =>
      if t in s.tasks && s.tasks[t].status == Pending
      then s.SetTask(t, Claiming(s.tasks[t], s.clock)).SetWorker(w, Running(t))
      else s.SetWorker(w, Idle)
    case _ => s
  }

  /** The claimer's last write: no guard on the status it overwrites. */
  function FinalStep(s: State, w: nat, status: Status): State {
    match s.WorkerOf(w)
    case Running(t) =>
      if t in s.tasks then s.SetTask(t, Ending(s.tasks[t], status, s.clock)).SetWorker(w, Idle) else s
    case _ => s
  }

  function SweepStep(s: State, w: nat): State {
    match s.WorkerOf(w)
    case Sweeping(now, cutoff, stale) =>
      if stale == [] then s.SetWorker(w, Idle)
      else
        var t := stale[0];
        var swept := s.SetWorker(w, Sweeping(now, cutoff, stale[1..]));
        if t in s.tasks && s.tasks[t].Stale(cutoff) then swept.SetTask(t, Ending(s.tasks[t], Failed, now)) else swept
    case _ => s
  }

  predicate IsSubmission(e: Event) {
    e.CheckDuplicate? || e.Submit? || e.SubmitScheduled? || e.ImportUnowned? || e.SubmitFailed?
  }

  function SubmissionStep(s: State, e: Event): State
    requires IsSubmission(e)
  {
    match e
    case CheckDuplicate(c, owner, stock) =>
      if NoActive(s.tasks, owner, stock) then s.(requests := s.requests[c := Request(owner, stock)])
      else s.(requests := s.requests - {c})
    case Submit(c, t, runAfter) => SubmitStep(s, c, t, runAfter)
    case SubmitScheduled(t, owner, stock) =>
      if NoActive(s.tasks, owner, stock) then InsertPending(s, t, Some(owner), stock, None) else s
    case ImportUnowned(t, stock) => InsertPending(s, t, None, stock, None)
    case SubmitFailed(t, owner, stock) =>
      if t !in s.tasks then s.SetTask(t, Ending(PendingTask(Some(owner), stock, None), Failed, s.clock)) else s
  }

  function Next(s: State, e: Event): State {
    if IsSubmission(e) then SubmissionStep(s, e) else
    match e
    case Tick(ms) => s.(clock := s.clock + ms)
    case Pick(w, t) =>
      if s.WorkerOf(w).Idle? && t in s.tasks && s.tasks[t].Ready(s.clock) then s.SetWorker(w, Picked(t)) else s
    case Claim(w) => ClaimStep(s, w)
    case Complete(w) => FinalStep(s, w, Completed)
    case Fail(w) => FinalStep(s, w, Failed)
    case SweepRead(w, stale) =>
      if s.WorkerOf(w).Idle? then s.SetWorker(w, Sweeping(s.clock, s.clock - s.staleTimeoutMs, stale)) else s
    case SweepOne(w) => SweepStep(s, w)
    case Crash(w) => s.SetWorker(w, Idle)
  }

  function Initial(staleTimeoutMs: nat, indexed: bool): State {
    State(0, staleTimeoutMs, indexed, map[], map[], map[])
  }

  function Run(s: State, events: seq<Event>): State
    decreases |events|
  {
    if events == [] then s else Run(Next(s, events[0]), events[1..])
  }

  // ---------------------------------------------------------------- invariant

  ghost predicate TaskOk(task: Task) {
    && (task.status == Pending ==> task.completedAt.None? && task.startedAt.None? && task.claims == 0)
    && (task.status == Processing ==> task.completedAt.None? && task.startedAt.Some? && task.claims == 1)
    && (task.status == Completed ==> task.completedAt.Some? && task.claims == 1)
    && (task.status == Failed ==> task.completedAt.Some? && task.claims <= 1)
  }

  ghost predicate WorkerOk(s: State, worker: Worker) {
    match worker
    case Running(t) =>
      t in s.tasks && s.tasks[t].claims == 1 && (s.tasks[t].status == Processing || s.tasks[t].status == Failed)
    case _ => true
  }

  ghost predicate SingleClaimer(s: State) {
    forall v, w :: v != w && s.WorkerOf(v).Running? && s.WorkerOf(w).Running? ==>
      s.WorkerOf(v).task != s.WorkerOf(w).task
  }

  ghost predicate UniqueActive(tasks: map<nat, Task>) {
    forall t, u :: t in tasks && u in tasks && t != u && tasks[t].Active() && tasks[u].Active() && tasks[t].owner.Some? ==>
      !(tasks[t].owner == tasks[u].owner && tasks[t].stock == tasks[u].stock)
  }

  ghost predicate Inv(s: State) {
    && (forall t :: t in s.tasks ==> TaskOk(s.tasks[t]))
    && (forall w :: WorkerOk(s, s.WorkerOf(w)))
    && SingleClaimer(s)
    && (s.indexed ==> UniqueActive(s.tasks))
  }

  /** A submission leaves workers and rows alone and adds at most one row, never claimed. */
  lemma SubmissionAddsARow(s: State, e: Event)
    requires IsSubmission(e)
    ensures var next := SubmissionStep(s, e);
            && next.workers == s.workers && next.indexed == s.indexed
            && (forall t :: t in s.tasks ==> t in next.tasks && next.tasks[t] == s.tasks[t])
            && (forall t :: t in next.tasks && t !in s.tasks ==> TaskOk(next.tasks[t]) && next.tasks[t].claims == 0)
            && (s.indexed && UniqueActive(s.tasks) ==> UniqueActive(next.tasks))
  {
    hide InsertPending, UniqueActive, TaskOk;
    match e {
      case CheckDuplicate(_, _, _) =>
      case Submit(c, t, runAfter) =>
        if c in s.requests {
          InsertAddsARow(s, t, Some(s.requests[c].owner), s.requests[c].stock, runAfter);
        }
      case SubmitScheduled(t, owner, stock) => InsertAddsARow(s, t, Some(owner), stock, None);
      case ImportUnowned(t, stock) => InsertAddsARow(s, t, None, stock, None);
      case SubmitFailed(t, owner, stock) =>
        if t !in s.tasks {
          FailedRowIsNotActive(s, t, owner, stock);
        }
    }
  }

  lemma InsertAddsARow(s: State, t: nat, owner: Option<nat>, stock: string, runAfter: Option<nat>)
    ensures var next := InsertPending(s, t, owner, stock, runAfter);
            && next.(tasks := s.tasks) == s
            && (forall u :: u in s.tasks ==> u in next.tasks && next.tasks[u] == s.tasks[u])
            && (forall u :: u in next.tasks && u !in s.tasks ==> TaskOk(next.tasks[u]) && next.tasks[u].claims == 0)
            && (s.indexed && UniqueActive(s.tasks) ==> UniqueActive(next.tasks))
  {}

  lemma FailedRowIsNotActive(s: State, t: nat, owner: nat, stock: string)
    requires t !in s.tasks
    ensures var row := Ending(PendingTask(Some(owner), stock, None), Failed, s.clock);
            TaskOk(row) && (UniqueActive(s.tasks) ==> UniqueActive(s.tasks[t := row]))
  {}

  lemma SubmissionKeepsInv(s: State, e: Event)
    requires Inv(s) && IsSubmission(e)
    ensures Inv(SubmissionStep(s, e))
  {
    hide SubmissionStep, TaskOk, UniqueActive;
    SubmissionAddsARow(s, e);
    var next := SubmissionStep(s, e);
    forall t | t in next.tasks ensures TaskOk(next.tasks[t]) {
      assert t in s.tasks ==> next.tasks[t] == s.tasks[t];
    }
    forall w ensures WorkerOk(next, next.WorkerOf(w)) {
      assert WorkerOk(s, s.WorkerOf(w)) && next.WorkerOf(w) == s.WorkerOf(w);
    }
    assert SingleClaimer(next) by {
      assert forall w :: next.WorkerOf(w) == s.WorkerOf(w);
    }
  }

  lemma StepKeepsTasks(s: State, e: Event)
    requires Inv(s) && !IsSubmission(e)
    ensures var s' := Next(s, e); forall t :: t in s'.tasks ==> TaskOk(s'.tasks[t])
  {}

  lemma StepKeepsWorker(s: State, e: Event, w: nat)
    requires Inv(s) && !IsSubmission(e)
    ensures WorkerOk(Next(s, e), Next(s, e).WorkerOf(w))
  {
    hide UniqueActive;
    assert WorkerOk(s, s.WorkerOf(w));
    if e.Complete? || e.Fail? {
      var v := e.worker;
      assert WorkerOk(s, s.WorkerOf(v));
      assert v != w && s.WorkerOf(v).Running? && s.WorkerOf(w).Running? ==> s.WorkerOf(v).task != s.WorkerOf(w).task;
    }
  }

  lemma StepKeepsSingleClaimer(s: State, e: Event)
    requires Inv(s) && !IsSubmission(e)
    ensures SingleClaimer(Next(s, e))
  {
    hide UniqueActive;
    if e.Claim? {
      ClaimKeepsSingleClaimer(s, e.worker);
    } else {
      var s' := Next(s, e);
      assert forall v :: s'.WorkerOf(v).Running? ==> s'.WorkerOf(v) == s.WorkerOf(v);
    }
  }

  lemma ClaimKeepsSingleClaimer(s: State, w: nat)
    requires Inv(s)
    ensures SingleClaimer(ClaimStep(s, w))
  {
    hide UniqueActive;
    var s' := ClaimStep(s, w);
    forall v, u | v != u && s'.WorkerOf(v).Running? && s'.WorkerOf(u).Running?
      ensures s'.WorkerOf(v).task != s'.WorkerOf(u).task
    {
      assert WorkerOk(s, s.WorkerOf(v)) && WorkerOk(s, s.WorkerOf(u));
    }
  }

  lemma StepKeepsUniqueActive(s: State, e: Event)
    requires Inv(s) && !IsSubmission(e)
    ensures s.indexed ==> UniqueActive(Next(s, e).tasks)
  {
    hide SingleClaimer;
    if e.Complete? || e.Fail? {
      assert WorkerOk(s, s.WorkerOf(e.worker));
    }
  }

  lemma StepKeepsInv(s: State, e: Event)
    requires Inv(s)
    ensures Inv(Next(s, e))
  {
    hide SubmissionStep, UniqueActive, SingleClaimer, TaskOk;
    if IsSubmission(e) {
      SubmissionKeepsInv(s, e);
    } else {
      StepKeepsTasks(s, e);
      forall w ensures WorkerOk(Next(s, e), Next(s, e).WorkerOf(w)) {
        StepKeepsWorker(s, e, w);
      }
      StepKeepsSingleClaimer(s, e);
      StepKeepsUniqueActive(s, e);
    }
  }

  lemma {:induction false} RunKeepsInv(s: State, events: seq<Event>)
    requires Inv(s)
    ensures Inv(Run(s, events))
    decreases |events|
  {
    if events != [] {
      StepKeepsInv(s, events[0]);
      RunKeepsInv(Next(s, events[0]), events[1..]);
    }
  }

  // ---------------------------------------------------------------- results over every run

  /** The writes one statement can make to a row: a claimed task never returns to pending, a completed row
      never changes, and a failed row changes only by the last write of the one worker that claimed it. */
  ghost predicate Allowed(s: State, e: Event, t: nat, before: Task, after: Task) {
    && before.owner == after.owner && before.stock == after.stock
    && before.claims <= after.claims <= 1
    && (before.status != Pending ==> after.status != Pending && after.claims == before.claims)
    && (before.status == Completed ==> after == before)
    && (before.status == Failed && after != before ==>
          (e.Complete? || e.Fail?) && s.IsRunning(e.worker, t) && before.claims == 1)
  }

  lemma StepChangesRowsAsAllowed(s: State, e: Event, t: nat)
    requires Inv(s) && t in s.tasks
    ensures t in Next(s, e).tasks && Allowed(s, e, t, s.tasks[t], Next(s, e).tasks[t])
  {
    hide SubmissionStep, UniqueActive, SingleClaimer;
    assert TaskOk(s.tasks[t]);
    if IsSubmission(e) {
      SubmissionAddsARow(s, e);
    } else if e.Complete? || e.Fail? {
      LastWriteIsAllowed(s, e, t);
    } else {
      hide WorkerOk;
    }
  }

  lemma LastWriteIsAllowed(s: State, e: Event, t: nat)
    requires Inv(s) && t in s.tasks && (e.Complete? || e.Fail?)
    ensures t in Next(s, e).tasks && Allowed(s, e, t, s.tasks[t], Next(s, e).tasks[t])
  {
    hide SubmissionStep, UniqueActive, SingleClaimer;
    assert TaskOk(s.tasks[t]) && WorkerOk(s, s.WorkerOf(e.worker));
  }

  lemma EveryTaskRowIsWellFormed(staleTimeoutMs: nat, indexed: bool, events: seq<Event>, t: nat)
    requires t in Run(Initial(staleTimeoutMs, indexed), events).tasks
    ensures var task := Run(Initial(staleTimeoutMs, indexed), events).tasks[t];
            && task.claims <= 1
            && (task.status == Completed || task.status == Failed ==> task.completedAt.Some?)
            && (task.status == Pending || task.status == Processing ==> task.completedAt.None?)
            && (task.status == Processing || task.status == Completed ==> task.claims == 1)
  {
    RunKeepsInv(Initial(staleTimeoutMs, indexed), events);
    assert TaskOk(Run(Initial(staleTimeoutMs, indexed), events).tasks[t]);
  }

  lemma AtMostOneActivePerOwnerAndStock(staleTimeoutMs: nat, events: seq<Event>, t: nat, u: nat)
    requires var tasks := Run(Initial(staleTimeoutMs, true), events).tasks;
             && t in tasks && u in tasks && tasks[t].Active() && tasks[u].Active()
             && tasks[t].owner.Some? && tasks[t].owner == tasks[u].owner && tasks[t].stock == tasks[u].stock
    ensures t == u
  {
    RunKeepsInv(Initial(staleTimeoutMs, true), events);
    IndexStays(Initial(staleTimeoutMs, true), events);
  }

  lemma {:induction false} IndexStays(s: State, events: seq<Event>)
    ensures Run(s, events).indexed == s.indexed
    decreases |events|
  {
    if events != [] {
      hide SubmissionStep;
      if IsSubmission(events[0]) {
        SubmissionAddsARow(s, events[0]);
      }
      assert Next(s, events[0]).indexed == s.indexed;
      IndexStays(Next(s, events[0]), events[1..]);
    }
  }

  ghost predicate UniqueAfter(staleTimeoutMs: nat, indexed: bool, events: seq<Event>) {
    UniqueActive(Run(Initial(staleTimeoutMs, indexed), events).tasks)
  }

  /** Active tasks are unique per owner and stock in every run exactly with the index: the duplicate check alone
      lets two racing requests through. */
  lemma UniqueInEveryRunIffIndexed(staleTimeoutMs: nat, indexed: bool)
    ensures indexed <==> forall events :: UniqueAfter(staleTimeoutMs, indexed, events)
  {
    if indexed {
      forall events ensures UniqueAfter(staleTimeoutMs, indexed, events) {
        RunKeepsInv(Initial(staleTimeoutMs, indexed), events);
        IndexStays(Initial(staleTimeoutMs, indexed), events);
      }
    } else {
      DuplicateCheckAloneIsNotEnough(staleTimeoutMs);
      assert !UniqueAfter(staleTimeoutMs, false, RacingRequests());
    }
  }

  /** Two requests for one owner and stock, both checked before either inserts. */
  function RacingRequests(): seq<Event> {
    [CheckDuplicate(0, 1, "600519"), CheckDuplicate(1, 1, "600519"), Submit(0, 10, None), Submit(1, 11, None)]
  }

  lemma DuplicateCheckAloneIsNotEnough(staleTimeoutMs: nat)
    ensures var s := Run(Initial(staleTimeoutMs, false), RacingRequests());
            s.tasks == map[10 := PendingTask(Some(1), "600519", None), 11 := PendingTask(Some(1), "600519", None)]
            && !UniqueActive(s.tasks)
  {
    var row := PendingTask(Some(1), "600519", None);
    var s0 := Initial(staleTimeoutMs, false);
    var s2 := Next(Next(s0, CheckDuplicate(0, 1, "600519")), CheckDuplicate(1, 1, "600519"));
    assert s2.requests == map[0 := Request(1, "600519"), 1 := Request(1, "600519")] && s2.tasks == map[];
    var s3 := Next(s2, Submit(0, 10, None));
    assert s3.tasks == map[10 := row] && 1 in s3.requests;
    var s4 := Next(s3, Submit(1, 11, None));
    assert s4.tasks == map[10 := row, 11 := row];
    RunOfFour(s0, RacingRequests());
    assert s4.tasks[10].Active() && s4.tasks[11].Active();
  }

  lemma RunOfFour(s: State, events: seq<Event>)
    requires |events| == 4
    ensures Run(s, events) == Next(Next(Next(Next(s, events[0]), events[1]), events[2]), events[3])
  {
    hide Next;
    var s1 := Next(s, events[0]);
    var s2 := Next(s1, events[1]);
    var s3 := Next(s2, events[2]);
    assert events[1..][1..] == events[2..] && events[2..][1..] == events[3..] && events[3..][1..] == [];
    assert Run(s3, events[3..]) == Next(s3, events[3]);
    assert Run(s2, events[2..]) == Run(s3, events[3..]);
    assert Run(s1, events[1..]) == Run(s2, events[2..]);
  }

  /** One insert of a checked request keeps uniqueness exactly if the index is there or the check would still pass. */
  lemma SubmitKeepsUniqueIff(s: State, c: nat, t: nat, runAfter: Option<nat>)
    requires UniqueActive(s.tasks) && c in s.requests && t !in s.tasks
    ensures UniqueActive(Next(s, Submit(c, t, runAfter)).tasks)
            <==> s.indexed || NoActive(s.tasks, s.requests[c].owner, s.requests[c].stock)
  {
    var next := Next(s, Submit(c, t, runAfter));
    if !s.indexed && !NoActive(s.tasks, s.requests[c].owner, s.requests[c].stock) {
      var u :| u in s.tasks && s.tasks[u].Active()
            && s.tasks[u].owner == Some(s.requests[c].owner) && s.tasks[u].stock == s.requests[c].stock;
      assert next.tasks[u].Active() && next.tasks[t].Active() && next.tasks[t].owner.Some?;
    }
  }

  /** Over any continuation of any run: no second claim, no return to pending, no change after completion. */
  lemma {:induction false} ClaimedTasksOnlyMoveForward(s: State, more: seq<Event>, t: nat)
    requires Inv(s) && t in s.tasks && s.tasks[t].status != Pending
    ensures t in Run(s, more).tasks && Run(s, more).tasks[t].status != Pending
    ensures Run(s, more).tasks[t].claims == s.tasks[t].claims
    ensures s.tasks[t].status == Completed ==> Run(s, more).tasks[t] == s.tasks[t]
    decreases |more|
  {
    if more != [] {
      StepKeepsInv(s, more[0]);
      StepChangesRowsAsAllowed(s, more[0], t);
      ClaimedTasksOnlyMoveForward(Next(s, more[0]), more[1..], t);
    }
  }

  ghost predicate NobodyRuns(s: State, t: nat) {
    forall w :: !s.IsRunning(w, t)
  }

  ghost predicate FrozenForGood(s: State, t: nat)
    requires t in s.tasks
  {
    forall more :: t in Run(s, more).tasks && Run(s, more).tasks[t] == s.tasks[t]
  }

  lemma NobodyStartsEndedTask(s: State, e: Event, t: nat)
    requires t in s.tasks && s.tasks[t].status == Failed && NobodyRuns(s, t)
    ensures NobodyRuns(Next(s, e), t)
  {
    hide SubmissionStep;
    if IsSubmission(e) {
      SubmissionAddsARow(s, e);
    }
    forall w ensures !Next(s, e).IsRunning(w, t) {
      assert !s.IsRunning(w, t);
    }
  }

  lemma {:induction false} FailedStays(s: State, more: seq<Event>, t: nat)
    requires Inv(s) && t in s.tasks && s.tasks[t].status == Failed && NobodyRuns(s, t)
    ensures t in Run(s, more).tasks && Run(s, more).tasks[t] == s.tasks[t]
    decreases |more|
  {
    hide Inv, Next;
    if more != [] {
      StepKeepsInv(s, more[0]);
      StepChangesRowsAsAllowed(s, more[0], t);
      NobodyStartsEndedTask(s, more[0], t);
      FailedStays(Next(s, more[0]), more[1..], t);
    }
  }

  /** A task the sweep failed can still be overwritten by its late claimer; exactly when no worker is still
      running it is the failure final. */
  lemma FailedIsFinalIffNobodyRuns(staleTimeoutMs: nat, indexed: bool, events: seq<Event>, t: nat)
    requires t in Run(Initial(staleTimeoutMs, indexed), events).tasks
    requires Run(Initial(staleTimeoutMs, indexed), events).tasks[t].status == Failed
    ensures var s := Run(Initial(staleTimeoutMs, indexed), events); FrozenForGood(s, t) <==> NobodyRuns(s, t)
  {
    var s := Run(Initial(staleTimeoutMs, indexed), events);
    RunKeepsInv(Initial(staleTimeoutMs, indexed), events);
    if NobodyRuns(s, t) {
      forall more ensures t in Run(s, more).tasks && Run(s, more).tasks[t] == s.tasks[t] {
        FailedStays(s, more, t);
      }
    } else {
      var w :| s.IsRunning(w, t);
      var more := [Complete(w)];
      assert Run(Next(s, more[0]), more[1..]) == Next(s, Complete(w));
      assert Run(s, more) == Next(s, Complete(w));
      assert Run(s, more).tasks[t].status == Completed;
    }
  }

  // ---------------------------------------------------------------- where an end comes from

  lemma {:induction false} RunInTwoParts(s: State, events: seq<Event>, i: nat)
    requires i <= |events|
    ensures Run(s, events) == Run(Run(s, events[..i]), events[i..])
    decreases |events|
  {
    hide Next;
    if i == 0 {
      assert events[..0] == [] && events[0..] == events;
    } else {
      RunInTwoParts(Next(s, events[0]), events[1..], i - 1);
      assert events[..i][1..] == events[1..][..i - 1] && events[1..][i - 1..] == events[i..];
    }
  }

  /** The i-th event is the last write of the worker that claimed the task, on success or from the catch branch. */
  ghost predicate Concludes(s: State, events: seq<Event>, i: int, t: nat, succeeded: bool) {
    && 0 <= i < |events| && (if succeeded then events[i].Complete? else events[i].Fail?)
    && Run(s, events[..i]).IsRunning(events[i].worker, t)
  }

  lemma LastWriteEnds(s: State, e: Event, t: nat)
    requires Inv(s) && (e.Complete? || e.Fail?) && s.IsRunning(e.worker, t)
    ensures var next := Next(s, e);
            && t in next.tasks && next.tasks[t].status == (if e.Complete? then Completed else Failed)
            && next.tasks[t].completedAt == Some(s.clock) && NobodyRuns(next, t)
  {
    hide UniqueActive, TaskOk;
    assert WorkerOk(s, s.WorkerOf(e.worker));
    forall w ensures !Next(s, e).IsRunning(w, t) {
      assert w != e.worker && s.WorkerOf(w).Running? ==> s.WorkerOf(w).task != s.WorkerOf(e.worker).task;
    }
  }

  /** The claimer's outcome is the task's for good, with the time it was written: completed if it succeeded, failed if not. */
  lemma ClaimersOutcomeStands(staleTimeoutMs: nat, indexed: bool, events: seq<Event>, i: int, t: nat, succeeded: bool)
    requires Concludes(Initial(staleTimeoutMs, indexed), events, i, t, succeeded)
    ensures var init := Initial(staleTimeoutMs, indexed);
            && t in Run(init, events).tasks
            && var task := Run(init, events).tasks[t];
               && task.status == (if succeeded then Completed else Failed)
               && task.completedAt == Some(Run(init, events[..i]).clock)
  {
    hide Next, Inv;
    var init := Initial(staleTimeoutMs, indexed);
    var s := Run(init, events[..i]);
    InitialKeepsInv(staleTimeoutMs, indexed);
    RunKeepsInv(init, events[..i]);
    RunInTwoParts(init, events, i);
    assert events[i..][0] == events[i] && events[i..][1..] == events[i + 1..];
    LastWriteEnds(s, events[i], t);
    StepKeepsInv(s, events[i]);
    if succeeded {
      ClaimedTasksOnlyMoveForward(Next(s, events[i]), events[i + 1..], t);
    } else {
      FailedStays(Next(s, events[i]), events[i + 1..], t);
    }
  }

  lemma InitialKeepsInv(staleTimeoutMs: nat, indexed: bool)
    ensures Inv(Initial(staleTimeoutMs, indexed))
  {}

  lemma StepThatCompletes(s: State, e: Event, t: nat)
    requires t in Next(s, e).tasks && Next(s, e).tasks[t].status == Completed
    requires !(t in s.tasks && s.tasks[t].status == Completed)
    ensures e.Complete? && s.IsRunning(e.worker, t)
  {}

  /** A task is completed exactly when its claimer reported success: never by a sweep, by a failure or by anyone else. */
  lemma {:induction false} CompletedIffItsClaimerSucceeded(staleTimeoutMs: nat, indexed: bool, events: seq<Event>, t: nat)
    ensures var init := Initial(staleTimeoutMs, indexed);
            t in Run(init, events).tasks && Run(init, events).tasks[t].status == Completed
            <==> exists i :: Concludes(init, events, i, t, true)
    decreases |events|
  {
    hide Next;
    var init := Initial(staleTimeoutMs, indexed);
    if i :| Concludes(init, events, i, t, true) {
      ClaimersOutcomeStands(staleTimeoutMs, indexed, events, i, t, true);
    }
    if events != [] && t in Run(init, events).tasks && Run(init, events).tasks[t].status == Completed {
      var n := |events| - 1;
      var s := Run(init, events[..n]);
      RunInTwoParts(init, events, n);
      assert events[n..][0] == events[n] && events[n..][1..] == [];
      if t in s.tasks && s.tasks[t].status == Completed {
        CompletedIffItsClaimerSucceeded(staleTimeoutMs, indexed, events[..n], t);
        var i :| Concludes(init, events[..n], i, t, true);
        assert events[..n][..i] == events[..i];
        assert Concludes(init, events, i, t, true);
      } else {
        StepThatCompletes(s, events[n], t);
        assert Concludes(init, events, n, t, true);
      }
    }
  }

  /** A sweep under way judges by the clock it began at. */
  ghost predicate SweepsOk(s: State) {
    forall w :: s.WorkerOf(w).Sweeping? ==>
      s.WorkerOf(w).now <= s.clock && s.WorkerOf(w).cutoff == s.WorkerOf(w).now - s.staleTimeoutMs
  }

  lemma StepKeepsSweeps(s: State, e: Event)
    requires SweepsOk(s)
    ensures SweepsOk(Next(s, e)) && Next(s, e).staleTimeoutMs == s.staleTimeoutMs
  {
    hide SubmissionStep;
    if IsSubmission(e) {
      SubmissionKeepsSweeps(s, e);
      assert forall w :: Next(s, e).WorkerOf(w) == s.WorkerOf(w);
      return;
    }
    forall w | Next(s, e).WorkerOf(w).Sweeping?
      ensures Next(s, e).WorkerOf(w).now <= Next(s, e).clock
           && Next(s, e).WorkerOf(w).cutoff == Next(s, e).WorkerOf(w).now - s.staleTimeoutMs
    {
      StepKeepsSweep(s, e, w);
    }
  }

  lemma StepKeepsSweep(s: State, e: Event, w: nat)
    requires SweepsOk(s) && !IsSubmission(e) && Next(s, e).WorkerOf(w).Sweeping?
    ensures var sweep := Next(s, e).WorkerOf(w); sweep.now <= Next(s, e).clock && sweep.cutoff == sweep.now - s.staleTimeoutMs
  {
    hide SubmissionStep;
    assert s.WorkerOf(w).Sweeping? ==> s.WorkerOf(w).now <= s.clock;
  }

  lemma SubmissionKeepsSweeps(s: State, e: Event)
    requires IsSubmission(e)
    ensures SubmissionStep(s, e).(tasks := s.tasks, requests := s.requests) == s
  {}

  lemma {:induction false} RunKeepsSweeps(s: State, events: seq<Event>)
    requires SweepsOk(s)
    ensures SweepsOk(Run(s, events)) && Run(s, events).staleTimeoutMs == s.staleTimeoutMs
    decreases |events|
  {
    hide Next;
    if events != [] {
      StepKeepsSweeps(s, events[0]);
      RunKeepsSweeps(Next(s, events[0]), events[1..]);
    }
  }

  /** A row in processing that was started at least the timeout ago. */
  ghost predicate Overdue(s: State, t: nat, staleTimeoutMs: nat) {
    t in s.tasks && s.tasks[t].status == Processing && s.tasks[t].startedAt.Some? && s.tasks[t].startedAt.value + staleTimeoutMs <= s.clock
  }

  /** What can fail a task: its claimer, a sweep once it is overdue, or being created as failed. */
  lemma OnlyTheseFail(staleTimeoutMs: nat, indexed: bool, events: seq<Event>, e: Event, t: nat)
    requires var s := Run(Initial(staleTimeoutMs, indexed), events);
             t in Next(s, e).tasks && Next(s, e).tasks[t].status == Failed && !(t in s.tasks && s.tasks[t].status == Failed)
    ensures var s := Run(Initial(staleTimeoutMs, indexed), events);
            || (e.Fail? && s.IsRunning(e.worker, t))
            || (e.SweepOne? && Overdue(s, t, staleTimeoutMs))
            || (e.SubmitFailed? && e.task == t && t !in s.tasks)
  {
    var init := Initial(staleTimeoutMs, indexed);
    RunKeepsSweeps(init, events);
    StepThatFails(Run(init, events), e, t);
  }

  lemma StepThatFails(s: State, e: Event, t: nat)
    requires SweepsOk(s) && t in Next(s, e).tasks && Next(s, e).tasks[t].status == Failed && !(t in s.tasks && s.tasks[t].status == Failed)
    ensures || (e.Fail? && s.IsRunning(e.worker, t)) || (e.SweepOne? && Overdue(s, t, s.staleTimeoutMs))
            || (e.SubmitFailed? && e.task == t && t !in s.tasks)
  {}

  /** Every row begins as submitted: pending, unclaimed and without times, or failed at once with its end time. */
  lemma NewRowsAreAsSubmitted(s: State, e: Event, t: nat)
    requires t in Next(s, e).tasks && t !in s.tasks
    ensures var row := Next(s, e).tasks[t];
            match e
            case Submit(c, _, runAfter) =>
              c in s.requests && row == Task(Some(s.requests[c].owner), s.requests[c].stock, runAfter, Pending, None, None, 0)
            case SubmitScheduled(_, owner, stock) => row == Task(Some(owner), stock, None, Pending, None, None, 0)
            case ImportUnowned(_, stock) => row == Task(None, stock, None, Pending, None, None, 0)
            case SubmitFailed(_, owner, stock) => row == Task(Some(owner), stock, None, Failed, None, Some(s.clock), 0)
            case _ => false
    ensures e.SubmitScheduled? ==> !exists u :: u in s.tasks && s.tasks[u].Active() && s.tasks[u].owner == Some(e.owner) && s.tasks[u].stock == e.stock
  {}

  /** A run up to the claim, and the same run once the claimed row was swept as stale. */
  function ClaimedState(): State { Next(Next(Next(Initial(100, true), ImportUnowned(7, "600519")), Pick(1, 7)), Claim(1)) }
  function SweptState(): State { Next(Next(Next(ClaimedState(), Tick(100)), SweepRead(2, [7])), SweepOne(2)) }

  lemma ClaimedStateRuns()
    ensures var s := ClaimedState();
            && s.clock == 0 && s.staleTimeoutMs == 100 && s.WorkerOf(1) == Running(7) && s.WorkerOf(2) == Idle
            && 7 in s.tasks && s.tasks[7] == Claiming(PendingTask(None, "600519", None), 0)
  {
    var imported := Next(Initial(100, true), ImportUnowned(7, "600519"));
    assert imported.tasks == map[7 := PendingTask(None, "600519", None)];
    assert Next(imported, Pick(1, 7)).WorkerOf(1) == Picked(7);
  }

  /** It does happen: a task is claimed, swept as stale, and then completed by its claimer after all. */
  lemma SweptTaskCanComplete()
    ensures var s, late := SweptState(), Next(SweptState(), Complete(1));
            && 7 in s.tasks && s.tasks[7].status == Failed && s.IsRunning(1, 7)
            && 7 in late.tasks && late.tasks[7].status == Completed
  {
    hide SubmissionStep, ClaimedState, Next;
    ClaimedStateRuns();
    SweepFailsStale(ClaimedState());
    LateWriteCompletes(SweptState());
  }

  lemma SweepFailsStale(claimed: State)
    requires claimed.clock == 0 && claimed.staleTimeoutMs == 100 && claimed.WorkerOf(1) == Running(7) && claimed.WorkerOf(2) == Idle
    requires 7 in claimed.tasks && claimed.tasks[7] == Claiming(PendingTask(None, "600519", None), 0)
    ensures var s := Next(Next(Next(claimed, Tick(100)), SweepRead(2, [7])), SweepOne(2));
            7 in s.tasks && s.tasks[7].status == Failed && s.IsRunning(1, 7)
  {
    hide SubmissionStep;
    var listed := Next(Next(claimed, Tick(100)), SweepRead(2, [7]));
    assert listed.WorkerOf(2) == Sweeping(100, 0, [7]) && listed.WorkerOf(1) == Running(7) && listed.tasks == claimed.tasks;
  }

  lemma LateWriteCompletes(s: State)
    requires 7 in s.tasks && s.IsRunning(1, 7)
    ensures 7 in Next(s, Complete(1)).tasks && Next(s, Complete(1)).tasks[7].status == Completed
  {
    hide SubmissionStep;
  }

  // ---------------------------------------------------------------- the worker service

  /** In processing, not ended, and started at the cutoff or before. */
  predicate StaleAt(task: Task, cutoff: int) {
    task.status == Processing && task.completedAt == None && task.startedAt != None && task.startedAt.value <= cutoff
  }

  /** The stale rows failed at `now`, the others as they were. */
  ghost predicate StaleRowsFailed(before: map<nat, Task>, after: map<nat, Task>, cutoff: int, now: nat) {
    && after.Keys == before.Keys
    && forall t :: t in before ==>
         after[t] == if StaleAt(before[t], cutoff) then before[t].(status := Failed, completedAt := Some(now)) else before[t]
  }

  function Recovered(tasks: map<nat, Task>, cutoff: int, now: nat): map<nat, Task> {
    map t | t in tasks :: if tasks[t].Stale(cutoff) then Ending(tasks[t], Failed, now) else tasks[t]
  }

  class TaskWorkerService {
    var clock: nat
    const staleTimeoutMs: nat
    const indexed: bool
    var tasks: map<nat, Task>
    var workers: map<nat, Worker>
    var requests: map<nat, Request>

    ghost function View(): State
      reads this
    {
      State(clock, staleTimeoutMs, indexed, tasks, workers, requests)
    }

    ghost predicate Valid()
      reads this
    {
      Inv(View())
    }

    constructor (staleTimeoutMs: nat, indexed: bool)
      ensures Valid() && View() == Initial(staleTimeoutMs, indexed)
    {
      this.staleTimeoutMs, this.indexed := staleTimeoutMs, indexed;
      clock := 0;
      tasks, workers, requests := map[], map[], map[];
    }

    function WorkerOf(w: nat): Worker
      reads this
    {
      if w in workers then workers[w] else Idle
    }

    /** submitAsync, the duplicate check. */
    method CheckForDuplicate(c: nat, owner: nat, stock: string) returns (duplicate: bool)
      requires Valid()
      modifies this`requests
      ensures Valid() && View() == Next(old(View()), CheckDuplicate(c, owner, stock))
      ensures duplicate <==> exists t :: t in tasks && (tasks[t].status == Pending || tasks[t].status == Processing)
                                           && tasks[t].owner == Some(owner) && tasks[t].stock == stock
      ensures requests == if duplicate then old(requests) - {c} else old(requests)[c := Request(owner, stock)]
    {
      StepKeepsInv(View(), CheckDuplicate(c, owner, stock));
      duplicate := exists t :: t in tasks && tasks[t].Active() && tasks[t].owner == Some(owner) && tasks[t].stock == stock;
      requests := if duplicate then requests - {c} else requests[c := Request(owner, stock)];
    }

    /** createPendingAnalysisTask: the insert of a checked request, refused by the partial unique index if there is one. */
    method CreatePendingTask(c: nat, t: nat, runAfter: Option<nat>) returns (created: bool)
      requires Valid() && t !in tasks && c in requests
      modifies this`tasks, this`requests
      ensures Valid() && View() == Next(old(View()), Submit(c, t, runAfter))
      ensures var request := old(requests)[c];
              && (created <==> !indexed || !exists u :: u in old(tasks) && (old(tasks)[u].status == Pending || old(tasks)[u].status == Processing)
                                                        && old(tasks)[u].owner == Some(request.owner) && old(tasks)[u].stock == request.stock)
              && (created ==> tasks == old(tasks)[t := Task(Some(request.owner), request.stock, runAfter, Pending, None, None, 0)])
      ensures !created ==> tasks == old(tasks)
    {
      StepKeepsInv(View(), Submit(c, t, runAfter));
      var request := requests[c];
      created := !indexed || IndexAdmits(tasks, Some(request.owner), request.stock);
      if created {
        tasks := tasks[t := PendingTask(Some(request.owner), request.stock, runAfter)];
      }
      requests := requests - {c};
    }

    /** createFailedAnalysisTask: a task that never reaches the queue. */
    method CreateFailedTask(t: nat, owner: nat, stock: string)
      requires Valid() && t !in tasks
      modifies this`tasks
      ensures Valid() && View() == Next(old(View()), SubmitFailed(t, owner, stock))
      ensures tasks == old(tasks)[t := Task(Some(owner), stock, None, Failed, None, Some(clock), 0)]
    {
      StepKeepsInv(View(), SubmitFailed(t, owner, stock));
      tasks := tasks[t := Task(Some(owner), stock, None, Failed, None, Some(clock), 0)];
    }

    /** processOne, the candidate read. */
    method PickCandidate(w: nat, t: nat) returns (found: bool)
      requires Valid() && WorkerOf(w).Idle?
      modifies this`workers
      ensures Valid() && View() == Next(old(View()), Pick(w, t))
      ensures found <==> t in tasks && tasks[t].status == Pending && (tasks[t].runAfter == None || tasks[t].runAfter.value <= clock)
      ensures workers == if found then old(workers)[w := Picked(t)] else old(workers)
    {
      StepKeepsInv(View(), Pick(w, t));
      found := t in tasks && tasks[t].Ready(clock);
      if found {
        workers := workers[w := Picked(t)];
      }
    }

    /** processOne, the guarded claim. */
    method ClaimCandidate(w: nat) returns (locked: bool)
      requires Valid() && WorkerOf(w).Picked?
      modifies this`tasks, this`workers
      ensures Valid() && View() == Next(old(View()), Claim(w))
      ensures var t := old(WorkerOf(w)).task;
              && (locked <==> t in old(tasks) && old(tasks)[t].status == Pending)
              && (locked ==> WorkerOf(w) == Running(t))
              && (locked ==> tasks == old(tasks)[t := old(tasks)[t].(
                    status := Processing, startedAt := Some(clock), claims := old(tasks)[t].claims + 1)])
      ensures !locked ==> tasks == old(tasks) && WorkerOf(w) == Idle
    {
      StepKeepsInv(View(), Claim(w));
      var t := workers[w].task;
      locked := t in tasks && tasks[t].status == Pending;
      if locked {
        var row := tasks[t];
        row := row.(status := Processing, startedAt := Some(clock));
        row := row.(claims := row.claims + 1);
        tasks := tasks[t := row];
      }
      workers := workers[w := if locked then Running(t) else Idle];
    }

    /** handleTask: the claimer's last write, on success or from the catch branch. */
    method WriteOutcome(w: nat, succeeded: bool)
      requires Valid() && WorkerOf(w).Running?
      modifies this`tasks, this`workers
      ensures Valid() && View() == Next(old(View()), if succeeded then Complete(w) else Fail(w))
      ensures var t := old(WorkerOf(w)).task;
              && t in old(tasks) && WorkerOf(w) == Idle
              && tasks == old(tasks)[t := old(tasks)[t].(status := if succeeded then Completed else Failed, completedAt := Some(clock))]
    {
      StepKeepsInv(View(), if succeeded then Complete(w) else Fail(w));
      assert WorkerOk(View(), View().WorkerOf(w));
      var t := workers[w].task;
      var row := tasks[t];
      row := row.(status := if succeeded then Completed else Failed);
      row := row.(completedAt := Some(clock));
      tasks := tasks[t := row];
      workers := workers[w := Idle];
    }

    /** recoverStaleProcessingTasks, an uninterrupted sweep at the current clock. */
    method RecoverStaleProcessingTasks() returns (recoveredAny: bool)
      requires Valid()
      modifies this`tasks
      ensures Valid()
      ensures tasks == Recovered(old(tasks), clock - staleTimeoutMs, clock)
      ensures StaleRowsFailed(old(tasks), tasks, clock - staleTimeoutMs, clock)
      ensures recoveredAny <==> tasks != old(tasks)
    {
      hide Inv, TaskOk, Recovered;
      RecoveredKeepsInv(View(), clock);
      recoveredAny := FailStaleRows(clock - staleTimeoutMs);
    }

    /** Its loop: lists the stale rows, then one guarded update per listed row. */
    method FailStaleRows(cutoff: int) returns (recoveredAny: bool)
      modifies this`tasks
      ensures tasks == Recovered(old(tasks), cutoff, clock)
      ensures StaleRowsFailed(old(tasks), tasks, cutoff, clock)
      ensures recoveredAny <==> tasks != old(tasks)
    {
      ghost var before := tasks;
      var todo := set t | t in tasks && tasks[t].Stale(cutoff);
      recoveredAny := todo != {};
      assert recoveredAny ==> exists t :: t in todo;
      while todo != {}
        invariant todo <= tasks.Keys == before.Keys
        invariant forall t :: t in before ==>
          tasks[t] == if t in todo then before[t] else Recovered(before, cutoff, clock)[t]
      {
        var t :| t in todo;
        todo := todo - {t};
        if tasks[t].Stale(cutoff) {
          var row := tasks[t];
          tasks := tasks[t := row.(status := Failed, completedAt := Some(clock))];
        }
      }
    }
  }

  lemma RecoveredKeepsInv(s: State, now: nat)
    requires Inv(s)
    ensures Inv(s.(tasks := Recovered(s.tasks, now - s.staleTimeoutMs, now)))
  {
    var s' := s.(tasks := Recovered(s.tasks, now - s.staleTimeoutMs, now));
    forall w ensures WorkerOk(s', s'.WorkerOf(w)) {
      assert WorkerOk(s, s.WorkerOf(w));
    }
    forall v, w | v != w && s'.WorkerOf(v).Running? && s'.WorkerOf(w).Running?
      ensures s'.WorkerOf(v).task != s'.WorkerOf(w).task
    {
      assert s.WorkerOf(v).Running? && s.WorkerOf(w).Running?;
    }
  }

  // ---------------------------------------------------------------- which rows a sweep can recover

  /** In processing, with nobody at work on it and nobody about to be. */
  ghost predicate Abandoned(s: State, t: nat) {
    t in s.tasks && s.tasks[t].status == Processing && NobodyRuns(s, t)
  }

  predicate Sweepable(task: Task) { task.startedAt.Some? && task.completedAt.None? }

  lemma StepKeepsUnsweepable(s: State, e: Event, t: nat)
    requires Abandoned(s, t) && !Sweepable(s.tasks[t])
    ensures Abandoned(Next(s, e), t) && Next(s, e).tasks[t] == s.tasks[t]
  {
    hide SubmissionStep;
    if IsSubmission(e) {
      SubmissionAddsARow(s, e);
    } else if e.Complete? || e.Fail? {
      assert !s.IsRunning(e.worker, t);
    }
    forall w ensures !Next(s, e).IsRunning(w, t) {
      assert !s.IsRunning(w, t);
    }
  }

  lemma {:induction false} UnsweepableStays(s: State, events: seq<Event>, t: nat)
    requires Abandoned(s, t) && !Sweepable(s.tasks[t])
    ensures t in Run(s, events).tasks && Run(s, events).tasks[t] == s.tasks[t]
    decreases |events|
  {
    hide Next;
    if events != [] {
      StepKeepsUnsweepable(s, events[0], t);
      UnsweepableStays(Next(s, events[0]), events[1..], t);
    }
  }

  ghost predicate LeavesProcessing(s: State, events: seq<Event>, t: nat) {
    t in Run(s, events).tasks && Run(s, events).tasks[t].status != Processing
  }

  /** Of the rows in processing that nobody works on, written by the queue or not, exactly those with a start and no end
      time can be recovered; a row copied in without a start time stays in processing for good. */
  lemma SweepCanRecoverIff(s: State, t: nat)
    requires Abandoned(s, t)
    ensures (exists events :: LeavesProcessing(s, events, t)) <==> Sweepable(s.tasks[t])
  {
    hide Next;
    if Sweepable(s.tasks[t]) {
      var w := NewId(s.workers.Keys);
      var wait := s.tasks[t].startedAt.value + s.staleTimeoutMs;
      var s1 := Next(s, Tick(wait));
      var s2 := Next(s1, SweepRead(w, [t]));
      SweepReaches(s, w, t, wait);
      var events := [Tick(wait), SweepRead(w, [t]), SweepOne(w)];
      assert events[1..] == [SweepRead(w, [t]), SweepOne(w)] && events[1..][1..] == [SweepOne(w)] && [SweepOne(w)][1..] == [];
      assert Run(s2, [SweepOne(w)]) == Next(s2, SweepOne(w));
      assert Run(s1, events[1..]) == Run(s2, [SweepOne(w)]);
      assert LeavesProcessing(s, events, t);
    } else {
      forall events ensures !LeavesProcessing(s, events, t) {
        UnsweepableStays(s, events, t);
      }
    }
  }

  lemma SweepReaches(s: State, w: nat, t: nat, wait: nat)
    requires t in s.tasks && s.tasks[t].status == Processing && Sweepable(s.tasks[t]) && w !in s.workers
    requires wait == s.tasks[t].startedAt.value + s.staleTimeoutMs
    ensures var swept := Next(Next(Next(s, Tick(wait)), SweepRead(w, [t])), SweepOne(w));
            t in swept.tasks && swept.tasks[t].status == Failed
  {
    hide SubmissionStep;
    var listed := Next(Next(s, Tick(wait)), SweepRead(w, [t]));
    assert listed.WorkerOf(w) == Sweeping(s.clock + wait, s.clock + wait - s.staleTimeoutMs, [t]) && listed.tasks == s.tasks;
  }

  function SweepAll(s: State, w: nat, steps: nat): State
    decreases steps
  {
    if steps == 0 then s else SweepAll(Next(s, SweepOne(w)), w, steps - 1)
  }

  lemma SweepOneIsASweepStep(s: State, w: nat)
    ensures Next(s, SweepOne(w)) == SweepStep(s, w)
  {}

  /** Each row of the old table has been recovered, or is still listed and as it was. */
  ghost predicate SweepIsUnderWay(s: State, w: nat, done: map<nat, Task>) {
    && s.WorkerOf(w).Sweeping? && done.Keys == s.tasks.Keys
    && var sweep := s.WorkerOf(w);
       forall t :: t in done ==>
         || s.tasks[t] == Recovered(done, sweep.cutoff, sweep.now)[t]
         || (t in sweep.stale && s.tasks[t] == done[t])
  }

  lemma SweepOneAdvances(s: State, w: nat, done: map<nat, Task>)
    requires SweepIsUnderWay(s, w, done) && s.WorkerOf(w).stale != []
    ensures var next := SweepStep(s, w);
            SweepIsUnderWay(next, w, done) && next.WorkerOf(w) == s.WorkerOf(w).(stale := s.WorkerOf(w).stale[1..])
  {
    var sweep := s.WorkerOf(w);
    assert forall t :: t in sweep.stale <==> t == sweep.stale[0] || t in sweep.stale[1..];
  }

  /** The row-by-row sweep, read from any listing of the stale tasks, is the recovery of the whole table. */
  lemma {:induction false} SweepRecoversTheTable(s: State, w: nat, done: map<nat, Task>)
    requires SweepIsUnderWay(s, w, done)
    ensures var sweep := s.WorkerOf(w);
            SweepAll(s, w, |sweep.stale|).tasks == Recovered(done, sweep.cutoff, sweep.now)
    decreases |s.WorkerOf(w).stale|
  {
    hide Next;
    SweepOneIsASweepStep(s, w);
    var sweep := s.WorkerOf(w);
    if sweep.stale == [] {
      assert s.tasks == Recovered(done, sweep.cutoff, sweep.now);
    } else {
      SweepOneAdvances(s, w, done);
      SweepRecoversTheTable(Next(s, SweepOne(w)), w, done);
    }
  }
}
