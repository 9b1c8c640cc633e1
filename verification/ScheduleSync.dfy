/**
 What a schedule says about its last task. One worker writes task rows and then, in a second statement,
 copies the new status to the schedule; requests submit tasks and add, edit or delete schedules between
 any two of its statements.
 */
module ScheduleSync {
  import opened Options

  datatype Status = Pending | Processing | Completed | Failed {
    /** A task only moves to a later stage. */
    function Stage(): nat { if Pending? then 0 else if Processing? then 1 else 2 }
  }

  /** NULL reads as idle; a firing that found an active task leaves `skipped`. */
  datatype LastStatus = NoTask | Skipped | Of(status: Status)

  datatype Subject = Subject(owner: Option<nat>, stock: string)

  datatype Task = Task(subject: Subject, schedule: Option<nat>, status: Status) {
    predicate Active() { status == Pending || status == Processing }
  }

  datatype Schedule = Schedule(subject: Subject, lastTaskId: Option<nat>, lastStatus: LastStatus)

  datatype Listed = Listed(task: nat, schedule: Option<nat>)

  /** Where the worker stands; `schedule` is the schedule id it read together with the task. */
  datatype Worker =
    | AtLoop
    | Sweeping(rest: seq<Listed>)
    | SweepOwes(task: nat, schedule: Option<nat>, rest: seq<Listed>)
    | Picked(task: nat, schedule: Option<nat>)
    | ClaimOwes(task: nat, schedule: Option<nat>)
    | Loading(task: nat)
    | Running(task: nat, schedule: Option<nat>)
    | OutcomeOwes(task: nat, schedule: Option<nat>, status: Status)
  {
    /** A task row was written and its schedule has not been told yet. */
    predicate Owes() { SweepOwes? || ClaimOwes? || OutcomeOwes? }

    function OwedStatus(): Status
      requires Owes()
    {
      if SweepOwes? then Failed else if ClaimOwes? then Processing else status
    }
  }

  type Tasks = map<nat, Task>
  type Schedules = map<nat, Schedule>

  /** `usedIds` holds every schedule id ever given out: ids are random and never reused. `lost` is a history
      variable: the tasks whose present status was to be copied to a schedule and was not. */
  datatype State = State(tasks: Tasks, schedules: Schedules, usedIds: set<nat>, worker: Worker, lost: set<nat>)

  datatype Event =
    | Submit(task: nat, subject: Subject)
    | AddSchedule(schedule: nat, subject: Subject)
    | EditSchedule(schedule: nat, subject: Subject)
    | DeleteSchedule(schedule: nat)
    | ListStale(stale: seq<nat>)
    | SweepOne
    | Trigger(schedule: nat, subject: Subject, task: nat, built: bool)
    | Pick(task: nat)
    | Claim
    | Load
    | WriteOutcome(succeeded: bool)
    | Sync(delivered: bool)
    | Crash

  function SetStatus(tasks: Tasks, t: nat, status: Status): Tasks
    requires t in tasks
  {
    tasks[t := tasks[t].(status := status)]
  }

  /** recordScheduleTaskState: touches the schedule only while it still names this task. */
  function Recorded(schedules: Schedules, schedule: Option<nat>, t: nat, status: Status): Schedules {
    if schedule.Some? && schedule.value in schedules && schedules[schedule.value].lastTaskId == Some(t)
    then schedules[schedule.value := schedules[schedule.value].(lastStatus := Of(status))]
    else schedules
  }

  function Detached(tasks: Tasks, schedule: nat): Tasks {
    map t | t in tasks :: if tasks[t].schedule == Some(schedule) then tasks[t].(schedule := None) else tasks[t]
  }

  predicate HasActive(tasks: Tasks, subject: Subject) {
    exists t :: t in tasks && tasks[t].Active() && tasks[t].subject == subject
  }

  predicate IsActiveOn(tasks: Tasks, t: nat, subject: Subject) {
    t in tasks && tasks[t].Active() && tasks[t].subject == subject
  }

  function ListRows(tasks: Tasks, stale: seq<nat>): seq<Listed>
    requires forall i :: 0 <= i < |stale| ==> stale[i] in tasks
  {
    seq(|stale|, i requires 0 <= i < |stale| => Listed(stale[i], tasks[stale[i]].schedule))
  }

  /** The firing transaction: skip onto the active task of this owner and stock, or create a task, pending or
      already failed when its payload could not be built. `task` names the row found or created. */
  function TriggerStep(s: State, schedule: nat, subject: Subject, t: nat, built: bool): State {
    if schedule !in s.schedules then s
    else if HasActive(s.tasks, subject) then
      if IsActiveOn(s.tasks, t, subject)
      then s.(schedules := s.schedules[schedule := s.schedules[schedule].(lastTaskId := Some(t), lastStatus := Skipped)])
      else s
    else if t in s.tasks then s
    else
      var status := if built then Pending else Failed;
      s.(tasks := s.tasks[t := Task(subject, Some(schedule), status)],
         schedules := s.schedules[schedule := s.schedules[schedule].(lastTaskId := Some(t), lastStatus := Of(status))])
  }

  function SweepStep(s: State, rest: seq<Listed>): State {
    if rest == [] then s.(worker := AtLoop)
    else if rest[0].task in s.tasks && s.tasks[rest[0].task].status == Processing then
      s.(tasks := SetStatus(s.tasks, rest[0].task, Failed), worker := SweepOwes(rest[0].task, rest[0].schedule, rest[1..]))
    else s.(worker := Sweeping(rest[1..]))
  }

  /** The schedule write that is owed. Its error is swallowed: then the worker goes on as if it had been made. */
  function SyncStep(s: State, delivered: bool): State
    requires s.worker.Owes()
  {
    var after := match s.worker
      case SweepOwes(_, _, rest) => Sweeping(rest)
      case ClaimOwes(t, _) => Loading(t)
      case _ => AtLoop;
    if delivered then
      s.(schedules := Recorded(s.schedules, s.worker.schedule, s.worker.task, s.worker.OwedStatus()),
         lost := s.lost - {s.worker.task}, worker := after)
    else s.(lost := s.lost + {s.worker.task}, worker := after)
  }

  /** A worker that dies between the two writes loses the second. */
  function CrashStep(s: State): State {
    if s.worker.Owes() then s.(lost := s.lost + {s.worker.task}, worker := AtLoop) else s.(worker := AtLoop)
  }

  function Next(s: State, e: Event): State {
    match e
    case Submit(t, subject) =>
      if t in s.tasks || HasActive(s.tasks, subject) then s else s.(tasks := s.tasks[t := Task(subject, None, Pending)])
    case AddSchedule(c, subject) =>
      if c in s.usedIds then s
      else s.(schedules := s.schedules[c := Schedule(subject, None, NoTask)], usedIds := s.usedIds + {c})
    case EditSchedule(c, subject) =>
      if c in s.schedules then s.(schedules := s.schedules[c := s.schedules[c].(subject := subject)]) else s
    case DeleteSchedule(c) => s.(schedules := s.schedules - {c}, tasks := Detached(s.tasks, c))
    case ListStale(stale) =>
      if s.worker.AtLoop? && forall i :: 0 <= i < |stale| ==> stale[i] in s.tasks
      then s.(worker := Sweeping(ListRows(s.tasks, stale))) else s
    case SweepOne => if s.worker.Sweeping? then SweepStep(s, s.worker.rest) else s
    case Trigger(c, subject, t, built) => if s.worker.AtLoop? then TriggerStep(s, c, subject, t, built) else s
    case Pick(t) =>
      if s.worker.AtLoop? && t in s.tasks && s.tasks[t].status == Pending
      then s.(worker := Picked(t, s.tasks[t].schedule)) else s
    case Claim =>
      if !s.worker.Picked? then s
      else if s.worker.task in s.tasks && s.tasks[s.worker.task].status == Pending
      then s.(tasks := SetStatus(s.tasks, s.worker.task, Processing), worker := ClaimOwes(s.worker.task, s.worker.schedule))
      else s.(worker := AtLoop)
    case Load =>
      if s.worker.Loading? && s.worker.task in s.tasks
      then s.(worker := Running(s.worker.task, s.tasks[s.worker.task].schedule)) else s
    case WriteOutcome(succeeded) =>
      if s.worker.Running? && s.worker.task in s.tasks then
        var status := if succeeded then Completed else Failed;
        s.(tasks := SetStatus(s.tasks, s.worker.task, status), worker := OutcomeOwes(s.worker.task, s.worker.schedule, status))
      else s
    case Sync(delivered) => if s.worker.Owes() then SyncStep(s, delivered) else s
    case Crash => CrashStep(s)
  }

  const INITIAL := State(map[], map[], {}, AtLoop, {})

  function Run(s: State, events: seq<Event>): State
    decreases |events|
  {
    if events == [] then s else Run(Next(s, events[0]), events[1..])
  }

  // ---------------------------------------------------------------- invariant

  /** A schedule id read earlier is still the task's, or that schedule was deleted since. */
  ghost predicate StillAttached(s: State, t: nat, schedule: Option<nat>) {
    && t in s.tasks
    && (s.tasks[t].schedule == schedule ||
          (s.tasks[t].schedule.None? && schedule.Some? && schedule.value in s.usedIds - s.schedules.Keys))
  }

  ghost predicate ListOk(s: State, rest: seq<Listed>) {
    forall i :: 0 <= i < |rest| ==> StillAttached(s, rest[i].task, rest[i].schedule)
  }

  ghost predicate WorkerOk(s: State) {
    match s.worker
    case AtLoop => true
    case Loading(t) => t in s.tasks && s.tasks[t].status == Processing
    case Picked(t, c) => StillAttached(s, t, c)
    case Running(t, c) => StillAttached(s, t, c) && s.tasks[t].status == Processing
    case Sweeping(rest) => ListOk(s, rest)
    case SweepOwes(t, c, rest) => StillAttached(s, t, c) && s.tasks[t].status == Failed && ListOk(s, rest)
    case ClaimOwes(t, c) => StillAttached(s, t, c) && s.tasks[t].status == Processing
    case OutcomeOwes(t, c, status) => StillAttached(s, t, c) && s.tasks[t].status == status && status.Stage() == 2
  }

  /** The foreign key of the task table, and the supply of ids. */
  ghost predicate KeysOk(s: State) {
    && s.schedules.Keys <= s.usedIds
    && s.lost <= s.tasks.Keys
    && forall t :: t in s.tasks && s.tasks[t].schedule.Some? ==> s.tasks[t].schedule.value in s.schedules
  }

  ghost predicate OwesTo(s: State, t: nat, c: nat) {
    s.worker.Owes() && s.worker.task == t && s.worker.schedule == Some(c)
  }

  /** The schedule shows nothing, a skip, or a status of its own last task: the present one, or an earlier one
      exactly while the worker still owes that update or it was lost. */
  ghost predicate ScheduleOk(s: State, c: nat)
    requires c in s.schedules
  {
    var row := s.schedules[c];
    match row.lastStatus
    case NoTask => row.lastTaskId == None
    case Skipped => row.lastTaskId.Some? && row.lastTaskId.value in s.tasks
    case Of(status) =>
      && row.lastTaskId.Some? && row.lastTaskId.value in s.tasks
      && var t := row.lastTaskId.value;
         && s.tasks[t].schedule == Some(c)
         && if OwesTo(s, t, c) || t in s.lost then status.Stage() < s.tasks[t].status.Stage() else status == s.tasks[t].status
  }

  ghost predicate Inv(s: State) {
    KeysOk(s) && WorkerOk(s) && forall c :: c in s.schedules ==> ScheduleOk(s, c)
  }

  lemma StepKeepsKeys(s: State, e: Event)
    requires KeysOk(s) && WorkerOk(s)
    ensures KeysOk(Next(s, e))
  {}

  lemma StepKeepsWorker(s: State, e: Event)
    requires KeysOk(s) && WorkerOk(s)
    ensures WorkerOk(Next(s, e))
  {
  }

  lemma StepKeepsSchedule(s: State, e: Event, c: nat)
    requires Inv(s) && c in Next(s, e).schedules
    ensures ScheduleOk(Next(s, e), c)
  {
    if e.SweepOne? {
      SweepKeepsSchedule(s, c);
    } else if e.Trigger? {
      TriggerKeepsSchedule(s, e, c);
    } else if e.Sync? || e.Crash? {
      OwedWriteKeepsSchedule(s, e, c);
    } else if e.Claim? || e.WriteOutcome? {
      TaskWriteKeepsSchedule(s, e, c);
    } else {
      hide KeysOk, WorkerOk;
      KeysHold(s);
      assert c in s.schedules ==> ScheduleOk(s, c);
    }
  }

  lemma SweepKeepsSchedule(s: State, c: nat)
    requires Inv(s) && c in s.schedules
    ensures c in Next(s, SweepOne).schedules && ScheduleOk(Next(s, SweepOne), c)
  {
    hide KeysOk;
    assert ScheduleOk(s, c);
    if s.worker.Sweeping? && s.worker.rest != [] {
      assert StillAttached(s, s.worker.rest[0].task, s.worker.rest[0].schedule);
    }
    KeysHold(s);
  }

  lemma TriggerKeepsSchedule(s: State, e: Event, c: nat)
    requires Inv(s) && e.Trigger? && c in Next(s, e).schedules
    ensures ScheduleOk(Next(s, e), c)
  {
    hide KeysOk, WorkerOk;
    KeysHold(s);
    assert c in s.schedules ==> ScheduleOk(s, c);
  }

  lemma OwedWriteKeepsSchedule(s: State, e: Event, c: nat)
    requires Inv(s) && (e.Sync? || e.Crash?) && c in Next(s, e).schedules
    ensures ScheduleOk(Next(s, e), c)
  {
    hide KeysOk, WorkerOk;
    assert c in s.schedules && ScheduleOk(s, c);
    if s.worker.Owes() {
      OwedIsAttached(s);
    }
  }

  lemma OwedIsAttached(s: State)
    requires WorkerOk(s) && s.worker.Owes()
    ensures StillAttached(s, s.worker.task, s.worker.schedule) && s.tasks[s.worker.task].status == s.worker.OwedStatus()
  {}

  /** A write to a task row that is then owed to its schedule. */
  lemma TaskWriteKeepsSchedule(s: State, e: Event, c: nat)
    requires Inv(s) && (e.Claim? || e.WriteOutcome?) && c in Next(s, e).schedules
    ensures ScheduleOk(Next(s, e), c)
  {
    hide KeysOk, ListOk;
    assert c in s.schedules && ScheduleOk(s, c);
  }

  lemma InvHoldsWorker(s: State)
    requires Inv(s)
    ensures WorkerOk(s)
  {}

  lemma KeysHold(s: State)
    requires Inv(s)
    ensures s.schedules.Keys <= s.usedIds && s.lost <= s.tasks.Keys
    ensures forall t :: t in s.tasks && s.tasks[t].schedule.Some? ==> s.tasks[t].schedule.value in s.schedules
  {}

  lemma StepKeepsInv(s: State, e: Event)
    requires Inv(s)
    ensures Inv(Next(s, e))
  {
    StepKeepsKeys(s, e);
    StepKeepsWorker(s, e);
    forall c | c in Next(s, e).schedules ensures ScheduleOk(Next(s, e), c) {
      StepKeepsSchedule(s, e, c);
    }
  }

  lemma {:induction false} RunKeepsInv(s: State, events: seq<Event>)
    requires Inv(s)
    ensures Inv(Run(s, events))
    decreases |events|
  {
    if events != [] {
      StepKeepsInv(s, events[0]);
      RunKeepsInv(Next(s, events[0]), events[1..]);
    }
  }

  // ---------------------------------------------------------------- results over every run

  ghost predicate Exact(s: State, row: Schedule) {
    match row.lastStatus
    case NoTask => row.lastTaskId == None
    case Skipped => row.lastTaskId.Some? && row.lastTaskId.value in s.tasks
    case Of(status) => row.lastTaskId.Some? && row.lastTaskId.value in s.tasks && s.tasks[row.lastTaskId.value].status == status
  }

  /** The schedule shows a status of a task whose present status was lost on the way. */
  ghost predicate Lags(s: State, row: Schedule) {
    row.lastStatus.Of? && row.lastTaskId.Some? && row.lastTaskId.value in s.lost
  }

  /** Whenever the worker owes no update, a schedule is idle, skipped, or shows exactly the current status of the task
      it names, exactly unless the last status write for that task was lost. */
  lemma LastStatusIsExactIff(events: seq<Event>, c: nat)
    requires var s := Run(INITIAL, events); c in s.schedules && !s.worker.Owes()
    ensures var s := Run(INITIAL, events); Exact(s, s.schedules[c]) <==> !Lags(s, s.schedules[c])
  {
    RunKeepsInv(INITIAL, events);
    assert ScheduleOk(Run(INITIAL, events), c);
  }

  /** No schedule write failed, and no worker died owing one. */
  ghost predicate NoWriteLost(s: State, events: seq<Event>)
    decreases |events|
  {
    events != [] ==>
      && (s.worker.Owes() ==> events[0] != Sync(false) && events[0] != Crash)
      && NoWriteLost(Next(s, events[0]), events[1..])
  }

  lemma {:induction false} NothingIsLost(s: State, events: seq<Event>)
    requires s.lost == {} && NoWriteLost(s, events)
    ensures Run(s, events).lost == {}
    decreases |events|
  {
    if events != [] {
      NothingIsLost(Next(s, events[0]), events[1..]);
    }
  }

  /** With every write delivered, at each loop boundary and while the Agent runs, every schedule is exact. */
  lemma LastStatusIsExact(events: seq<Event>, c: nat)
    requires NoWriteLost(INITIAL, events)
    requires var s := Run(INITIAL, events); c in s.schedules && !s.worker.Owes()
    ensures Exact(Run(INITIAL, events), Run(INITIAL, events).schedules[c])
  {
    LastStatusIsExactIff(events, c);
    NothingIsLost(INITIAL, events);
  }

  /** In the gap between the two writes too, an inexact schedule either lags behind a lost write, or is the one whose
      update is owed; and a delivered write makes the schedule exact in both cases. */
  lemma LagIsRepairedByTheNextWrite(events: seq<Event>, c: nat)
    requires var s := Run(INITIAL, events); c in s.schedules && !Exact(s, s.schedules[c])
    ensures var s := Run(INITIAL, events);
            && s.schedules[c].lastTaskId.Some?
            && var t := s.schedules[c].lastTaskId.value;
               && (t in s.lost || OwesTo(s, t, c))
               && (OwesTo(s, t, c) ==>
                     && Exact(Next(s, Sync(true)), Next(s, Sync(true)).schedules[c])
                     && Next(s, Sync(true)).schedules[c].lastStatus == Of(s.tasks[t].status))
  {
    RunKeepsInv(INITIAL, events);
    assert ScheduleOk(Run(INITIAL, events), c);
  }

  /** The schedule names an ended task, and nothing more is owed to it. */
  ghost predicate Settled(s: State, c: nat, t: nat) {
    c in s.schedules && s.schedules[c].lastTaskId == Some(t) && t in s.tasks && s.tasks[t].status.Stage() == 2
    && !(s.worker.Owes() && s.worker.task == t)
  }

  predicate Renews(e: Event, c: nat) { (e.Trigger? || e.DeleteSchedule?) && e.schedule == c }

  lemma StepKeepsSettled(s: State, e: Event, c: nat, t: nat)
    requires Inv(s) && Settled(s, c, t) && !Renews(e, c)
    ensures Settled(Next(s, e), c, t) && Next(s, e).schedules[c].lastStatus == s.schedules[c].lastStatus
  {
    hide ListOk, ScheduleOk;
  }

  /** Once the task has ended, what the schedule shows, right or lagging, stays until the schedule fires again or is deleted. */
  lemma {:induction false} LagStaysUntilTheNextFiring(s: State, events: seq<Event>, c: nat, t: nat)
    requires Inv(s) && Settled(s, c, t) && forall e :: e in events ==> !Renews(e, c)
    ensures c in Run(s, events).schedules && Run(s, events).schedules[c].lastStatus == s.schedules[c].lastStatus
    decreases |events|
  {
    if events != [] {
      assert events[0] in events;
      StepKeepsInv(s, events[0]);
      StepKeepsSettled(s, events[0], c, t);
      LagStaysUntilTheNextFiring(Next(s, events[0]), events[1..], c, t);
    }
  }

  /** A lost last write does leave a lag: the task has completed, the schedule says it is still processing. */
  lemma LostWriteLags()
    ensures var subject := Subject(Some(1), "600519");
            var fired := Next(Next(INITIAL, AddSchedule(7, subject)), Trigger(7, subject, 1, true));
            var claimed := Next(Next(Next(fired, Pick(1)), Claim), Sync(true));
            var s := Next(Next(Next(claimed, Load), WriteOutcome(true)), Sync(false));
            && 7 in s.schedules && 1 in s.tasks && s.tasks[1].status == Completed
            && s.schedules[7].lastTaskId == Some(1) && s.schedules[7].lastStatus == Of(Processing) && Lags(s, s.schedules[7])
  {
    var subject := Subject(Some(1), "600519");
    var added := Next(INITIAL, AddSchedule(7, subject));
    var fired := Next(added, Trigger(7, subject, 1, true));
    assert fired.tasks == map[1 := Task(subject, Some(7), Pending)];
    assert fired.schedules == map[7 := Schedule(subject, Some(1), Of(Pending))];
    LostOutcome(fired, subject);
  }

  lemma ToldClaim(fired: State, subject: Subject)
    requires fired.tasks == map[1 := Task(subject, Some(7), Pending)] && fired.worker.AtLoop?
    requires fired.schedules == map[7 := Schedule(subject, Some(1), Of(Pending))]
    ensures var claimed := Next(Next(Next(fired, Pick(1)), Claim), Sync(true));
            && claimed.worker == Loading(1) && claimed.tasks == map[1 := Task(subject, Some(7), Processing)]
            && claimed.schedules == map[7 := Schedule(subject, Some(1), Of(Processing))]
  {
    var owing := Next(Next(fired, Pick(1)), Claim);
    assert owing.worker == ClaimOwes(1, Some(7)) && owing.tasks == map[1 := Task(subject, Some(7), Processing)];
  }

  lemma LostOutcome(fired: State, subject: Subject)
    requires fired.tasks == map[1 := Task(subject, Some(7), Pending)] && fired.worker.AtLoop?
    requires fired.schedules == map[7 := Schedule(subject, Some(1), Of(Pending))]
    ensures var claimed := Next(Next(Next(fired, Pick(1)), Claim), Sync(true));
            var s := Next(Next(Next(claimed, Load), WriteOutcome(true)), Sync(false));
            && s.tasks == map[1 := Task(subject, Some(7), Completed)] && 1 in s.lost
            && s.schedules == map[7 := Schedule(subject, Some(1), Of(Processing))]
  {
    ToldClaim(fired, subject);
    var claimed := Next(Next(Next(fired, Pick(1)), Claim), Sync(true));
    var ended := Next(Next(claimed, Load), WriteOutcome(true));
    assert ended.worker == OutcomeOwes(1, Some(7), Completed) && ended.tasks == map[1 := Task(subject, Some(7), Completed)];
  }

  /** A status write reaches no schedule that has moved on to another task. */
  lemma NewerFiringIsNotOverwritten(s: State, c: nat)
    requires s.worker.Owes() && c in s.schedules && s.schedules[c].lastTaskId != Some(s.worker.task)
    ensures forall delivered :: var next := Next(s, Sync(delivered)); c in next.schedules && next.schedules[c] == s.schedules[c]
  {}

  // ---------------------------------------------------------------- the worker service

  class TaskWorker {
    var tasks: Tasks
    var schedules: Schedules
    ghost var usedIds: set<nat>
    ghost var lost: set<nat>
    var worker: Worker

    ghost function View(): State
      reads this
    {
      State(tasks, schedules, usedIds, worker, lost)
    }

    ghost predicate Valid()
      reads this
    {
      Inv(View())
    }

    constructor ()
      ensures Valid() && View() == INITIAL
    {
      tasks := map[];
      schedules := map[];
      usedIds, lost := {}, {};
      worker := AtLoop;
    }

    method RecordScheduleTaskState(schedule: Option<nat>, t: nat, status: Status)
      modifies this`schedules
      ensures schedules == Recorded(old(schedules), schedule, t, status)
      ensures schedules.Keys == old(schedules).Keys
      ensures forall c :: c in schedules ==>
                schedules[c] == if schedule == Some(c) && old(schedules)[c].lastTaskId == Some(t)
                                then old(schedules)[c].(lastStatus := Of(status)) else old(schedules)[c]
    {
      if schedule.Some? && schedule.value in schedules {
        var row := schedules[schedule.value];
        if row.lastTaskId == Some(t) {
          schedules := schedules[schedule.value := row.(lastStatus := Of(status))];
        }
      }
    }

    /** syncScheduleState after a task write; an error of the schedule write is logged and swallowed. */
    method SyncScheduleState(delivered: bool)
      requires Valid() && worker.Owes()
      modifies this`schedules, this`worker, this`lost
      ensures Valid() && View() == Next(old(View()), Sync(delivered))
      ensures schedules.Keys == old(schedules).Keys
      ensures forall c :: c in schedules ==>
                schedules[c] == if delivered && old(worker).schedule == Some(c) && old(schedules)[c].lastTaskId == Some(old(worker).task)
                                then old(schedules)[c].(lastStatus := Of(tasks[old(worker).task].status)) else old(schedules)[c]
      ensures worker == match old(worker)
                        case SweepOwes(_, _, rest) => Sweeping(rest)
                        case ClaimOwes(t, _) => Loading(t)
                        case _ => AtLoop
    {
      InvHoldsWorker(View());
      hide Inv;
      StepKeepsInv(View(), Sync(delivered));
      OwedIsAttached(View());
      if delivered {
        RecordScheduleTaskState(worker.schedule, worker.task, worker.OwedStatus());
      }
      lost := if delivered then lost - {worker.task} else lost + {worker.task};
      worker := if worker.SweepOwes? then Sweeping(worker.rest)
                else if worker.ClaimOwes? then Loading(worker.task)
                else AtLoop;
    }

    /** recoverStaleProcessingTasks, one round of its loop: the guarded update of the next listed task. */
    method RecoverNextListed()
      requires Valid() && worker.Sweeping?
      modifies this`tasks, this`worker
      ensures Valid() && View() == Next(old(View()), SweepOne)
      ensures var rest := old(worker).rest;
              if rest == [] then worker == AtLoop && tasks == old(tasks)
              else
                && rest[0].task in old(tasks)
                && if old(tasks)[rest[0].task].status == Processing
                   then && worker == SweepOwes(rest[0].task, rest[0].schedule, rest[1..])
                        && tasks == old(tasks)[rest[0].task := old(tasks)[rest[0].task].(status := Failed)]
                   else worker == Sweeping(rest[1..]) && tasks == old(tasks)
    {
      StepKeepsInv(View(), SweepOne);
      if worker.rest == [] {
        worker := AtLoop;
      } else {
        var listed := worker.rest[0];
        if tasks[listed.task].status == Processing {
          tasks := tasks[listed.task := tasks[listed.task].(status := Failed)];
          worker := SweepOwes(listed.task, listed.schedule, worker.rest[1..]);
        } else {
          worker := Sweeping(worker.rest[1..]);
        }
      }
    }

    /** triggerNextDueSchedule, the firing transaction once the claim has succeeded. `t` is the active task
        found, or the id of the task created. */
    method FireSchedule(c: nat, subject: Subject, t: nat, built: bool)
      requires Valid() && worker.AtLoop? && c in schedules
      requires if HasActive(tasks, subject) then IsActiveOn(tasks, t, subject) else t !in tasks
      modifies this`tasks, this`schedules
      ensures Valid() && View() == Next(old(View()), Trigger(c, subject, t, built))
      ensures t in old(tasks) ==>
                tasks == old(tasks) && schedules == old(schedules)[c := old(schedules)[c].(lastTaskId := Some(t), lastStatus := Skipped)]
      ensures t !in old(tasks) ==>
                && tasks == old(tasks)[t := Task(subject, Some(c), if built then Pending else Failed)]
                && schedules == old(schedules)[c := old(schedules)[c].(lastTaskId := Some(t), lastStatus := Of(if built then Pending else Failed))]
    {
      StepKeepsInv(View(), Trigger(c, subject, t, built));
      var row := schedules[c];
      if t in tasks {
        row := row.(lastTaskId := Some(t), lastStatus := Skipped);
      } else {
        tasks := tasks[t := Task(subject, Some(c), if built then Pending else Failed)];
        row := row.(lastTaskId := Some(t), lastStatus := Of(tasks[t].status));
      }
      schedules := schedules[c := row];
    }

    /** processOne, the guarded claim. */
    method ClaimTask() returns (locked: bool)
      requires Valid() && worker.Picked?
      modifies this`tasks, this`worker
      ensures Valid() && View() == Next(old(View()), Claim)
      ensures var t, c := old(worker).task, old(worker).schedule;
              && t in old(tasks) && (locked <==> old(tasks)[t].status == Pending)
              && worker == (if locked then ClaimOwes(t, c) else AtLoop)
              && tasks == if locked then old(tasks)[t := old(tasks)[t].(status := Processing)] else old(tasks)
    {
      StepKeepsInv(View(), Claim);
      var t := worker.task;
      locked := tasks[t].status == Pending;
      if locked {
        tasks := tasks[t := tasks[t].(status := Processing)];
        worker := ClaimOwes(t, worker.schedule);
      } else {
        worker := AtLoop;
      }
    }

    /** handleTask, the final write of the task row. */
    method WriteTaskOutcome(succeeded: bool)
      requires Valid() && worker.Running?
      modifies this`tasks, this`worker
      ensures Valid() && View() == Next(old(View()), WriteOutcome(succeeded))
      ensures var t, status := old(worker).task, if succeeded then Completed else Failed;
              && t in old(tasks) && tasks == old(tasks)[t := old(tasks)[t].(status := status)]
              && worker == OutcomeOwes(t, old(worker).schedule, status)
    {
      StepKeepsInv(View(), WriteOutcome(succeeded));
      var t := worker.task;
      tasks := tasks[t := tasks[t].(status := if succeeded then Completed else Failed)];
      worker := OutcomeOwes(t, worker.schedule, tasks[t].status);
    }

    /** deleteSchedule: the foreign key detaches the tasks. */
    method RemoveSchedule(c: nat)
      requires Valid()
      modifies this`tasks, this`schedules
      ensures Valid() && View() == Next(old(View()), DeleteSchedule(c))
      ensures schedules == old(schedules) - {c} && tasks.Keys == old(tasks).Keys
      ensures forall t :: t in tasks ==>
                tasks[t] == if old(tasks)[t].schedule == Some(c) then old(tasks)[t].(schedule := None) else old(tasks)[t]
    {
      StepKeepsInv(View(), DeleteSchedule(c));
      schedules := schedules - {c};
      tasks := map t | t in tasks :: if tasks[t].schedule == Some(c) then tasks[t].(schedule := None) else tasks[t];
    }
  }
}
