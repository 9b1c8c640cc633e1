/**
 Agent backtests: a request stores its fast result as version 1 of a run group, found again by the hash
 of the request; workers refine the group at most once into version 2; readers load the group and then
 its steps, trades and equity in separate statements. A run is any interleaving of those statements.
 */
module AgentBacktestGroups {
  import opened Options
  import opened Basics

  datatype Status = Refining | Completed | Failed
  datatype Phase = Fast | Refine | Done

  /** `refine` is the choice stored in the configuration; `locks` is a history variable: how often a worker has
      taken the group for refinement. */
  datatype Group = Group(id: nat, refine: bool, status: Status, phase: Phase, active: nat, latest: nat, locks: nat)

  /** What a client asks for. The choice to refine is not part of the hash. */
  datatype Request = Request(hash: string, refine: bool)

  /** What a client was given: the group for its hash. */
  datatype Answer = Answer(hash: string, refine: bool, id: nat)

  datatype Result = Result(steps: seq<string>, trades: seq<string>, equity: seq<string>)

  /** Group id and result version. */
  type Key = (nat, nat)

  datatype Worker = Idle | Picked(hash: string) | Working(hash: string)

  /** A reader of one version: what it has loaded so far. */
  datatype Reader = Reader(key: Key, steps: Option<seq<string>>, trades: Option<seq<string>>, equity: Option<seq<string>>) {
    predicate Finished() { steps.Some? && trades.Some? && equity.Some? }
    function Loaded(): Result
      requires Finished()
    {
      Result(steps.value, trades.value, equity.value)
    }
  }

  datatype Tables = Tables(steps: map<Key, seq<string>>, trades: map<Key, seq<string>>, equity: map<Key, seq<string>>) {
    function StepsOf(key: Key): seq<string> { if key in steps then steps[key] else [] }
    function TradesOf(key: Key): seq<string> { if key in trades then trades[key] else [] }
    function EquityOf(key: Key): seq<string> { if key in equity then equity[key] else [] }
    function Read(key: Key): Result { Result(StepsOf(key), TradesOf(key), EquityOf(key)) }
    function Write(key: Key, result: Result): Tables {
      Tables(steps[key := result.steps], trades[key := result.trades], equity[key := result.equity])
    }
  }

  /** `committed` and `answers` are history: the results ever stored, and which group each request was given. */
  datatype State = State(
    groups: map<string, Group>,
    nextId: nat,
    tables: Tables,
    committed: map<Key, Result>,
    clients: map<nat, Request>,
    answers: set<Answer>,
    workers: map<nat, Worker>,
    readers: map<nat, Reader>)
  {
    function WorkerOf(w: nat): Worker { if w in workers then workers[w] else Idle }
    function SetWorker(w: nat, worker: Worker): State { this.(workers := workers[w := worker]) }
    function SetGroup(hash: string, group: Group): State { this.(groups := groups[hash := group]) }
    function Store(key: Key, result: Result): State {
      this.(tables := tables.Write(key, result), committed := committed[key := result])
    }
    function Give(request: Request, id: nat): State { this.(answers := answers + {Answer(request.hash, request.refine, id)}) }
  }

  datatype Event =
    | Ask(client: nat, request: Request)
    | StoreFast(client: nat, result: Result, pending: bool)
    | Pick(worker: nat, hash: string)
    | Lock(worker: nat)
    | CommitRefine(worker: nat, result: Result)
    | FailRefine(worker: nat)
    | Crash(worker: nat)
    | LoadGroup(reader: nat, hash: string)
    | LoadSteps(reader: nat)
    | LoadTrades(reader: nat)
    | LoadEquity(reader: nat)

  /** The group waits for refinement if that was asked for and the fast result left anchors pending. */
  function NewGroup(id: nat, refine: bool, pending: bool): Group {
    if refine && pending then Group(id, refine, Refining, Fast, 1, 1, 0) else Group(id, refine, Completed, Done, 1, 1, 0)
  }

  predicate CanRefine(group: Group) { group.status == Refining && group.phase == Fast }

  /** The hash is looked up first; an unknown one sends the client off to compute the fast result. */
  function AskStep(s: State, c: nat, request: Request): State {
    if request.hash in s.groups then s.Give(request, s.groups[request.hash].id) else s.(clients := s.clients[c := request])
  }

  /** One transaction: insert unless the hash is taken by now; a result without steps is refused before it. */
  function StoreFastStep(s: State, c: nat, result: Result, pending: bool): State {
    if c !in s.clients || result.steps == [] then s
    else
      var request := s.clients[c];
      if request.hash in s.groups then s.Give(request, s.groups[request.hash].id)
      else s.SetGroup(request.hash, NewGroup(s.nextId, request.refine, pending)).Store((s.nextId, 1), result)
            .(nextId := s.nextId + 1).Give(request, s.nextId)
  }

  function LockStep(s: State, w: nat): State {
    match s.WorkerOf(w)
    case Picked(hash) =>
      if hash in s.groups && CanRefine(s.groups[hash])
      then s.SetGroup(hash, s.groups[hash].(phase := Refine, locks := s.groups[hash].locks + 1)).SetWorker(w, Working(hash))
      else s.SetWorker(w, Idle)
    case _ => s
  }

  /** One transaction: version 2 in full and the group row, which is not looked at again. */
  function CommitStep(s: State, w: nat, result: Result): State {
    match s.WorkerOf(w)
    case Working(hash) =>
      if hash !in s.groups then s
      else
        var group := s.groups[hash];
        s.Store((group.id, 2), result).SetGroup(hash, group.(status := Completed, phase := Done, active := 2, latest := 2))
         .SetWorker(w, Idle)
    case _ => s
  }

  function FailStep(s: State, w: nat): State {
    match s.WorkerOf(w)
    case Working(hash) =>
      if hash !in s.groups then s
      else s.SetGroup(hash, s.groups[hash].(status := Failed, phase := Done)).SetWorker(w, Idle)
    case _ => s
  }

  function Next(s: State, e: Event): State {
    match e
    case Ask(c, request) => AskStep(s, c, request)
    case StoreFast(c, result, pending) => StoreFastStep(s, c, result, pending)
    case Pick(w, hash) =>
      if s.WorkerOf(w) == Idle && hash in s.groups && CanRefine(s.groups[hash]) then s.SetWorker(w, Picked(hash)) else s
    case Lock(w) => LockStep(s, w)
    case CommitRefine(w, result) => CommitStep(s, w, result)
    case FailRefine(w) => FailStep(s, w)
    case Crash(w) => s.SetWorker(w, Idle)
    case LoadGroup(r, hash) =>
      if hash !in s.groups then s
      else
        var version := if s.groups[hash].active < 1 then 1 else s.groups[hash].active;
        s.(readers := s.readers[r := Reader((s.groups[hash].id, version), None, None, None)])
    case LoadSteps(r) =>
      if r !in s.readers then s
      else s.(readers := s.readers[r := s.readers[r].(steps := Some(s.tables.StepsOf(s.readers[r].key)))])
    case LoadTrades(r) =>
      if r !in s.readers then s
      else s.(readers := s.readers[r := s.readers[r].(trades := Some(s.tables.TradesOf(s.readers[r].key)))])
    case LoadEquity(r) =>
      if r !in s.readers then s
      else s.(readers := s.readers[r := s.readers[r].(equity := Some(s.tables.EquityOf(s.readers[r].key)))])
  }

  const INITIAL: State := State(map[], 1, Tables(map[], map[], map[]), map[], map[], {}, map[], map[])

  function Run(s: State, events: seq<Event>): State
    decreases |events|
  {
    if events == [] then s else Run(Next(s, events[0]), events[1..])
  }

  // ---------------------------------------------------------------- invariant

  predicate IsState(group: Group, status: Status, phase: Phase, version: nat, locks: nat) {
    group.status == status && group.phase == phase && group.active == version && group.latest == version && group.locks == locks
  }

  /** The five states a group can be in. */
  predicate GroupOk(group: Group) {
    || IsState(group, Refining, Fast, 1, 0)
    || IsState(group, Refining, Refine, 1, 1)
    || IsState(group, Completed, Done, 1, 0)
    || IsState(group, Completed, Done, 2, 1)
    || IsState(group, Failed, Done, 1, 1)
  }

  type Groups = map<string, Group>
  type Committed = map<Key, Result>

  ghost predicate GroupsOk(groups: Groups, nextId: nat) {
    && (forall h :: h in groups ==> GroupOk(groups[h]) && groups[h].id < nextId)
    && forall h, k :: h in groups && k in groups && h != k ==> groups[h].id != groups[k].id
  }

  /** Version 1 is always stored, version 2 exactly when it is the active one. */
  ghost predicate VersionOk(group: Group, committed: Committed) {
    (group.id, 1) in committed && ((group.id, 2) in committed <==> group.active == 2)
  }

  ghost predicate VersionsOk(groups: Groups, nextId: nat, committed: Committed) {
    && (forall key :: key in committed ==> key.0 < nextId)
    && forall h :: h in groups ==> VersionOk(groups[h], committed)
  }

  /** The tables hold every committed result in full. */
  ghost predicate TablesOk(tables: Tables, committed: Committed) {
    forall key :: key in committed ==> tables.Read(key) == committed[key]
  }

  ghost predicate Locked(groups: Groups, hash: string) {
    hash in groups && IsState(groups[hash], Refining, Refine, 1, 1)
  }

  /** A worker is at work only on a locked group, and never two on the same one. */
  ghost predicate WorkersOk(groups: Groups, workers: map<nat, Worker>) {
    && (forall w :: w in workers && workers[w].Working? ==> Locked(groups, workers[w].hash))
    && forall v, w :: v in workers && w in workers && v != w && workers[v].Working? && workers[w].Working?
                      ==> workers[v].hash != workers[w].hash
  }

  ghost predicate ReaderOk(committed: Committed, reader: Reader) {
    && reader.key in committed
    && (reader.steps.Some? ==> reader.steps.value == committed[reader.key].steps)
    && (reader.trades.Some? ==> reader.trades.value == committed[reader.key].trades)
    && (reader.equity.Some? ==> reader.equity.value == committed[reader.key].equity)
  }

  ghost predicate ReadersOk(committed: Committed, readers: map<nat, Reader>) {
    forall r :: r in readers ==> ReaderOk(committed, readers[r])
  }

  /** Every answer names the group of its hash, and the request that stored a group is among its answers. */
  ghost predicate AnswersOk(groups: Groups, answers: set<Answer>) {
    && (forall a :: a in answers ==> a.hash in groups && groups[a.hash].id == a.id)
    && forall h :: h in groups ==> Answer(h, groups[h].refine, groups[h].id) in answers
  }

  ghost predicate CoreOk(s: State) {
    GroupsOk(s.groups, s.nextId) && VersionsOk(s.groups, s.nextId, s.committed) && WorkersOk(s.groups, s.workers)
  }

  ghost predicate Inv(s: State) {
    CoreOk(s) && TablesOk(s.tables, s.committed) && ReadersOk(s.committed, s.readers) && AnswersOk(s.groups, s.answers)
  }

  /** Stored versions stay as they are, and groups keep their ids. */
  ghost predicate Extends(before: Committed, after: Committed) {
    forall key :: key in before ==> key in after && after[key] == before[key]
  }

  ghost predicate SameIds(before: Groups, after: Groups) {
    forall h :: h in before ==> h in after && after[h].id == before[h].id && after[h].refine == before[h].refine
  }

  // What the five kinds of write do to groups, versions and workers.

  lemma AddKeepsGroups(groups: Groups, nextId: nat, committed: Committed, hash: string, group: Group, result: Result)
    requires GroupsOk(groups, nextId) && VersionsOk(groups, nextId, committed) && hash !in groups
    requires GroupOk(group) && group.id == nextId && group.active == 1
    ensures GroupsOk(groups[hash := group], nextId + 1)
    ensures VersionsOk(groups[hash := group], nextId + 1, committed[(nextId, 1) := result])
    ensures Extends(committed, committed[(nextId, 1) := result])
  {}

  lemma ReplaceKeepsGroups(groups: Groups, nextId: nat, hash: string, group: Group)
    requires GroupsOk(groups, nextId) && hash in groups && GroupOk(group)
    requires group.id == groups[hash].id && group.refine == groups[hash].refine
    ensures GroupsOk(groups[hash := group], nextId) && SameIds(groups, groups[hash := group])
  {}

  lemma SecondVersionIsNew(groups: Groups, nextId: nat, committed: Committed, hash: string, group: Group, result: Result)
    requires GroupsOk(groups, nextId) && VersionsOk(groups, nextId, committed) && hash in groups
    requires groups[hash].active == 1 && group.active == 2 && group.id == groups[hash].id
    ensures VersionsOk(groups[hash := group], nextId, committed[(group.id, 2) := result])
    ensures Extends(committed, committed[(group.id, 2) := result])
  {}

  lemma OnlyOneWorkerPerGroup(groups: Groups, workers: map<nat, Worker>, w: nat, hash: string, group: Group)
    requires WorkersOk(groups, workers)
    requires hash !in groups || !Locked(groups, hash) || (w in workers && workers[w] == Working(hash))
    ensures WorkersOk(groups[hash := group], workers[w := Idle])
    ensures IsState(group, Refining, Refine, 1, 1) ==> WorkersOk(groups[hash := group], workers[w := Working(hash)])
    ensures hash !in groups ==> WorkersOk(groups[hash := group], workers)
  {}

  predicate Writes(e: Event) { e.StoreFast? || e.Lock? || e.CommitRefine? || e.FailRefine? }

  lemma StoreFastKeepsCore(s: State, c: nat, result: Result, pending: bool)
    requires CoreOk(s)
    ensures var next := StoreFastStep(s, c, result, pending);
            CoreOk(next) && Extends(s.committed, next.committed) && SameIds(s.groups, next.groups)
  {
    hide GroupsOk, VersionsOk, WorkersOk;
    if c in s.clients && s.clients[c].hash !in s.groups {
      var hash, group := s.clients[c].hash, NewGroup(s.nextId, s.clients[c].refine, pending);
      AddKeepsGroups(s.groups, s.nextId, s.committed, hash, group, result);
      OnlyOneWorkerPerGroup(s.groups, s.workers, 0, hash, group);
    }
  }

  lemma LockKeepsCore(s: State, w: nat)
    requires CoreOk(s)
    ensures var next := LockStep(s, w);
            CoreOk(next) && Extends(s.committed, next.committed) && SameIds(s.groups, next.groups)
  {
    IdleKeepsWorkers(s.groups, s.workers, w);
    if s.WorkerOf(w).Picked? && s.WorkerOf(w).hash in s.groups && CanRefine(s.groups[s.WorkerOf(w).hash]) {
      var hash := s.WorkerOf(w).hash;
      var group := s.groups[hash].(phase := Refine, locks := s.groups[hash].locks + 1);
      ReplaceKeepsGroups(s.groups, s.nextId, hash, group);
      SameVersion(s.groups, s.nextId, s.committed, hash, group);
      OnlyOneWorkerPerGroup(s.groups, s.workers, w, hash, group);
    }
  }

  lemma IdleKeepsWorkers(groups: Groups, workers: map<nat, Worker>, w: nat)
    requires WorkersOk(groups, workers)
    ensures WorkersOk(groups, workers[w := Idle])
  {}

  lemma SameVersion(groups: Groups, nextId: nat, committed: Committed, hash: string, group: Group)
    requires VersionsOk(groups, nextId, committed) && hash in groups
    requires group.id == groups[hash].id && group.active == groups[hash].active
    ensures VersionsOk(groups[hash := group], nextId, committed)
  {}

  lemma CommitKeepsCore(s: State, w: nat, result: Result)
    requires CoreOk(s)
    ensures var next := CommitStep(s, w, result);
            CoreOk(next) && Extends(s.committed, next.committed) && SameIds(s.groups, next.groups)
  {
    if s.WorkerOf(w).Working? {
      var hash := s.WorkerOf(w).hash;
      assert Locked(s.groups, hash);
      var group := s.groups[hash].(status := Completed, phase := Done, active := 2, latest := 2);
      ReplaceKeepsGroups(s.groups, s.nextId, hash, group);
      SecondVersionIsNew(s.groups, s.nextId, s.committed, hash, group, result);
      OnlyOneWorkerPerGroup(s.groups, s.workers, w, hash, group);
    }
  }

  lemma FailKeepsCore(s: State, w: nat)
    requires CoreOk(s)
    ensures var next := FailStep(s, w);
            CoreOk(next) && Extends(s.committed, next.committed) && SameIds(s.groups, next.groups)
  {
    if s.WorkerOf(w).Working? {
      var hash := s.WorkerOf(w).hash;
      assert Locked(s.groups, hash);
      var group := s.groups[hash].(status := Failed, phase := Done);
      ReplaceKeepsGroups(s.groups, s.nextId, hash, group);
      SameVersion(s.groups, s.nextId, s.committed, hash, group);
      OnlyOneWorkerPerGroup(s.groups, s.workers, w, hash, group);
    }
  }

  /** The other statements touch neither groups nor results, and put no worker to work. */
  lemma OtherStepsKeepCore(s: State, e: Event)
    requires CoreOk(s) && !Writes(e)
    ensures var next := Next(s, e);
            && CoreOk(next)
            && next.groups == s.groups && next.committed == s.committed && next.tables == s.tables
  {
    hide GroupsOk, VersionsOk;
  }

  /** No statement changes a stored version; groups stay in their five states, each with at most one worker. */
  lemma StepKeepsCore(s: State, e: Event)
    requires CoreOk(s)
    ensures CoreOk(Next(s, e)) && Extends(s.committed, Next(s, e).committed) && SameIds(s.groups, Next(s, e).groups)
  {
    hide CoreOk, StoreFastStep, LockStep, CommitStep, FailStep;
    if e.StoreFast? {
      StoreFastKeepsCore(s, e.client, e.result, e.pending);
    } else if e.Lock? {
      LockKeepsCore(s, e.worker);
    } else if e.CommitRefine? {
      CommitKeepsCore(s, e.worker, e.result);
    } else if e.FailRefine? {
      FailKeepsCore(s, e.worker);
    } else {
      OtherStepsKeepCore(s, e);
    }
  }

  lemma StepKeepsTables(s: State, e: Event)
    requires TablesOk(s.tables, s.committed)
    ensures TablesOk(Next(s, e).tables, Next(s, e).committed)
  {
    hide TablesOk;
    if e.StoreFast? && e.client in s.clients {
      WriteKeepsTables(s.tables, s.committed, (s.nextId, 1), e.result);
    } else if e.CommitRefine? && s.WorkerOf(e.worker).Working? && s.WorkerOf(e.worker).hash in s.groups {
      WriteKeepsTables(s.tables, s.committed, (s.groups[s.WorkerOf(e.worker).hash].id, 2), e.result);
    }
  }

  lemma WriteKeepsTables(tables: Tables, committed: Committed, key: Key, result: Result)
    requires TablesOk(tables, committed)
    ensures TablesOk(tables.Write(key, result), committed[key := result])
  {}

  /** A table read gives the reader the committed rows of its version; any other step at most commits more versions. */
  lemma StepKeepsReaders(s: State, e: Event)
    requires Inv(s)
    ensures ReadersOk(Next(s, e).committed, Next(s, e).readers)
  {
    hide CoreOk, TablesOk, AnswersOk;
    StepKeepsCore(s, e);
    if e.LoadGroup? || e.LoadSteps? || e.LoadTrades? || e.LoadEquity? {
      LoadKeepsReaders(s, e);
    } else {
      assert Next(s, e).readers == s.readers;
    }
  }

  lemma LoadKeepsReaders(s: State, e: Event)
    requires Inv(s) && (e.LoadGroup? || e.LoadSteps? || e.LoadTrades? || e.LoadEquity?)
    ensures ReadersOk(Next(s, e).committed, Next(s, e).readers)
  {
    hide WorkersOk, AnswersOk;
    if e.LoadGroup? && e.hash in s.groups {
      assert VersionOk(s.groups[e.hash], s.committed) && GroupOk(s.groups[e.hash]);
    } else if e.reader in s.readers {
      assert ReaderOk(s.committed, s.readers[e.reader]);
      assert s.tables.Read(s.readers[e.reader].key) == s.committed[s.readers[e.reader].key];
    }
  }

  lemma StepKeepsAnswers(s: State, e: Event)
    requires CoreOk(s) && AnswersOk(s.groups, s.answers)
    ensures AnswersOk(Next(s, e).groups, Next(s, e).answers)
  {
    hide CoreOk;
    if e.Ask? {
      if e.request.hash in s.groups {
        KnownGroupAnswers(s.groups, s.answers, e.request);
      }
    } else if e.StoreFast? {
      StoreFastAnswers(s, e.client, e.result, e.pending);
    } else {
      hide Next;
      StepKeepsCore(s, e);
      OtherStepsDoNotAnswer(s, e);
    }
  }

  lemma OtherStepsDoNotAnswer(s: State, e: Event)
    requires !e.Ask? && !e.StoreFast?
    ensures Next(s, e).answers == s.answers
  {}

  lemma StoreFastAnswers(s: State, c: nat, result: Result, pending: bool)
    requires AnswersOk(s.groups, s.answers)
    ensures var next := StoreFastStep(s, c, result, pending); AnswersOk(next.groups, next.answers)
  {
    hide AnswersOk;
    if c in s.clients && result.steps != [] {
      var request := s.clients[c];
      if request.hash in s.groups {
        KnownGroupAnswers(s.groups, s.answers, request);
      } else {
        NewGroupAnswers(s.groups, s.answers, request, NewGroup(s.nextId, request.refine, pending));
      }
    }
  }

  lemma KnownGroupAnswers(groups: Groups, answers: set<Answer>, request: Request)
    requires AnswersOk(groups, answers) && request.hash in groups
    ensures AnswersOk(groups, answers + {Answer(request.hash, request.refine, groups[request.hash].id)})
  {}

  lemma NewGroupAnswers(groups: Groups, answers: set<Answer>, request: Request, group: Group)
    requires AnswersOk(groups, answers) && request.hash !in groups && group.refine == request.refine
    ensures AnswersOk(groups[request.hash := group], answers + {Answer(request.hash, request.refine, group.id)})
  {}

  lemma StepKeepsInv(s: State, e: Event)
    requires Inv(s)
    ensures Inv(Next(s, e))
  {
    hide Next, CoreOk, TablesOk, ReadersOk, AnswersOk;
    StepKeepsCore(s, e);
    StepKeepsTables(s, e);
    StepKeepsReaders(s, e);
    StepKeepsAnswers(s, e);
  }

  lemma {:induction false} RunKeepsInv(s: State, events: seq<Event>)
    requires Inv(s)
    ensures Inv(Run(s, events))
    decreases |events|
  {
    if events != [] {
      StepKeepsInv(s, events[0]);
      RunKeepsInv(Next(s, events[0]), events[1..]);
    }
  }

  // ---------------------------------------------------------------- main results

  /** Every group is in one of five states, and was taken for refinement at most once, by at most one worker at a time. */
  lemma GroupsAreRefinedAtMostOnce(events: seq<Event>, hash: string)
    requires hash in Run(INITIAL, events).groups
    ensures var s := Run(INITIAL, events);
            && GroupOk(s.groups[hash]) && s.groups[hash].locks <= 1
            && forall v, w :: s.WorkerOf(v) == Working(hash) && s.WorkerOf(w) == Working(hash) ==> v == w
  {
    RunKeepsInv(INITIAL, events);
  }

  /** The group of request "h" in a state reached one event after another. */
  ghost predicate Shows(s: State, status: Status, phase: Phase, version: nat, locks: nat) {
    "h" in s.groups && IsState(s.groups["h"], status, phase, version, locks)
  }

  /** Each of the five does occur. */
  lemma EveryGroupStateOccurs(result: Result, refined: Result)
    requires result.steps != []
    ensures var asked := Next(INITIAL, Ask(0, Request("h", true)));
            var waiting := Next(asked, StoreFast(0, result, true));
            var locked := Next(Next(waiting, Pick(1, "h")), Lock(1));
            && Shows(Next(asked, StoreFast(0, result, false)), Completed, Done, 1, 0)
            && Shows(waiting, Refining, Fast, 1, 0)
            && Shows(locked, Refining, Refine, 1, 1)
            && Shows(Next(locked, CommitRefine(1, refined)), Completed, Done, 2, 1)
            && Shows(Next(locked, FailRefine(1)), Failed, Done, 1, 1)
  {
    var asked := Next(INITIAL, Ask(0, Request("h", true)));
    var waiting := Next(asked, StoreFast(0, result, true));
    var picked := Next(waiting, Pick(1, "h"));
    assert asked.clients[0] == Request("h", true) && asked.groups == map[];
    assert Shows(waiting, Refining, Fast, 1, 0) && waiting.WorkerOf(1) == Idle;
    LockingLeads(picked, refined);
  }

  lemma LockingLeads(picked: State, refined: Result)
    requires Shows(picked, Refining, Fast, 1, 0) && picked.WorkerOf(1) == Picked("h")
    ensures var locked := Next(picked, Lock(1));
            && Shows(locked, Refining, Refine, 1, 1)
            && Shows(Next(locked, CommitRefine(1, refined)), Completed, Done, 2, 1)
            && Shows(Next(locked, FailRefine(1)), Failed, Done, 1, 1)
  {}

  /** A version once stored stays as it is, in the tables too, whatever happens later. */
  lemma {:induction false} VersionsAreWrittenOnce(s: State, events: seq<Event>, key: Key)
    requires Inv(s) && key in s.committed
    ensures Run(s, events).tables.Read(key) == s.tables.Read(key) == s.committed[key]
    decreases |events|
  {
    if events != [] {
      StepKeepsInv(s, events[0]);
      StepKeepsCore(s, events[0]);
      VersionsAreWrittenOnce(Next(s, events[0]), events[1..], key);
    }
  }

  /** A reader that has loaded all three tables holds exactly one stored result, though the group may have moved on in between. */
  lemma ReadersSeeOneCompleteResult(events: seq<Event>, r: nat)
    requires var s := Run(INITIAL, events); r in s.readers && s.readers[r].Finished()
    ensures var s := Run(INITIAL, events);
            && s.readers[r].key in s.committed
            && s.readers[r].Loaded() == s.committed[s.readers[r].key]
  {
    RunKeepsInv(INITIAL, events);
    assert ReaderOk(Run(INITIAL, events).committed, Run(INITIAL, events).readers[r]);
  }

  predicate Reopens(e: Event, r: nat) { e.LoadGroup? && e.reader == r }

  lemma {:induction false} VersionsStay(s: State, more: seq<Event>)
    requires Inv(s)
    ensures Extends(s.committed, Run(s, more).committed)
    decreases |more|
  {
    hide Inv, Next;
    if more != [] {
      StepKeepsInv(s, more[0]);
      StepKeepsCore(s, more[0]) by { assert CoreOk(s) by { InvHasCore(s); } }
      VersionsStay(Next(s, more[0]), more[1..]);
    }
  }

  lemma InvHasCore(s: State)
    requires Inv(s)
    ensures CoreOk(s)
  {}

  lemma {:induction false} ReaderKeepsItsVersion(s: State, more: seq<Event>, r: nat)
    requires r in s.readers && forall e :: e in more ==> !Reopens(e, r)
    ensures r in Run(s, more).readers && Run(s, more).readers[r].key == s.readers[r].key
    decreases |more|
  {
    hide Next;
    if more != [] {
      assert more[0] in more;
      StepKeepsReadersVersion(s, more[0], r);
      ReaderKeepsItsVersion(Next(s, more[0]), more[1..], r);
    }
  }

  lemma StepKeepsReadersVersion(s: State, e: Event, r: nat)
    requires r in s.readers && !Reopens(e, r)
    ensures r in Next(s, e).readers && Next(s, e).readers[r].key == s.readers[r].key
  {}

  lemma ActiveIsOneOrTwo(s: State, hash: string)
    requires Inv(s) && hash in s.groups
    ensures s.groups[hash].active == 1 || s.groups[hash].active == 2
  {
    assert GroupOk(s.groups[hash]);
  }

  lemma LoadGroupReadsTheActive(s: State, r: nat, hash: string)
    requires Inv(s) && hash in s.groups
    ensures var next := Next(s, LoadGroup(r, hash));
            && r in next.readers && next.readers[r] == Reader((s.groups[hash].id, s.groups[hash].active), None, None, None)
            && next.committed == s.committed && (s.groups[hash].id, s.groups[hash].active) in s.committed
  {
    assert GroupOk(s.groups[hash]) && VersionOk(s.groups[hash], s.committed);
  }

  /** A finished reader holds the complete result of the version that was active when it loaded the group, whatever was
      stored or activated between its reads. */
  lemma ReadersSeeTheActiveResult(s: State, r: nat, hash: string, more: seq<Event>)
    requires Inv(s) && hash in s.groups && forall e :: e in more ==> !Reopens(e, r)
    requires var end := Run(Next(s, LoadGroup(r, hash)), more); r in end.readers && end.readers[r].Finished()
    ensures var key := (s.groups[hash].id, s.groups[hash].active);
            && key in s.committed
            && Run(Next(s, LoadGroup(r, hash)), more).readers[r].Loaded() == s.committed[key] == s.tables.Read(key)
  {
    var loaded := Next(s, LoadGroup(r, hash));
    LoadGroupReadsTheActive(s, r, hash);
    VersionsAreWrittenOnce(s, [], (s.groups[hash].id, s.groups[hash].active));
    hide Next, GroupOk;
    StepKeepsInv(s, LoadGroup(r, hash));
    ReaderKeepsItsVersion(loaded, more, r);
    VersionsStay(loaded, more);
    RunKeepsInv(loaded, more);
    assert ReaderOk(Run(loaded, more).committed, Run(loaded, more).readers[r]);
  }

  lemma StepKeepsRefined(s: State, e: Event, hash: string)
    requires Inv(s) && hash in s.groups && s.groups[hash].active == 2
    ensures hash in Next(s, e).groups && Next(s, e).groups[hash] == s.groups[hash]
  {
    hide GroupsOk, VersionsOk, TablesOk, ReadersOk, AnswersOk;
    if s.groups[hash].active == 2 && (e.CommitRefine? || e.FailRefine?) {
      assert s.WorkerOf(e.worker).Working? ==> Locked(s.groups, s.WorkerOf(e.worker).hash);
    }
    if e.Lock? {
      RefinedCannotBeTaken(s, hash);
    }
  }

  lemma RefinedCannotBeTaken(s: State, hash: string)
    requires Inv(s) && hash in s.groups && s.groups[hash].active == 2
    ensures !CanRefine(s.groups[hash])
  {
    assert GroupOk(s.groups[hash]);
  }

  lemma {:induction false} RefinedStays(s: State, more: seq<Event>, hash: string)
    requires Inv(s) && hash in s.groups && s.groups[hash].active == 2
    ensures hash in Run(s, more).groups && Run(s, more).groups[hash] == s.groups[hash]
    decreases |more|
  {
    hide Next, Inv;
    if more != [] {
      StepKeepsInv(s, more[0]);
      StepKeepsRefined(s, more[0], hash);
      RefinedStays(Next(s, more[0]), more[1..], hash);
    }
  }

  lemma CommitActivates(s: State, w: nat, result: Result, hash: string)
    requires Inv(s) && s.WorkerOf(w) == Working(hash)
    ensures var next := Next(s, CommitRefine(w, result));
            && hash in next.groups && next.groups[hash].active == 2
            && (next.groups[hash].id, 2) in next.committed && next.committed[(next.groups[hash].id, 2)] == result
  {
    WorkingGroupIsLocked(s, w);
  }

  /** Whoever opens a group at any time after its refinement was committed reads exactly the refined result. */
  lemma ReadersGetTheRefinedResult(s: State, w: nat, result: Result, hash: string, between: seq<Event>, r: nat, more: seq<Event>)
    requires Inv(s) && s.WorkerOf(w) == Working(hash) && forall e :: e in more ==> !Reopens(e, r)
    requires var end := Run(Next(Run(Next(s, CommitRefine(w, result)), between), LoadGroup(r, hash)), more);
             r in end.readers && end.readers[r].Finished()
    ensures Run(Next(Run(Next(s, CommitRefine(w, result)), between), LoadGroup(r, hash)), more).readers[r].Loaded() == result
  {
    CommitActivates(s, w, result, hash);
    hide Next, Inv;
    var stored := Next(s, CommitRefine(w, result));
    StepKeepsInv(s, CommitRefine(w, result));
    RefinedStays(stored, between, hash);
    VersionsStay(stored, between);
    RunKeepsInv(stored, between);
    ReadersSeeTheActiveResult(Run(stored, between), r, hash, more);
  }

  lemma StoringActivates(s: State, c: nat, result: Result, pending: bool, hash: string)
    requires Inv(s) && c in s.clients && s.clients[c].hash == hash && hash !in s.groups && result.steps != []
    ensures var next := Next(s, StoreFast(c, result, pending));
            && hash in next.groups && next.groups[hash].active == 1 && next.groups[hash].id == s.nextId
            && (s.nextId, 1) in next.committed && next.committed[(s.nextId, 1)] == result
  {}

  lemma {:induction false} GroupKeepsItsId(s: State, more: seq<Event>, hash: string)
    requires Inv(s) && hash in s.groups
    ensures hash in Run(s, more).groups && Run(s, more).groups[hash].id == s.groups[hash].id
    decreases |more|
  {
    hide Next, Inv;
    if more != [] {
      StepKeepsInv(s, more[0]);
      StepKeepsCore(s, more[0]) by { assert CoreOk(s) by { InvHasCore(s); } }
      GroupKeepsItsId(Next(s, more[0]), more[1..], hash);
    }
  }

  /** And whoever opens it while version 1 is the active one reads exactly the fast result it was stored with. */
  lemma ReadersGetTheFastResult(s: State, c: nat, result: Result, pending: bool, hash: string, between: seq<Event>, r: nat, more: seq<Event>)
    requires Inv(s) && c in s.clients && s.clients[c].hash == hash && hash !in s.groups && result.steps != []
    requires forall e :: e in more ==> !Reopens(e, r)
    requires var loaded := Run(Next(s, StoreFast(c, result, pending)), between);
             var end := Run(Next(loaded, LoadGroup(r, hash)), more);
             && hash in loaded.groups && loaded.groups[hash].active == 1
             && r in end.readers && end.readers[r].Finished()
    ensures Run(Next(Run(Next(s, StoreFast(c, result, pending)), between), LoadGroup(r, hash)), more).readers[r].Loaded() == result
  {
    StoringActivates(s, c, result, pending, hash);
    hide Next, Inv;
    var stored := Next(s, StoreFast(c, result, pending));
    StepKeepsInv(s, StoreFast(c, result, pending));
    GroupKeepsItsId(stored, between, hash);
    VersionsStay(stored, between);
    RunKeepsInv(stored, between);
    var loaded := Run(stored, between);
    ReadersSeeTheActiveResult(loaded, r, hash, more);
  }

  /** Requests with one hash are all answered with one group, however they race; different hashes never share one. */
  lemma OneGroupPerRequestHash(events: seq<Event>, a: Answer, b: Answer)
    requires a in Run(INITIAL, events).answers && b in Run(INITIAL, events).answers
    ensures a.hash == b.hash <==> a.id == b.id
  {
    RunKeepsInv(INITIAL, events);
  }

  /** The group given was stored under the choice that was asked for. */
  ghost predicate ChoiceKept(s: State, a: Answer) {
    a.hash in s.groups && s.groups[a.hash].refine == a.refine
  }

  /** The hash leaves the choice to refine out. In any run every answer for a hash got its choice exactly when all
      answers for it asked for the same. */
  lemma ChoicesAreKeptIffAllAgree(events: seq<Event>, hash: string)
    ensures var s := Run(INITIAL, events);
            (forall a :: a in s.answers && a.hash == hash ==> ChoiceKept(s, a))
            <==> forall a, b :: a in s.answers && b in s.answers && a.hash == b.hash == hash ==> a.refine == b.refine
  {
    var s := Run(INITIAL, events);
    RunKeepsInv(INITIAL, events);
    if hash in s.groups {
      var stored := Answer(hash, s.groups[hash].refine, s.groups[hash].id);
      assert stored in s.answers && ChoiceKept(s, stored);
    }
  }

  /** An answer keeps its choice or does not, once and for all: no later statement changes what its group was stored under. */
  lemma {:induction false} AnswersStayAsGiven(s: State, more: seq<Event>, a: Answer)
    requires Inv(s) && a in s.answers
    ensures a in Run(s, more).answers && (ChoiceKept(Run(s, more), a) <==> ChoiceKept(s, a))
    decreases |more|
  {
    hide Inv, Next;
    if more != [] {
      StepKeepsInv(s, more[0]);
      StepKeepsAnswer(s, more[0], a);
      AnswersStayAsGiven(Next(s, more[0]), more[1..], a);
    }
  }

  lemma StepKeepsAnswer(s: State, e: Event, a: Answer)
    requires Inv(s) && a in s.answers
    ensures a in Next(s, e).answers && (ChoiceKept(Next(s, e), a) <==> ChoiceKept(s, a))
  {
    hide CoreOk, TablesOk, ReadersOk;
    StepKeepsCore(s, e);
    if !e.Ask? && !e.StoreFast? {
      hide Next;
      OtherStepsDoNotAnswer(s, e);
    }
  }

  /** A request whose hash is stored already has, at the end of any run that follows, got its choice exactly if that group
      had been stored under it. */
  lemma AnswerKeepsChoiceIff(s: State, c: nat, request: Request, more: seq<Event>)
    requires Inv(s) && request.hash in s.groups
    ensures var end, given := Run(Next(s, Ask(c, request)), more), Answer(request.hash, request.refine, s.groups[request.hash].id);
            given in end.answers && (ChoiceKept(end, given) <==> s.groups[request.hash].refine == request.refine)
  {
    StepKeepsInv(s, Ask(c, request));
    AnswersStayAsGiven(Next(s, Ask(c, request)), more, Answer(request.hash, request.refine, s.groups[request.hash].id));
  }

  /** Likewise when it has computed a result of its own and then stores it or loses the race. */
  lemma StoredAnswerKeepsChoiceIff(s: State, c: nat, result: Result, pending: bool)
    requires c in s.clients && result.steps != []
    ensures var request, next := s.clients[c], Next(s, StoreFast(c, result, pending));
            && request.hash in next.groups
            && var given := Answer(request.hash, request.refine, next.groups[request.hash].id);
               given in next.answers
               && (ChoiceKept(next, given)
                   <==> request.hash in s.groups ==> s.groups[request.hash].refine == request.refine)
  {
    var request := s.clients[c];
    if request.hash in s.groups {
      assert Next(s, StoreFast(c, result, pending)) == s.Give(request, s.groups[request.hash].id);
    } else {
      assert Next(s, StoreFast(c, result, pending)).groups == s.groups[request.hash := NewGroup(s.nextId, request.refine, pending)];
    }
  }

  /** A request without refinement is given a group that is being refined. */
  lemma UnaskedRefinementHappens(result: Result)
    requires result.steps != []
    ensures var waiting := Next(Next(INITIAL, Ask(0, Request("h", true))), StoreFast(0, result, true));
            var s := Next(waiting, Ask(1, Request("h", false)));
            Answer("h", false, 1) in s.answers && !ChoiceKept(s, Answer("h", false, 1)) && Shows(s, Refining, Fast, 1, 0)
  {
    var asked := Next(INITIAL, Ask(0, Request("h", true)));
    assert asked.clients == map[0 := Request("h", true)] && asked.groups == map[];
    var waiting := Next(asked, StoreFast(0, result, true));
    assert Shows(waiting, Refining, Fast, 1, 0) && waiting.groups["h"].id == 1 && waiting.groups["h"].refine;
  }

  /** And a request with refinement a group that is completed without and will never be refined. */
  lemma AskedRefinementCanBeMissed(result: Result, more: seq<Event>)
    requires result.steps != []
    ensures var stored := Next(Next(INITIAL, Ask(0, Request("h", false))), StoreFast(0, result, true));
            var s := Next(stored, Ask(1, Request("h", true)));
            Answer("h", true, 1) in s.answers && !ChoiceKept(s, Answer("h", true, 1)) && Shows(Run(s, more), Completed, Done, 1, 0)
  {
    var asked := Next(INITIAL, Ask(0, Request("h", false)));
    assert asked.clients == map[0 := Request("h", false)] && asked.groups == map[];
    var stored := Next(asked, StoreFast(0, result, true));
    assert Shows(stored, Completed, Done, 1, 0) && stored.groups["h"].id == 1 && !stored.groups["h"].refine;
    var s := Next(stored, Ask(1, Request("h", true)));
    assert s.groups == stored.groups && s.workers == map[];
    UnrefinedStays(s, more);
  }

  /** A completed group that no worker has locked stays as it is. */
  lemma {:induction false} UnrefinedStays(s: State, more: seq<Event>)
    requires Shows(s, Completed, Done, 1, 0) && forall w :: s.WorkerOf(w) != Working("h")
    ensures Shows(Run(s, more), Completed, Done, 1, 0)
    decreases |more|
  {
    if more != [] {
      StepKeepsUnrefined(s, more[0]);
      UnrefinedStays(Next(s, more[0]), more[1..]);
    }
  }

  lemma StepKeepsUnrefined(s: State, e: Event)
    requires Shows(s, Completed, Done, 1, 0) && forall w :: s.WorkerOf(w) != Working("h")
    ensures Shows(Next(s, e), Completed, Done, 1, 0) && forall w :: Next(s, e).WorkerOf(w) != Working("h")
  {
    forall w ensures Next(s, e).WorkerOf(w) != Working("h") {
      assert s.WorkerOf(w) != Working("h");
    }
    if e.CommitRefine? || e.FailRefine? {
      assert s.WorkerOf(e.worker) != Working("h");
    }
  }

  ghost predicate Held(s: State, hash: string) {
    exists w :: s.WorkerOf(w) == Working(hash)
  }

  ghost predicate Orphaned(s: State, hash: string) {
    hash in s.groups && IsState(s.groups[hash], Refining, Refine, 1, 1) && !Held(s, hash)
  }

  lemma StepKeepsOrphan(s: State, e: Event, hash: string)
    requires Orphaned(s, hash)
    ensures Orphaned(Next(s, e), hash)
  {
    hide IsState;
    forall w ensures Next(s, e).WorkerOf(w) != Working(hash) {
      assert s.WorkerOf(w) != Working(hash);
      assert e.Lock? ==> !CanRefine(s.groups[hash]) by { LockedCannotBeTaken(s.groups[hash]); }
    }
    OrphanedRowIsLeftAlone(s, e, hash);
  }

  lemma LockedCannotBeTaken(group: Group)
    requires IsState(group, Refining, Refine, 1, 1)
    ensures !CanRefine(group)
  {}

  lemma OrphanedRowIsLeftAlone(s: State, e: Event, hash: string)
    requires Orphaned(s, hash)
    ensures hash in Next(s, e).groups && Next(s, e).groups[hash] == s.groups[hash]
  {
    if e.Lock? || e.CommitRefine? || e.FailRefine? {
      assert s.WorkerOf(e.worker) != Working(hash);
    }
  }

  /** A group whose worker died in mid-refinement is never refined, completed or failed. */
  lemma {:induction false} OrphanedGroupStaysRefining(s: State, events: seq<Event>, hash: string)
    requires Orphaned(s, hash)
    ensures Orphaned(Run(s, events), hash)
    decreases |events|
  {
    if events != [] {
      StepKeepsOrphan(s, events[0], hash);
      OrphanedGroupStaysRefining(Next(s, events[0]), events[1..], hash);
    }
  }

  ghost predicate IsFinal(s: State, hash: string) {
    hash in s.groups && s.groups[hash].phase == Done
  }

  ghost predicate Finishes(s: State, events: seq<Event>, hash: string) {
    IsFinal(Run(s, events), hash)
  }

  /** A group can still become final exactly when nobody has locked it or its worker is still there. */
  lemma CanStillFinishIffNotOrphaned(s: State, hash: string)
    requires Inv(s) && hash in s.groups
    ensures (exists events :: Finishes(s, events, hash)) <==> !Orphaned(s, hash)
  {
    if Orphaned(s, hash) {
      forall events ensures !Finishes(s, events, hash) {
        OrphanedGroupStaysRefining(s, events, hash);
      }
    } else {
      var events := WayToTheEnd(s, hash);
      assert Finishes(s, events, hash);
    }
  }

  lemma WayToTheEnd(s: State, hash: string) returns (events: seq<Event>)
    requires Inv(s) && hash in s.groups && !Orphaned(s, hash)
    ensures Finishes(s, events, hash)
  {
    if s.groups[hash].phase == Done {
      events := [];
    } else if w :| s.WorkerOf(w) == Working(hash) {
      events := [FailRefine(w)];
      FailEnds(s, w, hash);
    } else {
      var free := FreeWorker(s);
      assert CanRefine(s.groups[hash]) by { assert GroupOk(s.groups[hash]); }
      events := [Pick(free, hash), Lock(free), FailRefine(free)];
      var locked := Next(Next(s, events[0]), events[1]);
      LockingSucceeds(s, free, hash);
      FailEnds(locked, free, hash);
      assert events[1..] == [Lock(free), FailRefine(free)] && events[1..][1..] == [FailRefine(free)];
      assert IsFinal(Run(locked, [FailRefine(free)]), hash);
      assert Run(Next(s, events[0]), events[1..]) == Run(locked, [FailRefine(free)]);
      assert Run(s, events) == Run(Next(s, events[0]), events[1..]);
    }
  }

  lemma LockingSucceeds(s: State, w: nat, hash: string)
    requires s.WorkerOf(w) == Idle && hash in s.groups && CanRefine(s.groups[hash])
    ensures var locked := Next(Next(s, Pick(w, hash)), Lock(w));
            hash in locked.groups && locked.WorkerOf(w) == Working(hash)
  {}

  lemma FailEnds(s: State, w: nat, hash: string)
    requires hash in s.groups && s.WorkerOf(w) == Working(hash)
    ensures IsFinal(Run(s, [FailRefine(w)]), hash)
  {}

  lemma FreeWorker(s: State) returns (w: nat)
    ensures s.WorkerOf(w) == Idle
  {
    w := NewId(s.workers.Keys);
  }

  lemma WorkingGroupIsLocked(s: State, w: nat)
    requires Inv(s) && s.WorkerOf(w).Working?
    ensures Locked(s.groups, s.WorkerOf(w).hash)
  {}

  // ---------------------------------------------------------------- the service

  class AgentBacktestService {
    var groups: Groups
    var nextId: nat
    var steps: map<Key, seq<string>>
    var trades: map<Key, seq<string>>
    var equity: map<Key, seq<string>>
    var clients: map<nat, Request>
    var workers: map<nat, Worker>
    var readers: map<nat, Reader>
    ghost var committed: Committed
    ghost var answers: set<Answer>

    ghost function View(): State
      reads this
    {
      State(groups, nextId, Tables(steps, trades, equity), committed, clients, answers, workers, readers)
    }

    ghost predicate Valid()
      reads this
    {
      Inv(View())
    }

    constructor ()
      ensures Valid() && View() == INITIAL
    {
      groups, nextId, clients, workers, readers := map[], 1, map[], map[], map[];
      steps, trades, equity := map[], map[], map[];
      committed, answers := map[], {};
    }

    function WorkerOf(w: nat): Worker
      reads this
    {
      if w in workers then workers[w] else Idle
    }

    /** findRunGroupByRequestHash, before anything is computed. */
    method FindRunGroup(c: nat, request: Request) returns (id: Option<nat>)
      requires Valid()
      modifies this`clients, this`answers
      ensures Valid() && View() == Next(old(View()), Ask(c, request))
      ensures id == if request.hash in groups then Some(groups[request.hash].id) else None
      ensures clients == if request.hash in groups then old(clients) else old(clients)[c := request]
      ensures answers == if id.Some? then old(answers) + {Answer(request.hash, request.refine, id.value)} else old(answers)
    {
      hide Inv;
      StepKeepsInv(View(), Ask(c, request));
      if request.hash in groups {
        answers := answers + {Answer(request.hash, request.refine, groups[request.hash].id)};
        return Some(groups[request.hash].id);
      }
      clients := clients[c := request];
      return None;
    }

    /** persistResultVersion: clears the version's rows, then inserts them one by one. */
    method PersistResultVersion(key: Key, result: Result)
      modifies this`steps, this`trades, this`equity
      ensures steps == old(steps)[key := result.steps] && trades == old(trades)[key := result.trades]
      ensures equity == old(equity)[key := result.equity]
    {
      steps := RewriteRows(steps, key, result.steps);
      trades := RewriteRows(trades, key, result.trades);
      equity := RewriteRows(equity, key, result.equity);
    }

    /** Deletes the rows of the version, then one insert statement per row. */
    method RewriteRows(table: map<Key, seq<string>>, key: Key, rows: seq<string>) returns (filled: map<Key, seq<string>>)
      ensures filled == table[key := rows]
    {
      filled := table[key := []];
      for i := 0 to |rows|
        invariant filled == table[key := rows[..i]]
      {
        filled := filled[key := filled[key] + [rows[i]]];
        assert rows[..i + 1] == rows[..i] + [rows[i]];
      }
      assert rows[..|rows|] == rows;
    }

    /** The transaction that stores a fast result, or finds that another request was faster. */
    method StoreFastResult(c: nat, result: Result, pending: bool) returns (id: Option<nat>)
      requires Valid() && c in clients
      modifies this`groups, this`nextId, this`steps, this`trades, this`equity, this`committed, this`answers
      ensures Valid() && View() == Next(old(View()), StoreFast(c, result, pending))
      ensures id.Some? <==> result.steps != []
      ensures id.Some? ==> clients[c].hash in groups && id.value == groups[clients[c].hash].id
      ensures result.steps == [] || clients[c].hash in old(groups) ==> groups == old(groups) && committed == old(committed)
      ensures result.steps != [] && clients[c].hash !in old(groups) ==>
                var refining := clients[c].refine && pending;
                && groups == old(groups)[clients[c].hash := Group(old(nextId), clients[c].refine, if refining then Refining else Completed,
                                                                  if refining then Fast else Done, 1, 1, 0)]
                && steps == old(steps)[(old(nextId), 1) := result.steps] && trades == old(trades)[(old(nextId), 1) := result.trades]
                && equity == old(equity)[(old(nextId), 1) := result.equity]
    {
      hide Inv;
      StepKeepsInv(View(), StoreFast(c, result, pending));
      if result.steps == [] {
        return None;
      }
      var request := clients[c];
      if request.hash in groups {
        answers := answers + {Answer(request.hash, request.refine, groups[request.hash].id)};
        return Some(groups[request.hash].id);
      }
      id := InsertRunGroup(request, result, pending);
    }

    /** Its inserting branch: the group row and version 1. */
    method InsertRunGroup(request: Request, result: Result, pending: bool) returns (id: Option<nat>)
      requires request.hash !in groups
      modifies this`groups, this`nextId, this`steps, this`trades, this`equity, this`committed, this`answers
      ensures id == Some(old(nextId)) && nextId == old(nextId) + 1
      ensures groups == old(groups)[request.hash := NewGroup(old(nextId), request.refine, pending)]
      ensures steps == old(steps)[(old(nextId), 1) := result.steps] && trades == old(trades)[(old(nextId), 1) := result.trades]
      ensures equity == old(equity)[(old(nextId), 1) := result.equity]
      ensures committed == old(committed)[(old(nextId), 1) := result]
      ensures answers == old(answers) + {Answer(request.hash, request.refine, old(nextId))}
    {
      id := Some(nextId);
      groups := groups[request.hash := NewGroup(nextId, request.refine, pending)];
      PersistResultVersion((nextId, 1), result);
      committed := committed[(nextId, 1) := result];
      answers := answers + {Answer(request.hash, request.refine, nextId)};
      nextId := nextId + 1;
    }

    /** First statement of processNextRefineJob. */
    method PickCandidate(w: nat, hash: string) returns (found: bool)
      requires Valid() && WorkerOf(w) == Idle
      modifies this`workers
      ensures Valid() && View() == Next(old(View()), Pick(w, hash))
      ensures found <==> hash in groups && groups[hash].status == Refining && groups[hash].phase == Fast
      ensures workers == if found then old(workers)[w := Picked(hash)] else old(workers)
    {
      hide Inv;
      StepKeepsInv(View(), Pick(w, hash));
      found := hash in groups && CanRefine(groups[hash]);
      if found {
        workers := workers[w := Picked(hash)];
      }
    }

    /** Second statement: the guarded update that locks the group. */
    method LockCandidate(w: nat) returns (locked: bool)
      requires Valid() && WorkerOf(w).Picked?
      modifies this`groups, this`workers
      ensures Valid() && View() == Next(old(View()), Lock(w))
      ensures var hash := old(WorkerOf(w)).hash;
              && (locked <==> hash in old(groups) && old(groups)[hash].status == Refining && old(groups)[hash].phase == Fast)
              && workers == old(workers)[w := if locked then Working(hash) else Idle]
              && (locked ==> groups == old(groups)[hash := old(groups)[hash].(phase := Refine, locks := old(groups)[hash].locks + 1)])
      ensures !locked ==> groups == old(groups)
    {
      hide Inv;
      StepKeepsInv(View(), Lock(w));
      var hash := workers[w].hash;
      locked := hash in groups && CanRefine(groups[hash]);
      if locked {
        groups := groups[hash := groups[hash].(phase := Refine, locks := groups[hash].locks + 1)];
      }
      workers := workers[w := if locked then Working(hash) else Idle];
    }

    /** The transaction that stores version 2 and makes it the active one. */
    method CommitRefinedResult(w: nat, result: Result)
      requires Valid() && WorkerOf(w).Working?
      modifies this`groups, this`workers, this`steps, this`trades, this`equity, this`committed
      ensures Valid() && View() == Next(old(View()), CommitRefine(w, result))
      ensures var hash := old(WorkerOf(w)).hash;
              && hash in old(groups) && WorkerOf(w) == Idle
              && groups == old(groups)[hash := old(groups)[hash].(status := Completed, phase := Done, active := 2, latest := 2)]
              && var key := (groups[hash].id, 2);
                 && steps == old(steps)[key := result.steps] && trades == old(trades)[key := result.trades]
                 && equity == old(equity)[key := result.equity]
    {
      hide Inv, GroupOk;
      WorkingGroupIsLocked(View(), w);
      StepKeepsInv(View(), CommitRefine(w, result));
      var hash := workers[w].hash;
      var group := groups[hash];
      PersistResultVersion((group.id, 2), result);
      committed := committed[(group.id, 2) := result];
      groups := groups[hash := group.(status := Completed, phase := Done, active := 2, latest := 2)];
      workers := workers[w := Idle];
    }

    /** The error branch: its update has no guard. */
    method MarkFailed(w: nat)
      requires Valid() && WorkerOf(w).Working?
      modifies this`groups, this`workers
      ensures Valid() && View() == Next(old(View()), FailRefine(w))
      ensures var hash := old(WorkerOf(w)).hash;
              && hash in old(groups) && WorkerOf(w) == Idle
              && groups == old(groups)[hash := old(groups)[hash].(status := Failed, phase := Done)] && groups[hash].active == 1
    {
      hide Inv, GroupOk;
      WorkingGroupIsLocked(View(), w);
      StepKeepsInv(View(), FailRefine(w));
      var hash := workers[w].hash;
      groups := groups[hash := groups[hash].(status := Failed, phase := Done)];
      workers := workers[w := Idle];
    }

    /** getAgentRunDetail: the group row decides which version is read. */
    method LoadGroupRow(r: nat, hash: string) returns (found: bool)
      requires Valid()
      modifies this`readers
      ensures Valid() && View() == Next(old(View()), LoadGroup(r, hash))
      ensures found <==> hash in groups
      ensures found ==> readers == old(readers)[r := Reader((groups[hash].id, groups[hash].active), None, None, None)]
      ensures !found ==> readers == old(readers)
    {
      hide Inv;
      StepKeepsInv(View(), LoadGroup(r, hash));
      if hash !in groups {
        return false;
      }
      ActiveIsOneOrTwo(View(), hash);
      var version := if groups[hash].active < 1 then 1 else groups[hash].active;
      readers := readers[r := Reader((groups[hash].id, version), None, None, None)];
      return true;
    }

    method LoadDailySteps(r: nat)
      requires Valid() && r in readers
      modifies this`readers
      ensures Valid() && View() == Next(old(View()), LoadSteps(r))
      ensures var key := old(readers)[r].key;
              readers == old(readers)[r := old(readers)[r].(steps := Some(if key in steps then steps[key] else []))]
    {
      hide Inv;
      StepKeepsInv(View(), LoadSteps(r));
      var key := readers[r].key;
      readers := readers[r := readers[r].(steps := Some(if key in steps then steps[key] else []))];
    }

    method LoadTradeRows(r: nat)
      requires Valid() && r in readers
      modifies this`readers
      ensures Valid() && View() == Next(old(View()), LoadTrades(r))
      ensures var key := old(readers)[r].key;
              readers == old(readers)[r := old(readers)[r].(trades := Some(if key in trades then trades[key] else []))]
    {
      hide Inv;
      StepKeepsInv(View(), LoadTrades(r));
      var key := readers[r].key;
      readers := readers[r := readers[r].(trades := Some(if key in trades then trades[key] else []))];
    }

    method LoadEquityPoints(r: nat)
      requires Valid() && r in readers
      modifies this`readers
      ensures Valid() && View() == Next(old(View()), LoadEquity(r))
      ensures var key := old(readers)[r].key;
              readers == old(readers)[r := old(readers)[r].(equity := Some(if key in equity then equity[key] else []))]
    {
      hide Inv;
      StepKeepsInv(View(), LoadEquity(r));
      var key := readers[r].key;
      readers := readers[r := readers[r].(equity := Some(if key in equity then equity[key] else []))];
    }
  }
}
