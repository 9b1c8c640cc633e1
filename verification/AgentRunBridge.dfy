/**
 Driving a remote run: submit a task, poll it at an interval with backoff until it ends or time is up,
 then fetch the run with retries. The remote Agent is any function from call numbers to replies and delays.
 */
module AgentRunBridge {
  import opened Options
  import opened Basics

  datatype CreateReply = Created(taskId: string, status: string, runId: string) | CreateFailed

  datatype TaskReply =
    | Task(status: string, runId: string)
    | RetryableTaskError
    | FatalTaskError

  datatype RunReply =
    | RunPayload(run: string)
    | RetryableRunError
    | FatalRunError

  /** Replies by call number, from 1; `taskMs` and `runMs` are the delays of a call, oversleeping included. */
  datatype Agent = Agent(create: CreateReply, task: nat -> TaskReply, taskMs: nat -> nat, run: nat -> RunReply, runMs: nat -> nat)

  datatype ErrorCode = SubmitFailed | InvalidPayload | TaskFailed | PollNetworkError | UpstreamError | PollTimeout | RunFetchFailed

  datatype Config = Config(pollIntervalMs: nat, pollTimeoutMs: nat, pollMaxRetries: nat, retryBaseDelayMs: nat) {
    predicate Valid() { pollIntervalMs >= 200 && pollTimeoutMs >= 10_000 && retryBaseDelayMs >= 100 }
  }

  /** The configured values with their lower bounds applied. */
  function Configured(intervalMs: int, timeoutMs: int, maxRetries: int, baseDelayMs: int): (config: Config)
    ensures config.Valid()
    ensures intervalMs >= 200 ==> config.pollIntervalMs == intervalMs
    ensures timeoutMs >= 10_000 ==> config.pollTimeoutMs == timeoutMs
    ensures baseDelayMs >= 100 ==> config.retryBaseDelayMs == baseDelayMs
    ensures config.pollIntervalMs <= intervalMs || config.pollIntervalMs == 200
    ensures config.pollTimeoutMs <= timeoutMs || config.pollTimeoutMs == 10_000
    ensures config.retryBaseDelayMs <= baseDelayMs || config.retryBaseDelayMs == 100
    ensures config.pollMaxRetries == if maxRetries < 0 then 0 else maxRetries
  {
    Config(Max(200, intervalMs), Max(10_000, timeoutMs), Max(0, maxRetries), Max(100, baseDelayMs))
  }

  function RetryDelayMs(config: Config, attempt: nat): nat {
    Min(10_000, config.retryBaseDelayMs * Power2(Max(1, attempt) - 1))
  }

  /** Backoff starts at the base delay, never shrinks, at most doubles, and is capped at ten seconds. */
  lemma {:induction false} BackoffDoublesUpToTheCap(config: Config, attempt: nat)
    requires config.Valid() && attempt >= 1
    ensures 100 <= RetryDelayMs(config, attempt) <= 10_000
    ensures RetryDelayMs(config, attempt + 1) == Min(10_000, 2 * RetryDelayMs(config, attempt))
    ensures RetryDelayMs(config, 1) == Min(10_000, config.retryBaseDelayMs)
  {
    assert Power2(0) == 1;
    Doubling(config.retryBaseDelayMs, Power2(attempt - 1));
  }

  lemma Doubling(base: nat, factor: nat)
    requires factor >= 1
    ensures base * (2 * factor) == 2 * (base * factor) && base * factor >= base
  {}

  // ---------------------------------------------------------------- what polling means

  /** How many replies up to the n-th are retryable errors in a row. */
  function ErrorsInARow(agent: Agent, n: nat): nat {
    if n == 0 || !agent.task(n).RetryableTaskError? then 0 else ErrorsInARow(agent, n - 1) + 1
  }

  /** The time since polling began when the n-th reply has been dealt with. */
  function Elapsed(config: Config, agent: Agent, n: nat): nat {
    if n == 0 then 0
    else
      Elapsed(config, agent, n - 1) + config.pollIntervalMs + agent.taskMs(n)
      + if agent.task(n).RetryableTaskError? then RetryDelayMs(config, ErrorsInARow(agent, n)) else 0
  }

  predicate Final(reply: TaskReply) {
    reply.FatalTaskError? || (reply.Task? && (reply.status == "completed" || reply.status == "failed"))
  }

  /** The n-th reply settles the matter: a final one, or one network error too many. */
  predicate Decisive(config: Config, agent: Agent, n: nat) {
    Final(agent.task(n)) || ErrorsInARow(agent, n) > config.pollMaxRetries
  }

  predicate Stops(config: Config, agent: Agent, n: nat) {
    Decisive(config, agent, n) || Elapsed(config, agent, n) > config.pollTimeoutMs
  }

  datatype Verdict = Finished(runId: string) | Failed(code: ErrorCode)

  function VerdictAt(config: Config, agent: Agent, n: nat): Verdict {
    match agent.task(n)
    case FatalTaskError => Failed(UpstreamError)
    case RetryableTaskError => Failed(if ErrorsInARow(agent, n) > config.pollMaxRetries then PollNetworkError else PollTimeout)
    case Task(status, runId) =>
      if status == "completed" then (if runId == "" then Failed(InvalidPayload) else Finished(runId))
      else if status == "failed" then Failed(TaskFailed) else Failed(PollTimeout)
  }

  /** The last non-empty status among the first n replies, or the one the task was created with. */
  function LastStatus(agent: Agent, initial: Option<string>, n: nat): Option<string> {
    if n == 0 then initial
    else if agent.task(n).Task? then NonEmpty(agent.task(n).status)
    else LastStatus(agent, initial, n - 1)
  }

  function NonEmpty(text: string): Option<string> { if text == "" then None else Some(text) }

  lemma {:induction false} TimePasses(config: Config, agent: Agent, n: nat)
    ensures Elapsed(config, agent, n) >= n * config.pollIntervalMs
  {
    if n > 0 {
      hide RetryDelayMs, ErrorsInARow;
      TimePasses(config, agent, n - 1);
      assert n * config.pollIntervalMs == (n - 1) * config.pollIntervalMs + config.pollIntervalMs;
    }
  }

  /** The first stop comes no later than the timeout allows reads. */
  lemma ReadsAreBounded(config: Config, agent: Agent, n: nat)
    requires config.Valid() && n >= 1 && forall k :: 1 <= k < n ==> !Stops(config, agent, k)
    ensures n <= config.pollTimeoutMs / config.pollIntervalMs + 1
  {
    TimePasses(config, agent, n - 1);
    assert n > 1 ==> !Stops(config, agent, n - 1);
    var calls, interval, timeout := n - 1, config.pollIntervalMs, config.pollTimeoutMs;
    assert interval * calls <= timeout;
    QuotientBound(interval, calls, timeout);
  }

  lemma {:induction false} ErrorsInARowAreTheLastReplies(agent: Agent, n: nat)
    ensures var errors := ErrorsInARow(agent, n);
            && errors <= n
            && (forall k :: n - errors < k <= n ==> agent.task(k).RetryableTaskError?)
            && (errors < n ==> !agent.task(n - errors).RetryableTaskError?)
  {
    if n > 0 && agent.task(n).RetryableTaskError? {
      ErrorsInARowAreTheLastReplies(agent, n - 1);
    }
  }

  /** Polling ends in a network error exactly when the last maxRetries + 1 replies were retryable errors, never more. */
  lemma NetworkErrorIffTooManyInARow(config: Config, agent: Agent, n: nat)
    requires n >= 1 && Stops(config, agent, n) && forall k :: 1 <= k < n ==> !Stops(config, agent, k)
    ensures VerdictAt(config, agent, n) == Failed(PollNetworkError) <==>
            n > config.pollMaxRetries && forall k :: n - config.pollMaxRetries <= k <= n ==> agent.task(k).RetryableTaskError?
    ensures ErrorsInARow(agent, n) <= config.pollMaxRetries + 1
  {
    ErrorsInARowAreTheLastReplies(agent, n);
    assert n > 1 ==> !Stops(config, agent, n - 1);
  }

  /** The verdict of the reply that stops polling, told from that reply and the ones before it. */
  ghost predicate IsVerdictOf(config: Config, agent: Agent, n: nat, verdict: Verdict) {
    match agent.task(n)
    case Task(status, runId) =>
      if status == "completed" then verdict == (if runId == "" then Failed(InvalidPayload) else Finished(runId))
      else verdict == Failed(if status == "failed" then TaskFailed else PollTimeout)
    case FatalTaskError => verdict == Failed(UpstreamError)
    case RetryableTaskError =>
      if n > config.pollMaxRetries && forall k :: n - config.pollMaxRetries <= k <= n ==> agent.task(k).RetryableTaskError?
      then verdict == Failed(PollNetworkError) else verdict == Failed(PollTimeout)
  }

  lemma VerdictMeans(config: Config, agent: Agent, n: nat)
    requires n >= 1 && Stops(config, agent, n) && forall k :: 1 <= k < n ==> !Stops(config, agent, k)
    ensures IsVerdictOf(config, agent, n, VerdictAt(config, agent, n))
  {
    if agent.task(n).RetryableTaskError? {
      NetworkErrorIffTooManyInARow(config, agent, n);
    }
  }

  /** It is the status of the last reply that was a task, if not empty; and the status at the start if there was no such reply. */
  lemma {:induction false} LastStatusIsTheLastTasks(agent: Agent, initial: Option<string>, n: nat, k: nat)
    requires k <= n && (k > 0 ==> agent.task(k).Task?) && forall j :: k < j <= n ==> !agent.task(j).Task?
    ensures LastStatus(agent, initial, n) == if k == 0 then initial else if agent.task(k).status == "" then None else Some(agent.task(k).status)
    decreases n
  {
    if k < n {
      LastStatusIsTheLastTasks(agent, initial, n - 1, k);
    }
  }

  /** Before each read the interval is waited, and after each retryable error the backoff: 100, 200 and 400 ms here. */
  lemma ErrorsAreWaitedOut()
    ensures var agent := Agent(CreateFailed, k => RetryableTaskError, k => 0, k => RetryableRunError, k => 0);
            var config := Config(200, 10_000, 5, 100);
            Elapsed(config, agent, 1) == 300 && Elapsed(config, agent, 2) == 700 && Elapsed(config, agent, 3) == 1300
            && RunTime(config, agent, 1) == 0 && RunTime(config, agent, 2) == 100 && RunTime(config, agent, 3) == 300
  {
    var agent := Agent(CreateFailed, k => RetryableTaskError, k => 0, k => RetryableRunError, k => 0);
    var config := Config(200, 10_000, 5, 100);
    assert Power2(0) == 1 && Power2(1) == 2 && Power2(2) == 4;
    assert ErrorsInARow(agent, 1) == 1 && ErrorsInARow(agent, 2) == 2 && ErrorsInARow(agent, 3) == 3;
    assert RetryDelayMs(config, 1) == 100 && RetryDelayMs(config, 2) == 200 && RetryDelayMs(config, 3) == 400;
  }

  // ---------------------------------------------------------------- fetching the run

  /** The time until the n-th reply, with a backoff before every read but the first. */
  function RunTime(config: Config, agent: Agent, n: nat): nat {
    if n == 0 then 0
    else RunTime(config, agent, n - 1) + (if n > 1 then RetryDelayMs(config, n - 1) else 0) + agent.runMs(n)
  }

  /** Reads the run from the given attempt on. */
  function RunFrom(config: Config, agent: Agent, attempt: nat): (nat, Verdict)
    decreases config.pollMaxRetries + 1 - attempt
  {
    match agent.run(attempt)
    case RunPayload(run) => (attempt, Finished(run))
    case FatalRunError => (attempt, Failed(RunFetchFailed))
    case RetryableRunError =>
      if attempt <= config.pollMaxRetries then RunFrom(config, agent, attempt + 1) else (attempt, Failed(PollNetworkError))
  }

  /** At most maxRetries + 1 reads: the first reply that is not retryable decides, and a network error means there was none. */
  lemma {:induction false} RunReadsStopAtTheFirstAnswer(config: Config, agent: Agent, attempt: nat)
    requires 1 <= attempt <= config.pollMaxRetries + 1
    ensures var (calls, verdict) := RunFrom(config, agent, attempt);
            && attempt <= calls <= config.pollMaxRetries + 1
            && (forall k :: attempt <= k < calls ==> agent.run(k).RetryableRunError?)
            && (agent.run(calls).RetryableRunError? ==> calls == config.pollMaxRetries + 1)
            && (verdict == Failed(PollNetworkError) <==> agent.run(calls).RetryableRunError?)
            && (verdict == Failed(RunFetchFailed) <==> agent.run(calls).FatalRunError?)
            && (forall run :: verdict == Finished(run) <==> agent.run(calls) == RunPayload(run))
    decreases config.pollMaxRetries + 1 - attempt
  {
    if agent.run(attempt).RetryableRunError? && attempt <= config.pollMaxRetries {
      RunReadsStopAtTheFirstAnswer(config, agent, attempt + 1);
    }
  }

  // ---------------------------------------------------------------- the service

  /** The remote side and the clock: calls are counted and take time. */
  class AgentClient {
    const agent: Agent
    var now: nat
    var taskReads: nat
    var runReads: nat

    constructor (agent: Agent)
      ensures this.agent == agent && taskReads == 0 && runReads == 0
    {
      this.agent := agent;
      now, taskReads, runReads := 0, 0, 0;
    }

    method GetTask() returns (reply: TaskReply)
      modifies this
      ensures taskReads == old(taskReads) + 1 && runReads == old(runReads)
      ensures now == old(now) + agent.taskMs(taskReads) && reply == agent.task(taskReads)
    {
      taskReads := taskReads + 1;
      now := now + agent.taskMs(taskReads);
      reply := agent.task(taskReads);
    }

    method GetRun() returns (reply: RunReply)
      modifies this
      ensures runReads == old(runReads) + 1 && taskReads == old(taskReads)
      ensures now == old(now) + agent.runMs(runReads) && reply == agent.run(runReads)
    {
      runReads := runReads + 1;
      now := now + agent.runMs(runReads);
      reply := agent.run(runReads);
    }

    method Sleep(ms: nat)
      modifies this
      ensures now == old(now) + ms && taskReads == old(taskReads) && runReads == old(runReads)
    {
      now := now + ms;
    }
  }

  class BridgeMeta {
    var agentTaskId: Option<string>
    var agentRunId: Option<string>
    var pollAttempts: nat
    var lastAgentStatus: Option<string>
    var bridgeErrorCode: Option<ErrorCode>

    constructor ()
      ensures agentTaskId == None && agentRunId == None && pollAttempts == 0 && lastAgentStatus == None && bridgeErrorCode == None
    {
      agentTaskId, agentRunId, lastAgentStatus, bridgeErrorCode := None, None, None, None;
      pollAttempts := 0;
    }

    method Fail(code: ErrorCode) returns (verdict: Verdict)
      modifies this`bridgeErrorCode
      ensures bridgeErrorCode == Some(code) && verdict == Failed(code)
    {
      bridgeErrorCode := Some(code);
      verdict := Failed(code);
    }
  }

  class AgentRunBridgeService {
    const config: Config
    const client: AgentClient

    constructor (client: AgentClient, intervalMs: int, timeoutMs: int, maxRetries: int, baseDelayMs: int)
      ensures this.client == client && config == Configured(intervalMs, timeoutMs, maxRetries, baseDelayMs) && config.Valid()
    {
      this.client := client;
      config := Configured(intervalMs, timeoutMs, maxRetries, baseDelayMs);
    }

    /** Every reply so far let polling go on. */
    ghost predicate WentOn(calls: nat) {
      forall k :: 1 <= k <= calls ==> !Stops(config, client.agent, k)
    }

    /** Polling stopped with this reply, the first that could stop it. */
    ghost predicate StoppedAt(calls: nat) {
      calls >= 1 && Stops(config, client.agent, calls) && WentOn(calls - 1)
    }

    /**
     Reads the task until the first reply that stops polling, and no further: `pollAttempts` counts the
     reads, and the verdict is that reply's.
     */
    method PollUntilFinished(meta: BridgeMeta) returns (verdict: Verdict)
      requires config.Valid() && client.taskReads == 0 && meta.pollAttempts == 0
      modifies client, meta`pollAttempts, meta`lastAgentStatus, meta`bridgeErrorCode
      ensures meta.pollAttempts == client.taskReads && client.runReads == old(client.runReads)
      ensures StoppedAt(client.taskReads) && verdict == VerdictAt(config, client.agent, client.taskReads)
      ensures client.taskReads <= config.pollTimeoutMs / config.pollIntervalMs + 1
      ensures meta.lastAgentStatus == LastStatus(client.agent, old(meta.lastAgentStatus), client.taskReads)
      ensures meta.bridgeErrorCode == if verdict.Failed? then Some(verdict.code) else old(meta.bridgeErrorCode)
    {
      hide RetryDelayMs;
      var agent := client.agent;
      var startedAt := client.now;
      var consecutivePollErrors := 0;
      while client.now - startedAt <= config.pollTimeoutMs
        invariant client.now - startedAt == Elapsed(config, agent, client.taskReads)
        invariant consecutivePollErrors == ErrorsInARow(agent, client.taskReads)
        invariant meta.pollAttempts == client.taskReads && client.runReads == old(client.runReads)
        invariant forall k :: 1 <= k <= client.taskReads ==> !Decisive(config, agent, k)
        invariant forall k :: 1 <= k < client.taskReads ==> !Stops(config, agent, k)
        invariant meta.lastAgentStatus == LastStatus(agent, old(meta.lastAgentStatus), client.taskReads)
        invariant meta.bridgeErrorCode == old(meta.bridgeErrorCode)
        decreases config.pollTimeoutMs + startedAt - client.now
      {
        client.Sleep(config.pollIntervalMs);
        meta.pollAttempts := meta.pollAttempts + 1;
        ReadsAreBounded(config, agent, client.taskReads + 1);
        var reply := client.GetTask();
        if reply.RetryableTaskError? {
          consecutivePollErrors := consecutivePollErrors + 1;
          if consecutivePollErrors > config.pollMaxRetries {
            verdict := meta.Fail(PollNetworkError);
            return;
          }
          client.Sleep(RetryDelayMs(config, consecutivePollErrors));
          continue;
        }
        if reply.FatalTaskError? {
          verdict := meta.Fail(UpstreamError);
          return;
        }
        consecutivePollErrors := 0;
        meta.lastAgentStatus := NonEmpty(reply.status);
        if reply.status == "completed" {
          if reply.runId == "" {
            verdict := meta.Fail(InvalidPayload);
          } else {
            verdict := Finished(reply.runId);
          }
          return;
        }
        if reply.status == "failed" {
          verdict := meta.Fail(TaskFailed);
          return;
        }
      }
      ReadsAreBounded(config, agent, client.taskReads);
      assert !Decisive(config, agent, client.taskReads);
      verdict := meta.Fail(PollTimeout);
    }

    /** Reads the run at most maxRetries + 1 times. */
    method GetRunWithRetry(runId: string, meta: BridgeMeta) returns (verdict: Verdict)
      requires client.runReads == 0
      modifies client, meta`agentRunId, meta`bridgeErrorCode
      ensures (client.runReads, verdict) == RunFrom(config, client.agent, 1)
      ensures client.now == old(client.now) + RunTime(config, client.agent, client.runReads)
      ensures client.taskReads == old(client.taskReads) && meta.agentRunId == Some(runId)
      ensures meta.bridgeErrorCode == if verdict.Failed? then Some(verdict.code) else old(meta.bridgeErrorCode)
    {
      var agent := client.agent;
      meta.agentRunId := Some(runId);
      var attempt := 0;
      while true
        invariant attempt == client.runReads <= config.pollMaxRetries
        invariant client.now == old(client.now) + RunTime(config, agent, attempt) + if attempt > 0 then RetryDelayMs(config, attempt) else 0
        invariant RunFrom(config, agent, attempt + 1) == RunFrom(config, agent, 1)
        invariant client.taskReads == old(client.taskReads) && meta.agentRunId == Some(runId)
        invariant meta.bridgeErrorCode == old(meta.bridgeErrorCode)
        decreases config.pollMaxRetries - attempt
      {
        attempt := attempt + 1;
        var reply := client.GetRun();
        if reply.RunPayload? {
          return Finished(reply.run);
        }
        if reply.RetryableRunError? && attempt <= config.pollMaxRetries {
          client.Sleep(RetryDelayMs(config, attempt));
          continue;
        }
        verdict := meta.Fail(if reply.RetryableRunError? then PollNetworkError else RunFetchFailed);
        return;
      }
    }

    /** The last thing read from the task, by polling or when it was created, was `completed` with this run id. */
    ghost predicate CompletedWith(calls: nat, runId: string) {
      && runId != ""
      && if calls > 0 then client.agent.task(calls) == Task("completed", runId)
         else client.agent.create.Created? && client.agent.create.status == "completed" && client.agent.create.runId == runId
    }

    /** The created task needs no polling: it has no id, or ended at once. */
    predicate EndsAtOnce(created: CreateReply) {
      created.CreateFailed? || created.taskId == "" || created.status == "failed" || created.status == "completed"
    }

    /** What a task that ends at once leads to, short of reading a run. */
    function VerdictAtOnce(created: CreateReply): Verdict
      requires EndsAtOnce(created)
    {
      if created.CreateFailed? then Failed(SubmitFailed)
      else if created.taskId == "" then Failed(InvalidPayload)
      else if created.status == "failed" then Failed(TaskFailed)
      else if created.runId == "" then Failed(InvalidPayload) else Finished(created.runId)
    }

    /**
     The whole bridge. Success means the task was last seen completed, with the id of the run that was
     then read; every error names its cause; `pollAttempts` is the number of task reads.
     */
    method RunViaAsyncTask() returns (verdict: Verdict, meta: BridgeMeta)
      requires config.Valid() && client.taskReads == 0 && client.runReads == 0
      modifies client
      ensures fresh(meta) && meta.pollAttempts == client.taskReads <= config.pollTimeoutMs / config.pollIntervalMs + 1
      ensures client.runReads <= config.pollMaxRetries + 1
      ensures verdict.Finished? ==> meta.agentRunId.Some? && CompletedWith(client.taskReads, meta.agentRunId.value)
      ensures verdict.Finished? ==> client.agent.run(client.runReads) == RunPayload(verdict.runId) && meta.bridgeErrorCode == None
      ensures verdict.Failed? ==> meta.bridgeErrorCode == Some(verdict.code)
      ensures verdict == Failed(SubmitFailed) <==> client.agent.create.CreateFailed?
      ensures client.taskReads == 0 <==> EndsAtOnce(client.agent.create)
      ensures client.taskReads == 0 && client.runReads == 0 ==> verdict == VerdictAtOnce(client.agent.create)
      ensures var created := client.agent.create;
              && (created.Created? && created.taskId == "" ==> verdict == Failed(InvalidPayload) && client.runReads == 0)
              && (created.Created? && created.taskId != "" && created.status == "failed" ==> verdict == Failed(TaskFailed) && client.runReads == 0)
              && (created.Created? && created.taskId != "" && created.status == "completed" && created.runId == "" ==>
                    verdict == Failed(InvalidPayload) && client.runReads == 0)
              && (created.Created? && created.taskId != "" && created.status == "completed" && created.runId != "" ==>
                    client.taskReads == 0 && client.runReads > 0 && meta.agentRunId == Some(created.runId))
              && (created.Created? && created.taskId != "" && created.status != "completed" && created.status != "failed" ==> client.taskReads > 0)
      ensures client.taskReads > 0 && client.runReads == 0 ==> IsVerdictOf(config, client.agent, client.taskReads, verdict)
      ensures var created := client.agent.create;
              meta.agentTaskId == if created.Created? then NonEmpty(created.taskId) else None
      ensures meta.agentTaskId.Some? ==>
                meta.lastAgentStatus == LastStatus(client.agent, NonEmpty(client.agent.create.status), client.taskReads)
      ensures client.runReads > 0 <==> meta.agentRunId.Some?
      ensures client.runReads > 0 ==> (client.runReads, verdict) == RunFrom(config, client.agent, 1)
      ensures client.taskReads > 0 ==> StoppedAt(client.taskReads)
      ensures client.taskReads > 0 && client.runReads == 0 ==> verdict == VerdictAt(config, client.agent, client.taskReads)
    {
      meta := new BridgeMeta();
      if client.agent.create.CreateFailed? {
        verdict := meta.Fail(SubmitFailed);
        return;
      }
      var created := client.agent.create;
      if created.taskId == "" {
        verdict := meta.Fail(InvalidPayload);
        return;
      }
      meta.agentTaskId := Some(created.taskId);
      meta.lastAgentStatus := NonEmpty(created.status);
      if created.status == "failed" {
        verdict := meta.Fail(TaskFailed);
        return;
      }
      if created.status == "completed" {
        if created.runId == "" {
          verdict := meta.Fail(InvalidPayload);
          return;
        }
        verdict := Finished(created.runId);
      } else {
        verdict := PollUntilFinished(meta);
        VerdictMeans(config, client.agent, client.taskReads);
      }
      if verdict.Finished? {
        RunReadsStopAtTheFirstAnswer(config, client.agent, 1);
        verdict := GetRunWithRetry(verdict.runId, meta);
      }
    }
  }
}
