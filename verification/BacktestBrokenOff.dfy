/**
 Refreshes that break off. A run saves its rows before it refreshes their summaries; if a summary call fails, the
 touched summaries not yet reached are left as they were, and stay so until a later run touches them.
 */
module BacktestBrokenOff {
  import opened Options
  import opened Basics
  import opened BacktestItems
  import opened RecomputeBatches
  import opened BacktestSummaries
  import opened BacktestAgreement

  /** The rows are saved, but a summary call failed and the rest of the touched summaries were not refreshed. */
  ghost predicate BreaksOff(summaryAgent: SummaryAgent, outcome: Batch, summaries: Summaries, config: Config,
                            after: Results, partly: Summaries)
  {
    && outcome.counters.saved > 0 && after == outcome.results
    && exists done :: Within(done, outcome.touched) && Resummarised(summaryAgent, after, summaries, partly, done, config)
  }

  ghost predicate NeededKey(after: Results, config: Config, key: SummaryKey) {
    exists k :: k in after && k.config == config && (key == OverallKey(after[k], config) || key == StockKey(after[k], config))
  }

  lemma AgreesOnNeededKeys(agent: SummaryAgent, results: Results, summaries: Summaries, config: Config)
    ensures Agrees(agent, results, summaries, config) <==>
            forall key :: NeededKey(results, config, key) ==> UpToDate(agent, results, summaries, key)
  {
    forall k | k in results && k.config == config
      ensures NeededKey(results, config, OverallKey(results[k], config)) && NeededKey(results, config, StockKey(results[k], config))
    {}
  }

  lemma UnreachedKeysStay(done: Touched, touched: Touched, config: Config, key: SummaryKey)
    requires Within(done, touched) && !IsTouchedKey(touched, config, key)
    ensures !IsTouchedKey(done, config, key)
  {}

  // ---------------------------------------------------------------- after a run

  /** Only touched summaries that were not reached can be wrong, and agreement holds exactly when those are right already. */
  ghost predicate RightUpTo(agent: SummaryAgent, touched: Touched, done: Touched, summaries: Summaries, config: Config,
                            after: Results, partly: Summaries)
  {
    && (forall key :: NeededKey(after, config, key) && !UpToDate(agent, after, partly, key) ==>
          IsTouchedKey(touched, config, key) && !IsTouchedKey(done, config, key))
    && (Agrees(agent, after, partly, config) <==>
        forall key :: NeededKey(after, config, key) && IsTouchedKey(touched, config, key) && !IsTouchedKey(done, config, key) ==>
          UpToDate(agent, after, summaries, key))
  }

  lemma BrokenOffAgreementIff(
      agent: SummaryAgent, before: Results, after: Results, summaries: Summaries, partly: Summaries,
      candidates: seq<HistoryRow>, config: Config, touched: Touched, done: Touched)
    requires NothingStrands(candidates, before, config) && Marked(before, after, candidates, config, touched)
    requires Agrees(agent, before, summaries, config)
    requires Within(done, touched) && Resummarised(agent, after, summaries, partly, done, config)
    ensures RightUpTo(agent, touched, done, summaries, config, after, partly)
  {
    hide Marked, NothingStrands, RowsFor, IsTouchedKey;
    AgreesOnNeededKeys(agent, after, partly, config);
    forall key | NeededKey(after, config, key) && !IsTouchedKey(touched, config, key)
      ensures UpToDate(agent, after, partly, key)
    {
      var k :| k in after && k.config == config && (key == OverallKey(after[k], config) || key == StockKey(after[k], config));
      NeededRowsStay(before, after, candidates, config, touched, k, key);
      assert UpToDate(agent, before, summaries, key);
      UnreachedKeysStay(done, touched, config, key);
    }
  }

  /** How far a run's refresh came, and what that means for the summaries. */
  ghost predicate BrokeOffRight(summaryAgent: SummaryAgent, outcome: Batch, summaries: Summaries, config: Config,
                                after: Results, partly: Summaries)
  {
    exists done ::
      && Within(done, outcome.touched) && Resummarised(summaryAgent, after, summaries, partly, done, config)
      && RightUpTo(summaryAgent, outcome.touched, done, summaries, config, after, partly)
  }

  lemma RunIsMarked(history: seq<HistoryRow>, runAgent: RunAgent, results: Results, candidates: seq<HistoryRow>, config: Config)
    requires EchoesRows(runAgent, history) && Subset(candidates, history)
    ensures var outcome := Outcome(runAgent, results, candidates, config);
            && Marked(results, outcome.results, candidates, config, outcome.touched)
            && (outcome.counters.saved == 0 ==> outcome.results == results)
  {
    hide FoldItems, Marked;
    var reply := ReplyTo(runAgent, candidates);
    var start := WithErrors(Batch(results, NOTHING, map[]), reply.errors);
    EchoedFoldIsMarked(results, start.counters, candidates, config, reply.items);
    NothingSavedNothingChanged(start, candidates, config, reply.items);
  }

  /** A run whose refresh broke off, under an echoing Agent: exactly touched summaries it did not reach can be wrong. */
  lemma BrokenOffRun(
      history: seq<HistoryRow>, summaryAgent: SummaryAgent, runAgent: RunAgent, results: Results, summaries: Summaries,
      candidates: seq<HistoryRow>, config: Config, after: Results, partly: Summaries)
    requires NothingStrands(candidates, results, config) && EchoesRows(runAgent, history) && Subset(candidates, history)
    requires Agrees(summaryAgent, results, summaries, config)
    requires BreaksOff(summaryAgent, Outcome(runAgent, results, candidates, config), summaries, config, after, partly)
    ensures BrokeOffRight(summaryAgent, Outcome(runAgent, results, candidates, config), summaries, config, after, partly)
  {
    hide NothingStrands, Agrees, Outcome, Marked, Resummarised, RightUpTo, Within;
    RunIsMarked(history, runAgent, results, candidates, config);
    var touched := Outcome(runAgent, results, candidates, config).touched;
    var done :| Within(done, touched) && Resummarised(summaryAgent, after, summaries, partly, done, config);
    BrokenOffAgreementIff(summaryAgent, results, after, summaries, partly, candidates, config, touched, done);
  }

  /** It does happen: from empty tables a run saves its row, the first summary call fails, and no summary is there. */
  lemma BrokenOffRunCanDisagree(config: Config)
    ensures var agent, after := CountingAgent(), map[ResultKey(1, config) := ResultRow(Some(1), "600519", "")];
            && EchoesRows(OnlyFor(FIRST), [FIRST]) && Agrees(agent, map[], map[], config)
            && BreaksOff(agent, Outcome(OnlyFor(FIRST), map[], [FIRST], config), map[], config, after, map[])
            && !Agrees(agent, after, map[], config)
  {
    var agent, after := CountingAgent(), map[ResultKey(1, config) := ResultRow(Some(1), "600519", "")];
    hide Outcome, EchoesRows;
    OnlyForIsHonest(FIRST, [FIRST]);
    OnlyForRewrites(FIRST, map[], [FIRST], [FIRST], config);
    NothingReached(agent, after, config);
    assert ResultKey(1, config) in after && !UpToDate(agent, after, map[], OverallKey(after[ResultKey(1, config)], config));
  }

  lemma NothingReached(agent: SummaryAgent, results: Results, config: Config)
    ensures Resummarised(agent, results, map[], map[], map[], config)
  {}

  // ---------------------------------------------------------------- until a run touches it

  datatype Tables = Tables(results: Results, summaries: Summaries)

  /** One call of run. */
  datatype Call = Call(agent: RunAgent, candidates: seq<HistoryRow>) {
    function Outcome(before: Tables, config: Config): Batch { BacktestAgreement.Outcome(agent, before.results, candidates, config) }
  }

  ghost predicate Completes(summaryAgent: SummaryAgent, call: Call, config: Config, before: Tables, after: Tables) {
    RunEnds(summaryAgent, call.agent, before.results, before.summaries, call.candidates, config, after.results, after.summaries)
  }

  /** Completed or broken off. */
  ghost predicate Goes(summaryAgent: SummaryAgent, call: Call, config: Config, before: Tables, after: Tables) {
    || Completes(summaryAgent, call, config, before, after)
    || BreaksOff(summaryAgent, call.Outcome(before, config), before.summaries, config, after.results, after.summaries)
  }

  ghost predicate Touches(call: Call, config: Config, before: Tables, key: SummaryKey) {
    call.Outcome(before, config).counters.saved > 0 && IsTouchedKey(call.Outcome(before, config).touched, config, key)
  }

  /** Runs of echoing Agents one after the other, completed or broken off, in which nothing strands. */
  ghost predicate RunsLead(summaryAgent: SummaryAgent, history: seq<HistoryRow>, config: Config, calls: seq<Call>, tables: seq<Tables>) {
    && |tables| == |calls| + 1
    && forall i :: 0 <= i < |calls| ==> RunLeads(summaryAgent, history, config, calls[i], tables[i], tables[i + 1])
  }

  ghost predicate RunLeads(summaryAgent: SummaryAgent, history: seq<HistoryRow>, config: Config, call: Call, before: Tables, after: Tables) {
    && EchoesRows(call.agent, history) && Subset(call.candidates, history)
    && NothingStrands(call.candidates, before.results, config)
    && Goes(summaryAgent, call, config, before, after)
  }

  /** A run that does not touch a summary leaves it right or wrong as it was, as long as some row needs it. */
  lemma UntouchedRunChangesNothing(
      summaryAgent: SummaryAgent, history: seq<HistoryRow>, config: Config, call: Call, before: Tables, after: Tables, key: SummaryKey)
    requires RunLeads(summaryAgent, history, config, call, before, after) && !Touches(call, config, before, key)
    requires NeededKey(after.results, config, key)
    ensures NeededKey(before.results, config, key)
    ensures UpToDate(summaryAgent, after.results, after.summaries, key) <==> UpToDate(summaryAgent, before.results, before.summaries, key)
  {
    hide Marked, NothingStrands, RowsFor, IsTouchedKey, FoldItems;
    var outcome := call.Outcome(before, config);
    RunIsMarked(history, call.agent, before.results, call.candidates, config);
    if outcome.counters.saved > 0 {
      var k :| k in after.results && k.config == config
            && (key == OverallKey(after.results[k], config) || key == StockKey(after.results[k], config));
      NeededRowsStay(before.results, after.results, call.candidates, config, outcome.touched, k, key);
      if !Completes(summaryAgent, call, config, before, after) {
        var done :| Within(done, outcome.touched) && Resummarised(summaryAgent, after.results, before.summaries, after.summaries, done, config);
        UnreachedKeysStay(done, outcome.touched, config, key);
      }
    }
  }

  /** Over any sequence of runs that do not touch it, a missed summary stays wrong, and a right one right, while it is needed. */
  lemma {:induction false} MissedSummaryStaysUntilTouched(
      summaryAgent: SummaryAgent, history: seq<HistoryRow>, config: Config, calls: seq<Call>, tables: seq<Tables>, key: SummaryKey)
    requires RunsLead(summaryAgent, history, config, calls, tables)
    requires forall i :: 0 <= i < |calls| ==> !Touches(calls[i], config, tables[i], key)
    requires NeededKey(tables[|calls|].results, config, key)
    ensures UpToDate(summaryAgent, tables[|calls|].results, tables[|calls|].summaries, key)
            <==> UpToDate(summaryAgent, tables[0].results, tables[0].summaries, key)
    decreases |calls|
  {
    hide RunLeads, Touches, NeededKey, UpToDate;
    if calls != [] {
      var last := |calls| - 1;
      UntouchedRunChangesNothing(summaryAgent, history, config, calls[last], tables[last], tables[last + 1], key);
      MissedSummaryStaysUntilTouched(summaryAgent, history, config, calls[..last], tables[..last + 1], key);
    }
  }

  lemma CompletedTouchRepairs(summaryAgent: SummaryAgent, call: Call, config: Config, before: Tables, after: Tables, key: SummaryKey)
    requires Completes(summaryAgent, call, config, before, after) && Touches(call, config, before, key)
    ensures UpToDate(summaryAgent, after.results, after.summaries, key)
  {
    hide FoldItems;
  }

  /** The last run that touches a summary decides over the whole sequence: it is as that run left it, and right if
      that run completed. */
  lemma LastTouchDecides(
      summaryAgent: SummaryAgent, history: seq<HistoryRow>, config: Config, calls: seq<Call>, tables: seq<Tables>, key: SummaryKey, i: nat)
    requires RunsLead(summaryAgent, history, config, calls, tables) && i < |calls|
    requires Touches(calls[i], config, tables[i], key) && forall j :: i < j < |calls| ==> !Touches(calls[j], config, tables[j], key)
    requires NeededKey(tables[|calls|].results, config, key)
    ensures UpToDate(summaryAgent, tables[|calls|].results, tables[|calls|].summaries, key)
            <==> UpToDate(summaryAgent, tables[i + 1].results, tables[i + 1].summaries, key)
    ensures Completes(summaryAgent, calls[i], config, tables[i], tables[i + 1]) ==>
              UpToDate(summaryAgent, tables[|calls|].results, tables[|calls|].summaries, key)
  {
    hide RunLeads, Touches, NeededKey, UpToDate, Completes;
    var later, rest := calls[i + 1..], tables[i + 1..];
    forall j | 0 <= j < |later| ensures RunLeads(summaryAgent, history, config, later[j], rest[j], rest[j + 1]) {
      assert later[j] == calls[i + 1 + j] && rest[j] == tables[i + 1 + j] && rest[j + 1] == tables[i + 2 + j];
    }
    MissedSummaryStaysUntilTouched(summaryAgent, history, config, later, rest, key);
    if Completes(summaryAgent, calls[i], config, tables[i], tables[i + 1]) {
      CompletedTouchRepairs(summaryAgent, calls[i], config, tables[i], tables[i + 1], key);
    }
  }

  // ---------------------------------------------------------------- after a recomputation

  /** Only owners of the rows sent are touched. */
  ghost predicate TouchesOnly(touched: Touched, rows: seq<HistoryRow>) {
    forall owner :: owner in touched ==> exists r :: r in rows && r.owner == owner
  }

  lemma {:induction false} FoldTouchesOnly(batch: Batch, candidates: seq<HistoryRow>, config: Config, items: seq<BacktestItems.Item>)
    requires TouchesOnly(batch.touched, candidates) && forall i :: 0 <= i < |items| ==> Echoes(candidates, items[i])
    ensures TouchesOnly(FoldItems(batch, candidates, config, items).touched, candidates)
  {
    if items != [] {
      var last := |items| - 1;
      FoldTouchesOnly(batch, candidates, config, items[..last]);
      assert Echoes(candidates, items[last]);
    }
  }

  lemma {:induction false} BatchesTouchOnly(
      batch: Batch, agent: RunAgent, history: seq<HistoryRow>, all: seq<HistoryRow>, rows: seq<HistoryRow>, size: nat, config: Config)
    requires size >= 1 && EchoesRows(agent, history) && Subset(all, history) && Subset(rows, all) && TouchesOnly(batch.touched, all)
    ensures TouchesOnly(Batches(batch, agent, rows, size, config).touched, all)
    decreases |rows|
  {
    hide FoldItems;
    if rows != [] {
      var now := Take(rows, size);
      var reply := ReplyTo(agent, now);
      FoldTouchesOnly(WithErrors(Batch(batch.results, NOTHING, map[]), reply.errors), now, config, reply.items);
      BatchesTouchOnly(ExecuteBatch(batch, agent, now, config), agent, history, all, rows[|now|..], size, config);
    }
  }

  lemma EligibleRowsAreInScope(history: seq<HistoryRow>, cutoff: int, scope: Owner)
    ensures forall r :: r in Eligible(history, cutoff, scope) ==> InScope(r.owner, scope)
  {}

  /** How far a recomputation's refresh came. The deletion has left nothing behind for the summaries it touches, so
      agreement holds exactly when it reached all the touched ones that are needed. */
  ghost predicate RightWhereReached(summaryAgent: SummaryAgent, outcome: Batch, keptSummaries: Summaries, config: Config,
                                    after: Results, partly: Summaries)
  {
    exists done ::
      && Within(done, outcome.touched) && Resummarised(summaryAgent, after, keptSummaries, partly, done, config)
      && (Agrees(summaryAgent, after, partly, config) <==>
          forall key :: NeededKey(after, config, key) && IsTouchedKey(outcome.touched, config, key) ==> IsTouchedKey(done, config, key))
  }

  lemma BrokenOffRecomputation(
      history: seq<HistoryRow>, summaryAgent: SummaryAgent, runAgent: RunAgent, results: Results, summaries: Summaries,
      cutoff: int, size: nat, config: Config, scope: Owner, after: Results, partly: Summaries)
    requires size >= 1 && Ascending(history) && EchoesRows(runAgent, history)
    requires var rows := Eligible(history, cutoff, scope);
             && (scope.None? || (Agrees(summaryAgent, results, summaries, config)
                                 && NothingStrands(rows, KeepResults(results, config, scope), config)))
             && BreaksOff(summaryAgent, Batches(Batch(KeepResults(results, config, scope), NOTHING, map[]), runAgent, rows, size, config),
                          KeepSummaries(summaries, config, scope), config, after, partly)
    ensures var outcome := Batches(Batch(KeepResults(results, config, scope), NOTHING, map[]), runAgent,
                                   Eligible(history, cutoff, scope), size, config);
            && RightWhereReached(summaryAgent, outcome, KeepSummaries(summaries, config, scope), config, after, partly)
            && (scope.None? ==> forall key :: NeededKey(after, config, key) ==> IsTouchedKey(outcome.touched, config, key))
  {
    hide NothingStrands, Agrees, Batches, Marked, Resummarised, KeepResults, KeepSummaries, Eligible, Ascending, NeededKey, UpToDate,
      IsTouchedKey, Within, TouchesOnly;
    var rows, kept, keptSummaries := Eligible(history, cutoff, scope), KeepResults(results, config, scope), KeepSummaries(summaries, config, scope);
    KeptIsUnstranded(summaryAgent, results, summaries, rows, config, scope);
    EligibleAscends(history, cutoff, scope);
    RecomputationIsMarked(history, runAgent, kept, rows, size, config);
    EligibleRowsAreInScope(history, cutoff, scope);
    var touched := Batches(Batch(kept, NOTHING, map[]), runAgent, rows, size, config).touched;
    var done :| Within(done, touched) && Resummarised(summaryAgent, after, keptSummaries, partly, done, config);
    forall key | IsTouchedKey(touched, config, key) ensures !UpToDate(summaryAgent, after, keptSummaries, key) {
      TouchedSummariesAreGone(summaryAgent, after, summaries, rows, config, scope, touched, key);
    }
    ReachedOrMissing(summaryAgent, kept, after, keptSummaries, partly, rows, config, touched, done);
    if scope.None? {
      forall key | NeededKey(after, config, key) ensures IsTouchedKey(touched, config, key) {
        EverythingNeededIsTouched(results, after, rows, config, touched, key);
      }
    }
  }

  lemma RecomputationIsMarked(history: seq<HistoryRow>, runAgent: RunAgent, kept: Results, rows: seq<HistoryRow>, size: nat, config: Config)
    requires size >= 1 && EchoesRows(runAgent, history) && Subset(rows, history)
    ensures var outcome := Batches(Batch(kept, NOTHING, map[]), runAgent, rows, size, config);
            Marked(kept, outcome.results, rows, config, outcome.touched) && TouchesOnly(outcome.touched, rows)
  {
    hide Marked, Batches;
    var start := Batch(kept, NOTHING, map[]);
    NothingIsMarked(kept, rows, config);
    BatchesAreMarked(kept, start, runAgent, history, rows, rows, size, config);
    BatchesTouchOnly(start, runAgent, history, rows, rows, size, config);
  }

  /** If no touched summary was there before, agreement holds exactly when all needed touched ones were reached. */
  lemma ReachedOrMissing(
      agent: SummaryAgent, kept: Results, after: Results, keptSummaries: Summaries, partly: Summaries,
      rows: seq<HistoryRow>, config: Config, touched: Touched, done: Touched)
    requires NothingStrands(rows, kept, config) && Marked(kept, after, rows, config, touched)
    requires Agrees(agent, kept, keptSummaries, config)
    requires Within(done, touched) && Resummarised(agent, after, keptSummaries, partly, done, config)
    requires forall key :: IsTouchedKey(touched, config, key) ==> !UpToDate(agent, after, keptSummaries, key)
    ensures Agrees(agent, after, partly, config) <==>
            forall key :: NeededKey(after, config, key) && IsTouchedKey(touched, config, key) ==> IsTouchedKey(done, config, key)
  {
    hide Marked, NothingStrands, Resummarised, Within, Agrees, IsTouchedKey, UpToDate, NeededKey;
    BrokenOffAgreementIff(agent, kept, after, keptSummaries, partly, rows, config, touched, done);
  }

  lemma KeptIsUnstranded(agent: SummaryAgent, results: Results, summaries: Summaries, rows: seq<HistoryRow>, config: Config, scope: Owner)
    requires scope.None? || (Agrees(agent, results, summaries, config) && NothingStrands(rows, KeepResults(results, config, scope), config))
    ensures NothingStrands(rows, KeepResults(results, config, scope), config)
    ensures Agrees(agent, KeepResults(results, config, scope), KeepSummaries(summaries, config, scope), config)
  {
    if scope.Some? {
      DeletionKeepsAgreement(agent, results, summaries, config, scope, config);
    }
  }

  lemma TouchedSummariesAreGone(
      agent: SummaryAgent, after: Results, summaries: Summaries, rows: seq<HistoryRow>, config: Config, scope: Owner, touched: Touched, key: SummaryKey)
    requires TouchesOnly(touched, rows) && (forall r :: r in rows ==> InScope(r.owner, scope)) && IsTouchedKey(touched, config, key)
    ensures !UpToDate(agent, after, KeepSummaries(summaries, config, scope), key)
  {}

  lemma EverythingNeededIsTouched(
      results: Results, after: Results, rows: seq<HistoryRow>, config: Config, touched: Touched, key: SummaryKey)
    requires Marked(KeepResults(results, config, None), after, rows, config, touched) && NeededKey(after, config, key)
    ensures IsTouchedKey(touched, config, key)
  {
    var k :| k in after && k.config == config && (key == OverallKey(after[k], config) || key == StockKey(after[k], config));
    assert WrittenFrom(rows, config, touched, k, after[k]);
  }
}
