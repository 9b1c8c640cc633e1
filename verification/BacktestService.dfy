/** The backtest service: incremental runs, full recomputation and the summaries both rebuild. */
module BacktestService {
  import opened Options
  import opened Basics
  import opened BacktestItems
  import opened RecomputeBatches
  import opened BacktestSummaries
  import opened BacktestAgreement
  import opened BacktestBrokenOff

  function BatchSize(requested: int): (size: nat)
    ensures 1 <= size <= 5000
    ensures 1 <= requested <= 5000 ==> size == requested
    ensures requested > 5000 ==> size == 5000
  {
    Min(Max(requested, 1), 5000)
  }

  lemma OneMoreKey(
      agent: SummaryAgent, results: Results, before: Summaries, mid: Summaries, done: Touched, more: Touched,
      config: Config, key: SummaryKey)
    requires Resummarised(agent, results, before, mid, done, config)
    requires forall k :: IsTouchedKey(more, config, k) <==> k == key || IsTouchedKey(done, config, k)
    ensures Resummarised(agent, results, before, mid[key := Expected(agent, results, key)], more, config)
  {}

  /** What folding a reply into empty totals means for results, totals and touched keys. */
  lemma FoldIsExact(before: Results, candidates: seq<HistoryRow>, config: Config, reply: RunReply)
    ensures var after := FoldItems(WithErrors(Batch(before, NOTHING, map[]), reply.errors), candidates, config, reply.items);
            && LastSavesStand(before, after.results, candidates, config, reply.items)
            && Tallied(Counters(0, 0, 0, reply.errors), after.counters, candidates, reply.items)
            && (DistinctIds(candidates) ==> TouchesExactly(after.touched, candidates, reply.items))
  {
    var start := WithErrors(Batch(before, NOTHING, map[]), reply.errors);
    LastSavesStandInAFold(start, candidates, config, reply.items);
    FoldTallies(start, candidates, config, reply.items);
    if DistinctIds(candidates) {
      FoldTouchesExactly(before, start.counters, candidates, config, reply.items);
    }
  }

  /** What was saved is touched, so a completed refresh leaves it with both its summaries. */
  lemma SavedHasItsSummaries(
      agent: SummaryAgent, before: Results, results: Results, summariesBefore: Summaries, summaries: Summaries, touched: Touched,
      candidates: seq<HistoryRow>, config: Config, items: seq<Item>, i: int, id: nat)
    requires LastSavesStand(before, results, candidates, config, items) && TouchesExactly(touched, candidates, items)
    requires Resummarised(agent, results, summariesBefore, summaries, touched, config) && IsLastSave(candidates, items, i, id)
    ensures ResultKey(id, config) in results && HasItsSummaries(agent, results, summaries, ResultKey(id, config))
  {
    hide HasSummary, UpToDate;
    var row := results[ResultKey(id, config)];
    var c :| c in candidates && c.id == items[i].historyId && IsKeyedBy(items[i], c, row.owner, row.code);
    assert KeyedBySome(candidates, items, row.owner, row.code);
    var overall, stock := OverallKey(row, config), StockKey(row, config);
    assert IsTouchedKey(touched, config, overall) && IsTouchedKey(touched, config, stock);
    UpToDateMeans(agent, results, summaries, overall);
    UpToDateMeans(agent, results, summaries, stock);
  }

  lemma DistinctCandidates(history: seq<HistoryRow>, candidates: seq<HistoryRow>)
    requires Ascending(history) && Subset(candidates, history)
    ensures DistinctIds(candidates)
  {}

  lemma SomethingWasSaved(before: Counters, after: Counters, candidates: seq<HistoryRow>, items: seq<Item>, i: int, id: nat)
    requires Tallied(before, after, candidates, items) && IsLastSave(candidates, items, i, id)
    ensures after.saved > before.saved
  {
    assert i in Counted(candidates, items, Saved);
  }

  class BacktestService {
    const summaryAgent: SummaryAgent
    const runAgent: RunAgent
    const history: seq<HistoryRow>
    var results: Results
    var summaries: Summaries
    ghost var sent: seq<HistoryRow>

    /** The history table has distinct positive ids, and the Agent restates the keys it was given. */
    ghost predicate WellKeyed() {
      Ascending(history) && (forall r :: r in history ==> r.id > 0) && EchoesKeys(summaryAgent)
    }

    /** The Agent's items carry the owner and the code of their rows, or leave them out. */
    ghost predicate Echoing() {
      EchoesRows(runAgent, history)
    }

    ghost predicate Settled(config: Config)
      reads this
    {
      Coherent(history, results, config) && Agrees(summaryAgent, results, summaries, config)
    }

    constructor (summaryAgent: SummaryAgent, runAgent: RunAgent, history: seq<HistoryRow>)
      ensures this.summaryAgent == summaryAgent && this.runAgent == runAgent && this.history == history
      ensures results == map[] && summaries == map[] && sent == []
    {
      this.summaryAgent := summaryAgent;
      this.runAgent := runAgent;
      this.history := history;
      results := map[];
      summaries := map[];
      sent := [];
    }

    /** computeSummaryViaAgent and upsertSummaryFromPayload: the row is stored under the key in the reply. `down` are the
        summaries whose call fails. */
    method RefreshSummary(key: SummaryKey, down: set<SummaryKey>) returns (ok: bool)
      requires EchoesKeys(summaryAgent)
      modifies this`summaries
      ensures ok <==> key !in down
      ensures summaries == if ok then old(summaries)[key := Expected(summaryAgent, results, key)] else old(summaries)
      ensures ok ==> HasSummary(summaryAgent, results, summaries, key)
    {
      UpToDateMeans(summaryAgent, results, summaries[key := Expected(summaryAgent, results, key)], key);
      if key in down {
        return false;
      }
      var reply := summaryAgent(key.scope, key.code, key.config, RowsFor(results, key));
      var stored := SummaryKey(key.owner, reply.scope.GetOr(key.scope), reply.code.GetOr(key.code), key.config);
      summaries := summaries[stored := reply.stats];
      return true;
    }

    /** None of the touched summaries' calls fails. */
    ghost predicate Reachable(down: set<SummaryKey>, touched: Touched, config: Config) {
      forall key :: key in down ==> !IsTouchedKey(touched, config, key)
    }

    /** recomputeSummaries: refreshes the touched summaries until a call fails; `done` are those it has reached. */
    method RecomputeSummaries(config: Config, touched: Touched, down: set<SummaryKey>) returns (ok: bool, ghost done: Touched)
      requires EchoesKeys(summaryAgent)
      modifies this`summaries
      ensures Resummarised(summaryAgent, results, old(summaries), summaries, done, config)
      ensures Within(done, touched) && (ok ==> done == touched)
      ensures ok <==> Reachable(down, touched, config)
    {
      var owners := touched.Keys;
      done := map[];
      while owners != {}
        invariant owners <= touched.Keys
        invariant done.Keys == touched.Keys - owners
        invariant forall o :: o in done ==> done[o] == touched[o]
        invariant forall key :: key in down ==> !IsTouchedKey(done, config, key)
        invariant Resummarised(summaryAgent, results, old(summaries), summaries, done, config)
      {
        var owner :| owner in owners;
        ghost var codes;
        ok, codes := RecomputeOwner(config, owner, touched[owner], down, old(summaries), done);
        if !ok {
          if codes.Some? {
            done := done[owner := codes.value];
          }
          return;
        }
        owners := owners - {owner};
        done := done[owner := touched[owner]];
      }
      assert done == touched;
      ok := true;
    }

    /** One round of the outer loop: the overall summary of an owner, then each touched code. If a call fails, `reached`
        are the codes done by then, or none if it was the overall one. */
    method RecomputeOwner(config: Config, owner: Owner, codes: set<string>, down: set<SummaryKey>, ghost before: Summaries, ghost done: Touched)
      returns (ok: bool, ghost reached: Option<set<string>>)
      requires EchoesKeys(summaryAgent) && owner !in done
      requires Resummarised(summaryAgent, results, before, summaries, done, config)
      modifies this`summaries
      ensures reached.Some? ==> reached.value <= codes
      ensures Resummarised(summaryAgent, results, before, summaries, if reached.Some? then done[owner := reached.value] else done, config)
      ensures ok ==> reached == Some(codes) && forall key :: key in down ==> !IsOwnersKey(owner, codes, config, key)
      ensures !ok ==> exists key :: key in down && IsOwnersKey(owner, codes, config, key)
    {
      hide Resummarised, Expected;
      var overall := SummaryKey(owner, Overall, OVERALL_CODE, config);
      OneMoreKey(summaryAgent, results, before, summaries, done, done[owner := {}], config, overall);
      ok := RefreshSummary(overall, down);
      if !ok {
        assert IsOwnersKey(owner, codes, config, overall);
        return false, None;
      }
      var todo := codes;
      assert codes - todo == {};
      while todo != {}
        invariant todo <= codes
        invariant Resummarised(summaryAgent, results, before, summaries, done[owner := codes - todo], config)
        invariant forall key :: key in down ==> !IsOwnersKey(owner, codes - todo, config, key)
      {
        var code :| code in todo;
        var key := SummaryKey(owner, Stock, code, config);
        OneMoreKey(summaryAgent, results, before, summaries, done[owner := codes - todo],
          done[owner := codes - (todo - {code})], config, key);
        ok := RefreshSummary(key, down);
        if !ok {
          assert IsOwnersKey(owner, codes, config, key);
          return false, Some(codes - todo);
        }
        todo := todo - {code};
      }
      assert codes - todo == codes;
      return true, Some(codes);
    }

    predicate IsOwnersKey(owner: Owner, codes: set<string>, config: Config, key: SummaryKey) {
      && key.config == config && key.owner == owner
      && (if key.scope.Overall? then key.code == OVERALL_CODE else key.code in codes)
    }

    /** executeBacktestCandidates: one call to the Agent, then one guarded upsert per item. */
    method ExecuteBacktestCandidates(candidates: seq<HistoryRow>, config: Config)
      returns (counters: Counters, touched: Touched)
      modifies this`results, this`sent
      ensures sent == old(sent) + candidates
      ensures var reply := ReplyTo(runAgent, candidates);
              var start := WithErrors(Batch(old(results), NOTHING, map[]), reply.errors);
              Batch(results, counters, touched) == FoldItems(start, candidates, config, reply.items)
      ensures var reply := ReplyTo(runAgent, candidates);
              && LastSavesStand(old(results), results, candidates, config, reply.items)
              && Tallied(Counters(0, 0, 0, reply.errors), counters, candidates, reply.items)
              && (DistinctIds(candidates) ==> TouchesExactly(touched, candidates, reply.items))
    {
      hide LastSavesStand, Tallied, TouchesExactly, DistinctIds;
      FoldIsExact(results, candidates, config, ReplyTo(runAgent, candidates));
      if candidates == [] {
        return NOTHING, map[];
      }
      var reply := runAgent(candidates);
      sent := sent + candidates;
      ghost var start := WithErrors(Batch(results, NOTHING, map[]), reply.errors);
      counters := Counters(0, 0, 0, reply.errors);
      touched := map[];
      assert reply.items[..0] == [];
      var i := 0;
      while i < |reply.items|
        invariant 0 <= i <= |reply.items|
        invariant sent == old(sent) + candidates
        invariant Batch(results, counters, touched) == FoldItems(start, candidates, config, reply.items[..i])
      {
        var item := reply.items[i];
        assert reply.items[..i + 1][..i] == reply.items[..i];
        var candidate := CandidateOf(candidates, item);
        if candidate.None? {
          counters := counters.(errors := counters.errors + 1);
        } else {
          counters := CountItem(counters, item);
          var owner := OwnerOf(item, candidate.value);
          var code := item.code.GetOr(candidate.value.code);
          touched := touched[owner := CodesOf(touched, owner) + {code}];
          if item.saves {
            results := results[ResultKey(candidate.value.id, config) := ResultRow(owner, code, item.payload)];
          }
        }
        i := i + 1;
      }
      assert reply.items[..i] == reply.items;
    }

    /**
     run, once its candidates are read: saves one batch and refreshes what it touched. If the Agent echoes, the
     summaries of every other configuration stay right, and those of this one exactly when no candidate strands;
     without `force` the candidate query leaves out what is stored, and they always stay right.
     */
    method Run(candidates: seq<HistoryRow>, config: Config, force: bool, down: set<SummaryKey>) returns (counters: Counters, ok: bool)
      requires WellKeyed() && Subset(candidates, history) && (!force ==> Unforced(results, config, candidates))
      modifies this`results, this`summaries, this`sent
      ensures ok <==> counters.saved == 0 || Reachable(down, Outcome(runAgent, old(results), candidates, config).touched, config)
      ensures ok ==> RunEnds(summaryAgent, runAgent, old(results), old(summaries), candidates, config, results, summaries)
      ensures !ok ==> BreaksOff(summaryAgent, Outcome(runAgent, old(results), candidates, config), old(summaries), config, results, summaries)
      ensures ok && Echoing() && old((!force || NothingStrands(candidates, results, config))
                                     && Agrees(summaryAgent, results, summaries, config)) ==>
                Agrees(summaryAgent, results, summaries, config)
      ensures !ok && Echoing() && old((!force || NothingStrands(candidates, results, config))
                                      && Agrees(summaryAgent, results, summaries, config)) ==>
                BrokeOffRight(summaryAgent, Outcome(runAgent, old(results), candidates, config), old(summaries), config, results, summaries)
      ensures ok && Echoing() ==> forall observed :: observed != config && old(Agrees(summaryAgent, results, summaries, observed)) ==>
                Agrees(summaryAgent, results, summaries, observed)
      ensures ok && Echoing() && old(Settled(config)) ==> Settled(config)
      ensures sent == old(sent) + candidates
      ensures var reply := ReplyTo(runAgent, candidates);
              && counters.completed + counters.insufficient + counters.errors
                   == reply.errors + |reply.items| + FailedSaves(candidates, reply.items)
              && counters.saved == |reply.items| - Rejected(candidates, reply.items) - FailedSaves(candidates, reply.items)
      ensures var reply := ReplyTo(runAgent, candidates);
              && LastSavesStand(old(results), results, candidates, config, reply.items)
              && Tallied(Counters(0, 0, 0, reply.errors), counters, candidates, reply.items)
              && (ok ==> forall i, id: nat :: IsLastSave(candidates, reply.items, i, id) ==>
                           ResultKey(id, config) in results && HasItsSummaries(summaryAgent, results, summaries, ResultKey(id, config)))
    {
      hide FoldItems, NothingStrands, Covered, Resummarised, EchoesRows, Agrees, Coherent, Ascending, Unforced, BrokeOffRight;
      hide LastSavesStand, Tallied, TouchesExactly, IsLastSave, HasItsSummaries;
      ghost var before, summariesBefore := results, summaries;
      var touched;
      counters, touched := ExecuteBacktestCandidates(candidates, config);
      ghost var reply := ReplyTo(runAgent, candidates);
      ghost var start := WithErrors(Batch(before, NOTHING, map[]), reply.errors);
      BatchAccounts(start, candidates, config, reply.items);
      NothingSavedNothingChanged(start, candidates, config, reply.items);
      ok := true;
      if counters.saved > 0 {
        ghost var done;
        ok, done := RecomputeSummaries(config, touched, down);
      }
      forall i, id: nat | ok && IsLastSave(candidates, reply.items, i, id)
        ensures ResultKey(id, config) in results && HasItsSummaries(summaryAgent, results, summaries, ResultKey(id, config))
      {
        SomethingWasSaved(Counters(0, 0, 0, reply.errors), counters, candidates, reply.items, i, id);
        DistinctCandidates(history, candidates);
        SavedHasItsSummaries(summaryAgent, before, results, summariesBefore, summaries, touched, candidates, config, reply.items, i, id);
      }
      if !force {
        UnforcedStrandsNothing(before, config, candidates);
      }
      if !ok && Echoing() && NothingStrands(candidates, before, config) && Agrees(summaryAgent, before, summariesBefore, config) {
        BrokenOffRun(history, summaryAgent, runAgent, before, summariesBefore, candidates, config, results, summaries);
      }
      if ok && Echoing() {
        if NothingStrands(candidates, before, config) && Agrees(summaryAgent, before, summariesBefore, config) {
          UnstrandedRun(history, summaryAgent, runAgent, before, summariesBefore, candidates, config, results, summaries);
        }
        forall observed | observed != config && Agrees(summaryAgent, before, summariesBefore, observed)
          ensures Agrees(summaryAgent, results, summaries, observed)
        {
          RunKeepsOtherConfigs(history, summaryAgent, runAgent, before, summariesBefore, candidates, config, results, summaries, observed);
        }
        if Coherent(history, before, config) && Agrees(summaryAgent, before, summariesBefore, config) {
          CoherentRowsStrandNothing(history, before, config);
          FewerRowsStrandNothing(history, candidates, before, config);
          RunKeepsCoherence(before, start.counters, candidates, config, reply.items);
          UnstrandedRun(history, summaryAgent, runAgent, before, summariesBefore, candidates, config, results, summaries);
        }
      }
    }

    lemma RunKeepsCoherence(before: Results, counters: Counters, candidates: seq<HistoryRow>, config: Config, items: seq<Item>)
      requires WellKeyed() && Subset(candidates, history) && Coherent(history, before, config)
      requires Echoing() && items == ReplyTo(runAgent, candidates).items
      ensures Coherent(history, FoldItems(Batch(before, counters, map[]), candidates, config, items).results, config)
    {
      EchoedFoldIsCovered(before, counters, history, candidates, config, items);
    }

    /**
     recomputeAll: clears the configuration for the scope, recomputes in batches, refreshes what was touched. If the
     Agent echoes and the refresh completes, it ends in agreement over all owners from any tables, and over one
     owner exactly when no row kept outside the scope would be stranded. If the refresh breaks off, agreement
     holds exactly when it had reached every needed summary.
     */
    method RecomputeAll(config: Config, cutoff: int, requestedSize: int, scope: Owner, down: set<SummaryKey>)
      returns (counters: Counters, processed: nat, ok: bool)
      requires WellKeyed()
      modifies this`results, this`summaries, this`sent
      ensures ok ==> RecomputeEnds(summaryAgent, runAgent, old(results), old(summaries), Eligible(history, cutoff, scope),
                                   BatchSize(requestedSize), config, scope, results, summaries)
      ensures !ok ==> BreaksOff(summaryAgent, RecomputeOutcome(old(results), config, cutoff, requestedSize, scope),
                                KeepSummaries(old(summaries), config, scope), config, results, summaries)
      ensures !ok && Echoing()
              && (scope.None? || old(NothingStrands(Eligible(history, cutoff, scope), KeepResults(results, config, scope), config)
                                     && Agrees(summaryAgent, results, summaries, config))) ==>
                RightWhereReached(summaryAgent, RecomputeOutcome(old(results), config, cutoff, requestedSize, scope),
                                  KeepSummaries(old(summaries), config, scope), config, results, summaries)
      ensures !ok && Echoing() && scope.None? ==> forall key :: NeededKey(results, config, key) ==>
                IsTouchedKey(RecomputeOutcome(old(results), config, cutoff, requestedSize, scope).touched, config, key)
      ensures ok <==> counters.saved == 0
                      || Reachable(down, RecomputeOutcome(old(results), config, cutoff, requestedSize, scope).touched, config)
      ensures ok && Echoing() && scope.None? ==> Settled(config)
      ensures ok && Echoing() && old(NothingStrands(Eligible(history, cutoff, scope), KeepResults(results, config, scope), config)
                               && Agrees(summaryAgent, results, summaries, config)) ==>
                Agrees(summaryAgent, results, summaries, config)
      ensures ok && Echoing() ==> forall observed :: observed != config && old(Agrees(summaryAgent, results, summaries, observed)) ==>
                Agrees(summaryAgent, results, summaries, observed)
      ensures ok && Echoing() && old(Settled(config)) ==> Settled(config)
      ensures sent == old(sent) + Eligible(history, cutoff, scope)
      ensures processed == |Eligible(history, cutoff, scope)|
      ensures counters == RecomputeOutcome(old(results), config, cutoff, requestedSize, scope).counters
      ensures BatchesStand(KeepResults(old(results), config, scope), results, runAgent, Eligible(history, cutoff, scope),
                           BatchSize(requestedSize), config)
    {
      hide BatchesStand;
      hide Batches, NothingStrands, Coherent, Resummarised, EchoesRows, Agrees, Eligible, Ascending, KeepResults, KeepSummaries,
        RightWhereReached, NeededKey;
      ghost var before, summariesBefore := results, summaries;
      results := KeepResults(results, config, scope);
      summaries := KeepSummaries(summaries, config, scope);
      ghost var start := Batch(results, NOTHING, map[]);
      ghost var rows := Eligible(history, cutoff, scope);
      var touched;
      counters, processed, touched := RunBatches(config, cutoff, BatchSize(requestedSize), scope);
      NothingSavedInAnyBatch(start, runAgent, rows, BatchSize(requestedSize), config);
      EligibleAscends(history, cutoff, scope);
      BatchesLeaveLastSaves(start, runAgent, rows, BatchSize(requestedSize), config);
      ok := true;
      if counters.saved > 0 {
        ghost var done;
        ok, done := RecomputeSummaries(config, touched, down);
      }
      if !ok && Echoing() && (scope.None? || (NothingStrands(rows, KeepResults(before, config, scope), config)
                                              && Agrees(summaryAgent, before, summariesBefore, config))) {
        BrokenOffRecomputation(history, summaryAgent, runAgent, before, summariesBefore, cutoff, BatchSize(requestedSize), config, scope,
          results, summaries);
      }
      if ok && Echoing() {
        RecomputationAgrees(before, summariesBefore, config, scope, rows, BatchSize(requestedSize), results, summaries);
      }
    }

    /** Results, totals and touched keys after the deletion and all batches. */
    function RecomputeOutcome(before: Results, config: Config, cutoff: int, requestedSize: int, scope: Owner): Batch {
      Batches(Batch(KeepResults(before, config, scope), NOTHING, map[]), runAgent, Eligible(history, cutoff, scope),
              BatchSize(requestedSize), config)
    }

    /** What `RecomputeEnds` means for the agreement, if the Agent echoes. */
    lemma RecomputationAgrees(before: Results, summariesBefore: Summaries, config: Config, scope: Owner, rows: seq<HistoryRow>,
                              size: nat, after: Results, resummarised: Summaries)
      requires WellKeyed() && Echoing() && size >= 1 && Subset(rows, history)
      requires RecomputeEnds(summaryAgent, runAgent, before, summariesBefore, rows, size, config, scope, after, resummarised)
      ensures NothingStrands(rows, KeepResults(before, config, scope), config) && Agrees(summaryAgent, before, summariesBefore, config) ==>
                Agrees(summaryAgent, after, resummarised, config)
      ensures forall observed :: observed != config && Agrees(summaryAgent, before, summariesBefore, observed) ==>
                Agrees(summaryAgent, after, resummarised, observed)
      ensures scope.None? || (Coherent(history, before, config) && Agrees(summaryAgent, before, summariesBefore, config)) ==>
                Coherent(history, after, config) && Agrees(summaryAgent, after, resummarised, config)
    {
      hide Batches, Coherent, Resummarised, EchoesRows, Agrees, Ascending, NothingStrands, RecomputeEnds;
      if NothingStrands(rows, KeepResults(before, config, scope), config) && Agrees(summaryAgent, before, summariesBefore, config) {
        UnstrandedRecomputation(history, summaryAgent, runAgent, before, summariesBefore, rows, size, config, scope, after, resummarised);
      }
      forall observed | observed != config && Agrees(summaryAgent, before, summariesBefore, observed)
        ensures Agrees(summaryAgent, after, resummarised, observed)
      {
        RecomputationKeepsOtherConfigs(history, summaryAgent, runAgent, before, summariesBefore, rows, size, config, scope,
          after, resummarised, observed);
      }
      if scope.None? || (Coherent(history, before, config) && Agrees(summaryAgent, before, summariesBefore, config)) {
        RecomputationSettles(summaryAgent, runAgent, history, before, summariesBefore, config, scope, rows, size, after, resummarised);
      }
    }

    /** The batch loop of recomputeAll. */
    method RunBatches(config: Config, cutoff: int, size: nat, scope: Owner)
      returns (counters: Counters, processed: nat, touched: Touched)
      requires size >= 1 && Ascending(history) && forall r :: r in history ==> r.id > 0
      modifies this`results, this`sent
      ensures sent == old(sent) + Eligible(history, cutoff, scope)
      ensures processed == |Eligible(history, cutoff, scope)|
      ensures Batch(results, counters, touched)
                == Batches(Batch(old(results), NOTHING, map[]), runAgent, Eligible(history, cutoff, scope), size, config)
    {
      hide Batches, ExecuteBatch, Above, Eligible, Ascending, Merge, FoldItems;
      ghost var rows := Eligible(history, cutoff, scope);
      ghost var todo := rows;
      ghost var target := Batches(Batch(results, NOTHING, map[]), runAgent, rows, size, config);
      EligibleAscends(history, cutoff, scope);
      AboveAll(rows, 0);
      var cursor: nat := 0;
      counters, processed, touched := NOTHING, 0, map[];
      while true
        invariant Above(rows, cursor) == todo
        invariant sent + todo == old(sent) + rows && processed + |todo| == |rows|
        invariant Batches(Batch(results, counters, touched), runAgent, todo, size, config) == target
        decreases |todo|
      {
        var candidates := QueryBatch(history, cutoff, scope, cursor, size);
        if |candidates| == 0 {
          break;
        }
        NextAbove(rows, cursor, |candidates|);
        assert todo == candidates + todo[|candidates|..];
        BatchesUnfold(Batch(results, counters, touched), runAgent, todo, size, config);
        counters, touched := RunBatch(candidates, config, counters, touched);
        todo := todo[|candidates|..];
        processed := processed + |candidates|;
        cursor := candidates[|candidates| - 1].id;
      }
      BatchesUnfold(Batch(results, counters, touched), runAgent, todo, size, config);
    }

    /** One round of it: a batch is sent and added to the totals. */
    method RunBatch(candidates: seq<HistoryRow>, config: Config, counters: Counters, touched: Touched)
      returns (totals: Counters, allTouched: Touched)
      modifies this`results, this`sent
      ensures sent == old(sent) + candidates
      ensures Batch(results, totals, allTouched)
                == ExecuteBatch(Batch(old(results), counters, touched), runAgent, candidates, config)
    {
      var batchCounters, batchTouched := ExecuteBacktestCandidates(candidates, config);
      totals := counters.Plus(batchCounters);
      allTouched := Merge(touched, batchTouched);
    }
  }

  /** Over all owners from any tables, over one owner from coherent rows in agreement: coherent rows in agreement. */
  lemma RecomputationSettles(
      agent: SummaryAgent, runAgent: RunAgent, history: seq<HistoryRow>, before: Results, summariesBefore: Summaries,
      config: Config, scope: Owner, rows: seq<HistoryRow>, size: nat, after: Results, resummarised: Summaries)
    requires size >= 1 && Ascending(history) && Subset(rows, history) && EchoesRows(runAgent, history)
    requires scope.None? || (Coherent(history, before, config) && Agrees(agent, before, summariesBefore, config))
    requires RecomputeEnds(agent, runAgent, before, summariesBefore, rows, size, config, scope, after, resummarised)
    ensures Coherent(history, after, config) && Agrees(agent, after, resummarised, config)
  {
    hide Batches, EchoesRows, Agrees, NothingStrands, Resummarised;
    var kept := KeepResults(before, config, scope);
    assert Coherent(history, kept, config);
    BatchesAreCovered(kept, Batch(kept, NOTHING, map[]), runAgent, history, rows, size, config);
    CoherentRowsStrandNothing(history, kept, config);
    FewerRowsStrandNothing(history, rows, kept, config);
    UnstrandedRecomputation(history, agent, runAgent, before, summariesBefore, rows, size, config, scope, after, resummarised);
  }
}
