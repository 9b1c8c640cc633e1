/**
 Backtest summaries are a cache over the result rows: an incremental run and a full recomputation both
 rebuild only the summaries of the owners and codes they touched.
 */
module BacktestSummaries {
  import opened Options
  import opened BacktestItems

  const OVERALL_CODE := "__overall__"

  datatype Scope = Overall | Stock

  datatype SummaryKey = SummaryKey(owner: Owner, scope: Scope, code: string, config: Config)

  type Rows = map<ResultKey, string>
  type Summaries = map<SummaryKey, string>

  /** The Agent may restate the scope and the code of the summary it computed. */
  datatype SummaryReply = SummaryReply(scope: Option<Scope>, code: Option<string>, stats: string)

  type SummaryAgent = (Scope, string, Config, Rows) -> SummaryReply

  function RowsFor(results: Results, key: SummaryKey): Rows {
    map k | k in results && k.config == key.config && results[k].owner == key.owner
            && (key.scope.Overall? || results[k].code == key.code)
      :: results[k].payload
  }

  function Expected(agent: SummaryAgent, results: Results, key: SummaryKey): string {
    agent(key.scope, key.code, key.config, RowsFor(results, key)).stats
  }

  ghost predicate EchoesKeys(agent: SummaryAgent) {
    forall scope, code, config, rows :: var reply := agent(scope, code, config, rows);
      reply.scope.GetOr(scope) == scope && reply.code.GetOr(code) == code
  }

  function OverallKey(row: ResultRow, config: Config): SummaryKey {
    SummaryKey(row.owner, Overall, OVERALL_CODE, config)
  }

  function StockKey(row: ResultRow, config: Config): SummaryKey {
    SummaryKey(row.owner, Stock, row.code, config)
  }

  ghost predicate UpToDate(agent: SummaryAgent, results: Results, summaries: Summaries, key: SummaryKey) {
    key in summaries && summaries[key] == Expected(agent, results, key)
  }

  /** Every stored row of this configuration has an overall and a per-stock summary computed from exactly the
      rows that match them now. */
  ghost predicate Agrees(agent: SummaryAgent, results: Results, summaries: Summaries, config: Config) {
    forall k :: k in results && k.config == config ==>
      && UpToDate(agent, results, summaries, OverallKey(results[k], config))
      && UpToDate(agent, results, summaries, StockKey(results[k], config))
  }

  /** The rows a summary is computed from: the payloads of this owner, configuration and, for one stock, code. */
  ghost predicate MatchingRows(results: Results, key: SummaryKey, rows: Rows) {
    forall k :: if k in results && k.config == key.config && results[k].owner == key.owner && (key.scope == Overall || results[k].code == key.code)
                then k in rows && rows[k] == results[k].payload
                else k !in rows
  }

  /** There is such a summary, and the Agent computed it from the rows that match now. */
  ghost predicate HasSummary(agent: SummaryAgent, results: Results, summaries: Summaries, key: SummaryKey) {
    && key in summaries
    && exists rows :: MatchingRows(results, key, rows) && summaries[key] == agent(key.scope, key.code, key.config, rows).stats
  }

  ghost predicate HasItsSummaries(agent: SummaryAgent, results: Results, summaries: Summaries, k: ResultKey)
    requires k in results
  {
    && HasSummary(agent, results, summaries, SummaryKey(results[k].owner, Overall, "__overall__", k.config))
    && HasSummary(agent, results, summaries, SummaryKey(results[k].owner, Stock, results[k].code, k.config))
  }

  lemma UpToDateMeans(agent: SummaryAgent, results: Results, summaries: Summaries, key: SummaryKey)
    ensures UpToDate(agent, results, summaries, key) <==> HasSummary(agent, results, summaries, key)
  {
    assert MatchingRows(results, key, RowsFor(results, key));
    forall rows | MatchingRows(results, key, rows) ensures rows == RowsFor(results, key) {
      assert forall k :: k in rows <==> k in RowsFor(results, key);
    }
  }

  /** Agreement: every stored result has its overall and its stock summary, each computed from exactly the matching rows. */
  lemma AgreementMeans(agent: SummaryAgent, results: Results, summaries: Summaries, config: Config)
    ensures Agrees(agent, results, summaries, config)
       <==> forall k :: k in results && k.config == config ==> HasItsSummaries(agent, results, summaries, k)
  {
    hide UpToDate, HasSummary;
    forall key ensures UpToDate(agent, results, summaries, key) <==> HasSummary(agent, results, summaries, key) {
      UpToDateMeans(agent, results, summaries, key);
    }
    forall k | k in results && k.config == config
      ensures HasItsSummaries(agent, results, summaries, k)
         <==> UpToDate(agent, results, summaries, OverallKey(results[k], config))
              && UpToDate(agent, results, summaries, StockKey(results[k], config))
    {}
  }

  predicate IsTouchedKey(touched: Touched, config: Config, key: SummaryKey) {
    && key.config == config && key.owner in touched
    && (if key.scope.Overall? then key.code == OVERALL_CODE else key.code in touched[key.owner])
  }

  /** What recomputeSummaries leaves behind. */
  ghost predicate Resummarised(
      agent: SummaryAgent, results: Results, before: Summaries, after: Summaries, touched: Touched, config: Config)
  {
    forall key :: if IsTouchedKey(touched, config, key) then UpToDate(agent, results, after, key)
                  else (key in after <==> key in before) && (key in before ==> after[key] == before[key])
  }

  /** The part of the touched keys that was refreshed before a summary call failed. */
  ghost predicate Within(done: Touched, touched: Touched) {
    forall owner :: owner in done ==> owner in touched && done[owner] <= touched[owner]
  }

  lemma UntouchedRowsAreTheSame(before: Results, after: Results, touched: Touched, config: Config, key: SummaryKey)
    requires Covered(before, after, config, touched)
    requires key.config != config || key.owner !in touched || (key.scope.Stock? && key.code !in touched[key.owner])
    ensures RowsFor(before, key) == RowsFor(after, key)
  {}

  lemma AgreementSurvivesForRow(
      agent: SummaryAgent, results: Results, summaries: Summaries, after: Results, resummarised: Summaries,
      touched: Touched, config: Config, observed: Config, k: ResultKey, key: SummaryKey)
    requires Agrees(agent, results, summaries, observed)
    requires Covered(results, after, config, touched)
    requires Resummarised(agent, after, summaries, resummarised, touched, config)
    requires k in after && k.config == observed
    requires key == OverallKey(after[k], observed) || key == StockKey(after[k], observed)
    ensures UpToDate(agent, after, resummarised, key)
  {
    if !IsTouchedKey(touched, config, key) {
      assert !(observed == config && IsTouched(touched, after[k]));
      assert k in results && results[k] == after[k];
      UntouchedRowsAreTheSame(results, after, touched, config, key);
      assert UpToDate(agent, results, summaries, key);
    }
  }

  /** Recomputing the touched summaries restores the agreement for every configuration. */
  lemma ResummarisingRestoresAgreement(
      agent: SummaryAgent, results: Results, summaries: Summaries, after: Results, resummarised: Summaries,
      touched: Touched, config: Config, observed: Config)
    requires Agrees(agent, results, summaries, observed)
    requires Covered(results, after, config, touched)
    requires Resummarised(agent, after, summaries, resummarised, touched, config)
    ensures Agrees(agent, after, resummarised, observed)
  {
    forall k | k in after && k.config == observed
      ensures UpToDate(agent, after, resummarised, OverallKey(after[k], observed))
      ensures UpToDate(agent, after, resummarised, StockKey(after[k], observed))
    {
      AgreementSurvivesForRow(agent, results, summaries, after, resummarised, touched, config, observed, k,
        OverallKey(after[k], observed));
      AgreementSurvivesForRow(agent, results, summaries, after, resummarised, touched, config, observed, k,
        StockKey(after[k], observed));
    }
  }
}
