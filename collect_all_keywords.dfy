/** Running the pipeline once for every keyword of the keyword table
    (`src/collect_all_keywords.py`).

    The environment is a map; the keyword table's REST reply and the
    outcome of the `j`-th pipeline call once entered are what the run
    observes. */
module CollectAllKeywords {
  import opened Wrappers
  import opened Text
  import Config
  import Pipeline

  /** The reply to the keyword query: a raised request, or a status code
      with the rows, each with its `query` field (None when absent, which
      raises `KeyError`). */
  datatype KeywordReply = RequestRaised | Reply(status: int, rows: seq<Option<string>>)

  /** Python truthiness of an environment variable. */
  predicate SetAndNonEmpty(env: Config.Env, key: string) { key in env && env[key] != "" }

  predicate AllPresent(rows: seq<Option<string>>) {
    forall k :: 0 <= k < |rows| ==> rows[k].Some?
  }

  /** `[item["query"] for item in data]`. */
  function Queries(rows: seq<Option<string>>): (r: seq<string>)
    requires AllPresent(rows)
    ensures |r| == |rows| && forall k :: 0 <= k < |rows| ==> r[k] == rows[k].value
  {
    seq(|rows|, k requires 0 <= k < |rows| => rows[k].value)
  }

  /** `get_keywords_from_supabase`: no keywords when the URL or key is
      unset or empty, when the request raised, when the status is not 200
      or when a row lacks its query; otherwise the queries in reply order. */
  function KeywordsFromTable(env: Config.Env, reply: KeywordReply): (r: seq<string>)
    ensures !SetAndNonEmpty(env, "SUPABASE_URL") || !SetAndNonEmpty(env, "SUPABASE_KEY") ==> r == []
    ensures reply.RequestRaised? || (reply.Reply? && reply.status != 200) ==> r == []
    ensures reply.Reply? && reply.status == 200 && !AllPresent(reply.rows) ==> r == []
    ensures SetAndNonEmpty(env, "SUPABASE_URL") && SetAndNonEmpty(env, "SUPABASE_KEY") &&
            reply.Reply? && reply.status == 200 && AllPresent(reply.rows) ==>
              |r| == |reply.rows| && forall k :: 0 <= k < |r| ==> Some(r[k]) == reply.rows[k]
  {
    if !SetAndNonEmpty(env, "SUPABASE_URL") || !SetAndNonEmpty(env, "SUPABASE_KEY") then []
    else match reply
      case RequestRaised => []
      case Reply(status, rows) =>
        if status == 200 && AllPresent(rows) then Queries(rows) else []
  }

  /** The keywords `main` runs: the stripped `MANUAL_QUERY` alone when it
      is not blank (the table is then not consulted), else the table's. */
  function SelectKeywords(env: Config.Env, reply: KeywordReply): (r: seq<string>)
    ensures Strip(if "MANUAL_QUERY" in env then env["MANUAL_QUERY"] else "") != "" ==>
              r == [Strip(env["MANUAL_QUERY"])]
    ensures Strip(if "MANUAL_QUERY" in env then env["MANUAL_QUERY"] else "") == "" ==>
              r == KeywordsFromTable(env, reply)
  {
    var manual := Strip(if "MANUAL_QUERY" in env then env["MANUAL_QUERY"] else "");
    if manual != "" then [manual] else KeywordsFromTable(env, reply)
  }

  /** The keyword arguments `main` passes to the pipeline. */
  const BatchKwargs: seq<string> := ["query", "country", "limit", "headless", "image_only", "skip_upload"]

  /** One entry of the results list: the keyword, whether the pipeline
      returned a truthy value, and whether the call raised (the entry then
      carries an `error`). */
  datatype KeywordResult = KeywordResult(keyword: string, success: bool, raised: bool)

  function ResultOf(keyword: string, outcome: Pipeline.Outcome): (r: KeywordResult)
    ensures r.keyword == keyword
    ensures r.success <==> outcome == Pipeline.Returned(true)
    ensures r.raised <==> outcome.Raised?
  {
    match outcome
    case Raised => KeywordResult(keyword, false, true)
    case Returned(t) => KeywordResult(keyword, t, false)
  }

  /** The results for the keywords, one each in order, when the `j`-th
      call's body ends as `pipeline(j)`. */
  function Results(keywords: seq<string>, pipeline: nat -> Pipeline.Outcome): (r: seq<KeywordResult>)
    ensures |r| == |keywords|
  {
    seq(|keywords|, j requires 0 <= j < |keywords| => ResultOf(keywords[j], Pipeline.Call(BatchKwargs, pipeline(j))))
  }

  function CountSucceeded(results: seq<KeywordResult>): (n: nat)
    ensures n <= |results|
  {
    if results == [] then 0
    else CountSucceeded(results[..|results| - 1]) + (if results[|results| - 1].success then 1 else 0)
  }

  /** How `main` ends: nothing to run, or the results and the summary counts. */
  datatype Report = NoKeywords | Ran(results: seq<KeywordResult>, successCount: nat, failCount: nat)

  /** `main`: runs every selected keyword, catching each call's exception. */
  method CollectAll(env: Config.Env, reply: KeywordReply, pipeline: nat -> Pipeline.Outcome) returns (report: Report)
    ensures SelectKeywords(env, reply) == [] ==> report == NoKeywords
    ensures SelectKeywords(env, reply) != [] ==>
              report.Ran? && report.results == Results(SelectKeywords(env, reply), pipeline) &&
              report.successCount == CountSucceeded(report.results) &&
              report.successCount + report.failCount == |report.results|
  {
    var keywords := SelectKeywords(env, reply);
    if keywords == [] {
      return NoKeywords;
    }
    var results := RunEach(keywords, pipeline);
    var successCount := SuccessCount(results);
    return Ran(results, successCount, |results| - successCount);
  }

  /** The loop of `main`: one result per keyword, in order. */
  method RunEach(keywords: seq<string>, pipeline: nat -> Pipeline.Outcome) returns (results: seq<KeywordResult>)
    ensures results == Results(keywords, pipeline)
  {
    results := [];
    var i := 0;
    while i < |keywords|
      invariant 0 <= i <= |keywords| && |results| == i
      invariant forall k :: 0 <= k < i ==> results[k] == ResultOf(keywords[k], Pipeline.Call(BatchKwargs, pipeline(k)))
    {
      var outcome := Pipeline.Call(BatchKwargs, pipeline(i));
      results := results + [ResultOf(keywords[i], outcome)];
      i := i + 1;
    }
  }

  /** `sum(1 for r in results if r.get("success"))`. */
  method SuccessCount(results: seq<KeywordResult>) returns (n: nat)
    ensures n == CountSucceeded(results)
  {
    n := 0;
    var i := 0;
    while i < |results|
      invariant 0 <= i <= |results|
      invariant n == CountSucceeded(results[..i])
    {
      assert results[..i + 1][..i] == results[..i];
      if results[i].success {
        n := n + 1;
      }
      i := i + 1;
    }
    assert results[..i] == results;
  }

  /** As written, every call raises before the pipeline runs, because
      `skip_upload` is not one of its parameters: every keyword is recorded
      as failed with an error, and the success count is zero. */
  lemma {:induction false} AsWrittenEveryKeywordFails(keywords: seq<string>, pipeline: nat -> Pipeline.Outcome)
    ensures var rs := Results(keywords, pipeline);
            CountSucceeded(rs) == 0 && forall k :: 0 <= k < |rs| ==> !rs[k].success && rs[k].raised
    decreases |keywords|
  {
    assert !Pipeline.Accepts(BatchKwargs) by {
      assert BatchKwargs[5] == "skip_upload";
      assert "skip_upload" !in Pipeline.Parameters;
    }
    var rs := Results(keywords, pipeline);
    forall k | 0 <= k < |rs| ensures !rs[k].success && rs[k].raised {
      assert Pipeline.Call(BatchKwargs, pipeline(k)) == Pipeline.Raised;
      assert rs[k] == ResultOf(keywords[k], Pipeline.Raised);
    }
    if keywords != [] {
      var init := keywords[..|keywords| - 1];
      AsWrittenEveryKeywordFails(init, pipeline);
      assert rs[..|rs| - 1] == Results(init, pipeline);
    }
  }
}
