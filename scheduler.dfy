/** The keyword registry and the daily collection run (`src/08_scheduler.py`).

    The registry file `data/keywords.json` is the one field of a class,
    `None` while the file does not exist. Counting today's images on disk
    and running the pipeline are replaced by what the run observes: the
    count before the loop, the count after the `j`-th pipeline call, and
    how the `j`-th call would end once entered. */
module Scheduler {
  import opened Wrappers
  import opened Text
  import Pipeline

  /** One registered keyword. Keys absent from the JSON object are None. */
  datatype Keyword = Keyword(query: string, country: Option<string>, limit: Option<int>, enabled: Option<bool>)

  /** The registry file: the keyword list, `schedule.time` and `daily_limit`. */
  datatype KeywordsData = KeywordsData(keywords: seq<Keyword>, scheduleTime: Option<string>, dailyLimit: Option<int>)

  const DefaultTime: string := "09:00"

  const DefaultDailyLimit: int := 20

  const DefaultKeywordLimit: int := 20

  /** `load_keywords`: the file's contents, or no keywords and the default
      schedule time when the file is missing. */
  function LoadKeywords(file: Option<KeywordsData>): (r: KeywordsData)
    ensures file.None? ==> r.keywords == [] && r.scheduleTime == Some(DefaultTime) && r.dailyLimit.None?
    ensures file.Some? ==> r == file.value
  {
    match file
    case None => KeywordsData([], Some(DefaultTime), None)
    case Some(data) => data
  }

  /** The time `start_scheduler` registers the daily job at. */
  function ScheduleTime(file: Option<KeywordsData>): (r: string)
    ensures file.None? ==> r == DefaultTime
    ensures file.Some? && file.value.scheduleTime.Some? ==> r == file.value.scheduleTime.value
  {
    LoadKeywords(file).scheduleTime.GetOr(DefaultTime)
  }

  predicate HasQuery(kws: seq<Keyword>, query: string) {
    exists k :: 0 <= k < |kws| && kws[k].query == query
  }

  /** The duplicate check of `add_keyword`: a scan for an entry with the query. */
  method FindQuery(kws: seq<Keyword>, query: string) returns (found: bool)
    ensures found <==> HasQuery(kws, query)
  {
    var i := 0;
    while i < |kws|
      invariant 0 <= i <= |kws|
      invariant forall k :: 0 <= k < i ==> kws[k].query != query
    {
      if kws[i].query == query {
        return true;
      }
      i := i + 1;
    }
    return false;
  }

  function OtherQuery(query: string): Keyword -> bool {
    (kw: Keyword) => kw.query != query
  }

  /** `remove_keyword`'s comprehension: the entries with another query, in order. */
  function WithoutQuery(kws: seq<Keyword>, query: string): (r: seq<Keyword>)
    ensures !HasQuery(r, query)
    ensures forall k :: 0 <= k < |kws| && kws[k].query != query ==> kws[k] in r
    ensures forall k :: 0 <= k < |r| ==> r[k] in kws
  {
    Filter(kws, OtherQuery(query))
  }

  /** Removing keeps the order of the entries that stay: it distributes
      over concatenation, and it leaves a list without the query as it is. */
  lemma WithoutQueryKeepsOrder(a: seq<Keyword>, b: seq<Keyword>, query: string)
    ensures WithoutQuery(a + b, query) == WithoutQuery(a, query) + WithoutQuery(b, query)
    ensures !HasQuery(a, query) ==> WithoutQuery(a, query) == a
  {
    FilterAppend(a, b, OtherQuery(query));
    if !HasQuery(a, query) {
      FilterAll(a, OtherQuery(query));
    }
  }

  /** The entry `add_keyword` appends. */
  function NewKeyword(query: string, country: string, limit: int): Keyword {
    Keyword(query, Some(country), Some(limit), Some(true))
  }

  /** Removing a keyword that was just added gives the list back. */
  lemma RemoveUndoesAdd(kws: seq<Keyword>, query: string, country: string, limit: int)
    requires !HasQuery(kws, query)
    ensures WithoutQuery(kws + [NewKeyword(query, country, limit)], query) == kws
  {
    WithoutQueryKeepsOrder(kws, [NewKeyword(query, country, limit)], query);
    assert WithoutQuery([NewKeyword(query, country, limit)], query) == [] by {
      assert !OtherQuery(query)(NewKeyword(query, country, limit));
    }
  }

  /** The registry file, read and written by the registration commands. */
  class KeywordRegistry {
    var file: Option<KeywordsData>

    constructor (initial: Option<KeywordsData>)
      ensures file == initial
    {
      file := initial;
    }

    function Keywords(): seq<Keyword>
      reads this
    {
      LoadKeywords(file).keywords
    }

    /** `add_keyword`: refuses a query that is already registered and
        leaves the file alone; otherwise appends one enabled entry at the
        end and saves, creating the file when it was missing. */
    method AddKeyword(query: string, country: string, limit: int) returns (added: bool)
      modifies this
      ensures added <==> !HasQuery(old(Keywords()), query)
      ensures !added ==> file == old(file)
      ensures added ==> file == Some(LoadKeywords(old(file)).(keywords := old(Keywords()) + [NewKeyword(query, country, limit)]))
    {
      var data := LoadKeywords(file);
      var found := FindQuery(data.keywords, query);
      if found {
        return false;
      }
      file := Some(data.(keywords := data.keywords + [NewKeyword(query, country, limit)]));
      return true;
    }

    /** `remove_keyword`: drops every entry with the query, keeps the others
        in order, and saves (creating the file when it was missing). */
    method RemoveKeyword(query: string)
      modifies this
      ensures file == Some(LoadKeywords(old(file)).(keywords := WithoutQuery(old(Keywords()), query)))
      ensures !HasQuery(Keywords(), query)
    {
      var data := LoadKeywords(file);
      file := Some(data.(keywords := WithoutQuery(data.keywords, query)));
    }
  }

  // ---------------------------------------------------------------------
  // The daily collection run
  // ---------------------------------------------------------------------

  /** `kw.get("enabled", True)`: a missing flag means enabled. */
  predicate IsEnabled(kw: Keyword) { kw.enabled.GetOr(true) }

  function EnabledKeywords(kws: seq<Keyword>): (r: seq<Keyword>)
    ensures forall k :: 0 <= k < |r| ==> IsEnabled(r[k]) && r[k] in kws
    ensures forall k :: 0 <= k < |kws| && IsEnabled(kws[k]) ==> kws[k] in r
  {
    Filter(kws, IsEnabled)
  }

  /** The keyword arguments the scheduler passes to the pipeline. */
  const SchedulerKwargs: seq<string> :=
    ["query", "country", "limit", "headless", "image_only", "skip_download", "skip_upload", "skip_sheets"]

  /** What a run observes from outside: how the `j`-th pipeline call
      would end once entered, and the image count read after it. */
  datatype SchedWorld = SchedWorld(pipeline: nat -> Pipeline.Outcome, countAfter: nat -> nat)

  /** The arguments of one pipeline call. */
  datatype Request = Request(query: string, country: string, limit: int)

  /** One iteration that reached the pipeline: what was requested, the
      running total before it, and whether the call returned. */
  datatype Attempt = Attempt(request: Request, totalBefore: int, returned: bool)

  /** The request for a keyword under a running total: the keyword's own
      limit (20 when absent), cut to the remaining quota. */
  function RequestFor(kw: Keyword, dailyLimit: int, total: int): (r: Request)
    ensures r.limit <= dailyLimit - total && r.limit <= kw.limit.GetOr(DefaultKeywordLimit)
    ensures r.limit == dailyLimit - total || r.limit == kw.limit.GetOr(DefaultKeywordLimit)
    ensures r.query == kw.query && r.country == kw.country.GetOr("KR")
  {
    Request(kw.query, kw.country.GetOr("KR"), Min(kw.limit.GetOr(DefaultKeywordLimit), dailyLimit - total))
  }

  /** Whether the `j`-th call returned: as written, a call with an
      undeclared keyword argument raises before the pipeline runs. */
  predicate Returned(w: SchedWorld, j: nat) {
    Pipeline.Call(SchedulerKwargs, w.pipeline(j)).Returned?
  }

  /** The loop over the enabled keywords from position `j` on, under the
      running total `total`: the attempts it makes and the final total.
      It stops before the first keyword met at or over the ceiling. The
      `j`-th keyword is the `j`-th pipeline call. */
  datatype Tail = Tail(attempts: seq<Attempt>, total: int)

  function Collect(w: SchedWorld, kws: seq<Keyword>, dailyLimit: int, total: int, j: nat): (r: Tail)
    requires j <= |kws|
    ensures |r.attempts| <= |kws| - j
    decreases |kws| - j
  {
    if j == |kws| || total >= dailyLimit then Tail([], total)
    else
      var ok := Returned(w, j);
      var next := if ok then w.countAfter(j) else total;
      var rest := Collect(w, kws, dailyLimit, next, j + 1);
      Tail([Attempt(RequestFor(kws[j], dailyLimit, total), total, ok)] + rest.attempts, rest.total)
  }

  /** How a run ends: no keywords registered, the ceiling already
      reached, or the loop ran. */
  datatype Report = NoKeywords | LimitReached(already: nat) | Ran(attempts: seq<Attempt>, total: int)

  /** `run_scheduled_collection` for the registry's contents and the image
      count `already` found before the loop. */
  method RunScheduledCollection(file: Option<KeywordsData>, already: nat, w: SchedWorld) returns (report: Report)
    ensures var data := LoadKeywords(file);
            var dailyLimit := data.dailyLimit.GetOr(DefaultDailyLimit);
            report == if data.keywords == [] then NoKeywords
                      else if already >= dailyLimit then LimitReached(already)
                      else var t := Collect(w, EnabledKeywords(data.keywords), dailyLimit, already, 0);
                           Ran(t.attempts, t.total)
  {
    var data := LoadKeywords(file);
    var keywords := data.keywords;
    var dailyLimit := data.dailyLimit.GetOr(DefaultDailyLimit);
    if keywords == [] {
      return NoKeywords;
    }
    var enabled := EnabledKeywords(keywords);
    if already >= dailyLimit {
      return LimitReached(already);
    }
    var attempts, total := CollectEnabled(w, enabled, dailyLimit, already);
    return Ran(attempts, total);
  }

  /** The loop of `run_scheduled_collection` over the enabled keywords. */
  method CollectEnabled(w: SchedWorld, enabled: seq<Keyword>, dailyLimit: int, already: int)
    returns (attempts: seq<Attempt>, total: int)
    ensures Tail(attempts, total) == Collect(w, enabled, dailyLimit, already, 0)
  {
    ghost var full := Collect(w, enabled, dailyLimit, already, 0);
    total := already;
    attempts := [];
    var i := 0;
    while i < |enabled|
      invariant 0 <= i <= |enabled| && |attempts| == i
      invariant attempts + Collect(w, enabled, dailyLimit, total, i).attempts == full.attempts
      invariant Collect(w, enabled, dailyLimit, total, i).total == full.total
    {
      if total >= dailyLimit {
        assert attempts == full.attempts && total == full.total;
        break;
      }
      ghost var prev := attempts;
      var kw := enabled[i];
      var request := RequestFor(kw, dailyLimit, total);
      var outcome := Pipeline.Call(SchedulerKwargs, w.pipeline(i));
      var before := total;
      if outcome.Returned? {
        total := w.countAfter(i);
      }
      ghost var here := Collect(w, enabled, dailyLimit, before, i);
      ghost var rest := Collect(w, enabled, dailyLimit, total, i + 1);
      assert here.attempts == [Attempt(request, before, outcome.Returned?)] + rest.attempts;
      attempts := attempts + [Attempt(request, before, outcome.Returned?)];
      assert attempts + rest.attempts == prev + here.attempts by {
        assert attempts + rest.attempts == prev + ([Attempt(request, before, outcome.Returned?)] + rest.attempts);
      }
      i := i + 1;
    }
  }

  /** An attempt for keyword `kw`: its request is the keyword's, cut to
      the quota left before it, which is at least one; and it returned
      exactly when the pipeline call did. */
  predicate WithinQuota(a: Attempt, kw: Keyword, dailyLimit: int, returned: bool) {
    a.request == RequestFor(kw, dailyLimit, a.totalBefore) &&
    a.totalBefore < dailyLimit &&
    a.request.limit <= dailyLimit - a.totalBefore &&
    a.returned == returned
  }

  /** The attempts follow the enabled keywords in order, one each, and
      every request stays within the quota left when it was made and within
      the keyword's own limit; a total at or over the ceiling is never
      followed by another attempt. */
  lemma {:induction false} AttemptsWithinQuota(w: SchedWorld, kws: seq<Keyword>, dailyLimit: int, total: int, j: nat)
    requires j <= |kws|
    ensures forall k :: 0 <= k < |Collect(w, kws, dailyLimit, total, j).attempts| ==>
              WithinQuota(Collect(w, kws, dailyLimit, total, j).attempts[k], kws[j + k], dailyLimit, Returned(w, j + k))
    decreases |kws| - j
  {
    if j < |kws| && total < dailyLimit {
      var ok := Returned(w, j);
      var next := if ok then w.countAfter(j) else total;
      AttemptsWithinQuota(w, kws, dailyLimit, next, j + 1);
      var rest := Collect(w, kws, dailyLimit, next, j + 1);
      var t := Collect(w, kws, dailyLimit, total, j);
      var first := Attempt(RequestFor(kws[j], dailyLimit, total), total, ok);
      assert t.attempts == [first] + rest.attempts;
      assert WithinQuota(first, kws[j], dailyLimit, ok);
      forall k | 1 <= k < |t.attempts|
        ensures WithinQuota(t.attempts[k], kws[j + k], dailyLimit, Returned(w, j + k))
      {
        var k' := k - 1;
        assert t.attempts[k] == rest.attempts[k'] && k' < |rest.attempts|;
        assert WithinQuota(rest.attempts[k'], kws[j + 1 + k'], dailyLimit, Returned(w, j + 1 + k'));
        assert j + 1 + k' == j + k;
      }
    }
  }

  /** A request asks for at least one item whenever the keyword's own limit
      is positive. */
  lemma RequestIsPositive(kw: Keyword, dailyLimit: int, total: int)
    requires total < dailyLimit && kw.limit.GetOr(DefaultKeywordLimit) >= 1
    ensures 1 <= RequestFor(kw, dailyLimit, total).limit <= dailyLimit - total
  {
  }

  /** The running total changes only after a call that returned, and then
      becomes the count observed after that call; the loop stops early only
      at the ceiling. */
  lemma {:induction false} TotalFollowsObservations(w: SchedWorld, kws: seq<Keyword>, dailyLimit: int, total: int, j: nat)
    requires j <= |kws|
    ensures var t := Collect(w, kws, dailyLimit, total, j);
            (t.attempts != [] ==> t.attempts[0].totalBefore == total) &&
            (forall k :: 0 <= k < |t.attempts| - 1 ==>
               t.attempts[k + 1].totalBefore ==
                 (if t.attempts[k].returned then w.countAfter(j + k) else t.attempts[k].totalBefore)) &&
            (|t.attempts| < |kws| - j ==> t.total >= dailyLimit)
    decreases |kws| - j
  {
    if j < |kws| && total < dailyLimit {
      var ok := Returned(w, j);
      var next := if ok then w.countAfter(j) else total;
      TotalFollowsObservations(w, kws, dailyLimit, next, j + 1);
      var rest := Collect(w, kws, dailyLimit, next, j + 1);
      var t := Collect(w, kws, dailyLimit, total, j);
      assert t.attempts == [Attempt(RequestFor(kws[j], dailyLimit, total), total, ok)] + rest.attempts;
      forall k | 1 <= k < |t.attempts| - 1
        ensures t.attempts[k + 1].totalBefore ==
                  (if t.attempts[k].returned then w.countAfter(j + k) else t.attempts[k].totalBefore)
      {
        assert t.attempts[k] == rest.attempts[k - 1] && t.attempts[k + 1] == rest.attempts[k];
      }
    }
  }

  /** As written, every call raises: the scheduler passes keyword arguments
      the pipeline does not declare. The total then never moves, so every
      enabled keyword is attempted and none of them returns. */
  lemma {:induction false} AsWrittenEveryCallRaises(w: SchedWorld, kws: seq<Keyword>, dailyLimit: int, total: int, j: nat)
    requires j <= |kws| && total < dailyLimit
    ensures var t := Collect(w, kws, dailyLimit, total, j);
            |t.attempts| == |kws| - j && t.total == total &&
            forall k :: 0 <= k < |t.attempts| ==> !t.attempts[k].returned && t.attempts[k].totalBefore == total
    decreases |kws| - j
  {
    assert "skip_download" !in Pipeline.Parameters;
    assert !Pipeline.Accepts(SchedulerKwargs) by {
      assert SchedulerKwargs[5] == "skip_download";
    }
    if j < |kws| {
      AsWrittenEveryCallRaises(w, kws, dailyLimit, total, j + 1);
    }
  }
}
