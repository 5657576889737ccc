/** Copying the raw ad files and the keyword registry into the database
    tables (`scripts/migrate_to_supabase.py`).

    Each POST to the REST endpoint is replaced by its reply: it raised, or
    it came back with a status code. The raw files are given as their
    parsed contents, None for a file whose JSON could not be loaded. */
module MigrateToSupabase {
  import opened Wrappers
  import opened Records
  import Config
  import Scheduler

  /** `os.getenv(primary) or os.getenv(fallback)`: the primary variable when
      it is set and non-empty, else whatever the fallback holds. */
  function EnvOr(env: Config.Env, primary: string, fallback: string): (r: Option<string>)
    ensures primary in env && env[primary] != "" ==> r == Some(env[primary])
    ensures !(primary in env && env[primary] != "") && fallback in env ==> r == Some(env[fallback])
    ensures !(primary in env && env[primary] != "") && fallback !in env ==> r == None
  {
    if primary in env && env[primary] != "" then Some(env[primary])
    else if fallback in env then Some(env[fallback])
    else None
  }

  /** `get_supabase_config`: the URL and key, each falling back to its
      `NEXT_PUBLIC_*` variable. */
  function SupabaseConfig(env: Config.Env): (Option<string>, Option<string>) {
    (EnvOr(env, "SUPABASE_URL", "NEXT_PUBLIC_SUPABASE_URL"),
     EnvOr(env, "SUPABASE_KEY", "NEXT_PUBLIC_SUPABASE_ANON_KEY"))
  }

  /** Both values are present and non-empty (`if not url or not key`). */
  predicate Configured(env: Config.Env) {
    Truthy(SupabaseConfig(env).0) && Truthy(SupabaseConfig(env).1)
  }

  /** The reply to one upsert request. */
  datatype Reply = Raised | Status(code: int)

  /** The statuses `supabase_upsert` treats as saved; 409 (conflict) counts
      as saved too. */
  const SavedStatuses: set<int> := {200, 201, 204, 409}

  /** `supabase_upsert`'s verdict on a reply that came back. */
  predicate UpsertOk(code: int) { code in SavedStatuses }

  // ---------------------------------------------------------------------
  // Ads
  // ---------------------------------------------------------------------

  /** The row sent for one ad. */
  datatype AdRow = AdRow(
    keyword: string,
    pageName: string,
    adText: AdText,
    imageUrl: string,
    permanentImageUrl: Option<string>,
    landingUrl: Option<string>,
    collectedAt: string)

  /** The ad's first image URL when it has a non-empty one. */
  function FirstImage(ad: Ad): (r: Option<string>)
    ensures r.Some? <==> ad.imageUrls != [] && ad.imageUrls[0] != ""
    ensures r.Some? ==> r.value == ad.imageUrls[0]
  {
    if ad.imageUrls != [] && ad.imageUrls[0] != "" then Some(ad.imageUrls[0]) else None
  }

  /** The row for an ad with an image, under the file's query and with
      `now` as the fallback collection time. */
  function AdRowOf(query: string, ad: Ad, imageUrl: string, now: string): (r: AdRow)
    ensures r.keyword == query && r.imageUrl == imageUrl
    ensures r.pageName == ad.pageName.GetOr("Unknown")
    ensures r.adText == ad.adText.GetOr(Lines([]))
  {
    AdRow(query, ad.pageName.GetOr("Unknown"), ad.adText.GetOr(Lines([])), imageUrl,
          ad.permanentImageUrl, ad.landingUrl, ad.collectedAt.GetOr(now))
  }

  /** `data.get("query", "unknown")`. */
  function QueryOf(data: RawData): string { data.query.GetOr("unknown") }

  /** The counters and requests of one file after its first `k` ads: the
      rows sent, the saved and skipped counts, and whether an exception
      abandoned the rest of the file (at the ad whose request raised). */
  datatype FileRun = FileRun(sent: seq<AdRow>, saved: nat, skipped: nat, processed: nat, abandoned: bool)

  function RunFile(data: RawData, reply: nat -> Reply, now: string, k: nat): (r: FileRun)
    requires k <= |data.ads|
    ensures r.processed <= k && (!r.abandoned ==> r.processed == k)
    decreases k
  {
    if k == 0 then FileRun([], 0, 0, 0, false)
    else
      var prev := RunFile(data, reply, now, k - 1);
      var ad := data.ads[k - 1];
      if prev.abandoned then prev
      else match FirstImage(ad)
        case None => prev.(skipped := prev.skipped + 1, processed := k)
        case Some(url) =>
          var row := AdRowOf(QueryOf(data), ad, url, now);
          match reply(k - 1)
          case Raised => prev.(sent := prev.sent + [row], abandoned := true)
          case Status(code) =>
            if UpsertOk(code) then prev.(sent := prev.sent + [row], saved := prev.saved + 1, processed := k)
            else prev.(sent := prev.sent + [row], skipped := prev.skipped + 1, processed := k)
  }

  /** The inner loop of `migrate_ads_to_supabase` over one file's ads; an
      exception ends the file. */
  method MigrateFile(data: RawData, reply: nat -> Reply, now: string)
    returns (sent: seq<AdRow>, saved: nat, skipped: nat, abandoned: bool)
    ensures var run := RunFile(data, reply, now, |data.ads|);
            sent == run.sent && saved == run.saved && skipped == run.skipped && abandoned == run.abandoned
  {
    sent, saved, skipped, abandoned := [], 0, 0, false;
    var query := QueryOf(data);
    var i := 0;
    while i < |data.ads|
      invariant 0 <= i <= |data.ads|
      invariant RunFile(data, reply, now, i) == FileRun(sent, saved, skipped, i, false)
    {
      var ad := data.ads[i];
      var imageUrl := FirstImage(ad);
      if imageUrl.None? {
        skipped := skipped + 1;
      } else {
        var row := AdRowOf(query, ad, imageUrl.value, now);
        sent := sent + [row];
        var r := reply(i);
        if r.Raised? {
          abandoned := true;
          LaterAdsUntouched(data, reply, now, i + 1, |data.ads|);
          return;
        }
        if UpsertOk(r.code) {
          saved := saved + 1;
        } else {
          skipped := skipped + 1;
        }
      }
      i := i + 1;
    }
  }

  /** Once a file is abandoned nothing more of it is sent or counted. */
  lemma {:induction false} LaterAdsUntouched(data: RawData, reply: nat -> Reply, now: string, k: nat, n: nat)
    requires k <= n <= |data.ads|
    requires RunFile(data, reply, now, k).abandoned
    ensures RunFile(data, reply, now, n) == RunFile(data, reply, now, k)
    decreases n
  {
    if n > k {
      LaterAdsUntouched(data, reply, now, k, n - 1);
    }
  }

  /** The imaged ads among the first `k`, in order. */
  function ImagedAds(ads: seq<Ad>, k: nat): (r: seq<Ad>)
    requires k <= |ads|
    ensures forall j :: 0 <= j < |r| ==> FirstImage(r[j]).Some?
  {
    if k == 0 then []
    else ImagedAds(ads, k - 1) + (if FirstImage(ads[k - 1]).Some? then [ads[k - 1]] else [])
  }

  /** The ads a file's run reached: those it processed, and the one whose
      request raised when it was abandoned. */
  function Reached(run: FileRun): nat {
    if run.abandoned then run.processed + 1 else run.processed
  }

  /** `sent` holds, in order, the row of each ad of `imaged`. */
  predicate SentRows(sent: seq<AdRow>, imaged: seq<Ad>, query: string, now: string)
    requires forall j :: 0 <= j < |imaged| ==> FirstImage(imaged[j]).Some?
  {
    |sent| == |imaged| &&
    forall j :: 0 <= j < |imaged| ==> sent[j] == AdRowOf(query, imaged[j], FirstImage(imaged[j]).value, now)
  }

  lemma SentRowsSnoc(sent: seq<AdRow>, imaged: seq<Ad>, query: string, now: string, ad: Ad)
    requires forall j :: 0 <= j < |imaged| ==> FirstImage(imaged[j]).Some?
    requires FirstImage(ad).Some? && SentRows(sent, imaged, query, now)
    ensures forall j :: 0 <= j < |imaged + [ad]| ==> FirstImage((imaged + [ad])[j]).Some?
    ensures SentRows(sent + [AdRowOf(query, ad, FirstImage(ad).value, now)], imaged + [ad], query, now)
  {
    var ext := imaged + [ad];
    forall j | 0 <= j < |ext| ensures FirstImage(ext[j]).Some? {
      if j < |imaged| { assert ext[j] == imaged[j]; }
    }
  }

  /** Every ad the file reached lands in exactly one of the two counters;
      exactly the ads with a non-empty first image URL are sent, in order,
      each as its row (the one whose request raised included). */
  lemma {:induction false} FileCountersAndRows(data: RawData, reply: nat -> Reply, now: string, k: nat)
    requires k <= |data.ads|
    ensures var run := RunFile(data, reply, now, k);
            run.saved + run.skipped == run.processed && Reached(run) <= k &&
            SentRows(run.sent, ImagedAds(data.ads, Reached(run)), QueryOf(data), now)
    decreases k
  {
    if k > 0 {
      FileCountersAndRows(data, reply, now, k - 1);
      var prev := RunFile(data, reply, now, k - 1);
      var run := RunFile(data, reply, now, k);
      if !prev.abandoned {
        assert prev.processed == k - 1;
        var ad := data.ads[k - 1];
        var before := ImagedAds(data.ads, k - 1);
        assert Reached(run) == k;
        if FirstImage(ad).Some? {
          var row := AdRowOf(QueryOf(data), ad, FirstImage(ad).value, now);
          assert run.sent == prev.sent + [row];
          assert ImagedAds(data.ads, k) == before + [ad];
          SentRowsSnoc(prev.sent, before, QueryOf(data), now, ad);
        } else {
          assert run.sent == prev.sent;
          assert ImagedAds(data.ads, k) == before;
        }
      }
    }
  }

  /** Totals over all files. */
  datatype AdsTotals = AdsTotals(sent: seq<AdRow>, saved: nat, skipped: nat)

  function RunFiles(files: seq<Option<RawData>>, reply: nat -> nat -> Reply, now: string, n: nat): (r: AdsTotals)
    requires n <= |files|
  {
    if n == 0 then AdsTotals([], 0, 0)
    else
      var prev := RunFiles(files, reply, now, n - 1);
      match files[n - 1]
      case None => prev
      case Some(data) =>
        var run := RunFile(data, reply(n - 1), now, |data.ads|);
        AdsTotals(prev.sent + run.sent, prev.saved + run.saved, prev.skipped + run.skipped)
  }

  /** How `migrate_ads_to_supabase` ends. */
  datatype AdsReport = AdsNotConfigured | AdsDone(totals: AdsTotals)

  /** `migrate_ads_to_supabase`: returns before reading any file when the
      URL or key is missing; otherwise every file is processed, and one
      whose JSON could not be read or whose processing raised is abandoned
      without stopping the others. */
  method MigrateAds(env: Config.Env, files: seq<Option<RawData>>, reply: nat -> nat -> Reply, now: string)
    returns (report: AdsReport)
    ensures !Configured(env) ==> report == AdsNotConfigured
    ensures Configured(env) ==> report == AdsDone(RunFiles(files, reply, now, |files|))
  {
    var (url, key) := SupabaseConfig(env);
    if !Truthy(url) || !Truthy(key) {
      return AdsNotConfigured;
    }
    var totals := AdsTotals([], 0, 0);
    var f := 0;
    while f < |files|
      invariant 0 <= f <= |files|
      invariant totals == RunFiles(files, reply, now, f)
    {
      ghost var prev := totals;
      if files[f].Some? {
        var sent, saved, skipped, _ := MigrateFile(files[f].value, reply(f), now);
        totals := AdsTotals(totals.sent + sent, totals.saved + saved, totals.skipped + skipped);
      }
      assert totals == RunFiles(files, reply, now, f + 1) by {
        assert RunFiles(files, reply, now, f + 1) ==
               match files[f]
               case None => prev
               case Some(data) =>
                 var run := RunFile(data, reply(f), now, |data.ads|);
                 AdsTotals(prev.sent + run.sent, prev.saved + run.saved, prev.skipped + run.skipped);
      }
      f := f + 1;
    }
    return AdsDone(totals);
  }

  /** A file's ads reach the counters in spite of an earlier file that
      could not be read or was abandoned: the totals add up file by file. */
  lemma {:induction false} TotalsAddUp(files: seq<Option<RawData>>, reply: nat -> nat -> Reply, now: string, n: nat)
    requires n <= |files|
    ensures var t := RunFiles(files, reply, now, n);
            t.saved + t.skipped <= CountAds(files, n) &&
            (forall f :: 0 <= f < n && files[f].Some? ==>
               !RunFile(files[f].value, reply(f), now, |files[f].value.ads|).abandoned) ==>
              t.saved + t.skipped == CountAds(files, n)
    decreases n
  {
    if n > 0 {
      TotalsAddUp(files, reply, now, n - 1);
      if files[n - 1].Some? {
        var data := files[n - 1].value;
        FileCountersAndRows(data, reply(n - 1), now, |data.ads|);
      }
    }
  }

  /** The ads of the readable files among the first `n`. */
  function CountAds(files: seq<Option<RawData>>, n: nat): nat
    requires n <= |files|
  {
    if n == 0 then 0
    else CountAds(files, n - 1) + (if files[n - 1].Some? then |files[n - 1].value.ads| else 0)
  }

  // ---------------------------------------------------------------------
  // Keywords
  // ---------------------------------------------------------------------

  /** The row sent for one registered keyword. */
  datatype KeywordRow = KeywordRow(query: string, country: string, adLimit: int, enabled: bool)

  function KeywordRowOf(kw: Scheduler.Keyword): (r: KeywordRow)
    ensures r.query == kw.query
    ensures kw.country.None? ==> r.country == "KR"
    ensures kw.limit.None? ==> r.adLimit == 50
    ensures kw.enabled.None? ==> r.enabled
  {
    KeywordRow(kw.query, kw.country.GetOr("KR"), kw.limit.GetOr(50), kw.enabled.GetOr(true))
  }

  /** How `migrate_keywords_to_supabase` ends: missing configuration, no
      registry file, every keyword sent, or an exception that escaped the
      function after the rows sent so far. */
  datatype KeywordsReport = KeywordsNotConfigured | NoRegistry | KeywordsDone(sent: seq<KeywordRow>, saved: nat)
                          | KeywordsRaised(sent: seq<KeywordRow>, saved: nat)

  function SavedCount(reply: nat -> Reply, n: nat): (c: nat)
    ensures c <= n
  {
    if n == 0 then 0
    else SavedCount(reply, n - 1) + (if reply(n - 1).Status? && UpsertOk(reply(n - 1).code) then 1 else 0)
  }

  function RowsOf(kws: seq<Scheduler.Keyword>): (r: seq<KeywordRow>)
    ensures |r| == |kws| && forall j :: 0 <= j < |kws| ==> r[j] == KeywordRowOf(kws[j])
  {
    seq(|kws|, j requires 0 <= j < |kws| => KeywordRowOf(kws[j]))
  }

  /** The first keyword whose request raised, or the keyword count. */
  function FirstRaised(reply: nat -> Reply, n: nat): (r: nat)
    ensures r <= n
    ensures forall j :: 0 <= j < r ==> reply(j).Status?
    ensures r < n ==> reply(r).Raised?
  {
    if n == 0 then 0
    else if FirstRaised(reply, n - 1) < n - 1 then FirstRaised(reply, n - 1)
    else if reply(n - 1).Raised? then n - 1
    else n
  }

  /** `migrate_keywords_to_supabase`: one row per registered keyword, in
      order, with the registry's defaults; `saved` counts the upserts that
      came back with a saved status. The loop has no exception handler, so
      a raised request ends the whole function. */
  method MigrateKeywords(env: Config.Env, registry: Option<Scheduler.KeywordsData>, reply: nat -> Reply)
    returns (report: KeywordsReport)
    ensures !Configured(env) ==> report == KeywordsNotConfigured
    ensures Configured(env) && registry.None? ==> report == NoRegistry
    ensures Configured(env) && registry.Some? ==>
              var kws := registry.value.keywords;
              var stop := FirstRaised(reply, |kws|);
              var sent := RowsOf(kws[..if stop < |kws| then stop + 1 else stop]);
              var saved := SavedCount(reply, stop);
              report == if stop < |kws| then KeywordsRaised(sent, saved) else KeywordsDone(sent, saved)
  {
    var (url, key) := SupabaseConfig(env);
    if !Truthy(url) || !Truthy(key) {
      return KeywordsNotConfigured;
    }
    if registry.None? {
      return NoRegistry;
    }
    var sent, saved, raised := SendKeywords(registry.value.keywords, reply);
    return if raised then KeywordsRaised(sent, saved) else KeywordsDone(sent, saved);
  }

  /** The loop of `migrate_keywords_to_supabase`: sends the rows in order
      and stops at the first request that raised, its row included. */
  method SendKeywords(keywords: seq<Scheduler.Keyword>, reply: nat -> Reply)
    returns (sent: seq<KeywordRow>, saved: nat, raised: bool)
    ensures var stop := FirstRaised(reply, |keywords|);
            raised == (stop < |keywords|) &&
            sent == RowsOf(keywords[..if raised then stop + 1 else stop]) &&
            saved == SavedCount(reply, stop)
  {
    sent, saved, raised := [], 0, false;
    var i := 0;
    while i < |keywords|
      invariant 0 <= i <= |keywords| && i <= FirstRaised(reply, |keywords|)
      invariant |sent| == i && (forall k :: 0 <= k < i ==> sent[k] == KeywordRowOf(keywords[k]))
      invariant saved == SavedCount(reply, i)
    {
      var row := KeywordRowOf(keywords[i]);
      sent := sent + [row];
      var r := reply(i);
      if r.Raised? {
        assert sent == RowsOf(keywords[..i + 1]);
        raised := true;
        return;
      }
      if UpsertOk(r.code) {
        saved := saved + 1;
      }
      i := i + 1;
    }
    assert sent == RowsOf(keywords[..i]);
  }
}
