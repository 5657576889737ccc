/** The raw ad record that every stage reads from and writes back to the
    per-run JSON file (`{collected_at, query, count, ads}`), and the oracle
    types that stand for downloads and hashing. */
module Records {
  import opened Wrappers

  /** Raw bytes of a downloaded image. */
  type Bytes = seq<bv8>

  /** A content hash written as hex text (MD5 in the source; the model keeps
      the hash function abstract and passes it in as a parameter). */
  type Digest = string

  /** `ad_text`: a single long line, or a list of them. */
  datatype AdText = Single(line: string) | Lines(lines: seq<string>)

  /** One ad object of the raw file. A key that is absent from the JSON
      object is `None` (or the empty list for the list-valued keys). */
  datatype Ad = Ad(
    index: Option<int>,
    pageName: Option<string>,
    adText: Option<AdText>,
    imageUrls: seq<string>,
    videoUrls: seq<string>,
    snapshotUrl: Option<string>,
    adId: Option<string>,
    collectedAt: Option<string>,
    permanentImageUrl: Option<string>,
    r2ImageUrl: Option<string>,
    // keys that only the ad-library API returns
    id: Option<string>,
    platforms: seq<string>,
    startTime: Option<string>,
    stopTime: Option<string>,
    landingUrl: Option<string>)

  /** An ad with only the keys that the page scraper fills in. */
  function ScrapedAd(index: int, collectedAt: string, pageName: Option<string>, adText: Option<AdText>,
                     imageUrls: seq<string>, videoUrls: seq<string>,
                     snapshotUrl: Option<string>, adId: Option<string>): Ad
  {
    Ad(Some(index), pageName, adText, imageUrls, videoUrls, snapshotUrl, adId, Some(collectedAt),
       None, None, None, [], None, None, None)
  }

  /** Python truthiness of an optional string value. */
  predicate Truthy(o: Option<string>) { o.Some? && o.value != "" }

  /** Whether a download returned usable bytes (`if not image_bytes` fails on
      None and on empty content alike). */
  predicate Downloaded(o: Option<Bytes>) { o.Some? && |o.value| > 0 }

  /** The seen-hash set a dedup upload loop starts from: the hashes of the
      hash-log file when deduplication is on and the file could be read
      (`log` is None when it is missing or unreadable), otherwise empty. */
  function InitialSeen(skipDuplicates: bool, log: Option<seq<Digest>>): (r: set<Digest>)
    ensures r == {} <== !skipDuplicates || log.None?
    ensures skipDuplicates && log.Some? ==> forall k :: 0 <= k < |log.value| ==> log.value[k] in r
    ensures forall h :: h in r ==> log.Some? && h in log.value
  {
    if skipDuplicates && log.Some? then set h | h in log.value else {}
  }

  /** The hashes written back to the hash log: only when deduplication is
      on and some hash was seen. */
  function LogToWrite(skipDuplicates: bool, seen: set<Digest>): (r: Option<set<Digest>>)
    ensures r.Some? <==> skipDuplicates && seen != {}
    ensures r.Some? ==> r.value == seen
  {
    if skipDuplicates && seen != {} then Some(seen) else None
  }

  /** `ad.get("page_name", "unknown")` */
  function PageNameOr(ad: Ad): string { ad.pageName.GetOr("unknown") }

  /** The number of ads without images among the first `k`. */
  function NoImageCount(ads: seq<Ad>, k: nat): nat
    requires k <= |ads|
  {
    if k == 0 then 0 else NoImageCount(ads, k - 1) + (if ads[k - 1].imageUrls == [] then 1 else 0)
  }

  /** A raw file: `collected_at`, `query` (absent keys are None) and `ads`. */
  datatype RawData = RawData(collectedAt: Option<string>, query: Option<string>, ads: seq<Ad>)

  /** One entry of an upload result list as the sheet writer reads it. A
      key that is absent is None. */
  datatype UploadResult = UploadResult(
    filename: Option<string>,
    localPath: Option<string>,
    status: Option<string>,
    imageHash: Option<string>,
    formulaUrl: Option<string>)
}
