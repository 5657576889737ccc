/** Uploading each ad's first image to an R2 bucket and recording its
    public URL on the ad (`src/03_upload_r2.py`).

    The ads of the raw file are an array updated in place, as the source
    updates the ad dictionaries. The network and the bucket are replaced by
    what the loop observes: the bytes downloaded for ad `i`, whether the
    existence check and the upload of ad `i` complete, and the set of
    object keys in the bucket. */
module UploadR2 {
  import opened Wrappers
  import opened Text
  import opened Records
  import Config

  const PublicUrlKey: string := "R2_PUBLIC_URL"

  /** `get_r2_public_url`: the required variable with trailing slashes removed. */
  function R2PublicUrl(env: Config.Env): (r: Result<string, Config.ConfigError>)
    ensures r.Ok? <==> PublicUrlKey in env && env[PublicUrlKey] != ""
    ensures r.Err? ==> r.error == Config.MissingEnv(PublicUrlKey)
    ensures r.Ok? ==> StartsWith(env[PublicUrlKey], r.value) && (r.value == [] || r.value[|r.value| - 1] != '/')
    ensures r.Ok? ==> forall k :: |r.value| <= k < |env[PublicUrlKey]| ==> env[PublicUrlKey][k] == '/'
  {
    match Config.RequiredEnv(env, PublicUrlKey)
    case Ok(v) => Ok(RStripChar(v, '/'))
    case Err(e) => Err(e)
  }

  /** What one run observes: the download of ad `i`; whether the client
      and `head_object` calls of the existence check for ad `i`'s key
      complete (any exception makes the check answer False); whether
      uploading it under a given key succeeds; the hash function, the date
      stamp and whether duplicates are skipped. */
  datatype World = World(
    download: nat -> Option<Bytes>,
    headOk: (nat, string) -> bool,
    uploadOk: (nat, string) -> bool,
    hash: Bytes -> Digest,
    date: string,
    skipDuplicates: bool)

  /** The loop's variables: the seen hashes, the bucket's keys and the counters. */
  datatype R2State = R2State(seen: set<Digest>, bucket: set<string>, uploaded: nat, skipped: nat, failed: nat)

  /** The counters returned by `process_raw_file_to_r2`. */
  datatype Summary = Summary(uploaded: nat, skipped: nat, failed: nat, total: nat)

  /** The key a new image is uploaded under: `<date>_<safe page name>_<hash[:8]>.png`. */
  function ObjectKey(date: string, pageName: string, h: Digest): string {
    date + "_" + SafeName(pageName, 20) + "_" + Prefix(h, 8) + ".png"
  }

  /** The key a duplicate is pointed at: `<date>_<hash[:8]>.png`, without
      the page-name segment of `ObjectKey`. */
  function DuplicateKey(date: string, h: Digest): string {
    date + "_" + Prefix(h, 8) + ".png"
  }

  /** `check_r2_exists`: True only when the key is in the bucket and the
      check's calls completed; False on any exception, so a key the check
      could not reach is uploaded again. */
  function KeyFound(w: World, st: R2State, i: nat, key: string): (r: bool)
    ensures r ==> key in st.bucket
  {
    key in st.bucket && w.headOk(i, key)
  }

  /** One iteration of the loop for the ad at position `i`: the ad as it is
      afterwards and the new loop state. */
  function Step(w: World, pub: string, st: R2State, i: nat, ad: Ad): (Ad, R2State)
  {
    if ad.imageUrls == [] then (ad, st)
    else if Truthy(ad.r2ImageUrl) then (ad, st.(skipped := st.skipped + 1))
    else if !Downloaded(w.download(i)) then (ad, st.(failed := st.failed + 1))
    else
      var h := w.hash(w.download(i).value);
      if w.skipDuplicates && h in st.seen then
        (ad.(r2ImageUrl := Some(pub + "/" + DuplicateKey(w.date, h))), st.(skipped := st.skipped + 1))
      else
        var seen := st.seen + {h};
        var key := ObjectKey(w.date, PageNameOr(ad), h);
        if KeyFound(w, st, i, key) then
          (ad.(r2ImageUrl := Some(pub + "/" + key)), st.(seen := seen, skipped := st.skipped + 1))
        else if w.uploadOk(i, key) then
          (ad.(r2ImageUrl := Some(pub + "/" + key)),
           st.(seen := seen, bucket := st.bucket + {key}, uploaded := st.uploaded + 1))
        else (ad, st.(seen := seen, failed := st.failed + 1))
  }

  /** The first `k` ads as the loop leaves them, and the state after them. */
  datatype R2Run = R2Run(ads: seq<Ad>, st: R2State)

  function Run(w: World, pub: string, ads: seq<Ad>, st0: R2State, k: nat): (r: R2Run)
    requires k <= |ads|
    ensures |r.ads| == k
  {
    if k == 0 then R2Run([], st0)
    else
      var prev := Run(w, pub, ads, st0, k - 1);
      var (a, st) := Step(w, pub, prev.st, k - 1, ads[k - 1]);
      R2Run(prev.ads + [a], st)
  }

  /** `process_raw_file_to_r2`: fails before touching any ad when the
      public URL is not configured; otherwise runs the loop over the ads in
      place, then writes the hash log (returned here) when deduplication is
      on and some hash was seen. */
  method ProcessRawFileToR2(env: Config.Env, w: World, ads: array<Ad>, log: Option<seq<Digest>>, bucket: set<string>)
    returns (r: Result<Summary, Config.ConfigError>, hashLog: Option<set<Digest>>, bucketAfter: set<string>)
    modifies ads
    ensures R2PublicUrl(env).Err? ==>
              r == Err(R2PublicUrl(env).error) && ads[..] == old(ads[..]) && hashLog.None? && bucketAfter == bucket
    ensures R2PublicUrl(env).Ok? ==>
              var run := Run(w, R2PublicUrl(env).value, old(ads[..]),
                             R2State(InitialSeen(w.skipDuplicates, log), bucket, 0, 0, 0), ads.Length);
              ads[..] == run.ads && hashLog == LogToWrite(w.skipDuplicates, run.st.seen) && bucketAfter == run.st.bucket &&
              r == Ok(Summary(run.st.uploaded, run.st.skipped, run.st.failed, ads.Length))
  {
    var publicUrl := R2PublicUrl(env);
    if publicUrl.Err? {
      return Err(publicUrl.error), None, bucket;
    }
    var pub := publicUrl.value;
    var st := UploadAds(w, pub, ads, R2State(InitialSeen(w.skipDuplicates, log), bucket, 0, 0, 0));
    bucketAfter := st.bucket;
    hashLog := LogToWrite(w.skipDuplicates, st.seen);
    r := Ok(Summary(st.uploaded, st.skipped, st.failed, ads.Length));
  }

  /** The loop of `process_raw_file_to_r2` over the ads, in place, from
      the seen set, bucket and counters `st0`. */
  method UploadAds(w: World, pub: string, ads: array<Ad>, st0: R2State) returns (st: R2State)
    modifies ads
    ensures var run := Run(w, pub, old(ads[..]), st0, ads.Length);
            ads[..] == run.ads && st == run.st
  {
    ghost var original := ads[..];
    var seenHashes, bucketAfter := st0.seen, st0.bucket;
    var uploaded, skipped, failed := st0.uploaded, st0.skipped, st0.failed;
    var i := 0;
    while i < ads.Length
      invariant 0 <= i <= ads.Length
      invariant ads[..i] == Run(w, pub, original, st0, i).ads
      invariant ads[i..] == original[i..]
      invariant R2State(seenHashes, bucketAfter, uploaded, skipped, failed) == Run(w, pub, original, st0, i).st
    {
      var ad := ads[i];
      assert ad == original[i];
      var newUrl, next := ProcessAd(w, pub, R2State(seenHashes, bucketAfter, uploaded, skipped, failed), i, ad);
      if newUrl.Some? {
        ads[i] := ad.(r2ImageUrl := newUrl);
      }
      seenHashes, bucketAfter := next.seen, next.bucket;
      uploaded, skipped, failed := next.uploaded, next.skipped, next.failed;
      assert ads[..i + 1] == ads[..i] + [ads[i]];
      i := i + 1;
    }
    assert ads[..] == ads[..i];
    st := R2State(seenHashes, bucketAfter, uploaded, skipped, failed);
  }

  /** The body of the loop for the ad at position `i`: the URL to store in
      the ad, if any, and the new seen set, bucket and counters. */
  method ProcessAd(w: World, pub: string, st: R2State, i: nat, ad: Ad) returns (newUrl: Option<string>, next: R2State)
    ensures Step(w, pub, st, i, ad) == (if newUrl.Some? then ad.(r2ImageUrl := newUrl) else ad, next)
    ensures newUrl.Some? ==> StartsWith(newUrl.value, pub + "/")
  {
    newUrl, next := None, st;
    if ad.imageUrls == [] {
    } else if Truthy(ad.r2ImageUrl) {
      next := st.(skipped := st.skipped + 1);
    } else {
      var imageBytes := w.download(i);
      if !Downloaded(imageBytes) {
        next := st.(failed := st.failed + 1);
      } else {
        var imageHash := w.hash(imageBytes.value);
        if w.skipDuplicates && imageHash in st.seen {
          newUrl := Some(pub + "/" + DuplicateKey(w.date, imageHash));
          next := st.(skipped := st.skipped + 1);
        } else {
          var seenHashes := st.seen + {imageHash};
          var filename := ObjectKey(w.date, PageNameOr(ad), imageHash);
          var found := KeyFound(w, st, i, filename);
          if found {
            newUrl := Some(pub + "/" + filename);
            next := st.(seen := seenHashes, skipped := st.skipped + 1);
          } else if w.uploadOk(i, filename) {
            newUrl := Some(pub + "/" + filename);
            next := st.(seen := seenHashes, bucket := st.bucket + {filename}, uploaded := st.uploaded + 1);
          } else {
            next := st.(seen := seenHashes, failed := st.failed + 1);
          }
        }
      }
    }
    if newUrl.Some? {
      assert newUrl.value[..|pub + "/"|] == pub + "/";
    }
  }

  /** Every ad with images lands in exactly one of the three counters, and
      ads without images in none. */
  lemma {:induction false} CountersPartitionImagedAds(w: World, pub: string, ads: seq<Ad>, st0: R2State, k: nat)
    requires k <= |ads|
    ensures var st := Run(w, pub, ads, st0, k).st;
            st.uploaded + st.skipped + st.failed + NoImageCount(ads, k) == k + st0.uploaded + st0.skipped + st0.failed
  {
    if k > 0 {
      CountersPartitionImagedAds(w, pub, ads, st0, k - 1);
    }
  }

  /** What the loop may do to the ad at position `j`: change no field but
      `r2_image_url`, leave an ad without images or one that already has a
      URL as it is, and set a URL only under the public URL, namely
      `<public>/<date>_<hash[:8]>.png` for a duplicate of an earlier hash
      and `<public>/<date>_<safe name>_<hash[:8]>.png` otherwise, where the
      hash is that of the ad's downloaded image. */
  predicate AllowedUpdate(w: World, pub: string, j: nat, before: Ad, after: Ad) {
    after == before.(r2ImageUrl := after.r2ImageUrl)
    && (before.imageUrls == [] || Truthy(before.r2ImageUrl) ==> after == before)
    && (after.r2ImageUrl != before.r2ImageUrl ==>
          Downloaded(w.download(j)) &&
          (after.r2ImageUrl == Some(pub + "/" + DuplicateKey(w.date, w.hash(w.download(j).value))) ||
           after.r2ImageUrl == Some(pub + "/" + ObjectKey(w.date, PageNameOr(before), w.hash(w.download(j).value)))))
  }

  /** Each step is an allowed update; the URL it sets is the duplicate's
      exactly when the hash was already seen with deduplication on, and the
      full object key's otherwise. */
  lemma StepIsAllowed(w: World, pub: string, st: R2State, i: nat, ad: Ad)
    ensures AllowedUpdate(w, pub, i, ad, Step(w, pub, st, i, ad).0)
    ensures var after := Step(w, pub, st, i, ad).0;
            after.r2ImageUrl != ad.r2ImageUrl ==>
              var h := w.hash(w.download(i).value);
              (w.skipDuplicates && h in st.seen ==> after.r2ImageUrl == Some(pub + "/" + DuplicateKey(w.date, h))) &&
              (!(w.skipDuplicates && h in st.seen) ==>
                 after.r2ImageUrl == Some(pub + "/" + ObjectKey(w.date, PageNameOr(ad), h)))
  {
  }

  /** The ad at position `j` is left as the step at `j` leaves it, from the
      state the first `j` ads produced. */
  lemma {:induction false} RunAtPosition(w: World, pub: string, ads: seq<Ad>, st0: R2State, k: nat, j: nat)
    requires j < k <= |ads|
    ensures Run(w, pub, ads, st0, k).ads[j] == Step(w, pub, Run(w, pub, ads, st0, j).st, j, ads[j]).0
    decreases k
  {
    if j < k - 1 {
      RunAtPosition(w, pub, ads, st0, k - 1, j);
    }
  }

  /** A duplicate of a seen hash points at the date-and-hash key and is
      counted as skipped; nothing is uploaded. */
  lemma DuplicateGetsDuplicateKey(w: World, pub: string, st: R2State, i: nat, ad: Ad)
    requires ad.imageUrls != [] && !Truthy(ad.r2ImageUrl) && Downloaded(w.download(i))
    requires w.skipDuplicates && w.hash(w.download(i).value) in st.seen
    ensures Step(w, pub, st, i, ad) ==
            (ad.(r2ImageUrl := Some(pub + "/" + DuplicateKey(w.date, w.hash(w.download(i).value)))),
             st.(skipped := st.skipped + 1))
  {
  }

  /** A new hash whose key the existence check finds gets that key's URL
      and is counted as skipped; the bucket is unchanged and nothing is
      uploaded, but the hash is now seen. */
  lemma ExistingKeyIsSkipped(w: World, pub: string, st: R2State, i: nat, ad: Ad)
    requires ad.imageUrls != [] && !Truthy(ad.r2ImageUrl) && Downloaded(w.download(i))
    requires !(w.skipDuplicates && w.hash(w.download(i).value) in st.seen)
    requires KeyFound(w, st, i, ObjectKey(w.date, PageNameOr(ad), w.hash(w.download(i).value)))
    ensures var h := w.hash(w.download(i).value);
            Step(w, pub, st, i, ad) ==
            (ad.(r2ImageUrl := Some(pub + "/" + ObjectKey(w.date, PageNameOr(ad), h))),
             st.(seen := st.seen + {h}, skipped := st.skipped + 1))
  {
  }

  /** A new hash whose key the check does not find (absent, or the check
      raised) is uploaded; on success the ad gets the key's URL, the key
      joins the bucket and the upload is counted. */
  lemma UploadSetsKeyUrl(w: World, pub: string, st: R2State, i: nat, ad: Ad)
    requires ad.imageUrls != [] && !Truthy(ad.r2ImageUrl) && Downloaded(w.download(i))
    requires !(w.skipDuplicates && w.hash(w.download(i).value) in st.seen)
    requires var key := ObjectKey(w.date, PageNameOr(ad), w.hash(w.download(i).value));
             !KeyFound(w, st, i, key) && w.uploadOk(i, key)
    ensures var h := w.hash(w.download(i).value);
            var key := ObjectKey(w.date, PageNameOr(ad), h);
            Step(w, pub, st, i, ad) ==
            (ad.(r2ImageUrl := Some(pub + "/" + key)),
             st.(seen := st.seen + {h}, bucket := st.bucket + {key}, uploaded := st.uploaded + 1))
  {
  }

  /** An ad whose image could not be downloaded is counted as failed and
      left as it was. */
  lemma UndownloadedFails(w: World, pub: string, st: R2State, i: nat, ad: Ad)
    requires ad.imageUrls != [] && !Truthy(ad.r2ImageUrl) && !Downloaded(w.download(i))
    ensures Step(w, pub, st, i, ad) == (ad, st.(failed := st.failed + 1))
  {
  }

  /** Every ad the loop leaves behind is an allowed update of the original. */
  lemma {:induction false} OnlyTheUrlChanges(w: World, pub: string, ads: seq<Ad>, st0: R2State, k: nat)
    requires k <= |ads|
    ensures forall j :: 0 <= j < k ==> AllowedUpdate(w, pub, j, ads[j], Run(w, pub, ads, st0, k).ads[j])
  {
    if k > 0 {
      OnlyTheUrlChanges(w, pub, ads, st0, k - 1);
      StepIsAllowed(w, pub, Run(w, pub, ads, st0, k - 1).st, k - 1, ads[k - 1]);
    }
  }

  /** The seen set and the bucket only grow: the hash log written back
      holds every hash of the one loaded, and a hash is kept even when its
      upload failed. */
  lemma {:induction false} SeenOnlyGrows(w: World, pub: string, ads: seq<Ad>, st0: R2State, k: nat)
    requires k <= |ads|
    ensures st0.seen <= Run(w, pub, ads, st0, k).st.seen
    ensures st0.bucket <= Run(w, pub, ads, st0, k).st.bucket
  {
    if k > 0 {
      SeenOnlyGrows(w, pub, ads, st0, k - 1);
    }
  }

  /** A hash whose upload failed still counts as seen: a later ad with the
      same image content is treated as a duplicate. */
  lemma FailedUploadStaysSeen(w: World, pub: string, st: R2State, i: nat, ad: Ad)
    requires ad.imageUrls != [] && !Truthy(ad.r2ImageUrl) && Downloaded(w.download(i))
    requires w.hash(w.download(i).value) !in st.seen
    requires var key := ObjectKey(w.date, PageNameOr(ad), w.hash(w.download(i).value));
             !KeyFound(w, st, i, key) && !w.uploadOk(i, key)
    ensures Step(w, pub, st, i, ad).0 == ad
    ensures Step(w, pub, st, i, ad).1.failed == st.failed + 1
    ensures w.hash(w.download(i).value) in Step(w, pub, st, i, ad).1.seen
  {
  }
}
