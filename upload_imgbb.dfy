/** Uploading each ad's first image to imgbb and recording its permanent
    URL on the ad (`src/03_upload_images.py`).

    The ads are an array updated in place. The network is replaced by the
    bytes downloaded for ad `i` and the reply to its upload. */
module UploadImgbb {
  import opened Wrappers
  import opened Text
  import opened Records

  /** The parts of imgbb's reply the code reads: the HTTP status, the
      `success` flag and `data.url` (None when the key is absent). */
  datatype Reply = Reply(status: int, success: bool, url: Option<string>)

  /** `upload_to_imgbb`: the URL of the reply when the status is 200, the
      reply reports success and carries a URL; None otherwise, and None when
      the request raised (`reply` is None; an unset API key raises too). */
  function UploadToImgbb(reply: Option<Reply>): (r: Option<string>)
    ensures r.Some? <==> reply.Some? && reply.value.status == 200 && reply.value.success && reply.value.url.Some?
    ensures r.Some? ==> r == reply.value.url
  {
    match reply
    case None => None
    case Some(rep) => if rep.status == 200 && rep.success then rep.url else None
  }

  /** What one run observes: downloads by ad position, the reply to the
      upload of ad `i` under a given image name, the hash function, and
      whether duplicates are skipped. */
  datatype World = World(
    download: nat -> Option<Bytes>,
    reply: (nat, string) -> Option<Reply>,
    hash: Bytes -> Digest,
    skipDuplicates: bool)

  datatype ImgbbState = ImgbbState(seen: set<Digest>, uploaded: nat, skipped: nat, failed: nat)

  /** The counters returned by `process_raw_file_with_imgbb`. */
  datatype Summary = Summary(uploaded: nat, skipped: nat, failed: nat, total: nat)

  /** The image name sent with the upload: `<safe page name>_<hash[:8]>`. */
  function UploadName(pageName: string, h: Digest): (r: string)
    ensures |r| <= 29
    ensures StartsWith(r, SafeName(pageName, 20) + "_") && r[|SafeName(pageName, 20)| + 1..] == Prefix(h, 8)
  {
    var r := SafeName(pageName, 20) + "_" + Prefix(h, 8);
    assert r[..|SafeName(pageName, 20)| + 1] == SafeName(pageName, 20) + "_";
    r
  }

  /** One iteration of the loop for the ad at position `i`. */
  function Step(w: World, st: ImgbbState, i: nat, ad: Ad): (Ad, ImgbbState)
  {
    if ad.imageUrls == [] then (ad, st)
    else if Truthy(ad.permanentImageUrl) then (ad, st.(skipped := st.skipped + 1))
    else if !Downloaded(w.download(i)) then (ad, st.(failed := st.failed + 1))
    else
      var h := w.hash(w.download(i).value);
      if w.skipDuplicates && h in st.seen then (ad, st.(skipped := st.skipped + 1))
      else
        var seen := st.seen + {h};
        var url := UploadToImgbb(w.reply(i, UploadName(PageNameOr(ad), h)));
        if Truthy(url) then (ad.(permanentImageUrl := url), st.(seen := seen, uploaded := st.uploaded + 1))
        else (ad, st.(seen := seen, failed := st.failed + 1))
  }

  datatype ImgbbRun = ImgbbRun(ads: seq<Ad>, st: ImgbbState)

  /** The first `k` ads as the loop leaves them, and the state after them. */
  function Run(w: World, ads: seq<Ad>, st0: ImgbbState, k: nat): (r: ImgbbRun)
    requires k <= |ads|
    ensures |r.ads| == k
  {
    if k == 0 then ImgbbRun([], st0)
    else
      var prev := Run(w, ads, st0, k - 1);
      var (a, st) := Step(w, prev.st, k - 1, ads[k - 1]);
      ImgbbRun(prev.ads + [a], st)
  }

  /** `process_raw_file_with_imgbb`: updates the ads in place and returns
      the counters and the hash log to write back, if any. */
  method ProcessRawFileWithImgbb(w: World, ads: array<Ad>, log: Option<seq<Digest>>)
    returns (summary: Summary, hashLog: Option<set<Digest>>)
    modifies ads
    ensures var run := Run(w, old(ads[..]), ImgbbState(InitialSeen(w.skipDuplicates, log), 0, 0, 0), ads.Length);
            ads[..] == run.ads && hashLog == LogToWrite(w.skipDuplicates, run.st.seen) &&
            summary == Summary(run.st.uploaded, run.st.skipped, run.st.failed, ads.Length)
  {
    ghost var original := ads[..];
    ghost var st0 := ImgbbState(InitialSeen(w.skipDuplicates, log), 0, 0, 0);
    var seenHashes := InitialSeen(w.skipDuplicates, log);
    var uploaded, skipped, failed := 0, 0, 0;
    var i := 0;
    while i < ads.Length
      invariant 0 <= i <= ads.Length
      invariant ads[..i] == Run(w, original, st0, i).ads
      invariant ads[i..] == original[i..]
      invariant ImgbbState(seenHashes, uploaded, skipped, failed) == Run(w, original, st0, i).st
    {
      var ad := ads[i];
      assert ad == original[i];
      var newUrl, next := ProcessAd(w, ImgbbState(seenHashes, uploaded, skipped, failed), i, ad);
      if newUrl.Some? {
        ads[i] := ad.(permanentImageUrl := newUrl);
      }
      seenHashes, uploaded, skipped, failed := next.seen, next.uploaded, next.skipped, next.failed;
      assert ads[..i + 1] == ads[..i] + [ads[i]];
      i := i + 1;
    }
    assert ads[..] == ads[..i];
    hashLog := LogToWrite(w.skipDuplicates, seenHashes);
    summary := Summary(uploaded, skipped, failed, ads.Length);
  }

  /** The body of the loop for the ad at position `i`: the URL to store
      in the ad when its upload succeeded, and the new seen set and
      counters. */
  method ProcessAd(w: World, st: ImgbbState, i: nat, ad: Ad) returns (newUrl: Option<string>, next: ImgbbState)
    ensures Step(w, st, i, ad) == (if newUrl.Some? then ad.(permanentImageUrl := newUrl) else ad, next)
    ensures newUrl.Some? ==> Truthy(newUrl)
  {
    newUrl, next := None, st;
    if ad.imageUrls == [] {
    } else if Truthy(ad.permanentImageUrl) {
      next := st.(skipped := st.skipped + 1);
    } else {
      var imageBytes := w.download(i);
      if !Downloaded(imageBytes) {
        next := st.(failed := st.failed + 1);
      } else {
        var imageHash := w.hash(imageBytes.value);
        if w.skipDuplicates && imageHash in st.seen {
          next := st.(skipped := st.skipped + 1);
        } else {
          var seenHashes := st.seen + {imageHash};
          var name := UploadName(PageNameOr(ad), imageHash);
          var permanentUrl := UploadToImgbb(w.reply(i, name));
          if Truthy(permanentUrl) {
            newUrl := permanentUrl;
            next := st.(seen := seenHashes, uploaded := st.uploaded + 1);
          } else {
            next := st.(seen := seenHashes, failed := st.failed + 1);
          }
        }
      }
    }
  }

  /** Every ad with images lands in exactly one of the three counters, and
      ads without images in none. */
  lemma {:induction false} CountersPartitionImagedAds(w: World, ads: seq<Ad>, st0: ImgbbState, k: nat)
    requires k <= |ads|
    ensures var st := Run(w, ads, st0, k).st;
            st.uploaded + st.skipped + st.failed + NoImageCount(ads, k) == k + st0.uploaded + st0.skipped + st0.failed
  {
    if k > 0 {
      CountersPartitionImagedAds(w, ads, st0, k - 1);
    }
  }

  /** What the loop may do to the ad at position `j`: change no field but
      `permanent_image_url`, and set it only to the non-empty URL imgbb
      replied with for this ad's upload. That every successful upload does
      set it is `UploadedGetsUrl`. */
  predicate AllowedUpdate(w: World, j: nat, before: Ad, after: Ad) {
    after == before.(permanentImageUrl := after.permanentImageUrl)
    && (after.permanentImageUrl != before.permanentImageUrl ==>
          before.imageUrls != [] && !Truthy(before.permanentImageUrl) && Downloaded(w.download(j)) &&
          after.permanentImageUrl == UploadToImgbb(w.reply(j, UploadName(PageNameOr(before), w.hash(w.download(j).value)))) &&
          Truthy(after.permanentImageUrl))
  }

  /** Each ad the loop leaves behind is an allowed update of the original;
      and a duplicate hash (or a URL already present) leaves the ad as it was. */
  lemma {:induction false} OnlyTheUrlChanges(w: World, ads: seq<Ad>, st0: ImgbbState, k: nat)
    requires k <= |ads|
    ensures forall j :: 0 <= j < k ==> AllowedUpdate(w, j, ads[j], Run(w, ads, st0, k).ads[j])
  {
    if k > 0 {
      OnlyTheUrlChanges(w, ads, st0, k - 1);
    }
  }

  /** The ad at position `j` is left as the step at `j` leaves it, from the
      state the first `j` ads produced. */
  lemma {:induction false} RunAtPosition(w: World, ads: seq<Ad>, st0: ImgbbState, k: nat, j: nat)
    requires j < k <= |ads|
    ensures Run(w, ads, st0, k).ads[j] == Step(w, Run(w, ads, st0, j).st, j, ads[j]).0
    decreases k
  {
    if j < k - 1 {
      RunAtPosition(w, ads, st0, k - 1, j);
    }
  }

  /** An imaged ad without a permanent URL, whose image downloaded, that is
      not a skipped duplicate and whose upload returned a non-empty URL,
      gets that URL; the upload is counted and the hash is seen. */
  lemma UploadedGetsUrl(w: World, st: ImgbbState, i: nat, ad: Ad)
    requires ad.imageUrls != [] && !Truthy(ad.permanentImageUrl) && Downloaded(w.download(i))
    requires !(w.skipDuplicates && w.hash(w.download(i).value) in st.seen)
    requires Truthy(UploadToImgbb(w.reply(i, UploadName(PageNameOr(ad), w.hash(w.download(i).value)))))
    ensures var h := w.hash(w.download(i).value);
            Step(w, st, i, ad) ==
            (ad.(permanentImageUrl := UploadToImgbb(w.reply(i, UploadName(PageNameOr(ad), h)))),
             st.(seen := st.seen + {h}, uploaded := st.uploaded + 1))
  {
  }

  /** An upload that returned no URL (or an empty one) is counted as
      failed; the ad is unchanged and the hash is still seen. */
  lemma FailedUploadKeepsAd(w: World, st: ImgbbState, i: nat, ad: Ad)
    requires ad.imageUrls != [] && !Truthy(ad.permanentImageUrl) && Downloaded(w.download(i))
    requires !(w.skipDuplicates && w.hash(w.download(i).value) in st.seen)
    requires !Truthy(UploadToImgbb(w.reply(i, UploadName(PageNameOr(ad), w.hash(w.download(i).value)))))
    ensures Step(w, st, i, ad) == (ad, st.(seen := st.seen + {w.hash(w.download(i).value)}, failed := st.failed + 1))
  {
  }

  /** In a whole run, the ad at position `j` gets its upload's URL exactly
      when its image downloaded, it is not a duplicate of a hash seen
      before it, and the upload returned a non-empty URL. */
  lemma UrlSetExactlyWhenUploaded(w: World, ads: seq<Ad>, st0: ImgbbState, k: nat, j: nat)
    requires j < k <= |ads|
    requires ads[j].imageUrls != [] && !Truthy(ads[j].permanentImageUrl)
    ensures var after := Run(w, ads, st0, k).ads[j];
            var uploaded := Downloaded(w.download(j)) &&
                            !(w.skipDuplicates && w.hash(w.download(j).value) in Run(w, ads, st0, j).st.seen) &&
                            Truthy(UploadToImgbb(w.reply(j, UploadName(PageNameOr(ads[j]), w.hash(w.download(j).value)))));
            (uploaded ==> after == ads[j].(permanentImageUrl :=
                             UploadToImgbb(w.reply(j, UploadName(PageNameOr(ads[j]), w.hash(w.download(j).value)))))) &&
            (!uploaded ==> after == ads[j])
  {
    RunAtPosition(w, ads, st0, k, j);
  }

  /** A duplicate of a seen hash is counted as skipped and gets no URL. */
  lemma DuplicateGetsNoUrl(w: World, st: ImgbbState, i: nat, ad: Ad)
    requires ad.imageUrls != [] && !Truthy(ad.permanentImageUrl) && Downloaded(w.download(i))
    requires w.skipDuplicates && w.hash(w.download(i).value) in st.seen
    ensures Step(w, st, i, ad) == (ad, st.(skipped := st.skipped + 1))
  {
  }

  /** The seen set only grows: the log written back holds the loaded one. */
  lemma {:induction false} SeenOnlyGrows(w: World, ads: seq<Ad>, st0: ImgbbState, k: nat)
    requires k <= |ads|
    ensures st0.seen <= Run(w, ads, st0, k).st.seen
  {
    if k > 0 {
      SeenOnlyGrows(w, ads, st0, k - 1);
    }
  }
}
