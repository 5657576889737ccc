/** Downloading each ad's first image to the local image directory with
    content-hash deduplication (`src/02_fetch_creatives.py`).

    The network, the image decoder and the disk are replaced by what the
    loop observes of them: the bytes the download of ad `i`'s first image
    returns, whether saving that image succeeds, and the set of file names
    already present. */
module FetchCreatives {
  import opened Wrappers
  import opened Text
  import opened Records

  datatype Status = Success | Exists | Failed

  /** One entry of the result list. `filename` and `hash` are absent where
      the source's dictionary has no such key. */
  datatype FetchResult = FetchResult(
    adIndex: nat,
    pageName: string,
    imageUrl: string,
    status: Status,
    filename: Option<string>,
    hash: Option<Digest>)

  /** What one run observes: the downloads and saves by ad position, the
      hash function, the date stamp of the file names, and whether
      duplicates are skipped. */
  datatype World = World(
    download: nat -> Option<Bytes>,
    saveOk: nat -> bool,
    hash: Bytes -> Digest,
    date: string,
    skipDuplicates: bool)

  /** The loop's variables after some prefix of the ads: the results, the
      hashes seen, the duplicate count and the files on disk. */
  datatype FetchState = FetchState(results: seq<FetchResult>, seen: set<Digest>, skipped: nat, files: set<string>)

  /** `<date>_<page name sanitised to 20>_<hash[:8]>.png` */
  function ImageFileName(date: string, pageName: string, h: Digest): string
  {
    date + "_" + SafeName(pageName, 20) + "_" + Prefix(h, 8) + ".png"
  }

  /** The file name starts with the date stamp, ends in `.png`, and its
      page-name part holds at most 20 characters, each a letter, a digit
      or `_`. */
  lemma ImageFileNameShape(date: string, pageName: string, h: Digest)
    ensures var r := ImageFileName(date, pageName, h);
            StartsWith(r, date + "_") && EndsWith(r, ".png") &&
            r[|date| + 1..|date| + 1 + |SafeName(pageName, 20)|] == SafeName(pageName, 20)
    ensures |SafeName(pageName, 20)| <= 20
    ensures forall k :: 0 <= k < |SafeName(pageName, 20)| ==> IsAlnum(SafeName(pageName, 20)[k]) || SafeName(pageName, 20)[k] == '_'
  {
    var r := ImageFileName(date, pageName, h);
    assert r[..|date + "_"|] == date + "_";
    assert r[|r| - 4..] == ".png";
  }

  /** One iteration of `fetch_creatives_from_raw`'s loop, for the ad at
      position `i`. */
  function Step(w: World, st: FetchState, i: nat, ad: Ad): FetchState
  {
    if ad.imageUrls == [] then st
    else
      var pageName := PageNameOr(ad);
      var url := ad.imageUrls[0];
      var bytes := w.download(i);
      if !Downloaded(bytes) then
        st.(results := st.results + [FetchResult(i, pageName, url, Failed, None, None)])
      else
        var h := w.hash(bytes.value);
        if w.skipDuplicates && h in st.seen then st.(skipped := st.skipped + 1)
        else
          var seen := st.seen + {h};
          var filename := ImageFileName(w.date, pageName, h);
          if filename in st.files then
            FetchState(st.results + [FetchResult(i, pageName, url, Exists, Some(filename), Some(h))],
                       seen, st.skipped, st.files)
          else if w.saveOk(i) then
            FetchState(st.results + [FetchResult(i, pageName, url, Success, Some(filename), Some(h))],
                       seen, st.skipped, st.files + {filename})
          else
            FetchState(st.results + [FetchResult(i, pageName, url, Failed, None, Some(h))],
                       seen, st.skipped, st.files)
  }

  /** The state after the first `k` ads, starting from an empty seen set. */
  function Run(w: World, ads: seq<Ad>, files: set<string>, k: nat): FetchState
    requires k <= |ads|
  {
    if k == 0 then FetchState([], {}, 0, files)
    else Step(w, Run(w, ads, files, k - 1), k - 1, ads[k - 1])
  }

  /** `fetch_creatives_from_raw`: the results, the duplicate count and the
      files present afterwards, given those present before. */
  method FetchCreativesFromRaw(w: World, ads: seq<Ad>, files: set<string>)
    returns (results: seq<FetchResult>, skipped: nat, filesAfter: set<string>)
    ensures FetchState(results, Run(w, ads, files, |ads|).seen, skipped, filesAfter) == Run(w, ads, files, |ads|)
  {
    results := [];
    var seenHashes: set<Digest> := {};
    skipped := 0;
    filesAfter := files;
    var i := 0;
    while i < |ads|
      invariant 0 <= i <= |ads|
      invariant FetchState(results, seenHashes, skipped, filesAfter) == Run(w, ads, files, i)
    {
      var ad := ads[i];
      if ad.imageUrls != [] {
        var pageName := PageNameOr(ad);
        var imageUrl := ad.imageUrls[0];
        var imageBytes := w.download(i);
        if !Downloaded(imageBytes) {
          results := results + [FetchResult(i, pageName, imageUrl, Failed, None, None)];
        } else {
          var imageHash := w.hash(imageBytes.value);
          if w.skipDuplicates && imageHash in seenHashes {
            skipped := skipped + 1;
          } else {
            seenHashes := seenHashes + {imageHash};
            var filename := ImageFileName(w.date, pageName, imageHash);
            if filename in filesAfter {
              results := results + [FetchResult(i, pageName, imageUrl, Exists, Some(filename), Some(imageHash))];
            } else if w.saveOk(i) {
              filesAfter := filesAfter + {filename};
              results := results + [FetchResult(i, pageName, imageUrl, Success, Some(filename), Some(imageHash))];
            } else {
              results := results + [FetchResult(i, pageName, imageUrl, Failed, None, Some(imageHash))];
            }
          }
        }
      }
      i := i + 1;
    }
  }

  /** Every ad has exactly one fate: a result entry, a skipped duplicate, or
      no image at all. */
  lemma {:induction false} EveryAdAccountedFor(w: World, ads: seq<Ad>, files: set<string>, k: nat)
    requires k <= |ads|
    ensures |Run(w, ads, files, k).results| + Run(w, ads, files, k).skipped + NoImageCount(ads, k) == k
  {
    if k > 0 {
      EveryAdAccountedFor(w, ads, files, k - 1);
    }
  }

  /** One iteration adds at most one entry, and only for an ad with
      images: the entry for its position and its first image URL. */
  lemma StepAddsAtMostOne(w: World, st: FetchState, i: nat, ad: Ad)
    ensures var r := Step(w, st, i, ad).results;
            r == st.results ||
            (ad.imageUrls != [] && |r| == |st.results| + 1 && r[..|st.results|] == st.results &&
             r[|st.results|].adIndex == i && r[|st.results|].imageUrl == ad.imageUrls[0])
  {
  }

  /** Result entries come in strictly increasing ad order, each for an ad
      with images, and each records that ad's first image URL. */
  lemma {:induction false} ResultsFollowAds(w: World, ads: seq<Ad>, files: set<string>, k: nat)
    requires k <= |ads|
    ensures forall j :: 0 <= j < |Run(w, ads, files, k).results| ==>
              var e := Run(w, ads, files, k).results[j];
              e.adIndex < k && ads[e.adIndex].imageUrls != [] && e.imageUrl == ads[e.adIndex].imageUrls[0]
    ensures forall j1, j2 :: 0 <= j1 < j2 < |Run(w, ads, files, k).results| ==>
              Run(w, ads, files, k).results[j1].adIndex < Run(w, ads, files, k).results[j2].adIndex
  {
    if k > 0 {
      ResultsFollowAds(w, ads, files, k - 1);
      var prev := Run(w, ads, files, k - 1).results;
      var cur := Run(w, ads, files, k).results;
      StepAddsAtMostOne(w, Run(w, ads, files, k - 1), k - 1, ads[k - 1]);
      if cur != prev {
        forall j | 0 <= j < |prev| ensures cur[j] == prev[j] {
          assert cur[..|prev|][j] == prev[j];
        }
      }
    }
  }

  /** The seen set is exactly the set of hashes recorded in the results: a
      failed download adds nothing to it, while a hash stays seen even when
      saving its image failed. */
  lemma {:induction false} SeenIsRecordedHashes(w: World, ads: seq<Ad>, files: set<string>, k: nat)
    requires k <= |ads|
    ensures forall h :: h in Run(w, ads, files, k).seen <==>
              exists j :: 0 <= j < |Run(w, ads, files, k).results| && Run(w, ads, files, k).results[j].hash == Some(h)
  {
    if k > 0 {
      SeenIsRecordedHashes(w, ads, files, k - 1);
      var prev := Run(w, ads, files, k - 1);
      var cur := Run(w, ads, files, k);
      assert prev.results <= cur.results;
      forall h | h in cur.seen
        ensures exists j :: 0 <= j < |cur.results| && cur.results[j].hash == Some(h)
      {
        if h in prev.seen {
          var j :| 0 <= j < |prev.results| && prev.results[j].hash == Some(h);
          assert cur.results[j] == prev.results[j];
        } else {
          assert cur.results[|cur.results| - 1].hash == Some(h);
        }
      }
      forall h, j | 0 <= j < |cur.results| && cur.results[j].hash == Some(h)
        ensures h in cur.seen
      {
        if j < |prev.results| {
          assert prev.results[j] == cur.results[j];
        }
      }
    }
  }

  /** With duplicates skipped, no two result entries carry the same hash:
      each image content is handled at most once per call. */
  lemma {:induction false} HashesDistinctWhenSkipping(w: World, ads: seq<Ad>, files: set<string>, k: nat)
    requires k <= |ads| && w.skipDuplicates
    ensures forall j1, j2 | 0 <= j1 < j2 < |Run(w, ads, files, k).results| ::
              Run(w, ads, files, k).results[j1].hash.Some? ==>
              Run(w, ads, files, k).results[j1].hash != Run(w, ads, files, k).results[j2].hash
  {
    if k > 0 {
      HashesDistinctWhenSkipping(w, ads, files, k - 1);
      SeenIsRecordedHashes(w, ads, files, k - 1);
      var prev := Run(w, ads, files, k - 1);
      var cur := Run(w, ads, files, k);
      assert prev.results <= cur.results;
      if |cur.results| > |prev.results| {
        var last := cur.results[|cur.results| - 1];
        forall j | 0 <= j < |prev.results| && prev.results[j].hash.Some?
          ensures prev.results[j].hash != last.hash
        {
          assert prev.results[j].hash.value in prev.seen;
        }
      }
    }
  }

  /** A present file is reported as `exists`, stays as it is, and counts as
      a success. */
  lemma ExistingFileIsNotRewritten(w: World, st: FetchState, i: nat, ad: Ad)
    requires ad.imageUrls != [] && Downloaded(w.download(i))
    requires !(w.skipDuplicates && w.hash(w.download(i).value) in st.seen)
    requires ImageFileName(w.date, PageNameOr(ad), w.hash(w.download(i).value)) in st.files
    ensures Step(w, st, i, ad).files == st.files
    ensures Step(w, st, i, ad).results == st.results + [FetchResult(i, PageNameOr(ad), ad.imageUrls[0], Exists,
              Some(ImageFileName(w.date, PageNameOr(ad), w.hash(w.download(i).value))),
              Some(w.hash(w.download(i).value)))]
  {
  }

  /** `success_count`: entries whose status is `success` or `exists`. */
  function SuccessCount(results: seq<FetchResult>): (n: nat)
    ensures n <= |results|
    ensures n == |results| <==> forall j :: 0 <= j < |results| ==> results[j].status != Failed
  {
    if |results| == 0 then 0
    else SuccessCount(results[..|results| - 1]) + (if results[|results| - 1].status != Failed then 1 else 0)
  }
}
