/** Collecting ad cards from the rendered ad-library search page
    (`src/01_collect_ads.py`).

    The browser is replaced by what the code observes of it: whether a
    selector appears within a timeout, the card count seen at each scroll,
    the cards a selector query returns, and each card's visible text and
    `src`/`href` attributes. */
module CollectAds {
  import opened Wrappers
  import opened Text
  import opened Records

  const LibraryBaseUrl: string := "https://www.facebook.com/ads/library/"

  /** The query parameters of the search URL, in the order they are encoded. */
  const SearchKeys: seq<string> := ["active_status", "ad_type", "country", "q", "search_type", "media_type"]

  /** `build_search_url`'s parameter dictionary: the fixed keys in their
      fixed order, the query under `q`, and the keyword search type. */
  function SearchParams(query: string, country: string, adType: string, activeStatus: string, mediaType: string)
    : (r: seq<(string, string)>)
    ensures |r| == |SearchKeys|
    ensures forall k :: 0 <= k < |r| ==> r[k].0 == SearchKeys[k]
    ensures r[2].1 == country && r[3].1 == query && r[4].1 == "keyword_unordered"
  {
    [("active_status", activeStatus), ("ad_type", adType), ("country", country), ("q", query),
     ("search_type", "keyword_unordered"), ("media_type", mediaType)]
  }

  /** `build_search_url`: the library URL, `?`, then the encoded parameters.
      Percent-encoding (`urlencode`) is passed in. */
  function BuildSearchUrl(query: string, country: string, adType: string, activeStatus: string, mediaType: string,
                          urlencode: seq<(string, string)> -> string): (r: string)
    ensures StartsWith(r, LibraryBaseUrl + "?")
    ensures r[|LibraryBaseUrl| + 1..] == urlencode(SearchParams(query, country, adType, activeStatus, mediaType))
  {
    var url := LibraryBaseUrl + "?" + urlencode(SearchParams(query, country, adType, activeStatus, mediaType));
    assert url[..|LibraryBaseUrl + "?"|] == LibraryBaseUrl + "?";
    url
  }

  // ---------------------------------------------------------------------
  // Selector fallback chains

  /** The card-container selectors `wait_for_ads_load` waits for, in order. */
  const WaitSelectors: seq<string> := [
    "div[class*=\"_7jvw\"]",
    "div[class*=\"x1dr59a3\"]",
    "div[class*=\"xrvj5dj\"]",
    "[data-visualcompletion=\"ignore-dynamic\"]"]

  /** `wait_for_ads_load`: waits for each selector in turn with an equal
      slice `timeout // 4` of the budget and stops at the first that
      appears; when none appears it still returns normally. `appears(s, t)`
      says whether selector `s` shows up within `t` milliseconds. The
      result is the position of the selector that appeared, if any. */
  method WaitForAdsLoad(appears: (string, int) -> bool, timeout: int) returns (hit: Option<nat>)
    ensures hit.Some? ==> hit.value < |WaitSelectors| && appears(WaitSelectors[hit.value], timeout / |WaitSelectors|)
    ensures forall j :: 0 <= j < |WaitSelectors| && (hit.None? || j < hit.value) ==>
              !appears(WaitSelectors[j], timeout / |WaitSelectors|)
  {
    var slice := timeout / |WaitSelectors|;
    hit := None;
    var i := 0;
    while i < |WaitSelectors|
      invariant 0 <= i <= |WaitSelectors|
      invariant forall j :: 0 <= j < i ==> !appears(WaitSelectors[j], slice)
    {
      if appears(WaitSelectors[i], slice) {
        hit := Some(i);
        return;
      }
      i := i + 1;
    }
  }

  /** The selectors whose matches count as ad cards, in priority order. */
  const CardSelectors: seq<string> := [
    "[data-testid=\"ad-library-dynamic-content-container\"]",
    "[data-testid=\"ad-content-body-video-container\"]",
    "div[role=\"article\"]"]

  /** The first non-empty result of querying the selectors in order; empty
      only when every selector matches nothing. */
  function FirstNonEmpty<C>(query: string -> seq<C>, selectors: seq<string>): (r: seq<C>)
    ensures r == [] <==> forall j :: 0 <= j < |selectors| ==> query(selectors[j]) == []
    ensures r != [] ==> exists i :: 0 <= i < |selectors| && r == query(selectors[i]) &&
                          forall j :: 0 <= j < i ==> query(selectors[j]) == []
  {
    if |selectors| == 0 then []
    else if query(selectors[0]) != [] then query(selectors[0])
    else
      var r := FirstNonEmpty(query, selectors[1..]);
      assert forall j :: 1 <= j < |selectors| ==> selectors[j] == selectors[1..][j - 1];
      r
  }

  // ---------------------------------------------------------------------
  // Scrolling with stall detection

  /** How many observations in a row, ending with scroll `k`, repeated the
      one before (the first observation is compared with 0). */
  function Stalls(countAt: nat -> nat, k: nat): nat
  {
    var previous := if k == 0 then 0 else countAt(k - 1);
    if countAt(k) != previous then 0
    else if k == 0 then 1
    else Stalls(countAt, k - 1) + 1
  }

  /** Round `j` neither reached the target nor saw a third unchanged count. */
  predicate Continues(countAt: nat -> nat, target: int, j: nat) {
    countAt(j) < target && Stalls(countAt, j) < 3
  }

  /** The loop's exit point: round `last` is within the budget, every
      earlier round continued, and this one stopped or was the last allowed. */
  predicate ScrollStopsAt(countAt: nat -> nat, target: int, maxScrolls: int, last: nat)
  {
    last < maxScrolls
    && (forall j :: 0 <= j < last ==> Continues(countAt, target, j))
    && (!Continues(countAt, target, last) || last == maxScrolls - 1)
  }

  /** `scroll_and_load_ads`: counts cards, stops at the target count, after
      three consecutive unchanged counts, or after `max_scrolls` rounds,
      and returns the last count seen. `countAt(k)` is the number of cards
      counted in round `k`. With `max_scrolls <= 0` the loop never runs and
      the source's `return current_count` raises (`None` here). */
  method ScrollAndLoadAds(countAt: nat -> nat, targetCount: int, maxScrolls: int)
    returns (r: Option<nat>, ghost last: nat)
    ensures r.None? <==> maxScrolls <= 0
    ensures r.Some? ==> ScrollStopsAt(countAt, targetCount, maxScrolls, last) && r.value == countAt(last)
  {
    var previousCount := 0;
    var scrollCount := 0;
    var noChangeCount := 0;
    r := None;
    last := 0;
    while scrollCount < maxScrolls
      invariant 0 <= scrollCount && (scrollCount > 0 ==> scrollCount <= maxScrolls)
      invariant r.None? <==> scrollCount == 0
      invariant scrollCount == 0 ==> previousCount == 0 && noChangeCount == 0
      invariant scrollCount > 0 ==> last == scrollCount - 1 && r == Some(countAt(last))
      invariant scrollCount > 0 ==> previousCount == countAt(scrollCount - 1)
      invariant scrollCount > 0 ==> noChangeCount == Stalls(countAt, scrollCount - 1)
      invariant forall j :: 0 <= j < scrollCount ==> Continues(countAt, targetCount, j)
      decreases maxScrolls - scrollCount
    {
      var currentCount := countAt(scrollCount);
      r := Some(currentCount);
      last := scrollCount;
      if currentCount >= targetCount {
        return;
      }
      if currentCount == previousCount {
        noChangeCount := noChangeCount + 1;
        if noChangeCount >= 3 {
          return;
        }
      } else {
        noChangeCount := 0;
      }
      assert noChangeCount == Stalls(countAt, scrollCount);
      previousCount := currentCount;
      scrollCount := scrollCount + 1;
    }
  }

  /** Counts 3, 5, 5, 5, 5, ... below the target: the three unchanged
      counts are seen only in the fifth round (counts 3, 5, 5, 5 are not
      enough), and 5 is returned. */
  lemma StallStopsAtFifthRound(countAt: nat -> nat, last: nat)
    requires forall k :: countAt(k) == if k == 0 then 3 else 5
    requires ScrollStopsAt(countAt, 50, 50, last)
    ensures last == 4 && countAt(last) == 5
  {
    assert Stalls(countAt, 0) == 0;
    assert Stalls(countAt, 1) == 0;
    assert Stalls(countAt, 2) == 1;
    assert Stalls(countAt, 3) == 2;
    assert Stalls(countAt, 4) == 3;
    assert !Continues(countAt, 50, 4);
    assert forall j :: 0 <= j < 4 ==> Continues(countAt, 50, j);
  }

  /** A page that never shows a card stops in the third round: the first
      count already repeats the initial 0. */
  lemma EmptyPageStopsAtThirdRound(countAt: nat -> nat, target: int, last: nat)
    requires forall k :: countAt(k) == 0
    requires target > 0
    requires ScrollStopsAt(countAt, target, 50, last)
    ensures last == 2
  {
    assert Stalls(countAt, 0) == 1;
    assert Stalls(countAt, 1) == 2;
    assert Stalls(countAt, 2) == 3;
    assert !Continues(countAt, target, 2);
    assert forall j :: 0 <= j < 2 ==> Continues(countAt, target, j);
  }

  // ---------------------------------------------------------------------
  // Parsing one card

  /** A `<video>` element: its own `src` and the `src` of each nested `<source>`. */
  datatype Video = Video(src: Option<string>, sources: seq<Option<string>>)

  /** What a card container exposes: its inner text and the `src`/`href`
      attributes of its images, videos and links. `Detached` is a container
      whose DOM calls raise. */
  datatype Card =
    | Card(text: string, imgSrcs: seq<Option<string>>, videos: seq<Video>, hrefs: seq<Option<string>>)
    | Detached

  /** A kept line: non-empty, with no whitespace at either end. */
  predicate IsStrippedLine(line: string) {
    line != [] && !IsSpace(line[0]) && !IsSpace(line[|line| - 1])
  }

  /** `[line.strip() for line in pieces if line.strip()]` */
  function StrippedNonBlank(pieces: seq<string>): (r: seq<string>)
    ensures |r| <= |pieces|
  {
    if |pieces| == 0 then []
    else
      var s := Strip(pieces[0]);
      (if s != [] then [s] else []) + StrippedNonBlank(pieces[1..])
  }

  /** Every kept line is non-empty and stripped. */
  lemma {:induction false} KeptLinesAreStripped(pieces: seq<string>)
    ensures forall k :: 0 <= k < |StrippedNonBlank(pieces)| ==> IsStrippedLine(StrippedNonBlank(pieces)[k])
  {
    if |pieces| > 0 {
      KeptLinesAreStripped(pieces[1..]);
      var s := Strip(pieces[0]);
      var rest := StrippedNonBlank(pieces[1..]);
      if s == [] {
        assert StrippedNonBlank(pieces) == rest;
      } else {
        var r := [s] + rest;
        assert StrippedNonBlank(pieces) == r;
        forall k | 0 <= k < |r| ensures IsStrippedLine(r[k]) {
          if k > 0 {
            assert r[k] == rest[k - 1];
          }
        }
      }
    }
  }

  /** The first non-blank stripped line of `pieces` heads the kept lines. */
  lemma {:induction false} FirstKeptLine(pieces: seq<string>, i: nat)
    requires i < |pieces| && !AllSpace(pieces[i])
    requires forall j :: 0 <= j < i ==> AllSpace(pieces[j])
    ensures StrippedNonBlank(pieces) != [] && StrippedNonBlank(pieces)[0] == Strip(pieces[i])
  {
    if i > 0 {
      FirstKeptLine(pieces[1..], i - 1);
      assert Strip(pieces[0]) == [];
    }
  }

  /** The visible text's lines, stripped, blank ones dropped. */
  function NonBlankLines(text: string): seq<string> {
    StrippedNonBlank(Split(text, '\n'))
  }

  /** `page_name`: the first line, cut to 100 characters. */
  function PageNameOf(line: string): (r: string)
    ensures |r| <= 100 && r == Prefix(line, 100)
  {
    if |line| < 100 then line else line[..100]
  }

  /** `[line for line in lines if len(line) > 20]` */
  function LongLines(lines: seq<string>): (r: seq<string>)
    ensures |r| <= |lines|
    ensures forall k :: 0 <= k < |r| ==> |r[k]| > 20 && r[k] in lines
  {
    if |lines| == 0 then []
    else (if |lines[0]| > 20 then [lines[0]] else []) + LongLines(lines[1..])
  }

  /** `ad_text`: absent without long lines, the line itself when there is
      one, else the first three as a list. */
  function AdTextOf(longs: seq<string>): (r: Option<AdText>)
    ensures r.None? <==> longs == []
    ensures |longs| == 1 ==> r == Some(Single(longs[0]))
    ensures |longs| > 1 ==> r.Some? && r.value.Lines? && r.value.lines == longs[..Min(3, |longs|)]
  {
    if longs == [] then None
    else if |longs| == 1 then Some(Single(longs[0]))
    else Some(Lines(Prefix(longs, 3)))
  }

  /** An image `src` that is set and points at the ad CDN. */
  predicate IsCdnImage(src: Option<string>) {
    Truthy(src) && (Contains(src.value, "scontent") || Contains(src.value, "fbcdn"))
  }

  /** The CDN image sources of a card, in document order. */
  function CdnImages(srcs: seq<Option<string>>): (r: seq<string>)
    ensures |r| <= |srcs|
    ensures forall k :: 0 <= k < |r| ==> IsCdnImage(Some(r[k])) && Some(r[k]) in srcs
    ensures forall k :: 0 <= k < |srcs| && IsCdnImage(srcs[k]) ==> srcs[k].value in r
  {
    if |srcs| == 0 then []
    else
      var init := CdnImages(srcs[..|srcs| - 1]);
      assert srcs == srcs[..|srcs| - 1] + [srcs[|srcs| - 1]];
      if IsCdnImage(srcs[|srcs| - 1]) then init + [srcs[|srcs| - 1].value] else init
  }

  /** The set values among `xs`, in order. */
  function TruthyValues(xs: seq<Option<string>>): (r: seq<string>)
    ensures forall k :: 0 <= k < |r| ==> r[k] != "" && Some(r[k]) in xs
    ensures forall k :: 0 <= k < |xs| && Truthy(xs[k]) ==> xs[k].value in r
  {
    if |xs| == 0 then []
    else
      var init := TruthyValues(xs[..|xs| - 1]);
      assert xs == xs[..|xs| - 1] + [xs[|xs| - 1]];
      if Truthy(xs[|xs| - 1]) then init + [xs[|xs| - 1].value] else init
  }

  /** The sources of one video: its own `src`, then those of its `<source>` tags. */
  function VideoSources(v: Video): seq<string> {
    (if Truthy(v.src) then [v.src.value] else []) + TruthyValues(v.sources)
  }

  /** The video sources of all videos of a card, in document order. */
  function AllVideoSources(vs: seq<Video>): (r: seq<string>)
    ensures forall k :: 0 <= k < |r| ==> r[k] != ""
  {
    if |vs| == 0 then [] else AllVideoSources(vs[..|vs| - 1]) + VideoSources(vs[|vs| - 1])
  }

  /** A link `href` that is set and carries an ad id parameter. */
  predicate IsIdLink(href: Option<string>) { Truthy(href) && Contains(href.value, "id=") }

  /** The position of the first id link at or after `from`. */
  function FirstIdLinkFrom(hrefs: seq<Option<string>>, from: nat): (r: Option<nat>)
    requires from <= |hrefs|
    ensures r.Some? ==> from <= r.value < |hrefs| && IsIdLink(hrefs[r.value]) &&
                        forall j :: from <= j < r.value ==> !IsIdLink(hrefs[j])
    ensures r.None? ==> forall j :: from <= j < |hrefs| ==> !IsIdLink(hrefs[j])
    decreases |hrefs| - from
  {
    if from == |hrefs| then None
    else if IsIdLink(hrefs[from]) then Some(from)
    else FirstIdLinkFrom(hrefs, from + 1)
  }

  /** The maximal run of digits at the start of `s`. */
  function DigitRun(s: string): (r: string)
    ensures |r| <= |s| && r == s[..|r|]
    ensures forall k :: 0 <= k < |r| ==> IsDigit(r[k])
    ensures |r| < |s| ==> !IsDigit(s[|r|])
  {
    if |s| > 0 && IsDigit(s[0]) then [s[0]] + DigitRun(s[1..]) else []
  }

  /** A match of `id=(\d+)` starts at position `i` of `s`. */
  predicate IdMatchAt(s: string, i: int) {
    0 <= i && i + 3 < |s| && s[i..i + 3] == "id=" && IsDigit(s[i + 3])
  }

  /** The leftmost match of `id=(\d+)` at or after `from`. */
  function FirstIdMatch(s: string, from: nat): (r: Option<nat>)
    requires from <= |s|
    ensures r.Some? ==> from <= r.value && IdMatchAt(s, r.value) &&
                        forall j :: from <= j < r.value ==> !IdMatchAt(s, j)
    ensures r.None? ==> forall j :: from <= j < |s| ==> !IdMatchAt(s, j)
    decreases |s| - from
  {
    if from == |s| then None
    else if IdMatchAt(s, from) then Some(from)
    else FirstIdMatch(s, from + 1)
  }

  /** `re.search(r'id=(\d+)', s).group(1)`: the whole digit run after the
      leftmost "id=" that is followed by a digit; None when there is none. */
  function IdDigits(s: string): (r: Option<string>)
    ensures r.None? <==> forall i :: 0 <= i < |s| ==> !IdMatchAt(s, i)
    ensures r.Some? ==> exists i :: IdMatchAt(s, i) && (forall j :: 0 <= j < i ==> !IdMatchAt(s, j)) &&
                                    r.value == DigitRun(s[i + 3..])
    ensures r.Some? ==> r.value != [] && Contains(s, "id=" + r.value)
  {
    match FirstIdMatch(s, 0)
    case None => None
    case Some(i) =>
      var d := DigitRun(s[i + 3..]);
      assert s[i..i + 3 + |d|] == s[i..i + 3] + s[i + 3..][..|d|];
      assert OccursAt(s, "id=" + d, i);
      Some(d)
  }

  /** The snapshot link: site-relative hrefs get the host prefix. */
  function SnapshotUrl(href: string): (r: string)
    ensures StartsWith(href, "/") ==> r == "https://www.facebook.com" + href
    ensures !StartsWith(href, "/") ==> r == href
  {
    if StartsWith(href, "/") then "https://www.facebook.com" + href else href
  }

  /** What `parse_ad_container` makes of a card at position `index`
      collected at time `now`. */
  function ParsedCard(card: Card, index: int, now: string): Option<Ad>
  {
    match card
    case Detached => None
    case Card(text, imgs, vids, hrefs) =>
      var lines := if text != "" then NonBlankLines(text) else [];
      var pageName := if |lines| > 0 then Some(PageNameOf(lines[0])) else None;
      var adText := AdTextOf(LongLines(lines));
      var images := Dedup(CdnImages(imgs));
      var videos := Dedup(AllVideoSources(vids));
      var link := FirstIdLinkFrom(hrefs, 0);
      var snapshot := if link.Some? then Some(SnapshotUrl(hrefs[link.value].value)) else None;
      var adId := if link.Some? then IdDigits(hrefs[link.value].value) else None;
      if pageName.Some? || adText.Some? || images != [] || videos != [] then
        Some(ScrapedAd(index, now, pageName, adText, images, videos, snapshot, adId))
      else None
  }

  /** A parsed card carries its position and the collection time, has at
      least one of a page name, ad text, images or videos, keeps only CDN
      images, lists no image or video twice, and has a snapshot link and an
      all-digit ad id taken from the first link with an id; a detached
      card yields nothing. */
  lemma ParsedCardShape(card: Card, index: int, now: string)
    ensures card.Detached? ==> ParsedCard(card, index, now).None?
    ensures ParsedCard(card, index, now).Some? ==>
              var a := ParsedCard(card, index, now).value;
              a.index == Some(index) && a.collectedAt == Some(now)
              && (a.pageName.Some? || a.adText.Some? || a.imageUrls != [] || a.videoUrls != [])
              && (forall k :: 0 <= k < |a.imageUrls| ==> IsCdnImage(Some(a.imageUrls[k])))
              && (forall i, j :: 0 <= i < j < |a.imageUrls| ==> a.imageUrls[i] != a.imageUrls[j])
              && (forall i, j :: 0 <= i < j < |a.videoUrls| ==> a.videoUrls[i] != a.videoUrls[j])
              && (a.pageName.Some? ==> |a.pageName.value| <= 100)
              && (a.adId.Some? ==> a.snapshotUrl.Some? &&
                                   forall k :: 0 <= k < |a.adId.value| ==> IsDigit(a.adId.value[k]))
  {
    if card.Card? {
      var link := FirstIdLinkFrom(card.hrefs, 0);
      if link.Some? {
        var d := IdDigits(card.hrefs[link.value].value);
        if d.Some? {
          var h := card.hrefs[link.value].value;
          var i :| IdMatchAt(h, i) && d.value == DigitRun(h[i + 3..]);
        }
      }
    }
  }

  /** `page_name` is the first line of the text that is not blank, stripped
      and cut to 100 characters. */
  lemma PageNameIsFirstNonBlankLine(card: Card, index: int, now: string, i: nat)
    requires card.Card? && card.text != ""
    requires i < |Split(card.text, '\n')| && !AllSpace(Split(card.text, '\n')[i])
    requires forall j :: 0 <= j < i ==> AllSpace(Split(card.text, '\n')[j])
    ensures ParsedCard(card, index, now).Some?
    ensures ParsedCard(card, index, now).value.pageName == Some(Prefix(Strip(Split(card.text, '\n')[i]), 100))
  {
    FirstKeptLine(Split(card.text, '\n'), i);
  }

  /** The image loop of `parse_ad_container`. */
  method CollectImages(srcs: seq<Option<string>>) returns (urls: seq<string>)
    ensures urls == CdnImages(srcs)
  {
    urls := [];
    var i := 0;
    while i < |srcs|
      invariant 0 <= i <= |srcs|
      invariant urls == CdnImages(srcs[..i])
    {
      assert srcs[..i + 1][..i] == srcs[..i];
      if IsCdnImage(srcs[i]) {
        urls := urls + [srcs[i].value];
      }
      i := i + 1;
    }
    assert srcs[..i] == srcs;
  }

  /** The inner loop over a video's `<source>` tags. */
  method CollectSources(sources: seq<Option<string>>) returns (urls: seq<string>)
    ensures urls == TruthyValues(sources)
  {
    urls := [];
    var s := 0;
    while s < |sources|
      invariant 0 <= s <= |sources|
      invariant urls == TruthyValues(sources[..s])
    {
      assert sources[..s + 1][..s] == sources[..s];
      if Truthy(sources[s]) {
        urls := urls + [sources[s].value];
      }
      s := s + 1;
    }
    assert sources[..s] == sources;
  }

  /** The video loop of `parse_ad_container`. */
  method CollectVideos(videos: seq<Video>) returns (urls: seq<string>)
    ensures urls == AllVideoSources(videos)
  {
    urls := [];
    var v := 0;
    while v < |videos|
      invariant 0 <= v <= |videos|
      invariant urls == AllVideoSources(videos[..v])
    {
      var video := videos[v];
      var own := if Truthy(video.src) then [video.src.value] else [];
      urls := urls + own;
      var sources := CollectSources(video.sources);
      urls := urls + sources;
      assert videos[..v + 1][..v] == videos[..v];
      assert urls == AllVideoSources(videos[..v + 1]);
      v := v + 1;
    }
    assert videos[..v] == videos;
  }

  /** The link loop of `parse_ad_container`: stops at the first href with
      an ad id and takes the snapshot link and the id from it. */
  method FindIdLink(hrefs: seq<Option<string>>) returns (snapshot: Option<string>, adId: Option<string>)
    ensures FirstIdLinkFrom(hrefs, 0).None? ==> snapshot.None? && adId.None?
    ensures FirstIdLinkFrom(hrefs, 0).Some? ==>
              var h := hrefs[FirstIdLinkFrom(hrefs, 0).value].value;
              snapshot == Some(SnapshotUrl(h)) && adId == IdDigits(h)
  {
    snapshot := None;
    adId := None;
    var l := 0;
    while l < |hrefs|
      invariant 0 <= l <= |hrefs|
      invariant forall j :: 0 <= j < l ==> !IsIdLink(hrefs[j])
    {
      if IsIdLink(hrefs[l]) {
        snapshot := Some(SnapshotUrl(hrefs[l].value));
        adId := IdDigits(hrefs[l].value);
        return;
      }
      l := l + 1;
    }
  }

  /** `parse_ad_container`. */
  method ParseAdContainer(card: Card, index: int, now: string) returns (r: Option<Ad>)
    ensures r == ParsedCard(card, index, now)
  {
    if card.Detached? {
      return None;
    }
    var lines := if card.text != "" then NonBlankLines(card.text) else [];
    var pageName := if |lines| > 0 then Some(PageNameOf(lines[0])) else None;
    var adText := AdTextOf(LongLines(lines));
    var imageUrls := CollectImages(card.imgSrcs);
    var videoUrls := CollectVideos(card.videos);
    var snapshot, adId := FindIdLink(card.hrefs);
    var images := Dedup(imageUrls);
    var videos := Dedup(videoUrls);
    if pageName.Some? || adText.Some? || images != [] || videos != [] {
      r := Some(ScrapedAd(index, now, pageName, adText, images, videos, snapshot, adId));
    } else {
      r := None;
    }
  }

  // ---------------------------------------------------------------------
  // Extracting the ads of a page

  /** `parse_ad_container` as a function of the card and its position. */
  function ParseAt(now: string): (Card, nat) -> Option<Ad> {
    (c: Card, i: nat) => ParsedCard(c, i, now)
  }

  /** The ads `parse` yields for `cards` (positions counted from 0),
      failures dropped, in card order. */
  function KeptParses(parse: (Card, nat) -> Option<Ad>, cards: seq<Card>): (r: seq<Ad>)
    ensures |r| <= |cards|
  {
    if |cards| == 0 then []
    else
      var p := parse(cards[|cards| - 1], |cards| - 1);
      KeptParses(parse, cards[..|cards| - 1]) + (if p.Some? then [p.value] else [])
  }

  /** The positions of the cards `KeptParses` keeps. */
  function KeptPositions(parse: (Card, nat) -> Option<Ad>, cards: seq<Card>): (r: seq<nat>)
    ensures |r| == |KeptParses(parse, cards)|
  {
    if |cards| == 0 then []
    else
      var p := parse(cards[|cards| - 1], |cards| - 1);
      KeptPositions(parse, cards[..|cards| - 1]) + (if p.Some? then [|cards| - 1] else [])
  }

  /** The k-th kept ad is the parse of the card at the k-th kept position,
      the positions strictly increase, and every card that parses is kept:
      a card that fails is dropped alone. */
  lemma KeptParsesInOrder(parse: (Card, nat) -> Option<Ad>, cards: seq<Card>)
    ensures forall k :: 0 <= k < |KeptPositions(parse, cards)| ==>
              KeptPositions(parse, cards)[k] < |cards| &&
              parse(cards[KeptPositions(parse, cards)[k]], KeptPositions(parse, cards)[k]) == Some(KeptParses(parse, cards)[k])
    ensures forall k1, k2 :: 0 <= k1 < k2 < |KeptPositions(parse, cards)| ==>
              KeptPositions(parse, cards)[k1] < KeptPositions(parse, cards)[k2]
    ensures forall i :: 0 <= i < |cards| && parse(cards[i], i).Some? ==> i in KeptPositions(parse, cards)
  {
    KeptAtPositions(parse, cards);
    KeptPositionsIncrease(parse, cards);
    ParsedIsKept(parse, cards);
  }

  /** One more card appends its parse and its position when it parses,
      and nothing otherwise. */
  lemma KeptSnoc(parse: (Card, nat) -> Option<Ad>, cards: seq<Card>)
    requires |cards| > 0
    ensures var n := |cards| - 1;
            var p := parse(cards[n], n);
            KeptPositions(parse, cards) ==
              KeptPositions(parse, cards[..n]) + (if p.Some? then [n] else []) &&
            KeptParses(parse, cards) == KeptParses(parse, cards[..n]) + (if p.Some? then [p.value] else [])
  {
  }

  lemma {:induction false} KeptAtPositions(parse: (Card, nat) -> Option<Ad>, cards: seq<Card>)
    ensures var pos := KeptPositions(parse, cards);
            forall k :: 0 <= k < |pos| ==>
              pos[k] < |cards| && parse(cards[pos[k]], pos[k]) == Some(KeptParses(parse, cards)[k])
  {
    if |cards| > 0 {
      var n := |cards| - 1;
      var init := cards[..n];
      KeptAtPositions(parse, init);
      KeptSnoc(parse, cards);
      var pos0, kept0 := KeptPositions(parse, init), KeptParses(parse, init);
      var pos, kept := KeptPositions(parse, cards), KeptParses(parse, cards);
      forall k | 0 <= k < |pos| ensures pos[k] < |cards| && parse(cards[pos[k]], pos[k]) == Some(kept[k]) {
        if k < |pos0| {
          assert pos[k] == pos0[k] && kept[k] == kept0[k];
          assert init[pos0[k]] == cards[pos0[k]];
        }
      }
    }
  }

  lemma {:induction false} KeptPositionsIncrease(parse: (Card, nat) -> Option<Ad>, cards: seq<Card>)
    ensures var pos := KeptPositions(parse, cards);
            forall k1, k2 :: 0 <= k1 < k2 < |pos| ==> pos[k1] < pos[k2]
  {
    if |cards| > 0 {
      var n := |cards| - 1;
      var init := cards[..n];
      KeptPositionsIncrease(parse, init);
      KeptAtPositions(parse, init);
      KeptSnoc(parse, cards);
      var pos0 := KeptPositions(parse, init);
      var pos := KeptPositions(parse, cards);
      forall k1, k2 | 0 <= k1 < k2 < |pos| ensures pos[k1] < pos[k2] {
        assert pos[k1] == pos0[k1];
        if k2 < |pos0| {
          assert pos[k2] == pos0[k2];
        }
      }
    }
  }

  lemma {:induction false} ParsedIsKept(parse: (Card, nat) -> Option<Ad>, cards: seq<Card>)
    ensures forall i :: 0 <= i < |cards| && parse(cards[i], i).Some? ==> i in KeptPositions(parse, cards)
  {
    if |cards| > 0 {
      var n := |cards| - 1;
      var init := cards[..n];
      ParsedIsKept(parse, init);
      KeptSnoc(parse, cards);
      var pos0 := KeptPositions(parse, init);
      var pos := KeptPositions(parse, cards);
      forall i | 0 <= i < |cards| && parse(cards[i], i).Some? ensures i in pos {
        if i < n {
          assert init[i] == cards[i];
          var k :| 0 <= k < |pos0| && pos0[k] == i;
          assert pos[k] == i;
        } else {
          assert pos[|pos| - 1] == n;
        }
      }
    }
  }

  /** Every ad `extract_ad_data` keeps records the position of its card,
      and the recorded positions strictly increase. */
  lemma ExtractedIndicesIncrease(cards: seq<Card>, now: string)
    ensures forall k :: 0 <= k < |KeptParses(ParseAt(now), cards)| ==>
              KeptParses(ParseAt(now), cards)[k].index == Some(KeptPositions(ParseAt(now), cards)[k] as int)
    ensures forall k1, k2 :: 0 <= k1 < k2 < |KeptParses(ParseAt(now), cards)| ==>
              KeptParses(ParseAt(now), cards)[k1].index.value < KeptParses(ParseAt(now), cards)[k2].index.value
  {
    var kept := KeptParses(ParseAt(now), cards);
    var pos := KeptPositions(ParseAt(now), cards);
    KeptParsesInOrder(ParseAt(now), cards);
    forall k | 0 <= k < |kept|
      ensures kept[k].index == Some(pos[k] as int)
    {
      ParsedCardShape(cards[pos[k]], pos[k], now);
    }
  }

  /** The container lookup of `extract_ad_data`: each selector is tried
      only while the previous ones matched nothing. */
  method FindContainers(query: string -> seq<Card>) returns (containers: seq<Card>)
    ensures containers == FirstNonEmpty(query, CardSelectors)
  {
    containers := query(CardSelectors[0]);
    if containers == [] {
      containers := query(CardSelectors[1]);
    }
    if containers == [] {
      containers := query(CardSelectors[2]);
    }
    assert CardSelectors[1..][1..] == [CardSelectors[2]];
    assert CardSelectors[1..][1..][1..] == [];
  }

  lemma KeptParsesSnoc(parse: (Card, nat) -> Option<Ad>, cards: seq<Card>, i: nat)
    requires i < |cards|
    ensures KeptParses(parse, cards[..i + 1]) ==
            KeptParses(parse, cards[..i]) + (if parse(cards[i], i).Some? then [parse(cards[i], i).value] else [])
  {
    assert cards[..i + 1][..i] == cards[..i];
  }

  /** `extract_ad_data`: queries the card selectors in order, takes the first
      non-empty match list, parses its first `limit` cards (a Python slice:
      a negative `limit` drops cards from the end) and keeps those that
      yield an ad, in order. */
  method ExtractAdData(query: string -> seq<Card>, limit: int, now: string) returns (ads: seq<Ad>)
    ensures ads == KeptParses(ParseAt(now), Prefix(FirstNonEmpty(query, CardSelectors), limit))
    ensures limit >= 0 ==> |ads| <= limit
  {
    var containers := FindContainers(query);
    var cards := Prefix(containers, limit);
    ads := [];
    var i := 0;
    while i < |cards|
      invariant 0 <= i <= |cards|
      invariant ads == KeptParses(ParseAt(now), cards[..i])
    {
      KeptParsesSnoc(ParseAt(now), cards, i);
      var parsed := ParseAdContainer(cards[i], i, now);
      if parsed.Some? {
        ads := ads + [parsed.value];
      }
      i := i + 1;
    }
    assert cards[..i] == cards;
  }
}
