/** Reading the text of the ad images and picking out the ad's elements
    (`src/05_ocr.py`).

    The OCR engine is replaced by the text it returns for the `i`-th image,
    and the two lists of regular-expression patterns by the matches they
    find in a text: the call-to-action matches and the offer matches, each
    in pattern order and, within a pattern, in text order. */
module Ocr {
  import opened Wrappers
  import opened Text

  /** The three elements `parse_ad_elements` returns. */
  datatype Elements = Elements(keyClaims: string, offer: string, cta: string)

  predicate IsTerminator(c: char) { c == '.' || c == '!' || c == '?' }

  /** `re.split(r'[.!?]\s*', text)`: the pieces between sentence marks,
      each mark taking the whitespace after it along. */
  function SplitSentences(s: string): (r: seq<string>)
    ensures |r| >= 1
    ensures forall k :: 0 <= k < |r| ==> forall j :: 0 <= j < |r[k]| ==> !IsTerminator(r[k][j])
    decreases |s|
  {
    if |s| == 0 then [[]]
    else if IsTerminator(s[0]) then [[]] + SplitSentences(LStrip(s[1..]))
    else
      var rest := SplitSentences(s[1..]);
      [[s[0]] + rest[0]] + rest[1..]
  }

  /** A stripped sentence is a key claim when it is longer than ten
      characters and contains none of the call-to-action matches, ignoring
      case. */
  predicate IsKeyClaim(s: string, ctas: seq<string>) {
    |s| > 10 && !MentionsCta(s, ctas)
  }

  predicate MentionsCta(s: string, ctas: seq<string>) {
    exists k :: 0 <= k < |ctas| && Contains(Lower(s), Lower(ctas[k]))
  }

  /** `any(cta.lower() in sent.lower() for cta in ctas)`. */
  method FindsCta(sent: string, ctas: seq<string>) returns (found: bool)
    ensures found <==> MentionsCta(sent, ctas)
  {
    found := false;
    var j := 0;
    while j < |ctas|
      invariant 0 <= j <= |ctas|
      invariant found <==> MentionsCta(sent, ctas[..j])
    {
      if Contains(Lower(sent), Lower(ctas[j])) {
        found := true;
      }
      assert ctas[..j + 1][j] == ctas[j];
      assert forall k :: 0 <= k < j ==> ctas[..j + 1][k] == ctas[..j][k];
      j := j + 1;
    }
    assert ctas[..j] == ctas;
  }

  function ClaimFilter(ctas: seq<string>): string -> bool {
    s => IsKeyClaim(s, ctas)
  }

  function StripAll(pieces: seq<string>): (r: seq<string>)
    ensures |r| == |pieces|
  {
    seq(|pieces|, k requires 0 <= k < |pieces| => Strip(pieces[k]))
  }

  /** The stripped first five pieces that are key claims, in order. */
  function KeptSentences(text: string, ctas: seq<string>): seq<string> {
    Filter(StripAll(Prefix(SplitSentences(text), 5)), ClaimFilter(ctas))
  }

  /** What `parse_ad_elements` returns for a text and its matches. */
  function ElementsOf(text: string, ctas: seq<string>, offers: seq<string>): Elements {
    if text == "" then Elements("", "", "")
    else Elements(Join(Prefix(KeptSentences(text, ctas), 3), ". "), Join(Dedup(offers), ", "), Join(Dedup(ctas), ", "))
  }

  /** The key-sentence loop of `parse_ad_elements`. */
  method KeySentences(text: string, ctas: seq<string>) returns (kept: seq<string>)
    ensures kept == KeptSentences(text, ctas)
  {
    var sentences := Prefix(SplitSentences(text), 5);
    ghost var stripped := StripAll(sentences);
    ghost var claim := ClaimFilter(ctas);
    kept := [];
    assert stripped[..0] == [];
    var i := 0;
    while i < |sentences|
      invariant 0 <= i <= |sentences| == |stripped|
      invariant kept == Filter(stripped[..i], claim)
    {
      var keep, sent := KeepSentence(sentences[i], ctas);
      FilterSnoc(stripped, i, claim);
      assert claim(stripped[i]) == keep && stripped[i] == sent;
      if keep {
        kept := kept + [sent];
      }
      i := i + 1;
    }
    assert stripped[..i] == stripped;
  }

  /** One sentence of the loop: stripped, and kept when it is a key claim. */
  method KeepSentence(sentence: string, ctas: seq<string>) returns (keep: bool, sent: string)
    ensures sent == Strip(sentence) && keep == IsKeyClaim(sent, ctas)
  {
    sent := Strip(sentence);
    var found := FindsCta(sent, ctas);
    keep := |sent| > 10 && !found;
  }

  /** `parse_ad_elements`: nothing for an empty text; otherwise the first
      three key claims joined with `". "`, and the matches without repeats
      joined with `", "`. */
  method ParseAdElements(text: string, ctas: seq<string>, offers: seq<string>) returns (r: Elements)
    ensures r == ElementsOf(text, ctas, offers)
  {
    r := Elements("", "", "");
    if text == "" {
      return;
    }
    var cta := Join(Dedup(ctas), ", ");
    var offer := Join(Dedup(offers), ", ");
    var keySentences := KeySentences(text, ctas);
    r := Elements(Join(Prefix(keySentences, 3), ". "), offer, cta);
  }

  /** A sentence kept as a key claim: one of the first five pieces,
      stripped, with no outer whitespace, longer than ten characters and
      containing no call to action. */
  predicate IsClaimFromPieces(s: string, pieces: seq<string>, ctas: seq<string>) {
    |s| > 10 && !IsSpace(s[0]) && !IsSpace(s[|s| - 1]) && !MentionsCta(s, ctas) &&
    exists p :: 0 <= p < Min(5, |pieces|) && Strip(pieces[p]) == s
  }

  /** The key claims come from the first five pieces only, in order: each
      kept sentence is one of them stripped, has no outer whitespace, is
      longer than ten characters and contains no call to action. */
  lemma KeptSentencesMeaning(text: string, ctas: seq<string>)
    ensures |KeptSentences(text, ctas)| <= 5
    ensures forall k :: 0 <= k < |KeptSentences(text, ctas)| ==>
              IsClaimFromPieces(KeptSentences(text, ctas)[k], SplitSentences(text), ctas)
  {
    var pieces := SplitSentences(text);
    var first := Prefix(pieces, 5);
    var stripped := StripAll(first);
    var kept := Filter(stripped, ClaimFilter(ctas));
    assert kept == KeptSentences(text, ctas);
    forall k | 0 <= k < |kept|
      ensures IsClaimFromPieces(kept[k], pieces, ctas)
    {
      assert ClaimFilter(ctas)(kept[k]);
      var p :| 0 <= p < |stripped| && stripped[p] == kept[k];
      assert first[p] == pieces[p];
      assert Strip(pieces[p]) == kept[k];
    }
  }

  /** An empty text yields three empty elements; otherwise the key claims
      join at most three sentences, and the call-to-action and offer lists
      hold each match once. */
  lemma ElementsOfMeaning(text: string, ctas: seq<string>, offers: seq<string>)
    ensures text == "" ==> ElementsOf(text, ctas, offers) == Elements("", "", "")
    ensures text != "" ==>
              var kept := Prefix(KeptSentences(text, ctas), 3);
              |kept| <= 3 && ElementsOf(text, ctas, offers).keyClaims == Join(kept, ". ") &&
              (forall i, j :: 0 <= i < j < |Dedup(ctas)| ==> Dedup(ctas)[i] != Dedup(ctas)[j]) &&
              (forall i, j :: 0 <= i < j < |Dedup(offers)| ==> Dedup(offers)[i] != Dedup(offers)[j]) &&
              (forall k :: 0 <= k < |ctas| ==> ctas[k] in Dedup(ctas)) &&
              (forall k :: 0 <= k < |offers| ==> offers[k] in Dedup(offers)) &&
              ElementsOf(text, ctas, offers).cta == Join(Dedup(ctas), ", ") &&
              ElementsOf(text, ctas, offers).offer == Join(Dedup(offers), ", ")
  {
  }

  /** The ad id of an image: the text after the last `_` of the file stem,
      or the whole stem when it has none. */
  function AdIdFromStem(stem: string): (r: string)
    ensures '_' !in stem ==> r == stem
    ensures '_' in stem ==> '_' !in r && EndsWith(stem, "_" + r)
  {
    match AfterLast(stem, '_')
    case Some(t) => AfterLastIsSuffix(stem, '_'); t
    case None => stem
  }

  /** The extensions the OCR pass reads, lower-cased. */
  const OcrExtensions: seq<string> := [".png", ".jpg", ".jpeg"]

  predicate IsOcrImage(name: string) { Lower(Suffix(name)) in OcrExtensions }

  /** One entry of `process_all_images`'s result list. */
  datatype OcrResult = OcrResult(adId: string, imagePath: string, ocrText: string, elements: Elements)

  /** The text extracted from the `i`-th considered image. */
  type Extractor = nat -> string

  /** The call-to-action and the offer matches in a text. */
  type Matcher = string -> (seq<string>, seq<string>)

  function ResultFor(dir: string, name: string, text: string, matches: Matcher): OcrResult {
    OcrResult(AdIdFromStem(Stem(name)), dir + "/" + name, text, ElementsOf(text, matches(text).0, matches(text).1))
  }

  function ResultsFor(dir: string, files: seq<string>, extract: Extractor, matches: Matcher): (r: seq<OcrResult>)
    ensures |r| == |files|
  {
    seq(|files|, i requires 0 <= i < |files| => ResultFor(dir, files[i], extract(i), matches))
  }

  lemma ResultsForSnoc(dir: string, files: seq<string>, i: nat, extract: Extractor, matches: Matcher)
    requires i < |files|
    ensures ResultsFor(dir, files[..i + 1], extract, matches) ==
            ResultsFor(dir, files[..i], extract, matches) + [ResultFor(dir, files[i], extract(i), matches)]
  {
    var longer := ResultsFor(dir, files[..i + 1], extract, matches);
    var shorter := ResultsFor(dir, files[..i], extract, matches);
    forall k | 0 <= k < i ensures longer[k] == shorter[k] {
      assert files[..i + 1][k] == files[..i][k];
    }
    assert files[..i + 1][i] == files[i];
  }

  /** `process_all_images`: one result per `.png`/`.jpg`/`.jpeg` file of
      the listing (any case), in listing order. */
  method ProcessAllImages(dir: string, listing: seq<string>, extract: Extractor, matches: Matcher)
    returns (results: seq<OcrResult>)
    ensures results == ResultsFor(dir, Filter(listing, IsOcrImage), extract, matches)
  {
    var imageFiles := Filter(listing, IsOcrImage);
    results := [];
    if imageFiles == [] {
      return;
    }
    results := ReadEach(dir, imageFiles, extract, matches);
  }

  /** The loop of `process_all_images` over the considered files. */
  method ReadEach(dir: string, imageFiles: seq<string>, extract: Extractor, matches: Matcher)
    returns (results: seq<OcrResult>)
    ensures results == ResultsFor(dir, imageFiles, extract, matches)
  {
    results := [];
    var i := 0;
    while i < |imageFiles|
      invariant 0 <= i <= |imageFiles|
      invariant results == ResultsFor(dir, imageFiles[..i], extract, matches)
    {
      var name := imageFiles[i];
      var filename := Stem(name);
      var adId := AdIdFromStem(filename);
      var text := extract(i);
      var found := matches(text);
      var elements := ParseAdElements(text, found.0, found.1);
      var result := OcrResult(adId, dir + "/" + name, text, elements);
      assert result == ResultFor(dir, name, text, matches);
      ResultsForSnoc(dir, imageFiles, i, extract, matches);
      results := results + [result];
      i := i + 1;
    }
    assert imageFiles[..i] == imageFiles;
  }
}
