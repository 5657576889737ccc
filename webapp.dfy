/** The gallery web app (`webapp/app.py`): the keyword tabs it offers, the
    `=IMAGE("…")` formula decoder, date parsing, the date-range filter and
    the assignment of ads to gallery columns.

    A worksheet record is the dictionary `get_all_records` returns for a
    row, header to cell. `datetime.strptime` is a parameter: it gives the
    parsed date and time, or None where Python raises `ValueError`. */
module Webapp {
  import opened Wrappers
  import opened Text
  import WriteSheets

  /** One worksheet record: header to cell text. */
  type Record = map<string, string>

  /** `record.get(key, default)`. */
  function Get(rec: Record, key: string, default: string): string {
    if key in rec then rec[key] else default
  }

  // ---------------------------------------------------------------------
  // load_keywords
  // ---------------------------------------------------------------------

  /** The tabs that hold no keyword. */
  const SystemSheets: seq<string> := ["raw_data", "ocr_results", "ideas", "설정"]

  function IsKeywordTab(): string -> bool {
    t => t !in SystemSheets
  }

  /** `load_keywords`: the worksheet titles in spreadsheet order, without
      the system tabs. */
  function KeywordTabs(titles: seq<string>): (r: seq<string>)
    ensures forall k :: 0 <= k < |r| ==> r[k] in titles && r[k] !in SystemSheets
    ensures forall k :: 0 <= k < |titles| && titles[k] !in SystemSheets ==> titles[k] in r
  {
    Filter(titles, IsKeywordTab())
  }

  /** The tabs keep the spreadsheet's order: the tabs of two runs of titles
      are the tabs of the first followed by those of the second, and a list
      without system tabs is kept as it is. */
  lemma KeywordTabsKeepOrder(a: seq<string>, b: seq<string>)
    ensures KeywordTabs(a + b) == KeywordTabs(a) + KeywordTabs(b)
    ensures (forall k :: 0 <= k < |a| ==> a[k] !in SystemSheets) ==> KeywordTabs(a) == a
  {
    FilterAppend(a, b, IsKeywordTab());
    if forall k :: 0 <= k < |a| ==> a[k] !in SystemSheets {
      FilterAll(a, IsKeywordTab());
    }
  }

  // ---------------------------------------------------------------------
  // extract_image_url
  // ---------------------------------------------------------------------

  const FormulaOpen: string := "=IMAGE(\""
  const FormulaClose: string := "\")"

  predicate IsFormula(cell: string) {
    StartsWith(cell, FormulaOpen) && EndsWith(cell, FormulaClose)
  }

  /** `extract_image_url`: the URL inside an `=IMAGE("…")` formula, any
      other cell as it is, and `""` for an empty cell. The nine-character
      cell `=IMAGE(")` passes both tests; Python's slice `[8:-2]` is then
      empty. */
  function ExtractImageUrl(cell: string): (r: string)
    ensures cell == "" ==> r == ""
    ensures !IsFormula(cell) ==> r == cell
    ensures IsFormula(cell) && |cell| >= |FormulaOpen| + |FormulaClose| ==> cell == FormulaOpen + r + FormulaClose
    ensures IsFormula(cell) && |cell| < |FormulaOpen| + |FormulaClose| ==> r == ""
  {
    if cell == "" then ""
    else if IsFormula(cell) then
      if |cell| >= 10 then cell[8..|cell| - 2] else ""
    else cell
  }

  /** Reading back the cell the sheet writer stores for an image gives the
      URL it was written from, for every URL. */
  lemma ImageFormulaRoundTrip(u: string)
    ensures ExtractImageUrl(WriteSheets.ImageFormula(u)) == u
  {
    var cell := WriteSheets.ImageFormula(u);
    assert cell == FormulaOpen + u + FormulaClose;
    assert cell[..8] == FormulaOpen;
    assert cell[|cell| - 2..] == FormulaClose;
    assert cell[8..|cell| - 2] == u;
  }

  // ---------------------------------------------------------------------
  // parse_date
  // ---------------------------------------------------------------------

  /** A parsed `datetime`: its calendar day as a day number and its time
      of day in seconds. */
  datatype DateTime = DateTime(day: int, second: nat)

  /** The formats `parse_date` tries, in order. */
  const DateFormats: seq<string> := ["%Y-%m-%d %H:%M:%S", "%Y-%m-%d", "%Y%m%d"]

  /** `s.split(".")[0]`: the text before the first full stop. */
  function BeforeFirstDot(s: string): (r: string)
    ensures StartsWith(s, r) && '.' !in r
    ensures |r| < |s| ==> s[|r|] == '.'
  {
    SplitHead(s, '.');
    Split(s, '.')[0]
  }

  lemma {:induction false} SplitHead(s: string, c: char)
    ensures var h := Split(s, c)[0];
            StartsWith(s, h) && (|h| < |s| ==> s[|h|] == c)
    decreases |s|
  {
    if |s| > 0 && s[0] != c {
      SplitHead(s[1..], c);
      var h := Split(s[1..], c)[0];
      assert Split(s, c)[0] == [s[0]] + h;
      assert s == [s[0]] + s[1..];
    }
  }

  /** The first of `formats` that `strptime` accepts decides the result;
      None when none does. */
  function ParseWith(text: string, formats: seq<string>, strptime: (string, string) -> Option<DateTime>): Option<DateTime>
  {
    if formats == [] then None
    else if strptime(text, formats[0]).Some? then strptime(text, formats[0])
    else ParseWith(text, formats[1..], strptime)
  }

  /** What `parse_date` returns for a cell. */
  function ParsedDate(s: string, strptime: (string, string) -> Option<DateTime>): Option<DateTime> {
    if s == "" then None else ParseWith(BeforeFirstDot(s), DateFormats, strptime)
  }

  /** The first format that parses wins, whatever the later ones give. */
  lemma {:induction false} ParseWithFirstMatch(text: string, formats: seq<string>,
                                               strptime: (string, string) -> Option<DateTime>, i: nat)
    requires i < |formats| && strptime(text, formats[i]).Some?
    requires forall j :: 0 <= j < i ==> strptime(text, formats[j]).None?
    ensures ParseWith(text, formats, strptime) == strptime(text, formats[i])
    decreases i
  {
    if i > 0 {
      assert strptime(text, formats[0]).None?;
      ParseWithFirstMatch(text, formats[1..], strptime, i - 1);
    }
  }

  /** No date exactly when no format parses. */
  lemma {:induction false} ParseWithNone(text: string, formats: seq<string>, strptime: (string, string) -> Option<DateTime>)
    ensures ParseWith(text, formats, strptime).None? <==> forall j :: 0 <= j < |formats| ==> strptime(text, formats[j]).None?
    decreases |formats|
  {
    if formats != [] {
      ParseWithNone(text, formats[1..], strptime);
      if strptime(text, formats[0]).None? {
        assert forall j :: 1 <= j < |formats| ==> formats[j] == formats[1..][j - 1];
      }
    }
  }

  /** `parse_date`: None for an empty cell; otherwise the text before the
      first full stop is parsed with each format in turn, returning at the
      first that succeeds. */
  method ParseDate(s: string, strptime: (string, string) -> Option<DateTime>) returns (d: Option<DateTime>)
    ensures d == ParsedDate(s, strptime)
    ensures s == "" ==> d.None?
  {
    if s == "" {
      return None;
    }
    var text := BeforeFirstDot(s);
    var i := 0;
    while i < |DateFormats|
      invariant 0 <= i <= |DateFormats|
      invariant ParseWith(text, DateFormats, strptime) == ParseWith(text, DateFormats[i..], strptime)
    {
      var parsed := strptime(text, DateFormats[i]);
      if parsed.Some? {
        return parsed;
      }
      assert DateFormats[i..][1..] == DateFormats[i + 1..];
      i := i + 1;
    }
    return None;
  }

  // ---------------------------------------------------------------------
  // The date-range filter of main
  // ---------------------------------------------------------------------

  /** The header of the date column the filter reads. */
  const DateHeader: string := "수집일"

  /** An ad is kept when its date does not parse, or when its day lies in
      the closed range. */
  predicate Keep(ad: Record, start: int, end: int, strptime: (string, string) -> Option<DateTime>) {
    var d := ParsedDate(Get(ad, DateHeader, ""), strptime);
    d.None? || (start <= d.value.day && d.value.day <= end)
  }

  function KeepFn(start: int, end: int, strptime: (string, string) -> Option<DateTime>): Record -> bool {
    ad => Keep(ad, start, end, strptime)
  }

  /** The ads `main` shows: filtered when there are ads and the picked
      range has both ends, otherwise all of them. */
  function DateFiltered(ads: seq<Record>, range: seq<int>, strptime: (string, string) -> Option<DateTime>): seq<Record> {
    if ads != [] && |range| == 2 then Filter(ads, KeepFn(range[0], range[1], strptime)) else ads
  }

  /** The date filter of `main`. */
  method FilterByDate(ads: seq<Record>, range: seq<int>, strptime: (string, string) -> Option<DateTime>)
    returns (shown: seq<Record>)
    ensures shown == DateFiltered(ads, range, strptime)
  {
    if !(ads != [] && |range| == 2) {
      return ads;
    }
    var start, end := range[0], range[1];
    ghost var keep := KeepFn(start, end, strptime);
    shown := [];
    var i := 0;
    assert ads[..0] == [];
    while i < |ads|
      invariant 0 <= i <= |ads|
      invariant shown == Filter(ads[..i], keep)
    {
      FilterSnoc(ads, i, keep);
      var kept := InRange(ads[i], start, end, strptime);
      assert keep(ads[i]) == kept;
      if kept {
        shown := shown + [ads[i]];
      }
      i := i + 1;
    }
    assert ads[..i] == ads;
  }

  /** The test the filter applies to one ad. */
  method InRange(ad: Record, start: int, end: int, strptime: (string, string) -> Option<DateTime>) returns (kept: bool)
    ensures kept == Keep(ad, start, end, strptime)
  {
    var adDate := ParseDate(Get(ad, DateHeader, ""), strptime);
    if adDate.Some? {
      kept := start <= adDate.value.day <= end;
    } else {
      kept := true;
    }
  }

  /** What the filter shows: only ads of the input, each one whose date is
      missing, unparseable or inside the range, and only those; with no
      range of two ends, everything. */
  lemma DateFilteredMeaning(ads: seq<Record>, range: seq<int>, strptime: (string, string) -> Option<DateTime>)
    ensures |range| != 2 ==> DateFiltered(ads, range, strptime) == ads
    ensures |range| == 2 ==>
              var r := DateFiltered(ads, range, strptime);
              (forall k :: 0 <= k < |r| ==> r[k] in ads && Keep(r[k], range[0], range[1], strptime)) &&
              (forall k :: 0 <= k < |ads| && Keep(ads[k], range[0], range[1], strptime) ==> ads[k] in r)
  {
  }

  /** The filter keeps the order of the ads: filtering two runs gives the
      filtered first run followed by the filtered second. */
  lemma DateFilterKeepsOrder(a: seq<Record>, b: seq<Record>, start: int, end: int, strptime: (string, string) -> Option<DateTime>)
    ensures DateFiltered(a + b, [start, end], strptime) ==
            (if a + b == [] then [] else Filter(a, KeepFn(start, end, strptime)) + Filter(b, KeepFn(start, end, strptime)))
  {
    FilterAppend(a, b, KeepFn(start, end, strptime));
  }

  // ---------------------------------------------------------------------
  // render_gallery
  // ---------------------------------------------------------------------

  /** One drawn card: the ad's position, its column, the image URL, the
      advertiser, the date caption when there is one and the ad text when
      it is not empty. */
  datatype Card = Card(index: nat, column: nat, imageUrl: string, pageName: string,
                       caption: Option<string>, adText: Option<string>)

  const ImageHeader: string := "이미지"
  const PageHeader: string := "광고주"
  const TextHeader: string := "광고 문구"

  function ImageOf(ad: Record): string {
    ExtractImageUrl(Get(ad, ImageHeader, ""))
  }

  /** The card for the ad at `index`, or None when it has no image URL and
      is not drawn. */
  function CardOf(ad: Record, index: nat, columns: nat): (c: Option<Card>)
    requires columns >= 1
    ensures c.Some? <==> ImageOf(ad) != ""
    ensures c.Some? ==> c.value.index == index && c.value.column == index % columns && c.value.column < columns
    ensures c.Some? ==> |c.value.adText.GetOr("")| <= 100 && |c.value.caption.GetOr("")| <= 10
  {
    var url := ImageOf(ad);
    if url == "" then None
    else
      var text := Prefix(Get(ad, TextHeader, ""), 100);
      var collectedAt := Get(ad, DateHeader, "");
      Some(Card(index, index % columns, url, Get(ad, PageHeader, "Unknown"),
                if collectedAt != "" then Some(Prefix(collectedAt, 10)) else None,
                if text != "" then Some(text) else None))
  }

  /** The cards drawn for the first `n` ads, in order. */
  function Cards(ads: seq<Record>, columns: nat, n: nat): (r: seq<Card>)
    requires columns >= 1 && n <= |ads|
    ensures |r| <= n
    ensures forall k :: 0 <= k < |r| ==> r[k].index < n && r[k].column == r[k].index % columns
    ensures forall k, l :: 0 <= k < l < |r| ==> r[k].index < r[l].index
    decreases n
  {
    if n == 0 then []
    else
      var before := Cards(ads, columns, n - 1);
      match CardOf(ads[n - 1], n - 1, columns)
      case None => before
      case Some(c) => before + [c]
  }

  /** Some card was drawn for the ad at `idx`. */
  predicate Drawn(cards: seq<Card>, idx: nat) {
    exists k :: 0 <= k < |cards| && cards[k].index == idx
  }

  /** Every ad with an image URL is drawn, and no other. */
  lemma {:induction false} CardsCoverImagedAds(ads: seq<Record>, columns: nat, n: nat, idx: nat)
    requires columns >= 1 && idx < n <= |ads|
    ensures ImageOf(ads[idx]) != "" <==> Drawn(Cards(ads, columns, n), idx)
    decreases n
  {
    var before := Cards(ads, columns, n - 1);
    CardsSnoc(ads, columns, n);
    if idx < n - 1 {
      CardsCoverImagedAds(ads, columns, n - 1, idx);
    } else {
      assert !Drawn(before, idx);
    }
    match CardOf(ads[n - 1], n - 1, columns)
    case None =>
      assert Cards(ads, columns, n) == before;
    case Some(c) =>
      assert Cards(ads, columns, n) == before + [c];
      DrawnAppend(before, [c], idx);
      if idx == n - 1 {
        assert [c][0].index == idx;
      }
  }

  /** The cards for `n` ads are those for the first `n - 1` followed by
      the last ad's card, if it has one. */
  lemma CardsSnoc(ads: seq<Record>, columns: nat, n: nat)
    requires columns >= 1 && 0 < n <= |ads|
    ensures var c := CardOf(ads[n - 1], n - 1, columns);
            Cards(ads, columns, n) == Cards(ads, columns, n - 1) + (if c.Some? then [c.value] else [])
  {
  }

  /** A card is drawn in a concatenation exactly when it is drawn in one
      of the two parts. */
  lemma DrawnAppend(cs: seq<Card>, ext: seq<Card>, idx: nat)
    ensures Drawn(cs + ext, idx) <==> Drawn(cs, idx) || Drawn(ext, idx)
  {
    var r := cs + ext;
    if Drawn(r, idx) {
      var k :| 0 <= k < |r| && r[k].index == idx;
      if k < |cs| {
        assert cs[k] == r[k];
      } else {
        assert ext[k - |cs|] == r[k];
      }
    }
    if Drawn(cs, idx) {
      var k :| 0 <= k < |cs| && cs[k].index == idx;
      assert r[k] == cs[k];
    }
    if Drawn(ext, idx) {
      var k :| 0 <= k < |ext| && ext[k].index == idx;
      assert r[|cs| + k] == ext[k];
    }
  }

  /** Each card is the card of the ad it was drawn for: its image URL, its
      advertiser (`Unknown` when the column is absent), its date caption
      cut to ten characters and its ad text cut to a hundred. */
  lemma {:induction false} CardsShowTheirAds(ads: seq<Record>, columns: nat, n: nat, k: nat)
    requires columns >= 1 && n <= |ads| && k < |Cards(ads, columns, n)|
    ensures var c := Cards(ads, columns, n)[k];
            Some(c) == CardOf(ads[c.index], c.index, columns)
    decreases n
  {
    var before := Cards(ads, columns, n - 1);
    var last := CardOf(ads[n - 1], n - 1, columns);
    assert Cards(ads, columns, n) == before + (if last.Some? then [last.value] else []);
    if k < |before| {
      CardsShowTheirAds(ads, columns, n - 1, k);
    }
  }

  /** `render_gallery`: the ad at position `idx` goes to column
      `idx % columns`; ads without an image URL are skipped. */
  method RenderGallery(ads: seq<Record>, columns: nat) returns (cards: seq<Card>)
    requires columns >= 1
    ensures cards == Cards(ads, columns, |ads|)
  {
    cards := [];
    var idx := 0;
    while idx < |ads|
      invariant 0 <= idx <= |ads|
      invariant cards == Cards(ads, columns, idx)
    {
      var card := CardOf(ads[idx], idx, columns);
      CardsSnoc(ads, columns, idx + 1);
      if card.Some? {
        cards := cards + [card.value];
      }
      idx := idx + 1;
    }
  }

  // ---------------------------------------------------------------------
  // The header names the app reads against those the sheet writer uses
  // ---------------------------------------------------------------------

  /** A record of a keyword tab as the sheet writer lays it out: every
      header is one of the writer's. */
  predicate WriterRecord(ad: Record) {
    forall key :: key in ad ==> key in WriteSheets.KeywordHeaders
  }

  /** As written, the app reads `수집일` and `광고 문구` while the writer
      emits `수집일시` and `광고문구`: on records the writer produced, the
      date filter keeps every ad whatever the range, and no card carries a
      date caption or an ad text. */
  lemma AsWrittenHeadersNeverMatch(ads: seq<Record>, range: seq<int>, strptime: (string, string) -> Option<DateTime>, columns: nat)
    requires columns >= 1
    requires forall k :: 0 <= k < |ads| ==> WriterRecord(ads[k])
    ensures DateFiltered(ads, range, strptime) == ads
    ensures forall k :: 0 <= k < |Cards(ads, columns, |ads|)| ==>
              Cards(ads, columns, |ads|)[k].caption.None? && Cards(ads, columns, |ads|)[k].adText.None?
  {
    assert DateHeader !in WriteSheets.KeywordHeaders && TextHeader !in WriteSheets.KeywordHeaders;
    if ads != [] && |range| == 2 {
      forall k | 0 <= k < |ads| ensures KeepFn(range[0], range[1], strptime)(ads[k]) {
        assert DateHeader !in ads[k];
      }
      FilterAll(ads, KeepFn(range[0], range[1], strptime));
    }
    var cards := Cards(ads, columns, |ads|);
    forall k | 0 <= k < |cards| ensures cards[k].caption.None? && cards[k].adText.None? {
      CardsShowTheirAds(ads, columns, |ads|, k);
      assert DateHeader !in ads[cards[k].index] && TextHeader !in ads[cards[k].index];
    }
  }
}
