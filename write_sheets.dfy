/** Writing ads to a spreadsheet (`src/04_write_sheets.py`).

    The spreadsheet is a class whose one field maps each worksheet title to
    its rows, each row a list of cell strings; the calls to the Sheets
    service become updates of that map. Downloads, the hash function, the
    text encoder and the OCR engine are parameters. */
module WriteSheets {
  import opened Wrappers
  import opened Text
  import opened Records

  type Row = seq<string>

  /** The header row of a keyword tab. */
  const KeywordHeaders: Row := ["수집일시", "광고주", "광고문구", "이미지", "이미지텍스트", "비디오URL", "광고링크", "이미지해시"]

  /** The header row of the `ads_raw` tab. */
  const RawHeaders: Row := ["collected_at", "query", "ad_id", "page_name", "ad_snapshot_url", "image_file_path",
                            "image_drive_url", "platforms", "start_date", "end_date", "status"]

  const RawTitle: string := "ads_raw"

  /** The column of a keyword tab that holds the image hash. */
  const HashColumn: nat := 7

  // ---------------------------------------------------------------------
  // Worksheet contents as the Sheets service reports and appends them
  // ---------------------------------------------------------------------

  /** A row as `row_values` reports it: without its trailing empty cells. */
  function TrimRow(row: Row): (r: Row)
    ensures r <= row
    ensures r == [] || r[|r| - 1] != ""
    ensures forall k :: |r| <= k < |row| ==> row[k] == ""
  {
    if row == [] then []
    else if row[|row| - 1] == "" then TrimRow(row[..|row| - 1])
    else row
  }

  /** `row_values(1)`: the first row's values, empty for a sheet without rows. */
  function FirstRowValues(rows: seq<Row>): Row {
    if rows == [] then [] else TrimRow(rows[0])
  }

  predicate Blank(row: Row) { TrimRow(row) == [] }

  /** The rows up to the last one that holds a value: appending writes below them. */
  function DataRows(rows: seq<Row>): (r: seq<Row>)
    ensures r <= rows
    ensures r == [] || !Blank(r[|r| - 1])
    ensures forall k :: |r| <= k < |rows| ==> Blank(rows[k])
  {
    if rows == [] then []
    else if Blank(rows[|rows| - 1]) then DataRows(rows[..|rows| - 1])
    else rows
  }

  /** `append_row` / `append_rows`: the new rows go right after the data. */
  function Appended(rows: seq<Row>, added: seq<Row>): seq<Row> {
    DataRows(rows) + added
  }

  /** `update([headers], 'A1')`: the headers overwrite the first cells of
      row 1; cells of the old row beyond them stay. */
  function OverwriteFirstRow(rows: seq<Row>, headers: Row): seq<Row>
    requires rows != []
  {
    [headers + (if |rows[0]| > |headers| then rows[0][|headers|..] else [])] + rows[1..]
  }

  /** The rows of `title`; a title without a worksheet has an empty one
      created for it, which has no rows yet. */
  function SheetRows(sheets: map<string, seq<Row>>, title: string): seq<Row> {
    if title in sheets then sheets[title] else []
  }

  /** A worksheet after `ensure_worksheet`'s header rule: headers appended
      when row 1 has no values, row 1 overwritten when it differs from the
      headers, and nothing done when it is equal. */
  function WithHeaders(rows: seq<Row>, headers: Row): seq<Row> {
    if FirstRowValues(rows) == [] then Appended(rows, [headers])
    else if FirstRowValues(rows) != headers then OverwriteFirstRow(rows, headers)
    else rows
  }

  lemma {:induction false} TrimPadded(headers: Row, pad: Row)
    requires headers != [] && headers[|headers| - 1] != ""
    requires forall k :: 0 <= k < |pad| ==> pad[k] == ""
    ensures TrimRow(headers + pad) == headers
    decreases |pad|
  {
    if pad == [] {
      assert headers + pad == headers;
    } else {
      assert (headers + pad)[..|headers + pad| - 1] == headers + pad[..|pad| - 1];
      TrimPadded(headers, pad[..|pad| - 1]);
    }
  }

  /** The header rule of `ensure_worksheet`. A sheet whose row 1 already
      reads as the headers is untouched. A sheet without any values (a new
      one included) holds exactly the header row afterwards. A sheet whose
      row 1 has other values keeps its rows, gets the headers at the start
      of row 1, and reads as the headers when its old row 1 had no more
      values than there are headers. A blank row 1 above other data gets
      the headers appended below the data instead. */
  lemma {:induction false} HeaderRule(rows: seq<Row>, headers: Row)
    requires headers != [] && headers[|headers| - 1] != ""
    ensures FirstRowValues(rows) == headers ==> WithHeaders(rows, headers) == rows
    ensures DataRows(rows) == [] ==> WithHeaders(rows, headers) == [headers]
    ensures FirstRowValues(rows) == [] ==> WithHeaders(rows, headers) == DataRows(rows) + [headers]
    ensures FirstRowValues(rows) != [] ==>
              var after := WithHeaders(rows, headers);
              |after| == |rows| && after[1..] == rows[1..] && headers <= after[0]
    ensures FirstRowValues(rows) != [] && |FirstRowValues(rows)| <= |headers| ==>
              FirstRowValues(WithHeaders(rows, headers)) == headers
  {
    if FirstRowValues(rows) != [] && FirstRowValues(rows) != headers {
      var pad := if |rows[0]| > |headers| then rows[0][|headers|..] else [];
      var after := OverwriteFirstRow(rows, headers);
      assert after[0] == headers + pad;
      assert after[0][..|headers|] == headers;
      if |FirstRowValues(rows)| <= |headers| {
        forall k | 0 <= k < |pad|
          ensures pad[k] == ""
        {
          assert pad[k] == rows[0][|headers| + k];
        }
        TrimPadded(headers, pad);
      }
    }
    if DataRows(rows) == [] && rows != [] {
      assert Blank(rows[0]);
    }
  }

  // ---------------------------------------------------------------------
  // Hashes already in a keyword tab
  // ---------------------------------------------------------------------

  /** The hash a data row contributes: its stripped cell in `col`, when the
      row is long enough and the cell is not blank. */
  function CellHash(row: Row, col: nat): set<Digest> {
    if |row| > col && row[col] != "" && Strip(row[col]) != "" then {Strip(row[col])} else {}
  }

  /** The hashes of rows `1 .. k-1` (row 0 is the header). */
  function ColumnHashes(rows: seq<Row>, col: nat, k: nat): set<Digest>
    requires k <= |rows|
  {
    if k <= 1 then {} else ColumnHashes(rows, col, k - 1) + CellHash(rows[k - 1], col)
  }

  /** A hash is loaded exactly when some data row below the header has it,
      stripped and non-empty, in the hash column. */
  lemma {:induction false} ColumnHashesMeaning(rows: seq<Row>, col: nat, k: nat)
    requires k <= |rows|
    ensures forall h :: h in ColumnHashes(rows, col, k) <==>
              exists j :: 1 <= j < k && col < |rows[j]| && h != "" && Strip(rows[j][col]) == h
  {
    if k > 1 {
      ColumnHashesMeaning(rows, col, k - 1);
      forall h | h in ColumnHashes(rows, col, k)
        ensures exists j :: 1 <= j < k && col < |rows[j]| && h != "" && Strip(rows[j][col]) == h
      {
        if h !in ColumnHashes(rows, col, k - 1) {
          assert h in CellHash(rows[k - 1], col);
        }
      }
      forall h, j | 1 <= j < k && col < |rows[j]| && h != "" && Strip(rows[j][col]) == h
        ensures h in ColumnHashes(rows, col, k)
      {
        if j == k - 1 {
          assert rows[j][col] != "";
        }
      }
    }
  }

  /** `get_existing_image_hashes`: the hashes of the hash column, or the
      empty set when reading the sheet fails (`readOk` false). */
  method GetExistingImageHashes(rows: seq<Row>, col: nat, readOk: bool) returns (existing: set<Digest>)
    ensures existing == (if readOk then ColumnHashes(rows, col, |rows|) else {})
  {
    existing := {};
    if !readOk {
      return;
    }
    if |rows| > 1 {
      var j := 1;
      while j < |rows|
        invariant 1 <= j <= |rows|
        invariant existing == ColumnHashes(rows, col, j)
      {
        var row := rows[j];
        assert ColumnHashes(rows, col, j + 1) == ColumnHashes(rows, col, j) + CellHash(row, col);
        if |row| > col && row[col] != "" {
          var imageHash := Strip(row[col]);
          if imageHash != "" {
            existing := existing + {imageHash};
          }
        }
        j := j + 1;
      }
    }
  }

  // ---------------------------------------------------------------------
  // Lookup tables built from upload results, later entries winning
  // ---------------------------------------------------------------------

  /** The table a loop `for x in xs: if key(x): m[key(x)] = val(x)` builds
      from the first `k` entries. */
  function Index<T, V>(xs: seq<T>, key: T -> Option<string>, val: T -> V, k: nat): map<string, V>
    requires k <= |xs|
  {
    if k == 0 then map[]
    else
      var m := Index(xs, key, val, k - 1);
      match key(xs[k - 1])
      case None => m
      case Some(x) => m[x := val(xs[k - 1])]
  }

  /** A key is in the table exactly when some entry has it, and it maps to
      the value of the last such entry. */
  lemma {:induction false} IndexMeaning<T, V>(xs: seq<T>, key: T -> Option<string>, val: T -> V, k: nat)
    requires k <= |xs|
    ensures forall x :: x in Index(xs, key, val, k) <==> exists j :: 0 <= j < k && key(xs[j]) == Some(x)
    ensures forall x :: x in Index(xs, key, val, k) ==>
              exists j :: 0 <= j < k && key(xs[j]) == Some(x) && Index(xs, key, val, k)[x] == val(xs[j]) &&
                          forall j' :: j < j' < k ==> key(xs[j']) != Some(x)
  {
    if k > 0 {
      IndexMeaning(xs, key, val, k - 1);
    }
  }

  /** The drive table's key for an entry: its hash, for successful uploads
      that carry one. */
  function DriveKey(u: UploadResult): Option<string> {
    if u.status == Some("success") && Truthy(u.imageHash) then u.imageHash else None
  }

  function FormulaUrlOf(u: UploadResult): string { u.formulaUrl.GetOr("") }

  /** `drive_url_map` of `write_ads_by_keyword`: hash to formula URL. */
  function DriveUrlMap(uploads: Option<seq<UploadResult>>): map<Digest, string> {
    if uploads.None? then map[] else Index(uploads.value, DriveKey, FormulaUrlOf, |uploads.value|)
  }

  method BuildDriveUrlMap(uploads: Option<seq<UploadResult>>) returns (m: map<Digest, string>)
    ensures m == DriveUrlMap(uploads)
  {
    m := map[];
    if uploads.Some? {
      var results := uploads.value;
      var j := 0;
      while j < |results|
        invariant 0 <= j <= |results|
        invariant m == Index(results, DriveKey, FormulaUrlOf, j)
      {
        var result := results[j];
        if result.status == Some("success") && Truthy(result.imageHash) {
          m := m[result.imageHash.value := result.formulaUrl.GetOr("")];
        }
        j := j + 1;
      }
    }
  }

  /** The `upload_map` key of a file name: the text after its last `_`
      without `.png` and `.jpg`; names without `_` have none. */
  function UploadKey(filename: string): (r: Option<string>)
    ensures r.None? <==> '_' !in filename
  {
    match AfterLast(filename, '_')
    case None => None
    case Some(t) => Some(RemoveAll(RemoveAll(t, ".png"), ".jpg"))
  }

  function UploadKeyOf(u: UploadResult): Option<string> { UploadKey(u.filename.GetOr("")) }

  function Same(u: UploadResult): UploadResult { u }

  /** `upload_map` of `write_ads_raw`: key to the whole upload entry. */
  function UploadMap(uploads: Option<seq<UploadResult>>): map<string, UploadResult> {
    if uploads.None? then map[] else Index(uploads.value, UploadKeyOf, Same, |uploads.value|)
  }

  method BuildUploadMap(uploads: Option<seq<UploadResult>>) returns (m: map<string, UploadResult>)
    ensures m == UploadMap(uploads)
  {
    m := map[];
    if uploads.Some? {
      var results := uploads.value;
      var j := 0;
      while j < |results|
        invariant 0 <= j <= |results|
        invariant m == Index(results, UploadKeyOf, Same, j)
      {
        var result := results[j];
        var filename := result.filename.GetOr("");
        var adId := AfterLast(filename, '_');
        if adId.Some? {
          m := m[RemoveAll(RemoveAll(adId.value, ".png"), ".jpg") := result];
        }
        j := j + 1;
      }
    }
  }

  /** A name `<anything>_<key>.png` whose key has neither `_` nor `.` maps
      to that key. The files the local fetch stage writes are named
      `<date>_<page>_<hash[:8]>.png`, so their key is the hash prefix
      rather than an ad id. */
  lemma UploadKeyOfName(front: string, key: string)
    requires '_' !in key && '.' !in key
    ensures UploadKey(front + "_" + key + ".png") == Some(key)
  {
    assert front + "_" + key + ".png" == front + ['_'] + (key + ".png");
    assert '_' !in key + ".png";
    AfterLastOfJoin(front, key + ".png", '_');
    RemoveAllSuffix(key, ".png");
    RemoveAllSuffix(key, ".jpg");
  }

  // ---------------------------------------------------------------------
  // Keyword tab rows
  // ---------------------------------------------------------------------

  /** `calculate_image_hash`: None for empty bytes, the hash otherwise. */
  function SheetImageHash(hash: Bytes -> Digest, b: Bytes): (r: Option<Digest>)
    ensures r.None? <==> |b| == 0
    ensures r.Some? ==> r.value == hash(b)
  {
    if |b| == 0 then None else Some(hash(b))
  }

  /** The formula the writer puts in an image cell. */
  function ImageFormula(u: string): string { "=IMAGE(\"" + u + "\")" }

  /** The ad text cell: a list of lines is joined with newlines. */
  function AdTextCell(ad: Ad): string {
    match ad.adText
    case None => ""
    case Some(Single(line)) => line
    case Some(Lines(lines)) => Join(lines, "\n")
  }

  function FirstOrEmpty(xs: seq<string>): string { if xs != [] then xs[0] else "" }

  /** The image cell: the drive URL of the hash when the table has a
      non-empty one, otherwise the ad's own image URL. */
  function ImageCell(driveMap: map<Digest, string>, h: Digest, imageUrl: string): string {
    if h in driveMap && driveMap[h] != "" then ImageFormula(driveMap[h]) else ImageFormula(imageUrl)
  }

  function KeywordRow(collectedAt: string, ad: Ad, cell: string, imageText: string, h: Digest): (r: Row)
    ensures |r| == |KeywordHeaders| && r[HashColumn] == h
  {
    [collectedAt, ad.pageName.GetOr(""), AdTextCell(ad), cell, imageText, FirstOrEmpty(ad.videoUrls),
     ad.snapshotUrl.GetOr(""), h]
  }

  /** What one run observes: downloads by ad position, the hash function,
      the UTF-8 encoder and the OCR engine. */
  datatype KeywordWorld = KeywordWorld(
    download: nat -> Option<Bytes>,
    hash: Bytes -> Digest,
    encode: string -> Bytes,
    ocr: Bytes -> string)

  /** The loop's variables: rows to append, hashes seen, the counters. */
  datatype KeywordState = KeywordState(rows: seq<Row>, existing: set<Digest>, skipped: nat, noImage: nat)

  /** The hash of an ad's image and its OCR text: the content hash when the
      download gave bytes, otherwise the hash of the URL text and no text. */
  function HashAndText(w: KeywordWorld, i: nat, imageUrl: string): (Digest, string) {
    var bytes := w.download(i);
    if Downloaded(bytes) then (SheetImageHash(w.hash, bytes.value).value, w.ocr(bytes.value))
    else (w.hash(w.encode(imageUrl)), "")
  }

  /** One iteration of `write_ads_by_keyword`'s loop, for the ad at `i`. */
  function KeywordStep(w: KeywordWorld, driveMap: map<Digest, string>, collectedAt: string, skip: bool,
                       st: KeywordState, i: nat, ad: Ad): KeywordState
  {
    var imageUrl := FirstOrEmpty(ad.imageUrls);
    if imageUrl == "" then st.(noImage := st.noImage + 1)
    else
      var (h, text) := HashAndText(w, i, imageUrl);
      if skip && h in st.existing then st.(skipped := st.skipped + 1)
      else st.(rows := st.rows + [KeywordRow(collectedAt, ad, ImageCell(driveMap, h, imageUrl), text, h)],
               existing := st.existing + {h})
  }

  /** An ad whose image downloaded and is not a skipped duplicate gets a
      row whose hash cell is the content hash and whose text cell is the
      OCR text of the bytes. */
  lemma DownloadedRowHashesContent(w: KeywordWorld, driveMap: map<Digest, string>, collectedAt: string, skip: bool,
                                   st: KeywordState, i: nat, ad: Ad)
    requires FirstOrEmpty(ad.imageUrls) != "" && Downloaded(w.download(i))
    requires !(skip && w.hash(w.download(i).value) in st.existing)
    ensures var next := KeywordStep(w, driveMap, collectedAt, skip, st, i, ad);
            var h := w.hash(w.download(i).value);
            |next.rows| == |st.rows| + 1 && next.rows[..|st.rows|] == st.rows &&
            next.rows[|st.rows|][HashColumn] == h && next.rows[|st.rows|][4] == w.ocr(w.download(i).value) &&
            next.rows[|st.rows|][3] == ImageCell(driveMap, h, ad.imageUrls[0]) &&
            next.existing == st.existing + {h} && next.skipped == st.skipped && next.noImage == st.noImage
  {
    var next := KeywordStep(w, driveMap, collectedAt, skip, st, i, ad);
    assert next.rows[..|st.rows|] == st.rows;
  }

  /** An ad whose download failed falls back to the hash of its image URL's
      encoding and an empty text cell; the dedup check then compares that
      URL hash. */
  lemma FailedDownloadHashesUrl(w: KeywordWorld, driveMap: map<Digest, string>, collectedAt: string, skip: bool,
                                st: KeywordState, i: nat, ad: Ad)
    requires FirstOrEmpty(ad.imageUrls) != "" && !Downloaded(w.download(i))
    ensures var next := KeywordStep(w, driveMap, collectedAt, skip, st, i, ad);
            var h := w.hash(w.encode(ad.imageUrls[0]));
            if skip && h in st.existing then next == st.(skipped := st.skipped + 1)
            else
              |next.rows| == |st.rows| + 1 && next.rows[..|st.rows|] == st.rows &&
              next.rows[|st.rows|][HashColumn] == h && next.rows[|st.rows|][4] == "" &&
              next.existing == st.existing + {h} && next.skipped == st.skipped && next.noImage == st.noImage
  {
    var next := KeywordStep(w, driveMap, collectedAt, skip, st, i, ad);
    var h := w.hash(w.encode(ad.imageUrls[0]));
    if !(skip && h in st.existing) {
      assert next.rows[..|st.rows|] == st.rows;
    }
  }

  function KeywordRun(w: KeywordWorld, driveMap: map<Digest, string>, collectedAt: string, skip: bool,
                      ads: seq<Ad>, st0: KeywordState, k: nat): KeywordState
    requires k <= |ads|
  {
    if k == 0 then st0
    else KeywordStep(w, driveMap, collectedAt, skip, KeywordRun(w, driveMap, collectedAt, skip, ads, st0, k - 1),
                     k - 1, ads[k - 1])
  }

  /** The number of ads among the first `k` whose first image URL is empty. */
  function NoImageUrlCount(ads: seq<Ad>, k: nat): nat
    requires k <= |ads|
  {
    if k == 0 then 0 else NoImageUrlCount(ads, k - 1) + (if FirstOrEmpty(ads[k - 1].imageUrls) == "" then 1 else 0)
  }

  /** The per-ad loop of `write_ads_by_keyword`. */
  method BuildKeywordRows(w: KeywordWorld, driveMap: map<Digest, string>, collectedAt: string, skip: bool,
                          ads: seq<Ad>, existing0: set<Digest>)
    returns (rows: seq<Row>, existing: set<Digest>, skipped: nat, noImage: nat)
    ensures KeywordState(rows, existing, skipped, noImage) ==
            KeywordRun(w, driveMap, collectedAt, skip, ads, KeywordState([], existing0, 0, 0), |ads|)
  {
    ghost var st0 := KeywordState([], existing0, 0, 0);
    rows, existing, skipped, noImage := [], existing0, 0, 0;
    var i := 0;
    while i < |ads|
      invariant 0 <= i <= |ads|
      invariant KeywordState(rows, existing, skipped, noImage) == KeywordRun(w, driveMap, collectedAt, skip, ads, st0, i)
    {
      var ad := ads[i];
      var imageUrl := FirstOrEmpty(ad.imageUrls);
      if imageUrl == "" {
        noImage := noImage + 1;
      } else {
        var imageBytes := w.download(i);
        var imageHash, imageText;
        if Downloaded(imageBytes) {
          imageHash := SheetImageHash(w.hash, imageBytes.value).value;
          imageText := w.ocr(imageBytes.value);
        } else {
          imageHash := w.hash(w.encode(imageUrl));
          imageText := "";
        }
        if skip && imageHash in existing {
          skipped := skipped + 1;
        } else {
          existing := existing + {imageHash};
          var imageCell := ImageCell(driveMap, imageHash, imageUrl);
          rows := rows + [KeywordRow(collectedAt, ad, imageCell, imageText, imageHash)];
        }
      }
      i := i + 1;
    }
  }

  /** Every ad ends in exactly one place: a row, a skipped duplicate, or
      the no-image count. */
  lemma {:induction false} KeywordPartition(w: KeywordWorld, driveMap: map<Digest, string>, collectedAt: string,
                                            skip: bool, ads: seq<Ad>, st0: KeywordState, k: nat)
    requires k <= |ads|
    ensures var st := KeywordRun(w, driveMap, collectedAt, skip, ads, st0, k);
            |st.rows| + st.skipped + st.noImage == k + |st0.rows| + st0.skipped + st0.noImage &&
            st.noImage == st0.noImage + NoImageUrlCount(ads, k)
  {
    if k > 0 {
      KeywordPartition(w, driveMap, collectedAt, skip, ads, st0, k - 1);
    }
  }

  /** The seen set holds the loaded hashes and the hash of every row; with
      duplicates skipped, the rows' hashes are pairwise distinct and none
      of them was loaded from the sheet. */
  lemma {:induction false} KeywordHashesFresh(w: KeywordWorld, driveMap: map<Digest, string>, collectedAt: string,
                                              skip: bool, ads: seq<Ad>, existing0: set<Digest>, k: nat)
    requires k <= |ads|
    ensures FreshRows(KeywordRun(w, driveMap, collectedAt, skip, ads, KeywordState([], existing0, 0, 0), k),
                      collectedAt, skip, existing0)
  {
    if k > 0 {
      KeywordHashesFresh(w, driveMap, collectedAt, skip, ads, existing0, k - 1);
      var prev := KeywordRun(w, driveMap, collectedAt, skip, ads, KeywordState([], existing0, 0, 0), k - 1);
      StepKeepsRowsFresh(w, driveMap, collectedAt, skip, prev, k - 1, ads[k - 1], existing0);
    }
  }

  /** The rows built so far: eight cells each, stamped with the collection
      time, each hash in the existing set, which only grows; with
      duplicates skipped, no row's hash was existing at the start and no
      two rows share a hash. */
  predicate FreshRows(st: KeywordState, collectedAt: string, skip: bool, existing0: set<Digest>) {
    existing0 <= st.existing &&
    (forall j :: 0 <= j < |st.rows| ==>
       |st.rows[j]| == 8 && st.rows[j][0] == collectedAt && st.rows[j][HashColumn] in st.existing) &&
    (skip ==> (forall j :: 0 <= j < |st.rows| ==> st.rows[j][HashColumn] !in existing0) &&
              (forall j1, j2 :: 0 <= j1 < j2 < |st.rows| ==> st.rows[j1][HashColumn] != st.rows[j2][HashColumn]))
  }

  /** One iteration either adds no row, or adds one row of eight cells
      stamped with the collection time whose hash joins the existing set,
      and which was not in it before when duplicates are skipped. */
  lemma KeywordStepAdds(w: KeywordWorld, driveMap: map<Digest, string>, collectedAt: string, skip: bool,
                        st: KeywordState, i: nat, ad: Ad)
    ensures var next := KeywordStep(w, driveMap, collectedAt, skip, st, i, ad);
            st.existing <= next.existing &&
            (next.rows == st.rows ||
             (|next.rows| == |st.rows| + 1 && next.rows[..|st.rows|] == st.rows &&
              |next.rows[|st.rows|]| == 8 && next.rows[|st.rows|][0] == collectedAt &&
              next.rows[|st.rows|][HashColumn] in next.existing &&
              (skip ==> next.rows[|st.rows|][HashColumn] !in st.existing)))
  {
  }

  /** One iteration keeps the rows fresh. */
  lemma StepKeepsRowsFresh(w: KeywordWorld, driveMap: map<Digest, string>, collectedAt: string, skip: bool,
                           st: KeywordState, i: nat, ad: Ad, existing0: set<Digest>)
    requires FreshRows(st, collectedAt, skip, existing0)
    ensures FreshRows(KeywordStep(w, driveMap, collectedAt, skip, st, i, ad), collectedAt, skip, existing0)
  {
    var next := KeywordStep(w, driveMap, collectedAt, skip, st, i, ad);
    KeywordStepAdds(w, driveMap, collectedAt, skip, st, i, ad);
    if next.rows != st.rows {
      forall j | 0 <= j < |st.rows| ensures next.rows[j] == st.rows[j] {
        assert next.rows[..|st.rows|][j] == st.rows[j];
      }
    }
  }

  /** The image cell of a row uses the drive URL of the last successful
      upload with that hash when it is non-empty, and the ad's own URL when
      no successful upload has that hash. */
  lemma ImageCellFromUploads(uploads: seq<UploadResult>, h: Digest, imageUrl: string, j: nat)
    requires j < |uploads| && DriveKey(uploads[j]) == Some(h)
    requires forall j' :: j < j' < |uploads| ==> DriveKey(uploads[j']) != Some(h)
    ensures Truthy(uploads[j].formulaUrl) ==>
              ImageCell(DriveUrlMap(Some(uploads)), h, imageUrl) == ImageFormula(uploads[j].formulaUrl.value)
    ensures !Truthy(uploads[j].formulaUrl) ==> ImageCell(DriveUrlMap(Some(uploads)), h, imageUrl) == ImageFormula(imageUrl)
  {
    var m := Index(uploads, DriveKey, FormulaUrlOf, |uploads|);
    IndexMeaning(uploads, DriveKey, FormulaUrlOf, |uploads|);
    assert h in m;
    var j0 :| 0 <= j0 < |uploads| && DriveKey(uploads[j0]) == Some(h) && m[h] == FormulaUrlOf(uploads[j0]) &&
              forall j' :: j0 < j' < |uploads| ==> DriveKey(uploads[j']) != Some(h);
    assert j0 == j;
    assert DriveUrlMap(Some(uploads))[h] == FormulaUrlOf(uploads[j]);
  }

  lemma NoUploadUsesOwnUrl(uploads: Option<seq<UploadResult>>, h: Digest, imageUrl: string)
    requires uploads.Some? ==> forall j :: 0 <= j < |uploads.value| ==> DriveKey(uploads.value[j]) != Some(h)
    ensures ImageCell(DriveUrlMap(uploads), h, imageUrl) == ImageFormula(imageUrl)
  {
    if uploads.Some? {
      IndexMeaning(uploads.value, DriveKey, FormulaUrlOf, |uploads.value|);
    }
  }

  // ---------------------------------------------------------------------
  // ads_raw rows
  // ---------------------------------------------------------------------

  /** The row of one ad in `ads_raw`. */
  function RawRow(collectedAt: string, query: string, ad: Ad, uploadMap: map<string, UploadResult>): Row {
    var adId := ad.id.GetOr("");
    var info := if adId in uploadMap then Some(uploadMap[adId]) else None;
    var imageUrl := if info.Some? then info.value.formulaUrl.GetOr("") else "";
    var imageCell := if imageUrl != "" then ImageFormula(imageUrl) else "";
    var localPath := if info.Some? then info.value.localPath.GetOr("") else "";
    [collectedAt, query, adId, ad.pageName.GetOr(""), ad.snapshotUrl.GetOr(""), localPath, imageCell,
     Join(ad.platforms, ", "), ad.startTime.GetOr(""), ad.stopTime.GetOr(""), "success"]
  }

  function RawRows(collectedAt: string, query: string, ads: seq<Ad>, uploadMap: map<string, UploadResult>): seq<Row> {
    seq(|ads|, j requires 0 <= j < |ads| => RawRow(collectedAt, query, ads[j], uploadMap))
  }

  /** One `success` row per ad, in order, with as many cells as headers;
      the image cell is a formula exactly when the upload entry the ad's id
      keys has a non-empty formula URL. */
  lemma RawRowsShape(collectedAt: string, query: string, ads: seq<Ad>, uploads: Option<seq<UploadResult>>)
    ensures var rows := RawRows(collectedAt, query, ads, UploadMap(uploads));
            |rows| == |ads| &&
            forall j :: 0 <= j < |rows| ==>
              |rows[j]| == |RawHeaders| && rows[j][10] == "success" && rows[j][2] == ads[j].id.GetOr("") &&
              (rows[j][6] != "" <==>
                 var m := UploadMap(uploads); ads[j].id.GetOr("") in m && Truthy(m[ads[j].id.GetOr("")].formulaUrl))
  {
  }

  /** The loop of `write_ads_raw` that builds the rows. */
  method BuildRawRows(collectedAt: string, query: string, ads: seq<Ad>, uploadMap: map<string, UploadResult>)
    returns (rows: seq<Row>)
    ensures rows == RawRows(collectedAt, query, ads, uploadMap)
  {
    rows := [];
    var i := 0;
    while i < |ads|
      invariant 0 <= i <= |ads|
      invariant rows == RawRows(collectedAt, query, ads[..i], uploadMap)
    {
      rows := rows + [RawRow(collectedAt, query, ads[i], uploadMap)];
      assert ads[..i + 1] == ads[..i] + [ads[i]];
      i := i + 1;
    }
    assert ads[..i] == ads;
  }

  // ---------------------------------------------------------------------
  // The spreadsheet
  // ---------------------------------------------------------------------

  /** The rows, seen set and counters of `write_ads_by_keyword` on the
      spreadsheet `sheets`: the hashes it starts from are those of the
      query's tab (once the header rule has been applied) when duplicates
      are skipped and the tab can be read, and none otherwise. */
  function KeywordOutcome(sheets: map<string, seq<Row>>, data: RawData, uploads: Option<seq<UploadResult>>,
                          skip: bool, w: KeywordWorld, now: string, readOk: bool): KeywordState
  {
    TabOutcome(WithHeaders(SheetRows(sheets, data.query.GetOr("unknown")), KeywordHeaders),
               data, uploads, skip, w, now, readOk)
  }

  /** The same for the query's tab `tab` as the header rule leaves it. */
  function TabOutcome(tab: seq<Row>, data: RawData, uploads: Option<seq<UploadResult>>,
                      skip: bool, w: KeywordWorld, now: string, readOk: bool): KeywordState
  {
    var existing0 := if skip && readOk then ColumnHashes(tab, HashColumn, |tab|) else {};
    KeywordRun(w, DriveUrlMap(uploads), Prefix(data.collectedAt.GetOr(now), 10), skip,
               data.ads, KeywordState([], existing0, 0, 0), |data.ads|)
  }

  /** The rows and counters `write_ads_by_keyword` computes once the
      query's tab is `tab`. */
  method KeywordRowsOfTab(tab: seq<Row>, data: RawData, uploads: Option<seq<UploadResult>>,
                          skip: bool, w: KeywordWorld, now: string, readOk: bool)
    returns (rows: seq<Row>, skipped: nat, noImage: nat)
    ensures var run := TabOutcome(tab, data, uploads, skip, w, now, readOk);
            rows == run.rows && skipped == run.skipped && noImage == run.noImage
  {
    var collectedAt := Prefix(data.collectedAt.GetOr(now), 10);
    var existingHashes: set<Digest> := {};
    if skip {
      existingHashes := GetExistingImageHashes(tab, HashColumn, readOk);
    }
    var driveUrlMap := BuildDriveUrlMap(uploads);
    var seen;
    rows, seen, skipped, noImage := BuildKeywordRows(w, driveUrlMap, collectedAt, skip, data.ads, existingHashes);
  }

  /** A written keyword tab: every new row has the eight header columns,
      a date cut to ten characters, and, when duplicates are skipped and
      the tab could be read, a hash that no data row of the tab held. */
  lemma NewRowsAreNotInSheet(sheets: map<string, seq<Row>>, data: RawData, uploads: Option<seq<UploadResult>>,
                             skip: bool, w: KeywordWorld, now: string, readOk: bool)
    ensures var rows := KeywordOutcome(sheets, data, uploads, skip, w, now, readOk).rows;
            forall j :: 0 <= j < |rows| ==> |rows[j]| == |KeywordHeaders| && |rows[j][0]| <= 10
    ensures var tab := WithHeaders(SheetRows(sheets, data.query.GetOr("unknown")), KeywordHeaders);
            var rows := KeywordOutcome(sheets, data, uploads, skip, w, now, readOk).rows;
            skip && readOk ==>
              forall j, t :: 0 <= j < |rows| && 1 <= t < |tab| && HashColumn < |tab[t]| && Strip(tab[t][HashColumn]) != "" ==>
                rows[j][HashColumn] != Strip(tab[t][HashColumn])
  {
    var tab := WithHeaders(SheetRows(sheets, data.query.GetOr("unknown")), KeywordHeaders);
    var existing0 := if skip && readOk then ColumnHashes(tab, HashColumn, |tab|) else {};
    var collectedAt := Prefix(data.collectedAt.GetOr(now), 10);
    KeywordHashesFresh(w, DriveUrlMap(uploads), collectedAt, skip, data.ads, existing0, |data.ads|);
    ColumnHashesMeaning(tab, HashColumn, |tab|);
  }

  class Spreadsheet {
    /** Worksheet title to its rows. */
    var sheets: map<string, seq<Row>>

    constructor (initial: map<string, seq<Row>>)
      ensures sheets == initial
    {
      sheets := initial;
    }

    /** `ensure_worksheet`: creates the worksheet when it is missing and
      applies the header rule to it; no other worksheet changes. */
    method EnsureWorksheet(title: string, headers: Row)
      modifies this
      ensures sheets == old(sheets)[title := WithHeaders(SheetRows(old(sheets), title), headers)]
    {
      var rows := SheetRows(sheets, title);
      var existingHeaders := FirstRowValues(rows);
      if existingHeaders == [] {
        rows := Appended(rows, [headers]);
      } else if existingHeaders != headers {
        rows := OverwriteFirstRow(rows, headers);
      }
      sheets := sheets[title := rows];
    }

    /** `append_rows` on the worksheet `title`. */
    method AppendRows(title: string, added: seq<Row>)
      modifies this
      ensures sheets == old(sheets)[title := Appended(SheetRows(old(sheets), title), added)]
    {
      sheets := sheets[title := Appended(SheetRows(sheets, title), added)];
    }

    /** `write_ads_by_keyword`: ensures the query's tab, loads its hashes
      when duplicates are skipped, builds one row per new image and appends
      the rows when there are any. The clock's reading is `now`, and
      `readOk` says whether reading the tab's values succeeds. */
    method WriteAdsByKeyword(data: RawData, uploads: Option<seq<UploadResult>>, skip: bool, w: KeywordWorld,
                             now: string, readOk: bool)
      returns (rows: seq<Row>, skipped: nat, noImage: nat)
      modifies this
      ensures var run := KeywordOutcome(old(sheets), data, uploads, skip, w, now, readOk);
              rows == run.rows && skipped == run.skipped && noImage == run.noImage
      ensures var query := data.query.GetOr("unknown");
              var tab := WithHeaders(SheetRows(old(sheets), query), KeywordHeaders);
              sheets == old(sheets)[query := if rows == [] then tab else Appended(tab, rows)]
    {
      var query := data.query.GetOr("unknown");
      var tab := WithHeaders(SheetRows(sheets, query), KeywordHeaders);
      EnsureWorksheet(query, KeywordHeaders);
      assert sheets == old(sheets)[query := tab];
      rows, skipped, noImage := KeywordRowsOfTab(tab, data, uploads, skip, w, now, readOk);
      assert TabOutcome(tab, data, uploads, skip, w, now, readOk) == KeywordOutcome(old(sheets), data, uploads, skip, w, now, readOk);
      if rows != [] {
        AppendRows(query, rows);
      }
    }

    /** `write_ads_raw`: ensures the `ads_raw` tab and appends one row per
      ad when there are any. */
    method WriteAdsRaw(data: RawData, uploads: Option<seq<UploadResult>>, now: string)
      returns (rows: seq<Row>)
      modifies this
      ensures rows == RawRows(data.collectedAt.GetOr(now), data.query.GetOr(""), data.ads, UploadMap(uploads))
      ensures var tab := WithHeaders(SheetRows(old(sheets), RawTitle), RawHeaders);
              sheets == old(sheets)[RawTitle := if rows == [] then tab else Appended(tab, rows)]
    {
      var tab := WithHeaders(SheetRows(sheets, RawTitle), RawHeaders);
      EnsureWorksheet(RawTitle, RawHeaders);
      assert sheets == old(sheets)[RawTitle := tab];
      var collectedAt := data.collectedAt.GetOr(now);
      var query := data.query.GetOr("");
      var uploadMap := BuildUploadMap(uploads);
      rows := BuildRawRows(collectedAt, query, data.ads, uploadMap);
      if rows != [] {
        AppendRows(RawTitle, rows);
        assert sheets == old(sheets)[RawTitle := Appended(tab, rows)];
      }
    }
  }
}
