# Meta ad library scraper: a Dafny model of its sequential core

The system collects ad cards for a search keyword from the Meta ad
library. It can scrape the library page with a browser, or page through
the Graph API. It then pushes each ad's first image to several stores:
local files, a Cloudflare R2 bucket, imgbb and Google Drive. Each ad gets
a row in a Google Sheets tab named after the keyword. An OCR pass
extracts call-to-action, offer and key-claim text from the images, and
an idea generator summarises the most common patterns. A daily scheduler
and a batch runner drive the pipeline over a keyword registry. A
migration script copies the raw files and the registry into Supabase. A
Streamlit app shows the sheet as a gallery.

Almost every step wraps a browser, HTTP, S3, Google or Supabase call.
This model keeps the sequential logic under those calls and replaces
each external call with an oracle passed in as a parameter:

- a download is an `Option<Bytes>` per ad index;
- the MD5 content hash is an arbitrary function `hash: Bytes -> Digest`;
- an existence check or an upload result is a boolean or an `Option` per index;
- the card count seen in each scroll round is a `nat -> nat`;
- the outcome of the `j`-th pipeline call is a `nat -> Outcome`.

With these parameters, the following are modelled as the code does them:

- the scroll loop with stall detection, the selector fallbacks and the per-card field extraction;
- the API pagination loop;
- the four content-hash dedup loops (local files, R2, imgbb, sheet rows), each with its counters and seen-hash set;
- the sheet header rule and row layout;
- OCR key-claim selection;
- frequency and top-five pattern analysis;
- the scheduler's daily quota loop and the keyword registry;
- the batch runner;
- the migration counters;
- the webapp's formula decoder, date filter and gallery layout;
- `get_env`.

Layout:

- One module per source file: `CollectAds`, `CollectAdsApi`, `FetchCreatives`, `UploadR2`, `UploadImgbb`, `UploadDrive`, `WriteSheets`, `Ocr`, `GenerateIdeas`, `Scheduler`, `CollectAllKeywords`, `MigrateToSupabase`, `Webapp`, `Config`.
- Shared modules:
  - `Records`: the raw ad record and the hash-log rules.
  - `Pipeline`: the signature of `run_full_pipeline`.
  - `Text`: Python string operations such as `strip`, `split`, slicing and the file-name sanitiser.
  - `Wrappers`: `Option` and `Result`.

How each kind of code is modelled:

- Loops that update state step by step are methods with loop invariants.
- Each such method is proved equal to a fold function over the input prefix: `Run`, `KeywordRun`, `Collect`, `RunFile` and similar.
- Lemmas about the fold state what the loop guarantees. Examples: every ad lands in exactly one counter; the seen set only grows; rows carry fresh hashes; a request never exceeds the remaining quota.
- Objects whose state the code changes in place are Dafny objects:
  - the ad list of an upload loop is an `array<Ad>`;
  - the spreadsheet is a `WriteSheets.Spreadsheet` with a map from tab title to rows;
  - the keyword file is a `Scheduler.KeywordRegistry`.

The model follows the code as written in the places below. In each, the
code behaves differently from what its names, its neighbouring modules or
the data it is given would suggest:

- **Scroll stall.** The stall counter compares each count with the previous observation, and that starts at 0. So a count must repeat three times in a row after it first appears. The counts 3, 5, 5, 5 do not stop the loop; the fifth round does (`CollectAds.StallStopsAtFifthRound`).
- **Scheduler limit.** The request limit is `min(kw.get("limit", 20), remaining)`. A stored limit of 0 or less is passed on as it is. Only a positive stored limit guarantees a request of at least one (`Scheduler.RequestIsPositive`).
- **Header rule.** `ensure_worksheet` overwrites row 1 from A1. Cells of a longer old row 1 beyond the headers stay (`WriteSheets.HeaderRule`).
- **imgbb URL.** imgbb's reply is taken when its URL is present. An empty URL then leaves the ad without a truthy URL, and the ad counts as failed.
- **Pipeline calls.** `run_full_pipeline` (src/07_run_weekly.py:22-29) declares `skip_r2` but neither `skip_download`, `skip_upload` nor `skip_sheets`. Every scheduler call and every batch call therefore raises `TypeError` before the pipeline runs (`Scheduler.AsWrittenEveryCallRaises`, `CollectAllKeywords.AsWrittenEveryKeywordFails`). The loops are still modelled for an arbitrary outcome oracle.
- **Column names.** The webapp reads the columns `수집일` and `광고 문구`, but the sheet writer names them `수집일시` and `광고문구`. On tabs the writer produced, the date filter keeps everything, and no card shows a date or an ad text (`Webapp.AsWrittenHeadersNeverMatch`).
- **Drive hashes.** Drive upload results carry no `image_hash`, so the sheet writer's drive URL table built from them is always empty (`UploadDrive.DriveResultsGiveNoDriveUrls`).

## Model

| member | source | states |
|---|---|---|
| CollectAds.SearchParams | src/01_collect_ads.py:37-44 | the six URL parameters in their fixed order, with the country, the query under `q` and the `keyword_unordered` search type |
| CollectAds.BuildSearchUrl | src/01_collect_ads.py:29-45 | the URL is the library base URL, `?`, then the encoding of exactly those parameters |
| CollectAds.WaitForAdsLoad | src/01_collect_ads.py:48-70 | selectors are tried in order, each with `timeout // 4`; a reported hit did appear and every earlier selector did not; when none appears it still returns normally |
| CollectAds.FirstNonEmpty | src/01_collect_ads.py:120-128 | the containers are the result of the first selector that matches anything; empty exactly when all three match nothing |
| CollectAds.FindContainers | src/01_collect_ads.py:120-128 | the fallback chain of `extract_ad_data` returns the first non-empty selector result |
| CollectAds.ScrollAndLoadAds | src/01_collect_ads.py:73-112 | no result (unbound count) exactly when `max_scrolls <= 0`; otherwise it stops at the first round that reaches the target or sees a third unchanged count, or at round `max_scrolls`, and returns that round's count |
| CollectAds.StallStopsAtFifthRound | src/01_collect_ads.py:75-102 | counts 3,5,5,5,5… below the target stop in the fifth round with 5, not the fourth |
| CollectAds.EmptyPageStopsAtThirdRound | src/01_collect_ads.py:75-102 | a page that never shows a card stops in the third round, because the first 0 already repeats the initial 0 |
| CollectAds.KeptLinesAreStripped | src/01_collect_ads.py:160 | every kept line is non-empty and has no whitespace at either end |
| CollectAds.FirstKeptLine | src/01_collect_ads.py:160-163 | the first kept line is the first non-blank piece, stripped |
| CollectAds.PageNameOf | src/01_collect_ads.py:163 | the advertiser name is the first line cut to 100 characters |
| CollectAds.PageNameIsFirstNonBlankLine | src/01_collect_ads.py:158-163 | a card with text parses, and its page name is its first non-blank line, stripped and cut to 100 characters |
| CollectAds.LongLines | src/01_collect_ads.py:165 | every kept line is longer than 20 characters and is one of the lines |
| CollectAds.AdTextOf | src/01_collect_ads.py:166-167 | no ad text without long lines; the line itself when there is one; otherwise the first three as a list |
| CollectAds.CdnImages | src/01_collect_ads.py:170-175 | exactly the set sources containing `scontent` or `fbcdn` are kept |
| CollectAds.CollectImages | src/01_collect_ads.py:172-175 | the image loop computes the CDN sources |
| CollectAds.TruthyValues | src/01_collect_ads.py:189-192 | exactly the set, non-empty sources are kept |
| CollectAds.CollectSources | src/01_collect_ads.py:189-192 | the `<source>` loop computes the set sources |
| CollectAds.AllVideoSources | src/01_collect_ads.py:181-192 | every collected video source is non-empty |
| CollectAds.CollectVideos | src/01_collect_ads.py:182-192 | the video loop collects each video's own `src` and then its `<source>` sources |
| CollectAds.FirstIdLinkFrom | src/01_collect_ads.py:198-203 | the position of the first set href containing `id=`, with none before it; None when no href has one |
| CollectAds.DigitRun | src/01_collect_ads.py:205 | the maximal leading run of digits |
| CollectAds.FirstIdMatch | src/01_collect_ads.py:205 | the leftmost position where `id=` is followed by a digit |
| CollectAds.IdDigits | src/01_collect_ads.py:205-207 | None exactly when `id=\d` does not occur; otherwise the whole digit run after the leftmost match, non-empty, with `"id=" + id` in the href |
| CollectAds.SnapshotUrl | src/01_collect_ads.py:204 | site-relative hrefs get the `https://www.facebook.com` prefix; others are kept as they are |
| CollectAds.FindIdLink | src/01_collect_ads.py:198-208 | only the first href with `id=` is used, for both the snapshot link and the id; no href with one gives neither |
| CollectAds.ParseAdContainer | src/01_collect_ads.py:145-217 | the method computes the parsed card |
| CollectAds.ParsedCardShape | src/01_collect_ads.py:145-217 | a card that raises gives None; a parsed card has its index and time, at least one of page name, ad text, images or videos, only CDN images, no repeated image or video, a page name of at most 100 characters, and an all-digit id only together with a snapshot link |
| CollectAds.KeptParses | src/01_collect_ads.py:132-142 | no more ads than cards |
| CollectAds.KeptPositions | src/01_collect_ads.py:132-136 | one position per kept ad |
| CollectAds.KeptParsesInOrder | src/01_collect_ads.py:132-140 | each kept ad is the parse of the card at its position; positions strictly increase; every card that parses is kept, so a failing card is dropped alone |
| CollectAds.ExtractedIndicesIncrease | src/01_collect_ads.py:132-148 | each ad records the position of its card, and recorded positions strictly increase |
| CollectAds.ExtractAdData | src/01_collect_ads.py:115-142 | the ads are the successful parses of the first `limit` containers of the fallback chain, in order, and there are at most `limit` of them |
| CollectAdsApi.RequestParams | src/01_collect_ads_api.py:51-78 | the page size is `min(limit, 100)`; the reached countries default to `[country]`; page ids are sent comma-joined only when there are some, and they split back to the list |
| CollectAdsApi.Collect | src/01_collect_ads_api.py:83-109 | the ads held are never dropped; at least one request is made while fewer than `limit` are held; none once `limit` is reached |
| CollectAdsApi.Paginate | src/01_collect_ads_api.py:83-109 | the request loop computes the fold |
| CollectAdsApi.CollectAds | src/01_collect_ads_api.py:27-112 | an unset token fails with no request; otherwise the result is the first `limit` ads of the pages in order, and the requests are the fold's |
| CollectAdsApi.CollectedWithinLimit | src/01_collect_ads_api.py:83-112 | at most `max(limit, 0)` ads are returned; a first request that fails or returns an empty page ends the run after that one request with no ads |
| CollectAdsApi.CollectExtends | src/01_collect_ads_api.py:96 | pages are only appended: the ads already held stay a prefix |
| CollectAdsApi.OnlyBaseUrlCarriesParams | src/01_collect_ads_api.py:84-106 | only a request to the base URL carries the parameters, and they are always the original ones; follow-ups use only the next link |
| CollectAdsApi.SaveRawData | src/01_collect_ads_api.py:115-135 | the file name is `<timestamp>_<query sanitised to 30>.json`, and `count` equals the number of ads stored |
| Text.SafeName | src/01_collect_ads_api.py:120 | the sanitised name has `min(n, |s|)` characters, each alphanumeric or `_`, and alphanumeric characters are kept |
| Config.GetEnv | src/config.py:22-27 | the value when the key is set, even if empty, else the default; an error exactly when required and that value is falsy; never an error when not required |
| Config.RequiredEnv | src/config.py:36-53 | a required getter succeeds exactly when the variable is set and non-empty, and returns its value |
| Config.Country | src/config.py:31 | `COUNTRY` defaults to `KR` |
| Config.Query | src/config.py:32 | `QUERY` defaults to the empty string |
| Records.InitialSeen | src/03_upload_r2.py:144-150 | the seen set starts empty unless dedup is on and the log was read; it then holds exactly the logged hashes |
| Records.LogToWrite | src/03_upload_r2.py:212-218 | the log is written only with dedup on and a non-empty seen set, and then holds the seen set |
| FetchCreatives.ImageFileNameShape | src/02_fetch_creatives.py:110-113 | the file name `<date>_<page name sanitised to 20>_<hash[:8]>.png` starts with the date stamp, ends in `.png`, and its page-name part is at most 20 letters, digits or underscores |
| FetchCreatives.FetchCreativesFromRaw | src/02_fetch_creatives.py:54-160 | the results, the skip count and the files afterwards are those of the fold over the ads, starting from an empty seen set |
| FetchCreatives.EveryAdAccountedFor | src/02_fetch_creatives.py:78-107 | entries + skipped duplicates + imageless ads = ads processed |
| FetchCreatives.ResultsFollowAds | src/02_fetch_creatives.py:78-152 | entries come in strictly increasing ad order, each for an ad with images and its first URL |
| FetchCreatives.SeenIsRecordedHashes | src/02_fetch_creatives.py:89-107 | the seen set is exactly the set of hashes in the entries: a failed download adds none, and a hash whose save later failed stays seen |
| FetchCreatives.HashesDistinctWhenSkipping | src/02_fetch_creatives.py:104-107 | with duplicates skipped, no two entries carry the same hash |
| FetchCreatives.ExistingFileIsNotRewritten | src/02_fetch_creatives.py:117-127 | a present file gives an `exists` entry and the files stay unchanged |
| FetchCreatives.SuccessCount | src/02_fetch_creatives.py:157 | counts `success` and `exists` entries; equals the entry count exactly when none failed |
| UploadR2.R2PublicUrl | src/03_upload_r2.py:40-42 | an error exactly when the variable is unset or empty; otherwise a prefix of it with only trailing slashes removed |
| UploadR2.ProcessRawFileToR2 | src/03_upload_r2.py:122-231 | without a public URL it fails and changes nothing; otherwise the ads array, the log, the bucket and the summary are those of the fold, with `total` equal to the number of ads |
| UploadR2.UploadAds | src/03_upload_r2.py:158-209 | the ads array and the counters become those of the fold over the ads |
| UploadR2.ProcessAd | src/03_upload_r2.py:160-209 | one ad's step: the new URL, when there is one, replaces `r2_image_url` and lies under the public URL |
| UploadR2.CountersPartitionImagedAds | src/03_upload_r2.py:158-209 | uploaded + skipped + failed + imageless = ads processed |
| UploadR2.StepIsAllowed | src/03_upload_r2.py:160-209 | one iteration only sets `r2_image_url`, never for an imageless ad or one that has a URL; the URL is `<public>/<date>_<hash8>.png` exactly when the hash was already seen with dedup on, and the page-name key's URL otherwise |
| UploadR2.KeyFound | src/03_upload_r2.py:110-119 | the existence check answers True only for a key in the bucket, and False whenever its calls raise |
| UploadR2.RunAtPosition | src/03_upload_r2.py:158-209 | the ad at position `j` after the loop is what the step at `j` makes of it, from the state the earlier ads left |
| UploadR2.DuplicateGetsDuplicateKey | src/03_upload_r2.py:179-186 | a seen hash with dedup on gives the URL `<public>/<date>_<hash8>.png`, skipped + 1, nothing else changed |
| UploadR2.ExistingKeyIsSkipped | src/03_upload_r2.py:188-200 | a new hash whose key the check finds gives the key's URL, skipped + 1, the hash seen, the bucket unchanged and no upload |
| UploadR2.UploadSetsKeyUrl | src/03_upload_r2.py:188-207 | a new hash whose key the check does not find, absent or unreachable, is uploaded; on success the key's URL, uploaded + 1, the key in the bucket and the hash seen |
| UploadR2.UndownloadedFails | src/03_upload_r2.py:170-174 | a failed download gives failed + 1 and leaves the ad as it was |
| UploadR2.OnlyTheUrlChanges | src/03_upload_r2.py:165-209 | every ad the loop leaves behind is such an allowed update of the original |
| UploadR2.SeenOnlyGrows | src/03_upload_r2.py:188-218 | the seen set and the bucket only grow, so the written log contains the loaded one |
| UploadR2.FailedUploadStaysSeen | src/03_upload_r2.py:188-209 | a failed upload counts as failed, leaves the ad unchanged and keeps its hash seen |
| UploadImgbb.UploadToImgbb | src/03_upload_images.py:43-83 | a URL exactly when the status is 200, `success` is true and a URL came back; None when the request raised |
| UploadImgbb.UploadName | src/03_upload_images.py:149-151 | the name is `<page name sanitised to 20>_<hash[:8]>`, at most 29 characters |
| UploadImgbb.ProcessRawFileWithImgbb | src/03_upload_images.py:86-182 | the ads array, the log and the summary are those of the fold, with `total` equal to the number of ads |
| UploadImgbb.ProcessAd | src/03_upload_images.py:120-160 | one ad's step: the new URL, when there is one, replaces `permanent_image_url` and is truthy |
| UploadImgbb.CountersPartitionImagedAds | src/03_upload_images.py:120-160 | uploaded + skipped + failed + imageless = ads processed |
| UploadImgbb.OnlyTheUrlChanges | src/03_upload_images.py:127-160 | only `permanent_image_url` changes, and only for an imaged ad without one, to the truthy URL imgbb returned for its name |
| UploadImgbb.DuplicateGetsNoUrl | src/03_upload_images.py:141-144 | a duplicate hash is counted as skipped and the ad gets no URL |
| UploadImgbb.RunAtPosition | src/03_upload_images.py:120-160 | the ad at position `j` after the loop is what the step at `j` makes of it, from the state the earlier ads left |
| UploadImgbb.UploadedGetsUrl | src/03_upload_images.py:146-157 | a downloaded, non-duplicate ad whose upload returned a non-empty URL gets that URL, uploaded + 1, the hash seen |
| UploadImgbb.FailedUploadKeepsAd | src/03_upload_images.py:146-160 | an upload that returned no URL gives failed + 1, the ad unchanged and the hash still seen |
| UploadImgbb.UrlSetExactlyWhenUploaded | src/03_upload_images.py:120-160 | over a whole run, an imaged ad without a URL gets its upload's URL exactly when it downloaded, was not a duplicate of an earlier hash and the upload returned a non-empty URL; otherwise it is unchanged |
| UploadImgbb.SeenOnlyGrows | src/03_upload_images.py:106-169 | the seen set only grows, so the saved log contains the loaded one |
| UploadDrive.MimeType | src/03_upload_drive.py:48-56 | a lookup on the lower-cased suffix: an image type exactly for the five extensions, `image/jpeg` exactly for `.jpg` and `.jpeg`, else `application/octet-stream` |
| UploadDrive.DriveResultsMeaning | src/03_upload_drive.py:102-121 | one entry per considered file, in order; `success` exactly when the upload returned file data, and then the formula URL is `https://drive.google.com/uc?id=` + id |
| UploadDrive.SuccessCount | src/03_upload_drive.py:124 | counts the `success` entries; all of them or none exactly when every entry is or none is a success |
| UploadDrive.UploadAllImages | src/03_upload_drive.py:80-127 | the folder is the given one when non-empty, else the configured one (an error when unset); missing credentials are an error; otherwise one upload per file with the five extensions, in order |
| UploadDrive.UploadEach | src/03_upload_drive.py:102-121 | the loop computes the result entries |
| UploadDrive.DriveResultsGiveNoDriveUrls | src/04_write_sheets.py:263-268 | Drive's result entries carry no hash, so the keyword writer's drive URL table built from them is empty |
| WriteSheets.TrimRow | src/04_write_sheets.py:65 | a row as `row_values` reads it: a prefix of the row without trailing empty cells, dropping only empty cells |
| WriteSheets.DataRows | src/04_write_sheets.py:67 | appending writes after the last row that holds a value: the rows dropped are all blank |
| WriteSheets.HeaderRule | src/04_write_sheets.py:65-74 | a tab whose row 1 reads as the headers is untouched; a tab without values holds just the headers; otherwise row 1 starts with the headers, the other rows stay, and row 1 reads as the headers when it was not longer |
| WriteSheets.Spreadsheet.constructor | src/04_write_sheets.py:56-61 | the spreadsheet starts with the given tabs |
| WriteSheets.Spreadsheet.EnsureWorksheet | src/04_write_sheets.py:56-74 | only the titled tab changes: it is created when missing and the header rule is applied |
| WriteSheets.Spreadsheet.AppendRows | src/04_write_sheets.py:340-341 | only the titled tab changes: the rows go after its data |
| WriteSheets.ColumnHashesMeaning | src/04_write_sheets.py:205-214 | a hash is loaded exactly when some data row below the header has it, stripped and non-empty, in the hash column |
| WriteSheets.GetExistingImageHashes | src/04_write_sheets.py:194-216 | the column's hashes, or the empty set when reading fails |
| WriteSheets.IndexMeaning | src/04_write_sheets.py:110-118 | a key is in a table built by the loop exactly when some entry has it, and it maps to the last such entry's value |
| WriteSheets.BuildDriveUrlMap | src/04_write_sheets.py:263-268 | the loop builds the hash → formula URL table of successful uploads with a hash |
| WriteSheets.UploadKey | src/04_write_sheets.py:114-117 | names without `_` give no key |
| WriteSheets.UploadKeyOfName | src/04_write_sheets.py:114-118 | `<anything>_<key>.png` keys `key` when the key has no `_` or `.` |
| WriteSheets.BuildUploadMap | src/04_write_sheets.py:110-118 | the loop builds the key → upload entry table |
| WriteSheets.SheetImageHash | src/04_write_sheets.py:162-166 | None exactly for empty bytes, otherwise the hash |
| WriteSheets.KeywordRow | src/04_write_sheets.py:325-334 | eight cells, with the hash in the hash column |
| WriteSheets.DownloadedRowHashesContent | src/04_write_sheets.py:294-335 | a downloaded, non-duplicate ad appends one row whose hash cell is the content hash, whose text cell is the OCR text and whose image cell prefers the drive URL |
| WriteSheets.FailedDownloadHashesUrl | src/04_write_sheets.py:302-335 | a failed download hashes the encoded image URL: a duplicate of it is skipped, otherwise one row is appended with that hash and an empty text cell |
| WriteSheets.BuildKeywordRows | src/04_write_sheets.py:276-335 | the rows, the seen set and the counters are those of the fold over the ads |
| WriteSheets.KeywordRowsOfTab | src/04_write_sheets.py:249-335 | the rows and counters for a keyword are those of the fold over its ads, against the hashes read from its tab |
| WriteSheets.KeywordPartition | src/04_write_sheets.py:276-335 | rows + skipped + no-image = ads, and the no-image count is the number of ads with an empty first URL |
| WriteSheets.KeywordHashesFresh | src/04_write_sheets.py:256-314 | the seen set keeps the loaded hashes and holds every row's; each row has 8 cells and the collection date first; with duplicates skipped no row's hash was loaded and the rows' hashes are pairwise distinct |
| WriteSheets.ImageCellFromUploads | src/04_write_sheets.py:263-320 | the image cell uses the last successful upload of the hash when its URL is non-empty, else the ad's own URL |
| WriteSheets.NoUploadUsesOwnUrl | src/04_write_sheets.py:316-320 | with no successful upload of the hash, the image cell is the ad's own URL |
| WriteSheets.Spreadsheet.WriteAdsByKeyword | src/04_write_sheets.py:219-421 | rows and counters are the fold's; only the query's tab changes: header rule applied, then the rows appended when there are any |
| WriteSheets.NewRowsAreNotInSheet | src/04_write_sheets.py:249-314 | every new row has 8 cells and a date cut to 10 characters; with duplicates skipped and the tab readable, no new hash is in the tab's hash column |
| WriteSheets.RawRowsShape | src/04_write_sheets.py:120-142 | one `success` row per ad, in order, with eleven cells and the ad id; the image cell is filled exactly when the ad id keys an upload with a non-empty formula URL |
| WriteSheets.BuildRawRows | src/04_write_sheets.py:120-142 | the loop builds those rows |
| WriteSheets.Spreadsheet.WriteAdsRaw | src/04_write_sheets.py:77-146 | only `ads_raw` changes: header rule applied, then the rows appended when there are any |
| Ocr.SplitSentences | src/05_ocr.py:121 | at least one piece, none containing a sentence mark |
| Ocr.FindsCta | src/05_ocr.py:126 | true exactly when some call to action occurs in the sentence, ignoring case |
| Ocr.StripAll | src/05_ocr.py:124 | one stripped piece per piece |
| Ocr.KeySentences | src/05_ocr.py:121-126 | the loop keeps the qualifying sentences among the first five pieces |
| Ocr.KeepSentence | src/05_ocr.py:124-126 | one piece, stripped, is kept exactly when it is longer than ten characters and mentions no call to action |
| Ocr.KeptSentencesMeaning | src/05_ocr.py:121-126 | at most five kept sentences, each one of the first five pieces, stripped, longer than 10 characters and free of every call to action |
| Ocr.ParseAdElements | src/05_ocr.py:69-129 | the method computes the elements |
| Ocr.ElementsOfMeaning | src/05_ocr.py:76-127 | empty text gives three empty strings; otherwise at most three claims joined with `. `, and the CTA and offer cells are the `, `-joined match lists without repeats, each holding every match |
| Text.Dedup | src/05_ocr.py:100-117 | every element kept, none repeated, nothing new |
| Ocr.AdIdFromStem | src/05_ocr.py:153-155 | the whole stem when it has no `_`; otherwise the `_`-free text the stem ends with after its last `_` |
| Ocr.ResultsFor | src/05_ocr.py:151-167 | one result per file |
| Ocr.ProcessAllImages | src/05_ocr.py:132-182 | one result per `.png`, `.jpg` or `.jpeg` file (any case), in listing order |
| Ocr.ReadEach | src/05_ocr.py:151-167 | the loop computes those results |
| GenerateIdeas.FieldTokens | src/06_generate_ideas.py:29-32 | an empty field gives no tokens; the tokens have no comma and no outer whitespace |
| GenerateIdeas.Claims | src/06_generate_ideas.py:33-34 | the claims are non-empty, at most one per result |
| GenerateIdeas.ClaimsInOrder | src/06_generate_ideas.py:28-34 | claims keep the input order: they distribute over concatenation |
| GenerateIdeas.ClaimOfOne | src/06_generate_ideas.py:33-34 | a result contributes its claim exactly when it is non-empty |
| GenerateIdeas.Occurrences | src/06_generate_ideas.py:38-39 | positive exactly for tokens that occur |
| GenerateIdeas.Counted | src/06_generate_ideas.py:38-39 | each distinct token once with its exact count, and every token is listed |
| GenerateIdeas.FirstMaxIsFirstHighest | src/06_generate_ideas.py:42-43 | `FirstMax` has the highest count, and every earlier entry has a lower one, so ties go to the first |
| GenerateIdeas.Without | src/06_generate_ideas.py:42-43 | the other entries in their order |
| GenerateIdeas.MostCommon | src/06_generate_ideas.py:42-43 | `min(n, items)` entries |
| GenerateIdeas.TopIsFromItems | src/06_generate_ideas.py:42-43 | every chosen entry is one of the items |
| GenerateIdeas.MostCommonIsDistinct | src/06_generate_ideas.py:42-43 | no token is chosen twice |
| GenerateIdeas.MostCommonIsSorted | src/06_generate_ideas.py:42-43 | the chosen counts do not increase |
| GenerateIdeas.MostCommonIsTop | src/06_generate_ideas.py:42-43 | an entry left out has a count no higher than any chosen one |
| GenerateIdeas.MostCommonTakesAllWhenFew | src/06_generate_ideas.py:42-43 | with at most `n` items, every item's token is listed among the chosen |
| GenerateIdeas.TopFiveOfCounted | src/06_generate_ideas.py:37-43 | `most_common(5)` of the counted tokens is a top five: distinct tokens, exact counts, non-increasing, nothing left out that occurs more often, everything listed when there are few |
| GenerateIdeas.TopCountsExact | src/06_generate_ideas.py:37-43 | each chosen token occurs in the input, with its exact count |
| GenerateIdeas.TopLeavesNoneHigher | src/06_generate_ideas.py:37-43 | a token left out occurs no more often than any chosen one |
| GenerateIdeas.TopListsAllWhenFew | src/06_generate_ideas.py:37-43 | with at most five distinct tokens, every token is chosen |
| GenerateIdeas.AnalyzePatterns | src/06_generate_ideas.py:17-46 | the loop and the counting compute the patterns |
| GenerateIdeas.PatternsMeaning | src/06_generate_ideas.py:17-46 | top fives of the CTA and offer tokens, the first ten claims, and the number of results analysed |
| GenerateIdeas.Insights | src/06_generate_ideas.py:59-71 | the top CTA first when there is one, the top offer when there is one, and the analysed count always last |
| GenerateIdeas.InsightsJoined | src/06_generate_ideas.py:71-77 | the joined insights end with the analysed count and start with the top CTA when there is one |
| GenerateIdeas.IdeaFrom | src/06_generate_ideas.py:74-93 | the insights are joined with ` \| ` and the source ads are the first five ids joined with `, ` |
| GenerateIdeas.SourceAds | src/06_generate_ideas.py:146 | non-empty ids, at most one per result |
| GenerateIdeas.AllIdeas | src/06_generate_ideas.py:124-161 | no ideas for a missing or empty results file; otherwise exactly one, built from the patterns and the non-empty ids |
| Pipeline.Call | src/07_run_weekly.py:22-29 | a call naming an undeclared keyword argument raises before the body runs; otherwise it has the body's outcome |
| Scheduler.LoadKeywords | src/08_scheduler.py:25-32 | a missing file gives no keywords and schedule time `09:00`; otherwise the file's contents |
| Scheduler.ScheduleTime | src/08_scheduler.py:156-157 | `09:00` without a file or a stored time, else the stored time |
| Scheduler.FindQuery | src/08_scheduler.py:46-49 | the duplicate scan finds the query exactly when an entry has it |
| Scheduler.WithoutQuery | src/08_scheduler.py:65 | no entry with the query remains; every other entry stays; nothing new appears |
| Scheduler.WithoutQueryKeepsOrder | src/08_scheduler.py:65 | removal keeps order (it distributes over concatenation) and leaves a list without the query as it is |
| Scheduler.RemoveUndoesAdd | src/08_scheduler.py:41-67 | removing a keyword that was just added gives the old list back |
| Scheduler.KeywordRegistry.constructor | src/08_scheduler.py:25-32 | the registry holds the given file contents |
| Scheduler.KeywordRegistry.AddKeyword | src/08_scheduler.py:41-59 | false and nothing saved when the query exists; otherwise true and one enabled entry appended at the end, other data kept |
| Scheduler.KeywordRegistry.RemoveKeyword | src/08_scheduler.py:62-67 | every entry with the query is removed, the others stay in order, and the file is saved |
| Scheduler.EnabledKeywords | src/08_scheduler.py:100 | exactly the entries whose flag is true or missing |
| Scheduler.RequestFor | src/08_scheduler.py:120-124 | the limit is the keyword's own (20 when absent) or the remaining quota, and no more than either; the country defaults to `KR` |
| Scheduler.RequestIsPositive | src/08_scheduler.py:116-124 | below the ceiling and with a positive own limit, a request asks for between 1 and the remaining quota |
| Scheduler.Collect | src/08_scheduler.py:114-144 | no more attempts than enabled keywords |
| Scheduler.CollectEnabled | src/08_scheduler.py:114-144 | the loop computes the fold's attempts and total |
| Scheduler.RunScheduledCollection | src/08_scheduler.py:86-149 | no keywords: returns at once; already at or over the daily limit (default 20): returns at once; otherwise the attempts and total of the loop over the enabled keywords |
| Scheduler.AttemptsWithinQuota | src/08_scheduler.py:114-138 | attempt `k` of a run started at keyword `j` is for keyword `j + k`, made below the ceiling, asking for no more than the remaining quota |
| Scheduler.TotalFollowsObservations | src/08_scheduler.py:112-144 | the total starts at the count found; it becomes the observed count after a call that returned and is unchanged after one that raised; the loop stops early only at the ceiling |
| Scheduler.AsWrittenEveryCallRaises | src/08_scheduler.py:129-138 | as written every call raises, so every enabled keyword is attempted, none returns, and the total never moves |
| CollectAllKeywords.Queries | src/collect_all_keywords.py:40 | one query per row, in order |
| CollectAllKeywords.KeywordsFromTable | src/collect_all_keywords.py:16-49 | no keywords when the URL or key is unset or empty, when the request raised, on a non-200 status or when a row lacks its query; otherwise the queries in reply order |
| CollectAllKeywords.SelectKeywords | src/collect_all_keywords.py:58-65 | a non-blank stripped `MANUAL_QUERY` alone, without consulting the table; otherwise the table's keywords |
| CollectAllKeywords.ResultOf | src/collect_all_keywords.py:90-94 | success exactly when the pipeline returned a truthy value; an error exactly when it raised |
| CollectAllKeywords.Results | src/collect_all_keywords.py:78-94 | one result per keyword |
| CollectAllKeywords.CountSucceeded | src/collect_all_keywords.py:97 | no more than the results |
| CollectAllKeywords.RunEach | src/collect_all_keywords.py:78-94 | the loop makes one result per keyword, in order, catching each exception |
| CollectAllKeywords.SuccessCount | src/collect_all_keywords.py:97 | the loop counts the successful results |
| CollectAllKeywords.CollectAll | src/collect_all_keywords.py:52-103 | no keywords: returns with no call; otherwise one result per keyword in order, and success + fail = results |
| CollectAllKeywords.AsWrittenEveryKeywordFails | src/collect_all_keywords.py:82-94 | as written every call raises: every keyword is recorded as failed with an error, and the success count is 0 |
| MigrateToSupabase.EnvOr | scripts/migrate_to_supabase.py:17-18 | the primary variable when set and non-empty, else the `NEXT_PUBLIC_*` fallback |
| MigrateToSupabase.FirstImage | scripts/migrate_to_supabase.py:71-72 | the first image URL exactly when the ad has a non-empty one |
| MigrateToSupabase.AdRowOf | scripts/migrate_to_supabase.py:78-86 | the row has the file's query, the first image URL, page name defaulting to `Unknown` and ad text defaulting to an empty list |
| MigrateToSupabase.RunFile | scripts/migrate_to_supabase.py:70-91 | all ads processed unless the file was abandoned |
| MigrateToSupabase.MigrateFile | scripts/migrate_to_supabase.py:70-94 | the inner loop computes the fold over one file's ads |
| MigrateToSupabase.LaterAdsUntouched | scripts/migrate_to_supabase.py:60-94 | once a file is abandoned nothing more of it is sent or counted |
| MigrateToSupabase.ImagedAds | scripts/migrate_to_supabase.py:71-74 | the kept ads all have a first image |
| MigrateToSupabase.FileCountersAndRows | scripts/migrate_to_supabase.py:70-91 | saved + skipped = ads processed; the run reaches no ad past its bound; exactly the reached ads with a first image are sent, in order, each as its row, the one whose request raised included |
| MigrateToSupabase.MigrateAds | scripts/migrate_to_supabase.py:41-98 | no URL or key: returns before any file; otherwise every file is processed, and an unreadable or failing file does not stop the others |
| MigrateToSupabase.TotalsAddUp | scripts/migrate_to_supabase.py:57-94 | saved + skipped never exceeds the ads of the readable files, and equals it when no file was abandoned |
| MigrateToSupabase.KeywordRowOf | scripts/migrate_to_supabase.py:124-129 | country defaults to `KR`, `ad_limit` to 50, enabled to true |
| MigrateToSupabase.SavedCount | scripts/migrate_to_supabase.py:131-132 | the saved count never exceeds the number of requests |
| MigrateToSupabase.RowsOf | scripts/migrate_to_supabase.py:123-129 | one row per keyword, in order |
| MigrateToSupabase.SendKeywords | scripts/migrate_to_supabase.py:123-134 | the rows sent are those of the keywords up to the first raised request, that one included; `saved` counts the saved statuses before it; `raised` says whether a request raised |
| MigrateToSupabase.FirstRaised | scripts/migrate_to_supabase.py:123-134 | the first request that raised, with all earlier ones answered |
| MigrateToSupabase.MigrateKeywords | scripts/migrate_to_supabase.py:101-136 | not configured or no registry: returns early; otherwise one row per keyword in order, `saved` counting the upserts with status 200, 201, 204 or 409; a raised request ends the run |
| Webapp.KeywordTabs | webapp/app.py:157-161 | the titles in order without the four system tabs |
| Webapp.KeywordTabsKeepOrder | webapp/app.py:159-160 | the filter keeps order and leaves a list without system tabs as it is |
| Webapp.ExtractImageUrl | webapp/app.py:194-200 | empty gives `""`; a non-formula cell is returned unchanged; a formula of ten or more characters gives the text between `=IMAGE("` and `")` |
| Webapp.ImageFormulaRoundTrip | webapp/app.py:198-199 | reading back the writer's `=IMAGE("u")` cell gives `u`, for every `u` |
| Webapp.BeforeFirstDot | webapp/app.py:186 | the text before the first `.` |
| Webapp.ParseWithFirstMatch | webapp/app.py:184-188 | the first format that parses decides the result |
| Webapp.ParseWithNone | webapp/app.py:184-189 | no date exactly when no format parses |
| Webapp.ParseDate | webapp/app.py:178-191 | empty gives None; otherwise the formats are tried in order on the text before the first `.` |
| Webapp.FilterByDate | webapp/app.py:306-320 | the loop computes the filtered ads |
| Webapp.InRange | webapp/app.py:311-318 | an ad is kept when its date is missing or unparseable, or its day lies inside the range |
| Webapp.DateFilteredMeaning | webapp/app.py:306-320 | with ads and a two-ended range, exactly the ads whose date is missing, unparseable or inside the closed range are kept; otherwise all of them |
| Webapp.DateFilterKeepsOrder | webapp/app.py:310-318 | the filter keeps order: it distributes over concatenation |
| Webapp.CardOf | webapp/app.py:212-222 | a card exactly when the image URL is non-empty, in column `idx % columns`, with the date cut to 10 and the text to 100 characters |
| Webapp.Cards | webapp/app.py:212-222 | at most one card per ad, in increasing ad order, each in column `index % columns` |
| Webapp.CardsCoverImagedAds | webapp/app.py:212-222 | an ad is drawn exactly when its image URL is non-empty |
| Webapp.CardsShowTheirAds | webapp/app.py:215-222 | each card shows its own ad's image, advertiser (`Unknown` when absent), date and text |
| Webapp.RenderGallery | webapp/app.py:203-240 | the loop draws exactly those cards |
| Webapp.AsWrittenHeadersNeverMatch | webapp/app.py:219-311 | on rows with the writer's headers, the date filter keeps every ad and no card has a date or text |

## Left out

- Browser automation is left out: launching, navigation, the cookie dialog, waits and DOM handles. Card counts, selector outcomes and element attributes are inputs.
- HTTP downloads, boto3/R2, imgbb, Google Drive and Sheets (including `batch_update` formatting) and Supabase REST are left out. Each is an oracle returning an `Option`, a boolean or a status.
- The MD5 hash, base64 and `urlencode` are left out. They are parameters, and the dedup properties need only hash equality.
- The PIL decode and PNG re-encode before a store are left out. The bytes stored may differ from the bytes hashed.
- OCR image preprocessing, Tesseract and the Korean/English CTA and offer regexes are left out. The matches are inputs.
- Clocks (`datetime.now`, `strftime`, the ISO week stamp) and `strptime` are parameters. The date range compares day numbers.
- JSON file reads and writes, including the hash-log files, are left out. File contents are values passed in and returned.
- `start_scheduler`'s endless `schedule`/`sleep` loop, the click CLI, `list_keywords`, `set_time` and `count_today_images` are left out. The image count after each call is an observed input.
- Logging, `print`, Streamlit rendering, caching and CSS are left out, along with the webapp's keyword radio button and its `st.stop`.
- `list(set(...))` and `", ".join(set(...))` are modelled as `Text.Dedup`, which keeps first occurrences in order. Python's set order is not modelled; the properties stated only use "same elements, no repeats".
- `Text.IsAlnum` covers ASCII letters and digits and Hangul syllables only, not every Unicode letter `str.isalnum` accepts. `CollectAds.IdDigits` takes `\d` as ASCII digits only.
- `Text.Lower` folds only the ASCII letters A-Z; `str.lower()` also folds other cased Unicode letters (Latin-1, Greek, Cyrillic, full-width). This reaches the case-insensitive CTA match of `Ocr.FindsCta` and the suffix test of `UploadDrive.MimeType`; Hangul has no case.
- The `save_raw_data` of src/01_collect_ads.py:290-311 is not modelled separately. It is `CollectAdsApi.SaveRawData` plus a constant `source` field.
- `write_ocr_text`, `write_ideas`, `clear_worksheet` and the sheet formatting requests of src/04_write_sheets.py are left out. They only forward data to gspread.
- `generate_ideas_with_llm` is left out: it is a stub that returns an empty list. The idea fields with constant text are left out too.
- The re-export modules src/collect_ads_api.py, src/write_sheets.py, src/generate_ideas.py, src/fetch_creatives.py, src/ocr.py, src/upload_drive.py and src/__init__.py are left out. They hold no logic.
- The internals of src/07_run_weekly.py are left out. Only its parameter list is modelled (`Pipeline.Parameters`), and the pipeline's outcome is an oracle.
- The keyword registry is a typed record. A file lacking its `keywords` key, which raises `KeyError` in `add_keyword`, is not modelled.
- Webapp records are maps from column to string. `get_all_records`' numeric cells are not distinguished.
- `parse_date`'s outer bare `except` is left out; it guards nothing the modelled code can raise.
- `Scheduler.Collect`: its own contract only bounds the number of attempts. Its meaning is stated by `Scheduler.AttemptsWithinQuota` and `Scheduler.TotalFollowsObservations`.
- `CollectAds.ScrollAndLoadAds`: with `max_scrolls <= 0` the code fails with an unbound variable; the model returns None instead.
- `UploadImgbb.UploadToImgbb`: the imgbb API key check raises inside the `try`, so an unset key is folded into "the request raised".
