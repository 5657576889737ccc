/** Uploading the local images to a Drive folder (`src/03_upload_drive.py`).

    The directory listing is the list of file names it yields, in the order
    it yields them; the Drive client is replaced by the outcome of the
    upload of the `i`-th considered file (None when any call of
    `upload_file` raised). */
module UploadDrive {
  import opened Wrappers
  import opened Text
  import opened Records
  import Config
  import WriteSheets

  /** The extensions `upload_all_images` considers, lower-cased. */
  const ImageExtensions: seq<string> := [".png", ".jpg", ".jpeg", ".gif", ".webp"]

  const DefaultMime: string := "application/octet-stream"

  function MimeOfSuffix(suffix: string): string {
    if suffix == ".png" then "image/png"
    else if suffix == ".jpg" || suffix == ".jpeg" then "image/jpeg"
    else if suffix == ".gif" then "image/gif"
    else if suffix == ".webp" then "image/webp"
    else DefaultMime
  }

  /** `upload_file`'s MIME type: a lookup on the lower-cased suffix. */
  function MimeType(name: string): (r: string)
    ensures r != DefaultMime <==> Lower(Suffix(name)) in ImageExtensions
    ensures r != DefaultMime ==> StartsWith(r, "image/")
    ensures Lower(Suffix(name)) in {".jpg", ".jpeg"} <==> r == "image/jpeg"
  {
    MimeOfSuffix(Lower(Suffix(name)))
  }

  predicate IsImageFile(name: string) { Lower(Suffix(name)) in ImageExtensions }

  /** The files considered: those with one of the five extensions, in
      listing order. */
  function ImageFiles(listing: seq<string>): seq<string> { Filter(listing, IsImageFile) }

  /** The file fields the code reads from a successful upload. */
  datatype FileInfo = FileInfo(id: string, webViewLink: Option<string>, webContentLink: Option<string>)

  /** One result entry. The keys a failed upload lacks are None. */
  datatype DriveResult = DriveResult(
    localPath: string,
    filename: string,
    status: string,
    driveId: Option<string>,
    driveUrl: Option<string>,
    driveContentUrl: Option<string>,
    formulaUrl: Option<string>)

  const FormulaUrlBase: string := "https://drive.google.com/uc?id="

  /** The entry for a file given the outcome of its upload. */
  function ResultOf(dir: string, name: string, info: Option<FileInfo>): DriveResult {
    match info
    case Some(f) =>
      DriveResult(dir + "/" + name, name, "success", Some(f.id), Some(f.webViewLink.GetOr("")),
                  Some(f.webContentLink.GetOr("")), Some(FormulaUrlBase + f.id))
    case None => DriveResult(dir + "/" + name, name, "failed", None, None, None, None)
  }

  /** The outcome of uploading the `i`-th considered file, given its name
      and its MIME type. */
  type Uploader = (nat, string, string) -> Option<FileInfo>

  function DriveResults(dir: string, files: seq<string>, upload: Uploader): seq<DriveResult> {
    seq(|files|, i requires 0 <= i < |files| => ResultOf(dir, files[i], upload(i, files[i], MimeType(files[i]))))
  }

  /** There is one entry per considered file, in order; an entry is a
      success exactly when its upload returned file data, and then its
      formula URL is the direct link of the uploaded file's id. */
  lemma DriveResultsMeaning(dir: string, files: seq<string>, upload: Uploader)
    ensures var rs := DriveResults(dir, files, upload);
            |rs| == |files| &&
            forall i :: 0 <= i < |rs| ==>
              var info := upload(i, files[i], MimeType(files[i]));
              rs[i].filename == files[i] && rs[i].localPath == dir + "/" + files[i] &&
              (rs[i].status == "success" <==> info.Some?) &&
              (rs[i].status != "success" ==> rs[i].status == "failed" && rs[i].formulaUrl.None?) &&
              (info.Some? ==> rs[i].formulaUrl == Some(FormulaUrlBase + info.value.id) && rs[i].driveId == Some(info.value.id))
  {
  }

  /** `success_count`: the entries whose status is `success`. */
  function SuccessCount(results: seq<DriveResult>): (n: nat)
    ensures n <= |results|
    ensures n == |results| <==> forall i :: 0 <= i < |results| ==> results[i].status == "success"
    ensures n == 0 <==> forall i :: 0 <= i < |results| ==> results[i].status != "success"
  {
    if |results| == 0 then 0
    else SuccessCount(results[..|results| - 1]) + (if results[|results| - 1].status == "success" then 1 else 0)
  }

  /** `upload_all_images`: the folder is the one given when it is
      non-empty, else the configured one (an error when unset), and the
      credentials path must be set; then every considered file is uploaded
      once, in order. */
  method UploadAllImages(env: Config.Env, folderId: Option<string>, dir: string, listing: seq<string>, upload: Uploader)
    returns (r: Result<seq<DriveResult>, Config.ConfigError>, folder: string)
    ensures !Truthy(folderId) && Config.DriveFolderId(env).Err? ==> r == Err(Config.DriveFolderId(env).error)
    ensures (Truthy(folderId) || Config.DriveFolderId(env).Ok?) && Config.GoogleCredentialsPath(env).Err? ==>
              r == Err(Config.GoogleCredentialsPath(env).error)
    ensures r.Ok? ==> Config.GoogleCredentialsPath(env).Ok? &&
                      folder == (if Truthy(folderId) then folderId.value else Config.DriveFolderId(env).value) &&
                      r.value == DriveResults(dir, ImageFiles(listing), upload)
  {
    folder := "";
    if Truthy(folderId) {
      folder := folderId.value;
    } else {
      var configured := Config.DriveFolderId(env);
      if configured.Err? {
        return Err(configured.error), folder;
      }
      folder := configured.value;
    }
    var credentials := Config.GoogleCredentialsPath(env);
    if credentials.Err? {
      return Err(credentials.error), folder;
    }
    var imageFiles := ImageFiles(listing);
    if imageFiles == [] {
      return Ok([]), folder;
    }
    var results := UploadEach(dir, imageFiles, upload);
    r := Ok(results);
  }

  /** The loop of `upload_all_images` over the considered files. */
  method UploadEach(dir: string, imageFiles: seq<string>, upload: Uploader) returns (results: seq<DriveResult>)
    ensures results == DriveResults(dir, imageFiles, upload)
  {
    results := [];
    var i := 0;
    while i < |imageFiles|
      invariant 0 <= i <= |imageFiles| && |results| == i
      invariant forall k :: 0 <= k < i ==>
                  results[k] == ResultOf(dir, imageFiles[k], upload(k, imageFiles[k], MimeType(imageFiles[k])))
    {
      var name := imageFiles[i];
      var fileInfo := upload(i, name, MimeType(name));
      var result := DriveResult(dir + "/" + name, name, "pending", None, None, None, None);
      if fileInfo.Some? {
        var info := fileInfo.value;
        result := result.(driveId := Some(info.id), driveUrl := Some(info.webViewLink.GetOr("")),
                          driveContentUrl := Some(info.webContentLink.GetOr("")),
                          formulaUrl := Some(FormulaUrlBase + info.id), status := "success");
      } else {
        result := result.(status := "failed");
      }
      assert result == ResultOf(dir, name, fileInfo);
      results := results + [result];
      i := i + 1;
    }
  }

  // ---------------------------------------------------------------------
  // How the sheet writer reads these results
  // ---------------------------------------------------------------------

  /** An entry as the sheet writer's upload-result reader sees it; the
      entries carry no `image_hash` key. */
  function AsUploadResult(d: DriveResult): UploadResult {
    UploadResult(Some(d.filename), Some(d.localPath), Some(d.status), None, d.formulaUrl)
  }

  /** The keyword-tab writer maps hashes to drive URLs, but these entries
      have no hash: its drive table built from them is always empty, so
      its image cells always use the ads' own URLs. */
  lemma DriveResultsGiveNoDriveUrls(results: seq<DriveResult>)
    ensures WriteSheets.DriveUrlMap(Some(seq(|results|, i requires 0 <= i < |results| => AsUploadResult(results[i])))) == map[]
  {
    var us := seq(|results|, i requires 0 <= i < |results| => AsUploadResult(results[i]));
    WriteSheets.IndexMeaning(us, WriteSheets.DriveKey, WriteSheets.FormulaUrlOf, |us|);
  }
}
