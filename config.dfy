/** Environment lookup (`src/config.py`). The environment is a map from
    variable names to values; a name outside the map is unset. */
module Config {
  import opened Wrappers

  type Env = map<string, string>

  /** `ValueError` raised for a required variable that is unset or empty. */
  datatype ConfigError = MissingEnv(key: string)

  /** `get_env(key, default, required)`: the variable's value when it is set
      (even to the empty string), otherwise `default`; raises when `required`
      and that value is falsy (unset with no default, or empty). */
  function GetEnv(env: Env, key: string, default: Option<string>, required: bool)
    : (r: Result<Option<string>, ConfigError>)
    ensures key in env && r.Ok? ==> r.value == Some(env[key])
    ensures key !in env && r.Ok? ==> r.value == default
    ensures r.Err? <==> required && (if key in env then env[key] == "" else default.None? || default == Some(""))
    ensures r.Err? ==> r.error == MissingEnv(key)
    ensures !required ==> r.Ok?
  {
    var value := if key in env then Some(env[key]) else default;
    if required && (value.None? || value.value == "") then Err(MissingEnv(key)) else Ok(value)
  }

  const MetaAccessTokenKey := "META_ACCESS_TOKEN"
  const GoogleCredentialsKey := "GOOGLE_APPLICATION_CREDENTIALS"
  const SheetIdKey := "SHEET_ID"
  const DriveFolderIdKey := "DRIVE_FOLDER_ID"

  /** A getter that calls `get_env(key, required=True)`: it succeeds exactly
      when the variable is set to a non-empty value, and returns that value. */
  function RequiredEnv(env: Env, key: string): (r: Result<string, ConfigError>)
    ensures r.Ok? <==> key in env && env[key] != ""
    ensures r.Ok? ==> r.value == env[key]
    ensures r.Err? ==> r.error == MissingEnv(key)
  {
    match GetEnv(env, key, None, true)
    case Ok(v) => Ok(v.value)
    case Err(e) => Err(e)
  }

  /** `get_meta_access_token()`. */
  function MetaAccessToken(env: Env): Result<string, ConfigError> { RequiredEnv(env, MetaAccessTokenKey) }

  /** `get_google_credentials_path()`. */
  function GoogleCredentialsPath(env: Env): Result<string, ConfigError> { RequiredEnv(env, GoogleCredentialsKey) }

  /** `get_sheet_id()`. */
  function SheetId(env: Env): Result<string, ConfigError> { RequiredEnv(env, SheetIdKey) }

  /** `get_drive_folder_id()`. */
  function DriveFolderId(env: Env): Result<string, ConfigError> { RequiredEnv(env, DriveFolderIdKey) }

  /** `COUNTRY`: the variable of that name, defaulting to "KR". */
  function Country(env: Env): (r: string)
    ensures "COUNTRY" !in env ==> r == "KR"
    ensures "COUNTRY" in env ==> r == env["COUNTRY"]
  {
    GetEnv(env, "COUNTRY", Some("KR"), false).value.value
  }

  /** `QUERY`: the variable of that name, defaulting to "". */
  function Query(env: Env): (r: string)
    ensures "QUERY" !in env ==> r == ""
    ensures "QUERY" in env ==> r == env["QUERY"]
  {
    GetEnv(env, "QUERY", Some(""), false).value.value
  }
}
