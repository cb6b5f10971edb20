/**
 * Environment-driven settings: boolean and integer variables, the runtime
 * flags and the page, DPI and size limits, whose defaults depend on whether
 * the service runs on Railway (the PORT variable is set).
 *
 * The process environment is a map from variable names to values.
 */
module Config {
  import opened Wrappers
  import opened Text

  type Env = map<string, string>

  function Min(a: int, b: int): int { if a <= b then a else b }

  function Max(a: int, b: int): int { if a >= b then a else b }

  /** The values a boolean variable is true for, after stripping and lower-casing. */
  predicate Truthy(v: string) { v == "1" || v == "true" || v == "yes" }

  /** _env_bool: unset is false; otherwise the stripped, lower-cased value must be 1, true or yes. */
  function EnvBool(env: Env, name: string): (b: bool)
    ensures name !in env ==> !b
    ensures b ==> name in env && Truthy(Lower(Strip(env[name])))
  {
    name in env && Truthy(Lower(Strip(env[name])))
  }

  /** " Yes " and "TRUE" switch a flag on; "on" and "0" do not. */
  lemma EnvBoolExamples()
    ensures EnvBool(map["F" := " Yes "], "F") && EnvBool(map["F" := "TRUE"], "F")
    ensures !EnvBool(map["F" := "on"], "F") && !EnvBool(map["F" := "0"], "F")
  {
    assert Strip(" Yes ") == "Yes" by {
      assert LStrip(" Yes ") == "Yes ";
      assert RStrip("Yes ") == "Yes";
    }
    StripIdentity("TRUE");
    StripIdentity("on");
    StripIdentity("0");
    assert Lower("Yes") == "yes";
    assert Lower("TRUE") == "true";
    assert Lower("on") == "on";
  }

  /**
   * _env_int: the value of the variable (the default's text when unset),
   * clamped into [lo, hi]; a value int() rejects gives the default, not
   * clamped.
   */
  function EnvInt(env: Env, name: string, default: int, lo: int, hi: int): (r: int)
    ensures name in env && ParseInt(env[name]).None? ==> r == default
    ensures name in env && ParseInt(env[name]).Some? ==> r == Max(lo, Min(hi, ParseInt(env[name]).value))
    ensures name !in env ==> r == Max(lo, Min(hi, default))
    ensures lo <= hi && (name !in env || ParseInt(env[name]).Some?) ==> lo <= r <= hi
  {
    var raw := if name in env then env[name] else IntToString(default);
    ParseIntToString(default);
    match ParseInt(raw)
    case Some(v) => Max(lo, Min(hi, v))
    case None => default
  }

  datatype Settings = Settings(
    onRailway: bool,
    safeMode: bool,
    syncMaxPages: int,
    asyncMaxPages: int,
    safeDpi: int,
    safeBatchPages: int,
    maxFileSizeBytes: int,
    uploadChunkSize: int,
    extractImages: bool,
    extractLayout: bool,
    extractTables: bool,
    extractMath: bool,
    ocrEngine: string)

  const UploadChunkSize: int := 64 * 1024

  /**
   * The module-level settings. Safe mode is on exactly on Railway; the page
   * caps default to 5 and 100 there and to 50 and 500 elsewhere; every limit
   * read without a parse error lies in its range.
   */
  function Load(env: Env): (s: Settings)
    ensures s.safeMode == s.onRailway == ("PORT" in env)
    ensures "SYNC_MAX_PAGES" !in env ==> s.syncMaxPages == (if s.onRailway then 5 else 50)
    ensures "ASYNC_MAX_PAGES" !in env ==> s.asyncMaxPages == (if s.onRailway then 100 else 500)
    ensures "SAFE_DPI" !in env ==> s.safeDpi == 300
    ensures "SAFE_BATCH_PAGES" !in env ==> s.safeBatchPages == 3
    ensures "MAX_FILE_SIZE_BYTES" !in env ==> s.maxFileSizeBytes == 20 * 1024 * 1024
    ensures "SYNC_MAX_PAGES" !in env || ParseInt(env["SYNC_MAX_PAGES"]).Some? ==> 1 <= s.syncMaxPages <= 500
    ensures "ASYNC_MAX_PAGES" !in env || ParseInt(env["ASYNC_MAX_PAGES"]).Some? ==> 1 <= s.asyncMaxPages <= 1000
    ensures "SAFE_DPI" !in env || ParseInt(env["SAFE_DPI"]).Some? ==> 1 <= s.safeDpi <= 1200
    ensures s.extractImages == EnvBool(env, "EXTRACT_IMAGES")
    ensures s.extractLayout == EnvBool(env, "EXTRACT_LAYOUT")
    ensures s.extractTables == EnvBool(env, "EXTRACT_TABLES")
    ensures s.extractMath == EnvBool(env, "EXTRACT_MATH")
    ensures !s.extractImages && !s.extractLayout && !s.extractTables && !s.extractMath <==>
      !EnvBool(env, "EXTRACT_IMAGES") && !EnvBool(env, "EXTRACT_LAYOUT")
      && !EnvBool(env, "EXTRACT_TABLES") && !EnvBool(env, "EXTRACT_MATH")
    ensures "OCR_ENGINE" !in env ==> s.ocrEngine == "tesseract"
  {
    var onRailway := "PORT" in env;
    var syncDefault := if onRailway then 5 else 50;
    var asyncDefault := if onRailway then 100 else 500;
    StripIdentity("tesseract");
    LowerIdempotent("tesseract");
    assert Lower("tesseract") == "tesseract";
    Settings(
      onRailway,
      onRailway,
      EnvInt(env, "SYNC_MAX_PAGES", syncDefault, 1, 500),
      EnvInt(env, "ASYNC_MAX_PAGES", asyncDefault, 1, 1000),
      EnvInt(env, "SAFE_DPI", 300, 1, 1200),
      EnvInt(env, "SAFE_BATCH_PAGES", 3, 1, 20),
      EnvInt(env, "MAX_FILE_SIZE_BYTES", 20 * 1024 * 1024, 1, 500 * 1024 * 1024),
      UploadChunkSize,
      EnvBool(env, "EXTRACT_IMAGES"),
      EnvBool(env, "EXTRACT_LAYOUT"),
      EnvBool(env, "EXTRACT_TABLES"),
      EnvBool(env, "EXTRACT_MATH"),
      Lower(Strip(if "OCR_ENGINE" in env then env["OCR_ENGINE"] else "tesseract")))
  }
}
