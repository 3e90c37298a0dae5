/** Which body limit a request gets, and which requests are subject to admission. */
module RequestLimits {
  import opened Wrappers
  import opened Decimal

  const MIB := 1024 * 1024
  const MULTIPART_OVERHEAD_BYTES := MIB
  const DEFAULT_REQUEST_BODY_MAX_BYTES := 2 * MIB
  const MCP_TRANSCRIBE_MAX_FILE_BYTES := 200 * MIB
  const MCP_TRANSCRIBE_MAX_BASE64_CHARS := 4 * ((MCP_TRANSCRIBE_MAX_FILE_BYTES + 2) / 3)
  const MCP_REQUEST_BODY_MAX_BYTES := MCP_TRANSCRIBE_MAX_BASE64_CHARS + MULTIPART_OVERHEAD_BYTES
  const LARGE_REQUEST_ADMISSION_THRESHOLD_BYTES := 5 * MIB
  const ARCHIVE_IMPORT_MAX_FILE_BYTES := 516 * MIB

  const EXACT_PATH_LIMITS := map[
    "/captures" := 100 * MIB + MULTIPART_OVERHEAD_BYTES,
    "/generate/import" := 200 * MIB + MULTIPART_OVERHEAD_BYTES,
    "/history/import" := ARCHIVE_IMPORT_MAX_FILE_BYTES + MULTIPART_OVERHEAD_BYTES,
    "/profiles/import" := ARCHIVE_IMPORT_MAX_FILE_BYTES + MULTIPART_OVERHEAD_BYTES,
    "/transcribe" := 100 * MIB + MULTIPART_OVERHEAD_BYTES]

  /** The request method in upper case, and the path as received. */
  datatype Scope = Scope(verb: string, path: string)

  function Normalized(path: string): string {
    if path != "/" && path != "" && path[|path| - 1] == '/' then path[..|path| - 1] else path
  }

  predicate StartsWith(s: string, prefix: string) {
    prefix <= s
  }

  predicate EndsWith(s: string, suffix: string) {
    |suffix| <= |s| && s[|s| - |suffix|..] == suffix
  }

  function Count(s: string, c: char): nat {
    if s == "" then 0 else (if s[0] == c then 1 else 0) + Count(s[1..], c)
  }

  const PROFILES := "/profiles/"

  /** The part after `/profiles/`, when it names one profile and one thing below it. */
  predicate ProfileUpload(path: string, thing: string) {
    && StartsWith(path, PROFILES)
    && EndsWith(path[|PROFILES|..], thing)
    && Count(path[|PROFILES|..], '/') == 1
  }

  function RequestBodyLimit(scope: Scope): nat {
    var path := Normalized(scope.path);
    if scope.verb == "POST" && path in EXACT_PATH_LIMITS then EXACT_PATH_LIMITS[path]
    else if scope.verb == "POST" && ProfileUpload(path, "/samples") then 50 * MIB + MULTIPART_OVERHEAD_BYTES
    else if scope.verb == "POST" && ProfileUpload(path, "/avatar") then 5 * MIB + MULTIPART_OVERHEAD_BYTES
    else if scope.verb == "POST" && path == "/mcp" then MCP_REQUEST_BODY_MAX_BYTES
    else DEFAULT_REQUEST_BODY_MAX_BYTES
  }

  predicate IsLargeMultipartRoute(scope: Scope) {
    var path := Normalized(scope.path);
    && scope.verb == "POST"
    && (path in EXACT_PATH_LIMITS || ProfileUpload(path, "/samples") || ProfileUpload(path, "/avatar"))
  }

  predicate IsMcpRoute(scope: Scope) {
    scope.verb == "POST" && Normalized(scope.path) == "/mcp"
  }

  /** A route may carry a large body exactly if it is one of the two kinds that admission controls, never of both. */
  lemma LargeRoutesAreAdmissionControlled(scope: Scope)
    ensures RequestBodyLimit(scope) > LARGE_REQUEST_ADMISSION_THRESHOLD_BYTES
        <==> IsLargeMultipartRoute(scope) || IsMcpRoute(scope)
    ensures !(IsLargeMultipartRoute(scope) && IsMcpRoute(scope))
    ensures RequestBodyLimit(scope) > 0
  {
  }

  // ---- The declared length ----

  datatype HeaderError = InvalidContentLength

  /** At most one header, of at most twenty decimal digits. */
  function DeclaredContentLength(values: seq<string>): Result<Option<nat>, HeaderError> {
    if values == [] then Ok(None)
    else if |values| != 1 then Err(InvalidContentLength)
    else if values[0] == "" || |values[0]| > 20 || !IsDecimal(values[0]) then Err(InvalidContentLength)
    else Ok(Some(Parse(values[0])))
  }

  /** Every length of up to twenty digits can be declared, and nothing larger is ever taken from a header. */
  lemma DeclaredLengths(n: nat, values: seq<string>)
    ensures DeclaredContentLength([Print(n)]) == Ok(Some(n)) <==> n < Pow10(20)
    ensures DeclaredContentLength(values).Ok? && DeclaredContentLength(values).value.Some? ==>
              DeclaredContentLength(values).value.value < Pow10(20)
  {
    ParsePrint(n);
    if n < Pow10(20) {
      PrintBound(n, 20);
    } else if |Print(n)| <= 20 {
      ParseBound(Print(n));
      PowGrows(|Print(n)|, 20);
    }
    if DeclaredContentLength(values).Ok? && DeclaredContentLength(values).value.Some? {
      ParseBound(values[0]);
      PowGrows(|values[0]|, 20);
    }
  }

  lemma {:induction false} PowGrows(j: nat, k: nat)
    requires j <= k
    ensures Pow10(j) <= Pow10(k)
  {
    if j < k {
      PowGrows(j, k - 1);
    }
  }
}
