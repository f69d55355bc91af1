/**
 * Server configuration read from the process environment, which is modelled as a
 * map from variable name to value (an absent key is an unset variable).
 */
module Config {
  import opened Common
  import Text

  type Environment = map<string, string>

  datatype ConfigError = MissingVariable(name: string) | InvalidAuthMode(value: string)

  /** A required variable: unset and empty both fail, anything else is returned unchanged. */
  function RequireEnv(env: Environment, name: string): (r: Result<string, ConfigError>)
    ensures r.Ok? <==> name in env && env[name] != ""
    ensures r.Ok? ==> r.value == env[name]
    ensures r.Err? ==> r.error == MissingVariable(name)
  {
    if name in env && env[name] != "" then Ok(env[name]) else Err(MissingVariable(name))
  }

  datatype AuthMode = Dev | Prod

  /** `AUTH_MODE`, defaulting to prod only when unset; an empty or other value is rejected. */
  function AuthModeOf(env: Environment): (r: Result<AuthMode, ConfigError>)
    ensures "AUTH_MODE" !in env ==> r == Ok(Prod)
    ensures "AUTH_MODE" in env ==>
      (r == Ok(Dev) <==> env["AUTH_MODE"] == "dev") &&
      (r == Ok(Prod) <==> env["AUTH_MODE"] == "prod") &&
      (r.Err? <==> env["AUTH_MODE"] != "dev" && env["AUTH_MODE"] != "prod")
  {
    var mode := if "AUTH_MODE" in env then env["AUTH_MODE"] else "prod";
    if mode == "dev" then Ok(Dev)
    else if mode == "prod" then Ok(Prod)
    else Err(InvalidAuthMode(mode))
  }

  // ---------------------------------------------------------------------------
  // CORS allow-list
  // ---------------------------------------------------------------------------

  /** The characters JavaScript's `String.prototype.trim` removes (white space and line terminators). */
  predicate IsJsSpace(c: char) {
    c == '\t' || c == '\n' || c == '\U{000B}' || c == '\U{000C}' || c == '\r' || c == ' ' ||
    c == '\U{00A0}' || c == '\U{1680}' || ('\U{2000}' <= c <= '\U{200A}') ||
    c == '\U{2028}' || c == '\U{2029}' || c == '\U{202F}' || c == '\U{205F}' ||
    c == '\U{3000}' || c == '\U{FEFF}'
  }

  /** Drops leading white space: the result is the suffix after the longest all-space prefix. */
  function TrimStart(s: string): (r: string)
    ensures |r| <= |s| && r == s[|s| - |r|..]
    ensures |r| > 0 ==> !IsJsSpace(r[0])
    ensures forall k :: 0 <= k < |s| - |r| ==> IsJsSpace(s[k])
  {
    if |s| > 0 && IsJsSpace(s[0]) then TrimStart(s[1..]) else s
  }

  /** Drops trailing white space: the result is the prefix before the longest all-space suffix. */
  function TrimEnd(s: string): (r: string)
    ensures |r| <= |s| && r == s[..|r|]
    ensures |r| > 0 ==> !IsJsSpace(r[|r| - 1])
    ensures forall k :: |r| <= k < |s| ==> IsJsSpace(s[k])
  {
    if |s| > 0 && IsJsSpace(s[|s| - 1]) then TrimEnd(s[..|s| - 1]) else s
  }

  function Trim(s: string): string {
    TrimEnd(TrimStart(s))
  }

  function TrimEach(xs: seq<string>): (r: seq<string>)
    ensures |r| == |xs|
    ensures forall i :: 0 <= i < |r| ==> r[i] == Trim(xs[i])
  {
    if |xs| == 0 then [] else [Trim(xs[0])] + TrimEach(xs[1..])
  }

  /** `CORS_ORIGINS` split on commas, each piece trimmed, empty pieces removed. */
  function CorsOrigins(env: Environment): (r: seq<string>)
    ensures forall i :: 0 <= i < |r| ==> r[i] != ""
  {
    var raw := if "CORS_ORIGINS" in env then env["CORS_ORIGINS"] else "";
    Text.NonEmpty(TrimEach(Text.SplitAll(raw, ',')))
  }

  /** A trimmed piece: no white space at either end. */
  predicate Trimmed(s: string) {
    |s| > 0 ==> !IsJsSpace(s[0]) && !IsJsSpace(s[|s| - 1])
  }

  lemma TrimmedIsFixed(s: string)
    requires Trimmed(s)
    ensures Trim(s) == s
  {
  }

  /** Every origin is non-empty, trimmed and comma-free, and origins may be separated by `", "`. */
  lemma {:induction false} CorsOriginsOfList(origins: seq<string>, padded: seq<string>)
    requires |padded| == |origins| >= 1
    requires forall i :: 0 <= i < |origins| ==> origins[i] != "" && Trimmed(origins[i])
    requires forall i :: 0 <= i < |padded| ==> Avoids(padded[i], ',') && Trim(padded[i]) == origins[i]
    ensures CorsOrigins(map["CORS_ORIGINS" := Join(padded, ',')]) == origins
  {
    Text.SplitJoin(padded, ',');
    assert TrimEach(padded) == origins;
    Text.NonEmptyKeepsFull(origins);
  }

  /** Leading white space before a trimmed origin is dropped. */
  lemma TrimLeadingSpace(origin: string)
    requires origin != "" && Trimmed(origin)
    ensures Trim(" " + origin) == origin
  {
    assert (" " + origin)[1..] == origin;
  }

  /**
   * The allow-list `"a, b"` gives exactly the two origins `a` and `b`, so `a` is
   * allowed and any third origin is not.
   */
  lemma TwoOriginAllowList(a: string, b: string, other: string)
    requires a != "" && b != "" && Trimmed(a) && Trimmed(b) && Avoids(a, ',') && Avoids(b, ',')
    requires other != a && other != b
    ensures CorsOrigins(map["CORS_ORIGINS" := a + ", " + b]) == [a, b]
    ensures AllowedOrigin(CorsOrigins(map["CORS_ORIGINS" := a + ", " + b]), a) == Some(a)
    ensures AllowedOrigin(CorsOrigins(map["CORS_ORIGINS" := a + ", " + b]), other) == None
  {
    var padded := [a, " " + b];
    TrimLeadingSpace(b);
    TrimmedIsFixed(a);
    assert Avoids(" " + b, ',') by {
      forall i | 0 <= i < |" " + b|
        ensures (" " + b)[i] != ','
      {
        if i > 0 { assert (" " + b)[i] == b[i - 1]; }
      }
    }
    assert Join(padded, ',') == a + [','] + (" " + b) by {
      assert padded[1..] == [" " + b];
    }
    assert a + [','] + (" " + b) == a + ", " + b;
    CorsOriginsOfList([a, b], padded);
  }

  /** With `CORS_ORIGINS` unset or empty the allow-list is empty. */
  lemma CorsUnset(env: Environment)
    requires "CORS_ORIGINS" !in env || env["CORS_ORIGINS"] == ""
    ensures CorsOrigins(env) == []
  {
    EmptyListHasNoOrigins();
  }

  lemma EmptyListHasNoOrigins()
    ensures Text.NonEmpty(TrimEach(Text.SplitAll("", ','))) == []
  {
    assert Text.SplitAll("", ',') == [""];
    assert |Trim("")| == 0;
    assert TrimEach([""]) == [""];
    assert Text.NonEmpty([""]) == Text.NonEmpty([]);
  }

  /**
   * The `Access-Control-Allow-Origin` the server sends for a request's origin: any
   * origin is echoed when the list is empty, otherwise only listed ones are.
   */
  function AllowedOrigin(origins: seq<string>, requestOrigin: string): (r: Option<string>)
    ensures r.Some? ==> r.value == requestOrigin
    ensures r.Some? <==> |origins| == 0 || requestOrigin in origins
  {
    if |origins| == 0 then Some(requestOrigin)
    else if requestOrigin in origins then Some(requestOrigin)
    else None
  }
}
