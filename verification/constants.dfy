/**
 * Application-wide defaults and the URL used to reload the application
 * fresh from its base path.
 */
module Constants {
  import opened Strs

  const DEFAULT_SERVICE_TYPE: string := "neptune-db"
  const DEFAULT_FETCH_TIMEOUT: nat := 240000
  const DEFAULT_NODE_EXPAND_LIMIT: nat := 500
  const DEFAULT_CONCURRENT_REQUESTS_LIMIT: nat := 10

  /**
   * JavaScript `s.substring(start)` with a single argument: a negative or
   * missing start counts as 0 and a start past the end counts as the length.
   */
  function Substring(s: string, start: int): (r: string)
    ensures start <= 0 ==> r == s
    ensures 0 <= start <= |s| ==> r == s[start..]
    ensures start >= |s| ==> r == ""
  {
    if start <= 0 then s
    else if start >= |s| then ""
    else s[start..]
  }

  /**
   * The reload URL as the code computes it: the guard takes `substring(-1)`,
   * which is the whole base, so a slash is appended to every base except
   * exactly "/".
   */
  function ReloadUrlAsWritten(base: string): (r: string)
    ensures base == "/" ==> r == base
    ensures base != "/" ==> r == base + "/"
    ensures EndsWith(r, "/")
  {
    if Substring(base, -1) != "/" then base + "/" else base
  }

  /** The empty base reloads at "/". */
  lemma ReloadUrlAsWrittenEmpty()
    ensures ReloadUrlAsWritten("") == "/"
  {
  }

  /**
   * A base that already ends with a slash gains a second one: "/app/" reloads
   * at "/app//" although "/app/" was evidently meant.
   */
  lemma ReloadUrlAsWrittenDoubleSlash()
    ensures ReloadUrlAsWritten("/app/") == "/app//"
    ensures ReloadUrl("/app/") == "/app/"
    ensures EndsWith(ReloadUrlAsWritten("/app/"), "//")
  {
    assert "/app/" + "/" == "/app//";
  }

  /**
   * The reload URL as evidently intended: the base with exactly one trailing
   * slash, appended only when the base does not already end with one.
   */
  function ReloadUrl(base: string): (r: string)
    ensures EndsWith(r, "/")
    ensures EndsWith(base, "/") ==> r == base
    ensures !EndsWith(base, "/") ==> r == base + "/"
  {
    if EndsWith(base, "/") then base else base + "/"
  }

  /**
   * Reloading is idempotent, the intended URL never introduces a doubled
   * slash, and it agrees with the code on every base that does not end with
   * a slash and on "/" itself.
   */
  lemma ReloadUrlProperties(base: string)
    ensures ReloadUrl(ReloadUrl(base)) == ReloadUrl(base)
    ensures EndsWith(ReloadUrl(base), "//") ==> EndsWith(base, "//")
    ensures !EndsWith(base, "/") || base == "/" ==> ReloadUrl(base) == ReloadUrlAsWritten(base)
    ensures ReloadUrl("") == "/"
  {
  }
}
