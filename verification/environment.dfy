/**
 * Environment values of the proxy server (their defaults and validation) and
 * the server and client URLs built from them.
 */
module Environment {
  import opened Wrappers
  import opened Strs
  import BooleanString

  datatype LogLevel = Fatal | Error | Warn | Info | Debug | Trace | Silent
  datatype LogStyle = Cloudwatch | DefaultStyle

  /** The parsed environment, every field filled in. */
  datatype EnvironmentValues = EnvironmentValues(
    host: string,
    httpsConnection: bool,
    httpsPort: int,
    httpPort: int,
    basePath: string,
    logLevel: LogLevel,
    logStyle: LogStyle)

  /** The raw environment: each variable absent or present as text. */
  datatype RawEnvironment = RawEnvironment(
    host: Option<string>,
    httpsConnection: Option<string>,
    httpsPort: Option<string>,
    httpPort: Option<string>,
    basePath: Option<string>,
    logLevel: Option<string>,
    logStyle: Option<string>)

  const CLIENT_PATH: string := "/explorer"

  /** Removes one trailing `/`; `/` itself becomes the empty string. */
  function StripTrailingSlash(s: string): (r: string)
    ensures EndsWith(s, "/") ==> r + "/" == s
    ensures !EndsWith(s, "/") ==> r == s
  {
    if |s| > 0 && s[|s| - 1] == '/' then s[..|s| - 1] else s
  }

  /** Exactly one slash goes: a string with a slash appended strips back to itself. */
  lemma StripAppendedSlash(s: string)
    ensures StripTrailingSlash(s + "/") == s
  {
  }

  /**
   * `z.coerce.number()` on a port's text: `Number(s)`, rejected when it is
   * not a number. The empty string is `0`; otherwise only decimal digits are
   * read.
   */
  function CoerceNumber(s: string): (r: Option<int>)
    ensures s == "" ==> r == Some(0)
    ensures s != "" ==> (r.Some? <==> ParseNat(s).Some?)
    ensures s != "" && r.Some? ==> r.value == ParseNat(s).value
    ensures r.Some? ==> r.value >= 0
  {
    if s == "" then Some(0)
    else match ParseNat(s)
      case None => None
      case Some(n) => Some(n)
  }

  /** A port written in decimal is read back as itself. */
  lemma CoercePortRoundTrip(n: nat)
    ensures CoerceNumber(NatToString(n)) == Some(n)
  {
    NatRoundTrip(n);
    NatToStringDigits(n);
  }

  /** A port variable coerced, or its default when absent. */
  function PortOr(raw: Option<string>, default: int): (r: Option<int>)
    ensures raw.None? ==> r == Some(default)
    ensures raw.Some? ==> r == CoerceNumber(raw.value)
  {
    if raw.Some? then CoerceNumber(raw.value) else Some(default)
  }

  /** `ParseLogLevel`: one of the seven level names, or nothing. */
  function ParseLogLevel(s: string): (r: Option<LogLevel>)
    ensures r.Some? ==> LogLevelName(r.value) == s
  {
    match s
    case "fatal" => Some(Fatal)
    case "error" => Some(Error)
    case "warn" => Some(Warn)
    case "info" => Some(Info)
    case "debug" => Some(Debug)
    case "trace" => Some(Trace)
    case "silent" => Some(Silent)
    case _ => None
  }

  function LogLevelName(l: LogLevel): string
  {
    match l
    case Fatal => "fatal"
    case Error => "error"
    case Warn => "warn"
    case Info => "info"
    case Debug => "debug"
    case Trace => "trace"
    case Silent => "silent"
  }

  /** Only the seven level names are accepted, and each one is read as its own level. */
  lemma LogLevelAccepted(s: string)
    ensures ParseLogLevel(s).Some? <==>
      s in {"fatal", "error", "warn", "info", "debug", "trace", "silent"}
    ensures ParseLogLevel(s).Some? ==> LogLevelName(ParseLogLevel(s).value) == s
  {
  }

  function ParseLogStyle(s: string): Option<LogStyle>
  {
    match s
    case "cloudwatch" => Some(Cloudwatch)
    case "default" => Some(DefaultStyle)
    case _ => None
  }

  /** The default texts of the flag, the level and the style are themselves valid. */
  lemma DefaultsAccepted()
    ensures BooleanString.Parse("false") == Success(false)
    ensures ParseLogLevel("debug") == Some(Debug)
    ensures ParseLogStyle("default") == Some(DefaultStyle)
  {
    BooleanString.RoundTrip(false);
  }

  /**
   * `EnvironmentValuesSchema.parse`: absent values take their defaults, present
   * values are validated; the failure lists every rejected variable.
   */
  function Parse(raw: RawEnvironment): (r: Result<EnvironmentValues, seq<string>>)
    ensures r.Success? ==> r.value.host == raw.host.GetOr("localhost")
    ensures r.Success? ==> PortOr(raw.httpsPort, 443) == Some(r.value.httpsPort)
    ensures r.Success? ==> PortOr(raw.httpPort, 80) == Some(r.value.httpPort)
    ensures r.Success? ==> r.value.basePath == StripTrailingSlash(raw.basePath.GetOr(""))
    ensures r.Success? ==> BooleanString.Parse(raw.httpsConnection.GetOr("false")) == Success(r.value.httpsConnection)
    ensures r.Success? ==> ParseLogLevel(raw.logLevel.GetOr("debug")) == Some(r.value.logLevel)
    ensures r.Success? ==> ParseLogStyle(raw.logStyle.GetOr("default")) == Some(r.value.logStyle)
    ensures r.Success? <==>
      && (raw.httpsConnection.None? || BooleanString.Parse(raw.httpsConnection.value).Success?)
      && (raw.httpsPort.None? || CoerceNumber(raw.httpsPort.value).Some?)
      && (raw.httpPort.None? || CoerceNumber(raw.httpPort.value).Some?)
      && (raw.logLevel.None? || ParseLogLevel(raw.logLevel.value).Some?)
      && (raw.logStyle.None? || ParseLogStyle(raw.logStyle.value).Some?)
  {
    DefaultsAccepted();
    var https := BooleanString.Parse(raw.httpsConnection.GetOr("false"));
    var httpsPort := PortOr(raw.httpsPort, 443);
    var httpPort := PortOr(raw.httpPort, 80);
    var level := ParseLogLevel(raw.logLevel.GetOr("debug"));
    var style := ParseLogStyle(raw.logStyle.GetOr("default"));
    if https.Success? && httpsPort.Some? && httpPort.Some? && level.Some? && style.Some? then
      Success(EnvironmentValues(
        raw.host.GetOr("localhost"),
        https.value,
        httpsPort.value,
        httpPort.value,
        StripTrailingSlash(raw.basePath.GetOr("")),
        level.value,
        style.value))
    else
      Failure(
        (if https.Failure? then ["PROXY_SERVER_HTTPS_CONNECTION"] else [])
        + (if httpsPort.None? then ["PROXY_SERVER_HTTPS_PORT"] else [])
        + (if httpPort.None? then ["PROXY_SERVER_HTTP_PORT"] else [])
        + (if level.None? then ["LOG_LEVEL"] else [])
        + (if style.None? then ["LOG_STYLE"] else []))
  }

  /** The failure names each rejected variable and no other, in the schema's order. */
  lemma ParseErrorsNamed(raw: RawEnvironment)
    requires Parse(raw).Failure?
    ensures Parse(raw).error ==
      (if raw.httpsConnection.Some? && BooleanString.Parse(raw.httpsConnection.value).Failure? then ["PROXY_SERVER_HTTPS_CONNECTION"] else [])
      + (if raw.httpsPort.Some? && CoerceNumber(raw.httpsPort.value).None? then ["PROXY_SERVER_HTTPS_PORT"] else [])
      + (if raw.httpPort.Some? && CoerceNumber(raw.httpPort.value).None? then ["PROXY_SERVER_HTTP_PORT"] else [])
      + (if raw.logLevel.Some? && ParseLogLevel(raw.logLevel.value).None? then ["LOG_LEVEL"] else [])
      + (if raw.logStyle.Some? && ParseLogStyle(raw.logStyle.value).None? then ["LOG_STYLE"] else [])
  {
    DefaultsAccepted();
  }

  const EMPTY: RawEnvironment := RawEnvironment(None, None, None, None, None, None, None)

  const DEFAULTS: EnvironmentValues :=
    EnvironmentValues("localhost", false, 443, 80, "", Debug, DefaultStyle)

  /** An empty environment parses to the documented defaults. */
  lemma ParseEmpty()
    ensures Parse(EMPTY) == Success(DEFAULTS)
  {
    assert ToLower("false") == "false";
  }

  /** A base path of `/` normalises to the empty string, giving the defaults. */
  lemma ParseSlashBasePath()
    ensures Parse(EMPTY.(basePath := Some("/"))) == Success(DEFAULTS)
  {
    assert ToLower("false") == "false";
  }

  /**
   * Provided values override their defaults and all other fields keep theirs
   * (the host, https flag, https port and base path of the parsing example).
   */
  lemma ParseOverrides(host: string, httpsPort: nat, basePath: string)
    requires !EndsWith(basePath, "/")
    ensures Parse(EMPTY.(host := Some(host), httpsConnection := Some("true"),
                         httpsPort := Some(NatToString(httpsPort)), basePath := Some(basePath)))
         == Success(DEFAULTS.(host := host, httpsConnection := true,
                              httpsPort := httpsPort, basePath := basePath))
  {
    assert ToLower("true") == "true";
    CoercePortRoundTrip(httpsPort);
  }

  function Scheme(env: EnvironmentValues): string
  {
    if env.httpsConnection then "https" else "http"
  }

  /** The `:port` suffix, empty for the default port of the active scheme. */
  function PortSuffix(env: EnvironmentValues): (r: string)
    ensures r == "" <==>
      (env.httpsConnection && env.httpsPort == 443) || (!env.httpsConnection && env.httpPort == 80)
    ensures r != "" ==>
      r == ":" + IntToString(if env.httpsConnection then env.httpsPort else env.httpPort)
  {
    if env.httpsConnection && env.httpsPort != 443 then ":" + IntToString(env.httpsPort)
    else if !env.httpsConnection && env.httpPort != 80 then ":" + IntToString(env.httpPort)
    else ""
  }

  /** `extractServerUrl`: `scheme://host[:port]basePath`. */
  function ExtractServerUrl(env: EnvironmentValues): (r: string)
    ensures StartsWith(r, "https://") <==> env.httpsConnection
    ensures r == Scheme(env) + "://" + env.host + PortSuffix(env) + env.basePath
  {
    var r := Scheme(env) + "://" + env.host + PortSuffix(env) + env.basePath;
    assert env.httpsConnection ==> r[..8] == "https://";
    assert !env.httpsConnection ==> r[4] == ':';
    r
  }

  /** `extractClientUrl`: the server URL followed by `/explorer`. */
  function ExtractClientUrl(env: EnvironmentValues): (r: string)
    ensures StartsWith(r, ExtractServerUrl(env))
    ensures r[|ExtractServerUrl(env)|..] == CLIENT_PATH
  {
    ExtractServerUrl(env) + CLIENT_PATH
  }

  /** The port of the scheme not in use never changes the URL. */
  lemma InactivePortIgnored(env: EnvironmentValues, port: int)
    ensures !env.httpsConnection ==>
      ExtractServerUrl(env.(httpsPort := port)) == ExtractServerUrl(env)
    ensures env.httpsConnection ==>
      ExtractServerUrl(env.(httpPort := port)) == ExtractServerUrl(env)
  {
  }

  /** With every value defaulted the server URL is `http://localhost`. */
  lemma DefaultServerUrl()
    ensures Parse(EMPTY).Success?
    ensures ExtractServerUrl(Parse(EMPTY).value) == "http://localhost"
  {
    ParseEmpty();
    assert Scheme(DEFAULTS) == "http" && PortSuffix(DEFAULTS) == "";
    assert "http" + "://" + "localhost" + "" + "" == "http://localhost";
  }
}
