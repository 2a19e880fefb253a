/**
 * The client's service configuration (src/config/api-config.js): URL
 * building with `{name}` placeholders, the per-environment service URLs,
 * and the tables of error messages and retryable status codes.
 */
module ApiConfig {
  import opened Wrappers
  import opened Text

  // ---------------------------------------------------------------------------
  // String.prototype.replace with a string pattern
  // ---------------------------------------------------------------------------

  /**
   * The replacement text for one match (GetSubstitution in ECMA-262, with no
   * capture groups): `$$` is a dollar sign, `$&` the match, `` $` `` the text
   * before it, `$'` the text after it; any other `$` stays as it is.
   */
  function Expand(r: string, matched: string, before: string, after: string): string {
    if r == [] then []
    else if r[0] == '$' && |r| >= 2 && r[1] == '$' then "$" + Expand(r[2..], matched, before, after)
    else if r[0] == '$' && |r| >= 2 && r[1] == '&' then matched + Expand(r[2..], matched, before, after)
    else if r[0] == '$' && |r| >= 2 && r[1] == '`' then before + Expand(r[2..], matched, before, after)
    else if r[0] == '$' && |r| >= 2 && r[1] == '\'' then after + Expand(r[2..], matched, before, after)
    else [r[0]] + Expand(r[1..], matched, before, after)
  }

  /** A replacement without a dollar sign is inserted as it is. */
  lemma {:induction false} ExpandPlain(r: string, matched: string, before: string, after: string)
    requires '$' !in r
    ensures Expand(r, matched, before, after) == r
  {
    if r != [] {
      assert r[0] != '$';
      assert '$' !in r[1..];
      ExpandPlain(r[1..], matched, before, after);
    }
  }

  /** `s.replace(needle, value)`: only the first occurrence is replaced. */
  function ReplaceFirst(s: string, needle: string, value: string): string {
    var p := IndexOf(s, needle);
    if p == -1 then s
    else s[..p] + Expand(value, needle, s[..p], s[p + |needle|..]) + s[p + |needle|..]
  }

  /**
   * Replacing changes nothing when the needle does not occur; otherwise the
   * text before the first occurrence and the text after it are kept as they
   * are, and a value without `$` goes in verbatim.
   */
  lemma ReplaceFirstMeaning(s: string, needle: string, value: string)
    ensures !Contains(s, needle) ==> ReplaceFirst(s, needle, value) == s
    ensures Contains(s, needle) && '$' !in value ==>
      var p := IndexOf(s, needle);
      && OccursAt(s, needle, p)
      && (forall i :: 0 <= i < p ==> !OccursAt(s, needle, i))
      && ReplaceFirst(s, needle, value) == s[..p] + value + s[p + |needle|..]
  {
    if Contains(s, needle) && '$' !in value {
      var p := IndexOf(s, needle);
      ExpandPlain(value, needle, s[..p], s[p + |needle|..]);
    }
  }

  // ---------------------------------------------------------------------------
  // buildApiUrl
  // ---------------------------------------------------------------------------

  function Placeholder(key: string): string {
    "{" + key + "}"
  }

  /** The URL after substituting each parameter in turn, in `Object.keys` order. */
  function Substitute(url: string, params: seq<(string, string)>): string
    decreases |params|
  {
    if params == [] then url
    else Substitute(ReplaceFirst(url, Placeholder(params[0].0), params[0].1), params[1..])
  }

  /** buildApiUrl: the base URL and the endpoint, with each parameter's first placeholder replaced. */
  method BuildApiUrl(baseUrl: string, endpoint: string, params: seq<(string, string)>) returns (url: string)
    ensures url == Substitute(baseUrl + endpoint, params)
    ensures params == [] ==> url == baseUrl + endpoint
  {
    url := baseUrl + endpoint;
    var i := 0;
    while i < |params|
      invariant 0 <= i <= |params|
      invariant Substitute(baseUrl + endpoint, params) == Substitute(url, params[i..])
    {
      assert params[i..][1..] == params[i + 1..];
      url := ReplaceFirst(url, Placeholder(params[i].0), params[i].1);
      i := i + 1;
    }
    assert params[i..] == [];
  }

  /** Parameters whose placeholders do not occur leave the URL as it is. */
  lemma {:induction false} AbsentPlaceholdersStay(url: string, params: seq<(string, string)>)
    requires forall i :: 0 <= i < |params| ==> !Contains(url, Placeholder(params[i].0))
    ensures Substitute(url, params) == url
    decreases |params|
  {
    if params != [] {
      ReplaceFirstMeaning(url, Placeholder(params[0].0), params[0].1);
      assert forall i :: 0 <= i < |params[1..]| ==> params[1..][i] == params[i + 1];
      AbsentPlaceholdersStay(url, params[1..]);
    }
  }

  /** One parameter whose placeholder occurs replaces exactly its first occurrence. */
  lemma OneParameter(url: string, key: string, value: string)
    requires Contains(url, Placeholder(key)) && '$' !in value
    ensures var p := IndexOf(url, Placeholder(key));
      Substitute(url, [(key, value)]) == url[..p] + value + url[p + |Placeholder(key)|..]
  {
    ReplaceFirstMeaning(url, Placeholder(key), value);
    assert [(key, value)][1..] == [];
  }

  // ---------------------------------------------------------------------------
  // getApiConfig
  // ---------------------------------------------------------------------------

  datatype ServiceUrls = ServiceUrls(userService: string, postService: string, commentService: string)

  const Development: ServiceUrls :=
    ServiceUrls("http://localhost:8081", "http://localhost:8082", "http://localhost:8083")
  const Staging: ServiceUrls :=
    ServiceUrls("https://user-service-staging.example.com", "https://post-service-staging.example.com",
                "https://comment-service-staging.example.com")
  const Production: ServiceUrls :=
    ServiceUrls("https://user-service.example.com", "https://post-service.example.com",
                "https://comment-service.example.com")

  /** The properties every plain object inherits from Object.prototype; all of them are truthy. */
  const InheritedNames: set<string> := {
    "constructor", "hasOwnProperty", "isPrototypeOf", "propertyIsEnumerable", "toLocaleString",
    "toString", "valueOf", "__proto__", "__defineGetter__", "__defineSetter__",
    "__lookupGetter__", "__lookupSetter__"}

  /** What `configs[environment]` evaluates to when it is truthy. */
  datatype ConfigLookup = Entry(urls: ServiceUrls) | InheritedMember(name: string)

  /** The name looked up: the default parameter applies when the argument is `undefined` (None). */
  function EnvironmentName(environment: Option<string>): string {
    environment.GetOr("development")
  }

  /** getApiConfig as written: `configs[environment] || configs.development`. */
  function GetApiConfig(environment: Option<string>): (r: ConfigLookup)
    ensures r.InheritedMember? <==> EnvironmentName(environment) in InheritedNames
  {
    var name := EnvironmentName(environment);
    if name == "development" then Entry(Development)
    else if name == "staging" then Entry(Staging)
    else if name == "production" then Entry(Production)
    else if name in InheritedNames then InheritedMember(name)
    else Entry(Development)
  }

  /** An inherited name such as "toString" yields that member instead of a configuration. */
  lemma InheritedNameIsNoConfig()
    ensures GetApiConfig(Some("toString")) == InheritedMember("toString")
  {
    assert "toString" in InheritedNames;
  }

  /** getApiConfig reading own properties only, as its fallback evidently intends. */
  function GetApiConfigOwn(environment: Option<string>): ServiceUrls {
    var name := EnvironmentName(environment);
    if name == "staging" then Staging
    else if name == "production" then Production
    else Development
  }

  /** The three names get their own entries; every other input, undefined included, gets development. */
  lemma GetApiConfigOwnMeaning(environment: Option<string>)
    ensures EnvironmentName(environment) == "staging" ==> GetApiConfigOwn(environment) == Staging
    ensures EnvironmentName(environment) == "production" ==> GetApiConfigOwn(environment) == Production
    ensures EnvironmentName(environment) != "staging" && EnvironmentName(environment) != "production" ==>
      GetApiConfigOwn(environment) == Development
    ensures environment.None? ==> GetApiConfigOwn(environment) == Development
    ensures GetApiConfig(environment).Entry? ==> GetApiConfig(environment).urls == GetApiConfigOwn(environment)
  {
  }

  // ---------------------------------------------------------------------------
  // Status tables
  // ---------------------------------------------------------------------------

  const ErrorCodes: set<int> := {400, 401, 403, 404, 409, 422, 500, 502, 503, 504}

  /** ERROR_MESSAGES[code]: defined for exactly the ten listed codes. */
  function ErrorMessage(code: int): (r: Option<string>)
    ensures r.Some? <==> code in ErrorCodes
    ensures r.Some? ==> r.value != ""
  {
    if code == 400 then Some("잘못된 요청입니다.")
    else if code == 401 then Some("인증이 필요합니다.")
    else if code == 403 then Some("접근 권한이 없습니다.")
    else if code == 404 then Some("요청한 리소스를 찾을 수 없습니다.")
    else if code == 409 then Some("이미 존재하는 리소스입니다.")
    else if code == 422 then Some("입력 데이터가 유효하지 않습니다.")
    else if code == 500 then Some("서버 오류가 발생했습니다.")
    else if code == 502 then Some("서비스에 연결할 수 없습니다.")
    else if code == 503 then Some("서비스가 일시적으로 사용할 수 없습니다.")
    else if code == 504 then Some("요청 시간이 초과되었습니다.")
    else None
  }

  const RetryableStatusCodes: seq<int> := [408, 429, 500, 502, 503, 504]

  /** `RETRYABLE_STATUS_CODES.includes(code)`. */
  predicate IsRetryable(code: int) {
    code in RetryableStatusCodes
  }

  /** The retryable codes are exactly these six; two of them, 408 and 429, have no message. */
  lemma RetryableCodes(code: int)
    ensures IsRetryable(code) <==> code in {408, 429, 500, 502, 503, 504}
    ensures IsRetryable(code) && ErrorMessage(code).None? <==> code == 408 || code == 429
  {
    if IsRetryable(code) {
      var i :| 0 <= i < |RetryableStatusCodes| && RetryableStatusCodes[i] == code;
      assert i < 6;
    }
  }
}
