/**
 * `services/api.ts`: the request builder of the mobile client's POST helper. The URL keeps the
 * stored base's origin and query string, the headers carry an HTTP Basic credential
 * (section 2 of RFC 7617) when a login and an API key are stored, and the response decision
 * turns (status, body text) into a parsed value or an error message.
 */
module ApiClient {
  import opened Wrappers
  import opened Text
  import Base64
  import Utf8
  import Storage
  import opened JsonData
  import opened Url

  /** The request path, with a `/` put in front only when it lacks one. */
  function NormalizePath(path: string): (p: string)
    ensures StartsWith(p, "/")
    ensures p == path <==> StartsWith(path, "/")
    ensures p == path || p == "/" + path
  {
    if StartsWith(path, "/") then path else "/" + path
  }

  /** Normalising twice changes nothing. */
  lemma NormalizePathIdempotent(path: string)
    ensures NormalizePath(NormalizePath(path)) == NormalizePath(path)
  {
  }

  /** `base.replace(/\/$/, '')`: one trailing `/`, if any, is removed. */
  function StripTrailingSlash(base: string): (r: string)
    ensures r == base <==> (base == [] || base[|base| - 1] != '/')
    ensures r != base ==> r + "/" == base
  {
    if base != [] && base[|base| - 1] == '/' then base[..|base| - 1] else base
  }

  /** Only one slash goes: a base ending in `//` keeps one of them. */
  lemma StripsAtMostOneSlash(s: string)
    ensures StripTrailingSlash(s + "//") == s + "/"
  {
    assert (s + "//")[..|s| + 1] == s + "/";
  }

  /** `buildRequestUrl`: the base's origin, the path and the base's query string when the base
    * parses; otherwise the base without one trailing slash, followed by the path. */
  function BuildRequestUrl(base: string, path: string, parse: Parser): (url: string)
    ensures parse(base).None? ==> url == StripTrailingSlash(base) + NormalizePath(path)
    ensures parse(base).Some? && parse(parse(base).value.origin).None? ==> url == StripTrailingSlash(base) + NormalizePath(path)
    ensures parse(base).Some? && parse(parse(base).value.origin).Some? ==> var q := parse(base).value.search; |q| <= |url| && url[|url| - |q|..] == q
  {
    var p := NormalizePath(path);
    match parse(base)
    case None => StripTrailingSlash(base) + p
    case Some(b) =>
      match parse(b.origin)
      case None => StripTrailingSlash(base) + p
      case Some(u) => u.origin + p + b.search
  }

  /** For a base that parses and whose origin reparses to itself with no query (as an http or https
    * origin does), the base's own path is dropped and exactly its query string is kept, after the
    * normalised path. */
  lemma BuildRequestUrlKeepsQuery(base: string, path: string, parse: Parser)
    requires OriginReparses(parse, base)
    ensures BuildRequestUrl(base, path, parse) == parse(base).value.origin + NormalizePath(path) + parse(base).value.search
  {
  }

  /** A base with an opaque origin, such as `foo:bar` whose origin serialises as `null`, which does
    * not parse, falls back to plain concatenation. */
  lemma OpaqueOriginFallsBack(parse: Parser)
    requires parse("foo:bar") == Some(UrlParts("null", "", []))
    requires parse("null").None?
    ensures BuildRequestUrl("foo:bar", "me", parse) == "foo:bar/me"
  {
    assert "foo:bar"[6] == 'r';
    assert "me"[..1][0] == 'm' && "/"[0] == '/';
  }

  /** The request headers: `Content-Type` always, `Authorization` exactly when both the stored
    * login and API key are non-empty. None stands for the exception the `base-64` package's
    * encoder throws on a character outside Latin-1. */
  function BuildHeaders(c: Storage.Credentials): (r: Option<map<string, string>>)
    ensures r.None? <==> JsTextPresent(c.login) && JsTextPresent(c.apiKey)
                         && Utf8.Latin1(c.login.value + ":" + c.apiKey.value).None?
    ensures r.Some? ==> "Content-Type" in r.value && r.value["Content-Type"] == "application/json"
    ensures r.Some? ==> r.value.Keys <= {"Content-Type", "Authorization"}
    ensures r.Some? ==> ("Authorization" in r.value <==> JsTextPresent(c.login) && JsTextPresent(c.apiKey))
    ensures r.Some? && "Authorization" in r.value ==>
              exists octets :: Utf8.Latin1(c.login.value + ":" + c.apiKey.value) == Some(octets)
                && r.value["Authorization"] == "Basic " + Base64.Encode(octets)
  {
    var headers := map["Content-Type" := "application/json"];
    if JsTextPresent(c.login) && JsTextPresent(c.apiKey) then
      match Utf8.Latin1(c.login.value + ":" + c.apiKey.value)
      case None => None
      case Some(octets) => Some(headers["Authorization" := "Basic " + Base64.Encode(octets)])
    else Some(headers)
  }

  /** The `Authorization` value is an RFC 7617 credential: the scheme, one space, then a token of
    * base64 characters only (no spaces, no `:`). */
  lemma AuthorizationIsBasicToken(c: Storage.Credentials)
    requires BuildHeaders(c).Some? && "Authorization" in BuildHeaders(c).value
    ensures StartsWith(BuildHeaders(c).value["Authorization"], "Basic ")
    ensures forall i :: 6 <= i < |BuildHeaders(c).value["Authorization"]| ==>
              Base64.IsBase64Char(BuildHeaders(c).value["Authorization"][i]) || BuildHeaders(c).value["Authorization"][i] == '='
  {
    var octets := Utf8.Latin1(c.login.value + ":" + c.apiKey.value).value;
    var h := BuildHeaders(c).value["Authorization"];
    assert h == "Basic " + Base64.Encode(octets);
    assert h[6..] == Base64.Encode(octets);
  }

  /** The outcome of an awaited call: its value, or the message of the error it rejects with. */
  datatype Outcome<T> = Returned(value: T) | Threw(message: string)

  datatype Request = Request(url: string, verb: string, headers: map<string, string>, body: Option<string>)

  /** What `fetch` resolves to; a network failure is a rejection, modelled by `None`. */
  datatype Response = Response(status: nat, statusText: string, text: string)

  type Fetch = Request -> Option<Response>

  /** `res.ok`. */
  predicate IsOk(status: nat) {
    200 <= status <= 299
  }

  /** The base URL used: the stored one, or the compiled default when it is empty. */
  function EffectiveBase(stored: string, defaultBase: string): (b: string)
    ensures stored != "" ==> b == stored
    ensures stored == "" ==> b == defaultBase
  {
    if stored != "" then stored else defaultBase
  }

  /** The request `apiPost` sends: None when building the headers throws, before anything is sent. */
  function ApiRequest(c: Storage.Credentials, defaultBase: string, path: string, body: Option<Json>,
                      parse: Parser, stringify: Json -> string): (r: Option<Request>)
    ensures r.Some? <==> BuildHeaders(c).Some?
    ensures r.Some? ==> r.value.verb == "POST" && r.value.headers == BuildHeaders(c).value
    ensures r.Some? ==> r.value.url == BuildRequestUrl(EffectiveBase(c.baseUrl, defaultBase), path, parse)
    ensures r.Some? && !JsPresent(body) ==> r.value.body == Some("{}")
    ensures r.Some? && JsPresent(body) ==> r.value.body == Some(stringify(body.value))
  {
    var url := BuildRequestUrl(EffectiveBase(c.baseUrl, defaultBase), path, parse);
    match BuildHeaders(c)
    case None => None
    case Some(h) => Some(Request(url, "POST", h, Some(if JsPresent(body) then stringify(body.value) else "{}")))
  }

  /** The message of the error thrown for a non-2xx response. */
  function HttpErrorMessage(r: Response): string {
    "HTTP " + Decimal(r.status) + " " + r.statusText + ": " + Take(r.text, 300)
  }

  /** The message of the error thrown for a 2xx response whose text is not JSON. */
  function InvalidJsonMessage(url: string, text: string): string {
    "Invalid JSON from " + url + ". First 200 chars: " + Take(text, 200)
  }

  /** What `apiPost` makes of a response: the parsed body for a 2xx response whose text is JSON,
    * otherwise an error naming the status and at most 300 characters of the body, or the URL and at
    * most 200 characters of the body. */
  function ApiResponse(url: string, r: Response, jsonParse: string -> Option<Json>): (o: Outcome<Json>)
    ensures o.Returned? <==> IsOk(r.status) && jsonParse(r.text).Some?
    ensures o.Returned? ==> o.value == jsonParse(r.text).value
    ensures !IsOk(r.status) ==> o == Threw(HttpErrorMessage(r))
    ensures IsOk(r.status) && jsonParse(r.text).None? ==> o == Threw(InvalidJsonMessage(url, r.text))
  {
    if !IsOk(r.status) then Threw(HttpErrorMessage(r))
    else match jsonParse(r.text)
      case Some(v) => Returned(v)
      case None => Threw(InvalidJsonMessage(url, r.text))
  }

  /** The error messages quote the body only up to their limits: the status message ends with the
    * body's first 300 characters, the invalid-JSON message with its first 200. */
  lemma ErrorMessagesQuoteBoundedBody(url: string, r: Response)
    ensures StartsWith(HttpErrorMessage(r), "HTTP ")
    ensures HttpErrorMessage(r) == "HTTP " + Decimal(r.status) + " " + r.statusText + ": " + r.text[..if |r.text| < 300 then |r.text| else 300]
    ensures InvalidJsonMessage(url, r.text) == "Invalid JSON from " + url + ". First 200 chars: " + r.text[..if |r.text| < 200 then |r.text| else 200]
  {
    var k3 := |Take(r.text, 300)|;
    assert Take(r.text, 300) == r.text[..k3];
    var k2 := |Take(r.text, 200)|;
    assert Take(r.text, 200) == r.text[..k2];
    assert HttpErrorMessage(r) == "HTTP " + (Decimal(r.status) + " " + r.statusText + ": " + Take(r.text, 300));
  }

  /** `apiPost` as a whole: read the stored credentials, build the request, send it once, decide.
    * `stored` is what the credential reads yield (the one for the base URL and the one inside
    * `buildHeaders`), None when one of them rejects. */
  function ApiPost(stored: Option<Storage.Credentials>, defaultBase: string, path: string, body: Option<Json>,
                   parse: Parser, stringify: Json -> string, fetch: Fetch,
                   jsonParse: string -> Option<Json>): (o: Outcome<Json>)
    ensures stored.None? ==> o.Threw?
    ensures o.Returned? ==> stored.Some?
    ensures o.Returned? ==> exists req, resp :: ApiRequest(stored.value, defaultBase, path, body, parse, stringify) == Some(req)
                              && fetch(req) == Some(resp) && IsOk(resp.status)
                              && jsonParse(resp.text) == Some(o.value)
    ensures stored.Some? ==> var req := ApiRequest(stored.value, defaultBase, path, body, parse, stringify);
            req.Some? && fetch(req.value).Some? ==> o == ApiResponse(req.value.url, fetch(req.value).value, jsonParse)
    ensures stored.Some? ==> var req := ApiRequest(stored.value, defaultBase, path, body, parse, stringify);
            req.None? || fetch(req.value).None? ==> o.Threw?
  {
    match stored
    case None => Threw("getItemAsync rejected")
    case Some(c) =>
      match ApiRequest(c, defaultBase, path, body, parse, stringify)
      case None => Threw("The string to be encoded contains characters outside of the Latin1 range.")
      case Some(req) =>
        match fetch(req)
        case None => Threw("Network request failed")
        case Some(resp) => ApiResponse(req.url, resp, jsonParse)
  }
}
