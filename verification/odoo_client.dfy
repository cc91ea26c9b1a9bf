/**
 * `api/odoo.ts`: the client that calls the add-on with an explicit configuration. Its Basic
 * credential has two branches (the global `btoa`, or Node's `Buffer` with UTF-8), its JSON helper
 * decides what to return or throw from the status and the body text, and its endpoint URLs carry
 * the database name as a `db` query parameter encoded by `encodeURIComponent`.
 */
module OdooClient {
  import opened Wrappers
  import opened Text
  import Base64
  import Utf8
  import Storage
  import opened JsonData
  import ApiClient
  import Url

  /** `OdooConfig`. */
  datatype OdooConfig = OdooConfig(baseUrl: string, db: string, login: string, apiKey: string)

  /** `basicAuth`: with `btoa` the credential's characters are taken as Latin-1 octets (and `btoa`
    * throws, modelled by None, on any character above U+00FF); without it they are UTF-8 encoded. */
  function BasicAuth(login: string, apiKey: string, hasBtoa: bool): (r: Option<string>)
    ensures !hasBtoa ==> r == Some("Basic " + Base64.Encode(Utf8.Encode(login + ":" + apiKey)))
    ensures hasBtoa ==> (r.Some? <==> forall i :: 0 <= i < |login + ":" + apiKey| ==> (login + ":" + apiKey)[i] as int < 0x100)
    ensures r.Some? ==> StartsWith(r.value, "Basic ")
  {
    var s := login + ":" + apiKey;
    if hasBtoa then
      match Utf8.Latin1(s)
      case None => None
      case Some(octets) => Some("Basic " + Base64.Encode(octets))
    else Some("Basic " + Base64.Encode(Utf8.Encode(s)))
  }

  /** Both branches produce the same header on ASCII credentials. */
  lemma BasicAuthBranchesAgreeOnAscii(login: string, apiKey: string)
    requires IsAscii(login + ":" + apiKey)
    ensures BasicAuth(login, apiKey, true) == BasicAuth(login, apiKey, false)
    ensures BasicAuth(login, apiKey, true).Some?
  {
    Utf8.AsciiLatin1IsUtf8(login + ":" + apiKey);
  }

  /** They differ on a Latin-1 letter outside ASCII: `é` is one octet for `btoa` and two in UTF-8. */
  lemma BasicAuthBranchesDifferOnLatin1()
    ensures BasicAuth("é", "", true).Some?
    ensures BasicAuth("é", "", true) != BasicAuth("é", "", false)
  {
    var s := "é" + ":" + "";
    assert s == ['é', ':'] && s[1..] == [':'] && s[1..][1..] == [];
    assert forall i :: 0 <= i < |s| ==> s[i] as int < 0x100;
    var l := Utf8.Latin1(s).value;
    assert |l| == 2 && l[0] == 0xE9 && l[1] == 0x3A;
    assert l == [0xE9, 0x3A];
    assert Utf8.EncodeChar('é') == [0xC3, 0xA9];
    assert Utf8.Encode(s[1..]) == [0x3A];
    assert Utf8.Encode(s) == [0xC3, 0xA9, 0x3A];
    var viaBtoa := Base64.Encode([0xE9, 0x3A]);
    var viaBuffer := Base64.Encode([0xC3, 0xA9, 0x3A]);
    assert viaBtoa[0] == Base64.CharOf(58);
    assert viaBuffer[0] == Base64.CharOf(48);
    assert ("Basic " + viaBtoa)[6] != ("Basic " + viaBuffer)[6];
  }

  /** With `btoa` present, the header equals the one `services/api.ts` builds for stored credentials. */
  lemma BasicAuthMatchesBuildHeaders(login: string, apiKey: string, baseUrl: string)
    requires login != "" && apiKey != ""
    requires BasicAuth(login, apiKey, true).Some?
    ensures var h := ApiClient.BuildHeaders(Storage.Credentials(Some(login), Some(apiKey), baseUrl));
            h.Some? && "Authorization" in h.value && BasicAuth(login, apiKey, true) == Some(h.value["Authorization"])
  {
  }

  /** `data` after the body text is read: null for an empty text, the parsed value for JSON text,
    * the raw text otherwise. */
  function ResponseData(text: string, jsonParse: string -> Option<Json>): (data: Json)
    ensures text == "" ==> data == Null
    ensures text != "" && jsonParse(text).Some? ==> data == jsonParse(text).value
    ensures text != "" && jsonParse(text).None? ==> data == Str(text)
  {
    if text == "" then Null
    else match jsonParse(text)
      case Some(v) => v
      case None => Str(text)
  }

  /** The value `new Error` receives for a non-2xx response: a truthy `data.message`, else a truthy
    * `data.error`, else `"HTTP <status>"`; only a JSON object has those members. */
  function ErrorMessage(data: Json, status: nat): (m: Json)
    ensures JsTruthy(m)
    ensures data.Obj? && "message" in data.fields && JsTruthy(data.fields["message"]) ==> m == data.fields["message"]
    ensures (data.Obj? && !("message" in data.fields && JsTruthy(data.fields["message"]))
             && "error" in data.fields && JsTruthy(data.fields["error"])) ==> m == data.fields["error"]
    ensures (!(data.Obj? && "message" in data.fields && JsTruthy(data.fields["message"]))
             && !(data.Obj? && "error" in data.fields && JsTruthy(data.fields["error"]))) ==> m == Str("HTTP " + Decimal(status))
    ensures !data.Obj? ==> m == Str("HTTP " + Decimal(status))
  {
    if data.Obj? && "message" in data.fields && JsTruthy(data.fields["message"]) then data.fields["message"]
    else if data.Obj? && "error" in data.fields && JsTruthy(data.fields["error"]) then data.fields["error"]
    else Str("HTTP " + Decimal(status))
  }

  /** The error `httpJson` throws: its message value, and the `status` and `data` attached to it. */
  datatype HttpError = HttpError(message: Json, status: nat, data: Json)

  /** The post-fetch decision of `httpJson`: a 2xx response returns `data` unchanged; any other
    * throws, carrying the status and the same `data`. */
  function HttpJsonResult(r: ApiClient.Response, jsonParse: string -> Option<Json>): (o: Result<Json, HttpError>)
    ensures o.Ok? <==> ApiClient.IsOk(r.status)
    ensures o.Ok? ==> o.value == ResponseData(r.text, jsonParse)
    ensures o.Err? ==> o.error.status == r.status && o.error.data == ResponseData(r.text, jsonParse)
                       && o.error.message == ErrorMessage(o.error.data, r.status)
  {
    var data := ResponseData(r.text, jsonParse);
    if ApiClient.IsOk(r.status) then Ok(data) else Err(HttpError(ErrorMessage(data, r.status), r.status, data))
  }

  /** A non-2xx response with an empty body throws `"HTTP <status>"` with null data. */
  lemma EmptyErrorBodyFallsBackToStatus(r: ApiClient.Response, jsonParse: string -> Option<Json>)
    requires !ApiClient.IsOk(r.status) && r.text == ""
    ensures HttpJsonResult(r, jsonParse) == Err(HttpError(Str("HTTP " + Decimal(r.status)), r.status, Null))
  {
  }

  /** The body `httpJson` sends: none at all for a falsy body. */
  function HttpJsonBody(body: Option<Json>, stringify: Json -> string): (r: Option<string>)
    ensures r.Some? <==> JsPresent(body)
    ensures r.Some? ==> r.value == stringify(body.value)
  {
    if JsPresent(body) then Some(stringify(body.value)) else None
  }

  /** Unlike `apiPost`, which sends `'{}'` for a falsy body, `httpJson` then sends no body. */
  lemma FalsyBodyHandledDifferently(c: Storage.Credentials, defaultBase: string, path: string, body: Option<Json>,
                                    parse: Url.Parser, stringify: Json -> string)
    requires !JsPresent(body)
    requires ApiClient.BuildHeaders(c).Some?
    ensures HttpJsonBody(body, stringify) == None
    ensures ApiClient.ApiRequest(c, defaultBase, path, body, parse, stringify).value.body == Some("{}")
  {
  }

  /** The headers of `httpJson`: `Content-Type: application/json`, overridden by the caller's. */
  function HttpJsonHeaders(headers: map<string, string>): (h: map<string, string>)
    ensures "Content-Type" in h
    ensures forall k :: k in headers ==> k in h && h[k] == headers[k]
    ensures "Content-Type" !in headers ==> h["Content-Type"] == "application/json"
    ensures h.Keys == headers.Keys + {"Content-Type"}
  {
    map["Content-Type" := "application/json"] + headers
  }

  /** The characters `encodeURIComponent` leaves as they are: the unreserved characters of section
    * 2.3 of RFC 3986 (letters, digits, `-._~`) and `!*'()`. */
  predicate IsUriUnescaped(c: char) {
    ('A' <= c <= 'Z') || ('a' <= c <= 'z') || ('0' <= c <= '9')
    || c == '-' || c == '_' || c == '.' || c == '~' || c == '!' || c == '*' || c == '\'' || c == '(' || c == ')'
  }

  function HexDigit(v: nat): (c: char)
    requires v < 16
    ensures IsUriUnescaped(c) && IsHexDigit(c) && HexValue(c) == v
  {
    if v < 10 then ('0' as int + v) as char else ('A' as int + (v - 10)) as char
  }

  predicate IsHexDigit(c: char) {
    ('0' <= c <= '9') || ('A' <= c <= 'F') || ('a' <= c <= 'f')
  }

  function HexValue(c: char): (v: nat)
    requires IsHexDigit(c)
    ensures v < 16
  {
    if '0' <= c <= '9' then c as int - '0' as int
    else if 'A' <= c <= 'F' then c as int - 'A' as int + 10
    else c as int - 'a' as int + 10
  }

  /** Percent-encoding of octets (section 2.1 of RFC 3986), with upper-case hexadecimal digits. */
  function PercentOctets(b: seq<byte>): (s: string)
    ensures |s| == 3 * |b|
    ensures forall i :: 0 <= i < |s| ==> IsUriUnescaped(s[i]) || s[i] == '%'
  {
    if b == [] then "" else ['%', HexDigit(b[0] / 16), HexDigit(b[0] % 16)] + PercentOctets(b[1..])
  }

  function EncodeUriChar(c: char): (s: string)
    ensures forall i :: 0 <= i < |s| ==> IsUriUnescaped(s[i]) || s[i] == '%'
    ensures IsUriUnescaped(c) <==> s == [c]
  {
    if IsUriUnescaped(c) then [c] else PercentOctets(Utf8.EncodeChar(c))
  }

  /** `encodeURIComponent`: unescaped characters as they are, every other character as its UTF-8
    * octets percent-encoded. The result holds no `&`, `=`, `#`, `?`, `/`, `+` or space. */
  function EncodeUriComponent(s: string): (r: string)
    ensures forall i :: 0 <= i < |r| ==> IsUriUnescaped(r[i]) || r[i] == '%'
    ensures (forall i :: 0 <= i < |s| ==> IsUriUnescaped(s[i])) ==> r == s
  {
    if s == [] then "" else EncodeUriChar(s[0]) + EncodeUriComponent(s[1..])
  }

  /** Percent-decoding of a query component into octets, as the server reads the `db` parameter:
    * `%XY` is one octet, an ASCII character stands for itself. None for a malformed escape. */
  function PercentDecode(t: string): (r: Option<seq<byte>>)
    decreases |t|
  {
    if t == [] then Some([])
    else if t[0] == '%' then
      if |t| >= 3 && IsHexDigit(t[1]) && IsHexDigit(t[2]) then
        match PercentDecode(t[3..])
        case None => None
        case Some(rest) => Some([HexValue(t[1]) * 16 + HexValue(t[2])] + rest)
      else None
    else if t[0] as int < 0x80 then
      match PercentDecode(t[1..])
      case None => None
      case Some(rest) => Some([t[0] as int] + rest)
    else None
  }

  lemma {:induction false} PercentOctetsDecode(o: seq<byte>, rest: string)
    ensures PercentDecode(PercentOctets(o) + rest) ==
              match PercentDecode(rest)
              case None => None
              case Some(tail) => Some(o + tail)
  {
    if o != [] {
      var d1, d2 := HexDigit(o[0] / 16), HexDigit(o[0] % 16);
      var t := PercentOctets(o) + rest;
      assert t == ['%', d1, d2] + (PercentOctets(o[1..]) + rest);
      assert t[0] == '%' && t[1] == d1 && t[2] == d2;
      assert t[3..] == PercentOctets(o[1..]) + rest;
      PercentOctetsDecode(o[1..], rest);
      assert HexValue(d1) * 16 + HexValue(d2) == o[0];
      match PercentDecode(rest)
      case None =>
      case Some(tail) =>
        assert [o[0]] + (o[1..] + tail) == o + tail;
    } else {
      assert PercentOctets(o) + rest == rest;
      match PercentDecode(rest)
      case None =>
      case Some(tail) =>
        assert o + tail == tail;
    }
  }

  /** Percent-decoding undoes `encodeURIComponent`, yielding the UTF-8 octets of the input. */
  lemma {:induction false} DecodeEncodeUriComponent(s: string)
    ensures PercentDecode(EncodeUriComponent(s)) == Some(Utf8.Encode(s))
  {
    if s != [] {
      var tail := EncodeUriComponent(s[1..]);
      DecodeEncodeUriComponent(s[1..]);
      if IsUriUnescaped(s[0]) {
        assert ([s[0]] + tail)[1..] == tail;
      } else {
        PercentOctetsDecode(Utf8.EncodeChar(s[0]), tail);
      }
    }
  }

  const CreateEmployeePath: string := "/odhr/api/employees/create"
  const DepartmentsPath: string := "/odhr/api/departments"

  /** The encoded database name is a single query value (it holds no `&` or `#`) that decodes back
    * to exactly the configured name, whatever characters it holds. */
  lemma DbParameterRoundTrip(db: string)
    ensures forall i :: 0 <= i < |EncodeUriComponent(db)| ==> EncodeUriComponent(db)[i] != '&' && EncodeUriComponent(db)[i] != '#'
    ensures PercentDecode(EncodeUriComponent(db)).Some?
    ensures Utf8.Decode(PercentDecode(EncodeUriComponent(db)).value) == Some(db)
  {
    var e := EncodeUriComponent(db);
    forall i | 0 <= i < |e|
      ensures e[i] != '&' && e[i] != '#'
    {
      assert IsUriUnescaped(e[i]) || e[i] == '%';
    }
    DecodeEncodeUriComponent(db);
    Utf8.DecodeEncode(db);
  }

  /** `url` is `prefix` followed by a single query value (no `&` or `#`) that percent-decodes to the
    * UTF-8 octets of `db`. */
  predicate CarriesDb(url: string, prefix: string, db: string) {
    && StartsWith(url, prefix)
    && (forall i :: |prefix| <= i < |url| ==> url[i] != '&' && url[i] != '#')
    && PercentDecode(url[|prefix|..]).Some?
    && Utf8.Decode(PercentDecode(url[|prefix|..]).value) == Some(db)
  }

  /** The URL of an endpoint called with an explicit configuration: the base URL as configured (not
    * normalised), the fixed path, and `?db=` with the database name as its only query value. */
  function EndpointUrl(cfg: OdooConfig, path: string): (url: string)
    ensures CarriesDb(url, cfg.baseUrl + path + "?db=", cfg.db)
  {
    var prefix := cfg.baseUrl + path + "?db=";
    var e := EncodeUriComponent(cfg.db);
    DbParameterRoundTrip(cfg.db);
    assert (prefix + e)[..|prefix|] == prefix && (prefix + e)[|prefix|..] == e;
    prefix + e
  }

  /** `createEmployee`'s URL. */
  function CreateEmployeeUrl(cfg: OdooConfig): (url: string)
    ensures CarriesDb(url, cfg.baseUrl + "/odhr/api/employees/create?db=", cfg.db)
  {
    assert cfg.baseUrl + CreateEmployeePath + "?db=" == cfg.baseUrl + "/odhr/api/employees/create?db=";
    EndpointUrl(cfg, CreateEmployeePath)
  }

  /** `listDepartments`'s URL. */
  function ListDepartmentsUrl(cfg: OdooConfig): (url: string)
    ensures CarriesDb(url, cfg.baseUrl + "/odhr/api/departments?db=", cfg.db)
  {
    assert cfg.baseUrl + DepartmentsPath + "?db=" == cfg.baseUrl + "/odhr/api/departments?db=";
    EndpointUrl(cfg, DepartmentsPath)
  }
}
