/**
 * The request gate of the add-on's REST controller (`odhr_api/controllers/api.py`): parsing of
 * the HTTP Basic credential, the order of the 400 and 401 answers, and the roles reported for
 * the authenticated user.
 */
module ServerAuth {
  import opened Wrappers
  import opened Text
  import Base64
  import Utf8
  import Roles

  /** Python truthiness of an optional text (`None` and `''` are falsy). */
  predicate Present(s: Option<string>) {
    s.Some? && s.value != ""
  }

  /** ASCII lower-casing; no other character lower-cases to a letter of `basic`. */
  function AsciiLower(c: char): char {
    if 'A' <= c <= 'Z' then (c as int + 32) as char else c
  }

  /** `header.lower().startswith('basic ')`. */
  predicate HasBasicPrefix(h: string) {
    |h| >= 6 && forall i :: 0 <= i < 6 ==> AsciiLower(h[i]) == "basic "[i]
  }

  /** `_parse_basic_auth`: None stands for `(None, None)`. The token after the first space is
    * stripped, base64-decoded without validation, decoded as strict UTF-8 and split at its first
    * `:`; any failure on the way gives None. */
  function ParseBasicAuth(header: Option<string>): (r: Option<(string, string)>)
    ensures r.Some? ==> header.Some? && HasBasicPrefix(header.value)
    ensures r.Some? ==> forall i :: 0 <= i < |r.value.0| ==> r.value.0[i] != ':'
    ensures r.Some? ==> Base64.PyDecode(PyStrip(header.value[6..])).Some?
                        && Utf8.Decode(Base64.PyDecode(PyStrip(header.value[6..])).value) == Some(r.value.0 + ":" + r.value.1)
  {
    if header.None? || !HasBasicPrefix(header.value) then None
    else
      var token := PyStrip(header.value[6..]);
      match Base64.PyDecode(token)
      case None => None
      case Some(octets) =>
        match Utf8.Decode(octets)
        case None => None
        case Some(raw) => SplitAtColon(raw)
  }

  /** `raw.split(':', 1)` unpacked into two names: None when there is no colon. */
  function SplitAtColon(raw: string): (r: Option<(string, string)>)
    ensures r.Some? <==> exists i :: 0 <= i < |raw| && raw[i] == ':'
    ensures r.Some? ==> r.value.0 + ":" + r.value.1 == raw
    ensures r.Some? ==> forall i :: 0 <= i < |r.value.0| ==> r.value.0[i] != ':'
  {
    match IndexOf(raw, ':', 0)
    case None => None
    case Some(k) =>
      assert raw == raw[..k] + ":" + raw[k + 1..];
      Some((raw[..k], raw[k + 1..]))
  }

  /** Splitting `l:k` at its first colon gives back `l` and `k` when `l` has no colon. */
  lemma IndexOfJoined(l: string, k: string)
    requires forall i :: 0 <= i < |l| ==> l[i] != ':'
    ensures IndexOf(l + ":" + k, ':', 0) == Some(|l|)
    ensures (l + ":" + k)[..|l|] == l && (l + ":" + k)[|l| + 1..] == k
  {
    var s := l + ":" + k;
    assert s[|l|] == ':';
    var r := IndexOf(s, ':', 0);
    assert forall j :: 0 <= j < |l| ==> s[j] == l[j];
  }

  /** A header built as `"Basic " + base64(octets)` is read back as those octets: the token has no
    * space to strip and decodes exactly. */
  lemma ParseEncodedOctets(octets: seq<byte>)
    ensures ParseBasicAuth(Some("Basic " + Base64.Encode(octets))) ==
              match Utf8.Decode(octets)
              case None => None
              case Some(raw) => SplitAtColon(raw)
  {
    var e := Base64.Encode(octets);
    var h := "Basic " + e;
    assert HasBasicPrefix(h);
    assert h[6..] == e;
    assert forall i :: 0 <= i < |e| ==> !IsPySpace(e[i]);
    assert PyStrip(e) == e;
    Base64.DecodeEncode(octets);
  }

  /** Parsing inverts the Basic encoding of the UTF-8 octets of `l:k`, for every login without a
    * colon: the password may hold colons. */
  lemma ParsesUtf8Credential(l: string, k: string)
    requires forall i :: 0 <= i < |l| ==> l[i] != ':'
    ensures ParseBasicAuth(Some("Basic " + Base64.Encode(Utf8.Encode(l + ":" + k)))) == Some((l, k))
  {
    ParseEncodedOctets(Utf8.Encode(l + ":" + k));
    Utf8.DecodeEncode(l + ":" + k);
    IndexOfJoined(l, k);
    assert SplitAtColon(l + ":" + k) == Some((l, k));
  }

  /** The status and message of an `_error` answer. */
  datatype ErrorReply = ErrorReply(status: nat, message: string)

  /** `session.authenticate(db, login, password)`: the user id, or None when it raises. */
  type Authenticator = (string, string, string) -> Option<nat>

  /** `request.params.get('db') or request.httprequest.args.get('db')`. */
  function DbOf(dbParam: Option<string>, dbArg: Option<string>): Option<string> {
    if Present(dbParam) then dbParam else dbArg
  }

  /** `_authenticate_from_request`: a missing database answers 400 before the header is looked at;
    * a missing, malformed or empty credential answers 401 before authentication is tried; a failed
    * or falsy authentication answers 401 too. */
  function AuthenticateFromRequest(dbParam: Option<string>, dbArg: Option<string>, header: Option<string>,
                                   authenticate: Authenticator): (r: Result<nat, ErrorReply>)
    ensures r == Err(ErrorReply(400, "Missing db parameter")) <==> !Present(dbParam) && !Present(dbArg)
    ensures r.Err? ==> r.error.status == 400 || r.error.status == 401
    ensures (r.Err? && r.error.status == 401 && ParseBasicAuth(header).Some?
             && ParseBasicAuth(header).value.0 != "" && ParseBasicAuth(header).value.1 != "") ==> r.error.message == "Unauthorized"
    ensures r.Ok? <==> Present(DbOf(dbParam, dbArg)) && ParseBasicAuth(header).Some?
                       && ParseBasicAuth(header).value.0 != "" && ParseBasicAuth(header).value.1 != ""
                       && authenticate(DbOf(dbParam, dbArg).value, ParseBasicAuth(header).value.0, ParseBasicAuth(header).value.1).Some?
                       && authenticate(DbOf(dbParam, dbArg).value, ParseBasicAuth(header).value.0, ParseBasicAuth(header).value.1).value != 0
    ensures r.Ok? ==> Some(r.value) == authenticate(DbOf(dbParam, dbArg).value, ParseBasicAuth(header).value.0, ParseBasicAuth(header).value.1)
  {
    var db := DbOf(dbParam, dbArg);
    if !Present(db) then Err(ErrorReply(400, "Missing db parameter"))
    else match ParseBasicAuth(header)
      case None => Err(ErrorReply(401, "Missing or invalid Authorization header"))
      case Some((login, pwd)) =>
        if login == "" || pwd == "" then Err(ErrorReply(401, "Missing or invalid Authorization header"))
        else match authenticate(db.value, login, pwd)
          case None => Err(ErrorReply(401, "Unauthorized"))
          case Some(uid) => if uid == 0 then Err(ErrorReply(401, "Unauthorized")) else Ok(uid)
  }

  /** The position at which `auth_me` appends a role: admin, then manager, then hr, then employee. */
  function ReportOrder(r: Roles.Role): nat {
    match r
    case Admin => 0
    case Manager => 1
    case Hr => 2
    case Employee => 3
  }

  /** `auth_me`'s roles. The three group checks are made in order (the third only for a user who is
    * not an HR manager); `raisesAt` is the index of the check that raises, if any, which ends the
    * checks with the roles found so far. */
  method AuthMeRoles(isSystem: bool, isHrManager: bool, isHrUser: bool, raisesAt: nat) returns (roles: seq<Roles.Role>)
    ensures |roles| >= 1
    ensures Roles.Admin in roles <==> isSystem && raisesAt > 0
    ensures Roles.Manager in roles <==> isHrManager && raisesAt > 1
    ensures Roles.Hr in roles <==> raisesAt > 1 && (isHrManager || (isHrUser && raisesAt > 2))
    ensures Roles.Employee in roles <==> roles == [Roles.Employee]
    ensures forall i, j :: 0 <= i < j < |roles| ==> ReportOrder(roles[i]) < ReportOrder(roles[j])
  {
    roles := [];
    if raisesAt > 0 {
      if isSystem {
        roles := roles + [Roles.Admin];
      }
      if raisesAt > 1 {
        if isHrManager {
          roles := roles + [Roles.Manager];
          roles := roles + [Roles.Hr];
        } else if raisesAt > 2 {
          if isHrUser {
            roles := roles + [Roles.Hr];
          }
        }
      }
    }
    if roles == [] {
      roles := roles + [Roles.Employee];
    }
  }
}
