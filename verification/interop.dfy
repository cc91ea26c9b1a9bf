/**
 * How the server's Basic-credential parser reads the headers the two client helpers build.
 */
module BasicAuthInterop {
  import opened Wrappers
  import opened Text
  import Base64
  import Utf8
  import Storage
  import ApiClient
  import OdooClient
  import ServerAuth

  /** The server recovers the stored login and API key from `buildHeaders`'s header when the
    * credential is ASCII and the login has no colon. */
  lemma ApiHeaderParses(login: string, apiKey: string, baseUrl: string)
    requires login != "" && apiKey != ""
    requires IsAscii(login + ":" + apiKey)
    requires forall i :: 0 <= i < |login| ==> login[i] != ':'
    ensures var h := ApiClient.BuildHeaders(Storage.Credentials(Some(login), Some(apiKey), baseUrl));
            h.Some? && "Authorization" in h.value
            && ServerAuth.ParseBasicAuth(Some(h.value["Authorization"])) == Some((login, apiKey))
  {
    Utf8.AsciiLatin1IsUtf8(login + ":" + apiKey);
    ServerAuth.ParsesUtf8Credential(login, apiKey);
  }

  /** The `Buffer` branch of `basicAuth` encodes UTF-8, so the server recovers every credential whose
    * login has no colon, whatever its characters. */
  lemma BufferHeaderParses(login: string, apiKey: string)
    requires forall i :: 0 <= i < |login| ==> login[i] != ':'
    ensures ServerAuth.ParseBasicAuth(OdooClient.BasicAuth(login, apiKey, false)) == Some((login, apiKey))
  {
    ServerAuth.ParsesUtf8Credential(login, apiKey);
  }

  /** The `btoa` branch agrees with it on ASCII credentials. */
  lemma BtoaHeaderParses(login: string, apiKey: string)
    requires IsAscii(login + ":" + apiKey)
    requires forall i :: 0 <= i < |login| ==> login[i] != ':'
    ensures ServerAuth.ParseBasicAuth(OdooClient.BasicAuth(login, apiKey, true)) == Some((login, apiKey))
  {
    OdooClient.BasicAuthBranchesAgreeOnAscii(login, apiKey);
    BufferHeaderParses(login, apiKey);
  }

  /** A Latin-1 login outside ASCII is sent by `buildHeaders` as single octets, which are not UTF-8:
    * the server rejects the header, so such a user always gets 401. */
  lemma Latin1LoginRejected(apiKey: string, baseUrl: string)
    requires forall i :: 0 <= i < |apiKey| ==> apiKey[i] as int < 0x100
    requires apiKey != ""
    ensures var h := ApiClient.BuildHeaders(Storage.Credentials(Some("é"), Some(apiKey), baseUrl));
            h.Some? && "Authorization" in h.value && ServerAuth.ParseBasicAuth(Some(h.value["Authorization"])).None?
  {
    var s := "é" + ":" + apiKey;
    assert forall i :: 0 <= i < |s| ==> s[i] as int < 0x100;
    var octets := Utf8.Latin1(s).value;
    assert |octets| >= 3 && octets[0] == 0xE9 && octets[1] == 0x3A;
    ServerAuth.ParseEncodedOctets(octets);
    LeadWithoutContinuationRejected(octets);
  }

  /** `é` as a Latin-1 octet (0xE9) announces a three-octet UTF-8 sequence; a `:` cannot continue it. */
  lemma LeadWithoutContinuationRejected(b: seq<byte>)
    requires |b| >= 2 && b[0] == 0xE9 && b[1] == 0x3A
    ensures Utf8.Decode(b).None?
  {
    assert Utf8.DecodeFirst(b).None?;
  }

  /** A login holding a colon is split at that colon: the server sees a shorter login and a password
    * that starts with the rest of it. */
  lemma ColonInLoginMisread(login: string, rest: string, apiKey: string)
    requires forall i :: 0 <= i < |login| ==> login[i] != ':'
    ensures ServerAuth.ParseBasicAuth(OdooClient.BasicAuth(login + ":" + rest, apiKey, false))
            == Some((login, rest + ":" + apiKey))
  {
    assert (login + ":" + rest) + ":" + apiKey == login + ":" + (rest + ":" + apiKey);
    BufferHeaderParses(login, rest + ":" + apiKey);
  }
}
