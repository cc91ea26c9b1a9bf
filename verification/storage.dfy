/**
 * The credential store of the mobile client: login, API key and server base URL
 * kept under three fixed keys of the platform's secure keyed store, modelled as a
 * map from key to text. Each write or delete is one store call; `failAt` names
 * the call (0, 1 or 2) that throws, and any larger value means none does. Calls
 * before the failing one have taken effect; the error propagates to the caller.
 */
module Storage {
  import opened Wrappers

  const LoginKey: string := "odhr_login"
  const ApiKeyKey: string := "odhr_api_key"
  const BaseUrlKey: string := "odhr_base_url"

  /** What `getCredentials` returns: a missing login or API key is null, a missing base URL ''. */
  datatype Credentials = Credentials(login: Option<string>, apiKey: Option<string>, baseUrl: string)

  function Lookup(m: map<string, string>, key: string): Option<string> {
    if key in m then Some(m[key]) else None
  }

  /** The credentials a read of the store yields. */
  function Read(m: map<string, string>): Credentials {
    Credentials(Lookup(m, LoginKey), Lookup(m, ApiKeyKey), Lookup(m, BaseUrlKey).GetOr(""))
  }

  /** The store after the first `done` of the three writes of a save. */
  function Written(m: map<string, string>, login: string, apiKey: string, baseUrl: string, done: nat)
    : map<string, string>
  {
    var m1 := if done >= 1 then m[LoginKey := login] else m;
    var m2 := if done >= 2 then m1[ApiKeyKey := apiKey] else m1;
    if done >= 3 then m2[BaseUrlKey := baseUrl] else m2
  }

  /** The store after the first `done` of the three deletions of a clear. */
  function Erased(m: map<string, string>, done: nat): map<string, string> {
    var m1 := if done >= 1 then m - {LoginKey} else m;
    var m2 := if done >= 2 then m1 - {ApiKeyKey} else m1;
    if done >= 3 then m2 - {BaseUrlKey} else m2
  }

  function Min(a: nat, b: nat): nat { if a < b then a else b }

  /** The three keys are distinct, so the three writes of a save do not overwrite one another. */
  lemma KeysDistinct()
    ensures LoginKey != ApiKeyKey && ApiKeyKey != BaseUrlKey && LoginKey != BaseUrlKey
  {
  }

  /** Get after a completed save returns exactly the saved triple. */
  lemma ReadAfterSave(m: map<string, string>, login: string, apiKey: string, baseUrl: string)
    ensures Read(Written(m, login, apiKey, baseUrl, 3)) == Credentials(Some(login), Some(apiKey), baseUrl)
  {
    KeysDistinct();
  }

  /** A save changes only the three credential keys; every other entry stays as it was. */
  lemma SaveTouchesOnlyItsKeys(m: map<string, string>, login: string, apiKey: string, baseUrl: string,
                               done: nat, key: string)
    requires key != LoginKey && key != ApiKeyKey && key != BaseUrlKey
    ensures Lookup(Written(m, login, apiKey, baseUrl, done), key) == Lookup(m, key)
    ensures Lookup(Erased(m, done), key) == Lookup(m, key)
  {
  }

  /** Get after a completed clear yields (null, null, ''). */
  lemma ReadAfterClear(m: map<string, string>)
    ensures Read(Erased(m, 3)) == Credentials(None, None, "")
  {
  }

  /** A save after a clear reads back the new triple, whatever was stored before. */
  lemma SaveAfterClear(m: map<string, string>, login: string, apiKey: string, baseUrl: string)
    ensures Read(Written(Erased(m, 3), login, apiKey, baseUrl, 3)) == Credentials(Some(login), Some(apiKey), baseUrl)
  {
    ReadAfterSave(Erased(m, 3), login, apiKey, baseUrl);
  }

  class CredentialStore {
    var entries: map<string, string>

    constructor (initial: map<string, string>)
      ensures entries == initial
    {
      entries := initial;
    }

    /** `saveCredentials`: three writes in order; `ok` is false when one of them throws. */
    method SaveCredentials(login: string, apiKey: string, baseUrl: string, failAt: nat) returns (ok: bool)
      modifies this
      ensures ok <==> failAt >= 3
      ensures entries == Written(old(entries), login, apiKey, baseUrl, Min(failAt, 3))
    {
      if failAt == 0 {
        return false;
      }
      entries := entries[LoginKey := login];
      if failAt == 1 {
        return false;
      }
      entries := entries[ApiKeyKey := apiKey];
      if failAt == 2 {
        return false;
      }
      entries := entries[BaseUrlKey := baseUrl];
      ok := true;
    }

    /** `getCredentials`: three reads in order; absence is a value, never an error. `failAt` is the
      * index of the read that rejects (3 or more: none does), which rejects the whole call. */
    method GetCredentials(failAt: nat) returns (ok: bool, login: Option<string>, apiKey: Option<string>, baseUrl: string)
      ensures ok <==> failAt >= 3
      ensures ok ==> (login.Some? <==> LoginKey in entries)
      ensures ok && login.Some? ==> login.value == entries[LoginKey]
      ensures ok ==> (apiKey.Some? <==> ApiKeyKey in entries)
      ensures ok && apiKey.Some? ==> apiKey.value == entries[ApiKeyKey]
      ensures ok ==> baseUrl == if BaseUrlKey in entries then entries[BaseUrlKey] else ""
    {
      ok, login, apiKey, baseUrl := false, None, None, "";
      if failAt == 0 {
        return;
      }
      login := if LoginKey in entries then Some(entries[LoginKey]) else None;
      if failAt == 1 {
        return;
      }
      apiKey := if ApiKeyKey in entries then Some(entries[ApiKeyKey]) else None;
      if failAt == 2 {
        return;
      }
      baseUrl := if BaseUrlKey in entries then entries[BaseUrlKey] else "";
      ok := true;
    }

    /** `clearCredentials`: three deletions in order; `ok` is false when one of them throws. */
    method ClearCredentials(failAt: nat) returns (ok: bool)
      modifies this
      ensures ok <==> failAt >= 3
      ensures entries == Erased(old(entries), Min(failAt, 3))
    {
      if failAt == 0 {
        return false;
      }
      entries := entries - {LoginKey};
      if failAt == 1 {
        return false;
      }
      entries := entries - {ApiKeyKey};
      if failAt == 2 {
        return false;
      }
      entries := entries - {BaseUrlKey};
      ok := true;
    }
  }
}
