/**
 * `contexts/AuthContext.tsx`: the client's session. Bootstrapping reads the stored credentials,
 * derives the server configuration from the stored base URL, asks the server who the user is, and
 * ends authenticated or signed out; no error escapes it. Sign-in saves and bootstraps again,
 * sign-out clears the store.
 */
module AuthContext {
  import opened Wrappers
  import opened Text
  import opened JsonData
  import opened Url
  import Storage
  import Offline
  import ApiClient
  import OdooClient
  import Roles

  /** The who-am-i answer, reduced to what the session uses: the user's roles. */
  datatype Me = Me(roles: seq<Roles.Role>)

  datatype AuthState = AuthState(loading: bool, me: Option<Me>, cfg: Option<OdooClient.OdooConfig>)

  /** `{loading: false, me: null, cfg: null}`. */
  const SignedOut := AuthState(false, None, None)

  /** The characters a regular expression's `.` does not match. */
  predicate IsLineTerminator(c: char) {
    c == '\n' || c == '\r' || c == '\U{2028}' || c == '\U{2029}'
  }

  predicate NoLineTerminator(s: string) {
    forall i :: 0 <= i < |s| ==> !IsLineTerminator(s[i])
  }

  /** Whether `/\/?\?.*$/` matches starting at position `i`: an optional `/`, a `?`, and a rest
    * without line terminators up to the end. */
  predicate MatchesAt(s: string, i: nat)
    requires i < |s|
  {
    (s[i] == '/' && i + 1 < |s| && s[i + 1] == '?' && NoLineTerminator(s[i + 2..]))
    || (s[i] == '?' && NoLineTerminator(s[i + 1..]))
  }

  /** The leftmost position from `i` on where the pattern matches. */
  function FirstMatch(s: string, i: nat): (r: Option<nat>)
    requires i <= |s|
    ensures r.Some? ==> i <= r.value < |s| && MatchesAt(s, r.value)
    ensures forall j :: i <= j < |s| && (r.None? || j < r.value) ==> !MatchesAt(s, j)
    decreases |s| - i
  {
    if i == |s| then None
    else if MatchesAt(s, i) then Some(i)
    else FirstMatch(s, i + 1)
  }

  /** `url.replace(/\/?\?.*$/, '')`: everything from the leftmost match on is removed. */
  function DeriveBaseUrl(s: string): (r: string)
    ensures StartsWith(s, r)
  {
    match FirstMatch(s, 0)
    case None => s
    case Some(j) => s[..j]
  }

  /** On a URL without line terminators, the derived base URL is the URL cut at its first `?`,
    * together with one `/` directly before it; a URL without `?` is kept whole. */
  lemma DeriveBaseUrlCutsAtFirstQuery(s: string)
    requires NoLineTerminator(s)
    ensures IndexOf(s, '?', 0).None? ==> DeriveBaseUrl(s) == s
    ensures IndexOf(s, '?', 0).Some? ==>
              var q := IndexOf(s, '?', 0).value;
              DeriveBaseUrl(s) == if q > 0 && s[q - 1] == '/' then s[..q - 1] else s[..q]
    ensures forall i :: 0 <= i < |DeriveBaseUrl(s)| ==> DeriveBaseUrl(s)[i] != '?'
  {
    match IndexOf(s, '?', 0)
    case None =>
    case Some(q) =>
      FirstMatchAtQuery(s, q);
  }

  /** The leftmost match starts at the first `?`, or at the `/` directly before it. */
  lemma FirstMatchAtQuery(s: string, q: nat)
    requires NoLineTerminator(s)
    requires IndexOf(s, '?', 0) == Some(q)
    ensures FirstMatch(s, 0) == Some(if q > 0 && s[q - 1] == '/' then q - 1 else q)
  {
    var k := if q > 0 && s[q - 1] == '/' then q - 1 else q;
    assert NoLineTerminator(s[q + 1..]);
    assert MatchesAt(s, k);
    forall j | 0 <= j < k
      ensures !MatchesAt(s, j)
    {
      assert s[j] != '?';
      assert j + 1 < q ==> s[j + 1] != '?';
    }
    FirstMatchIsLeftmost(s, 0, k);
  }

  /** A position where the pattern matches, with no match before it, is the leftmost match. */
  lemma {:induction false} FirstMatchIsLeftmost(s: string, i: nat, k: nat)
    requires i <= k < |s| && MatchesAt(s, k)
    requires forall j :: i <= j < k ==> !MatchesAt(s, j)
    ensures FirstMatch(s, i) == Some(k)
    decreases k - i
  {
    if i < k {
      FirstMatchIsLeftmost(s, i + 1, k);
    }
  }

  /** `searchParams.get('db') || 'odhr'`: a missing or empty `db` parameter gives `'odhr'`. */
  function DbOf(u: UrlParts): (db: string)
    ensures db != ""
    ensures SearchParam(u.query, "db").Some? && SearchParam(u.query, "db").value != "" ==> db == SearchParam(u.query, "db").value
    ensures SearchParam(u.query, "db").None? || SearchParam(u.query, "db").value == "" ==> db == "odhr"
  {
    match SearchParam(u.query, "db")
    case Some(v) => if v != "" then v else "odhr"
    case None => "odhr"
  }

  /** The server's answer to who-am-i for a configuration; None when the call rejects. */
  type WhoAmI = OdooClient.OdooConfig -> Option<Me>

  /** The configuration bootstrapping builds from the stored credentials, or None when they lack a
    * login or API key or the base URL does not parse. */
  function ConfigOf(c: Storage.Credentials, defaultBase: string, parse: Parser): (cfg: Option<OdooClient.OdooConfig>)
    ensures cfg.Some? <==> JsTextPresent(c.login) && JsTextPresent(c.apiKey)
                           && parse(ApiClient.EffectiveBase(c.baseUrl, defaultBase)).Some?
    ensures cfg.Some? ==> cfg.value.login == c.login.value && cfg.value.apiKey == c.apiKey.value
    ensures cfg.Some? ==> cfg.value.baseUrl == DeriveBaseUrl(ApiClient.EffectiveBase(c.baseUrl, defaultBase))
    ensures cfg.Some? ==> cfg.value.db == DbOf(parse(ApiClient.EffectiveBase(c.baseUrl, defaultBase)).value)
  {
    if JsTextPresent(c.login) && JsTextPresent(c.apiKey) then
      var url := ApiClient.EffectiveBase(c.baseUrl, defaultBase);
      match parse(url)
      case None => None
      case Some(parts) => Some(OdooClient.OdooConfig(DeriveBaseUrl(url), DbOf(parts), c.login.value, c.apiKey.value))
    else None
  }

  /** The state bootstrapping ends in, given what the credential read produced (None when it threw). */
  function LoadOutcome(read: Option<Storage.Credentials>, defaultBase: string, parse: Parser, whoAmI: WhoAmI)
    : (st: AuthState)
    ensures !st.loading
    ensures st.me.Some? <==> st.cfg.Some?
    ensures st.me.Some? <==> read.Some? && ConfigOf(read.value, defaultBase, parse).Some?
                             && whoAmI(ConfigOf(read.value, defaultBase, parse).value).Some?
    ensures st.me.Some? ==> st.cfg == ConfigOf(read.value, defaultBase, parse) && st.me == whoAmI(st.cfg.value)
    ensures st.me.None? ==> st == SignedOut
  {
    match read
    case None => SignedOut
    case Some(c) =>
      match ConfigOf(c, defaultBase, parse)
      case None => SignedOut
      case Some(cfg) =>
        match whoAmI(cfg)
        case None => SignedOut
        case Some(me) => AuthState(false, Some(me), Some(cfg))
  }

  /** Once the store has been cleared, bootstrapping ends signed out, whatever the server says. */
  lemma ClearedStoreLoadsSignedOut(m: map<string, string>, readOk: bool, defaultBase: string, parse: Parser, whoAmI: WhoAmI)
    ensures LoadOutcome(if readOk then Some(Storage.Read(Storage.Erased(m, 3))) else None, defaultBase, parse, whoAmI)
            == SignedOut
  {
    Storage.ReadAfterClear(m);
  }

  /** `hasRole(...roles)`: whether the session's roles and the given ones have a role in common. */
  function HasRole(me: Option<Me>, roles: seq<Roles.Role>): (r: bool)
    ensures r <==> me.Some? && (set x | x in me.value.roles) * (set x | x in roles) != {}
  {
    if me.None? then false
    else if exists i :: 0 <= i < |me.value.roles| && me.value.roles[i] in roles then
      var i :| 0 <= i < |me.value.roles| && me.value.roles[i] in roles;
      assert me.value.roles[i] in (set x | x in me.value.roles) * (set x | x in roles);
      true
    else false
  }

  /** Asking for no role at all is always false. */
  lemma HasRoleNoRoles(me: Option<Me>)
    ensures !HasRole(me, [])
  {
  }

  /** Asking for more roles can only turn false into true. */
  lemma HasRoleMonotone(me: Option<Me>, roles: seq<Roles.Role>, more: seq<Roles.Role>)
    requires HasRole(me, roles)
    ensures HasRole(me, roles + more)
  {
    var x :| x in (set x | x in me.value.roles) * (set x | x in roles);
    assert x in roles + more;
  }

  class AuthProvider {
    var state: AuthState

    constructor ()
      ensures state == AuthState(true, None, None)
    {
      state := AuthState(true, None, None);
    }

    /** `load`: the bootstrapping state machine. A failed credential read, missing credentials, an
      * unparseable base URL and a rejected who-am-i all end signed out. After a successful who-am-i
      * the state is set first; notification setup and the replay of the offline queue follow, and
      * their failures are swallowed. */
    method Load(store: Storage.CredentialStore, queue: Offline.OfflineQueue, readOk: bool, defaultBase: string,
                parse: Parser, whoAmI: WhoAmI, outcomes: seq<bool>, queueReadOk: bool, queueWriteOk: bool)
      modifies this, queue
      ensures state == LoadOutcome(if readOk then Some(Storage.Read(store.entries)) else None, defaultBase, parse, whoAmI)
      ensures queue.slot == if state.me.Some? then Offline.AfterFlush(old(queue.slot), outcomes, queueReadOk, queueWriteOk)
                            else old(queue.slot)
    {
      state := state.(loading := true);
      var read, login, apiKey, baseUrl := store.GetCredentials(if readOk then 3 else 0);
      if !read {
        state := SignedOut;
        return;
      }
      assert Storage.Read(store.entries) == Storage.Credentials(login, apiKey, baseUrl);
      if JsTextPresent(login) && JsTextPresent(apiKey) {
        var url := ApiClient.EffectiveBase(baseUrl, defaultBase);
        var derived := DeriveBaseUrl(url);
        var parts := parse(url);
        if parts.None? {
          state := SignedOut;
          return;
        }
        var cfg := OdooClient.OdooConfig(derived, DbOf(parts.value), login.value, apiKey.value);
        var me := whoAmI(cfg);
        if me.None? {
          state := SignedOut;
          return;
        }
        state := AuthState(false, me, Some(cfg));
        var _ := queue.Flush(outcomes, queueReadOk, queueWriteOk);
        return;
      }
      state := SignedOut;
    }

    /** `signIn`: save the credentials (the base URL defaulting to the compiled one), then bootstrap.
      * The answer is true exactly when saving succeeded, even if bootstrapping then ends signed out;
      * a failed save leaves the session as it was. */
    method SignIn(login: string, apiKey: string, baseUrl: Option<string>, saveFailAt: nat,
                  store: Storage.CredentialStore, queue: Offline.OfflineQueue, readOk: bool, defaultBase: string,
                  parse: Parser, whoAmI: WhoAmI, outcomes: seq<bool>, queueReadOk: bool, queueWriteOk: bool)
      returns (ok: bool)
      modifies this, store, queue
      ensures ok <==> saveFailAt >= 3
      ensures var saved := if JsTextPresent(baseUrl) then baseUrl.value else defaultBase;
              store.entries == Storage.Written(old(store.entries), login, apiKey, saved, Storage.Min(saveFailAt, 3))
      ensures !ok ==> state == old(state) && queue.slot == old(queue.slot)
      ensures ok ==> queue.slot == if state.me.Some? then Offline.AfterFlush(old(queue.slot), outcomes, queueReadOk, queueWriteOk)
                                   else old(queue.slot)
      ensures ok ==> var saved := if JsTextPresent(baseUrl) then baseUrl.value else defaultBase;
                     state == LoadOutcome(if readOk then Some(Storage.Credentials(Some(login), Some(apiKey), saved)) else None,
                                          defaultBase, parse, whoAmI)
    {
      var saved := if JsTextPresent(baseUrl) then baseUrl.value else defaultBase;
      ok := store.SaveCredentials(login, apiKey, saved, saveFailAt);
      if !ok {
        return;
      }
      Storage.ReadAfterSave(old(store.entries), login, apiKey, saved);
      Load(store, queue, readOk, defaultBase, parse, whoAmI, outcomes, queueReadOk, queueWriteOk);
    }

    /** `signOut`: clear the store, then sign out. A failed clear rejects before the state changes. */
    method SignOut(store: Storage.CredentialStore, clearFailAt: nat) returns (ok: bool)
      modifies this, store
      ensures ok <==> clearFailAt >= 3
      ensures store.entries == Storage.Erased(old(store.entries), Storage.Min(clearFailAt, 3))
      ensures ok ==> state == SignedOut
      ensures !ok ==> state == old(state)
    {
      ok := store.ClearCredentials(clearFailAt);
      if ok {
        state := SignedOut;
      }
    }
  }
}
