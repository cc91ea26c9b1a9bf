# odhr in Dafny

A Dafny model of the sequential rules of odhr, an HR system. It has a React Native client and two Odoo add-ons (`odhr_api` and `odhr_hr`). The model covers these parts:

- **Offline attendance queue** (`Offline`). A persisted first-in first-out list of check-in and check-out actions.
  - Flushing it replays every entry in stored order.
  - Only the entries whose replay failed are written back, in their original order.
  - When a direct check-in or check-out call from the attendance screen fails, the action is queued instead.
- **Credential store** (`Storage`). Login, API key and base URL are kept under three fixed keys of a keyed store. Save, get and clear each make their three store calls in order, and any call can reject, ending the operation there.
- **Client request construction** (`ApiClient`, `OdooClient`).
  - The request URL and headers, with an HTTP Basic credential (section 2 of RFC 7617) encoded with base64 (section 4 of RFC 4648).
  - The decision that turns a status and a body text into a value or an error.
  - The endpoint URLs that carry the database name through `encodeURIComponent`.
- **Session state machine** (`AuthContext`).
  - Bootstrapping derives the server configuration from the stored URL and asks the server who the user is.
  - It ends either authenticated or signed out, and no error escapes it.
  - Sign-in, sign-out and the role query.
- **Request gate of the REST add-on** (`ServerAuth`).
  - Parsing of the Basic header.
  - The order of the 400 and 401 answers.
  - The roles reported for a user.
- **Client and server together** (`BasicAuthInterop`). How the server reads the headers each client helper builds.
- **Business rules of the REST add-on** (`ServerApi`).
  - The request body and Python's `int()` on it.
  - Paging defaults.
  - The profile-update whitelist.
  - The one-open-attendance rule, kept by a class over the attendance table.
  - Leave-application validation.
  - The 403/404/400 gates of leave approval and refusal, and of payslips.
- **Employee routes of the HR add-on** (`HrApi`).
  - Parameters and the search domain.
  - The expansion of many-to-one fields, as a loop over an array of records.
  - The list and detail replies.
- **Compliance documents** (`Compliance`).
  - The `is_expired` flag, as computed for a given day.
  - The daily job that puts one to-do activity on each due document, without duplicates.
- **Onboarding and offboarding checklists** (`Checklists`).
  - The state defaults.
  - The three state actions.
  - Progress by finished tasks.

Supporting modules:

- **`Base64` and `Utf8`.** The octet-level encodings on the wire:
  - RFC 4648 encoding, and Python's non-validating `b64decode`.
  - UTF-8 as in RFC 3629, and the Latin-1 octets that `btoa` takes.
- **`Text`.** Python's `str.strip` and JavaScript's `slice`.
- **`JsonData`.** JSON values, with JavaScript and Python truthiness.
- **`Url`.** The URL parser seen as an abstract function.
- **`Roles`.** The role names.

I/O is modelled as follows:

- The keyed stores are fields of classes.
- The ORM's answers, the outcome of each network call, store failures, and the current date and time are parameters.

## Model

| member | source | states |
|---|---|---|
| Offline.Loaded | mobile/odhr_mobile/src/services/offline.ts:16-27 | a successful read of a stored queue yields exactly that queue, and a non-empty result is always such a queue; a failed read, nothing stored or unparseable text all read as the empty queue |
| Offline.ReadAfterWrite | mobile/odhr_mobile/src/services/offline.ts:16-38 | a completed `setQueue` reads back through `getQueue` as the written queue; a failed write reads back as what was readable before |
| Offline.ReplayOf | mobile/odhr_mobile/src/services/offline.ts:52-56 | an entry is replayed as a check-in exactly when its kind is `checkin`, otherwise as a check-out, with its payload unchanged |
| Offline.ReplaysOf | mobile/odhr_mobile/src/services/offline.ts:50-60 | a flush makes one call per entry, the i-th call being the replay of the i-th stored entry |
| Offline.FailedPositionsShape | mobile/odhr_mobile/src/services/offline.ts:49-61 | the positions kept after a flush lie within the queue and are strictly increasing, so order is preserved |
| Offline.FailedPositionsMembers | mobile/odhr_mobile/src/services/offline.ts:57-59 | a position is kept if and only if its replay failed |
| Offline.FailedIsFailedSubsequence | mobile/odhr_mobile/src/services/offline.ts:49-61 | the queue written back is the subsequence of the stored queue at the failed positions: each failed entry once, in its original relative order |
| Offline.AllSucceededLeavesNothing | mobile/odhr_mobile/src/services/offline.ts:49-61 | when every replay succeeds, the queue written back is empty |
| Offline.NoneSucceededKeepsAll | mobile/odhr_mobile/src/services/offline.ts:49-61 | when no replay succeeds (still offline), the whole queue is written back unchanged |
| Offline.MiddleFailureLeavesIt | mobile/odhr_mobile/src/services/offline.ts:50-61 | of three entries where only the middle one fails, exactly that one remains |
| Offline.OfflineQueue.GetQueue | mobile/odhr_mobile/src/services/offline.ts:16-27 | reading never fails: a successful read of a stored queue yields that queue, and [] comes from a failed read, a missing entry or unparseable text |
| Offline.OfflineQueue.SetQueue | mobile/odhr_mobile/src/services/offline.ts:29-38 | a successful write stores the queue; a failed write is swallowed and leaves the stored value as it was |
| Offline.OfflineQueue.Enqueue | mobile/odhr_mobile/src/services/offline.ts:40-44 | the stored queue becomes the loaded queue with exactly the new action appended at the end; a failed write changes nothing |
| Offline.OfflineQueue.Flush | mobile/odhr_mobile/src/services/offline.ts:46-62 | replays the loaded queue in order; an empty queue is neither replayed nor written; otherwise the failed entries, in order, are written back |
| Offline.OfflineQueue.DoCheck | mobile/odhr_mobile/src/screens/AttendanceListScreen.tsx:38-53 | without a session nothing happens; otherwise the direct call is made, and when it fails the offline action is appended to the queue |
| Offline.DirectCall | mobile/odhr_mobile/src/screens/AttendanceListScreen.tsx:43-45 | the `in` button calls check-in and `out` calls check-out, carrying the position's coordinates (absent without a position) and no manual flag or reason |
| Offline.QueuedAfterFailure | mobile/odhr_mobile/src/screens/AttendanceListScreen.tsx:50 | `in` is queued as `checkin` and `out` as `checkout`, with payload `{manual: true, reason: 'offline'}`, no position, and the given timestamp |
| Storage.KeysDistinct | mobile/odhr_mobile/src/services/storage.ts:3-7 | the three storage keys are pairwise distinct |
| Storage.ReadAfterSave | mobile/odhr_mobile/src/services/storage.ts:9-20 | a get after a completed save returns exactly the saved triple |
| Storage.SaveTouchesOnlyItsKeys | mobile/odhr_mobile/src/services/storage.ts:9-26 | saves and clears, complete or partial, leave every other key of the store as it was |
| Storage.ReadAfterClear | mobile/odhr_mobile/src/services/storage.ts:22-26 | a get after a completed clear yields (null, null, '') |
| Storage.SaveAfterClear | mobile/odhr_mobile/src/services/storage.ts:9-26 | a save after a clear reads back the new triple, whatever was stored before |
| Storage.CredentialStore.SaveCredentials | mobile/odhr_mobile/src/services/storage.ts:9-13 | the three writes happen in order; success if and only if none fails; the writes before a failing one have taken effect |
| Storage.CredentialStore.GetCredentials | mobile/odhr_mobile/src/services/storage.ts:15-20 | the call rejects exactly when one of its three reads rejects; otherwise a missing login or API key reads as null, a present one as its stored text, and a missing base URL as '' |
| Storage.CredentialStore.ClearCredentials | mobile/odhr_mobile/src/services/storage.ts:22-26 | the three deletions happen in order; success if and only if none fails |
| ApiClient.NormalizePath | mobile/odhr_mobile/src/services/api.ts:20 | the path starts with `/`; it is left unchanged if and only if it already did, else `/` is put in front |
| ApiClient.NormalizePathIdempotent | mobile/odhr_mobile/src/services/api.ts:20 | normalising twice is normalising once |
| ApiClient.StripTrailingSlash | mobile/odhr_mobile/src/services/api.ts:29 | the base is unchanged exactly when it does not end in `/`; otherwise exactly one `/` is removed |
| ApiClient.StripsAtMostOneSlash | mobile/odhr_mobile/src/services/api.ts:29 | a base ending in `//` keeps one slash |
| ApiClient.BuildRequestUrl | mobile/odhr_mobile/src/services/api.ts:17-32 | a base that does not parse, or whose origin does not parse, gives the base without one trailing slash followed by the normalised path; otherwise the URL ends with the base's query string |
| ApiClient.OpaqueOriginFallsBack | mobile/odhr_mobile/src/services/api.ts:21-30 | `foo:bar`, whose origin `null` does not parse, falls back to concatenation: `foo:bar/me` |
| ApiClient.BuildRequestUrlKeepsQuery | mobile/odhr_mobile/src/services/api.ts:21-26 | a base that parses and whose origin reparses to itself with no query (as an http or https origin does) gives its origin, the normalised path and exactly the base's query string; the base's own path is dropped |
| ApiClient.BuildHeaders | mobile/odhr_mobile/src/services/api.ts:5-15 | Content-Type is always `application/json`. Authorization is present if and only if login and API key are both non-empty, and is then `Basic ` + base64 of the Latin-1 octets of `login:apiKey`. A non-Latin-1 credential makes the encoder throw |
| ApiClient.AuthorizationIsBasicToken | mobile/odhr_mobile/src/services/api.ts:11-12 | the Authorization value is the `Basic ` scheme followed by base64 alphabet and padding characters only |
| ApiClient.EffectiveBase | mobile/odhr_mobile/src/services/api.ts:35-36 | an empty stored base URL falls back to the compiled default |
| ApiClient.ApiRequest | mobile/odhr_mobile/src/services/api.ts:35-42 | a POST to the built URL with the built headers; a falsy body is sent as `'{}'`, any other as its JSON text; nothing is sent when the headers throw |
| ApiClient.ApiResponse | mobile/odhr_mobile/src/services/api.ts:43-51 | the parsed body is returned if and only if the status is 2xx and the text is JSON. A non-2xx status throws `HTTP <status> <statusText>: ` with the body's first 300 characters. Invalid JSON throws with the URL and the body's first 200 characters |
| ApiClient.ErrorMessagesQuoteBoundedBody | mobile/odhr_mobile/src/services/api.ts:45-50 | the status message ends with exactly the first min(300, length) characters of the body, the invalid-JSON message with the first min(200, length) |
| ApiClient.ApiPost | mobile/odhr_mobile/src/services/api.ts:34-52 | a rejected credential read makes it throw; when the request is built and answered, the outcome is ApiResponse of that answer (the parsed 2xx JSON body, or its two exact error messages); when the headers throw or the fetch rejects, it throws; a returned value is always the JSON parse of a 2xx answer to the one request built from the stored credentials |
| OdooClient.BasicAuth | mobile/odhr_mobile/src/api/odoo.ts:11-18 | both branches start with `Basic `. Without `btoa` the value is base64 of the UTF-8 octets of `login:apiKey`. With `btoa` it succeeds if and only if every character is at most U+00FF |
| OdooClient.BasicAuthBranchesAgreeOnAscii | mobile/odhr_mobile/src/api/odoo.ts:11-18 | on an ASCII credential both branches produce the same header |
| OdooClient.BasicAuthBranchesDifferOnLatin1 | mobile/odhr_mobile/src/api/odoo.ts:13-17 | on `é` the two branches produce different headers (one octet versus two) |
| OdooClient.BasicAuthMatchesBuildHeaders | mobile/odhr_mobile/src/api/odoo.ts:13 | the `btoa` branch yields the same Authorization value as the stored-credential header builder |
| OdooClient.ResponseData | mobile/odhr_mobile/src/api/odoo.ts:30-36 | an empty text gives null; JSON text gives its value; any other text gives the raw text |
| OdooClient.ErrorMessage | mobile/odhr_mobile/src/api/odoo.ts:38 | the message is a truthy `data.message`, else a truthy `data.error`, else `HTTP <status>`; non-object data always gives `HTTP <status>` |
| OdooClient.HttpJsonResult | mobile/odhr_mobile/src/api/odoo.ts:37-43 | it returns if and only if the status is 2xx, and then returns the data unchanged; otherwise the error carries the status, the data and the fallback message |
| OdooClient.EmptyErrorBodyFallsBackToStatus | mobile/odhr_mobile/src/api/odoo.ts:33-38 | a non-2xx answer with an empty body throws `HTTP <status>` with null data |
| OdooClient.HttpJsonBody | mobile/odhr_mobile/src/api/odoo.ts:27 | a body is sent if and only if the given body is truthy, as its JSON text |
| OdooClient.FalsyBodyHandledDifferently | mobile/odhr_mobile/src/api/odoo.ts:27 | for a falsy body this helper sends nothing, while the REST helper sends `'{}'` |
| OdooClient.HttpJsonHeaders | mobile/odhr_mobile/src/api/odoo.ts:23-26 | Content-Type defaults to `application/json`; every header of the caller's is kept and overrides it |
| OdooClient.EncodeUriComponent | mobile/odhr_mobile/src/api/odoo.ts:56 | the result consists of unreserved characters, `!*'()` and `%` only; a string of unescaped characters is unchanged |
| OdooClient.DecodeEncodeUriComponent | mobile/odhr_mobile/src/api/odoo.ts:56 | percent-decoding the encoding yields exactly the UTF-8 octets of the input |
| OdooClient.DbParameterRoundTrip | mobile/odhr_mobile/src/api/odoo.ts:56 | the encoded database name holds no `&` or `#`, and decodes (percent-decoding, then UTF-8) back to exactly the name |
| OdooClient.EndpointUrl | mobile/odhr_mobile/src/api/odoo.ts:56 | the URL is the unnormalised base URL, the path and `?db=`, followed by one query value (no `&` or `#`) that decodes back to exactly the database name |
| OdooClient.CreateEmployeeUrl | mobile/odhr_mobile/src/api/odoo.ts:56 | `<base>/odhr/api/employees/create?db=` followed by a single query value that decodes to the database name |
| OdooClient.ListDepartmentsUrl | mobile/odhr_mobile/src/api/odoo.ts:61 | `<base>/odhr/api/departments?db=` followed by a single query value that decodes to the database name |
| AuthContext.FirstMatch | mobile/odhr_mobile/src/contexts/AuthContext.tsx:36 | the position found is where `/\/?\?.*$/` matches, and it matches at no earlier position |
| AuthContext.DeriveBaseUrl | mobile/odhr_mobile/src/contexts/AuthContext.tsx:36 | the derived base URL is a prefix of the stored URL |
| AuthContext.DeriveBaseUrlCutsAtFirstQuery | mobile/odhr_mobile/src/contexts/AuthContext.tsx:36 | the URL is cut at its first `?`, together with one `/` directly before it; a URL without `?` is kept whole; the result holds no `?` |
| AuthContext.DbOf | mobile/odhr_mobile/src/contexts/AuthContext.tsx:37 | the database is the first non-empty `db` query value, else `odhr`; it is never empty |
| AuthContext.ConfigOf | mobile/odhr_mobile/src/contexts/AuthContext.tsx:32-38 | a configuration exists if and only if login and API key are non-empty and the URL parses; it carries them, the derived base URL and the database |
| AuthContext.LoadOutcome | mobile/odhr_mobile/src/contexts/AuthContext.tsx:28-56 | loading ends false. A session and a configuration exist together, exactly when the read succeeds, the configuration exists and who-am-i succeeds. Every other path ends in `{loading: false, me: null, cfg: null}` |
| AuthContext.ClearedStoreLoadsSignedOut | mobile/odhr_mobile/src/contexts/AuthContext.tsx:31-51 | after a completed clear, bootstrapping ends signed out whatever the server answers |
| AuthContext.HasRole | mobile/odhr_mobile/src/contexts/AuthContext.tsx:82-85 | true if and only if there is a session and its roles intersect the given roles |
| AuthContext.HasRoleNoRoles | mobile/odhr_mobile/src/contexts/AuthContext.tsx:84 | with no roles given the answer is false |
| AuthContext.HasRoleMonotone | mobile/odhr_mobile/src/contexts/AuthContext.tsx:84 | giving more roles never turns true into false |
| AuthContext.AuthProvider.constructor | mobile/odhr_mobile/src/contexts/AuthContext.tsx:26 | the session starts loading, with no user and no configuration |
| AuthContext.AuthProvider.Load | mobile/odhr_mobile/src/contexts/AuthContext.tsx:28-56 | the state ends as LoadOutcome of the read. The offline queue is flushed only after a successful who-am-i; otherwise it is left as it was, and flush failures do not change the state |
| AuthContext.AuthProvider.SignIn | mobile/odhr_mobile/src/contexts/AuthContext.tsx:62-71 | the answer is true if and only if the save succeeds, even when bootstrapping then ends signed out. The base URL saved defaults to the compiled one. A failed save leaves the session and the offline queue as they were; after a successful save the offline queue is flushed exactly when bootstrapping authenticates |
| AuthContext.AuthProvider.SignOut | mobile/odhr_mobile/src/contexts/AuthContext.tsx:73-76 | a completed clear ends signed out; a failing clear rejects before the state changes |
| Url.SearchParam | mobile/odhr_mobile/src/contexts/AuthContext.tsx:37 | the value of the first pair with the name, present if and only if some pair has the name |
| ServerAuth.ParseBasicAuth | addons/odhr_api/controllers/api.py:21-30 | a result needs a header starting with `basic ` case-insensitively. The login holds no `:`. The stripped token base64-decodes to UTF-8 text equal to `login:password` |
| ServerAuth.SplitAtColon | addons/odhr_api/controllers/api.py:27 | it succeeds if and only if there is a colon; the login has no colon, and joining the parts with `:` gives back the text |
| ServerAuth.ParseEncodedOctets | addons/odhr_api/controllers/api.py:25-27 | a header `Basic ` + base64(octets) parses to the colon split of the octets' UTF-8 text, and to nothing when they are not UTF-8 |
| ServerAuth.ParsesUtf8Credential | addons/odhr_api/controllers/api.py:25-28 | parsing inverts the Basic encoding of the UTF-8 octets of `l:k` when `l` has no colon; `k` may hold colons |
| ServerAuth.AuthenticateFromRequest | addons/odhr_api/controllers/api.py:33-48 | 400 if and only if no database is given, before the header is read. Every other error is 401. Success exactly when the credential parses with a non-empty login and password and authentication returns a non-zero user, and that user is returned |
| ServerAuth.AuthMeRoles | addons/odhr_api/controllers/api.py:57-70 | admin if and only if in the system group; manager if and only if HR manager; hr for HR managers and, otherwise, HR users; `employee` exactly when nothing else applies, so the list is never empty; no duplicates; roles are listed in the order admin, manager, hr, employee, so without duplicates; a raising check keeps the roles found so far |
| Roles.Name | addons/odhr_api/controllers/api.py:61-70 | every role has a non-empty wire name |
| Roles.NameInjective | addons/odhr_api/controllers/api.py:61-70 | distinct roles have distinct names |
| BasicAuthInterop.ApiHeaderParses | mobile/odhr_mobile/src/services/api.ts:11-12 | the server recovers the stored ASCII login and API key from the REST helper's header when the login has no colon |
| BasicAuthInterop.BufferHeaderParses | mobile/odhr_mobile/src/api/odoo.ts:16-17 | the server recovers every credential from the UTF-8 branch's header when the login has no colon |
| BasicAuthInterop.BtoaHeaderParses | mobile/odhr_mobile/src/api/odoo.ts:13 | the server recovers ASCII credentials from the `btoa` branch's header |
| BasicAuthInterop.Latin1LoginRejected | addons/odhr_api/controllers/api.py:26 | a login `é` is sent as a single Latin-1 octet, which is not UTF-8, so the server rejects the header |
| BasicAuthInterop.LeadWithoutContinuationRejected | addons/odhr_api/controllers/api.py:26 | octet 0xE9 followed by `:` is not UTF-8 |
| BasicAuthInterop.ColonInLoginMisread | addons/odhr_api/controllers/api.py:27 | a login holding a colon is split there: the server sees the part before it, and a password starting with the rest |
| Base64.CharOfValueOf | addons/odhr_api/controllers/api.py:26 | the alphabet's character-to-value map is inverted by its value-to-character map |
| Base64.Encode | mobile/odhr_mobile/src/services/api.ts:11 | four characters per started group of three octets, all alphabet or padding characters, ASCII |
| Base64.ScanEncode | addons/odhr_api/controllers/api.py:26 | decoding an encoding appends exactly the encoded octets to what was decoded before |
| Base64.DecodeEncode | addons/odhr_api/controllers/api.py:26 | Python's `b64decode` recovers exactly the octets that were encoded |
| Utf8.Encode | mobile/odhr_mobile/src/api/odoo.ts:16 | every character takes at least one octet |
| Utf8.DecodeFirst | addons/odhr_api/controllers/api.py:26 | a decoded character takes between one and four octets of the input |
| Utf8.Latin1 | mobile/odhr_mobile/src/services/api.ts:11 | it succeeds if and only if every character is at most U+00FF, giving one octet per character equal to its code |
| Utf8.DecodeEncode | addons/odhr_api/controllers/api.py:26 | strict UTF-8 decoding recovers every string from its UTF-8 octets |
| Utf8.AsciiLatin1IsUtf8 | mobile/odhr_mobile/src/api/odoo.ts:13-16 | on ASCII text the Latin-1 and UTF-8 octets coincide |
| Text.Take | mobile/odhr_mobile/src/services/api.ts:45 | `slice(0, n)` is a prefix of length min(n, length) |
| Text.Decimal | mobile/odhr_mobile/src/services/api.ts:45 | the decimal rendering of a status is non-empty and all digits |
| Text.PyStrip | addons/odhr_api/controllers/api.py:25 | text without white space is left unchanged |
| Text.PyStripTrims | addons/odhr_api/controllers/api.py:25 | the result is a slice of the input with no white space at either end, and only white space was cut off |
| Text.IndexOf | addons/odhr_api/controllers/api.py:27 | the position found holds the character, and no earlier position does |
| JsonData.PyOr | addons/odhr_api/controllers/api.py:330-332 | `a or b` is one of its operands, and is truthy if and only if either is |
| ServerApi.RequestPayload | addons/odhr_api/controllers/api.py:137-140 | a body that is empty or not UTF-8 gives `{}`; a non-empty UTF-8 body gives the JSON value of its text, or `{}` when the text is not JSON |
| ServerApi.ParseSigned | addons/odhr_api/controllers/api.py:183 | accepted exactly when the text is a numeral (digits with single underscores) with at most one leading `+` or `-`, anything else being the exception `int()` raises; a numeral and `+` numeral read as its value, `-` numeral as its negation |
| ServerApi.ParseIntTextDecimal | addons/odhr_api/controllers/api.py:183 | `int()` reads back the decimal rendering of every natural number |
| ServerApi.NegatedText | addons/odhr_api/controllers/api.py:183 | a leading minus sign negates a numeral's value |
| ServerApi.PyInt | addons/odhr_api/controllers/api.py:183 | null, lists and dicts raise; booleans are 0 or 1; numbers are truncated toward zero; text is parsed |
| ServerApi.PageParam | addons/odhr_api/controllers/api.py:183-184 | a non-dict payload raises; a missing or falsy value gives the default; otherwise the value's `int()`, raising where `int()` raises |
| ServerApi.ZeroLimitMeansDefault | addons/odhr_api/controllers/api.py:368-369 | a limit of 0, null or absent gives the route's default |
| ServerApi.MeUpdateFields | addons/odhr_api/controllers/api.py:141-151 | 404 without a linked employee. The written keys are exactly the payload's whitelisted keys, with department and work location only for HR users, and their values unchanged. Nothing is written exactly when no such key remains |
| ServerApi.FirstOpen | addons/odhr_api/controllers/api.py:242 | the record found is an open record of the employee; none is found only when the employee has no open record |
| ServerApi.CheckInLeavesOneOpen | addons/odhr_api/controllers/api.py:242-245 | after a check-in the employee has exactly one open record, the new last one; other employees' open counts are unchanged |
| ServerApi.CheckOutLeavesNoneOpen | addons/odhr_api/controllers/api.py:256-259 | after a check-out the employee has no open record left; other employees' open counts are unchanged |
| ServerApi.AttendanceBook.CheckIn | addons/odhr_api/controllers/api.py:233-246 | 404 without an employee. Otherwise the open record, if any, is closed before a new open record is created and returned. Every employee keeps at most one open record |
| ServerApi.AttendanceBook.CheckOut | addons/odhr_api/controllers/api.py:248-260 | 404 without an employee; 400 `No open attendance to checkout` without an open record, changing nothing; otherwise the first open record is closed at `now`, none stays open, and the reply is that closed record with its check-in time unchanged |
| ServerApi.LeaveApply | addons/odhr_api/controllers/api.py:326-342 | 404 without an employee; a non-dict body raises. 400 if and only if `int(type_id or 0)` is 0 or a date is missing after the `request_date_*` fallbacks. A non-numeric `type_id` raises. The name is set if and only if the reason (falling back to `name`) is truthy |
| ServerApi.NonNumericTypeIdRaises | addons/odhr_api/controllers/api.py:329 | a non-numeric `type_id` makes the route raise instead of answering 400 |
| ServerApi.LeaveApproveReply | addons/odhr_api/controllers/api.py:399-410 | 403 for a user outside HR, whether or not the leave exists, then 404 for a missing leave, then 400 when approval raises; success exactly otherwise |
| ServerApi.LeaveRejectReply | addons/odhr_api/controllers/api.py:418-434 | 403 first; a non-dict body raises before the 404 for a missing leave; success exactly when refusal does not raise; the reason is posted if and only if truthy |
| ServerApi.PayslipDetailReply | addons/odhr_api/controllers/api.py:595-600 | 404 without an employee; success if and only if the payslip exists and is the user's own; otherwise 404 `Payslip not found` |
| ServerApi.PayslipPdfReply | addons/odhr_api/controllers/api.py:609-622 | the detail gate's errors, then 404 when no report exists. Otherwise the file is `payslip_<id>.pdf`, and its base64 text decodes back to exactly the rendered octets |
| ServerApi.OthersPayslipLooksMissing | addons/odhr_api/controllers/api.py:599-600 | someone else's payslip gets the same answer as a missing one |
| HrApi.ParamOr | addons/odhr_hr/controllers/hr_api.py:32-33 | the default is used only when the key is absent; any present value goes through `int()` |
| HrApi.SearchParam | addons/odhr_hr/controllers/hr_api.py:34 | a falsy search is ''; truthy text is stripped; a truthy non-text value raises |
| HrApi.ListParams | addons/odhr_hr/controllers/hr_api.py:31-34 | a falsy body gives limit 50, offset 0, search ''; a truthy non-dict body raises; otherwise each parameter follows ParamOr and SearchParam |
| HrApi.LimitDefaultsDiffer | addons/odhr_hr/controllers/hr_api.py:31-33 | this route keeps a limit of 0 where the REST search takes 20. An absent limit is 50 here and 20 there. A null limit raises here and is the default there |
| HrApi.SearchDomainSelects | addons/odhr_hr/controllers/hr_api.py:36-38 | a blank search selects every employee; any other selects exactly those whose name or work e-mail matches it |
| HrApi.M2o | addons/odhr_hr/controllers/hr_api.py:55-58 | a two-element list becomes exactly `{id, name}` from its elements; anything else becomes None |
| HrApi.ExpandRecord | addons/odhr_hr/controllers/hr_api.py:60-64 | the same keys; only truthy department and work location are rewritten through M2o; every other field is untouched |
| HrApi.ExpandRecordNotIdempotent | addons/odhr_hr/controllers/hr_api.py:104-107 | a second expansion turns an expanded `{id, name}` into None |
| HrApi.ExpandAll | addons/odhr_hr/controllers/hr_api.py:60-64 | every record of the array is replaced by its expansion |
| HrApi.ListEmployees | addons/odhr_hr/controllers/hr_api.py:31-70 | raises exactly when the parameters raise. The reply's items are the expanded search results for the parsed parameters and the domain, and `count` is the page length |
| HrApi.DetailReply | addons/odhr_hr/controllers/hr_api.py:94-108 | a missing id gives `{error: not_found, message: Employee not found}`; otherwise the expanded record |
| HrApi.DetailErrorIffMissing | addons/odhr_hr/controllers/hr_api.py:95-96 | the reply carries `error` if and only if the employee does not exist |
| Compliance.ComputeIsExpired | addons/odhr_hr/models/compliance_document.py:28-32 | every record's flag becomes true if and only if its expiry date is set and strictly before today; nothing else changes |
| Compliance.DueVersusExpired | addons/odhr_hr/models/compliance_document.py:37-38 | every document expired as of today is due, and the due documents not expired as of today are exactly those expiring today |
| Compliance.Selected | addons/odhr_hr/models/compliance_document.py:38 | the job looks at exactly the due documents, each as often as it occurs in the input |
| Compliance.Assignee | addons/odhr_hr/models/compliance_document.py:44-46 | the employee's user, else the first HR user; nobody if and only if neither exists |
| Compliance.ActivityStore.CronNotifyExpiring | addons/odhr_hr/models/compliance_document.py:34-63 | the job returns true, and the activities become the run of its loop over the selected documents |
| Compliance.CronOnlyAppends | addons/odhr_hr/models/compliance_document.py:55-62 | existing activities are kept and at most one is added per document looked at |
| Compliance.CronAddsOnlyAssigned | addons/odhr_hr/models/compliance_document.py:44-62 | every added activity is the one for a document looked at, for that document's assignee |
| Compliance.CronCovers | addons/odhr_hr/models/compliance_document.py:47-62 | afterwards every looked-at document with an assignee has its activity |
| Compliance.CronIdleWhenCovered | addons/odhr_hr/models/compliance_document.py:47-54 | when every activity already exists the job creates nothing |
| Compliance.CronIdempotent | addons/odhr_hr/models/compliance_document.py:47-54 | a second run over the same documents creates nothing new |
| Compliance.CronKeepsKeysUnique | addons/odhr_hr/models/compliance_document.py:47-62 | the job never creates a duplicate (model, record, type, user) activity |
| Checklists.NewTask | addons/odhr_hr/models/offboarding.py:54-61 | a new task has sequence 10 and state `todo` |
| Checklists.DoneCount | addons/odhr_hr/models/onboarding.py:28 | the finished tasks number at most all tasks, and all of them exactly when every task is finished |
| Checklists.ProgressBounds | addons/odhr_hr/models/onboarding.py:21-29 | progress lies within [0, 100], is 0 without tasks, and is 100 if and only if there are tasks and all are finished |
| Checklists.Checklist.constructor | addons/odhr_hr/models/onboarding.py:12-17 | a new checklist starts in `draft` with no tasks |
| Checklists.SetState | addons/odhr_hr/models/offboarding.py:31-44 | every record in the set gets the state, from any prior state; nothing else changes |
| Checklists.ActionStart | addons/odhr_hr/models/onboarding.py:31-34 | every record becomes `in_progress`, from any state; tasks, progress, name and employee unchanged; returns true |
| Checklists.ActionDone | addons/odhr_hr/models/offboarding.py:36-39 | every record becomes `done`, whatever its tasks' states; tasks, progress, name and employee unchanged; returns true |
| Checklists.ActionCancel | addons/odhr_hr/models/onboarding.py:41-44 | every record becomes `cancel`, even from `done`; tasks, progress, name and employee unchanged; returns true |
| Checklists.ComputeProgress | addons/odhr_hr/models/offboarding.py:21-29 | every record's progress becomes the finished share of its tasks, within [0, 100]; states, tasks, names and employees unchanged |

## Left out

- Screens, UI components, navigation, themes and translations are rendering. The only screen logic modelled is `doCheck`, because it feeds the offline queue.
- **Push notifications and geolocation.** These are platform calls.
  - The position is a parameter.
  - Notification registration during bootstrapping is not modelled; its failures are swallowed and do not touch the session state.
- **External systems.** `fetch`, the secure store, `localStorage`, `session.authenticate`, `has_group` and the ORM's search, read, write and create are parameters:
  - outcomes of each call,
  - records returned,
  - group flags,
  - a failing call's index.
- **Concurrency.** A flush reads the queue and overwrites it later, so an action enqueued meanwhile could be lost. The model treats a flush as atomic.
- Timeouts and retries do not exist in the client code; each helper issues exactly one fetch.
- **Floating point.** JSON numbers, the checklist progress and coordinates are exact reals.
  - Python's `int()` on NaN, infinities or huge floats is not modelled.
  - Number formatting is not modelled.
- **Clocks.** `Date.now()`, `date.today()` and `fields.Datetime.now()` are parameters. A check-in uses one instant both to close the open record and to create the new one.
- JSON text parsing and serialisation are abstract functions. A stored queue text that parses but is not a list of actions is not represented; only absent, well-formed and unparseable slots are.
- **URL parsing.** The WHATWG URL parser is an abstract function returning origin, query string and query pairs.
  - The `pathname` setter's percent-encoding of the request path is not modelled.
- Offline.OfflineQueue.Flush: the replay calls are results, and their outcomes come from a list of booleans; the payload the server receives is not followed further.
- ApiClient.BuildRequestUrl: the URL parser is abstract, so the exact URL for a parseable base is stated only by BuildRequestUrlKeepsQuery, for a base whose origin reparses to itself with no query (`Url.OriginReparses`). The WHATWG parser does this for http and https origins; that is not proved here. An opaque origin (`null`) takes the fallback.
- ApiClient.ApiPost: the messages of the three rejections before a response (a credential read, the `base-64` encoder's error and a network failure) are fixed text standing for the library's own. `apiPost` reads the credentials twice (once for the base URL, once inside `buildHeaders`); the model gives both reads the same stored values, as no write happens between them.
- Compliance.ComputeIsExpired: `is_expired` is a stored field that the ORM recomputes only when `expiry_date` is written. The model does not capture when that happens, so it does not show the flag going stale as days pass: a document whose date has since passed keeps a false flag while the daily job, which searches on the date, still selects it.
- Text.Take: JavaScript's `slice` counts UTF-16 code units, the model counts Unicode scalar values; they differ only on characters outside the Basic Multilingual Plane.
- Text.PyStrip: its own contract only says that text without white space is unchanged; what it cuts is stated by Text.PyStripTrims.
- OdooClient.ErrorMessage: the message is kept as the JSON value handed to `new Error`; its conversion to a string for non-string values is not modelled.
- AuthContext.DeriveBaseUrlCutsAtFirstQuery: the first-`?` statement is made for URLs without line terminators. AuthContext.FirstMatch models the regular expression on every input.
- AuthContext.AuthProvider.Load: `whoAmI` is an oracle from configuration to the user's roles, and the rest of its answer is not kept. `refresh` is the same operation, so it has no row of its own.
- AuthContext.AuthProvider.SignIn: the alert shown on failure is not modelled.
- ServerApi.PyInt: `int()` on text accepts ASCII digits only. Python also accepts other Unicode decimal digits; the model rejects them.
- ServerApi.FirstOpen: the open record is the first in table order. The ORM's default attendance order (check-in descending) is not modelled. Under the one-open-record invariant kept by `AttendanceBook`, there is at most one candidate anyway.
- **Other REST routes.** Their domain building, serialisation and ORM queries are not modelled; the list routes' paging defaults are modelled through `ServerApi.PageParam` and its constants. Concerned: team, employee read, employee search, departments, attendance history, leave types, my leaves, balances, calendar, device registration, team overview, announcements, payslip list.
- **Leave actions.** After creating a leave, `action_confirm` is called and its failure swallowed; this is not modelled. The approve and refuse actions are reduced to whether they raise.
- **Payslip PDF rendering.** It is an input: the rendered octets.
- **HR add-on transport.** The JSON-RPC envelope and session authentication of the HR add-on's routes are not modelled.
- **Serialised records.** `employees_me_update` returns the serialised employee; only the written fields are modelled.
- The daily probation-end job is not part of this model. Its source is not among the files modelled.
- A checklist task's other fields (owner, due date, notes) and the checklists' mail-thread tracking are not modelled.
