# Signed HTTP client and session store of jocy-web, in Dafny

This project models the shared HTTP client of the jocy-web video front end, the
session store it drives, and its image-URL helper:

- **Request signing** (`Signature`). `generateSignature` builds a timestamp and
  a 10-character nonce. It returns `MD5("jocy&" + timestamp + "&" + nonce) + "." + reverse(nonce)`
  together with the timestamp. The digest is a parameter `md5: string -> string`
  and is never evaluated. `Date.now()` is a parameter `nowMillis`, and the ten
  `Math.random()` results are a parameter `draws`.
- **Session store** (`Session`, `Store`). `useCommonStore` holds `isMobile`,
  `token`, `userInfo`, `isShowLoginModal`, `historyList` and the
  `localStorage` map it writes through to. `Session` defines the state as a
  value and each mutator as a transition `Apply`. `Store.CommonStore` is a class
  with the same fields. Each of its methods assigns those fields the way the
  source does and is proved to perform `Apply`. Its invariant `Valid()` says
  that storage mirrors memory: rebuilding the store from its own `localStorage`
  gives back the token, the user info and the history list.
- **Interceptors** (`Request`). The request interceptor attaches `x-token` when
  the store yields a non-empty token, and always attaches the signature `s` and
  timestamp `t`. The response interceptor reacts to a body code of 50014 or a
  transport status of 401 with the invalidation event: clear the token, log
  out, raise the login prompt. A 50014 response still resolves. A 401 error
  still rejects.
- **Image URLs** (`Image`). `handleImage` prefixes URLs that mention `sinaimg`
  with the Baidu proxy.

`useCommonStore()` can throw, and the store parameter models it as
`CommonStore?`: `null` stands for a call that throws. `JSON.stringify` and
`JSON.parse` form an abstract `Codec`. `Lawful` states the four facts the
store relies on.

The code behaves as follows where a reader might expect otherwise:

- The 50014 branch calls `useCommonStore()` outside any `try`. If the store
  cannot be loaded there, the success becomes a rejection
  (`Rejected(StoreUnavailable)`). Only the 401 branch swallows a store failure.
- A `null` body makes `response.data.code` throw, so the response is rejected
  (`Rejected(NullData)`).
- When there is no token, the request interceptor leaves any `x-token` the
  caller supplied in place. It does not delete it.
- `clearToken()` alone does not clear `userInfo`. Only `setLoginState(false)`
  clears the token and the user info together.
- The alphabet is written as the ranges A–Z, a–z, 0–9, which is the order of
  the literal in the source (`AlphabetIsSourceLiteral` proves them equal).
  Dafny cannot reason about a 62-character literal at a symbolic index.

## Model

| member | source | states |
|---|---|---|
| `Strings.Reverse` | src/utils/request.js:82 | the result has the input's length and holds the input's characters in reverse order |
| `Strings.ReverseReverse` | src/utils/request.js:82 | reversing the reversed nonce gives the nonce back |
| `Strings.ReverseInjective` | src/utils/request.js:82 | two strings with the same reversal are equal |
| `Strings.IndexOf` | src/utils/image.js:9 | `indexOf` is -1 exactly when the substring does not occur; otherwise it is the first index where it occurs |
| `Strings.IntToDecimal` | src/utils/request.js:79 | `toString` of an integer, for magnitudes below 10^21 (where `toString` does not switch to exponent form), is a canonical literal: digits with no leading zero and no `-0`, starting with `-` exactly when the integer is negative |
| `Strings.CanonicalLiteralUnique` | src/utils/request.js:79 | a canonical literal is the rendering of its own value, so form and value together fix the string |
| `Strings.ParseIntToDecimal` | src/utils/request.js:79 | reading the decimal rendering back gives the integer |
| `Signature.Seconds` | src/utils/request.js:79 | the whole seconds `s` satisfy `s * 1000 <= ms < s * 1000 + 1000`, i.e. `Math.floor(ms / 1000)` |
| `Signature.CharIndex` | src/utils/request.js:81 | a draw in [0, 1) selects an index below 62, the floor of `draw * 62` |
| `Signature.AlphabetIsAlphanumeric` | src/utils/request.js:80 | the alphabet has 62 characters, all of them letters or digits |
| `Signature.AlphabetIsSourceLiteral` | src/utils/request.js:80 | the alphabet is exactly the `chars` literal, A–Z then a–z then 0–9 |
| `Signature.Nonce` | src/utils/request.js:80-81 | the nonce has 10 characters, each alphanumeric, character i being the one draw i selects |
| `Signature.ParseSignDataRoundTrip` | src/utils/request.js:85 | the signed data splits back into the timestamp and nonce it was built from |
| `Signature.ParseSignatureRoundTrip` | src/utils/request.js:89 | for a nonce without `.`, the signature splits at its last `.` into the digest and the reversed nonce, whatever the digest holds |
| `Signature.GenerateSignature` | src/utils/request.js:77-95 | no contract of its own; characterised by `StampStructure`, `GeneratedStampVerifies`, `SignatureDeterminesNonce` and `SameSecondSameTimestamp` |
| `Signature.StampStructure` | src/utils/request.js:77-95 | the stamp `generateSignature` returns: the timestamp is the canonical decimal literal of floor(now / 1000), with `-` exactly when now is negative; the signed data holds that same timestamp and the nonce; the signature splits into `md5` of the signed data and a part that reverses to the 10-character nonce |
| `Signature.GeneratedStampVerifies` | src/utils/request.js:85-94 | every generated stamp passes the receiver's check: the recovered nonce has 10 characters and the digest matches the signed data rebuilt from the returned timestamp |
| `Signature.SignatureDeterminesNonce` | src/utils/request.js:82-89 | equal signatures imply equal nonces |
| `Signature.SameSecondSameTimestamp` | src/utils/request.js:79 | two calls in the same second return the same timestamp |
| `Session.Hydrate` | src/stores/commonStore.js:9-15 | no contract of its own; characterised by `HydrateEmpty`, `HydrateFields` and `HydrateMirrors` |
| `Session.HydrateEmpty` | src/stores/commonStore.js:6-15 | an empty storage gives token "", userInfo `{}`, historyList `[]` and both flags false |
| `Session.HydrateFields` | src/stores/commonStore.js:9-15 | the initial token is the stored one or ""; the initial userInfo and historyList are the parsed stored text, or `{}` and `[]` when that text is missing or empty |
| `Session.HydrateMirrors` | src/stores/commonStore.js:9-15 | a freshly hydrated store mirrors its storage |
| `Session.ApplyMirrors` | src/stores/commonStore.js:35-69 | every mutator keeps storage mirroring memory |
| `Session.RunMirrors` | src/stores/commonStore.js:35-69 | any sequence of mutator calls keeps storage mirroring memory |
| `Session.IsLogin` | src/stores/commonStore.js:10 | no contract of its own; characterised by `IsLoginAfter` |
| `Session.IsLoginAfter` | src/stores/commonStore.js:10 | after each mutator `isLogin` is `v != ""` after `setToken(v)`, false after `clearToken()` and `setLoginState(false)`, and unchanged otherwise |
| `Session.Apply` | src/stores/commonStore.js:18-69 | no contract of its own; characterised per mutator by `SetTokenEffect`, `ClearTokenIdempotent`, `SetLoginStateEffect`, `SetUserInfoEffect`, `SetIsShowLoginModalEffect`, `UpdateHistoryListEffect`, and as a whole by `ApplyMirrors`, `StorageFootprint` and `IsLoginAfter` |
| `Session.StorageFootprint` | src/stores/commonStore.js:35-69 | a mutator leaves every storage key outside its own untouched |
| `Session.SetTokenEffect` | src/stores/commonStore.js:35-38 | `setToken(v)` sets the token and `storage.token` to v and changes nothing else |
| `Session.ClearTokenIdempotent` | src/stores/commonStore.js:41-44 | `clearToken()` leaves token "" and no `token` key, changes nothing else (userInfo, historyList, both flags and other keys stay), and a second call changes nothing |
| `Session.SetLoginStateEffect` | src/stores/commonStore.js:47-52 | `setLoginState(false)` leaves token "", userInfo `{}`, no `token` key and `storage.userInfo == "{}"` from any state; `setLoginState(true)` changes nothing |
| `Session.SetUserInfoEffect` | src/stores/commonStore.js:55-58 | `setUserInfo(info)` replaces userInfo wholesale, stores exactly `stringify(info)` under `userInfo` (which parses back to `info`), and changes nothing else |
| `Session.SetIsShowLoginModalEffect` | src/stores/commonStore.js:61-63 | `setIsShowLoginModal(v)` changes only the flag and never touches storage |
| `Session.UpdateHistoryListEffect` | src/stores/commonStore.js:66-69 | `updateHistoryList(list)` replaces the list, stores exactly `stringify(list)` under `historyList` (which parses back to `list`), and leaves token, userInfo and both flags unchanged |
| `Session.Invalidate` | src/utils/request.js:50-52 | no contract of its own; characterised by `InvalidateEffect`, `InvalidateIdempotent` and `InvalidateIsRun` |
| `Session.InvalidateEffect` | src/utils/request.js:50-52 | the invalidation event leaves token "", not logged in, userInfo `{}`, the prompt raised and `storage.userInfo == "{}"`; history, isMobile and other keys are untouched |
| `Session.InvalidateIdempotent` | src/utils/request.js:50-52 | running the invalidation event twice equals running it once |
| `Session.InvalidateIsRun` | src/utils/request.js:62-66 | the invalidation event is the three store calls in order |
| `Store.CommonStore.IsLogin` | src/stores/commonStore.js:10 | `isLogin` is recomputed from the live token: true exactly when the token is non-empty, i.e. `Session.IsLogin(Snapshot())` |
| `Store.CommonStore.constructor` | src/stores/commonStore.js:4-16 | the store starts in a given mirrored state |
| `Store.CommonStore.Open` | src/stores/commonStore.js:4-16 | the setup function yields a store exactly when both `JSON.parse` calls succeed, and that store holds the hydrated state and is valid |
| `Store.CommonStore.SetIsMobile` | src/stores/commonStore.js:18-20 | performs `Apply(SetIsMobile(value))` and keeps the invariant |
| `Store.CommonStore.CheckIsMobile` | src/stores/commonStore.js:23-25 | sets `isMobile` to `width < 768` for the width read |
| `Store.CommonStore.SetToken` | src/stores/commonStore.js:35-38 | performs `Apply(SetToken(value))` and keeps the invariant |
| `Store.CommonStore.ClearToken` | src/stores/commonStore.js:41-44 | performs `Apply(ClearToken)` and keeps the invariant |
| `Store.CommonStore.SetLoginState` | src/stores/commonStore.js:47-52 | performs `Apply(SetLoginState(value))` by calling `ClearToken` then `SetUserInfo({})`, and keeps the invariant |
| `Store.CommonStore.SetUserInfo` | src/stores/commonStore.js:55-58 | performs `Apply(SetUserInfo(info))` and keeps the invariant |
| `Store.CommonStore.SetIsShowLoginModal` | src/stores/commonStore.js:61-63 | performs `Apply(SetIsShowLoginModal(value))` and keeps the invariant |
| `Store.CommonStore.UpdateHistoryList` | src/stores/commonStore.js:66-69 | performs `Apply(UpdateHistoryList(list))` and keeps the invariant |
| `Request.AttachHeaders` | src/utils/request.js:20-35 | `s` and `t` always carry the signature and timestamp; `x-token` carries the token exactly when one was read and is non-empty, and otherwise keeps whatever the caller had; every other header is kept |
| `Request.OnRequest` | src/utils/request.js:17-38 | edits the config's headers in place to `AttachHeaders` of the live token (none when the store fails) and a fresh stamp, and returns the same config |
| `Request.SignalsExpiredSession` | src/utils/request.js:48 | no contract of its own: `response.data.code === 50014`, an object body whose `code` is the number 50014 |
| `Request.IsUnauthorized` | src/utils/request.js:59 | no contract of its own: the error carries a response whose status is 401 |
| `Request.FulfilledOutcome` | src/utils/request.js:46-56 | the success handler resolves with the unchanged response exactly when the body is not `null` and is not a 50014 body with the store unavailable; a `null` body rejects with `NullData`, a 50014 body with no store rejects with `StoreUnavailable` |
| `Request.FulfilledEffect` | src/utils/request.js:48-53 | no contract of its own; characterised by `FulfilledContract`, `InvalidationsCommute` and `HandlersMirror` |
| `Request.RejectedEffect` | src/utils/request.js:59-70 | no contract of its own; characterised by `RejectedContract`, `InvalidationsCommute` and `HandlersMirror` |
| `Request.InvalidateSession` | src/utils/request.js:50-52 | the three store calls perform `Session.Invalidate` and keep the invariant |
| `Request.OnFulfilled` | src/utils/request.js:46-56 | hands on `FulfilledOutcome`, and invalidates the session exactly when the body code is 50014 |
| `Request.OnRejected` | src/utils/request.js:57-73 | always rejects with the original error, and invalidates the session exactly when the error carries a 401 response and the store loads |
| `Request.FulfilledContract` | src/utils/request.js:48-55 | a 50014 body leaves token "", userInfo `{}` and the prompt raised, and still resolves with the response; any other non-null body leaves the session unchanged |
| `Request.RejectedContract` | src/utils/request.js:59-72 | a 401 leaves token "", userInfo `{}` and the prompt raised; an error with no response or another status leaves the session unchanged |
| `Request.InvalidationsCommute` | src/utils/request.js:48-72 | a 50014 response and a 401 error, in either order, leave the session as either one alone would |
| `Request.HandlersMirror` | src/utils/request.js:48-72 | both handlers keep storage mirroring memory |
| `Image.HandleImage` | src/utils/image.js:6-18 | a missing or empty URL gives ""; a URL containing `sinaimg` gets the proxy prefix; any other URL is returned as is |
| `Image.HandleImageKeepsUrl` | src/utils/image.js:9-15 | for a non-empty URL the result ends with the URL and contains `sinaimg` exactly when the URL does |
| `Image.HandleImageTwice` | src/utils/image.js:9-11 | applying the rewrite to a rewritten Sina URL prefixes it a second time, so the rewrite is not idempotent |

## Left out

- Strings.IntToDecimal: does not model the exponent form `toString` writes at magnitudes of 10^21 and above; every caller passes the seconds of a time value, which stay far below that bound.
- Signature.Nonce: says which character each draw selects. It says nothing about the draws being uniform or independent, so "distinct calls give distinct nonces with overwhelming probability" is not stated.
- Floating point: `Math.floor(Math.random() * 62)` and `Math.floor(Date.now() / 1000)` are computed exactly on reals and integers. `Date.now()` is bounded by the ECMAScript time range, so its seconds always print as plain decimals.
- The MD5 digest (CryptoJS) is the parameter `md5`. No digest value is stated.
- The axios transport, the base address, the 10000 ms timeout, the default `Content-Type: application/json` and promise scheduling are not modelled. Header names are plain map keys, not case-insensitive.
- The request interceptor's error handler (src/utils/request.js:39-41) hands a rejection on unchanged. It has no logic and is not modelled.
- The `console.error` logging in both `catch` blocks has no effect on state and is left out.
- Pinia's store singleton and Vue reactivity are not modelled. Whether `useCommonStore()` succeeds is an input, `null` when it throws.
- `checkIsMobile`'s `resize` listener is DOM event I/O. `CheckIsMobile` models one reading of `window.innerWidth`.
- Strings are sequences of Unicode scalar values, while JavaScript strings are UTF-16 code units. `Strings.IndexOf` and `Strings.Reverse` therefore agree with `indexOf` and `split('').reverse()` only on text inside the Basic Multilingual Plane. For example, `"😀sinaimg".indexOf("sinaimg")` is 2 in JavaScript and 1 here. The core does not depend on this: `handleImage` only compares the index with -1, and the nonce is ASCII.
- JSON: `JSON.stringify` and `JSON.parse` are an abstract `Codec`. JSON numbers are integers, and objects carry no key order.
- A `response.data` of `undefined` cannot be represented. `null` is the one body whose `.code` read throws.
- `localStorage` quota errors are not modelled. Neither are writes to the same keys by other code, such as src/utils/auth.js.
- The endpoint wrappers (src/api/*.js), src/utils/auth.js, src/components/icons/index.js, src/main.js and vite.config.js are not part of this model. They are glue or configuration with no logic of their own.
