/** The session state of `useCommonStore` (src/stores/commonStore.js) as a value,
    and its mutators as transitions on that value. The class `Store.CommonStore`
    holds the same state in fields, and each of its methods is proved to perform
    the transition defined here. */
module Session {
  import opened Options
  import opened Json

  /** The `localStorage` keys the store writes. */
  const TokenKey: string := "token"
  const UserInfoKey: string := "userInfo"
  const HistoryListKey: string := "historyList"

  /** Everything the store holds, with `storage` standing for `localStorage`. */
  datatype State = State(
    isMobile: bool,
    token: string,
    userInfo: Json,
    isShowLoginModal: bool,
    historyList: Json,
    storage: map<string, string>)

  /** One call of a store mutator. */
  datatype Op =
    | SetIsMobile(mobile: bool)
    | SetToken(value: string)
    | ClearToken
    | SetLoginState(loggedIn: bool)
    | SetUserInfo(info: Json)
    | SetIsShowLoginModal(show: bool)
    | UpdateHistoryList(list: Json)

  /** `localStorage.getItem(key) || fallback`: a missing or empty entry gives the fallback. */
  function StoredOr(storage: map<string, string>, key: string, fallback: string): string {
    if key in storage && storage[key] != "" then storage[key] else fallback
  }

  /** `storage[key]` when present. */
  function Lookup(storage: map<string, string>, key: string): Option<string> {
    if key in storage then Some(storage[key]) else None
  }

  /** The state the store's setup function builds from `localStorage`, or `None`
      where one of its `JSON.parse` calls throws. */
  function Hydrate(storage: map<string, string>, c: Codec): Option<State> {
    var token := StoredOr(storage, TokenKey, "");
    var userInfo := c.parse(StoredOr(storage, UserInfoKey, "{}"));
    var historyList := c.parse(StoredOr(storage, HistoryListKey, "[]"));
    if userInfo.None? || historyList.None? then None
    else Some(State(false, token, userInfo.value, false, historyList.value, storage))
  }

  /** `isLogin`, computed from the token as `!!token.value`. */
  predicate IsLogin(s: State) {
    s.token != ""
  }

  /** The new state after one mutator call. */
  function Apply(s: State, op: Op, c: Codec): State
    decreases op.SetLoginState?
  {
    match op
    case SetIsMobile(v) => s.(isMobile := v)
    case SetToken(v) => s.(token := v, storage := s.storage[TokenKey := v])
    case ClearToken => s.(token := "", storage := s.storage - {TokenKey})
    case SetLoginState(v) =>
      if v then s else Apply(Apply(s, ClearToken, c), SetUserInfo(EmptyObject), c)
    case SetUserInfo(info) => s.(userInfo := info, storage := s.storage[UserInfoKey := c.stringify(info)])
    case SetIsShowLoginModal(v) => s.(isShowLoginModal := v)
    case UpdateHistoryList(list) =>
      s.(historyList := list, storage := s.storage[HistoryListKey := c.stringify(list)])
  }

  /** The new state after a sequence of mutator calls, in order. */
  function Run(s: State, ops: seq<Op>, c: Codec): State
    decreases |ops|
  {
    if ops == [] then s else Run(Apply(s, ops[0], c), ops[1..], c)
  }

  /** The invalidation event of the request pipeline: `clearToken()`, then
      `setLoginState(false)`, then `setIsShowLoginModal(true)`. */
  function Invalidate(s: State, c: Codec): State {
    Apply(Apply(Apply(s, ClearToken, c), SetLoginState(false), c), SetIsShowLoginModal(true), c)
  }

  /** Storage mirrors memory: rebuilding the store from its own `localStorage`
      gives back its token, user info and history list. */
  predicate Mirrors(s: State, c: Codec) {
    Hydrate(s.storage, c) == Some(s.(isMobile := false, isShowLoginModal := false))
  }

  /** The `localStorage` keys a mutator may write or remove. */
  function KeysWritten(op: Op): set<string> {
    match op
    case SetToken(_) => {TokenKey}
    case ClearToken => {TokenKey}
    case SetLoginState(v) => if v then {} else {TokenKey, UserInfoKey}
    case SetUserInfo(_) => {UserInfoKey}
    case UpdateHistoryList(_) => {HistoryListKey}
    case SetIsMobile(_) => {}
    case SetIsShowLoginModal(_) => {}
  }

  /** A fresh `localStorage` gives an empty session: no token, `{}` for the user
      info, `[]` for the history list, both flags down. */
  lemma HydrateEmpty(storage: map<string, string>, c: Codec)
    requires Lawful(c)
    requires TokenKey !in storage && UserInfoKey !in storage && HistoryListKey !in storage
    ensures Hydrate(storage, c) == Some(State(false, "", EmptyObject, false, EmptyArray, storage))
  {
    assert c.parse(c.stringify(EmptyObject)) == Some(EmptyObject);
    assert c.parse(c.stringify(EmptyArray)) == Some(EmptyArray);
  }

  /** The hydrated token is the stored one, or "" when none is stored; the user
      info and the history list are what their stored text parses to, or `{}`
      and `[]` when that text is missing or empty. */
  lemma HydrateFields(storage: map<string, string>, c: Codec)
    requires Lawful(c)
    requires Hydrate(storage, c).Some?
    ensures var s := Hydrate(storage, c).value;
      && s.token == (if TokenKey in storage then storage[TokenKey] else "")
      && ((UserInfoKey !in storage || storage[UserInfoKey] == "") ==> s.userInfo == EmptyObject)
      && (UserInfoKey in storage && storage[UserInfoKey] != "" ==> c.parse(storage[UserInfoKey]) == Some(s.userInfo))
      && ((HistoryListKey !in storage || storage[HistoryListKey] == "") ==> s.historyList == EmptyArray)
      && (HistoryListKey in storage && storage[HistoryListKey] != "" ==> c.parse(storage[HistoryListKey]) == Some(s.historyList))
      && !s.isMobile && !s.isShowLoginModal && s.storage == storage
  {
    assert c.parse(c.stringify(EmptyObject)) == Some(EmptyObject);
    assert c.parse(c.stringify(EmptyArray)) == Some(EmptyArray);
  }

  /** The state the setup function builds mirrors its storage. */
  lemma HydrateMirrors(storage: map<string, string>, c: Codec)
    requires Hydrate(storage, c).Some?
    ensures Mirrors(Hydrate(storage, c).value, c)
  {
  }

  /** Every mutator keeps storage mirroring memory. */
  lemma ApplyMirrors(s: State, op: Op, c: Codec)
    requires Lawful(c) && Mirrors(s, c)
    ensures Mirrors(Apply(s, op, c), c)
    decreases op.SetLoginState?
  {
    match op
    case SetLoginState(v) =>
      if !v {
        ApplyMirrors(s, ClearToken, c);
        ApplyMirrors(Apply(s, ClearToken, c), SetUserInfo(EmptyObject), c);
      }
    case SetUserInfo(info) =>
      assert c.parse(c.stringify(info)) == Some(info);
      assert c.stringify(info) != "";
    case UpdateHistoryList(list) =>
      assert c.parse(c.stringify(list)) == Some(list);
      assert c.stringify(list) != "";
    case _ =>
  }

  /** Any sequence of mutator calls keeps storage mirroring memory, so a reload
      at any point restores the token, user info and history list. */
  lemma {:induction false} RunMirrors(s: State, ops: seq<Op>, c: Codec)
    requires Lawful(c) && Mirrors(s, c)
    ensures Mirrors(Run(s, ops, c), c)
    decreases |ops|
  {
    if ops != [] {
      ApplyMirrors(s, ops[0], c);
      RunMirrors(Apply(s, ops[0], c), ops[1..], c);
    }
  }

  /** `isLogin` after one mutator: `setToken(v)` makes it `v != ""`,
      `clearToken()` and `setLoginState(false)` make it false, and every other
      call leaves it as it was. */
  lemma IsLoginAfter(s: State, op: Op, c: Codec)
    ensures IsLogin(Apply(s, op, c)) == match op
      case SetToken(v) => v != ""
      case ClearToken => false
      case SetLoginState(v) => if v then IsLogin(s) else false
      case _ => IsLogin(s)
  {
  }

  /** A mutator leaves every `localStorage` key outside its own untouched. */
  lemma StorageFootprint(s: State, op: Op, c: Codec, key: string)
    requires key !in KeysWritten(op)
    ensures Lookup(Apply(s, op, c).storage, key) == Lookup(s.storage, key)
    decreases op.SetLoginState?
  {
    match op
    case SetLoginState(v) =>
      if !v {
        StorageFootprint(s, ClearToken, c, key);
        StorageFootprint(Apply(s, ClearToken, c), SetUserInfo(EmptyObject), c, key);
      }
    case _ =>
  }

  /** `setToken(v)` sets the token and `localStorage.token` to `v` and changes
      nothing else. */
  lemma SetTokenEffect(s: State, v: string, c: Codec)
    ensures var t := Apply(s, SetToken(v), c);
      && t.token == v && Lookup(t.storage, TokenKey) == Some(v)
      && t == s.(token := v, storage := t.storage)
      && t.storage - {TokenKey} == s.storage - {TokenKey}
  {
  }

  /** `clearToken()` leaves no token in memory or storage, and a second call
      changes nothing. */
  lemma ClearTokenIdempotent(s: State, c: Codec)
    ensures var t := Apply(s, ClearToken, c);
      && t.token == "" && TokenKey !in t.storage
      && t == s.(token := "", storage := s.storage - {TokenKey})
      && Apply(t, ClearToken, c) == t
  {
    var t := Apply(s, ClearToken, c);
    assert t.storage - {TokenKey} == t.storage;
  }

  /** `setLoginState(false)` clears the token and the user info together, in
      memory and in storage, whatever the state before; `setLoginState(true)`
      changes nothing. */
  lemma SetLoginStateEffect(s: State, c: Codec)
    requires Lawful(c)
    ensures var t := Apply(s, SetLoginState(false), c);
      && t.token == "" && t.userInfo == EmptyObject
      && TokenKey !in t.storage && Lookup(t.storage, UserInfoKey) == Some("{}")
      && t.isMobile == s.isMobile && t.isShowLoginModal == s.isShowLoginModal
      && t.historyList == s.historyList
    ensures Apply(s, SetLoginState(true), c) == s
  {
  }

  /** `setUserInfo(info)` replaces the user info wholesale, and what it writes
      to storage parses back to `info`. */
  lemma SetUserInfoEffect(s: State, info: Json, c: Codec)
    requires Lawful(c)
    ensures var t := Apply(s, SetUserInfo(info), c);
      && t.userInfo == info && UserInfoKey in t.storage
      && c.parse(t.storage[UserInfoKey]) == Some(info)
      && t.storage == s.storage[UserInfoKey := c.stringify(info)]
      && t.token == s.token && t.historyList == s.historyList
      && t.isMobile == s.isMobile && t.isShowLoginModal == s.isShowLoginModal
  {
    assert c.parse(c.stringify(info)) == Some(info);
  }

  /** `setIsShowLoginModal(v)` changes only the flag and never touches storage. */
  lemma SetIsShowLoginModalEffect(s: State, v: bool, c: Codec)
    ensures Apply(s, SetIsShowLoginModal(v), c) == s.(isShowLoginModal := v)
    ensures Apply(s, SetIsShowLoginModal(v), c).storage == s.storage
  {
  }

  /** `updateHistoryList(list)` replaces the history list, persists it, and
      leaves the token and user info alone. */
  lemma UpdateHistoryListEffect(s: State, list: Json, c: Codec)
    requires Lawful(c)
    ensures var t := Apply(s, UpdateHistoryList(list), c);
      && t.historyList == list && HistoryListKey in t.storage
      && c.parse(t.storage[HistoryListKey]) == Some(list)
      && t.storage == s.storage[HistoryListKey := c.stringify(list)]
      && t.token == s.token && t.userInfo == s.userInfo
      && t.isMobile == s.isMobile && t.isShowLoginModal == s.isShowLoginModal
      && Lookup(t.storage, TokenKey) == Lookup(s.storage, TokenKey)
      && Lookup(t.storage, UserInfoKey) == Lookup(s.storage, UserInfoKey)
  {
    assert c.parse(c.stringify(list)) == Some(list);
  }

  /** The invalidation event leaves no token, an empty user info and the login
      prompt raised, in memory and in storage; the history list, the mobile flag
      and every other storage key are untouched. */
  lemma InvalidateEffect(s: State, c: Codec)
    requires Lawful(c)
    ensures var t := Invalidate(s, c);
      && t.token == "" && !IsLogin(t) && t.userInfo == EmptyObject && t.isShowLoginModal
      && TokenKey !in t.storage && Lookup(t.storage, UserInfoKey) == Some("{}")
      && t.historyList == s.historyList && t.isMobile == s.isMobile
      && t.storage == (s.storage - {TokenKey})[UserInfoKey := "{}"]
  {
    var t := Invalidate(s, c);
    assert t.storage == (s.storage - {TokenKey} - {TokenKey})[UserInfoKey := "{}"];
    assert s.storage - {TokenKey} - {TokenKey} == s.storage - {TokenKey};
  }

  /** Running the invalidation event twice leaves the same state as running it once. */
  lemma InvalidateIdempotent(s: State, c: Codec)
    requires Lawful(c)
    ensures Invalidate(Invalidate(s, c), c) == Invalidate(s, c)
  {
    var t := Invalidate(s, c);
    InvalidateEffect(s, c);
    InvalidateEffect(t, c);
    assert (t.storage - {TokenKey})[UserInfoKey := "{}"] == t.storage;
  }

  /** The invalidation event is the three calls run in order. */
  lemma InvalidateIsRun(s: State, c: Codec)
    ensures Invalidate(s, c) == Run(s, [ClearToken, SetLoginState(false), SetIsShowLoginModal(true)], c)
  {
    var ops := [ClearToken, SetLoginState(false), SetIsShowLoginModal(true)];
    assert ops[1..][1..][1..] == [];
  }
}
