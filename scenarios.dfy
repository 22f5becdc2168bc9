/** Three verified scenarios of the client with a store opened on an empty
    `localStorage`, proved from the contracts of the store and the interceptors. */
module Scenarios {
  import opened Options
  import opened Json
  import opened Signature
  import Session
  import Store
  import opened Request

  /** A token set through the store is sent as `x-token`, and both signature
      headers are present and non-empty. */
  method TokenIsAttached(codec: Codec, md5: string -> string, nowMillis: int, draws: seq<real>)
    requires Lawful(codec) && IsTimeValue(nowMillis) && AreDraws(draws)
  {
    var store := Store.CommonStore.Open(map[], codec);
    Session.HydrateEmpty(map[], codec);
    store.SetToken("abc123");
    var config := new RequestConfig(map[]);
    config := OnRequest(config, store, md5, nowMillis, draws);
    assert config.headers[TokenHeader] == "abc123";
    assert config.headers[SignatureHeader] != "";
    assert config.headers[TimestampHeader] != "";
  }

  /** With no token, a body of `{code: 50014}` still resolves, and leaves no
      token, `{}` user info and the login prompt raised. */
  method ExpiredWithoutToken(codec: Codec)
    requires Lawful(codec)
  {
    var store := Store.CommonStore.Open(map[], codec);
    Session.HydrateEmpty(map[], codec);
    var response := Response(200, JObject(map["code" := JNumber(ExpiredCode)]));
    ghost var before := store.Snapshot();
    var outcome := OnFulfilled(store, response);
    FulfilledContract(before, response, codec);
    assert outcome == Resolved(response);
    assert store.token == "" && store.userInfo == EmptyObject && store.isShowLoginModal;
  }

  /** A 401 is rejected to the caller and leaves no token behind. */
  method UnauthorizedClearsToken(codec: Codec)
    requires Lawful(codec)
  {
    var store := Store.CommonStore.Open(map[], codec);
    Session.HydrateEmpty(map[], codec);
    store.SetToken("xyz");
    var error := HttpError(Some(Response(UnauthorizedStatus, JNull)));
    ghost var before := store.Snapshot();
    var outcome := OnRejected(store, error);
    RejectedContract(before, error, codec);
    assert outcome.Rejected?;
    assert store.token == "" && !store.IsLogin();
  }
}
