/** The request and response interceptors of the shared HTTP client
    (src/utils/request.js). The store is passed in: `null` stands for a
    `useCommonStore()` call that throws. */
module Request {
  import opened Options
  import opened Json
  import opened Signature
  import Session
  import Store

  const TokenHeader: string := "x-token"
  const SignatureHeader: string := "s"
  const TimestampHeader: string := "t"

  /** The body code that means the token has expired and a login is required. */
  const ExpiredCode: int := 50014

  /** The transport status that means the request was not authorised. */
  const UnauthorizedStatus: int := 401

  /** A request's configuration; the interceptor edits its headers in place. */
  class RequestConfig {
    var headers: map<string, string>

    constructor (headers: map<string, string>)
      ensures this.headers == headers
    {
      this.headers := headers;
    }
  }

  /** A transport success: the HTTP status and the parsed body `data`. */
  datatype Response = Response(status: int, data: Json)

  /** A transport failure, with the server's response when there was one. */
  datatype HttpError = HttpError(response: Option<Response>)

  /** Why a promise is rejected: the transport failure itself, the store failing
      to load inside the 50014 branch, or reading `.code` of a `null` body. */
  datatype Rejection = Transport(error: HttpError) | StoreUnavailable | NullData

  /** What an interceptor hands on: the response, or a rejection. */
  datatype Outcome = Resolved(response: Response) | Rejected(reason: Rejection)

  /** The token the request interceptor reads, or `None` where the store fails. */
  function ReadToken(store: Store.CommonStore?): Option<string>
    reads store
  {
    if store == null then None else Some(store.token)
  }

  /** `if (token)`: a token was read and it is not empty. */
  predicate HasToken(token: Option<string>) {
    token.Some? && token.value != ""
  }

  /** The headers the request interceptor leaves behind. */
  function AttachHeaders(headers: map<string, string>, token: Option<string>, stamp: Stamp): (r: map<string, string>)
    ensures SignatureHeader in r && r[SignatureHeader] == stamp.signature
    ensures TimestampHeader in r && r[TimestampHeader] == stamp.timestamp
    ensures TokenHeader in r <==> HasToken(token) || TokenHeader in headers
    ensures HasToken(token) ==> r[TokenHeader] == token.value
    ensures !HasToken(token) && TokenHeader in headers ==> r[TokenHeader] == headers[TokenHeader]
    ensures forall k :: k in r && k != TokenHeader && k != SignatureHeader && k != TimestampHeader ==>
                k in headers && r[k] == headers[k]
    ensures forall k :: k in headers ==> k in r
  {
    var withToken := if HasToken(token) then headers[TokenHeader := token.value] else headers;
    withToken[SignatureHeader := stamp.signature][TimestampHeader := stamp.timestamp]
  }

  /** The request interceptor: attaches the token when the store yields a
      non-empty one, then always attaches a fresh signature and its timestamp.
      A failing store never aborts the request. */
  method OnRequest(config: RequestConfig, store: Store.CommonStore?, md5: string -> string,
                   nowMillis: int, draws: seq<real>) returns (result: RequestConfig)
    requires IsTimeValue(nowMillis) && AreDraws(draws)
    modifies config
    ensures result == config
    ensures config.headers
         == AttachHeaders(old(config.headers), ReadToken(store), GenerateSignature(md5, nowMillis, draws))
  {
    var token := ReadToken(store);
    if HasToken(token) {
      config.headers := config.headers[TokenHeader := token.value];
    }
    var stamp := GenerateSignature(md5, nowMillis, draws);
    config.headers := config.headers[SignatureHeader := stamp.signature];
    config.headers := config.headers[TimestampHeader := stamp.timestamp];
    result := config;
  }

  /** `response.data.code === 50014`. */
  predicate SignalsExpiredSession(data: Json) {
    data.JObject? && "code" in data.fields && data.fields["code"] == JNumber(ExpiredCode)
  }

  /** `error.response && error.response.status === 401`. */
  predicate IsUnauthorized(error: HttpError) {
    error.response.Some? && error.response.value.status == UnauthorizedStatus
  }

  /** What the success handler hands on, given whether the store loads. */
  function FulfilledOutcome(storeAvailable: bool, response: Response): (r: Outcome)
    ensures r.Resolved? ==> r.response == response
    ensures r == Rejected(NullData) <==> response.data == JNull
    ensures r == Rejected(StoreUnavailable) <==> SignalsExpiredSession(response.data) && !storeAvailable
    ensures r.Resolved? <==> response.data != JNull && !(SignalsExpiredSession(response.data) && !storeAvailable)
  {
    if response.data == JNull then Rejected(NullData)
    else if SignalsExpiredSession(response.data) && !storeAvailable then Rejected(StoreUnavailable)
    else Resolved(response)
  }

  /** The session after the success handler, when the store loads. */
  function FulfilledEffect(s: Session.State, response: Response, c: Codec): Session.State {
    if SignalsExpiredSession(response.data) then Session.Invalidate(s, c) else s
  }

  /** The session after the failure handler, when the store loads. */
  function RejectedEffect(s: Session.State, error: HttpError, c: Codec): Session.State {
    if IsUnauthorized(error) then Session.Invalidate(s, c) else s
  }

  /** Runs the invalidation event on the store: clear the token, log out, raise
      the login prompt. */
  method InvalidateSession(store: Store.CommonStore)
    requires store.Valid()
    modifies store
    ensures store.Valid()
    ensures store.Snapshot() == Session.Invalidate(old(store.Snapshot()), store.codec)
  {
    store.ClearToken();
    store.SetLoginState(false);
    store.SetIsShowLoginModal(true);
  }

  /** The response interceptor's success handler. A body code of 50014
      invalidates the session and still resolves with the response unchanged. */
  method OnFulfilled(store: Store.CommonStore?, response: Response) returns (outcome: Outcome)
    requires store != null ==> store.Valid()
    modifies store
    ensures outcome == FulfilledOutcome(store != null, response)
    ensures store != null ==>
      store.Valid() && store.Snapshot() == FulfilledEffect(old(store.Snapshot()), response, store.codec)
  {
    if response.data == JNull {
      return Rejected(NullData);
    }
    if SignalsExpiredSession(response.data) {
      if store == null {
        return Rejected(StoreUnavailable);
      }
      InvalidateSession(store);
    }
    return Resolved(response);
  }

  /** The response interceptor's failure handler. A 401 invalidates the session
      when the store loads; the error is rejected in every case. */
  method OnRejected(store: Store.CommonStore?, error: HttpError) returns (outcome: Outcome)
    requires store != null ==> store.Valid()
    modifies store
    ensures outcome == Rejected(Transport(error))
    ensures store != null ==>
      store.Valid() && store.Snapshot() == RejectedEffect(old(store.Snapshot()), error, store.codec)
  {
    if IsUnauthorized(error) && store != null {
      InvalidateSession(store);
    }
    return Rejected(Transport(error));
  }

  /** A 50014 body leaves no token, `{}` user info and the prompt raised, and
      the caller still receives the response; any other non-null body leaves the
      session as it was and resolves. */
  lemma FulfilledContract(s: Session.State, response: Response, c: Codec)
    requires Lawful(c) && response.data != JNull
    ensures SignalsExpiredSession(response.data) ==>
      var t := FulfilledEffect(s, response, c);
      t.token == "" && t.userInfo == EmptyObject && t.isShowLoginModal
    ensures !SignalsExpiredSession(response.data) ==> FulfilledEffect(s, response, c) == s
    ensures FulfilledOutcome(true, response) == Resolved(response)
  {
    Session.InvalidateEffect(s, c);
  }

  /** A 401 leaves no token, `{}` user info and the prompt raised; an error
      with no response or another status leaves the session as it was. */
  lemma RejectedContract(s: Session.State, error: HttpError, c: Codec)
    requires Lawful(c)
    ensures IsUnauthorized(error) ==>
      var t := RejectedEffect(s, error, c);
      t.token == "" && t.userInfo == EmptyObject && t.isShowLoginModal
    ensures !IsUnauthorized(error) ==> RejectedEffect(s, error, c) == s
  {
    Session.InvalidateEffect(s, c);
  }

  /** Two in-flight requests that both fail for an expired session, by a 50014
      body or a 401, leave the session as one of them alone would, in either
      order. */
  lemma InvalidationsCommute(s: Session.State, response: Response, error: HttpError, c: Codec)
    requires Lawful(c) && SignalsExpiredSession(response.data) && IsUnauthorized(error)
    ensures RejectedEffect(FulfilledEffect(s, response, c), error, c) == FulfilledEffect(s, response, c)
    ensures FulfilledEffect(RejectedEffect(s, error, c), response, c) == RejectedEffect(s, error, c)
    ensures FulfilledEffect(s, response, c) == RejectedEffect(s, error, c)
  {
    Session.InvalidateIdempotent(s, c);
  }

  /** Either handler keeps storage mirroring memory. */
  lemma HandlersMirror(s: Session.State, response: Response, error: HttpError, c: Codec)
    requires Lawful(c) && Session.Mirrors(s, c)
    ensures Session.Mirrors(FulfilledEffect(s, response, c), c)
    ensures Session.Mirrors(RejectedEffect(s, error, c), c)
  {
    var ops := [Session.ClearToken, Session.SetLoginState(false), Session.SetIsShowLoginModal(true)];
    Session.InvalidateIsRun(s, c);
    Session.RunMirrors(s, ops, c);
  }
}
