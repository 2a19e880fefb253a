/**
 * The shared request helpers of the src/ client (src/services/ApiService.js):
 * the retry loop, the reading of a response, the common error handler and
 * the storage cleanup on logout.  A request is a parameter: attempt `i` of
 * `requestFn` settles as `attempt(i)`; waiting is recorded, not performed.
 */
module ApiService {
  import opened Wrappers
  import opened Json
  import opened Browser

  // ---------------------------------------------------------------------------
  // retryRequest
  // ---------------------------------------------------------------------------

  /** How one call of `requestFn` settles. */
  datatype Attempt = Succeeded(value: Json) | Failed(error: Json)

  /** How retryRequest settles: with a value, with an error, or with `undefined` after no call at all. */
  datatype Retried = Returned(value: Json) | Threw(error: Json) | Undefined

  /** The index of the first successful attempt below `n`, if any. */
  function FirstSuccess(attempt: nat -> Attempt, n: nat): (r: Option<nat>)
    ensures r.Some? ==> r.value < n && attempt(r.value).Succeeded?
    ensures r.Some? ==> forall i :: 0 <= i < r.value ==> attempt(i).Failed?
    ensures r.None? ==> forall i :: 0 <= i < n ==> attempt(i).Failed?
  {
    if n == 0 then None
    else
      var before := FirstSuccess(attempt, n - 1);
      if before.Some? then before
      else if attempt(n - 1).Succeeded? then Some(n - 1)
      else None
  }

  /** The waits before retries 2, 3, ..., `count` + 1: delay * 1, delay * 2, .... */
  function Waits(delay: int, count: nat): (r: seq<int>)
    ensures |r| == count
    ensures forall i :: 0 <= i < count ==> r[i] == delay * (i + 1)
  {
    if count == 0 then [] else Waits(delay, count - 1) + [delay * count]
  }

  /** What retryRequest settles with after at most `maxRetries` attempts. */
  function RetryOutcome(attempt: nat -> Attempt, maxRetries: int): Retried {
    if maxRetries <= 0 then Undefined
    else match FirstSuccess(attempt, maxRetries)
      case Some(k) => Returned(attempt(k).value)
      case None => Threw(attempt(maxRetries - 1).error)
  }

  /** How many times requestFn is called. */
  function CallCount(attempt: nat -> Attempt, maxRetries: int): nat {
    if maxRetries <= 0 then 0
    else match FirstSuccess(attempt, maxRetries)
      case Some(k) => k + 1
      case None => maxRetries
  }

  /**
   * retryRequest: calls requestFn until one call succeeds or maxRetries calls
   * have failed, waiting delay * (i + 1) after failed attempt i unless it was
   * the last.
   */
  method RetryRequest(attempt: nat -> Attempt, maxRetries: int, delay: int)
    returns (r: Retried, calls: nat, waits: seq<int>)
    ensures r == RetryOutcome(attempt, maxRetries)
    ensures calls == CallCount(attempt, maxRetries)
    ensures waits == Waits(delay, if calls == 0 then 0 else calls - 1)
  {
    calls, waits := 0, [];
    var i := 0;
    while i < maxRetries
      invariant 0 <= i && (maxRetries > 0 ==> i < maxRetries) && (maxRetries <= 0 ==> i == 0)
      invariant FirstSuccess(attempt, i).None?
      invariant calls == i && waits == Waits(delay, i)
    {
      calls := calls + 1;
      var outcome := attempt(i);
      if outcome.Succeeded? {
        assert FirstSuccess(attempt, i + 1) == Some(i);
        FirstSuccessExtends(attempt, i + 1, maxRetries);
        return Returned(outcome.value), calls, waits;
      }
      if i == maxRetries - 1 {
        assert FirstSuccess(attempt, maxRetries).None?;
        return Threw(outcome.error), calls, waits;
      }
      waits := waits + [delay * (i + 1)];
      i := i + 1;
    }
    r := Undefined;
  }

  /** A first success below `n` stays the first success below any larger bound. */
  lemma {:induction false} FirstSuccessExtends(attempt: nat -> Attempt, n: nat, m: nat)
    requires n <= m && FirstSuccess(attempt, n).Some?
    ensures FirstSuccess(attempt, m) == FirstSuccess(attempt, n)
    decreases m - n
  {
    if n < m {
      FirstSuccessExtends(attempt, n, m - 1);
    }
  }

  /**
   * The retry loop never calls more than maxRetries times, returns the first
   * success, throws the last failure when every call failed, and never calls
   * at all when maxRetries is not positive.
   */
  lemma RetryMeaning(attempt: nat -> Attempt, maxRetries: int)
    ensures CallCount(attempt, maxRetries) <= (if maxRetries <= 0 then 0 else maxRetries)
    ensures maxRetries <= 0 ==> RetryOutcome(attempt, maxRetries) == Undefined && CallCount(attempt, maxRetries) == 0
    ensures RetryOutcome(attempt, maxRetries).Returned? ==>
      var k := CallCount(attempt, maxRetries) - 1;
      && attempt(k) == Succeeded(RetryOutcome(attempt, maxRetries).value)
      && forall i :: 0 <= i < k ==> attempt(i).Failed?
    ensures RetryOutcome(attempt, maxRetries).Threw? ==>
      && CallCount(attempt, maxRetries) == maxRetries
      && (forall i :: 0 <= i < maxRetries ==> attempt(i).Failed?)
      && RetryOutcome(attempt, maxRetries).error == attempt(maxRetries - 1).error
  {
  }

  // ---------------------------------------------------------------------------
  // handleResponse
  // ---------------------------------------------------------------------------

  /** A fetch response: `body` is what `response.json()` resolves with, None when it rejects. */
  datatype HttpResponse = HttpResponse(ok: bool, status: int, statusText: string, body: Option<Json>)

  /** How handleResponse settles: the parsed body, the error object it throws, or a runtime error. */
  datatype Handled = Resolved(value: Json) | Thrown(error: Json) | RuntimeError

  /** The object thrown for a response that is not ok. */
  function ApiFailure(response: HttpResponse, errorData: Json, serviceName: string): Json {
    var message := Get(errorData, "message");
    JObj([Member("status", JNum(response.status)),
          Member("statusText", JStr(response.statusText)),
          Member("message", if Truthy(message) then message.value else JStr(serviceName + " 요청 실패")),
          Member("data", errorData)])
  }

  /**
   * handleResponse.  A body that does not parse counts as `{}` on the error
   * path; an error body of `null` makes reading its message throw.
   */
  function HandleResponse(response: HttpResponse, serviceName: string): Handled {
    if !response.ok then
      var errorData := response.body.GetOr(JObj([]));
      if errorData == JNull then RuntimeError
      else Thrown(ApiFailure(response, errorData, serviceName))
    else if response.body.Some? then Resolved(response.body.value)
    else RuntimeError
  }

  /**
   * An ok response resolves with its body; a response that is not ok throws
   * an object carrying its status and status text, the server's message when
   * that is truthy and otherwise "<service> 요청 실패", and the error body.
   */
  lemma HandleResponseMeaning(response: HttpResponse, serviceName: string)
    ensures response.ok && response.body.Some? ==> HandleResponse(response, serviceName) == Resolved(response.body.value)
    ensures !response.ok && response.body != Some(JNull) ==>
      var e := HandleResponse(response, serviceName);
      var errorData := response.body.GetOr(JObj([]));
      && e.Thrown?
      && Get(e.error, "status") == Some(JNum(response.status))
      && Get(e.error, "statusText") == Some(JStr(response.statusText))
      && Get(e.error, "data") == Some(errorData)
      && Truthy(Get(e.error, "message"))
      && (Truthy(Get(errorData, "message")) ==> Get(e.error, "message") == Get(errorData, "message"))
      && (!Truthy(Get(errorData, "message")) ==> Get(e.error, "message") == Some(JStr(serviceName + " 요청 실패")))
  {
    assert |"status"| == 6 && |"statusText"| == 10 && |"message"| == 7 && |"data"| == 4;
    if !response.ok && response.body != Some(JNull) {
      var errorData := response.body.GetOr(JObj([]));
      var e := ApiFailure(response, errorData, serviceName);
      assert HandleResponse(response, serviceName) == Thrown(e);
      assert DistinctKeys(e.members);
      LookupAt(e.members, 1);
      LookupAt(e.members, 2);
      LookupAt(e.members, 3);
      assert |serviceName + " 요청 실패"| > 0;
    }
  }

  // ---------------------------------------------------------------------------
  // handleError and logout
  // ---------------------------------------------------------------------------

  /** The entries logout removes. */
  const SessionKeys: set<string> := {"accessToken", "backendAccessToken", "idToken", "refreshToken"}

  /** How handleError ends: it throws the error it was given, or a TypeError when that error is null or undefined. */
  datatype Rethrow = Rethrown(error: Json) | TypeErrorThrown

  class Service {
    const storage: LocalStorage

    constructor (storage: LocalStorage)
      ensures this.storage == storage
    {
      this.storage := storage;
    }

    /**
     * logout: the user service's own logout is awaited through allSettled,
     * which never rejects; then the four session entries are removed and the
     * answer is true.
     */
    method Logout() returns (done: bool)
      modifies storage
      ensures storage.items == old(storage.items) - SessionKeys
      ensures done
    {
      storage.RemoveItem("accessToken");
      storage.RemoveItem("backendAccessToken");
      storage.RemoveItem("idToken");
      storage.RemoveItem("refreshToken");
      assert storage.items == old(storage.items) - {"accessToken"} - {"backendAccessToken"} - {"idToken"} - {"refreshToken"};
      done := true;
    }

    /**
     * handleError: always throws; only a 401 starts a token refresh.  The
     * refresh calls `refreshToken` on the AuthService module, which has no
     * such member, so it fails and logs out: the session entries go.
     */
    method HandleError(error: Json) returns (thrown: Rethrow, refreshed: bool)
      modifies storage
      ensures error == JNull ==> thrown == TypeErrorThrown && !refreshed && storage.items == old(storage.items)
      ensures error != JNull ==> thrown == Rethrown(error)
      ensures refreshed <==> error != JNull && Get(error, "status") == Some(JNum(401))
      ensures refreshed ==> storage.items == old(storage.items) - SessionKeys
      ensures !refreshed ==> storage.items == old(storage.items)
    {
      if error == JNull {
        return TypeErrorThrown, false;
      }
      refreshed := Get(error, "status") == Some(JNum(401));
      if refreshed {
        var _ := Logout();
      }
      thrown := Rethrown(error);
    }
  }
}
