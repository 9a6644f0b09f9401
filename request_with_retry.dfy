/**
 * `requestWithRetry` (frontend/src/utils/requestWithRetry.js): a `fetch` with the stored
 * JWT added as a bearer token, retried with exponential backoff on network errors and
 * 5xx statuses.
 *
 * The network is a parameter: `fetch(k)` is what the k-th attempt (counting from 1) gives.
 * The waits are returned rather than slept; the stored token is a parameter.
 */
module RequestWithRetry {
  import opened Base
  import opened Js

  const DefaultRetries: int := 3
  const DefaultBackoff: nat := 500
  const AuthorizationHeader: string := "Authorization"
  const BearerPrefix: string := "Bearer "
  const ServerErrorPrefix: string := "Server-Error "

  /** The fetch options the wrapper cares about: the method and the headers object, if any; the body is opaque. */
  datatype Options = Options(httpMethod: string, headers: Option<map<string, string>>, body: seq<int>)

  /** What one `fetch` call gives: a response with its status, or a thrown (network) error. */
  datatype Fetched = Response(status: int) | NetworkError(message: string)

  /** How the returned promise settles; with no attempt at all it resolves to `undefined`. */
  datatype Outcome = Resolved(status: int) | Rejected(message: string) | ResolvedUndefined

  /** `localStorage.getItem('token')` is truthy. */
  predicate HasToken(storedToken: Option<string>)
  {
    storedToken.Some? && storedToken.value != ""
  }

  /**
   * The headers sent: a copy of the caller's (or none), with the bearer token set when a
   * token is stored. The caller's map, being a value, stays as it was.
   */
  function AugmentHeaders(headers: Option<map<string, string>>, storedToken: Option<string>): (h: map<string, string>)
    ensures var given := if headers.Some? then headers.value else map[];
            (HasToken(storedToken) ==> AuthorizationHeader in h && h[AuthorizationHeader] == BearerPrefix + storedToken.value)
            && (!HasToken(storedToken) ==> h == given)
            && (forall k :: k in given && k != AuthorizationHeader ==> k in h && h[k] == given[k])
            && (forall k :: k in h && k != AuthorizationHeader ==> k in given)
  {
    var given := if headers.Some? then headers.value else map[];
    if HasToken(storedToken) then given[AuthorizationHeader := BearerPrefix + storedToken.value] else given
  }

  /** The options sent: everything of the caller's, with the augmented headers. */
  function SentOptions(options: Options, storedToken: Option<string>): (o: Options)
    ensures o.httpMethod == options.httpMethod && o.body == options.body
    ensures o.headers == Some(AugmentHeaders(options.headers, storedToken))
  {
    options.(headers := Some(AugmentHeaders(options.headers, storedToken)))
  }

  /** The error the `try` block throws for an attempt, or `None` when the response is returned. */
  function Failure(f: Fetched): (e: Option<string>)
    ensures f.Response? ==> (e.Some? <==> 500 <= f.status < 600)
    ensures f.Response? && e.Some? ==> e.value == ServerErrorPrefix + IntToString(f.status)
    ensures f.NetworkError? ==> e == Some(f.message)
  {
    match f
    case NetworkError(m) => Some(m)
    case Response(s) => if 500 <= s < 600 then Some(ServerErrorPrefix + IntToString(s)) else None
  }

  function Pow2(k: nat): (p: nat)
    ensures p >= 1
  {
    if k == 0 then 1 else 2 * Pow2(k - 1)
  }

  /** How the loop settles from attempt `attempt` on. */
  function RetryFrom(attempt: nat, retries: int, fetch: nat -> Fetched): Outcome
    decreases retries - attempt
  {
    if attempt > retries then ResolvedUndefined
    else
      match Failure(fetch(attempt))
      case None => Resolved(fetch(attempt).status)
      case Some(m) => if attempt == retries then Rejected(m) else RetryFrom(attempt + 1, retries, fetch)
  }

  /** How many `fetch` calls the loop makes from attempt `attempt` on. */
  function CallsFrom(attempt: nat, retries: int, fetch: nat -> Fetched): nat
    decreases retries - attempt
  {
    if attempt > retries then 0
    else if Failure(fetch(attempt)).None? || attempt == retries then 1
    else 1 + CallsFrom(attempt + 1, retries, fetch)
  }

  /**
   * From attempt `a`: the loop makes no more calls than attempts remain; every call but
   * the last failed; a resolution is the last call's non-5xx response; a rejection comes
   * from the final attempt and carries its error; `undefined` only when no attempt remains.
   */
  lemma {:induction false} RetryFromSpec(a: nat, retries: int, fetch: nat -> Fetched)
    ensures var n := CallsFrom(a, retries, fetch);
            var o := RetryFrom(a, retries, fetch);
            (a > retries ==> n == 0 && o == ResolvedUndefined)
            && (a <= retries ==> 1 <= n <= retries - a + 1)
            && (forall k :: a <= k < a + n - 1 ==> Failure(fetch(k)).Some?)
            && (o.Resolved? ==> n >= 1 && Failure(fetch(a + n - 1)).None? && fetch(a + n - 1) == Response(o.status))
            && (o.Rejected? ==> n >= 1 && a + n - 1 == retries && Failure(fetch(retries)) == Some(o.message))
            && (o.ResolvedUndefined? ==> a > retries)
    decreases retries - a
  {
    if a <= retries && Failure(fetch(a)).Some? && a != retries {
      RetryFromSpec(a + 1, retries, fetch);
    }
  }

  /** A status outside 500..599 on the first attempt (a 4xx included) is returned at once. */
  lemma NonServerErrorReturnedAtOnce(retries: int, fetch: nat -> Fetched)
    requires retries >= 1 && fetch(1).Response? && !(500 <= fetch(1).status < 600)
    ensures RetryFrom(1, retries, fetch) == Resolved(fetch(1).status)
    ensures CallsFrom(1, retries, fetch) == 1
  {
  }

  /** One turn of the loop, spelled out for the method below. */
  lemma RetryStep(a: nat, retries: int, fetch: nat -> Fetched)
    requires a <= retries
    ensures Failure(fetch(a)).None? ==>
              RetryFrom(a, retries, fetch) == Resolved(fetch(a).status) && CallsFrom(a, retries, fetch) == 1
    ensures Failure(fetch(a)).Some? && a == retries ==>
              RetryFrom(a, retries, fetch) == Rejected(Failure(fetch(a)).value) && CallsFrom(a, retries, fetch) == 1
    ensures Failure(fetch(a)).Some? && a < retries ==>
              RetryFrom(a, retries, fetch) == RetryFrom(a + 1, retries, fetch)
              && CallsFrom(a, retries, fetch) == 1 + CallsFrom(a + 1, retries, fetch)
  {
  }

  /**
   * `requestWithRetry(url, options, retries, backoff)`. Returns how the promise settles,
   * the options sent, the number of `fetch` calls and the waits between them: before
   * attempt k + 1 the wait is `backoff * 2^(k - 1)`.
   */
  method Request(options: Options, storedToken: Option<string>, retries: int, backoff: nat, fetch: nat -> Fetched)
    returns (outcome: Outcome, sent: Options, calls: nat, waits: seq<nat>)
    ensures sent == SentOptions(options, storedToken)
    ensures outcome == RetryFrom(1, retries, fetch)
    ensures calls == CallsFrom(1, retries, fetch)
    ensures calls <= if retries > 0 then retries else 0
    ensures |waits| == if calls > 0 then calls - 1 else 0
    ensures forall k :: 0 <= k < |waits| ==> waits[k] == backoff * Pow2(k)
  {
    sent := SentOptions(options, storedToken);
    RetryFromSpec(1, retries, fetch);
    calls := 0;
    waits := [];
    var attempt: nat := 1;
    while attempt <= retries
      invariant 1 <= attempt && calls == attempt - 1
      invariant attempt <= retries + 1 || (attempt == 1 && retries < 1)
      invariant RetryFrom(attempt, retries, fetch) == RetryFrom(1, retries, fetch)
      invariant calls + CallsFrom(attempt, retries, fetch) == CallsFrom(1, retries, fetch)
      invariant |waits| == calls && forall k :: 0 <= k < |waits| ==> waits[k] == backoff * Pow2(k)
      decreases retries - attempt
    {
      var got := fetch(attempt);
      calls := calls + 1;
      RetryStep(attempt, retries, fetch);
      var err := Failure(got);
      if err.None? {
        return Resolved(got.status), sent, calls, waits;
      }
      if attempt == retries {
        return Rejected(err.value), sent, calls, waits;
      }
      waits := waits + [backoff * Pow2(attempt - 1)];
      attempt := attempt + 1;
    }
    outcome := ResolvedUndefined;
  }

  /** The defaults: three attempts in all, waits of 500 ms and 1000 ms between them. */
  lemma DefaultSchedule(fetch: nat -> Fetched)
    ensures CallsFrom(1, DefaultRetries, fetch) <= 3
    ensures DefaultBackoff * Pow2(0) == 500 && DefaultBackoff * Pow2(1) == 1000
  {
    RetryFromSpec(1, DefaultRetries, fetch);
  }
}
