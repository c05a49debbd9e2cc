/**
 * `NetworkService.fetchWithRetry` of network.js: one request, and on any
 * failure a fixed wait followed by a retry with a budget one smaller, until
 * the budget is spent.  The network is given as the reply each attempt would
 * get, attempt 0 being the first.
 */
module Network {

  import opened Wrappers

  /** The default retry budget (`retries = 3`). */
  const DefaultRetries: nat := 3

  /** The wait before each retry, in milliseconds. */
  const RetryDelayMs: nat := 2000

  /** The body as `response.json()` sees it. */
  datatype Body<T> = Malformed(cause: string) | Json(value: T)

  /** The outcome of one `fetch`: it throws, or a response with a status and a body. */
  datatype Reply<T> = Unreachable(cause: string) | Responded(status: nat, body: Body<T>)

  /** The error an attempt throws. */
  datatype Failure = NetworkError(cause: string) | HttpError(status: nat) | ParseError(cause: string)

  /** `response.ok`: a status in the range 200-299. */
  predicate IsOk(status: nat)
  {
    200 <= status <= 299
  }

  /** The try block of one attempt: the parsed body, or the error it throws. */
  function Attempt<T>(reply: Reply<T>): (r: Result<T, Failure>)
    ensures r.Ok? <==> reply.Responded? && IsOk(reply.status) && reply.body.Json?
  {
    match reply
    case Unreachable(cause) => Err(NetworkError(cause))
    case Responded(status, body) =>
      if !IsOk(status) then Err(HttpError(status))
      else if body.Malformed? then Err(ParseError(body.cause))
      else Ok(body.value)
  }

  /** What a call produces: its value or rethrown error, and how many attempts and waits it made. */
  datatype Outcome<T> = Outcome(result: Result<T, Failure>, attempts: nat, waits: nat)

  /**
   * `fetchWithRetry` starting at attempt number `first` with budget
   * `retries`.  It makes between 1 and retries + 1 attempts, waits once
   * before each but the first, returns (or throws) what its last attempt
   * gave, every attempt before the last failed, and it stops before the
   * budget is spent only on a success.
   */
  function FetchWithRetry<T>(net: nat -> Reply<T>, first: nat, retries: nat): (o: Outcome<T>)
    ensures 1 <= o.attempts <= retries + 1
    ensures o.waits == o.attempts - 1
    ensures o.result == Attempt(net(first + o.attempts - 1))
    ensures forall k :: first <= k < first + o.attempts - 1 ==> Attempt(net(k)).Err?
    ensures o.attempts <= retries ==> o.result.Ok?
    decreases retries
  {
    var r := Attempt(net(first));
    if r.Ok? || retries == 0 then
      Outcome(r, 1, 0)
    else
      var rest := FetchWithRetry(net, first + 1, retries - 1);
      Outcome(rest.result, rest.attempts + 1, rest.waits + 1)
  }

  /** The time a call spends waiting between attempts. */
  function WaitedMs<T>(o: Outcome<T>): nat
  {
    o.waits * RetryDelayMs
  }

  /** A first attempt that succeeds is returned as it is, with no wait. */
  lemma FirstAttemptSucceeds<T>(net: nat -> Reply<T>, retries: nat, v: T)
    requires net(0).Responded? && IsOk(net(0).status) && net(0).body == Json(v)
    ensures FetchWithRetry(net, 0, retries) == Outcome(Ok(v), 1, 0)
  {
  }

  /**
   * When every attempt fails, a budget r gives r + 1 attempts and r waits of
   * 2000 ms, and the error thrown is the last attempt's.
   */
  lemma AllAttemptsFail<T>(net: nat -> Reply<T>, retries: nat)
    requires forall k: nat :: k <= retries ==> Attempt(net(k)).Err?
    ensures FetchWithRetry(net, 0, retries).attempts == retries + 1
    ensures WaitedMs(FetchWithRetry(net, 0, retries)) == retries * RetryDelayMs
    ensures FetchWithRetry(net, 0, retries).result == Attempt(net(retries))
  {
    var o := FetchWithRetry(net, 0, retries);
    var last: nat := o.attempts - 1;
    assert o.result == Attempt(net(last));
    assert o.result.Err?;
  }

  /** With the default budget an always-failing network sees four attempts and three waits. */
  lemma DefaultBudgetAllFail<T>(net: nat -> Reply<T>)
    requires forall k: nat :: k <= DefaultRetries ==> Attempt(net(k)).Err?
    ensures FetchWithRetry(net, 0, DefaultRetries).attempts == 4
    ensures FetchWithRetry(net, 0, DefaultRetries).waits == 3
  {
    AllAttemptsFail(net, DefaultRetries);
  }

  /** If the first k attempts fail and the next succeeds, within budget, its body is returned after k waits. */
  lemma SucceedsAfterFailures<T>(net: nat -> Reply<T>, retries: nat, k: nat, v: T)
    requires k <= retries
    requires forall j: nat :: j < k ==> Attempt(net(j)).Err?
    requires Attempt(net(k)) == Ok(v)
    ensures FetchWithRetry(net, 0, retries) == Outcome(Ok(v), k + 1, k)
  {
    var o := FetchWithRetry(net, 0, retries);
    var last: nat := o.attempts - 1;
    assert o.result == Attempt(net(last));
  }

  /** Two replies that give the same result, or that both make the attempt fail. */
  ghost predicate AlikeReplies<T>(r1: Reply<T>, r2: Reply<T>)
  {
    Attempt(r1) == Attempt(r2) || (Attempt(r1).Err? && Attempt(r2).Err?)
  }

  /**
   * Two networks that differ only in HOW failing attempts fail (a bad
   * status, an unreachable host or an unparsable body) see the same
   * attempts and waits, and the same result unless it is the final error.
   */
  lemma FailuresHandledAlike<T>(net1: nat -> Reply<T>, net2: nat -> Reply<T>, first: nat, retries: nat)
    requires forall k: nat :: first <= k <= first + retries ==> AlikeReplies(net1(k), net2(k))
    ensures FetchWithRetry(net1, first, retries).attempts == FetchWithRetry(net2, first, retries).attempts
    ensures FetchWithRetry(net1, first, retries).waits == FetchWithRetry(net2, first, retries).waits
    ensures FetchWithRetry(net1, first, retries).result.Ok? <==> FetchWithRetry(net2, first, retries).result.Ok?
    ensures FetchWithRetry(net1, first, retries).result.Ok? ==>
      FetchWithRetry(net1, first, retries).result == FetchWithRetry(net2, first, retries).result
  {
    var o1, o2 := FetchWithRetry(net1, first, retries), FetchWithRetry(net2, first, retries);
    var last1: nat, last2: nat := first + o1.attempts - 1, first + o2.attempts - 1;
    assert AlikeReplies(net1(last1), net2(last1));
    assert AlikeReplies(net1(last2), net2(last2));
    // A failing last attempt means the budget was spent.
    assert o1.result.Err? ==> o1.attempts == retries + 1;
    assert o2.result.Err? ==> o2.attempts == retries + 1;
    // An attempt before the other call's last one failed in that call.
    assert last1 < last2 ==> Attempt(net2(last1)).Err?;
    assert last2 < last1 ==> Attempt(net1(last2)).Err?;
    assert last1 == last2;
  }

  /** `getOptionChainData`: the retrying fetch with the default budget. */
  function GetOptionChainData<T>(net: nat -> Reply<T>): (o: Outcome<T>)
    ensures 1 <= o.attempts <= DefaultRetries + 1
    ensures WaitedMs(o) <= DefaultRetries * RetryDelayMs
  {
    FetchWithRetry(net, 0, DefaultRetries)
  }
}
