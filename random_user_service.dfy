/**
 * `RandomUserService`: every call issues a fresh request and returns the first
 * element of the response's `results` list. Transport failures are retried
 * with a linear backoff; every other failure is surfaced at once. The service
 * keeps no state between calls.
 */
module RandomUser {
  import opened Wrappers
  import opened Users
  import opened UserService

  const MAX_RETRIES: nat := 3

  /**
   * The retry loop from the iteration with the given `retryCount` on;
   * `requests` and `delays` count only what happens from there on. A reply
   * `Decoded(None)` stands for a null response or a null `results` list. The
   * first branch is the throw after the loop.
   */
  function Loop(reply: nat -> Reply, retryCount: nat): (c: Call)
    ensures retryCount < MAX_RETRIES ==> 1 <= c.requests <= MAX_RETRIES - retryCount
    ensures |c.delays| == if c.requests == 0 then 0 else c.requests - 1
    decreases MAX_RETRIES - retryCount
  {
    if MAX_RETRIES <= retryCount then Call(Failure(GaveUp), 0, [])
    else match reply(retryCount)
      case Transport =>
        if MAX_RETRIES <= retryCount + 1 then Call(Failure(ConnectionFailed(MAX_RETRIES)), 1, [])
        else
          var rest := Loop(reply, retryCount + 1);
          Call(rest.result, rest.requests + 1, [BackoffDelay(retryCount + 1)] + rest.delays)
      case MalformedJson => Call(Failure(Unexpected(JsonMalformed)), 1, [])
      case Raised => Call(Failure(Unexpected(Foreign)), 1, [])
      case Decoded(results) =>
        if results.Some? && results.value != [] then Call(Success(results.value[0]), 1, [])
        else Call(Failure(Unexpected(NoValidData)), 1, [])
  }

  /** One whole call of `GetRandomUserAsync`, starting from `retryCount = 0`. */
  function Outcome(reply: nat -> Reply): (c: Call)
    ensures 1 <= c.requests <= MAX_RETRIES
  {
    Loop(reply, 0)
  }

  /** `c` extended by `requests` earlier requests and the `delays` awaited after them. */
  function After(requests: nat, delays: seq<nat>, c: Call): (c': Call)
  {
    Call(c.result, requests + c.requests, delays + c.delays)
  }

  /**
   * How the request that ends a call settles it: `answer` is what that
   * request yielded, `issued` the number of requests issued by then. A JSON
   * error has no handler of its own here and reaches the generic one.
   */
  predicate SettledBy(answer: Reply, issued: nat, c: Call)
  {
    match answer
    case Transport => issued == MAX_RETRIES && c.result == Failure(ConnectionFailed(MAX_RETRIES))
    case MalformedJson => c.result == Failure(Unexpected(JsonMalformed))
    case Raised => c.result == Failure(Unexpected(Foreign))
    case Decoded(results) =>
      && (results.Some? && results.value != [] ==> c.result == Success(results.value[0]))
      && (results.None? || results.value == [] ==> c.result == Failure(Unexpected(NoValidData)))
  }

  /**
   * From any iteration on: every request but the last one failed in
   * transport, each of those was followed by a delay of 1000 ms times its
   * retry number, and the last request settles the call.
   */
  lemma {:induction false} LoopShape(reply: nat -> Reply, k: nat)
    requires k < MAX_RETRIES
    ensures var c := Loop(reply, k);
      && 1 <= c.requests <= MAX_RETRIES - k
      && |c.delays| == c.requests - 1
      && (forall i :: 0 <= i < |c.delays| ==> c.delays[i] == BackoffDelay(k + i + 1))
      && (forall j :: k <= j < k + c.requests - 1 ==> reply(j) == Transport)
      && SettledBy(reply(k + c.requests - 1), k + c.requests, c)
    decreases MAX_RETRIES - k
  {
    if reply(k) == Transport && k + 1 < MAX_RETRIES {
      LoopShape(reply, k + 1);
    }
  }

  /**
   * Every call issues a fresh request, at most `MAX_RETRIES` in all, and waits
   * 1000 ms, then 2000 ms, ... between consecutive requests, never after the
   * last one.
   */
  lemma RequestsAndBackoff(reply: nat -> Reply)
    ensures var c := Outcome(reply);
      && 1 <= c.requests <= MAX_RETRIES
      && c.delays == Schedule(c.requests - 1)
  {
    LoopShape(reply, 0);
  }

  /**
   * Only transport failures are retried: every request of a call but its
   * last failed in transport, and a call whose first request yields anything
   * else issues that one request, waits for nothing and is settled by it.
   */
  lemma RetriesOnlyTransport(reply: nat -> Reply)
    ensures var c := Outcome(reply);
      && (forall j :: 0 <= j < c.requests - 1 ==> reply(j) == Transport)
      && (reply(0) != Transport ==> c.requests == 1 && c.delays == [] && SettledBy(reply(0), 1, c))
      && SettledBy(reply(c.requests - 1), c.requests, c)
  {
    LoopShape(reply, 0);
  }

  /**
   * A call surfaces the connection error exactly when its three requests all
   * fail in transport; it then waited 1000 ms and 2000 ms.
   */
  lemma ConnectionFailedIff(reply: nat -> Reply)
    ensures var c := Outcome(reply);
      && (c.result == Failure(ConnectionFailed(MAX_RETRIES))
          <==> reply(0) == Transport && reply(1) == Transport && reply(2) == Transport)
      && (c.result == Failure(ConnectionFailed(MAX_RETRIES))
          ==> c.requests == MAX_RETRIES && c.delays == [1000, 2000])
  {
    LoopShape(reply, 0);
    var c := Outcome(reply);
    if c.result == Failure(ConnectionFailed(MAX_RETRIES)) {
      assert reply(c.requests - 1) == Transport;
    }
  }

  /**
   * A call returns a user exactly when its last request brought a non-empty
   * `results` list, and the user is that list's first element.
   */
  lemma FirstResult(reply: nat -> Reply)
    ensures var c := Outcome(reply);
      c.result.Success? <==>
        (var last := reply(c.requests - 1);
         && last.Decoded? && last.users.Some? && last.users.value != []
         && c.result.value == last.users.value[0])
  {
    LoopShape(reply, 0);
  }

  /** The throw after the retry loop is never reached. */
  lemma NeverFallsThrough(reply: nat -> Reply)
    ensures Outcome(reply).result != Failure(GaveUp)
  {
    LoopShape(reply, 0);
  }

  /**
   * `GetRandomUserAsync`. The k-th HTTP request of this call yields
   * `reply(k)`. Besides the result, the call reports how many requests it
   * issued and the delays it awaited.
   */
  method GetRandomUser(reply: nat -> Reply) returns (r: Result<User, ServiceError>, requests: nat, delays: seq<nat>)
    ensures Call(r, requests, delays) == Outcome(reply)
  {
    var retryCount: nat := 0;
    requests, delays := 0, [];
    while retryCount < MAX_RETRIES
      invariant retryCount <= MAX_RETRIES
      invariant requests == retryCount && delays == Schedule(retryCount)
      invariant Outcome(reply) == After(requests, delays, Loop(reply, retryCount))
      decreases MAX_RETRIES - retryCount
    {
      var answer := reply(requests);
      requests := requests + 1;
      match answer {
        case Transport =>
          retryCount := retryCount + 1;
          if retryCount >= MAX_RETRIES {
            r := Failure(ConnectionFailed(MAX_RETRIES));
            return;
          }
          delays := delays + [BackoffDelay(retryCount)];
        case MalformedJson =>
          r := Failure(Unexpected(JsonMalformed));
          return;
        case Raised =>
          r := Failure(Unexpected(Foreign));
          return;
        case Decoded(results) =>
          if results.Some? && results.value != [] {
            r := Success(results.value[0]);
            return;
          }
          r := Failure(Unexpected(NoValidData));
          return;
      }
    }
    r := Failure(GaveUp);
  }
}
