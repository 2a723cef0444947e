/**
 * `JsonPlaceholderUserService`: fetches the whole user list once, keeps it in
 * `_cachedUsers`, and answers every call with a random element of it.
 * Transport failures are retried with a linear backoff; every other failure
 * is surfaced at once.
 */
module JsonPlaceholder {
  import opened Wrappers
  import opened Users
  import opened UserService

  const MAX_RETRIES: nat := 3

  /** One call's effect: what `GetRandomUserAsync` did and what it left in the cache. */
  datatype Trace = Trace(call: Call, cache: Option<seq<User>>)

  /**
   * Lines 47-48 under the generic handler: `Random.Next(0, Count)` picks an
   * index and the list is indexed there; on an empty list the index is 0 and
   * the indexing throws, which the generic handler wraps.
   */
  function Pick(users: seq<User>, draw: nat): (r: Result<User, ServiceError>)
    ensures r.Success? <==> users != []
    ensures r.Success? ==> r.value in users
    ensures r.Failure? ==> r.error == Unexpected(IndexOutOfRange)
  {
    var i := RandomNext(|users|, draw);
    if i < |users| then Success(users[i]) else Failure(Unexpected(IndexOutOfRange))
  }

  /**
   * The retry loop from the iteration with the given `retryCount` on, with the
   * cache as it is at that iteration; `requests` and `delays` count only what
   * happens from there on. The first branch is the throw after the loop.
   */
  function Loop(cache: Option<seq<User>>, reply: nat -> Reply, draw: nat, retryCount: nat): (t: Trace)
    ensures t.call.requests <= if retryCount < MAX_RETRIES then MAX_RETRIES - retryCount else 0
    ensures |t.call.delays| == if t.call.requests == 0 then 0 else t.call.requests - 1
    ensures cache.Some? ==> t.cache == cache && t.call.requests == 0
    decreases MAX_RETRIES - retryCount
  {
    if MAX_RETRIES <= retryCount then Trace(Call(Failure(GaveUp), 0, []), cache)
    else if cache.Some? then Trace(Call(Pick(cache.value, draw), 0, []), cache)
    else match reply(retryCount)
      case Transport =>
        if MAX_RETRIES <= retryCount + 1 then
          Trace(Call(Failure(ConnectionFailed(MAX_RETRIES)), 1, []), cache)
        else
          var rest := Loop(cache, reply, draw, retryCount + 1);
          Trace(Call(rest.call.result, rest.call.requests + 1,
                     [BackoffDelay(retryCount + 1)] + rest.call.delays), rest.cache)
      case MalformedJson => Trace(Call(Failure(DeserializeFailed), 1, []), cache)
      case Raised => Trace(Call(Failure(Unexpected(Foreign)), 1, []), cache)
      case Decoded(users) =>
        if users.None? || users.value == [] then
          Trace(Call(Failure(Unexpected(NoValidData)), 1, []), users)
        else
          Trace(Call(Pick(users.value, draw), 1, []), users)
  }

  /** One whole call of `GetRandomUserAsync`, starting from `retryCount = 0`. */
  function Outcome(cache: Option<seq<User>>, reply: nat -> Reply, draw: nat): (t: Trace)
    ensures t.call.requests <= MAX_RETRIES
    ensures t.call.requests == 0 <==> cache.Some?
  {
    Loop(cache, reply, draw, 0)
  }

  /** `t` extended by `requests` earlier requests and the `delays` awaited after them. */
  function After(requests: nat, delays: seq<nat>, t: Trace): (t': Trace)
  {
    Trace(Call(t.call.result, requests + t.call.requests, delays + t.call.delays), t.cache)
  }

  /**
   * How the request that ends a call settles it: `answer` is what that
   * request yielded, `issued` the number of requests issued by then.
   */
  predicate SettledBy(answer: Reply, issued: nat, draw: nat, t: Trace)
  {
    match answer
    case Transport =>
      issued == MAX_RETRIES && t.call.result == Failure(ConnectionFailed(MAX_RETRIES)) && t.cache == None
    case MalformedJson => t.call.result == Failure(DeserializeFailed) && t.cache == None
    case Raised => t.call.result == Failure(Unexpected(Foreign)) && t.cache == None
    case Decoded(users) =>
      && t.cache == users
      && (users.None? || users.value == [] ==> t.call.result == Failure(Unexpected(NoValidData)))
      && (users.Some? && users.value != [] ==> t.call.result == Pick(users.value, draw))
  }

  /**
   * From an iteration with an empty cache on: every request but the last one
   * failed in transport, each of those was followed by a delay of 1000 ms
   * times its retry number, and the last request settles the call.
   */
  lemma {:induction false} LoopWithoutCache(reply: nat -> Reply, draw: nat, k: nat)
    requires k < MAX_RETRIES
    ensures var t := Loop(None, reply, draw, k);
      && 1 <= t.call.requests <= MAX_RETRIES - k
      && |t.call.delays| == t.call.requests - 1
      && (forall i :: 0 <= i < |t.call.delays| ==> t.call.delays[i] == BackoffDelay(k + i + 1))
      && (forall j :: k <= j < k + t.call.requests - 1 ==> reply(j) == Transport)
      && SettledBy(reply(k + t.call.requests - 1), k + t.call.requests, draw, t)
    decreases MAX_RETRIES - k
  {
    if reply(k) == Transport && k + 1 < MAX_RETRIES {
      LoopWithoutCache(reply, draw, k + 1);
    }
  }

  /**
   * A call issues at most `MAX_RETRIES` requests, none at all exactly when
   * the cache already holds a list, and waits 1000 ms, then 2000 ms, ...
   * between consecutive requests, never after the last one.
   */
  lemma RequestsAndBackoff(cache: Option<seq<User>>, reply: nat -> Reply, draw: nat)
    ensures var t := Outcome(cache, reply, draw);
      && t.call.requests <= MAX_RETRIES
      && (t.call.requests == 0 <==> cache.Some?)
      && t.call.delays == Schedule(|t.call.delays|)
      && |t.call.delays| == if cache.Some? then 0 else t.call.requests - 1
  {
    if cache.None? {
      LoopWithoutCache(reply, draw, 0);
    }
  }

  /**
   * Only transport failures are retried: every request of a call but its
   * last failed in transport, and a call whose first request yields anything
   * else (a JSON error, a null or empty list, any other exception, or a
   * list) issues that one request and waits for nothing.
   */
  lemma RetriesOnlyTransport(reply: nat -> Reply, draw: nat)
    ensures var t := Outcome(None, reply, draw);
      && (forall j :: 0 <= j < t.call.requests - 1 ==> reply(j) == Transport)
      && (reply(0) != Transport ==> t.call.requests == 1 && t.call.delays == [])
      && SettledBy(reply(t.call.requests - 1), t.call.requests, draw, t)
  {
    LoopWithoutCache(reply, draw, 0);
  }

  /**
   * A call surfaces the connection error exactly when it fetches and its
   * three requests all fail in transport; it then waited 1000 ms and 2000 ms.
   */
  lemma ConnectionFailedIff(cache: Option<seq<User>>, reply: nat -> Reply, draw: nat)
    ensures var t := Outcome(cache, reply, draw);
      && (t.call.result == Failure(ConnectionFailed(MAX_RETRIES))
          <==> cache.None? && reply(0) == Transport && reply(1) == Transport && reply(2) == Transport)
      && (t.call.result == Failure(ConnectionFailed(MAX_RETRIES))
          ==> t.call.requests == MAX_RETRIES && t.call.delays == [1000, 2000])
  {
    if cache.None? {
      LoopWithoutCache(reply, draw, 0);
      var t := Outcome(cache, reply, draw);
      if t.call.result == Failure(ConnectionFailed(MAX_RETRIES)) {
        assert reply(t.call.requests - 1) == Transport;
      }
    }
  }

  /** The throw after the retry loop is never reached. */
  lemma NeverFallsThrough(cache: Option<seq<User>>, reply: nat -> Reply, draw: nat)
    ensures Outcome(cache, reply, draw).call.result != Failure(GaveUp)
  {
    if cache.None? {
      LoopWithoutCache(reply, draw, 0);
    }
  }

  /**
   * The cache's lifecycle within one call: a list once stored is kept and
   * answers the call without a request, so a stored empty list makes every
   * later call fail; an empty cache takes whatever list the deserialiser
   * returned, even an empty one, and stays empty after a transport failure,
   * a JSON error, any other exception or a null list.
   */
  lemma CacheLifecycle(cache: Option<seq<User>>, reply: nat -> Reply, draw: nat)
    ensures var t := Outcome(cache, reply, draw);
      && (cache.Some? ==> t == Trace(Call(Pick(cache.value, draw), 0, []), cache))
      && (cache == Some([]) ==> t.call.result == Failure(Unexpected(IndexOutOfRange)))
      && (cache.None? ==>
            t.cache == match reply(t.call.requests - 1)
                       case Decoded(users) => users
                       case _ => None)
  {
    if cache.None? {
      LoopWithoutCache(reply, draw, 0);
    }
  }

  /** A user is returned only from a non-empty cached list, and is one of its elements. */
  lemma SuccessComesFromCache(cache: Option<seq<User>>, reply: nat -> Reply, draw: nat)
    ensures var t := Outcome(cache, reply, draw);
      t.call.result.Success? ==>
        t.cache.Some? && t.cache.value != [] && t.call.result.value in t.cache.value
  {
    if cache.None? {
      LoopWithoutCache(reply, draw, 0);
    }
  }

  /** The network and the random draw one call sees. */
  datatype Env = Env(reply: nat -> Reply, draw: nat)

  /** The cache after a series of calls, one per element of `envs`. */
  function CacheAfter(cache: Option<seq<User>>, envs: seq<Env>): (after: Option<seq<User>>)
    decreases |envs|
  {
    if envs == [] then cache
    else CacheAfter(Outcome(cache, envs[0].reply, envs[0].draw).cache, envs[1..])
  }

  /** The number of calls in a series that stored a list in an empty cache. */
  function Loads(cache: Option<seq<User>>, envs: seq<Env>): (loads: nat)
    decreases |envs|
  {
    if envs == [] then 0
    else
      var next := Outcome(cache, envs[0].reply, envs[0].draw).cache;
      (if cache.None? && next.Some? then 1 else 0) + Loads(next, envs[1..])
  }

  /** The HTTP requests a series of calls issues. */
  function RequestsOf(cache: Option<seq<User>>, envs: seq<Env>): (requests: nat)
    decreases |envs|
  {
    if envs == [] then 0
    else
      var t := Outcome(cache, envs[0].reply, envs[0].draw);
      t.call.requests + RequestsOf(t.cache, envs[1..])
  }

  /**
   * Across any series of calls the list is loaded at most once, and once the
   * cache holds a list no further call issues a request or changes it.
   */
  lemma {:induction false} LoadedAtMostOnce(cache: Option<seq<User>>, envs: seq<Env>)
    ensures Loads(cache, envs) <= if cache.None? then 1 else 0
    ensures cache.Some? ==> RequestsOf(cache, envs) == 0 && CacheAfter(cache, envs) == cache
    decreases |envs|
  {
    if envs != [] {
      CacheLifecycle(cache, envs[0].reply, envs[0].draw);
      LoadedAtMostOnce(Outcome(cache, envs[0].reply, envs[0].draw).cache, envs[1..]);
    }
  }

  class JsonPlaceholderUserService {
    /** `_cachedUsers`: `None` until a fetch has stored a list. */
    var cachedUsers: Option<seq<User>>

    constructor ()
      ensures cachedUsers == None
    {
      cachedUsers := None;
    }

    /**
     * `GetRandomUserAsync`. The k-th HTTP request of this call yields
     * `reply(k)`; `draw` is what the random generator produces. Besides the
     * result, the call reports how many requests it issued and the delays it
     * awaited.
     */
    method GetRandomUser(reply: nat -> Reply, draw: nat)
      returns (r: Result<User, ServiceError>, requests: nat, delays: seq<nat>)
      modifies this
      ensures Trace(Call(r, requests, delays), cachedUsers) == Outcome(old(cachedUsers), reply, draw)
    {
      var retryCount: nat := 0;
      requests, delays := 0, [];
      while retryCount < MAX_RETRIES
        invariant retryCount <= MAX_RETRIES
        invariant old(cachedUsers).Some? ==> retryCount == 0 && cachedUsers == old(cachedUsers)
        invariant retryCount > 0 ==> cachedUsers == None
        invariant requests == retryCount && delays == Schedule(retryCount)
        invariant Outcome(old(cachedUsers), reply, draw)
                  == After(requests, delays, Loop(cachedUsers, reply, draw, retryCount))
        decreases MAX_RETRIES - retryCount
      {
        if cachedUsers == None {
          var answer := reply(requests);
          requests := requests + 1;
          match answer {
            case Transport =>
              retryCount := retryCount + 1;
              if retryCount >= MAX_RETRIES {
                r := Failure(ConnectionFailed(MAX_RETRIES));
                return;
              }
              delays := delays + [BackoffDelay(retryCount)];
              continue;
            case MalformedJson =>
              r := Failure(DeserializeFailed);
              return;
            case Raised =>
              r := Failure(Unexpected(Foreign));
              return;
            case Decoded(users) =>
              cachedUsers := users;
              if cachedUsers == None || cachedUsers.value == [] {
                r := Failure(Unexpected(NoValidData));
                return;
              }
          }
        }
        var randomIndex := RandomNext(|cachedUsers.value|, draw);
        if randomIndex < |cachedUsers.value| {
          r := Success(cachedUsers.value[randomIndex]);
        } else {
          r := Failure(Unexpected(IndexOutOfRange));
        }
        return;
      }
      r := Failure(GaveUp);
    }
  }
}
