/**
 * What the two implementations of `IUserService.GetRandomUserAsync` have in
 * common: what one HTTP request can yield, the errors a call surfaces, the
 * backoff schedule between retries, and the range of `Random.Next`.
 */
module UserService {
  import opened Wrappers
  import opened Users

  /**
   * What one HTTP request, and the deserialisation that follows it, yields
   * to the code of a service. A call's k-th request yields `reply(k)`, where
   * `reply` is a parameter standing for the network and the JSON decoder.
   */
  datatype Reply =
    | Transport                        // HttpRequestException: no connection or a non-success status
    | MalformedJson                    // JsonException raised by the deserialiser
    | Raised                           // any other exception, a timeout for one
    | Decoded(users: Option<seq<User>>) // the deserialiser returned; `None` is a null list

  /** The inner exception that the generic handler wraps. */
  datatype Cause =
    | NoValidData      // the service's own throw when the list is null or empty
    | IndexOutOfRange  // indexing an empty list
    | JsonMalformed    // a JsonException that no dedicated handler caught
    | Foreign          // any other exception

  /** The exception a call surfaces to its caller. */
  datatype ServiceError =
    | ConnectionFailed(attempts: nat) // the retry budget is spent on transport failures
    | DeserializeFailed               // the dedicated JsonException handler
    | Unexpected(cause: Cause)        // the generic handler
    | GaveUp                          // the throw after the retry loop

  /** What one call of a service did: its result, the HTTP requests it issued
      and the delays, in milliseconds, it waited for between them. */
  datatype Call = Call(result: Result<User, ServiceError>, requests: nat, delays: seq<nat>)

  /** The delay awaited after the `retryCount`-th transport failure, in milliseconds. */
  function BackoffDelay(retryCount: nat): (ms: nat)
    ensures ms % 1000 == 0 && ms / 1000 == retryCount
  {
    1000 * retryCount
  }

  /** The delays of the first `n` retries, in order. */
  function Schedule(n: nat): (s: seq<nat>)
    ensures |s| == n
    ensures forall i :: 0 <= i < n ==> s[i] == BackoffDelay(i + 1)
  {
    if n == 0 then [] else Schedule(n - 1) + [BackoffDelay(n)]
  }

  /**
   * `Random.Next(0, maxValue)`: `draw` is whatever the generator produced.
   * Every index below a positive bound is drawn by some `draw`.
   */
  function RandomNext(maxValue: nat, draw: nat): (i: nat)
    ensures maxValue == 0 ==> i == 0
    ensures maxValue > 0 ==> i < maxValue
    ensures draw < maxValue ==> i == draw
  {
    if maxValue == 0 then 0 else draw % maxValue
  }
}
