# User fetching client — retry services and completion draining

This project models, in Dafny, the sequential decision logic of a small C#
console client that fetches N random user records from a JSON API.

- `JsonPlaceholderUserService.GetRandomUserAsync` downloads the whole user list
  once and keeps it in the `_cachedUsers` field. It answers each call with a
  random element of that list. A transport failure (`HttpRequestException`)
  is retried, at most three attempts in all, after a delay of `1000 * retryCount` ms.
  A JSON error, a null or empty list, or any other exception is surfaced at once.
  Modelled as the class `JsonPlaceholder.JsonPlaceholderUserService`, with a
  mutable `cachedUsers` field and a `while` loop. It is proved against the
  specification function `JsonPlaceholder.Outcome`.
- `RandomUserService.GetRandomUserAsync` has the same retry loop. It keeps no
  state and returns the first element of the response's `results`. Modelled
  as the method `RandomUser.GetRandomUser`, proved against `RandomUser.Outcome`.
- `UserFetchOrchestrator.FetchUsersAsync` starts one task per requested user.
  It drains the tasks in the order they finish. It appends the user of each
  successful task and reports progress after each success. Modelled as the
  method `Orchestrator.FetchUsers` with its drain loop `Orchestrator.Drain`.
  Both are proved against the specification functions `Successes`,
  `Failures` and `Reports`.

The environment becomes parameters:
- The network and the JSON decoder are `reply: nat -> Reply`. The k-th HTTP
  request of one call yields `reply(k)`: `Transport`, `MalformedJson`,
  `Raised`, or `Decoded(list or null)`.
- `Random.Next(0, n)` is `RandomNext(n, draw)` for an arbitrary `draw`.
- `Task.WhenAny` is a nondeterministic choice of a pending task.
- What each task's service call produced is `result: nat -> TaskResult`.
- Each service call also reports the number of requests it issued and the
  delays it asked `Task.Delay` for. The orchestrator reports the tasks it
  started, the order it drained them in, and the `DisplayProgress` calls it made.

The code, as written, behaves as follows:
- Progress is reported only after a success, not after every completion.
  The reported values are strictly increasing, with gaps where tasks failed.
- `FetchUsersAsync` with `count <= 0` raises no error. It starts no task and
  returns an empty list.
- In `RandomUserService` a JSON error has no handler of its own. It surfaces
  through the generic handler as `Unexpected(JsonMalformed)`.
- An empty list returned by the API is stored in `_cachedUsers` before the
  service throws. From then on every call of that service object fails
  without a request, because indexing the empty list throws.

## Model

| member | source | states |
|---|---|---|
| UserService.BackoffDelay | JsonPlaceholderUserService.cs:59 | the delay after the k-th transport failure is exactly k whole seconds: a multiple of 1000 ms whose quotient is k |
| UserService.Schedule | RandomUserService.cs:46-53 | the delays of the first n retries are 1000·1, …, 1000·n ms, in order |
| UserService.RandomNext | JsonPlaceholderUserService.cs:47 | `Random.Next(0, n)` is 0 when n is 0 and below n otherwise; every index below n can be drawn |
| JsonPlaceholder.Loop | JsonPlaceholderUserService.cs:27-71 | the retry loop from a given iteration on: its result, requests, delays and cache; no more requests than the retries left, one delay fewer than requests, and a cached list is kept and costs no request |
| JsonPlaceholder.Outcome | JsonPlaceholderUserService.cs:23-71 | one whole call from `retryCount = 0`: at most 3 requests, and none exactly when a list is already cached |
| JsonPlaceholder.Pick | JsonPlaceholderUserService.cs:47-48 | a user is picked exactly when the list is non-empty and is an element of it; an empty list fails with an index error |
| JsonPlaceholder.LoopWithoutCache | JsonPlaceholderUserService.cs:27-68 | from any iteration with an empty cache: between 1 and the remaining budget of requests, all but the last a transport failure, a 1000·k ms delay after each, and the last request settles result and cache |
| JsonPlaceholder.RequestsAndBackoff | JsonPlaceholderUserService.cs:27-59 | at most 3 requests per call, none exactly when the cache holds a list; delays are 1000, 2000 ms, one fewer than the requests |
| JsonPlaceholder.RetriesOnlyTransport | JsonPlaceholderUserService.cs:40-68 | only transport failures are retried; a first reply of any other kind means one request, no delay, and that reply decides the result |
| JsonPlaceholder.ConnectionFailedIff | JsonPlaceholderUserService.cs:50-56 | the connection error is surfaced if and only if the cache is empty and all three requests fail in transport; it comes after 3 requests and delays of 1000 and 2000 ms |
| JsonPlaceholder.NeverFallsThrough | JsonPlaceholderUserService.cs:27-71 | the throw after the loop is never reached |
| JsonPlaceholder.CacheLifecycle | JsonPlaceholderUserService.cs:32-48 | a stored list is kept and answers the call with no request, so a stored empty list fails every later call; an empty cache takes the deserialised list, even an empty one, and stays empty after any failure or a null result |
| JsonPlaceholder.SuccessComesFromCache | JsonPlaceholderUserService.cs:40-48 | a returned user is an element of the non-empty cached list |
| JsonPlaceholder.LoadedAtMostOnce | JsonPlaceholderUserService.cs:14-44 | over any series of calls the list is loaded at most once; once cached, no later call issues a request or changes the cache |
| JsonPlaceholder.JsonPlaceholderUserService.constructor | JsonPlaceholderUserService.cs:16-21 | a new service starts with no cached list |
| JsonPlaceholder.JsonPlaceholderUserService.GetRandomUser | JsonPlaceholderUserService.cs:23-72 | the retry loop's result, requests, delays and new cache are those of `Outcome` on the old cache |
| RandomUser.Loop | RandomUserService.cs:27-61 | the retry loop from a given iteration on: its result, requests and delays; at least one and at most the retries left of requests, one delay fewer than requests |
| RandomUser.Outcome | RandomUserService.cs:23-61 | one whole call from `retryCount = 0`: every call issues between 1 and 3 fresh requests |
| RandomUser.LoopShape | RandomUserService.cs:27-58 | from any iteration: between 1 and the remaining budget of requests, all but the last a transport failure, a 1000·k ms delay after each, and the last request settles the result |
| RandomUser.RequestsAndBackoff | RandomUserService.cs:14-53 | every call issues a fresh request, at most 3 in all, with delays 1000, 2000 ms between them and none after the last |
| RandomUser.RetriesOnlyTransport | RandomUserService.cs:37-58 | only transport failures are retried; missing or empty results, a JSON error or any other exception end the call after that request |
| RandomUser.ConnectionFailedIff | RandomUserService.cs:44-50 | the connection error is surfaced if and only if all three requests fail in transport; it comes after 3 requests and delays of 1000 and 2000 ms |
| RandomUser.FirstResult | RandomUserService.cs:37-40 | a user is returned if and only if the last request brought a non-empty `results`, and it is `results[0]` |
| RandomUser.NeverFallsThrough | RandomUserService.cs:27-61 | the throw after the loop is never reached |
| RandomUser.GetRandomUser | RandomUserService.cs:23-62 | the retry loop's result, requests and delays are those of `Outcome` |
| Orchestrator.TaskIds | UserFetchOrchestrator.cs:32-46 | one task per requested user, none for `count <= 0` |
| Orchestrator.Successes | UserFetchOrchestrator.cs:57-68 | the users of the successful tasks in drain order: no more than the drained tasks, each the user of some drained task |
| Orchestrator.Failures | UserFetchOrchestrator.cs:64-68 | the number of failed drained tasks: at most the drained tasks, none when every task succeeded |
| Orchestrator.Reports | UserFetchOrchestrator.cs:57-62 | the progress displayed while draining: one report per returned user |
| Orchestrator.SuccessesPlusFailures | UserFetchOrchestrator.cs:57-68 | returned users plus failures equal the drained tasks, so there are no more users than tasks |
| Orchestrator.SuccessesAppend | UserFetchOrchestrator.cs:64-68 | a failure adds nothing and stops nothing: the users of a drain are those of its first part followed by those of the rest |
| Orchestrator.ReportsIncrease | UserFetchOrchestrator.cs:59-62 | progress values are strictly increasing, each between 1 and the number of drained tasks, always against the same total |
| Orchestrator.ReportsMarkSuccesses | UserFetchOrchestrator.cs:57-68 | the p-th drained task succeeded if and only if progress p was reported |
| Orchestrator.UsersFollowReports | UserFetchOrchestrator.cs:57-62 | there is one user per progress report, and the k-th user is the result of the task that the k-th report counts |
| Orchestrator.DrainedOnce | UserFetchOrchestrator.cs:50-79 | every started task is drained exactly once and nothing else is, so the final join counts no outcome twice |
| Orchestrator.FetchUsers | UserFetchOrchestrator.cs:23-86 | `count` tasks are started, each drained once; users are the successes in drain order, progress follows the successes, users plus failures equal `count`, and `count <= 0` gives an empty list |
| Orchestrator.Drain | UserFetchOrchestrator.cs:49-69 | the loop takes every pending task once, keeps the successful users in drain order and reports progress only after successes |

## Left out

- Concurrency in `FetchUsersAsync`: `SemaphoreSlim(5)`, `Task.Run`, `Task.WhenAny` and `Task.WhenAll` are not modelled. The cap of five concurrent calls is not modelled either. The model takes the tasks' results as given and lets any pending task finish next.
- Concurrent calls of one `JsonPlaceholderUserService` are not modelled. Under concurrency several calls can see an empty cache and all fetch. "Loaded at most once" is proved for calls made one after another.
- The HTTP client, `EnsureSuccessStatusCode`, the JSON serializer and `Task.Delay` are foreign code. They become the `reply` oracle and the log of requested delays. The 10-second client timeout surfaces as `Raised`.
- `Random` is not modelled. Its draw is the parameter `draw`.
- Exception messages and console output are not modelled: the retry notices, the error lines, the start and summary lines, and `ClearProgressLine`. Errors are kept by kind only. `DisplayProgress` is recorded as the `(current, total)` events it receives.
- An exception thrown by `DisplayProgress` itself is not modelled. In the code it would reach the failure handler and count that task twice.
- Program.cs (the console loop), UserDisplayService.cs (rendering and the floating-point progress bar), IUserService.cs and User.cs are not part of this model. `User` keeps only its scalar properties; `Address` and `Company` are not part of this model.
- `RandomUserResponse` is not part of this model. Only its `results` list is modelled, with a null response or null list both shown as `Decoded(None)`.
- Cancellation and batch timeouts: the code has neither.
