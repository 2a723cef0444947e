/**
 * `UserFetchOrchestrator.FetchUsersAsync`: starts one task per requested user,
 * drains the tasks in the order they finish, collects the users of those that
 * succeed and reports progress after each success. The scheduling of the
 * tasks is not modelled: which pending task finishes next is an arbitrary
 * choice, and what each task's service call produced is a parameter.
 */
module Orchestrator {
  import opened Wrappers
  import opened Users
  import opened UserService

  /** What `await completedTask` gives: the user, or the exception the service raised. */
  type TaskResult = Result<User, ServiceError>

  /** One `DisplayProgress(current, total)` call. */
  datatype ProgressEvent = ProgressEvent(current: int, total: int)

  /** The identifiers of the tasks the creation loop starts for `count`. */
  function TaskIds(count: int): (ids: seq<nat>)
    ensures |ids| == if count > 0 then count else 0
    ensures forall i :: 0 <= i < |ids| ==> ids[i] == i
    decreases if count > 0 then count else 0
  {
    if count <= 0 then [] else TaskIds(count - 1) + [count - 1]
  }

  /** The users of the successful tasks, in the order the tasks were drained. */
  function Successes(order: seq<nat>, result: nat -> TaskResult): (users: seq<User>)
    ensures |users| <= |order|
    ensures forall u :: u in users ==> exists t :: t in order && result(t) == Success(u)
    decreases |order|
  {
    if order == [] then []
    else
      var last := result(order[|order| - 1]);
      Successes(order[..|order| - 1], result) + if last.Success? then [last.value] else []
  }

  /** The number of failed tasks among those drained. */
  function Failures(order: seq<nat>, result: nat -> TaskResult): (failures: nat)
    ensures failures <= |order|
    ensures (forall t :: t in order ==> result(t).Success?) ==> failures == 0
    decreases |order|
  {
    if order == [] then 0
    else Failures(order[..|order| - 1], result) + if result(order[|order| - 1]).Failure? then 1 else 0
  }

  /**
   * The progress reported while draining `order`: after the task drained
   * `p`-th (counting from 1) and only if it succeeded, `(p, total)`.
   */
  function Reports(order: seq<nat>, result: nat -> TaskResult, total: int): (events: seq<ProgressEvent>)
    ensures |events| == |Successes(order, result)|
    decreases |order|
  {
    if order == [] then []
    else
      Reports(order[..|order| - 1], result, total)
      + if result(order[|order| - 1]).Success? then [ProgressEvent(|order|, total)] else []
  }

  /**
   * Every drained task is either a success or a failure: the users returned
   * and the failures together account for every drained task, so no more
   * users are returned than tasks were drained.
   */
  lemma {:induction false} SuccessesPlusFailures(order: seq<nat>, result: nat -> TaskResult)
    ensures |Successes(order, result)| + Failures(order, result) == |order|
    ensures |Successes(order, result)| <= |order|
    decreases |order|
  {
    if order != [] {
      SuccessesPlusFailures(order[..|order| - 1], result);
    }
  }

  /**
   * A failure adds nothing and stops nothing: the users of a drain are those
   * of its first part followed by those of the rest.
   */
  lemma {:induction false} SuccessesAppend(first: seq<nat>, rest: seq<nat>, result: nat -> TaskResult)
    ensures Successes(first + rest, result) == Successes(first, result) + Successes(rest, result)
    decreases |rest|
  {
    if rest == [] {
      assert first + rest == first;
    } else {
      var prefix := rest[..|rest| - 1];
      assert (first + rest)[..|first + rest| - 1] == first + prefix;
      assert (first + rest)[|first + rest| - 1] == rest[|rest| - 1];
      SuccessesAppend(first, prefix, result);
    }
  }

  /** Each report counts more completed tasks than the one before it. */
  predicate StrictlyIncreasing(r: seq<ProgressEvent>)
  {
    forall i, j :: 0 <= i < j < |r| ==> r[i].current < r[j].current
  }

  /**
   * Progress values are strictly increasing, each between 1 and the number of
   * drained tasks, and always against the same total.
   */
  lemma {:induction false} ReportsIncrease(order: seq<nat>, result: nat -> TaskResult, total: int)
    ensures forall e :: e in Reports(order, result, total) ==> 1 <= e.current <= |order| && e.total == total
    ensures StrictlyIncreasing(Reports(order, result, total))
    decreases |order|
  {
    if order != [] {
      var prefix := order[..|order| - 1];
      ReportsIncrease(prefix, result, total);
      var r0 := Reports(prefix, result, total);
      if result(order[|order| - 1]).Success? {
        var r := r0 + [ProgressEvent(|order|, total)];
        assert Reports(order, result, total) == r;
        forall i, j | 0 <= i < j < |r| ensures r[i].current < r[j].current {
          assert r[i] == r0[i] && r0[i] in r0;
          if j < |r0| {
            assert r[j] == r0[j];
          }
        }
      } else {
        assert Reports(order, result, total) == r0;
      }
    }
  }

  /**
   * Progress is reported after exactly the successful tasks: the task drained
   * at position `q` (counting from 0) succeeded if and only if some report
   * says `q + 1`. The gaps are where tasks failed.
   */
  lemma ReportsMarkSuccesses(order: seq<nat>, result: nat -> TaskResult, total: int)
    ensures forall q :: 0 <= q < |order| ==>
      (result(order[q]).Success? <==> Reported(Reports(order, result, total), q + 1))
  {
    forall q | 0 <= q < |order| {
      ReportAt(order, result, total, q);
    }
  }

  /** Some report in `r` says `current`. */
  predicate Reported(r: seq<ProgressEvent>, current: int)
  {
    exists i :: 0 <= i < |r| && r[i].current == current
  }

  /** The task drained at position `q` succeeded if and only if some report says `q + 1`. */
  lemma {:induction false} ReportAt(order: seq<nat>, result: nat -> TaskResult, total: int, q: nat)
    requires q < |order|
    ensures result(order[q]).Success? <==> Reported(Reports(order, result, total), q + 1)
    decreases |order|
  {
    var prefix := order[..|order| - 1];
    var r := Reports(order, result, total);
    var r0 := Reports(prefix, result, total);
    ReportsIncrease(prefix, result, total);
    var last := result(order[|order| - 1]).Success?;
    if last {
      assert r == r0 + [ProgressEvent(|order|, total)];
    } else {
      assert r == r0;
    }
    if q < |prefix| {
      ReportAt(prefix, result, total, q);
      assert order[q] == prefix[q];
      if Reported(r, q + 1) {
        var i :| 0 <= i < |r| && r[i].current == q + 1;
        assert i < |r0|;
        assert r0[i] == r[i];
      }
      if Reported(r0, q + 1) {
        var i :| 0 <= i < |r0| && r0[i].current == q + 1;
        assert r[i] == r0[i];
      }
    } else {
      if last {
        assert r[|r| - 1].current == q + 1;
      } else {
        forall i | 0 <= i < |r| ensures r[i].current != q + 1 {
          assert r[i] in r0;
        }
      }
    }
  }

  /**
   * The users come in the order their tasks were drained: there is one per
   * progress report, and the `k`-th is the user of the task the `k`-th report
   * counts.
   */
  lemma {:induction false} UsersFollowReports(order: seq<nat>, result: nat -> TaskResult, total: int)
    ensures var users, r := Successes(order, result), Reports(order, result, total);
      && |users| == |r|
      && (forall k :: 0 <= k < |r| ==>
            1 <= r[k].current <= |order|
            && result(order[r[k].current - 1]) == Success(users[k]))
    decreases |order|
  {
    if order != [] {
      var prefix := order[..|order| - 1];
      UsersFollowReports(prefix, result, total);
      var users0, r0 := Successes(prefix, result), Reports(prefix, result, total);
      var users, r := Successes(order, result), Reports(order, result, total);
      forall k | 0 <= k < |r|
        ensures 1 <= r[k].current <= |order| && result(order[r[k].current - 1]) == Success(users[k])
      {
        if k < |r0| {
          assert r[k] == r0[k] && users[k] == users0[k];
          assert order[r[k].current - 1] == prefix[r0[k].current - 1];
        }
      }
    }
  }

  /** A task occurs in the list of all task identifiers exactly once if it was started, else never. */
  lemma {:induction false} TaskIdsOnce(count: int, t: nat)
    ensures multiset(TaskIds(count))[t] == if t < count then 1 else 0
    decreases if count > 0 then count else 0
  {
    if count > 0 {
      TaskIdsOnce(count - 1, t);
      assert TaskIds(count) == TaskIds(count - 1) + [count - 1];
      assert multiset(TaskIds(count)) == multiset(TaskIds(count - 1)) + multiset{(count - 1) as nat};
    }
  }

  /** An element at two distinct positions occurs at least twice. */
  lemma TwiceInMultiset(s: seq<nat>, i: nat, j: nat)
    requires i < j < |s| && s[i] == s[j]
    ensures multiset(s)[s[i]] >= 2
  {
    assert s == s[..j] + [s[j]] + s[j + 1..];
    assert s[i] in multiset(s[..j]);
  }

  /**
   * A drain that takes each started task once takes every started task, none
   * twice and nothing else: no outcome is counted twice, not even by the
   * final join.
   */
  lemma DrainedOnce(arrival: seq<nat>, count: int)
    requires multiset(arrival) == multiset(TaskIds(count))
    ensures forall t: nat :: t in arrival <==> t < count
    ensures forall i, j :: 0 <= i < j < |arrival| ==> arrival[i] != arrival[j]
  {
    forall t: nat ensures t in arrival <==> t < count {
      TaskIdsOnce(count, t);
      assert t in arrival <==> t in multiset(arrival);
    }
    forall i, j | 0 <= i < j < |arrival| ensures arrival[i] != arrival[j] {
      if arrival[i] == arrival[j] {
        TwiceInMultiset(arrival, i, j);
        TaskIdsOnce(count, arrival[i]);
      }
    }
  }

  /**
   * `FetchUsersAsync(count)`. Task `t` ends with `result(t)`. Besides the
   * returned users, the model reports the tasks it started, the order in
   * which the drain loop took them, and the progress it displayed.
   */
  method FetchUsers(count: int, result: nat -> TaskResult)
    returns (users: seq<User>, started: seq<nat>, arrival: seq<nat>, progress: seq<ProgressEvent>)
    ensures started == TaskIds(count)
    ensures |arrival| == |started| && multiset(arrival) == multiset(started)
    ensures users == Successes(arrival, result)
    ensures progress == Reports(arrival, result, count)
    ensures |users| + Failures(arrival, result) == |started|
    ensures forall i, j :: 0 <= i < j < |arrival| ==> arrival[i] != arrival[j]
    ensures StrictlyIncreasing(progress)
    ensures forall e :: e in progress ==> 1 <= e.current <= count && e.total == count
    ensures count <= 0 ==> users == [] && arrival == [] && progress == []
  {
    // Create all the tasks: each one calls the service once.
    started := [];
    var i := 0;
    while i < count
      invariant 0 <= i && (if count > 0 then i <= count else i == 0)
      invariant started == TaskIds(i)
    {
      started := started + [i];
      i := i + 1;
    }
    users, arrival, progress := Drain(count, started, result);
    // The final join rethrows failures already counted by the drain; they are
    // swallowed and change nothing.
    SuccessesPlusFailures(arrival, result);
    DrainedOnce(arrival, count);
    ReportsIncrease(arrival, result, count);
  }

  /**
   * The drain loop of `FetchUsersAsync`: take the tasks in the order they
   * finish until `count` are completed or none is pending, counting each
   * one, keeping the users of the successful ones and reporting progress
   * after each success.
   */
  method Drain(count: int, tasks: seq<nat>, result: nat -> TaskResult)
    returns (users: seq<User>, arrival: seq<nat>, progress: seq<ProgressEvent>)
    requires |tasks| == if count > 0 then count else 0
    ensures |arrival| == |tasks| && multiset(arrival) == multiset(tasks)
    ensures users == Successes(arrival, result)
    ensures progress == Reports(arrival, result, count)
  {
    users := [];
    var completed := 0;
    var pending := tasks;
    arrival, progress := [], [];
    while completed < count && |pending| > 0
      invariant completed == |arrival| && completed + |pending| == |tasks|
      invariant multiset(pending) + multiset(arrival) == multiset(tasks)
      invariant users == Successes(arrival, result)
      invariant progress == Reports(arrival, result, count)
      decreases |pending|
    {
      var k :| 0 <= k < |pending|;  // the task Task.WhenAny reports as finished
      var completedTask := pending[k];
      assert pending == pending[..k] + [completedTask] + pending[k + 1..];
      pending := pending[..k] + pending[k + 1..];
      arrival := arrival + [completedTask];
      assert arrival[..|arrival| - 1] == arrival[..completed];
      match result(completedTask) {
        case Success(user) =>
          users := users + [user];
          completed := completed + 1;
          progress := progress + [ProgressEvent(completed, count)];
        case Failure(_) =>
          completed := completed + 1;
      }
    }
  }
}
