/** `map_concurrent`: run a worker over the items under a semaphore, keeping the order of the input. */
module MapConcurrent {

  /** How a worker ends: with a value, with None, or with an exception. */
  datatype Outcome<R> = Value(v: R) | NoValue | Raised(code: nat)

  /** What the result list holds: a worker's value, its exception, or the RuntimeError for a missing result. */
  datatype Item<R> = Got(v: R) | Failure(code: nat) | Missing

  datatype Result<T> = Success(value: T) | ValueError

  /** The final comprehension replaces None by an error. */
  function Final<R>(out: Outcome<R>): Item<R> {
    match out
    case Value(v) => Got(v)
    case Raised(code) => Failure(code)
    case NoValue => Missing
  }

  /** The same work done one item after the other. */
  method MapSequentially<T, R(0)>(items: seq<T>, worker: T -> Outcome<R>) returns (list: seq<Item<R>>)
    ensures |list| == |items| && forall i :: 0 <= i < |items| ==>
      match worker(items[i])
      case Value(v) => list[i] == Got(v)
      case Raised(code) => list[i] == Failure(code)
      case NoValue => list[i] == Missing
  {
    list := [];
    for i := 0 to |items|
      invariant |list| == i && forall k :: 0 <= k < i ==> list[k] == Final(worker(items[k]))
    {
      list := list + [Final(worker(items[i]))];
    }
  }

  function Indices(n: nat): (s: set<int>)
    ensures |s| == n && forall i :: i in s <==> 0 <= i < n
  {
    if n == 0 then {} else Indices(n - 1) + {n - 1}
  }

  /** The scheduler picks, at every step, any waiting task while a permit is free, or any running one to finish.
      Whatever it picks: a step is always possible, a run takes two steps for each item, never more than `limit`
      workers are in flight, every permit comes back, and the list is the one of the sequential map. */
  method RunAll<T, R(0)>(items: seq<T>, worker: T -> Outcome<R>, limit: nat)
    returns (list: seq<Item<R>>, peak: nat, permits: nat, steps: nat)
    requires limit >= 1
    ensures |list| == |items| && forall i :: 0 <= i < |items| ==>
      match worker(items[i])
      case Value(v) => list[i] == Got(v)
      case Raised(code) => list[i] == Failure(code)
      case NoValue => list[i] == Missing
    ensures peak <= limit && permits == limit && steps == 2 * |items|
  {
    hide Indices;
    var results := new Outcome<R>[|items|](_ => NoValue);
    var waiting := Indices(|items|);
    var running: set<int> := {};
    permits, peak, steps := limit, 0, 0;
    while waiting != {} || running != {}
      invariant forall i :: i in waiting || i in running ==> 0 <= i < |items|
      invariant waiting !! running
      invariant permits + |running| == limit
      invariant |running| <= peak <= limit
      invariant steps + 2 * |waiting| + |running| == 2 * |items|
      invariant forall i :: 0 <= i < |items| && i !in waiting && i !in running ==> results[i] == worker(items[i])
      decreases 2 * |waiting| + |running|
    {
      var start := waiting != {} && permits > 0;
      if start && running != {} { start := *; }
      if start {
        var i :| i in waiting;
        waiting, running := waiting - {i}, running + {i};
        permits := permits - 1;
        if peak < |running| { peak := |running|; }
      } else {
        var i :| i in running;
        results[i] := worker(items[i]);
        running := running - {i};
        permits := permits + 1;
      }
      steps := steps + 1;
    }
    list := seq(|items|, i requires 0 <= i < |items| reads results => Final(results[i]));
  }

  /** With `return_exceptions=True`: an exception of a worker becomes its item in the list. */
  method MapConcurrent<T, R(0)>(items: seq<T>, worker: T -> Outcome<R>, limit: int) returns (r: Result<seq<Item<R>>>)
    ensures r.ValueError? <==> items != [] && limit < 1
    ensures r.Success? ==> |r.value| == |items| && forall i :: 0 <= i < |items| ==>
      match worker(items[i])
      case Value(v) => r.value[i] == Got(v)
      case Raised(code) => r.value[i] == Failure(code)
      case NoValue => r.value[i] == Missing
  {
    if |items| == 0 { return Success([]); }
    if limit < 1 { return ValueError; }
    var list, _, _, _ := RunAll(items, worker, limit);
    r := Success(list);
  }
}
