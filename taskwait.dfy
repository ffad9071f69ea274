/** `_wait_task_succeeded` (app.py): poll the 3D service for a task every
    `interval` seconds while less than `maxWait` seconds have been waited,
    stopping at the first snapshot whose status is "SUCCEEDED". The status
    request is an oracle: `fetch(j)` is what the j-th request (counting
    from 0) returns or raises. The sleep between requests only advances
    the integer `waited`. */
module TaskWait {
  import opened Wrappers
  import opened Json

  /** What one status request gives: the task snapshot, or the error the
      client raised (an HTTP status of 400 or more, say). */
  datatype Fetch = Fetched(snapshot: Dict) | Raised(message: string)

  /** How the wait ends: a returned value (`None` when nothing was
      fetched), or the client's error passed on to the caller. */
  datatype Outcome = Returned(last: Option<Dict>) | Failed(message: string)

  /** `last.get("status") == "SUCCEEDED"`. */
  predicate Succeeded(d: Dict) {
    Get(d, "status") == Str("SUCCEEDED")
  }

  /** A request that lets the loop go on: it returned, without success. */
  predicate Pending(f: Fetch) {
    f.Fetched? && !Succeeded(f.snapshot)
  }

  /** The poll loop. The code loops for ever when `interval` is not
      positive and no snapshot succeeds, so positive `interval` is demanded
      here. */
  method WaitTaskSucceeded(fetch: nat -> Fetch, maxWait: int, interval: int) returns (outcome: Outcome, polls: nat)
    requires interval > 0
    // nothing is fetched, and None returned, when there is no time to wait
    ensures polls == 0 <==> maxWait <= 0
    ensures polls == 0 ==> outcome == Returned(None)
    // every request was made while less than maxWait had been waited
    ensures polls > 0 ==> (polls - 1) * interval < maxWait
    // every request but the last returned without success
    ensures forall j :: 0 <= j < polls - 1 ==> Pending(fetch(j))
    // the last request decides the outcome
    ensures polls > 0 ==> match fetch(polls - 1)
      case Raised(m) => outcome == Failed(m)
      case Fetched(d) => outcome == Returned(Some(d))
    // a last request without success means the time ran out
    ensures polls > 0 && Pending(fetch(polls - 1)) ==> polls * interval >= maxWait
  {
    var waited := 0;
    var last: Option<Dict> := None;
    polls := 0;
    while waited < maxWait
      invariant waited == polls * interval
      invariant polls > 0 ==> (polls - 1) * interval < maxWait
      invariant forall j :: 0 <= j < polls ==> Pending(fetch(j))
      invariant last == if polls == 0 then None else Some(fetch(polls - 1).snapshot)
      decreases maxWait - waited
    {
      var r := fetch(polls);
      polls := polls + 1;
      match r {
        case Raised(m) =>
          return Failed(m), polls;
        case Fetched(d) =>
          last := Some(d);
          if Succeeded(d) {
            return Returned(last), polls;
          }
      }
      waited := waited + interval;
    }
    outcome := Returned(last);
  }

  /** A wait of 4 seconds at 2-second steps against a task that never
      finishes makes exactly 2 requests and returns the second snapshot. */
  method NeverSucceedsExample() returns (polls: nat, outcome: Outcome)
    ensures polls == 2
    ensures outcome == Returned(Some(map["status" := Str("IN_PROGRESS")]))
  {
    var pending: Dict := map["status" := Str("IN_PROGRESS")];
    assert Get(pending, "status") == Str("IN_PROGRESS");
    outcome, polls := WaitTaskSucceeded(j => Fetched(pending), 4, 2);
    assert Pending(Fetched(pending));
  }
}
