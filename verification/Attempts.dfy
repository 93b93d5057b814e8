/** Durable attempts of one operation (app_mcp_operation_attempts.go): what a
    stored attempt means at a given time, and which one is the latest. */
module Attempts {
  import opened Wrappers

  type Id = string

  const COMMAND_TIMEOUT := 30
  const ATTEMPT_STALE_AFTER := COMMAND_TIMEOUT + 5
  const ATTEMPT_LIMIT := 5

  datatype AttemptState = Running | Succeeded | Failed | Conflict | Unknown

  /** The sealed error class; only its shape and the two reserved classes matter. */
  datatype ErrorClass = NoClass | StaleClaim | UnknownExecution | OtherClass(name: string)

  datatype Attempt = Attempt(
    id: Id, operation: Id, startedAt: int, state: AttemptState, errorClass: ErrorClass, finishedAt: int)

  /** The sealed record's own rules. */
  predicate ValidAttempt(a: Attempt) {
    && a.startedAt > 0
    && match a.state
       case Running => a.finishedAt == 0 && a.errorClass.NoClass?
       case Succeeded => a.finishedAt >= a.startedAt && a.errorClass.NoClass?
       case Failed => a.finishedAt >= a.startedAt && !a.errorClass.NoClass?
       case Conflict => a.finishedAt >= a.startedAt && !a.errorClass.NoClass?
       case Unknown => a.finishedAt >= a.startedAt
  }

  predicate Stale(a: Attempt, now: int) { a.state.Running? && now >= a.startedAt + ATTEMPT_STALE_AFTER }

  /** What an attempt means now: a stale running one, or one that claims success
      without a durable receipt, can no longer be trusted. */
  function StateNow(a: Attempt, now: int, hasReceipt: bool): AttemptState {
    if Stale(a, now) then Unknown
    else if a.state.Succeeded? && !hasReceipt then Unknown
    else a.state
  }

  /** Swap a running attempt to a terminal state; a clock that stepped back
      cannot make it finish before it started. */
  function Finished(a: Attempt, state: AttemptState, errorClass: ErrorClass, now: int): Attempt {
    a.(state := state, errorClass := errorClass, finishedAt := if now < a.startedAt then a.startedAt else now)
  }

  function Latest(h: seq<Attempt>): Option<Attempt> {
    if h == [] then None
    else
      var last := h[|h| - 1];
      var before := Latest(h[..|h| - 1]);
      if before.None? || last.startedAt >= before.value.startedAt then Some(last) else before
  }

  predicate IsLatest(h: seq<Attempt>, k: nat) {
    && k < |h|
    && (forall i :: 0 <= i < |h| ==> h[i].startedAt <= h[k].startedAt)
    && (forall i :: k < i < |h| ==> h[i].startedAt < h[k].startedAt)
  }

  /** The latest attempt has the greatest start time, and a tie goes to the
      later row. */
  lemma {:induction false} LatestIsGreatest(h: seq<Attempt>) returns (k: nat)
    requires h != []
    ensures IsLatest(h, k) && Latest(h) == Some(h[k])
  {
    var init := h[..|h| - 1];
    k := |h| - 1;
    if init != [] {
      var j := LatestIsGreatest(init);
      assert forall i :: 0 <= i < |init| ==> h[i] == init[i];
      if h[|h| - 1].startedAt < h[j].startedAt {
        k := j;
        assert Latest(h) == Some(h[k]);
      }
    }
  }

  predicate Increasing(h: seq<Attempt>) {
    forall i, j :: 0 <= i < j < |h| ==> h[i].startedAt < h[j].startedAt
  }

  /** With strictly increasing start times the latest attempt is the last row. */
  lemma LatestIsLast(h: seq<Attempt>)
    requires h != [] && Increasing(h)
    ensures Latest(h) == Some(h[|h| - 1])
  {
    var k := LatestIsGreatest(h);
    assert k == |h| - 1;
  }

  method FindLatest(h: seq<Attempt>) returns (latest: Option<Attempt>)
    ensures latest == Latest(h)
  {
    latest := None;
    for i := 0 to |h|
      invariant latest == Latest(h[..i])
    {
      assert h[..i + 1][..i] == h[..i];
      if latest.None? || h[i].startedAt >= latest.value.startedAt {
        latest := Some(h[i]);
      }
    }
    assert h[..|h|] == h;
  }

  /** A new claim never sorts before the attempt it follows, even when the clock
      stepped back. */
  function ClaimStart(latest: Option<Attempt>, now: int): (started: int)
    ensures latest.Some? ==> started > latest.value.startedAt
    ensures started >= now
  {
    if latest.Some? && now <= latest.value.startedAt then latest.value.startedAt + 1 else now
  }

  function IndexOf(h: seq<Attempt>, id: Id): (k: nat)
    ensures k <= |h|
    ensures k < |h| ==> h[k].id == id
    ensures forall i :: 0 <= i < k ==> h[i].id != id
  {
    if h == [] then 0 else if h[0].id == id then 0 else 1 + IndexOf(h[1..], id)
  }
}
