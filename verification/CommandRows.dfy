/** What every transaction of the protocol keeps about one operation: the union
    the store checker validates, the shape of the attempt history, and the tie
    between the receipt and what was applied. */
module CommandRows {
  import opened Wrappers
  import opened Attempts
  import opened Commands
  import Effects

  predicate Distinct(h: seq<Attempt>) {
    forall i, j :: 0 <= i < j < |h| ==> h[i].id != h[j].id
  }

  predicate OnlyLastRuns(h: seq<Attempt>) {
    forall i :: 0 <= i < |h| - 1 ==> !h[i].state.Running?
  }

  /** An unknown COMMIT outcome as the record step writes it. */
  predicate Unreconciled(a: Attempt) { a.state.Unknown? && a.errorClass.UnknownExecution? }

  predicate UnknownIsFinal(h: seq<Attempt>) {
    forall i :: 0 <= i < |h| - 1 ==> !Unreconciled(h[i])
  }

  predicate HistoryInv(id: Id, h: seq<Attempt>) {
    HistoryOk(id, h) && |h| <= ATTEMPT_LIMIT && Increasing(h) && Distinct(h) && OnlyLastRuns(h) && UnknownIsFinal(h)
  }

  predicate CommittedBy(row: Row, attempt: Id) { row.Done() && row.op.value.receipt.value.attempt == attempt }

  /** The receipt belongs to the latest attempt, and an attempt has succeeded
      only if the receipt is its own. */
  predicate ReceiptInv(row: Row) {
    && (row.Done() ==>
          && row.history != []
          && CommittedBy(row, row.history[|row.history| - 1].id)
          && (row.history[|row.history| - 1].state.Running? || row.history[|row.history| - 1].state.Succeeded?))
    && (forall k :: 0 <= k < |row.history| && row.history[k].state.Succeeded? ==> CommittedBy(row, row.history[k].id))
  }

  /** The writes landed exactly when the receipt exists, once, by its attempt,
      with exactly the receipt's effects queued under the operation's own
      authority. */
  predicate LedgerInv(row: Row) {
    if row.Done() then
      var op := row.op.value;
      && |row.applied| == 1 && row.applied[0].attempt == op.receipt.value.attempt
      && row.jobs == StampJobs(op.prepared, op.receipt.value.effects)
    else row.applied == [] && row.jobs == []
  }

  /** An attempt is only ever claimed for an approved operation, and consent only
      ever approves a tool that declares it. */
  predicate ApprovalInv(row: Row) {
    && (row.history != [] ==> row.approval.Some?)
    && (row.op.Some? && row.approval.Some? && row.approval.value.record.basis.GrantConsent? ==>
          row.op.value.prepared.source.tool.grantApproval && row.op.value.prepared.source.tool.transfer.NoTransfer?)
  }

  predicate RowInv(id: Id, row: Row) {
    RowUnion(id, row) && HistoryInv(id, row.history) && ReceiptInv(row) && LedgerInv(row) && ApprovalInv(row)
  }

  // ---- histories -------------------------------------------------------------

  /** One history continues another: attempts keep their place, id and start,
      and only a running one may change. */
  predicate Continues(h: seq<Attempt>, next: seq<Attempt>) {
    && |h| <= |next|
    && (forall k :: 0 <= k < |h| ==> next[k].id == h[k].id && next[k].startedAt == h[k].startedAt)
    && (forall k :: 0 <= k < |h| && !h[k].state.Running? ==> next[k] == h[k])
  }

  lemma IndexIsPosition(h: seq<Attempt>, k: nat)
    requires k < |h| && Distinct(h)
    ensures IndexOf(h, h[k].id) == k
  {
  }

  /** Replacing the last, running attempt by its finished form. */
  lemma FinishKeepsHistory(id: Id, h: seq<Attempt>, t: Terminal, now: int)
    requires HistoryInv(id, h) && h != [] && h[|h| - 1].state.Running?
    requires t.state.Unknown? || (t.state.Succeeded? && t.errorClass.NoClass?) ||
             ((t.state.Failed? || t.state.Conflict?) && !t.errorClass.NoClass?)
    ensures var next := h[|h| - 1 := Finished(h[|h| - 1], t.state, t.errorClass, now)];
            HistoryInv(id, next) && !next[|h| - 1].state.Running?
  {
  }

  /** Adding a claim after a history without a running attempt. */
  lemma AppendKeepsHistory(id: Id, h: seq<Attempt>, attempt: Id, started: int)
    requires HistoryInv(id, h) && started > 0 && |h| < ATTEMPT_LIMIT
    requires forall k :: 0 <= k < |h| ==> h[k].id != attempt && h[k].startedAt < started
    requires h != [] ==> !h[|h| - 1].state.Running? && !Unreconciled(h[|h| - 1])
    ensures HistoryInv(id, h + [Attempt(attempt, id, started, Running, NoClass, 0)])
  {
  }

  /** What happens to a running attempt that a new claim follows: it was stale,
      and ends as unknown without an outcome of its own. */
  predicate Superseded(a: Attempt, next: Attempt, now: int) {
    Stale(a, now) && next == Finished(a, AttemptState.Unknown, StaleClaim, now)
  }

  /** The history a new claim follows: the old one, with a stale running attempt
      marked unknown. */
  lemma ClaimedHistory(id: Id, h: seq<Attempt>, attempt: Id, now: int) returns (prior: seq<Attempt>)
    requires HistoryInv(id, h) && ClaimRefusal(h, now).None?
    requires forall k :: 0 <= k < |h| ==> h[k].id != attempt
    requires forall k :: 0 <= k < |h| ==> !h[k].state.Succeeded?
    ensures Claimed(id, h, attempt, now) == prior + [Attempt(attempt, id, ClaimStart(Latest(h), now), Running, NoClass, 0)]
    ensures |prior| == |h| && HistoryInv(id, prior)
    ensures Continues(h, prior)
    ensures forall k :: 0 <= k < |h| ==> !prior[k].state.Running? && !prior[k].state.Succeeded?
    ensures forall k :: 0 <= k < |h| && h[k].state.Running? ==> Superseded(h[k], prior[k], now)
    ensures HistoryInv(id, Claimed(id, h, attempt, now))
  {
    prior := h;
    if h != [] {
      LatestIsLast(h);
      var last := h[|h| - 1];
      if Stale(last, now) {
        IndexIsPosition(h, |h| - 1);
        FinishKeepsHistory(id, h, Terminal(AttemptState.Unknown, StaleClaim), now);
        prior := h[|h| - 1 := Finished(last, AttemptState.Unknown, StaleClaim, now)];
      }
    }
    AppendKeepsHistory(id, prior, attempt, ClaimStart(Latest(h), now));
  }

  // ---- transactions ----------------------------------------------------------

  lemma ProceedMeans(cap: Capability, row: Row, now: int)
    requires CommitChecks(cap, row, now).Proceed?
    ensures row.op.Some? && !row.Done() && row.approval.Some? && row.approval.value.state.Approved?
    ensures !Expired(cap, row.op.value.prepared, now) && SameSource(cap, row.op.value.prepared)
    ensures Bound(cap, row.op.value.prepared) && ApproverLive(cap, row.approval.value.record)
  {
  }

  /** A claim keeps the invariant: a stale running attempt is superseded, every
      earlier attempt keeps its id and start, the new one starts last, and the
      claim must land before the operation expires. */
  lemma ClaimKeeps(cap: Capability, id: Id, row: Row, now: int, attempt: Id)
    requires RowInv(id, row) && ClaimTx(cap, id, row, now, attempt).Write?
    requires forall k :: 0 <= k < |row.history| ==> row.history[k].id != attempt
    ensures var next := ClaimTx(cap, id, row, now, attempt).row;
            && RowInv(id, next) && next == row.(history := next.history)
            && |next.history| == |row.history| + 1
            && Continues(row.history, next.history)
            && (forall k :: 0 <= k < |row.history| && row.history[k].state.Running? ==>
                  Superseded(row.history[k], next.history[k], now))
            && ClaimTx(cap, id, row, now, attempt).validUntil == row.op.value.prepared.expiresAt
            && next.history[|row.history|] == Attempt(attempt, id, ClaimStart(Latest(row.history), now), Running, NoClass, 0)
  {
    ProceedMeans(cap, row, now);
    var prior := ClaimedHistory(id, row.history, attempt, now);
  }

  /** The business writes among a command's steps, in order. */
  function WritesOf(steps: seq<WorkStep>): seq<Id> {
    if steps == [] then []
    else (if steps[0].BusinessWrite? then [steps[0].value] else []) + WritesOf(steps[1..])
  }

  /** The effects its steps ask for, in order. */
  function IntentsOf(steps: seq<WorkStep>): seq<Effects.Intent> {
    if steps == [] then []
    else (if steps[0].Enqueue? then [steps[0].intent] else []) + IntentsOf(steps[1..])
  }

  /** Effects whose job ids continue a table of so many jobs. */
  function Numbered(intents: seq<Effects.Intent>, queued: nat): (effects: seq<Effects.Effect>)
    ensures |effects| == |intents|
    ensures forall k :: 0 <= k < |effects| ==> effects[k].id == queued + 1 + k && effects[k].intent == intents[k]
  {
    seq(|intents|, k requires 0 <= k < |intents| => Effects.Effect(queued + 1 + k, intents[k]))
  }

  predicate NeverFails(steps: seq<WorkStep>) { forall i :: 0 <= i < |steps| ==> !steps[i].Fail? }

  lemma NeverFailsTail(steps: seq<WorkStep>)
    requires steps != []
    ensures NeverFails(steps) <==> !steps[0].Fail? && NeverFails(steps[1..])
  {
    assert forall i :: 0 < i < |steps| ==> steps[i] == steps[1..][i - 1];
  }

  lemma NumberedOneMore(done: seq<Effects.Effect>, i: Effects.Intent, rest: seq<Effects.Intent>, queued: nat)
    ensures done + [Effects.Effect(queued + 1, i)] + Numbered(rest, queued + 1) == done + Numbered([i] + rest, queued)
  {
  }

  /** The work succeeds exactly when no step fails and it asks for no more effects
      than the limit, and has then done every write and queued every effect its
      steps name, in order, nothing else. */
  lemma {:induction false} WorkMeans(steps: seq<WorkStep>, done: Work, queued: nat)
    requires |done.effects| <= Effects.EFFECT_LIMIT
    ensures var r := RunWork(steps, done, queued);
            && (r.Success? <==> NeverFails(steps) && |done.effects| + |IntentsOf(steps)| <= Effects.EFFECT_LIMIT)
            && (r.Success? ==>
                  r.value == Work(done.writes + WritesOf(steps), done.effects + Numbered(IntentsOf(steps), queued)))
  {
    if steps == [] {
      assert Work(done.writes + [], done.effects + Numbered([], queued)) == done;
    } else {
      var rest := steps[1..];
      NeverFailsTail(steps);
      match steps[0]
      case BusinessWrite(v) =>
        WorkMeans(rest, done.(writes := done.writes + [v]), queued);
        assert done.writes + [v] + WritesOf(rest) == done.writes + WritesOf(steps);
      case Enqueue(i) =>
        if |done.effects| < Effects.EFFECT_LIMIT {
          WorkMeans(rest, done.(effects := done.effects + [Effects.Effect(queued + 1, i)]), queued + 1);
          NumberedOneMore(done.effects, i, IntentsOf(rest), queued);
        }
      case Fail(e) =>
    }
  }

  lemma FreshWorkMeans(steps: seq<WorkStep>, queued: nat)
    ensures var r := RunWork(steps, Work([], []), queued);
            && (r.Success? <==> NeverFails(steps) && |IntentsOf(steps)| <= Effects.EFFECT_LIMIT)
            && (r.Success? ==> r.value == Work(WritesOf(steps), Numbered(IntentsOf(steps), queued)))
  {
    WorkMeans(steps, Work([], []), queued);
    assert [] + WritesOf(steps) == WritesOf(steps);
    assert [] + Numbered(IntentsOf(steps), queued) == Numbered(IntentsOf(steps), queued);
  }

  /** The first step that cannot be done ends the work with its error. */
  lemma {:induction false} FirstErrorEnds(steps: seq<WorkStep>, done: Work, queued: nat) returns (i: nat)
    requires RunWork(steps, done, queued).Failure? && |done.effects| <= Effects.EFFECT_LIMIT
    ensures i < |steps| && NeverFails(steps[..i])
    ensures var error := RunWork(steps, done, queued).error;
            || steps[i] == Fail(error)
            || (steps[i].Enqueue? && error == Unavailable &&
                |done.effects| + |IntentsOf(steps[..i])| == Effects.EFFECT_LIMIT)
  {
    i := 0;
    var rest := steps[1..];
    match steps[0]
    case Fail(e) =>
    case BusinessWrite(v) =>
      i := FirstErrorEnds(rest, done.(writes := done.writes + [v]), queued);
      i := i + 1;
      assert steps[..i][1..] == rest[..i - 1] && steps[..i] == [steps[0]] + rest[..i - 1];
    case Enqueue(intent) =>
      if |done.effects| < Effects.EFFECT_LIMIT {
        i := FirstErrorEnds(rest, done.(effects := done.effects + [Effects.Effect(queued + 1, intent)]), queued + 1);
        i := i + 1;
        assert steps[..i][1..] == rest[..i - 1] && steps[..i] == [steps[0]] + rest[..i - 1];
      }
  }

  /** What one application of an operation's work leaves behind: its attempt as the
      one application with exactly the writes of its steps, exactly the effects of
      its steps as jobs under the operation's own authority, the receipt that lists
      them, and the approval consumed by it. */
  predicate CarriesWork(id: Id, before: Row, after: Row, attempt: Id, steps: seq<WorkStep>, queued: nat, at: int, readback: Id) {
    && before.op.Some? && before.approval.Some?
    && after.applied == [Application(id, attempt, WritesOf(steps))]
    && after.op == Some(Op(before.op.value.prepared,
                           Some(Receipt(before.op.value.prepared, before.approval.value.record, attempt, at, readback,
                                        Numbered(IntentsOf(steps), queued)))))
    && after.approval == Some(StoredApproval(before.approval.value.record, Consumed(attempt, at)))
    && |after.jobs| == |IntentsOf(steps)|
    && (forall k :: 0 <= k < |after.jobs| ==>
          after.jobs[k] == Job(id, Effects.Effect(queued + 1 + k, IntentsOf(steps)[k]), before.op.value.prepared.grant,
                               before.op.value.prepared.authority))
  }

  /** An apply keeps the invariant: it commits only as the latest, running
      attempt, with time left on both its claim and the operation, and with all of
      its work. */
  lemma ApplyKeeps(cap: Capability, id: Id, row: Row, now: int, attempt: Id, steps: seq<WorkStep>, queued: nat,
                   consumedAt: int, readback: Id)
    requires RowInv(id, row)
    requires ApplyTx(cap, row, now, attempt, steps, queued, consumedAt, readback).Write?
    ensures var tx := ApplyTx(cap, row, now, attempt, steps, queued, consumedAt, readback);
            var next := tx.row;
            && RowInv(id, next) && CommittedBy(next, attempt) && !row.Done() && next.history == row.history
            && row.history != [] && row.history[|row.history| - 1].id == attempt
            && CarriesWork(id, row, next, attempt, steps, queued, consumedAt, readback)
            && now < tx.validUntil <= row.op.value.prepared.expiresAt
            && tx.validUntil <= row.history[|row.history| - 1].startedAt + COMMAND_TIMEOUT
  {
    ProceedMeans(cap, row, now);
    assert row.history != [];
    LatestIsLast(row.history);
    FreshWorkMeans(steps, queued);
    var work := RunWork(steps, Work([], []), queued).value;
    AppliedIsWhole(id, row, attempt, work, consumedAt, readback);
    assert row.history[|row.history| - 1].state.Running?;
  }

  lemma AppliedIsWhole(id: Id, row: Row, attempt: Id, work: Work, consumedAt: int, readback: Id)
    requires RowInv(id, row) && row.op.Some? && !row.Done() && row.approval.Some?
    ensures var next := AppliedRow(row, attempt, work, consumedAt, readback);
            && next.applied == [Application(id, attempt, work.writes)]
            && next.jobs == StampJobs(row.op.value.prepared, work.effects)
  {
    var jobs := StampJobs(row.op.value.prepared, work.effects);
    assert row.jobs + jobs == jobs;
  }

  predicate TerminalOk(row: Row, attempt: Id, t: Terminal) {
    match t.state
    case Running => false
    case Succeeded => t.errorClass.NoClass? && CommittedBy(row, attempt)
    case Unknown => true
    case _ => !t.errorClass.NoClass? && !CommittedBy(row, attempt)
  }

  /** The record step keeps the invariant and writes at most one attempt, the
      last; an attempt that committed is never recorded as anything but
      succeeded. */
  lemma SettleKeeps(id: Id, row: Row, attempt: Id, t: Terminal, now: int)
    requires RowInv(id, row) && TerminalOk(row, attempt, t) && SettleRow(row, attempt, t, now).Some?
    ensures var next := SettleRow(row, attempt, t, now).value;
            && RowInv(id, next) && next == row.(history := next.history) && |next.history| == |row.history|
            && Continues(row.history, next.history)
            && (forall k :: 0 <= k < |row.history| && next.history[k] != row.history[k] ==>
                  k == |row.history| - 1 && row.history[k].id == attempt)
            && (CommittedBy(row, attempt) && next != row ==> next.history[|row.history| - 1].state.Succeeded?)
  {
    var k := IndexOf(row.history, attempt);
    if row.history[k].state.Running? {
      assert k == |row.history| - 1;
      FinishKeepsHistory(id, row.history, Reconciled(row, t), now);
    }
  }

  /** A person's approval keeps the invariant: it is the operation's own actor,
      from a direct browser login, and there was none before. */
  lemma ReviewKeeps(cap: Capability, id: Id, row: Row, now: int, approvalId: Id)
    requires RowInv(id, row) && ReviewTx(cap, row, now, approvalId).Write?
    ensures var tx := ReviewTx(cap, row, now, approvalId);
            var next := tx.row;
            && RowInv(id, next) && row.approval.None? && next == row.(approval := next.approval) && !row.Done()
            && cap.origin.FromBrowser? && cap.origin.direct && Bound(cap, row.op.value.prepared)
            && next.approval.value.record.basis == Human(cap.origin.session) && next.approval.value.record.approvedAt == now
            && tx.validUntil == row.op.value.prepared.expiresAt
  {
  }

  /** A prepare keeps the invariant, and stores a grant approval exactly when every
      condition of standing consent holds. */
  lemma InsertKeeps(cap: Capability, row: Row, id: Id, now: int, intent: Id, approvalId: Id)
    requires RowInv(id, row) && InsertTx(cap, row, id, now, intent, approvalId).Success?
    ensures var next := InsertTx(cap, row, id, now, intent, approvalId).value;
            && RowInv(id, next) && next.op.Some? && next.op.value.prepared == PreparedFor(cap, id, now, intent)
            && next.history == row.history && next.applied == row.applied && next.jobs == row.jobs
            && (row.op.Some? ==> next.op == row.op)
            && (row.approval.None? ==>
                  (next.approval.Some? <==> AutoApproveEligible(cap)) &&
                  (next.approval.Some? ==>
                     next.approval.value.record.basis == GrantConsent(cap.origin.grant.id, cap.origin.autoPin)))
  {
  }

  lemma SweepKeeps(id: Id, row: Row, now: int)
    requires RowInv(id, row) && row.op.Some? && Sweepable(row.op.value, now)
    ensures RowInv(id, SweptRow(row)) && row.applied == [] && row.jobs == []
  {
  }

  // ---- retries ---------------------------------------------------------------

  /** For an operation a commit may proceed with that already has attempts, the
      status says "retryable" exactly when the claim admits another attempt. */
  lemma RetryableIffClaimable(cap: Capability, id: Id, row: Row, now: int, attempt: Id)
    requires RowInv(id, row) && row.history != [] && CommitChecks(cap, row, now).Proceed?
    ensures Retryable(OperationState(cap, row.op.value, row.approval.Some?, row.history, now).0, row.history, now)
        <==> ClaimTx(cap, id, row, now, attempt).Write?
  {
    ProceedMeans(cap, row, now);
    LatestIsLast(row.history);
    var last := row.history[|row.history| - 1];
    assert ValidAttempt(last);
    assert ClaimStart(Latest(row.history), now) > 0;
  }

  /** The status is read off the durable rows: committed exactly when the
      receipt exists, which is exactly when the writes landed. */
  lemma CommittedIffApplied(cap: Capability, id: Id, row: Row, now: int)
    requires RowInv(id, row) && row.op.Some?
    ensures var state := OperationState(cap, row.op.value, row.approval.Some?, row.history, now);
            (state.1.Committed? <==> |row.applied| == 1) && (state.1.Committed? <==> state.0.IsCommitted?)
            && (!state.1.Committed? ==> row.applied == [] && row.jobs == [])
            && state.0 != IsAttempt(Succeeded)
  {
  }
}
