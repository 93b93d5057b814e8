/** What a status answer promises: exactly when a claimed attempt can still commit,
    over all continuations of a run. */
module CommandAnswers {
  import opened Wrappers
  import opened Attempts
  import opened OwnerRecord
  import Owner = OwnerAuthority
  import Effects
  import opened Commands
  import opened CommandRows
  import opened CommandStore
  import opened CommandRuns
  import opened CommandSafety

  // ---- attempts that never commit ------------------------------------------------

  /** An attempt that is not running and not the receipt's, or is gone with its
      operation. */
  predicate Closed(row: Row, attempt: Id) {
    !CommittedBy(row, attempt) && forall k :: 0 <= k < |row.history| && row.history[k].id == attempt ==> !row.history[k].state.Running?
  }

  lemma ClosedStays(before: Row, after: Row, used: set<Id>, attempt: Id)
    requires RowChange(before, after) && NewAttempts(used, before, after) && attempt in used && Closed(before, attempt)
    ensures Closed(after, attempt)
  {
    forall k | 0 <= k < |after.history| && after.history[k].id == attempt ensures !after.history[k].state.Running? {
      assert k < |before.history|;
    }
  }

  lemma {:induction false} ClosedNeverCommits(sys: System, es: seq<Event>, id: Id, attempt: Id)
    requires Inv(sys) && ValidRun(sys, es) && attempt in sys.used && Closed(RowOf(sys.store, id), attempt)
    ensures !CommittedBy(RowOf(Run(sys, es).store, id), attempt)
    decreases |es|
  {
    if es != [] {
      StepKeeps(sys, es[0]);
      StepRow(sys, es[0], id);
      UsedGrows(sys, es[0]);
      ClosedStays(RowOf(sys.store, id), RowOf(Next(sys, es[0]).store, id), sys.used, attempt);
      ClosedNeverCommits(Next(sys, es[0]), es[1..], id, attempt);
    }
  }

  /** A process that is about to apply this attempt. */
  predicate HeldBy(sys: System, id: Id, attempt: Id) {
    IsApplying(sys, attempt) && sys.clients[attempt].operation == id
  }

  predicate Unheld(sys: System, id: Id, attempt: Id) {
    attempt in sys.used && !HeldBy(sys, id, attempt) && !CommittedBy(RowOf(sys.store, id), attempt)
  }

  lemma StaysUnheld(sys: System, e: Event, id: Id, attempt: Id)
    requires Inv(sys) && ValidEvent(sys, e) && Unheld(sys, id, attempt)
    ensures Unheld(Next(sys, e), id, attempt)
  {
    UsedGrows(sys, e);
    OnlyAClaimHolds(sys, e, id, attempt);
    var before := RowOf(sys.store, id);
    assert RowInv(id, before);
    StepRow(sys, e, id);
    UnheldRowStays(sys, e, id, before, RowOf(Next(sys, e).store, id), attempt);
  }

  /** A process comes to hold an attempt only by the claim that creates it. */
  lemma OnlyAClaimHolds(sys: System, e: Event, id: Id, attempt: Id)
    requires ValidEvent(sys, e) && attempt in sys.used
    ensures HeldBy(Next(sys, e), id, attempt) ==> HeldBy(sys, id, attempt)
  {
  }

  lemma UnheldRowStays(sys: System, e: Event, id: Id, before: Row, after: Row, attempt: Id)
    requires RowInv(id, before) && RowChange(before, after) && !HeldBy(sys, id, attempt) && !CommittedBy(before, attempt)
    requires after.Done() && !before.Done() ==> Commits(before, after) && CommitPoint(sys, e, before)
    ensures !CommittedBy(after, attempt)
  {
    if before.Done() {
      DoneStays(id, before, after);
    }
  }

  /** A crashed process, or one past its apply, never commits its attempt. */
  lemma {:induction false} UnheldNeverCommits(sys: System, es: seq<Event>, id: Id, attempt: Id)
    requires Inv(sys) && ValidRun(sys, es) && Unheld(sys, id, attempt)
    ensures !CommittedBy(RowOf(Run(sys, es).store, id), attempt)
    decreases |es|
  {
    if es != [] {
      StepKeeps(sys, es[0]);
      StaysUnheld(sys, es[0], id, attempt);
      UnheldNeverCommits(Next(sys, es[0]), es[1..], id, attempt);
    }
  }

  /** The attempt's own time is over, or it is gone. */
  predicate Late(row: Row, attempt: Id, time: int) {
    && !CommittedBy(row, attempt)
    && forall k :: 0 <= k < |row.history| && row.history[k].id == attempt ==> row.history[k].startedAt + COMMAND_TIMEOUT <= time
  }

  lemma LateStays(before: Row, after: Row, used: set<Id>, attempt: Id, time: int)
    requires RowChange(before, after) && NewAttempts(used, before, after) && attempt in used && Late(before, attempt, time)
    requires Commits(before, after) ==> time < before.history[|before.history| - 1].startedAt + COMMAND_TIMEOUT
    ensures Late(after, attempt, time)
  {
    forall k | 0 <= k < |after.history| && after.history[k].id == attempt
      ensures after.history[k].startedAt + COMMAND_TIMEOUT <= time
    {
      assert k < |before.history|;
    }
  }

  lemma StaysLate(sys: System, e: Event, id: Id, attempt: Id, time: int)
    requires Inv(sys) && ValidEvent(sys, e) && attempt in sys.used && Late(RowOf(sys.store, id), attempt, time)
    requires TimeOf(e).Some? ==> TimeOf(e).value >= time
    ensures Late(RowOf(Next(sys, e).store, id), attempt, time)
  {
    StepRow(sys, e, id);
    LateStays(RowOf(sys.store, id), RowOf(Next(sys, e).store, id), sys.used, attempt, time);
  }

  lemma NotBeforeTail(es: seq<Event>, time: int)
    requires es != [] && NotBefore(es, time)
    ensures NotBefore(es[1..], time) && (TimeOf(es[0]).Some? ==> TimeOf(es[0]).value >= time)
  {
    forall i | 0 <= i < |es| - 1 && TimeOf(es[1..][i]).Some? ensures TimeOf(es[1..][i]).value >= time {
      assert es[1..][i] == es[i + 1];
    }
  }

  lemma {:induction false} LateNeverCommits(sys: System, es: seq<Event>, id: Id, attempt: Id, time: int)
    requires Inv(sys) && ValidRun(sys, es) && NotBefore(es, time)
    requires attempt in sys.used && Late(RowOf(sys.store, id), attempt, time)
    ensures !CommittedBy(RowOf(Run(sys, es).store, id), attempt)
    decreases |es|
  {
    if es != [] {
      StepKeeps(sys, es[0]);
      UsedGrows(sys, es[0]);
      NotBeforeTail(es, time);
      StaysLate(sys, es[0], id, attempt, time);
      LateNeverCommits(Next(sys, es[0]), es[1..], id, attempt, time);
    }
  }

  // ---- attempts that can -----------------------------------------------------------

  /** The request of a caller the operation's approval stands for. */
  function RightRequest(st: OwnerState, row: Row): Request
    requires row.op.Some? && row.approval.Some?
  {
    var p, a := row.op.value.prepared, row.approval.value.record;
    Request(p.source, p.actor, p.standing,
            ConnectorPin(p.grant, st.epoch, st.writeEpoch, st.autoApprove.epoch, st.autoApprove.epoch,
                         {Consent(p.source.tool.name, p.source.contract, p.source.execution)}),
            if a.basis.Human? then {(a.basis.session, a.approver.user)} else {}, false)
  }

  /** While its authority is alive and its time has not come, there is a request
      under which an approved operation proceeds. */
  lemma RightRequestProceeds(key: string, owner: Option<OwnerState>, id: Id, row: Row, now: int)
    requires Hex32(key) && Owner.SoundRecord(key, owner) && RowInv(id, row) && Alive(owner, row) && row.approval.Some? && !row.Done()
    requires now < row.op.value.prepared.expiresAt
    ensures Admit(owner, RightRequest(owner.value, row)).Some?
    ensures CommitChecks(Admit(owner, RightRequest(owner.value, row)).value, row, now).Proceed?
  {
    SoundIsFieldsAndSwitches(key, owner.value);
  }

  lemma ApplyDecides(cap: Capability, id: Id, row: Row, now: int, queued: nat)
    requires RowInv(id, row) && CommitChecks(cap, row, now).Proceed? && row.history != []
    requires var last := row.history[|row.history| - 1];
             last.state.Running? && now < Barrier(last.startedAt, row.op.value.prepared.expiresAt)
    ensures var last := row.history[|row.history| - 1];
            var tx := ApplyTx(cap, row, now, last.id, [], queued, row.approval.value.record.approvedAt, "");
            tx.Write? && now < tx.validUntil && CommittedBy(tx.row, last.id)
  {
    LatestIsLast(row.history);
    ProceedMeans(cap, row, now);
  }

  function OneApply(owner: OwnerState, row: Row, k: nat, now: int): Event
    requires row.op.Some? && row.approval.Some? && k < |row.history|
  {
    ApplyEvent(RightRequest(owner, row), row.history[k].id, now, [], row.approval.value.record.approvedAt, "", now, Confirmed)
  }

  /** An apply whose decision is to write, in time and confirmed, is on the rows. */
  lemma LandedApply(sys: System, e: Event, id: Id)
    requires Inv(sys) && e.ApplyEvent? && ValidEvent(sys, e) && HeldBy(sys, id, e.attempt)
    requires ApplyOf(sys, e).Write? && Lands(ApplyOf(sys, e), e.wall, e.io)
    ensures RowOf(Next(sys, e).store, id) == ApplyOf(sys, e).row
  {
    ApplyTarget(sys, e);
    AfterIsLocal(sys.store, id, ApplyOf(sys, e), e.wall, e.io, id);
  }

  // ---- exactly when ------------------------------------------------------------------

  /** Some continuation with no step before the time commits this attempt. */
  ghost predicate CanCommit(sys: System, id: Id, attempt: Id, time: int) {
    exists es: seq<Event> :: ValidRun(sys, es) && NotBefore(es, time) && CommittedBy(RowOf(Run(sys, es).store, id), attempt)
  }

  /** It runs, its process holds it, its operation's authority is the record's, and
      neither the claim nor the operation is over at that time. */
  predicate InPlay(sys: System, id: Id, a: Attempt, time: int) {
    var row := RowOf(sys.store, id);
    && a.state.Running? && HeldBy(sys, id, a.id) && Alive(sys.owner, row)
    && time < Barrier(a.startedAt, row.op.value.prepared.expiresAt)
  }

  lemma OnlyThere(id: Id, row: Row, k: nat)
    requires RowInv(id, row) && k < |row.history| && !row.Done()
    ensures !row.history[k].state.Running? ==> Closed(row, row.history[k].id)
    ensures forall time: int :: row.history[k].startedAt + COMMAND_TIMEOUT <= time ==> Late(row, row.history[k].id, time)
  {
    assert forall j :: 0 <= j < |row.history| && row.history[j].id == row.history[k].id ==> j == k;
  }

  lemma NotInPlayNeverCommits(sys: System, es: seq<Event>, id: Id, k: nat, time: int)
    requires Inv(sys) && ValidRun(sys, es) && NotBefore(es, time)
    requires var row := RowOf(sys.store, id);
             row.op.Some? && !row.Done() && k < |row.history| && !InPlay(sys, id, row.history[k], time)
    ensures !CommittedBy(RowOf(Run(sys, es).store, id), RowOf(sys.store, id).history[k].id)
  {
    var row := RowOf(sys.store, id);
    var a := row.history[k];
    assert RowInv(id, row) && RowKnown(sys, id, row);
    OnlyThere(id, row, k);
    if !a.state.Running? {
      ClosedNeverCommits(sys, es, id, a.id);
    } else if !HeldBy(sys, id, a.id) {
      UnheldNeverCommits(sys, es, id, a.id);
    } else if !Alive(sys.owner, row) {
      DeadNeverCommits(sys, es, id);
    } else if time >= row.op.value.prepared.expiresAt {
      ExpiredNeverCommits(sys, es, id, time);
    } else {
      LateNeverCommits(sys, es, id, a.id, time);
    }
  }

  /** Under the right request the apply of a running attempt decides to commit. */
  lemma RightApplyDecides(key: string, owner: Option<OwnerState>, id: Id, row: Row, k: nat, now: int, queued: nat)
    requires Hex32(key) && Owner.SoundRecord(key, owner) && RowInv(id, row) && Alive(owner, row) && !row.Done()
    requires k < |row.history| && row.history[k].state.Running?
    requires now < Barrier(row.history[k].startedAt, row.op.value.prepared.expiresAt)
    ensures row.approval.Some? && Admit(owner, RightRequest(owner.value, row)).Some?
    ensures var cap := Admit(owner, RightRequest(owner.value, row)).value;
            var tx := ApplyTx(cap, row, now, row.history[k].id, [], queued, row.approval.value.record.approvedAt, "");
            tx.Write? && now < tx.validUntil && CommittedBy(tx.row, row.history[k].id)
  {
    RunningIsLast(id, row, k);
    RightRequestProceeds(key, owner, id, row, now);
    ApplyDecides(Admit(owner, RightRequest(owner.value, row)).value, id, row, now, queued);
  }

  lemma OneApplyIsValid(sys: System, row: Row, k: nat, now: int, id: Id)
    requires sys.owner.Some? && row.op.Some? && row.approval.Some? && k < |row.history| && row == RowOf(sys.store, id)
    requires HeldBy(sys, id, row.history[k].id) && Admit(sys.owner, RightRequest(sys.owner.value, row)).Some?
    ensures var e := OneApply(sys.owner.value, row, k, now);
            var cap := Admit(sys.owner, RightRequest(sys.owner.value, row)).value;
            && ValidEvent(sys, e) && TimeOf(e) == Some(now) && e.ApplyEvent? && e.wall == now && e.io.Confirmed?
            && e.attempt == row.history[k].id
            && ApplyOf(sys, e) ==
               ApplyTx(cap, row, now, row.history[k].id, [], |sys.store.jobs|, row.approval.value.record.approvedAt, "")
  {
  }

  /** The apply of an attempt in play. */
  lemma OneApplyCommits(sys: System, id: Id, k: nat, now: int) returns (e: Event)
    requires Inv(sys)
    requires var row := RowOf(sys.store, id);
             row.op.Some? && !row.Done() && k < |row.history| && InPlay(sys, id, row.history[k], now)
    ensures ValidEvent(sys, e) && TimeOf(e) == Some(now)
    ensures CommittedBy(RowOf(Next(sys, e).store, id), RowOf(sys.store, id).history[k].id)
  {
    var row := RowOf(sys.store, id);
    assert RowInv(id, row);
    RightApplyDecides(sys.key, sys.owner, id, row, k, now, |sys.store.jobs|);
    OneApplyIsValid(sys, row, k, now, id);
    e := OneApply(sys.owner.value, row, k, now);
    LandedApply(sys, e, id);
  }

  lemma RunningIsLast(id: Id, row: Row, k: nat)
    requires RowInv(id, row) && k < |row.history| && row.history[k].state.Running?
    ensures k == |row.history| - 1
  {
  }

  lemma InPlayCanCommit(sys: System, id: Id, k: nat, time: int)
    requires Inv(sys)
    requires var row := RowOf(sys.store, id);
             row.op.Some? && !row.Done() && k < |row.history| && InPlay(sys, id, row.history[k], time)
    ensures CanCommit(sys, id, RowOf(sys.store, id).history[k].id, time)
  {
    var e := OneApplyCommits(sys, id, k, time);
    OneEvent(sys, e, id, RowOf(sys.store, id).history[k].id, time);
  }

  lemma OneEvent(sys: System, e: Event, id: Id, attempt: Id, time: int)
    requires ValidEvent(sys, e) && (TimeOf(e).Some? ==> TimeOf(e).value >= time)
    requires CommittedBy(RowOf(Next(sys, e).store, id), attempt)
    ensures CanCommit(sys, id, attempt, time)
  {
    var next := Next(sys, e);
    assert [e][1..] == [];
    assert ValidRun(next, []) && Run(next, []) == next;
    assert ValidRun(sys, [e]) && Run(sys, [e]) == next && NotBefore([e], time);
  }

  /** In any state an attempt of an unfinished operation can still become the
      receipt's, by steps at or after a time, exactly when it is in play then. */
  lemma CanCommitIffInPlay(sys: System, id: Id, k: nat, time: int)
    requires Inv(sys)
    requires var row := RowOf(sys.store, id); row.op.Some? && !row.Done() && k < |row.history|
    ensures var a := RowOf(sys.store, id).history[k]; CanCommit(sys, id, a.id, time) <==> InPlay(sys, id, a, time)
  {
    var a := RowOf(sys.store, id).history[k];
    if InPlay(sys, id, a, time) {
      InPlayCanCommit(sys, id, k, time);
    } else {
      forall es: seq<Event> | ValidRun(sys, es) && NotBefore(es, time)
        ensures !CommittedBy(RowOf(Run(sys, es).store, id), a.id)
      {
        NotInPlayNeverCommits(sys, es, id, k, time);
      }
    }
  }

  // ---- "not committed" -----------------------------------------------------------------

  /** A status that is not expired yet says "not committed" only when no attempt
      runs. */
  lemma NotCommittedIsClosed(cap: Capability, id: Id, row: Row, now: int, k: nat)
    requires RowInv(id, row) && row.op.Some? && k < |row.history|
    requires var state := OperationState(cap, row.op.value, row.approval.Some?, row.history, now);
             state.1.NotCommitted? && !state.0.IsExpired?
    ensures Closed(row, row.history[k].id)
  {
    LatestIsLast(row.history);
    assert !row.history[|row.history| - 1].state.Running?;
  }

  /** Whoever is told "not committed" may rely on it, with one exception: no attempt
      the operation has had by then becomes the receipt's by steps at or after a
      time, unless the answer was "expired" and the attempt is still in play at that
      time. A clock that does not go back behind the answer rules that out if the
      lifetime was over. */
  lemma NotCommittedIsSettledIff(sys: System, id: Id, r: Request, now: int, k: nat, time: int)
    requires Inv(sys) && Admit(sys.owner, r).Some?
    requires var row := RowOf(sys.store, id);
             && row.op.Some? && k < |row.history|
             && OperationState(Admit(sys.owner, r).value, row.op.value, row.approval.Some?, row.history, now).1.NotCommitted?
    ensures var row := RowOf(sys.store, id);
            var expired := OperationState(Admit(sys.owner, r).value, row.op.value, row.approval.Some?, row.history, now).0.IsExpired?;
            && (CanCommit(sys, id, row.history[k].id, time) <==> expired && InPlay(sys, id, row.history[k], time))
            && (time >= now >= row.op.value.prepared.expiresAt ==> !CanCommit(sys, id, row.history[k].id, time))
  {
    var row, cap := RowOf(sys.store, id), Admit(sys.owner, r).value;
    assert RowInv(id, row);
    CanCommitIffInPlay(sys, id, k, time);
    if !OperationState(cap, row.op.value, row.approval.Some?, row.history, now).0.IsExpired? {
      NotCommittedIsClosed(cap, id, row, now, k);
    }
  }
}
