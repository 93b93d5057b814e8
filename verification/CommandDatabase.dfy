/** The command transactions as the program runs them: rows inserted, updated
    and deleted one statement at a time, undone by a rollback. Each is proved to
    do to the tables exactly what its decision in Commands says. */
module CommandDatabase {
  import opened Wrappers
  import opened Attempts
  import opened OwnerRecord
  import opened Commands
  import opened CommandRows
  import opened CommandStore
  import Effects

  class Database {
    var ops: map<Id, Op>
    var approvals: map<Id, StoredApproval>
    var attempts: map<Id, seq<Attempt>>
    var log: seq<Application>
    var jobs: seq<Job>

    function Tables(): Store
      reads this
    {
      Store(ops, approvals, attempts, log, jobs)
    }

    method Rollback(saved: Store)
      modifies this
      ensures Tables() == saved
    {
      ops, approvals, attempts, log, jobs := saved.ops, saved.approvals, saved.attempts, saved.log, saved.jobs;
    }

    method ReadRow(id: Id) returns (op: Option<Op>, approval: Option<StoredApproval>)
      ensures op == RowOf(Tables(), id).op && approval == RowOf(Tables(), id).approval
    {
      op := Lookup(ops, id);
      approval := Lookup(approvals, id);
    }

    // ---- prepare -------------------------------------------------------------

    /** Count the actor's open operations and pick expired ones to sweep, in the
        order the query returns the unfinished operations. */
    method ScanOperations(order: seq<Id>, user: int, now: int) returns (open: nat, sweep: seq<Id>)
      requires ScanOrder(ops, order)
      ensures open == OpenCount(ops, order, user, now) && sweep == ToSweep(ops, order, now)
    {
      open, sweep := 0, [];
      for i := 0 to |order|
        invariant open == OpenCount(ops, order[..i], user, now)
        invariant sweep == ToSweep(ops, order[..i], now)
      {
        assert order[..i + 1][..i] == order[..i];
        var op := ops[order[i]];
        if op.receipt.Some? {
        } else if now >= op.prepared.expiresAt + SWEEP_GRACE {
          if |sweep| < SWEEP_BATCH {
            sweep := sweep + [order[i]];
          }
        } else if now < op.prepared.expiresAt && op.prepared.actor.user == user {
          open := open + 1;
        }
      }
      assert order[..|order|] == order;
    }

    /** Delete each operation with its approval and its attempts. */
    method SweepOperations(ids: seq<Id>)
      modifies this
      ensures Tables() == Sweep(old(Tables()), Elements(ids))
    {
      ghost var before := Tables();
      NothingSwept(before);
      for i := 0 to |ids|
        invariant Tables() == Sweep(before, Elements(ids[..i]))
      {
        assert Elements(ids[..i + 1]) == Elements(ids[..i]) + {ids[i]};
        SweepOneMore(before, Elements(ids[..i]), ids[i]);
        approvals := approvals - {ids[i]};
        attempts := attempts - {ids[i]};
        ops := ops - {ids[i]};
      }
      assert ids[..|ids|] == ids;
    }

    /** Validate the record and insert it; the primary key refuses a second
        approval. */
    method InsertApprovalRow(id: Id, a: Approval) returns (error: Option<Error>)
      requires id in ops
      modifies this`approvals
      ensures var r := InsertApproval(RowOf(old(Tables()), id), a);
              && (r.Success? ==> error.None? && approvals == old(approvals)[id := StoredApproval(a, Approved)])
              && (r.Failure? ==> error == Some(r.error) && approvals == old(approvals))
    {
      if !ApprovalOk(ops[id].prepared, a) {
        return Some(Unavailable);
      }
      if id in approvals {
        return Some(AlreadyApproved);
      }
      approvals := approvals[id := StoredApproval(a, Approved)];
      error := None;
    }

    /** The insert of a prepared operation: a row with the same content already
        there is returned as it is, any other conflict is an error. */
    method InsertOperation(cap: Capability, id: Id, now: int, intent: Id, approvalId: Id) returns (error: Option<Error>)
      modifies this`ops, this`approvals
      ensures var r := InsertTx(cap, RowOf(old(Tables()), id), id, now, intent, approvalId);
              && (r.Success? ==>
                    error.None? && ops == SetAt(old(ops), id, r.value.op) &&
                    approvals == SetAt(old(approvals), id, r.value.approval))
              && (r.Failure? ==> error == Some(r.error))
    {
      if !cap.origin.FromConnector? {
        return Some(Denied);
      }
      if cap.source.tool.transfer.Push? && cap.authority.external.Unset? {
        return Some(Denied);
      }
      var p := PreparedFor(cap, id, now, intent);
      if !PreparedOk(id, p) {
        return Some(Unavailable);
      }
      if id in ops {
        if ops[id].prepared != p {
          return Some(Unavailable);
        }
      } else {
        ops := ops[id := Op(p, None)];
      }
      error := None;
      if AutoApproveEligible(cap) {
        var a := ApprovalFor(cap, p, approvalId, now, GrantConsent(p.grant.id, cap.origin.autoPin));
        error := InsertApprovalRow(id, a);
      }
      assert SetAt(old(ops), id, Some(ops[id])) == ops;
      assert id !in approvals ==> approvals - {id} == approvals;
    }

    /** Prepare: scan, sweep, refuse past the limit but keep the sweep, plan and
        insert. */
    method PrepareOperation(cap: Capability, order: seq<Id>, now: int, id: Id, plan: Result<Id, Error>,
                            approvalId: Id, io: Io) returns (reply: Reply)
      requires ScanOrder(ops, order)
      modifies this
      ensures var tx := Prepare(old(Tables()), cap, order, now, id, plan, approvalId);
              && Tables() == (if tx.PrepareAbort? || !Landed(io) then old(Tables()) else tx.store)
              && (tx.PrepareAbort? ==> reply == Refused(tx.error))
              && (tx.SweepOnly? && io.Confirmed? ==> reply == Refused(OperationLimit))
              && (reply.Done? <==> tx.PrepareWrite? && io.Confirmed?)
    {
      var saved := Tables();
      var open, sweep := ScanOperations(order, cap.actor.user, now);
      if |sweep| > 0 {
        SweepOperations(sweep);
      }
      ghost var swept := Sweep(saved, Elements(sweep));
      assert Tables() == swept by {
        if sweep == [] {
          NothingSwept(saved);
        }
      }
      var refused := open >= ACTOR_LIMIT;
      if !refused {
        if plan.Failure? {
          Rollback(saved);
          return Refused(plan.error);
        }
        var error := InsertOperation(cap, id, now, plan.value, approvalId);
        if error.Some? {
          Rollback(saved);
          return Refused(error.value);
        }
        InsertPuts(swept, cap, id, now, plan.value, approvalId);
      }
      if !Landed(io) {
        Rollback(saved);
      }
      reply := if io.RolledBack? then Refused(Unavailable)
               else if !io.Confirmed? then UnknownReply
               else if refused then Refused(OperationLimit) else Done;
    }

    // ---- approve -------------------------------------------------------------

    /** A person's approval: the checks, the insert, and COMMIT before the
        operation expires. */
    method ReviewOperation(cap: Capability, id: Id, now: int, approvalId: Id, wall: int, io: Io) returns (reply: Reply)
      modifies this
      ensures var tx := ReviewTx(cap, RowOf(old(Tables()), id), now, approvalId);
              Tables() == After(old(Tables()), id, tx, wall, io) && reply == ReplyFor(tx, wall, io)
    {
      var saved := Tables();
      var op, approval := ReadRow(id);
      if op.None? || !Bound(cap, op.value.prepared) {
        return Refused(Denied);
      }
      if op.value.receipt.None? && !SameSource(cap, op.value.prepared) {
        return Refused(Denied);
      }
      var state := OperationState(cap, op.value, approval.Some?, [], now).0;
      if state.IsExpired? {
        return Refused(ExpiredIntent);
      }
      if state.IsApproved? {
        return Refused(AlreadyApproved);
      }
      if !state.IsPrepared? {
        return Refused(Denied);
      }
      if !cap.origin.FromBrowser? || !cap.origin.direct {
        return Refused(Denied);
      }
      var a := ApprovalFor(cap, op.value.prepared, approvalId, now, Human(cap.origin.session));
      var error := InsertApprovalRow(id, a);
      if error.Some? {
        Rollback(saved);
        return Refused(error.value);
      }
      reply := Finalize(id, saved, op.value.prepared.expiresAt, ReviewTx(cap, RowOf(saved, id), now, approvalId), wall, io);
    }

    /** The coordinator's last step: the barrier, then COMMIT or rollback. */
    method Finalize(id: Id, saved: Store, validUntil: int, ghost tx: Tx, wall: int, io: Io) returns (reply: Reply)
      requires tx.Write? && tx.validUntil == validUntil && Tables() == Put(saved, id, tx.row)
      modifies this
      ensures Tables() == After(saved, id, tx, wall, io) && reply == ReplyFor(tx, wall, io)
    {
      if wall >= validUntil || io.RolledBack? {
        Rollback(saved);
        return Refused(Unavailable);
      }
      if !Landed(io) {
        Rollback(saved);
      }
      reply := if io.Confirmed? then Done else UnknownReply;
    }

    // ---- commit --------------------------------------------------------------

    method Checks(cap: Capability, id: Id, now: int) returns (check: Check)
      ensures check == CommitChecks(cap, RowOf(Tables(), id), now)
    {
      var op, approval := ReadRow(id);
      if op.None? || !Bound(cap, op.value.prepared) {
        return Stop(Denied);
      }
      if op.value.receipt.Some? {
        return Replay;
      }
      if !SameSource(cap, op.value.prepared) {
        return Stop(Denied);
      }
      if Expired(cap, op.value.prepared, now) {
        return Stop(ExpiredIntent);
      }
      if approval.None? {
        return Stop(ApprovalRequired);
      }
      if !approval.value.state.Approved? || approval.value.record.approver.user != op.value.prepared.actor.user {
        return Stop(Denied);
      }
      match approval.value.record.basis {
        case GrantConsent(_, _) =>
          if !GrantApprovalLive(cap, approval.value.record.basis) {
            return Stop(Denied);
          }
        case Human(session) =>
          if (session, approval.value.record.approver.user) !in cap.sessions {
            return Stop(Denied);
          }
      }
      check := Proceed;
    }

    /** Compare-and-swap one attempt's record. */
    method SwapAttempt(id: Id, current: Attempt, next: Attempt) returns (ok: bool)
      modifies this`attempts
      ensures var h := AttemptsOf(old(attempts), id);
              var k := IndexOf(h, current.id);
              && (ok <==> k < |h| && h[k] == current)
              && attempts == if ok then old(attempts)[id := h[k := next]] else old(attempts)
    {
      var h := AttemptsOf(attempts, id);
      var k := IndexOf(h, current.id);
      if k == |h| || h[k] != current {
        return false;
      }
      attempts := attempts[id := h[k := next]];
      ok := true;
    }

    /** Whether the latest attempt lets another one be claimed. */
    static method MayClaim(h: seq<Attempt>, now: int) returns (refusal: Option<Error>)
      ensures refusal == if ClaimRefusal(h, now) == Some(Unavailable) then None else ClaimRefusal(h, now)
    {
      var latest := FindLatest(h);
      if latest.Some? {
        var state := StateNow(latest.value, now, false);
        if state.Running? {
          return Some(InProgress);
        }
        if (state.Unknown? || state.Succeeded?) && !Stale(latest.value, now) {
          return Some(OutcomeUnknown);
        }
      }
      refusal := if |h| >= ATTEMPT_LIMIT then Some(OperationLimit) else None;
    }

    /** Mark a stale running attempt unknown and insert the new one after it. */
    method RecordClaim(id: Id, attempt: Id, now: int) returns (ok: bool)
      requires Distinct(AttemptsOf(attempts, id))
      modifies this`attempts
      ensures var h := AttemptsOf(old(attempts), id);
              && (ok <==> ClaimStart(Latest(h), now) > 0)
              && (ok ==> attempts == old(attempts)[id := Claimed(id, h, attempt, now)])
    {
      var h := AttemptsOf(attempts, id);
      var latest := FindLatest(h);
      var started := now;
      if latest.Some? {
        var k := LatestPosition(h);
        if Stale(latest.value, now) {
          var swapped := SwapAttempt(id, latest.value, Finished(latest.value, AttemptState.Unknown, StaleClaim, now));
          assert swapped;
        }
        if started <= latest.value.startedAt {
          started := latest.value.startedAt + 1;
        }
      }
      if started <= 0 {
        return false;
      }
      attempts := attempts[id := AttemptsOf(attempts, id) + [Attempt(attempt, id, started, Running, NoClass, 0)]];
      ok := true;
    }

    /** Commit phase one. */
    method ClaimAttempt(cap: Capability, id: Id, now: int, attempt: Id, wall: int, io: Io) returns (reply: Reply)
      requires Distinct(AttemptsOf(attempts, id))
      modifies this
      ensures var tx := ClaimTx(cap, id, RowOf(old(Tables()), id), now, attempt);
              Tables() == After(old(Tables()), id, tx, wall, io) && reply == ReplyFor(tx, wall, io)
    {
      var saved := Tables();
      ghost var tx := ClaimTx(cap, id, RowOf(saved, id), now, attempt);
      var check := Checks(cap, id, now);
      if check.Stop? {
        return Refused(check.error);
      }
      var op, approval := ReadRow(id);
      if check.Replay? {
        var ok := approval.Some? && ReceiptOk(op.value.prepared, op.value.receipt.value, approval.value);
        return if ok then Answered else Refused(Unavailable);
      }
      var refusal := MayClaim(AttemptsOf(attempts, id), now);
      if refusal.Some? {
        return Refused(refusal.value);
      }
      var ok := RecordClaim(id, attempt, now);
      if !ok {
        Rollback(saved);
        return Refused(Unavailable);
      }
      PutHistory(saved, id, Claimed(id, AttemptsOf(saved.attempts, id), attempt, now));
      reply := Finalize(id, saved, op.value.prepared.expiresAt, tx, wall, io);
    }

    // ---- apply ---------------------------------------------------------------

    /** Queue one effect job and remember its id. */
    method EnqueueEffect(p: Prepared, done: Work, intent: Effects.Intent) returns (work: Option<Work>)
      modifies this`jobs
      ensures if |done.effects| >= Effects.EFFECT_LIMIT then work.None? && jobs == old(jobs)
              else
                var effect := Effects.Effect(|old(jobs)| + 1, intent);
                work == Some(done.(effects := done.effects + [effect])) &&
                jobs == old(jobs) + [Job(p.id, effect, p.grant, p.authority)]
    {
      if |done.effects| >= Effects.EFFECT_LIMIT {
        return None;
      }
      var effect := Effects.Effect(|jobs| + 1, intent);
      jobs := jobs + [Job(p.id, effect, p.grant, p.authority)];
      work := Some(done.(effects := done.effects + [effect]));
    }

    /** The apply phase: every write and every queued job is in the open
        transaction; the first error ends it. */
    method RunPhase(p: Prepared, steps: seq<WorkStep>) returns (r: Result<Work, Error>)
      modifies this`jobs
      ensures r == RunWork(steps, Work([], []), |old(jobs)|)
      ensures r.Success? <==> NeverFails(steps) && |IntentsOf(steps)| <= Effects.EFFECT_LIMIT
      ensures r.Success? ==> r.value == Work(WritesOf(steps), Numbered(IntentsOf(steps), |old(jobs)|))
      ensures r.Success? ==> jobs == old(jobs) + StampJobs(p, Numbered(IntentsOf(steps), |old(jobs)|))
    {
      var done := Work([], []);
      ghost var start := jobs;
      FreshWorkMeans(steps, |jobs|);
      assert jobs == start + StampJobs(p, done.effects);
      for i := 0 to |steps|
        invariant |jobs| == |start| + |done.effects|
        invariant jobs == start + StampJobs(p, done.effects)
        invariant RunWork(steps, Work([], []), |start|) == RunWork(steps[i..], done, |jobs|)
      {
        assert steps[i..][1..] == steps[i + 1..];
        match steps[i] {
          case Fail(e) => return Failure(e);
          case BusinessWrite(v) => done := done.(writes := done.writes + [v]);
          case Enqueue(intent) =>
            var next := EnqueueEffect(p, done, intent);
            if next.None? {
              return Failure(Unavailable);
            }
            assert StampJobs(p, next.value.effects) ==
                   StampJobs(p, done.effects) + [Job(p.id, next.value.effects[|done.effects|], p.grant, p.authority)];
            done := next.value;
        }
      }
      r := Success(done);
    }

    /** approved -> consumed, exactly once: the swap compares the stored state. */
    method ConsumeApproval(id: Id, current: StoredApproval, attempt: Id, at: int) returns (ok: bool)
      modifies this`approvals
      ensures ok <==> StateOk(StoredApproval(current.record, Consumed(attempt, at))) && Lookup(old(approvals), id) == Some(current)
                      && current.state.Approved?
      ensures approvals == if ok then old(approvals)[id := StoredApproval(current.record, Consumed(attempt, at))] else old(approvals)
    {
      var consumed := StoredApproval(current.record, Consumed(attempt, at));
      if !StateOk(consumed) || !current.state.Approved? {
        return false;
      }
      if id !in approvals || approvals[id] != current {
        return false;
      }
      approvals := approvals[id := consumed];
      ok := true;
    }

    /** Attach the receipt to the operation it was prepared for; a stored receipt
        is immutable. */
    method StoreReceipt(id: Id, receipt: Receipt) returns (ok: bool)
      modifies this`ops
      ensures ok <==> id in old(ops) && old(ops)[id].prepared == receipt.prepared &&
                      (old(ops)[id].receipt.None? || old(ops)[id].receipt == Some(receipt))
      ensures ops == if ok then old(ops)[id := Op(receipt.prepared, Some(receipt))] else old(ops)
    {
      if id !in ops || ops[id].prepared != receipt.prepared {
        return false;
      }
      if ops[id].receipt.Some? {
        ok := ops[id].receipt.value == receipt;
        assert ok ==> ops[id := Op(receipt.prepared, Some(receipt))] == ops;
        return;
      }
      ops := ops[id := Op(receipt.prepared, Some(receipt))];
      ok := true;
    }

    /** Until when a claim that is still ours holds. */
    static method HeldUntil(h: seq<Attempt>, attempt: Id, now: int, expiresAt: int) returns (until: Option<int>)
      ensures until.Some? <==> ClaimIsOurs(h, attempt, now)
      ensures until.Some? ==> until.value == Barrier(Latest(h).value.startedAt, expiresAt)
    {
      var latest := FindLatest(h);
      if latest.None? || latest.value.id != attempt || !StateNow(latest.value, now, false).Running? {
        return None;
      }
      var validUntil := latest.value.startedAt + COMMAND_TIMEOUT;
      if expiresAt < validUntil {
        validUntil := expiresAt;
      }
      until := Some(validUntil);
    }

    /** Commit phase two: the claim must still be ours with time left, then the
        business work, the approval, the receipt and COMMIT before the barrier,
        all or nothing. */
    method CommitOperation(cap: Capability, id: Id, now: int, attempt: Id, steps: seq<WorkStep>, consumedAt: int,
                           readback: Id, wall: int, io: Io) returns (reply: Reply)
      requires RowInv(id, RowOf(Tables(), id))
      modifies this
      ensures var s := old(Tables());
              var tx := ApplyTx(cap, RowOf(s, id), now, attempt, steps, |s.jobs|, consumedAt, readback);
              Tables() == After(s, id, tx, wall, io) && reply == (if tx.ReadOnly? then Refused(Denied) else ReplyFor(tx, wall, io))
      ensures reply.Done? ==>
                && id in old(ops) && log == old(log) + [Application(id, attempt, WritesOf(steps))]
                && jobs == old(jobs) + StampJobs(old(ops)[id].prepared, Numbered(IntentsOf(steps), |old(jobs)|))
    {
      var saved := Tables();
      ghost var row := RowOf(saved, id);
      var check := Checks(cap, id, now);
      if check.Stop? {
        return Refused(check.error);
      }
      if check.Replay? {
        return Refused(Denied);
      }
      ProceedMeans(cap, row, now);
      var p, approval := ops[id].prepared, approvals[id];
      var claim := HeldUntil(AttemptsOf(attempts, id), attempt, now, p.expiresAt);
      if claim.None? || now >= claim.value {
        return Refused(Denied);
      }
      var work := RunPhase(p, steps);
      if work.Failure? {
        Rollback(saved);
        return Refused(work.error);
      }
      var error := Conclude(id, p, approval, attempt, work.value, consumedAt, readback);
      if error.Some? {
        Rollback(saved);
        return Refused(error.value);
      }
      AppliedPuts(saved, id, attempt, work.value, consumedAt, readback);
      reply := Finalize(id, saved, claim.value, ApplyTx(cap, row, now, attempt, steps, |saved.jobs|, consumedAt, readback),
                        wall, io);
    }

    /** After the work: consume the approval, store the receipt, and read back
        what will commit. */
    method Conclude(id: Id, p: Prepared, approval: StoredApproval, attempt: Id, work: Work, consumedAt: int,
                    readback: Id) returns (error: Option<Error>)
      requires id in ops && ops[id] == Op(p, None) && id in approvals && approvals[id] == approval
      requires PreparedOk(id, p) && ApprovalOk(p, approval.record) && approval.state.Approved?
      modifies this`ops, this`approvals, this`log
      ensures error == if consumedAt >= p.expiresAt then Some(ExpiredIntent)
                       else if consumedAt < approval.record.approvedAt || !Effects.EffectsOk(work.effects) then Some(Unavailable)
                       else None
      ensures error.None? ==>
                && ops == old(ops)[id := Op(p, Some(Receipt(p, approval.record, attempt, consumedAt, readback, work.effects)))]
                && approvals == old(approvals)[id := StoredApproval(approval.record, Consumed(attempt, consumedAt))]
                && log == old(log) + [Application(id, attempt, work.writes)]
    {
      if consumedAt >= p.expiresAt {
        return Some(ExpiredIntent);
      }
      var receipt := Receipt(p, approval.record, attempt, consumedAt, readback, work.effects);
      log := log + [Application(id, attempt, work.writes)];
      var ok := ConsumeApproval(id, approval, attempt, consumedAt);
      if !ok {
        return Some(Unavailable);
      }
      ok := StoreReceipt(id, receipt);
      assert ok;
      if !ReceiptOk(p, receipt, approvals[id]) {
        return Some(Unavailable);
      }
      error := None;
    }

    // ---- record --------------------------------------------------------------

    /** Commit phase three, one try: idempotent on an attempt that is already
        terminal; an unknown outcome is first reconciled from the receipt. The
        recorded state is returned only when COMMIT confirmed. */
    method FinishAttempt(id: Id, attempt: Id, t: Terminal, now: int, io: Io) returns (recorded: Option<AttemptState>)
      requires Distinct(AttemptsOf(attempts, id)) && !t.state.Running?
      modifies this
      ensures var row := RowOf(old(Tables()), id);
              var next := SettleRow(row, attempt, t, now);
              && (next.None? ==> recorded.None? && Tables() == old(Tables()))
              && (next == Some(row) ==> recorded.Some? && Tables() == old(Tables()))
              && (next.Some? && next.value != row ==>
                    Tables() == (if Landed(io) then Put(old(Tables()), id, next.value) else old(Tables())) &&
                    (recorded.Some? <==> io.Confirmed?))
              && (recorded.Some? ==> recorded.value == next.value.history[IndexOf(row.history, attempt)].state)
    {
      var saved := Tables();
      var h := AttemptsOf(attempts, id);
      var k := IndexOf(h, attempt);
      if k == |h| {
        return None;
      }
      if !h[k].state.Running? {
        return Some(h[k].state);
      }
      var result := t;
      if t.state.Unknown? && id in ops && ops[id].receipt.Some? {
        result := Terminal(Succeeded, NoClass);
      }
      var next := Finished(h[k], result.state, result.errorClass, now);
      var ok := SwapAttempt(id, h[k], next);
      ghost var row := RowOf(saved, id);
      assert attempts == saved.attempts[id := h[k := next]];
      assert h[k := next][k] != h[k];
      PutHistory(saved, id, h[k := next]);
      if !Landed(io) {
        Rollback(saved);
      }
      recorded := if io.Confirmed? then Some(result.state) else None;
    }

    // ---- the union validator -------------------------------------------------

    /** The maintenance checker: every approval and attempt belongs to an
        operation, and every operation is coherent with its approval. */
    method ValidateUnion() returns (ok: bool)
      ensures ok <==> TablesOk(Tables())
    {
      var pending := approvals.Keys;
      while pending != {}
        invariant pending <= approvals.Keys
        invariant forall id :: id in approvals && id !in pending ==> id in ops
        decreases |pending|
      {
        var id :| id in pending;
        if id !in ops {
          return false;
        }
        pending := pending - {id};
      }
      pending := ops.Keys;
      while pending != {}
        invariant pending <= ops.Keys
        invariant forall id :: id in ops && id !in pending ==> OperationCoherent(id)
        decreases |pending|
      {
        var id :| id in pending;
        if !OperationCoherent(id) {
          return false;
        }
        pending := pending - {id};
      }
      pending := attempts.Keys;
      while pending != {}
        invariant pending <= attempts.Keys
        invariant forall id :: id in attempts && id !in pending ==> attempts[id] == [] || id in ops
        decreases |pending|
      {
        var id :| id in pending;
        if attempts[id] != [] && id !in ops {
          return false;
        }
        pending := pending - {id};
      }
      ok := true;
    }

    predicate OperationCoherent(id: Id)
      requires id in ops
      reads this
    {
      RowUnion(id, Row(Some(ops[id]), Lookup(approvals, id), AttemptsOf(attempts, id), [], []))
    }
  }

  lemma AppliedPuts(s: Store, id: Id, attempt: Id, work: Work, consumedAt: int, readback: Id)
    requires RowInv(id, RowOf(s, id)) && id in s.ops && s.ops[id].receipt.None? && id in s.approvals
    ensures var row := RowOf(s, id);
            var p, a := s.ops[id].prepared, s.approvals[id];
            Put(s, id, AppliedRow(row, attempt, work, consumedAt, readback)) ==
            Store(s.ops[id := Op(p, Some(Receipt(p, a.record, attempt, consumedAt, readback, work.effects)))],
                  s.approvals[id := StoredApproval(a.record, Consumed(attempt, consumedAt))], s.attempts,
                  s.log + [Application(id, attempt, work.writes)], s.jobs + StampJobs(p, work.effects))
  {
    var row := AppliedRow(RowOf(s, id), attempt, work, consumedAt, readback);
    assert row.applied == [Application(id, attempt, work.writes)];
    assert Tail(row.applied, 0) == row.applied;
    assert row.jobs == StampJobs(s.ops[id].prepared, work.effects);
    assert Tail(row.jobs, 0) == row.jobs;
  }

  lemma NothingSwept(s: Store)
    ensures Elements([]) == {} && Sweep(s, {}) == s
  {
    assert s.ops - {} == s.ops && s.approvals - {} == s.approvals && s.attempts - {} == s.attempts;
  }

  lemma LatestPosition(h: seq<Attempt>) returns (k: nat)
    requires Distinct(h)
    ensures h != [] ==> k < |h| && Latest(h) == Some(h[k]) && IndexOf(h, h[k].id) == k
  {
    k := 0;
    if h != [] {
      k := LatestIsGreatest(h);
      IndexIsPosition(h, k);
    }
  }

  /** A row whose history alone changes is put back by writing that history. */
  lemma PutHistory(s: Store, id: Id, h: seq<Attempt>)
    requires h != AttemptsOf(s.attempts, id)
    ensures Put(s, id, RowOf(s, id).(history := h)) == s.(attempts := s.attempts[id := h])
  {
  }

  lemma InsertPuts(s: Store, cap: Capability, id: Id, now: int, intent: Id, approvalId: Id)
    requires InsertTx(cap, RowOf(s, id), id, now, intent, approvalId).Success?
    ensures var r := InsertTx(cap, RowOf(s, id), id, now, intent, approvalId).value;
            Put(s, id, r) == s.(ops := SetAt(s.ops, id, r.op), approvals := SetAt(s.approvals, id, r.approval))
  {
  }
}
