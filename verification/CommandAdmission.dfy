/** Who may do what: each transaction of the protocol, read off the request, the
    owner record and the stored rows, field by field. */
module CommandAdmission {
  import opened Wrappers
  import opened Attempts
  import opened OwnerRecord
  import Owner = OwnerAuthority
  import Effects
  import opened Commands
  import opened CommandRows
  import opened CommandStore
  import opened CommandRuns
  import opened CommandSafety

  // ---- the request and the owner record ------------------------------------------

  /** Writes are on, a connector's request is pinned to the record's two epochs on
      an exposed connector, and a push finds external export on. */
  predicate Admitted(owner: Option<OwnerState>, r: Request) {
    && owner.Some? && owner.value.approvedWrites == Some(true) && owner.value.writeEpoch.Token?
    && (r.origin.ConnectorPin? ==>
          owner.value.exposed && owner.value.version == 2 && r.origin.epoch == owner.value.epoch &&
          r.origin.writeEpoch == owner.value.writeEpoch)
    && (r.source.tool.transfer.Push? && !r.readOnlyStatus ==>
          owner.value.externalExport.on && owner.value.externalExport.epoch.Token?)
  }

  /** The grant's consent, in the present auto-approval epoch, to this tool as it
      is now. */
  predicate StandingConsent(st: OwnerState, r: Request) {
    && r.origin.ConnectorPin? && r.source.tool.grantApproval && r.source.tool.transfer.NoTransfer?
    && st.autoApprove.on && st.autoApprove.epoch.Token?
    && r.origin.autoEpoch == st.autoApprove.epoch && r.origin.grantAutoEpoch == st.autoApprove.epoch
    && Consent(r.source.tool.name, r.source.contract, r.source.execution) in r.origin.consented
  }

  /** The same source, person and grant, and the same standing if one was noted. */
  predicate SameCaller(r: Request, p: Prepared) {
    && p.source == r.source && p.actor == r.actor
    && (p.standing.role.Token? ==> p.standing == r.standing)
    && (r.origin.ConnectorPin? ==> p.grant == r.origin.grant)
  }

  /** Within its lifetime, under epochs the record still has. */
  predicate InForce(owner: Option<OwnerState>, r: Request, p: Prepared, now: int) {
    now < p.expiresAt && !EpochsGoneFor(owner, p, r.source.tool.transfer.Push?)
  }

  /** Whoever approved still stands behind it: the browser session is live, or the
      standing consent is that of the approving grant in the approving epoch. */
  predicate ApprovalStands(st: OwnerState, r: Request, a: Approval) {
    match a.basis
    case Human(session) => (session, a.approver.user) in r.sessions
    case GrantConsent(grant, epoch) =>
      StandingConsent(st, r) && grant == r.origin.grant.id && epoch == st.autoApprove.epoch
  }

  /** The coordinator admits exactly such requests, and hands on the request's own
      source, actor, standing and sessions with the record's epochs. */
  lemma AdmitIff(owner: Option<OwnerState>, r: Request)
    ensures Admit(owner, r).Some? <==> Admitted(owner, r)
    ensures Admit(owner, r).Some? ==>
              var cap, st := Admit(owner, r).value, owner.value;
              && cap.source == r.source && cap.actor == r.actor && cap.standing == r.standing && cap.sessions == r.sessions
              && cap.authority == Authority(st.epoch, st.writeEpoch,
                                            if r.source.tool.transfer.Push? then st.externalExport.epoch else Unset)
              && (AutoApproveEligible(cap) <==> StandingConsent(st, r))
              && (r.origin.BrowserPin? ==> cap.origin == FromBrowser(r.origin.session, r.origin.direct))
              && (r.origin.ConnectorPin? ==>
                    cap.origin.FromConnector? && cap.origin.grant == r.origin.grant && cap.origin.autoPin == r.origin.autoEpoch)
  {
  }

  // ---- prepare ---------------------------------------------------------------------

  /** The record a prepare stores. */
  function PreparedUnder(st: OwnerState, r: Request, id: Id, now: int, intent: Id): Prepared
    requires r.origin.ConnectorPin?
  {
    Prepared(id, r.source, r.actor, r.standing, r.origin.grant,
             Authority(st.epoch, st.writeEpoch, if r.source.tool.transfer.Push? then st.externalExport.epoch else Unset),
             now, now + 900, intent)
  }

  /** For an id not yet used, an admitted prepare succeeds exactly for a connector's
      request; it stores the request's own record, and an approval exactly when
      there is standing consent, by the grant that gave it. */
  lemma PrepareStores(key: string, owner: Option<OwnerState>, r: Request, id: Id, row: Row, now: int, intent: Id, approvalId: Id)
    requires Owner.SoundRecord(key, owner) && RowInv(id, row) && row.op.None? && now > 0 && !r.readOnlyStatus
    requires Admit(owner, r).Some?
    ensures var result := InsertTx(Admit(owner, r).value, row, id, now, intent, approvalId);
            && (result.Success? <==> r.origin.ConnectorPin?)
            && (result.Success? ==>
                  var p := PreparedUnder(owner.value, r, id, now, intent);
                  && result.value == row.(op := Some(Op(p, None)), approval := result.value.approval)
                  && (result.value.approval.Some? <==> StandingConsent(owner.value, r))
                  && (result.value.approval.Some? ==>
                        result.value.approval.value ==
                        StoredApproval(Approval(approvalId, p, r.actor, now, now + 900,
                                                GrantConsent(r.origin.grant.id, owner.value.autoApprove.epoch)), Approved)))
  {
  }

  /** Any step that brings an operation into being is a prepare of an admitted
      connector's request, and stores that, with an approval exactly under
      standing consent. */
  lemma NewOperationsArePrepared(sys: System, e: Event, id: Id)
    requires Inv(sys) && ValidEvent(sys, e) && RowOf(sys.store, id).op.None? && RowOf(Next(sys, e).store, id).op.Some?
    ensures e.PrepareEvent? && e.id == id && e.plan.Success? && Landed(e.io)
    ensures Admitted(sys.owner, e.request) && e.request.origin.ConnectorPin?
    ensures var row := RowOf(Next(sys, e).store, id);
            && row.op == Some(Op(PreparedUnder(sys.owner.value, e.request, id, e.now, e.plan.value), None))
            && (row.approval.Some? <==> StandingConsent(sys.owner.value, e.request))
  {
    var before := RowOf(sys.store, id);
    assert RowInv(id, before);
    OnlyAPrepareInserts(sys, e, id);
    PreparedInto(sys, e);
  }

  lemma OnlyAPrepareInserts(sys: System, e: Event, id: Id)
    requires Inv(sys) && ValidEvent(sys, e) && RowOf(sys.store, id).op.None? && RowOf(Next(sys, e).store, id).op.Some?
    ensures e.PrepareEvent? && e.id == id
  {
    match e
    case PrepareEvent(_, _, _, _, _, _, _) => PrepareRow(sys, e, id);
    case ReviewEvent(_, _, _, _, _, _) => ReviewRow(sys, e, id);
    case ClaimEvent(_, _, _, _, _, _) => ClaimRow(sys, e, id);
    case ApplyEvent(_, _, _, _, _, _, _, _) => ApplyRow(sys, e, id);
    case SettleEvent(_, _, _) => SettleChange(sys, e, id);
    case CrashEvent(_) =>
    case OwnerEvent(_, _, _) =>
  }

  lemma PreparedInto(sys: System, e: Event)
    requires Inv(sys) && e.PrepareEvent? && ValidEvent(sys, e)
    requires RowOf(sys.store, e.id).op.None? && RowOf(Next(sys, e).store, e.id).op.Some?
    ensures e.plan.Success? && Landed(e.io) && Admitted(sys.owner, e.request) && e.request.origin.ConnectorPin?
    ensures var row := RowOf(Next(sys, e).store, e.id);
            && row.op == Some(Op(PreparedUnder(sys.owner.value, e.request, e.id, e.now, e.plan.value), None))
            && (row.approval.Some? <==> StandingConsent(sys.owner.value, e.request))
  {
    var before := RowOf(sys.store, e.id);
    assert RowInv(e.id, before);
    AdmitIff(sys.owner, e.request);
    var cap := Admit(sys.owner, e.request).value;
    var swept := PrepareIsLocal(sys.store, cap, e.order, e.now, e.id, e.plan, e.approvalId, e.id);
    assert swept == before;
    PrepareStores(sys.key, sys.owner, e.request, e.id, swept, e.now, e.plan.value, e.approvalId);
  }

  // ---- approve ---------------------------------------------------------------------

  /** A person may approve exactly an operation of their own that waits for it, from
      a direct browser login, under the source it was prepared for and while it is
      in force; the approval stored is theirs. */
  lemma ReviewIff(key: string, owner: Option<OwnerState>, r: Request, id: Id, row: Row, now: int, approvalId: Id)
    requires Owner.SoundRecord(key, owner) && RowInv(id, row) && Admit(owner, r).Some?
    ensures var tx := ReviewTx(Admit(owner, r).value, row, now, approvalId);
            && (tx.Write? <==>
                  && row.op.Some? && !row.Done() && row.approval.None?
                  && SameCaller(r, row.op.value.prepared) && InForce(owner, r, row.op.value.prepared, now)
                  && r.origin.BrowserPin? && r.origin.direct && row.op.value.prepared.createdAt <= now)
            && (tx.Write? ==>
                  var p := row.op.value.prepared;
                  tx == Write(row.(approval := Some(StoredApproval(
                                Approval(approvalId, p, r.actor, now, p.expiresAt, Human(r.origin.session)), Approved))),
                              p.expiresAt))
  {
  }

  // ---- commit ----------------------------------------------------------------------

  /** Both commit phases go ahead exactly for the operation's own caller, under the
      source it was prepared for, while it is in force, unfinished and approved, and
      its approver still stands behind it. */
  lemma MayCommitIff(key: string, owner: Option<OwnerState>, r: Request, id: Id, row: Row, now: int)
    requires Owner.SoundRecord(key, owner) && RowInv(id, row)
    ensures (Admit(owner, r).Some? && CommitChecks(Admit(owner, r).value, row, now).Proceed?) <==>
            && Admitted(owner, r) && row.op.Some? && !row.Done() && row.approval.Some?
            && SameCaller(r, row.op.value.prepared) && InForce(owner, r, row.op.value.prepared, now)
            && ApprovalStands(owner.value, r, row.approval.value.record)
  {
  }

  /** What the other callers are told: an operation that is done is answered from
      its receipt whenever tool, person and grant fit, and one that only lacks its
      approval, or only has run out, is told so. */
  lemma RefusalMeans(owner: Option<OwnerState>, r: Request, id: Id, row: Row, now: int)
    requires RowInv(id, row) && row.op.Some? && Admit(owner, r).Some?
    ensures var check, p := CommitChecks(Admit(owner, r).value, row, now), row.op.value.prepared;
            && (check.Replay? <==>
                  row.Done() && p.source.tool.name == r.source.tool.name && p.actor == r.actor &&
                  (r.origin.ConnectorPin? ==> p.grant == r.origin.grant))
            && (check == Stop(ExpiredIntent) <==> !row.Done() && SameCaller(r, p) && !InForce(owner, r, p, now))
            && (check == Stop(ApprovalRequired) <==>
                  !row.Done() && SameCaller(r, p) && InForce(owner, r, p, now) && row.approval.None?)
            && (check.Replay? ==> ReplayTx(row) == ReadOnly)
  {
  }

  /** Another attempt may follow exactly the first time, after a failed or
      conflicting one, or after one that ran for 35 seconds without an outcome, and
      five attempts are the most. */
  predicate MayFollow(h: seq<Attempt>, now: int) {
    h == [] ||
    (|h| < 5 && var last := h[|h| - 1];
     last.state.Failed? || last.state.Conflict? || (last.state.Running? && now >= last.startedAt + 35))
  }

  lemma ClaimIff(cap: Capability, id: Id, row: Row, now: int, attempt: Id)
    requires RowInv(id, row) && CommitChecks(cap, row, now).Proceed? && now > 0
    ensures var tx := ClaimTx(cap, id, row, now, attempt);
            && (tx.Write? <==> MayFollow(row.history, now))
            && (!tx.Write? ==>
                  var last := row.history[|row.history| - 1];
                  tx.Abort? &&
                  tx.error == (if last.state.Running? && now < last.startedAt + 35 then InProgress
                               else if last.state.Unknown? then OutcomeUnknown
                               else OperationLimit))
  {
    ProceedMeans(cap, row, now);
    if row.history != [] {
      LatestIsLast(row.history);
    }
  }

  /** An apply goes through exactly when its attempt is the last and runs, less than
      30 seconds old and before the operation's expiry, its steps do not fail and
      queue at most 64 well-formed effects, and the approval is consumed between
      being given and expiring. */
  lemma ApplyIff(cap: Capability, id: Id, row: Row, now: int, attempt: Id, steps: seq<WorkStep>, queued: nat,
                 consumedAt: int, readback: Id)
    requires RowInv(id, row) && CommitChecks(cap, row, now).Proceed?
    ensures var tx := ApplyTx(cap, row, now, attempt, steps, queued, consumedAt, readback);
            var p, h := row.op.value.prepared, row.history;
            && (tx.Write? <==>
                  && h != [] && h[|h| - 1].id == attempt && h[|h| - 1].state.Running?
                  && now < h[|h| - 1].startedAt + 30 && now < p.expiresAt
                  && NeverFails(steps) && |IntentsOf(steps)| <= 64
                  && Effects.EffectsOk(Numbered(IntentsOf(steps), queued))
                  && row.approval.value.record.approvedAt <= consumedAt < p.expiresAt)
            && (tx.Write? ==>
                  tx.validUntil == if p.expiresAt < h[|h| - 1].startedAt + 30 then p.expiresAt else h[|h| - 1].startedAt + 30)
  {
    ProceedMeans(cap, row, now);
    if row.history != [] {
      LatestIsLast(row.history);
    }
    FreshWorkMeans(steps, queued);
  }

  /** Over runs: an operation gets its receipt only by an apply of a process that
      claimed it, requested by the operation's own caller, under the source it was
      prepared for, in force, with its approver standing behind it. */
  lemma CommitsAreAllowed(sys: System, e: Event, id: Id)
    requires Inv(sys) && ValidEvent(sys, e) && !RowOf(sys.store, id).Done() && RowOf(Next(sys, e).store, id).Done()
    ensures e.ApplyEvent? && Admitted(sys.owner, e.request)
    ensures var row := RowOf(sys.store, id);
            && row.op.Some? && row.approval.Some?
            && SameCaller(e.request, row.op.value.prepared) && InForce(sys.owner, e.request, row.op.value.prepared, e.now)
            && ApprovalStands(sys.owner.value, e.request, row.approval.value.record)
  {
    var row := RowOf(sys.store, id);
    assert RowInv(id, row);
    StepRow(sys, e, id);
    assert e.ApplyEvent? && IsApplying(sys, e.attempt) && sys.clients[e.attempt].operation == id;
    ApplyProceeds(sys, e, id);
    MayCommitIff(sys.key, sys.owner, e.request, id, row, e.now);
  }

  lemma ApplyProceeds(sys: System, e: Event, id: Id)
    requires e.ApplyEvent? && IsApplying(sys, e.attempt) && sys.clients[e.attempt].operation == id
    requires RowOf(Next(sys, e).store, id) != RowOf(sys.store, id)
    ensures Admit(sys.owner, e.request).Some?
    ensures CommitChecks(Admit(sys.owner, e.request).value, RowOf(sys.store, id), e.now).Proceed?
  {
  }

  // ---- record and status -----------------------------------------------------------

  /** The record step ends a running attempt with the outcome it was given, or as
      succeeded if that was unknown and the receipt is there; it never ends before
      it started. */
  lemma SettleRecords(id: Id, row: Row, attempt: Id, t: Terminal, now: int)
    requires RowInv(id, row) && TerminalOk(row, attempt, t)
    requires row.history != [] && row.history[|row.history| - 1].id == attempt && row.history[|row.history| - 1].state.Running?
    ensures var next := SettleRow(row, attempt, t, now);
            && next.Some? && |next.value.history| == |row.history|
            && var last := next.value.history[|row.history| - 1];
               var reconciled := t.state.Unknown? && row.Done();
               && last.state == (if reconciled then Succeeded else t.state)
               && last.errorClass == (if reconciled then NoClass else t.errorClass)
               && last.finishedAt >= last.startedAt && last.finishedAt >= now
               && (last.finishedAt == now || last.finishedAt == last.startedAt)
  {
  }

  /** And on the system, when its COMMIT lands. */
  lemma SettleStepRecords(sys: System, e: Event, id: Id)
    requires Inv(sys) && e.SettleEvent? && IsSettling(sys, e.attempt) && sys.clients[e.attempt].operation == id && Landed(e.io)
    requires var h := RowOf(sys.store, id).history; h != [] && h[|h| - 1].id == e.attempt && h[|h| - 1].state.Running?
    ensures SettleRow(RowOf(sys.store, id), e.attempt, sys.clients[e.attempt].result, e.now) ==
            Some(RowOf(Next(sys, e).store, id))
  {
    var row := RowOf(sys.store, id);
    assert RowInv(id, row);
    SettleIsSmall(sys, e);
    var next := SettleTarget(sys, e);
    SettleRecords(id, row, e.attempt, sys.clients[e.attempt].result, e.now);
    assert next.value != row;
    SettledRow(sys.store, id, next.value, id);
  }

  /** The status, from the rows and the clock. */
  lemma StatusMeans(owner: Option<OwnerState>, r: Request, id: Id, row: Row, now: int)
    requires RowInv(id, row) && row.op.Some? && Admit(owner, r).Some?
    ensures var state := OperationState(Admit(owner, r).value, row.op.value, row.approval.Some?, row.history, now);
            var h, forced := row.history, InForce(owner, r, row.op.value.prepared, now);
            && (state.0.IsCommitted? <==> row.Done())
            && (state.0.IsExpired? <==> !row.Done() && !forced)
            && (state.0.IsApproved? <==> !row.Done() && forced && h == [] && row.approval.Some?)
            && (state.0.IsPrepared? <==> !row.Done() && forced && h == [] && row.approval.None?)
            && (state.0.IsAttempt? ==>
                  var last := h[|h| - 1];
                  state.0.state == if last.state.Running? && now >= last.startedAt + 35 then AttemptState.Unknown else last.state)
            && (state.1.Undetermined? <==>
                  !row.Done() && forced && h != [] && (h[|h| - 1].state.Running? || h[|h| - 1].state.Unknown?))
            && (state.1.Committed? <==> row.Done())
  {
    ExpiredMeans(owner, r, row.op.value.prepared, now);
    if row.history != [] {
      LatestIsLast(row.history);
    }
  }

  // ---- limit and sweep ---------------------------------------------------------------

  /** A prepare finds the limit reached exactly when twenty of the actor's operations
      are unfinished and within their lifetime; either way each other operation is
      gone if the scan picked it, and as it was if not. */
  lemma LimitMeans(s: Store, cap: Capability, order: seq<Id>, now: int, id: Id, plan: Result<Id, Error>, approvalId: Id,
                   other: Id)
    requires StoreInv(s) && ScanOrder(s.ops, order)
    ensures var tx := Prepare(s, cap, order, now, id, plan, approvalId);
            && (tx.SweepOnly? <==>
                  |set o | o in s.ops && s.ops[o].receipt.None? && now < s.ops[o].prepared.expiresAt &&
                           s.ops[o].prepared.actor.user == cap.actor.user| >= 20)
            && (tx.SweepOnly? || (tx.PrepareWrite? && other != id) ==>
                  var row, next := RowOf(s, other), RowOf(tx.store, other);
                  next == if other in ToSweep(s.ops, order, now) then Row(None, None, [], row.applied, row.jobs) else row)
  {
    PrepareKeepsLimit(s, cap, order, now, id, plan, approvalId);
    assert OpenSet(s.ops, cap.actor.user, now) ==
           set o | o in s.ops && s.ops[o].receipt.None? && now < s.ops[o].prepared.expiresAt &&
                   s.ops[o].prepared.actor.user == cap.actor.user;
    var swept := PrepareIsLocal(s, cap, order, now, id, plan, approvalId, other);
  }

  /** A scan picks an unfinished operation exactly when it is an hour past its
      expiry, unless a hundred were picked before it. */
  lemma {:induction false} SweepPicks(ops: map<Id, Op>, order: seq<Id>, now: int, id: Id)
    requires id in order && id in ops
    ensures var sweep := ToSweep(ops, order, now);
            && (id in sweep ==> ops[id].receipt.None? && now >= ops[id].prepared.expiresAt + 3600)
            && (ops[id].receipt.None? && now >= ops[id].prepared.expiresAt + 3600 ==> id in sweep || |sweep| == 100)
  {
    var init, last := order[..|order| - 1], order[|order| - 1];
    if id in init {
      SweepPicks(ops, init, now, id);
    } else {
      assert id == last;
    }
  }
}
