/** Runs of the whole protocol: prepares, approvals, claims, applies and record
    steps of any number of clients, in any order, with crashes and unknown
    COMMITs between them and owner steps anywhere. Times are the events' own, so
    the clock may step back. */
module CommandRuns {
  import opened Wrappers
  import opened Attempts
  import opened OwnerRecord
  import Owner = OwnerAuthority
  import opened Commands
  import opened CommandRows
  import opened CommandStore

  /** A process that holds a claimed attempt: about to apply, or about to record
      how the apply ended. */
  datatype Client = Applying(operation: Id) | Settling(operation: Id, result: Terminal)

  datatype System = System(
    key: string, store: Store, owner: Option<OwnerState>, clients: map<Id, Client>,
    used: set<Id>, tokens: set<Token>)

  datatype Event =
    | PrepareEvent(request: Request, order: seq<Id>, now: int, id: Id, plan: Result<Id, Error>, approvalId: Id, io: Io)
    | ReviewEvent(request: Request, id: Id, now: int, approvalId: Id, wall: int, io: Io)
    | ClaimEvent(request: Request, id: Id, now: int, attempt: Id, wall: int, io: Io)
    | ApplyEvent(request: Request, attempt: Id, now: int, steps: seq<WorkStep>, consumedAt: int, readback: Id,
                 wall: int, io: Io)
    | SettleEvent(attempt: Id, now: int, io: Io)
    | CrashEvent(attempt: Id)
    | OwnerEvent(action: OwnerAction, drawn: Fresh, replacement: Owner.Replacement)

  function Initial(key: string): System {
    System(key, Store(map[], map[], map[], [], []), None, map[], {}, {Unset})
  }

  /** Random ids and epochs are new when drawn; only a status read, which
      changes nothing, is admitted as read-only. */
  predicate ValidEvent(sys: System, e: Event) {
    match e
    case PrepareEvent(request, _, _, id, _, _, _) => id !in sys.used && !request.readOnlyStatus
    case ReviewEvent(request, _, _, _, _, _) => !request.readOnlyStatus
    case ClaimEvent(request, _, _, attempt, _, _) => attempt !in sys.used && !request.readOnlyStatus
    case ApplyEvent(request, _, _, _, _, _, _, _) => !request.readOnlyStatus
    case OwnerEvent(action, drawn, _) => ActionValid(action) && drawn.Valid() && drawn.All() !! sys.tokens
    case _ => true
  }

  // ---- one step --------------------------------------------------------------

  function PrepareStep(sys: System, e: Event): Store
    requires e.PrepareEvent?
  {
    var cap := Admit(sys.owner, e.request);
    if cap.None? then sys.store
    else
      var tx := Prepare(sys.store, cap.value, e.order, e.now, e.id, e.plan, e.approvalId);
      if tx.PrepareAbort? || !Landed(e.io) then sys.store else tx.store
  }

  function ReviewOf(sys: System, e: Event): Tx
    requires e.ReviewEvent?
  {
    var cap := Admit(sys.owner, e.request);
    if cap.None? then Abort(Denied) else ReviewTx(cap.value, RowOf(sys.store, e.id), e.now, e.approvalId)
  }

  function ClaimOf(sys: System, e: Event): Tx
    requires e.ClaimEvent?
  {
    var cap := Admit(sys.owner, e.request);
    if cap.None? then Abort(Denied) else ClaimTx(cap.value, e.id, RowOf(sys.store, e.id), e.now, e.attempt)
  }

  predicate IsApplying(sys: System, attempt: Id) { attempt in sys.clients && sys.clients[attempt].Applying? }
  predicate IsSettling(sys: System, attempt: Id) { attempt in sys.clients && sys.clients[attempt].Settling? }

  function ApplyOf(sys: System, e: Event): Tx
    requires e.ApplyEvent? && IsApplying(sys, e.attempt)
  {
    var cap := Admit(sys.owner, e.request);
    if cap.None? then Abort(Denied)
    else ApplyTx(cap.value, RowOf(sys.store, sys.clients[e.attempt].operation), e.now, e.attempt, e.steps,
                 |sys.store.jobs|, e.consumedAt, e.readback)
  }

  function Reported(r: Reply): Option<Error> {
    match r
    case Done => None
    case UnknownReply => Some(OutcomeUnknown)
    case Refused(e) => Some(e)
    case Answered => Some(Denied)
  }

  function SettleStep(sys: System, e: Event): Store
    requires e.SettleEvent? && IsSettling(sys, e.attempt)
  {
    var c := sys.clients[e.attempt];
    var row := RowOf(sys.store, c.operation);
    var next := SettleRow(row, e.attempt, c.result, e.now);
    if next.Some? && next.value != row && Landed(e.io) then
      Put(sys.store, c.operation, next.value)
    else sys.store
  }

  function Next(sys: System, e: Event): System {
    match e
    case PrepareEvent(_, _, _, id, _, approvalId, _) =>
      sys.(store := PrepareStep(sys, e), used := sys.used + {id, approvalId})
    case ReviewEvent(_, id, _, approvalId, wall, io) =>
      sys.(store := After(sys.store, id, ReviewOf(sys, e), wall, io), used := sys.used + {approvalId})
    case ClaimEvent(_, id, _, attempt, wall, io) =>
      var tx := ClaimOf(sys, e);
      sys.(store := After(sys.store, id, tx, wall, io),
           used := sys.used + {attempt},
           clients := if ReplyFor(tx, wall, io).Done? then sys.clients[attempt := Applying(id)] else sys.clients)
    case ApplyEvent(_, attempt, _, _, _, _, wall, io) =>
      if !IsApplying(sys, attempt) then sys
      else
        var id := sys.clients[attempt].operation;
        var tx := ApplyOf(sys, e);
        sys.(store := After(sys.store, id, tx, wall, io),
             clients := sys.clients[attempt := Settling(id, OutcomeFor(Reported(ReplyFor(tx, wall, io))))])
    case SettleEvent(attempt, _, _) =>
      if !IsSettling(sys, attempt) then sys else sys.(store := SettleStep(sys, e))
    case CrashEvent(attempt) => sys.(clients := sys.clients - {attempt})
    case OwnerEvent(action, drawn, replacement) =>
      sys.(owner := Owner.Replaced(sys.owner, Decide(sys.key, sys.owner, action, drawn), replacement),
           tokens := sys.tokens + drawn.All())
  }

  predicate ValidRun(sys: System, es: seq<Event>)
    decreases |es|
  {
    es == [] || (ValidEvent(sys, es[0]) && ValidRun(Next(sys, es[0]), es[1..]))
  }

  function Run(sys: System, es: seq<Event>): System
    decreases |es|
  {
    if es == [] then sys else Run(Next(sys, es[0]), es[1..])
  }

  // ---- the invariant ---------------------------------------------------------

  function OwnerTokens(owner: Option<OwnerState>): set<Token> {
    if owner.None? then {}
    else
      {owner.value.epoch, owner.value.writeEpoch, owner.value.externalExport.epoch, owner.value.autoApprove.epoch}
  }

  /** Every id and epoch a row mentions has been drawn. */
  predicate RowKnown(sys: System, id: Id, row: Row) {
    && (row.op.Some? ==>
          && id in sys.used
          && row.op.value.prepared.authority.owner in sys.tokens
          && row.op.value.prepared.authority.write in sys.tokens
          && row.op.value.prepared.authority.external in sys.tokens)
    && (row.approval.Some? && row.approval.value.record.basis.GrantConsent? ==>
          row.approval.value.record.basis.epoch in sys.tokens)
    && (forall k :: 0 <= k < |row.history| ==> row.history[k].id in sys.used)
  }

  predicate ClientOk(row: Row, attempt: Id, c: Client) {
    match c
    case Applying(_) => !CommittedBy(row, attempt)
    case Settling(_, t) => TerminalOk(row, attempt, t)
  }

  ghost predicate Inv(sys: System) {
    && Hex32(sys.key) && StoreInv(sys.store) && Owner.SoundRecord(sys.key, sys.owner)
    && Unset in sys.tokens && OwnerTokens(sys.owner) <= sys.tokens
    && (forall id :: RowKnown(sys, id, RowOf(sys.store, id)))
    && (forall a :: a in sys.clients ==>
          a in sys.used && ClientOk(RowOf(sys.store, sys.clients[a].operation), a, sys.clients[a]))
  }

  // ---- what one step does to one operation -----------------------------------

  predicate Removed(before: Row, after: Row) { !before.Done() && after == SweptRow(before) }

  predicate Inserted(before: Row, after: Row) {
    && before.op.None? && after.op.Some? && !after.Done()
    && after == before.(op := after.op, approval := after.approval)
  }

  predicate PersonApproved(before: Row, after: Row) {
    && before.approval.None? && after.approval.Some? && after.approval.value.record.basis.Human?
    && after == before.(approval := after.approval)
  }

  predicate AttemptsMoved(before: Row, after: Row) {
    after == before.(history := after.history) && Continues(before.history, after.history)
  }

  predicate Commits(before: Row, after: Row) {
    && before.op.Some? && !before.Done() && after.Done() && after.op.value.prepared == before.op.value.prepared
    && after.history == before.history && before.history != []
    && CommittedBy(after, before.history[|before.history| - 1].id)
    && before.history[|before.history| - 1].state.Running?
  }

  /** Every attempt a step adds has a newly drawn id. */
  predicate NewAttempts(used: set<Id>, before: Row, after: Row) {
    forall k :: |before.history| <= k < |after.history| ==> after.history[k].id !in used
  }

  predicate RowChange(before: Row, after: Row) {
    || after == before || Removed(before, after) || Inserted(before, after) || PersonApproved(before, after)
    || AttemptsMoved(before, after) || Commits(before, after)
  }

  /** Whether the owner record still carries the authority the operation, and
      its grant approval if it has one, were made under. */
  predicate Alive(owner: Option<OwnerState>, row: Row) {
    && owner.Some? && owner.value.WritesOn() && row.op.Some?
    && owner.value.epoch == row.op.value.prepared.authority.owner
    && owner.value.writeEpoch == row.op.value.prepared.authority.write
    && (row.op.value.prepared.source.tool.transfer.Push? ==>
          owner.value.externalExport.on && owner.value.externalExport.epoch == row.op.value.prepared.authority.external)
    && (row.approval.Some? && row.approval.value.record.basis.GrantConsent? ==>
          owner.value.autoApprove.on && owner.value.autoApprove.epoch == row.approval.value.record.basis.epoch)
  }

  /** What holds at the moment an operation commits. */
  predicate CommitPoint(sys: System, e: Event, before: Row) {
    && e.ApplyEvent? && before.op.Some? && Alive(sys.owner, before)
    && before.history != [] && before.history[|before.history| - 1].id == e.attempt
    && IsApplying(sys, e.attempt) && sys.clients[e.attempt].operation == before.op.value.prepared.id
    && var until := Barrier(before.history[|before.history| - 1].startedAt, before.op.value.prepared.expiresAt);
       e.now < until && e.wall < until
  }

  lemma AdmitMeans(owner: Option<OwnerState>, r: Request)
    requires Admit(owner, r).Some?
    ensures var cap := Admit(owner, r).value;
            && owner.Some? && owner.value.WritesOn() && cap.source == r.source
            && cap.authority.owner == owner.value.epoch && cap.authority.write == owner.value.writeEpoch
            && (r.source.tool.transfer.Push? ==> cap.authority.external == owner.value.externalExport.epoch)
            && (!r.source.tool.transfer.Push? ==> cap.authority.external.Unset?)
            && (r.source.tool.transfer.Push? && !r.readOnlyStatus ==> owner.value.externalExport.on)
            && (cap.origin.FromConnector? && cap.origin.autoLive ==>
                  owner.value.autoApprove.on && cap.origin.autoPin == owner.value.autoApprove.epoch)
  {
  }

  lemma PrepareRow(sys: System, e: Event, id: Id)
    requires Inv(sys) && e.PrepareEvent? && ValidEvent(sys, e)
    ensures StoreInv(Next(sys, e).store)
    ensures var before, after := RowOf(sys.store, id), RowOf(Next(sys, e).store, id);
            && (after == before || Removed(before, after) || Inserted(before, after)) && RowKnown(Next(sys, e), id, after)
            && (before.op.None? && after.op.Some? ==> id == e.id)
  {
    assert RowKnown(sys, id, RowOf(sys.store, id)) && RowInv(id, RowOf(sys.store, id));
    var cap := Admit(sys.owner, e.request);
    if cap.Some? {
      AdmitMeans(sys.owner, e.request);
      PrepareKeeps(sys.store, cap.value, e.order, e.now, e.id, e.plan, e.approvalId);
      var swept := PrepareIsLocal(sys.store, cap.value, e.order, e.now, e.id, e.plan, e.approvalId, id);
      var tx := Prepare(sys.store, cap.value, e.order, e.now, e.id, e.plan, e.approvalId);
      if tx.PrepareWrite? && id == e.id {
        InsertedRow(sys, e, cap.value, swept, RowOf(tx.store, id));
      }
    }
  }

  lemma InsertedRow(sys: System, e: Event, cap: Capability, row: Row, after: Row)
    requires Inv(sys) && e.PrepareEvent? && ValidEvent(sys, e)
    requires Admit(sys.owner, e.request) == Some(cap) && e.plan.Success?
    requires RowInv(e.id, row) && row.op.None?
    requires InsertTx(cap, row, e.id, e.now, e.plan.value, e.approvalId) == Success(after)
    ensures Inserted(row, after) && RowKnown(Next(sys, e), e.id, after)
  {
    AdmitMeans(sys.owner, e.request);
    InsertKeeps(cap, row, e.id, e.now, e.plan.value, e.approvalId);
  }

  /** A transaction's row lands on its own operation, or nothing changes. */
  lemma AfterIsLocal(s: Store, id: Id, tx: Tx, wall: int, io: Io, other: Id)
    requires StoreInv(s)
    requires tx.Write? ==> RowInv(id, tx.row) && Extends(id, RowOf(s, id), tx.row)
    requires tx.Write? ==> forall k :: |JobsOf(s.jobs, id)| <= k < |tx.row.jobs| ==>
               tx.row.jobs[k].effect.id == |s.jobs| + 1 + k - |JobsOf(s.jobs, id)|
    ensures StoreInv(After(s, id, tx, wall, io))
    ensures RowOf(After(s, id, tx, wall, io), other) ==
            if Lands(tx, wall, io) && other == id then tx.row else RowOf(s, other)
  {
    if tx.Write? {
      PutKeeps(s, id, tx.row);
      PutIsLocal(s, id, tx.row, other);
    }
  }

  lemma ReviewTarget(sys: System, e: Event)
    requires Inv(sys) && e.ReviewEvent? && ReviewOf(sys, e).Write?
    ensures var row, next := RowOf(sys.store, e.id), ReviewOf(sys, e).row;
            RowInv(e.id, next) && Extends(e.id, row, next) && PersonApproved(row, next) && RowKnown(sys, e.id, next) &&
            next.jobs == row.jobs
  {
    var row := RowOf(sys.store, e.id);
    assert RowInv(e.id, row) && RowKnown(sys, e.id, row);
    ReviewKeeps(Admit(sys.owner, e.request).value, e.id, row, e.now, e.approvalId);
  }

  lemma ReviewRow(sys: System, e: Event, id: Id)
    requires Inv(sys) && e.ReviewEvent?
    ensures StoreInv(Next(sys, e).store)
    ensures var before, after := RowOf(sys.store, id), RowOf(Next(sys, e).store, id);
            (after == before || PersonApproved(before, after)) && RowKnown(Next(sys, e), id, after)
  {
    assert RowKnown(sys, id, RowOf(sys.store, id));
    var tx := ReviewOf(sys, e);
    if tx.Write? {
      ReviewTarget(sys, e);
    }
    AfterIsLocal(sys.store, e.id, tx, e.wall, e.io, id);
  }

  lemma ClaimTarget(sys: System, e: Event)
    requires Inv(sys) && e.ClaimEvent? && ValidEvent(sys, e) && ClaimOf(sys, e).Write?
    ensures var row, next := RowOf(sys.store, e.id), ClaimOf(sys, e).row;
            RowInv(e.id, next) && Extends(e.id, row, next) && AttemptsMoved(row, next) && next.jobs == row.jobs &&
            !CommittedBy(next, e.attempt) && NewAttempts(sys.used, row, next)
    ensures RowKnown(Next(sys, e), e.id, ClaimOf(sys, e).row)
  {
    var row := RowOf(sys.store, e.id);
    assert RowInv(e.id, row) && RowKnown(sys, e.id, row);
    var cap := Admit(sys.owner, e.request).value;
    ClaimDecision(cap, e.id, row, e.now, e.attempt, sys.used);
    ClaimIsKnown(sys, e, row, ClaimOf(sys, e).row);
  }

  lemma ClaimDecision(cap: Capability, id: Id, row: Row, now: int, attempt: Id, used: set<Id>)
    requires RowInv(id, row) && ClaimTx(cap, id, row, now, attempt).Write? && attempt !in used
    requires forall k :: 0 <= k < |row.history| ==> row.history[k].id in used
    ensures var next := ClaimTx(cap, id, row, now, attempt).row;
            && RowInv(id, next) && Extends(id, row, next) && AttemptsMoved(row, next) && !CommittedBy(next, attempt)
            && NewAttempts(used, row, next) && |next.history| == |row.history| + 1 && next.history[|row.history|].id == attempt
  {
    ClaimKeeps(cap, id, row, now, attempt);
    ProceedMeans(cap, row, now);
  }

  lemma ClaimIsKnown(sys: System, e: Event, row: Row, next: Row)
    requires e.ClaimEvent? && RowKnown(sys, e.id, row) && AttemptsMoved(row, next)
    requires |next.history| == |row.history| + 1 && next.history[|row.history|].id == e.attempt
    ensures RowKnown(Next(sys, e), e.id, next)
  {
  }

  lemma ClaimRow(sys: System, e: Event, id: Id)
    requires Inv(sys) && e.ClaimEvent? && ValidEvent(sys, e)
    ensures StoreInv(Next(sys, e).store)
    ensures var before, after := RowOf(sys.store, id), RowOf(Next(sys, e).store, id);
            (after == before || AttemptsMoved(before, after)) && RowKnown(Next(sys, e), id, after) &&
            NewAttempts(sys.used, before, after)
  {
    assert RowKnown(sys, id, RowOf(sys.store, id));
    var tx := ClaimOf(sys, e);
    if tx.Write? {
      ClaimTarget(sys, e);
    }
    AfterIsLocal(sys.store, e.id, tx, e.wall, e.io, id);
  }

  lemma SettleTarget(sys: System, e: Event) returns (next: Option<Row>)
    requires Inv(sys) && e.SettleEvent? && IsSettling(sys, e.attempt)
    ensures var c := sys.clients[e.attempt];
            var row := RowOf(sys.store, c.operation);
            && next == SettleRow(row, e.attempt, c.result, e.now)
            && (next.Some? ==>
                  RowInv(c.operation, next.value) && Extends(c.operation, row, next.value) &&
                  AttemptsMoved(row, next.value) && RowKnown(sys, c.operation, next.value) && next.value.jobs == row.jobs &&
                  |next.value.history| == |row.history|)
  {
    var c := sys.clients[e.attempt];
    var row := RowOf(sys.store, c.operation);
    assert RowInv(c.operation, row) && RowKnown(sys, c.operation, row);
    next := SettleRow(row, e.attempt, c.result, e.now);
    if next.Some? {
      SettleDecision(c.operation, row, e.attempt, c.result, e.now);
      MoveIsKnown(sys, c.operation, row, next.value);
    }
  }

  lemma SettleDecision(id: Id, row: Row, attempt: Id, t: Terminal, now: int)
    requires RowInv(id, row) && TerminalOk(row, attempt, t) && SettleRow(row, attempt, t, now).Some?
    ensures var next := SettleRow(row, attempt, t, now).value;
            RowInv(id, next) && Extends(id, row, next) && AttemptsMoved(row, next) && |next.history| == |row.history|
  {
    SettleKeeps(id, row, attempt, t, now);
  }

  lemma MoveIsKnown(sys: System, id: Id, row: Row, next: Row)
    requires RowKnown(sys, id, row) && AttemptsMoved(row, next) && |next.history| == |row.history|
    ensures RowKnown(sys, id, next)
  {
  }

  lemma SettleChange(sys: System, e: Event, id: Id)
    requires Inv(sys) && e.SettleEvent?
    ensures StoreInv(Next(sys, e).store)
    ensures var before, after := RowOf(sys.store, id), RowOf(Next(sys, e).store, id);
            (after == before || AttemptsMoved(before, after)) && RowKnown(Next(sys, e), id, after) &&
            NewAttempts(sys.used, before, after)
  {
    assert RowKnown(sys, id, RowOf(sys.store, id));
    SettleIsSmall(sys, e);
    if IsSettling(sys, e.attempt) {
      var next := SettleTarget(sys, e);
      if next.Some? {
        SettledRow(sys.store, sys.clients[e.attempt].operation, next.value, id);
      }
    }
  }

  lemma SettleIsSmall(sys: System, e: Event)
    requires e.SettleEvent?
    ensures Next(sys, e) == sys.(store := if IsSettling(sys, e.attempt) then SettleStep(sys, e) else sys.store)
  {
  }

  lemma SettledRow(s: Store, target: Id, next: Row, id: Id)
    requires StoreInv(s) && RowInv(target, next) && Extends(target, RowOf(s, target), next)
    requires next.jobs == RowOf(s, target).jobs
    ensures StoreInv(Put(s, target, next))
    ensures RowOf(Put(s, target, next), id) == if id == target then next else RowOf(s, id)
  {
    PutKeeps(s, target, next);
    PutIsLocal(s, target, next, id);
  }

  /** The row an apply writes: a commit, whose jobs continue the job table. */
  lemma ApplyDecision(cap: Capability, id: Id, row: Row, now: int, attempt: Id, steps: seq<WorkStep>, queued: nat,
                      consumedAt: int, readback: Id)
    requires RowInv(id, row) && ApplyTx(cap, row, now, attempt, steps, queued, consumedAt, readback).Write?
    ensures var next := ApplyTx(cap, row, now, attempt, steps, queued, consumedAt, readback).row;
            && RowInv(id, next) && Commits(row, next) && CommittedBy(next, attempt) && row.jobs == [] && row.applied == []
            && row.approval.Some? && next.approval.Some? && next.approval.value.record == row.approval.value.record
            && (forall k :: 0 <= k < |next.applied| ==> next.applied[k].operation == id)
            && (forall k :: 0 <= k < |next.jobs| ==> next.jobs[k].operation == id && next.jobs[k].effect.id == queued + 1 + k)
  {
    ApplyKeeps(cap, id, row, now, attempt, steps, queued, consumedAt, readback);
    ProceedMeans(cap, row, now);
    LatestIsLast(row.history);
  }

  lemma ApplyTarget(sys: System, e: Event)
    requires Inv(sys) && e.ApplyEvent? && ValidEvent(sys, e) && IsApplying(sys, e.attempt) && ApplyOf(sys, e).Write?
    ensures var target := sys.clients[e.attempt].operation;
            var row, next := RowOf(sys.store, target), ApplyOf(sys, e).row;
            && RowInv(target, next) && Extends(target, row, next) && Commits(row, next) && CommittedBy(next, e.attempt)
            && RowKnown(sys, target, next) && row.jobs == []
            && forall k :: 0 <= k < |next.jobs| ==> next.jobs[k].effect.id == |sys.store.jobs| + 1 + k
  {
    var target := sys.clients[e.attempt].operation;
    var row, next := RowOf(sys.store, target), ApplyOf(sys, e).row;
    assert RowInv(target, row) && RowKnown(sys, target, row);
    ApplyDecision(Admit(sys.owner, e.request).value, target, row, e.now, e.attempt, e.steps, |sys.store.jobs|,
                  e.consumedAt, e.readback);
    CommitIsKnown(sys, target, row, next);
  }

  lemma CommitIsKnown(sys: System, id: Id, row: Row, next: Row)
    requires RowKnown(sys, id, row) && Commits(row, next) && row.approval.Some? && next.approval.Some?
    requires next.approval.value.record == row.approval.value.record
    ensures RowKnown(sys, id, next)
  {
  }

  /** The commit of one operation: the only step that writes a receipt. */
  lemma ApplyRow(sys: System, e: Event, id: Id)
    requires Inv(sys) && e.ApplyEvent? && ValidEvent(sys, e)
    ensures StoreInv(Next(sys, e).store)
    ensures var before, after := RowOf(sys.store, id), RowOf(Next(sys, e).store, id);
            && RowKnown(Next(sys, e), id, after)
            && (after == before || (Commits(before, after) && CommitPoint(sys, e, before) && CommittedBy(after, e.attempt) &&
                                    IsApplying(sys, e.attempt) && sys.clients[e.attempt].operation == id))
  {
    assert RowKnown(sys, id, RowOf(sys.store, id));
    if IsApplying(sys, e.attempt) {
      var target := sys.clients[e.attempt].operation;
      var tx := ApplyOf(sys, e);
      if tx.Write? {
        ApplyTarget(sys, e);
        if InTime(tx, e.wall) {
          assert RowInv(target, RowOf(sys.store, target));
          ApplyIsCommitPoint(sys, e, RowOf(sys.store, target));
        }
      }
      AfterIsLocal(sys.store, target, tx, e.wall, e.io, id);
    }
  }

  lemma ApplyIsCommitPoint(sys: System, e: Event, row: Row)
    requires e.ApplyEvent? && IsApplying(sys, e.attempt) && !e.request.readOnlyStatus
    requires row == RowOf(sys.store, sys.clients[e.attempt].operation)
    requires RowInv(sys.clients[e.attempt].operation, row)
    requires InTime(ApplyOf(sys, e), e.wall)
    ensures CommitPoint(sys, e, row)
  {
    var cap := Admit(sys.owner, e.request).value;
    AdmitMeans(sys.owner, e.request);
    ProceedMeans(cap, row, e.now);
    assert row.history != [];
    LatestIsLast(row.history);
  }

  // ---- every step keeps the invariant ----------------------------------------

  /** What any step does to any operation; a receipt appears only at a commit
      point. */
  lemma StepRow(sys: System, e: Event, id: Id)
    requires Inv(sys) && ValidEvent(sys, e)
    ensures StoreInv(Next(sys, e).store)
    ensures var before, after := RowOf(sys.store, id), RowOf(Next(sys, e).store, id);
            && RowChange(before, after) && RowKnown(Next(sys, e), id, after) && RowInv(id, after)
            && (before.op.None? && after.op.Some? ==> id !in sys.used) && NewAttempts(sys.used, before, after)
            && (after.Done() && !before.Done() ==> Commits(before, after) && CommitPoint(sys, e, before))
  {
    match e
    case PrepareEvent(_, _, _, _, _, _, _) => PrepareRow(sys, e, id);
    case ReviewEvent(_, _, _, _, _, _) => ReviewRow(sys, e, id);
    case ClaimEvent(_, _, _, _, _, _) => ClaimRow(sys, e, id);
    case ApplyEvent(_, _, _, _, _, _, _, _) => ApplyRow(sys, e, id);
    case SettleEvent(_, _, _) => SettleChange(sys, e, id);
    case CrashEvent(_) => assert RowKnown(sys, id, RowOf(sys.store, id));
    case OwnerEvent(_, _, _) => assert RowKnown(sys, id, RowOf(sys.store, id));
    assert RowInv(id, RowOf(Next(sys, e).store, id));
    assert RowInv(id, RowOf(sys.store, id));
  }

  lemma ReplacedTokensKnown(key: string, owner: Option<OwnerState>, a: OwnerAction, f: Fresh, tokens: set<Token>)
    requires Owner.SoundRecord(key, owner) && OwnerTokens(owner) <= tokens && Unset in tokens
    requires Decide(key, owner, a, f).Replace?
    ensures OwnerTokens(Some(Decide(key, owner, a, f).next)) <= tokens + f.All()
  {
    if owner.Some? {
      EpochsFollowSwitches(key, owner.value, a, f);
    }
  }

  lemma OwnerTokensKnown(sys: System, e: Event)
    requires Inv(sys) && ValidEvent(sys, e)
    ensures OwnerTokens(Next(sys, e).owner) <= Next(sys, e).tokens
  {
    if e.OwnerEvent? && Decide(sys.key, sys.owner, e.action, e.drawn).Replace? {
      ReplacedTokensKnown(sys.key, sys.owner, e.action, e.drawn, sys.tokens);
    }
  }

  lemma OwnerStaysSound(sys: System, e: Event)
    requires Inv(sys) && ValidEvent(sys, e)
    ensures Owner.SoundRecord(sys.key, Next(sys, e).owner)
  {
    if e.OwnerEvent? {
      Owner.ReplacementKeepsSound(sys.key, sys.owner, e.action, e.drawn, e.replacement);
    }
  }

  lemma ClaimedClient(sys: System, e: Event)
    requires Inv(sys) && e.ClaimEvent? && ValidEvent(sys, e) && e.attempt in Next(sys, e).clients
    ensures var next := Next(sys, e); ClientOk(RowOf(next.store, next.clients[e.attempt].operation), e.attempt, next.clients[e.attempt])
  {
    var tx := ClaimOf(sys, e);
    assert ReplyFor(tx, e.wall, e.io).Done?;
    ClaimTarget(sys, e);
    AfterIsLocal(sys.store, e.id, tx, e.wall, e.io, e.id);
  }

  lemma OutcomeFits(tx: Tx, wall: int, io: Io)
    ensures var reply := ReplyFor(tx, wall, io);
            var t := OutcomeFor(Reported(reply));
            && (t.state.Succeeded? ==> t.errorClass.NoClass? && Lands(tx, wall, io))
            && (t.state.Failed? || t.state.Conflict? ==> !t.errorClass.NoClass? && !Lands(tx, wall, io))
            && !t.state.Running?
  {
  }

  lemma AppliedClient(sys: System, e: Event)
    requires Inv(sys) && e.ApplyEvent? && ValidEvent(sys, e) && IsApplying(sys, e.attempt)
    ensures var next := Next(sys, e); ClientOk(RowOf(next.store, next.clients[e.attempt].operation), e.attempt, next.clients[e.attempt])
  {
    var id := sys.clients[e.attempt].operation;
    var tx := ApplyOf(sys, e);
    assert tx.Write? ==> CommittedBy(tx.row, e.attempt) by {
      if tx.Write? {
        ApplyTarget(sys, e);
      }
    }
    assert RowOf(After(sys.store, id, tx, e.wall, e.io), id) == if Lands(tx, e.wall, e.io) then tx.row else RowOf(sys.store, id) by {
      if tx.Write? {
        ApplyTarget(sys, e);
      }
      AfterIsLocal(sys.store, id, tx, e.wall, e.io, id);
    }
    assert !CommittedBy(RowOf(sys.store, id), e.attempt) by {
      assert ClientOk(RowOf(sys.store, id), e.attempt, sys.clients[e.attempt]);
    }
    OutcomeFits(tx, e.wall, e.io);
  }

  /** A change of a client's operation that is not the commit of its own attempt
      leaves what the client knows true. */
  lemma ClientKept(id: Id, before: Row, after: Row, a: Id, c: Client)
    requires ClientOk(before, a, c) && RowChange(before, after) && RowInv(id, before)
    requires Commits(before, after) ==> !CommittedBy(after, a)
    ensures ClientOk(after, a, c)
  {
  }

  /** A client's view of its own attempt survives any step: no other step can
      commit its attempt, and a commit cannot be undone. */
  lemma StepClient(sys: System, e: Event, a: Id)
    requires Inv(sys) && ValidEvent(sys, e) && a in Next(sys, e).clients
    ensures var next := Next(sys, e);
            a in next.used && ClientOk(RowOf(next.store, next.clients[a].operation), a, next.clients[a])
  {
    if e.ClaimEvent? && a == e.attempt {
      ClaimedClient(sys, e);
    } else if e.ApplyEvent? && a == e.attempt && IsApplying(sys, a) {
      AppliedClient(sys, e);
    } else {
      OtherClient(sys, e, a);
    }
  }

  lemma OtherClient(sys: System, e: Event, a: Id)
    requires Inv(sys) && ValidEvent(sys, e) && a in Next(sys, e).clients
    requires !(e.ClaimEvent? && a == e.attempt) && !(e.ApplyEvent? && a == e.attempt && IsApplying(sys, a))
    ensures var next := Next(sys, e);
            a in next.used && ClientOk(RowOf(next.store, next.clients[a].operation), a, next.clients[a])
  {
    OtherClientStays(sys, e, a);
    var id := sys.clients[a].operation;
    var before, after := RowOf(sys.store, id), RowOf(Next(sys, e).store, id);
    assert RowInv(id, before);
    OtherAttemptCommits(sys, e, a, id);
    ClientKept(id, before, after, a, sys.clients[a]);
  }

  lemma OtherClientStays(sys: System, e: Event, a: Id)
    requires a in Next(sys, e).clients
    requires !(e.ClaimEvent? && a == e.attempt) && !(e.ApplyEvent? && a == e.attempt && IsApplying(sys, a))
    ensures a in sys.clients && Next(sys, e).clients[a] == sys.clients[a] && (a in sys.used ==> a in Next(sys, e).used)
  {
  }

  lemma OtherAttemptCommits(sys: System, e: Event, a: Id, id: Id)
    requires Inv(sys) && ValidEvent(sys, e) && a in sys.clients
    requires !(e.ApplyEvent? && a == e.attempt && IsApplying(sys, a))
    ensures var before, after := RowOf(sys.store, id), RowOf(Next(sys, e).store, id);
            RowChange(before, after) && (Commits(before, after) ==> !CommittedBy(after, a))
  {
    StepRow(sys, e, id);
  }

  lemma StepKeeps(sys: System, e: Event)
    requires Inv(sys) && ValidEvent(sys, e)
    ensures Inv(Next(sys, e))
  {
    var next := Next(sys, e);
    StepKeepsRows(sys, e);
    OwnerTokensKnown(sys, e);
    OwnerStaysSound(sys, e);
    StepKeepsClients(sys, e);
    assert next.key == sys.key && Unset in next.tokens;
  }

  lemma StepKeepsRows(sys: System, e: Event)
    requires Inv(sys) && ValidEvent(sys, e)
    ensures StoreInv(Next(sys, e).store) && forall id :: RowKnown(Next(sys, e), id, RowOf(Next(sys, e).store, id))
  {
    forall id ensures RowKnown(Next(sys, e), id, RowOf(Next(sys, e).store, id)) {
      StepRow(sys, e, id);
    }
    StepRow(sys, e, sys.key);
  }

  lemma StepKeepsClients(sys: System, e: Event)
    requires Inv(sys) && ValidEvent(sys, e)
    ensures var next := Next(sys, e);
            forall a :: a in next.clients ==>
              a in next.used && ClientOk(RowOf(next.store, next.clients[a].operation), a, next.clients[a])
  {
    var next := Next(sys, e);
    forall a | a in next.clients
      ensures a in next.used && ClientOk(RowOf(next.store, next.clients[a].operation), a, next.clients[a])
    {
      StepClient(sys, e, a);
    }
  }

  lemma {:induction false} RunKeeps(sys: System, es: seq<Event>)
    requires Inv(sys) && ValidRun(sys, es)
    ensures Inv(Run(sys, es))
    decreases |es|
  {
    if es != [] {
      StepKeeps(sys, es[0]);
      RunKeeps(Next(sys, es[0]), es[1..]);
    }
  }

  lemma InitialInv(key: string)
    requires Hex32(key)
    ensures Inv(Initial(key))
  {
  }
}
