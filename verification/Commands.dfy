/** The approved-command protocol on values (app_mcp_command_exposure.go,
    app_mcp_command_approval.go, app_mcp_operation_store.go): what is stored for
    one operation, and what each transaction decides. Digests are ideal, so a
    digest of a record is the record; sealing is left to Rotation. */
module Commands {
  import opened Wrappers
  import opened Attempts
  import opened OwnerRecord
  import Effects

  const OPERATION_LIFETIME := 15 * 60
  const SWEEP_GRACE := 3600
  const SWEEP_BATCH := 100
  const ACTOR_LIMIT := 20

  datatype Error =
    | Denied | ExpiredIntent | ApprovalRequired | AlreadyApproved | OperationLimit | InProgress
    | OutcomeUnknown | RowConflict | Unavailable | Refusal(code: string)

  // ---- entities --------------------------------------------------------------

  datatype Transfer = NoTransfer | Pull | Push
  datatype Tool = Tool(name: Id, grantApproval: bool, transfer: Transfer)

  /** What the disclosure version, the contract digest and the execution digest
      pin: the reviewed manifest, of which the model needs the one tool. */
  datatype Source = Source(disclosure: Id, contract: Id, execution: Id, tool: Tool)

  datatype Actor = Actor(user: int, created: Id, tenant: Id)
  datatype Standing = Standing(role: Token, admin: bool)
  datatype Grant = Grant(id: Id, client: Id)
  datatype Authority = Authority(owner: Token, write: Token, external: Token)

  datatype Prepared = Prepared(
    id: Id, source: Source, actor: Actor, standing: Standing, grant: Grant, authority: Authority,
    createdAt: int, expiresAt: int, intent: Id)

  datatype Basis = Human(session: Id) | GrantConsent(grant: Id, epoch: Token)

  /** The immutable approval record, bound to the prepared record's digest. */
  datatype Approval = Approval(
    id: Id, prepared: Prepared, approver: Actor, approvedAt: int, expiresAt: int, basis: Basis)

  datatype ApprovalState = Approved | Consumed(attempt: Id, at: int)
  datatype StoredApproval = StoredApproval(record: Approval, state: ApprovalState)

  datatype Receipt = Receipt(
    prepared: Prepared, approval: Approval, attempt: Id, committedAt: int, result: Id,
    effects: seq<Effects.Effect>)

  datatype Op = Op(prepared: Prepared, receipt: Option<Receipt>)

  /** One queued job, with the authority it was committed under. */
  datatype Job = Job(operation: Id, effect: Effects.Effect, grant: Grant, authority: Authority)

  /** One application of an operation's business writes. */
  datatype Application = Application(operation: Id, attempt: Id, writes: seq<Id>)

  // ---- the caller a transaction has verified ---------------------------------

  datatype Consent = Consent(tool: Id, contract: Id, execution: Id)

  datatype Origin =
    | FromConnector(grant: Grant, autoPin: Token, autoLive: bool, consented: set<Consent>)
    | FromBrowser(session: Id, direct: bool)

  /** The coordinator's capability; sessions are the browser logins, with their
      user, that the transaction finds live. */
  datatype Capability = Capability(
    source: Source, actor: Actor, standing: Standing, origin: Origin, authority: Authority,
    sessions: set<(Id, int)>)

  datatype RequestOrigin =
    | ConnectorPin(grant: Grant, epoch: Token, writeEpoch: Token, autoEpoch: Token, grantAutoEpoch: Token,
                   consented: set<Consent>)
    | BrowserPin(session: Id, direct: bool)

  datatype Request = Request(
    source: Source, actor: Actor, standing: Standing, origin: RequestOrigin, sessions: set<(Id, int)>,
    readOnlyStatus: bool)

  predicate PinMatches(st: OwnerState, o: RequestOrigin) {
    o.ConnectorPin? ==>
      st.exposed && st.version == 2 && o.epoch == st.epoch && o.writeEpoch == st.writeEpoch
  }

  /** Consent counts only under the owner epoch it was given in. */
  predicate AutoLive(st: OwnerState, o: RequestOrigin)
    requires o.ConnectorPin?
  {
    st.autoApprove.on && o.autoEpoch.Token? && o.autoEpoch == st.autoApprove.epoch &&
    o.grantAutoEpoch == st.autoApprove.epoch
  }

  predicate ExportAllowed(st: OwnerState, r: Request) {
    r.source.tool.transfer.Push? && !r.readOnlyStatus ==> st.externalExport.on && st.externalExport.epoch.Token?
  }

  /** What the coordinator checks against the owner record and hands on. */
  function Admit(owner: Option<OwnerState>, r: Request): Option<Capability> {
    if owner.None? || !owner.value.WritesOn() || owner.value.writeEpoch.Unset? then None
    else
      var st := owner.value;
      if !PinMatches(st, r.origin) || !ExportAllowed(st, r) then None
      else
        var external := if r.source.tool.transfer.Push? then st.externalExport.epoch else Unset;
        var origin :=
          match r.origin
          case BrowserPin(session, direct) => FromBrowser(session, direct)
          case ConnectorPin(grant, _, _, auto, _, consented) =>
            FromConnector(grant, auto, AutoLive(st, r.origin), consented);
        Some(Capability(r.source, r.actor, r.standing, origin,
                        Authority(st.epoch, st.writeEpoch, external), r.sessions))
  }

  // ---- decisions -------------------------------------------------------------

  predicate Bound(cap: Capability, p: Prepared) {
    && p.source.tool.name == cap.source.tool.name
    && p.actor == cap.actor
    && (cap.origin.FromConnector? ==> p.grant == cap.origin.grant)
  }

  predicate SameSource(cap: Capability, p: Prepared) {
    p.source == cap.source && (p.standing.role.Token? ==> p.standing == cap.standing)
  }

  predicate Expired(cap: Capability, p: Prepared, now: int) {
    || now >= p.expiresAt
    || p.authority.owner != cap.authority.owner
    || p.authority.write != cap.authority.write
    || (cap.source.tool.transfer.Push? &&
        (p.authority.external.Unset? || p.authority.external != cap.authority.external))
  }

  predicate AutoApproveEligible(cap: Capability) {
    && cap.origin.FromConnector? && cap.origin.autoPin.Token?
    && cap.source.tool.grantApproval && cap.source.tool.transfer.NoTransfer?
    && cap.origin.autoLive
    && Consent(cap.source.tool.name, cap.source.contract, cap.source.execution) in cap.origin.consented
  }

  predicate GrantApprovalLive(cap: Capability, b: Basis)
    requires b.GrantConsent?
  {
    AutoApproveEligible(cap) && b.grant == cap.origin.grant.id && b.epoch == cap.origin.autoPin
  }

  predicate ApproverLive(cap: Capability, a: Approval) {
    match a.basis
    case Human(session) => (session, a.approver.user) in cap.sessions
    case GrantConsent(_, _) => GrantApprovalLive(cap, a.basis)
  }

  // ---- what the stored records must satisfy ----------------------------------

  predicate PreparedOk(id: Id, p: Prepared) {
    && p.id == id && p.createdAt > 0 && p.expiresAt == p.createdAt + OPERATION_LIFETIME
    && p.authority.owner.Token? && p.authority.write.Token?
  }

  predicate ApprovalOk(p: Prepared, a: Approval) {
    && a.prepared == p && a.approver == p.actor
    && p.createdAt <= a.approvedAt < p.expiresAt && a.expiresAt == p.expiresAt
    && (a.basis.GrantConsent? ==> a.basis.grant == p.grant.id && a.basis.epoch.Token?)
  }

  predicate StateOk(a: StoredApproval) {
    a.state.Consumed? ==> a.record.approvedAt <= a.state.at < a.record.expiresAt
  }

  /** The receipt reader: a receipt is coherent with one consumed approval. */
  predicate ReceiptOk(p: Prepared, r: Receipt, a: StoredApproval) {
    && a.state == Consumed(r.attempt, r.committedAt)
    && r.prepared == p && r.approval == a.record
    && a.record.approvedAt <= r.committedAt < p.expiresAt
    && Effects.EffectsOk(r.effects)
  }

  /** Everything stored about one operation id; the last two are the committed
      applications and the queued jobs that carry the id. */
  datatype Row = Row(
    op: Option<Op>, approval: Option<StoredApproval>, history: seq<Attempt>,
    applied: seq<Application>, jobs: seq<Job>)
  {
    predicate Done() { op.Some? && op.value.receipt.Some? }
  }

  predicate HistoryOk(id: Id, h: seq<Attempt>) {
    forall k :: 0 <= k < |h| ==> ValidAttempt(h[k]) && h[k].operation == id
  }

  /** The union validator at one operation id. */
  predicate RowUnion(id: Id, row: Row) {
    match row.op
    case None => row.approval.None? && row.history == []
    case Some(op) =>
      && PreparedOk(id, op.prepared) && HistoryOk(id, row.history)
      && (row.approval.Some? ==> ApprovalOk(op.prepared, row.approval.value.record) && StateOk(row.approval.value))
      && (match op.receipt
          case None => row.approval.Some? ==> row.approval.value.state.Approved?
          case Some(r) => row.approval.Some? && ReceiptOk(op.prepared, r, row.approval.value))
  }

  // ---- status ----------------------------------------------------------------

  datatype StateName = IsPrepared | IsApproved | IsExpired | IsCommitted | IsAttempt(state: AttemptState)
  datatype Business = Committed | NotCommitted | Undetermined

  function OperationState(cap: Capability, op: Op, approved: bool, h: seq<Attempt>, now: int): (StateName, Business) {
    var latest := Latest(h);
    if op.receipt.Some? then (IsCommitted, Committed)
    else if Expired(cap, op.prepared, now) then (IsExpired, NotCommitted)
    else if latest.Some? then
      var s := StateNow(latest.value, now, false);
      (IsAttempt(s), if s.Running? || s.Unknown? then Undetermined else NotCommitted)
    else if approved then (IsApproved, NotCommitted)
    else (IsPrepared, NotCommitted)
  }

  predicate Retryable(state: StateName, h: seq<Attempt>, now: int) {
    var latest := Latest(h);
    && latest.Some? && |h| < ATTEMPT_LIMIT
    && state.IsAttempt?
    && (state.state.Failed? || state.state.Conflict? || (state.state.Unknown? && Stale(latest.value, now)))
  }

  // ---- transactions on one operation -----------------------------------------

  /** What a transaction asks the coordinator to do: roll back with an error,
      roll back and answer, or commit before the barrier. */
  datatype Tx = Abort(error: Error) | ReadOnly | Write(row: Row, validUntil: int)

  datatype Check = Stop(error: Error) | Replay | Proceed

  function CommitChecks(cap: Capability, row: Row, now: int): Check {
    if row.op.None? then Stop(Denied)
    else
      var p := row.op.value.prepared;
      if !Bound(cap, p) then Stop(Denied)
      else if row.op.value.receipt.Some? then Replay
      else if !SameSource(cap, p) then Stop(Denied)
      else if Expired(cap, p, now) then Stop(ExpiredIntent)
      else if row.approval.None? then Stop(ApprovalRequired)
      else
        var a := row.approval.value;
        if !a.state.Approved? || a.record.approver.user != p.actor.user then Stop(Denied)
        else if ApproverLive(cap, a.record) then Proceed
        else Stop(Denied)
  }

  /** A commit of an operation that already has a receipt answers it, after the
      receipt has been checked against its approval. */
  function ReplayTx(row: Row): Tx
    requires row.Done()
  {
    var op := row.op.value;
    if row.approval.Some? && ReceiptOk(op.prepared, op.receipt.value, row.approval.value) then ReadOnly
    else Abort(Unavailable)
  }

  /** Why no attempt may follow the latest one now, if so. */
  function ClaimRefusal(h: seq<Attempt>, now: int): Option<Error> {
    var latest := Latest(h);
    if latest.Some? && StateNow(latest.value, now, false).Running? then Some(InProgress)
    else if latest.Some? && StateNow(latest.value, now, false) in {AttemptState.Unknown, Succeeded} && !Stale(latest.value, now) then
      Some(OutcomeUnknown)
    else if |h| >= ATTEMPT_LIMIT then Some(OperationLimit)
    else if ClaimStart(latest, now) <= 0 then Some(Unavailable)
    else None
  }

  /** The history with one attempt's record replaced. */
  function Swapped(h: seq<Attempt>, id: Id, next: Attempt): (r: seq<Attempt>)
    ensures |r| == |h|
  {
    var k := IndexOf(h, id);
    if k < |h| then h[k := next] else h
  }

  function Claimed(id: Id, h: seq<Attempt>, attempt: Id, now: int): seq<Attempt> {
    var latest := Latest(h);
    var prior :=
      if latest.Some? && Stale(latest.value, now)
      then Swapped(h, latest.value.id, Finished(latest.value, AttemptState.Unknown, StaleClaim, now))
      else h;
    prior + [Attempt(attempt, id, ClaimStart(latest, now), Running, NoClass, 0)]
  }

  /** Commit phase one. */
  function ClaimTx(cap: Capability, id: Id, row: Row, now: int, attempt: Id): Tx {
    match CommitChecks(cap, row, now)
    case Stop(e) => Abort(e)
    case Replay => ReplayTx(row)
    case Proceed =>
      var refusal := ClaimRefusal(row.history, now);
      if refusal.Some? then Abort(refusal.value)
      else Write(row.(history := Claimed(id, row.history, attempt, now)), row.op.value.prepared.expiresAt)
  }

  /** One step of a command's apply phase: a business write, a queued effect, or
      an error that ends it. */
  datatype WorkStep = BusinessWrite(value: Id) | Enqueue(intent: Effects.Intent) | Fail(error: Error)

  datatype Work = Work(writes: seq<Id>, effects: seq<Effects.Effect>)

  /** The work done so far followed by the remaining steps; a job takes the next
      row id. */
  function RunWork(steps: seq<WorkStep>, done: Work, queued: nat): Result<Work, Error>
    decreases |steps|
  {
    if steps == [] then Success(done)
    else
      match steps[0]
      case Fail(e) => Failure(e)
      case BusinessWrite(v) => RunWork(steps[1..], done.(writes := done.writes + [v]), queued)
      case Enqueue(i) =>
        if |done.effects| >= Effects.EFFECT_LIMIT then Failure(Unavailable)
        else RunWork(steps[1..], done.(effects := done.effects + [Effects.Effect(queued + 1, i)]), queued + 1)
  }

  function Barrier(started: int, expiresAt: int): int {
    if expiresAt < started + COMMAND_TIMEOUT then expiresAt else started + COMMAND_TIMEOUT
  }

  predicate ClaimIsOurs(h: seq<Attempt>, attempt: Id, now: int) {
    var latest := Latest(h);
    latest.Some? && latest.value.id == attempt && StateNow(latest.value, now, false).Running?
  }

  function StampJobs(p: Prepared, effects: seq<Effects.Effect>): (jobs: seq<Job>)
    ensures |jobs| == |effects|
    ensures forall k :: 0 <= k < |jobs| ==> jobs[k] == Job(p.id, effects[k], p.grant, p.authority)
  {
    seq(|effects|, k requires 0 <= k < |effects| => Job(p.id, effects[k], p.grant, p.authority))
  }

  /** The row after a successful apply: the approval consumed, the receipt
      stored, the writes and jobs in place. */
  function AppliedRow(row: Row, attempt: Id, work: Work, consumedAt: int, readback: Id): Row
    requires row.op.Some? && row.approval.Some?
  {
    var p := row.op.value.prepared;
    var a := row.approval.value;
    Row(Some(Op(p, Some(Receipt(p, a.record, attempt, consumedAt, readback, work.effects)))),
        Some(StoredApproval(a.record, Consumed(attempt, consumedAt))),
        row.history,
        row.applied + [Application(p.id, attempt, work.writes)],
        row.jobs + StampJobs(p, work.effects))
  }

  /** Commit phase two; queued is the number of job rows before it. */
  function ApplyTx(cap: Capability, row: Row, now: int, attempt: Id, steps: seq<WorkStep>, queued: nat,
                   consumedAt: int, readback: Id): Tx {
    match CommitChecks(cap, row, now)
    case Stop(e) => Abort(e)
    case Replay => Abort(Denied)
    case Proceed =>
      if !ClaimIsOurs(row.history, attempt, now) then Abort(Denied)
      else
        var p := row.op.value.prepared;
        var until := Barrier(Latest(row.history).value.startedAt, p.expiresAt);
        if now >= until then Abort(Denied)
        else
          var work := RunWork(steps, Work([], []), queued);
          if work.Failure? then Abort(work.error)
          else if consumedAt >= p.expiresAt then Abort(ExpiredIntent)
          else if consumedAt < row.approval.value.record.approvedAt then Abort(Unavailable)
          else if !Effects.EffectsOk(work.value.effects) then Abort(Unavailable)
          else Write(AppliedRow(row, attempt, work.value, consumedAt, readback), until)
  }

  /** The terminal state a commit's result maps to. */
  datatype Terminal = Terminal(state: AttemptState, errorClass: ErrorClass)

  function ClassOf(e: Error): ErrorClass {
    match e
    case OutcomeUnknown => UnknownExecution
    case Denied => OtherClass("denied")
    case ExpiredIntent => OtherClass("expired_intent")
    case ApprovalRequired => OtherClass("approval_required")
    case AlreadyApproved => OtherClass("already_approved")
    case OperationLimit => OtherClass("operation_limit")
    case InProgress => OtherClass("in_progress")
    case RowConflict => OtherClass("conflict")
    case Unavailable => OtherClass("unavailable_provider")
    case Refusal(code) => OtherClass(code)
  }

  /** Nothing but an unknown COMMIT is recorded as unknown, and nothing but
      success as succeeded. */
  function OutcomeFor(e: Option<Error>): (t: Terminal)
    ensures !t.state.Running?
    ensures e.None? <==> t.state.Succeeded?
    ensures t.state.Unknown? <==> e == Some(OutcomeUnknown)
    ensures t.state.Conflict? <==> e == Some(RowConflict)
    ensures t.errorClass.NoClass? <==> e.None?
  {
    match e
    case None => Terminal(Succeeded, NoClass)
    case Some(OutcomeUnknown) => Terminal(AttemptState.Unknown, ClassOf(OutcomeUnknown))
    case Some(RowConflict) => Terminal(AttemptState.Conflict, ClassOf(RowConflict))
    case Some(other) => Terminal(AttemptState.Failed, ClassOf(other))
  }

  function Reconciled(row: Row, t: Terminal): Terminal {
    if t.state.Unknown? && row.Done() then Terminal(Succeeded, NoClass) else t
  }

  /** Commit phase three; it has no barrier of its own. */
  function SettleRow(row: Row, attempt: Id, t: Terminal, now: int): Option<Row> {
    var k := IndexOf(row.history, attempt);
    if k >= |row.history| then None
    else if !row.history[k].state.Running? then Some(row)
    else
      var r := Reconciled(row, t);
      Some(row.(history := row.history[k := Finished(row.history[k], r.state, r.errorClass, now)]))
  }

  function ApprovalFor(cap: Capability, p: Prepared, id: Id, now: int, basis: Basis): Approval {
    Approval(id, p, cap.actor, now, p.expiresAt, basis)
  }

  /** Store an approval: the record is validated, and the primary key refuses a
      second one. */
  function InsertApproval(row: Row, a: Approval): Result<Row, Error>
    requires row.op.Some?
  {
    if !ApprovalOk(row.op.value.prepared, a) then Failure(Unavailable)
    else if row.approval.Some? then Failure(AlreadyApproved)
    else Success(row.(approval := Some(StoredApproval(a, Approved))))
  }

  /** A person's approval in the browser. */
  function ReviewTx(cap: Capability, row: Row, now: int, approvalId: Id): Tx {
    if row.op.None? || !Bound(cap, row.op.value.prepared) then Abort(Denied)
    else
      var op := row.op.value;
      if op.receipt.None? && !SameSource(cap, op.prepared) then Abort(Denied)
      else
        var state := OperationState(cap, op, row.approval.Some?, [], now).0;
        if state.IsExpired? then Abort(ExpiredIntent)
        else if state.IsApproved? then Abort(AlreadyApproved)
        else if !state.IsPrepared? || !cap.origin.FromBrowser? || !cap.origin.direct then Abort(Denied)
        else
          var r := InsertApproval(row, ApprovalFor(cap, op.prepared, approvalId, now, Human(cap.origin.session)));
          if r.Failure? then Abort(r.error) else Write(r.value, op.prepared.expiresAt)
  }

  function PreparedFor(cap: Capability, id: Id, now: int, intent: Id): Prepared
    requires cap.origin.FromConnector?
  {
    Prepared(id, cap.source, cap.actor, cap.standing, cap.origin.grant, cap.authority,
             now, now + OPERATION_LIFETIME, intent)
  }

  /** The insert of a prepared operation, with the grant's standing consent as
      its approval when every condition for that holds. */
  function InsertTx(cap: Capability, row: Row, id: Id, now: int, intent: Id, approvalId: Id): Result<Row, Error> {
    if !cap.origin.FromConnector? || (cap.source.tool.transfer.Push? && cap.authority.external.Unset?) then Failure(Denied)
    else
      var p := PreparedFor(cap, id, now, intent);
      if !PreparedOk(id, p) then Failure(Unavailable)
      else if row.op.Some? && row.op.value.prepared != p then Failure(Unavailable)
      else
        var stored := if row.op.Some? then row else row.(op := Some(Op(p, None)));
        if !AutoApproveEligible(cap) then Success(stored)
        else InsertApproval(stored, ApprovalFor(cap, p, approvalId, now, GrantConsent(p.grant.id, cap.origin.autoPin)))
  }

  // ---- sweep -----------------------------------------------------------------

  predicate Sweepable(op: Op, now: int) { op.receipt.None? && now >= op.prepared.expiresAt + SWEEP_GRACE }

  predicate Open(op: Op, user: int, now: int) {
    op.receipt.None? && now < op.prepared.expiresAt && op.prepared.actor.user == user
  }

  function SweptRow(row: Row): Row { row.(op := None, approval := None, history := []) }
}
