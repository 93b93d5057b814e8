/** The protocol gets somewhere: from every state in which a request is admitted,
    prepare, approve, claim and apply commit the operation. */
module CommandProgress {
  import opened Wrappers
  import opened Attempts
  import opened OwnerRecord
  import Owner = OwnerAuthority
  import Effects
  import opened Commands
  import opened CommandRows
  import opened CommandStore
  import opened CommandRuns
  import Answers = CommandAnswers

  /** The apply phase ends without an error, wherever the job table stands. */
  ghost predicate WorkSucceeds(steps: seq<WorkStep>) {
    forall n: nat :: RunWork(steps, Work([], []), n).Success? &&
                     Effects.EffectsOk(RunWork(steps, Work([], []), n).value.effects)
  }

  /** A connector's request and the browser of the same person, both admitted. */
  predicate Together(owner: Option<OwnerState>, c: Request, b: Request) {
    && Admit(owner, c).Some? && Admit(owner, b).Some?
    && c.origin.ConnectorPin? && b.origin.BrowserPin? && b.origin.direct
    && b.source == c.source && b.actor == c.actor && b.standing == c.standing
    && (b.origin.session, c.actor.user) in c.sessions && !c.readOnlyStatus && !b.readOnlyStatus
  }

  // ---- on one operation ----------------------------------------------------------

  const NOTHING := Row(None, None, [], [], [])

  lemma NothingYet(sys: System, id: Id)
    requires Inv(sys) && id !in sys.used
    ensures RowOf(sys.store, id) == NOTHING
  {
    assert RowInv(id, RowOf(sys.store, id)) && RowKnown(sys, id, RowOf(sys.store, id));
  }

  /** The row between two of the steps: prepared by this capability at this time. */
  predicate Prepares(cap: Capability, id: Id, now: int, row: Row) {
    && cap.origin.FromConnector? && row.op.Some? && row.op.value.receipt.None?
    && PreparedOk(id, row.op.value.prepared)
    && row.op.value.prepared == PreparedFor(cap, id, now, row.op.value.prepared.intent)
  }

  predicate ApprovedNow(cap: Capability, row: Row, now: int) {
    && row.approval.Some? && row.approval.value.state.Approved? && row.approval.value.record.approver == cap.actor
    && row.approval.value.record.approvedAt == now && ApproverLive(cap, row.approval.value.record)
  }

  lemma PrepareSucceeds(key: string, owner: Option<OwnerState>, c: Request, id: Id, now: int, intent: Id, approvalId: Id)
    requires Owner.SoundRecord(key, owner) && Admit(owner, c).Some? && c.origin.ConnectorPin? && !c.readOnlyStatus && now > 0
    ensures var cap := Admit(owner, c).value;
            var r := InsertTx(cap, NOTHING, id, now, intent, approvalId);
            r.Success? && Prepares(cap, id, now, r.value) && r.value.history == [] &&
            (r.value.approval.Some? ==> ApprovedNow(cap, r.value, now))
  {
    AdmitMeans(owner, c);
  }

  lemma ReviewSucceeds(owner: Option<OwnerState>, c: Request, b: Request, id: Id, row: Row, now: int, approvalId: Id)
    requires Together(owner, c, b) && row.history == [] && Prepares(Admit(owner, c).value, id, now, row)
    requires row.approval.Some? ==> ApprovedNow(Admit(owner, c).value, row, now)
    ensures var cap := Admit(owner, c).value;
            var tx := ReviewTx(Admit(owner, b).value, row, now, approvalId);
            var next := if tx.Write? then tx.row else row;
            && Prepares(cap, id, now, next) && next.history == [] && ApprovedNow(cap, next, now)
            && (tx.Write? ==> now < tx.validUntil)
  {
  }

  lemma ProceedsNow(cap: Capability, id: Id, row: Row, now: int)
    requires Prepares(cap, id, now, row) && ApprovedNow(cap, row, now)
    requires cap.source.tool.transfer.Push? ==> cap.authority.external.Token?
    ensures CommitChecks(cap, row, now).Proceed?
  {
  }

  lemma ClaimSucceeds(cap: Capability, id: Id, row: Row, now: int, attempt: Id)
    requires Prepares(cap, id, now, row) && ApprovedNow(cap, row, now) && row.history == [] && now > 0
    requires CommitChecks(cap, row, now).Proceed?
    ensures var tx := ClaimTx(cap, id, row, now, attempt);
            tx.Write? && now < tx.validUntil &&
            tx.row == row.(history := [Attempt(attempt, id, now, Running, NoClass, 0)])
  {
  }

  lemma ApplySucceeds(cap: Capability, id: Id, row: Row, now: int, attempt: Id, steps: seq<WorkStep>, queued: nat, readback: Id)
    requires Prepares(cap, id, now, row) && ApprovedNow(cap, row, now) && WorkSucceeds(steps)
    requires CommitChecks(cap, row, now).Proceed? && row.history == [Attempt(attempt, id, now, Running, NoClass, 0)]
    ensures var tx := ApplyTx(cap, row, now, attempt, steps, queued, now, readback);
            tx.Write? && now < tx.validUntil && CommittedBy(tx.row, attempt)
  {
    LatestIsLast(row.history);
  }

  // ---- on the system -------------------------------------------------------------

  lemma PrepareStepSucceeds(sys: System, e: Event)
    requires Inv(sys) && e.PrepareEvent? && ValidEvent(sys, e) && e.io.Confirmed? && e.plan.Success? && e.now > 0
    requires Admit(sys.owner, e.request).Some? && e.request.origin.ConnectorPin?
    requires OpenCount(sys.store.ops, e.order, e.request.actor.user, e.now) < ACTOR_LIMIT
    ensures var cap, row := Admit(sys.owner, e.request).value, RowOf(Next(sys, e).store, e.id);
            Prepares(cap, e.id, e.now, row) && row.history == [] && (row.approval.Some? ==> ApprovedNow(cap, row, e.now))
  {
    var cap := Admit(sys.owner, e.request).value;
    NothingYet(sys, e.id);
    PrepareSucceeds(sys.key, sys.owner, e.request, e.id, e.now, e.plan.value, e.approvalId);
    SweepIsLocal(sys.store, Elements(ToSweep(sys.store.ops, e.order, e.now)), e.id);
    var swept := PrepareIsLocal(sys.store, cap, e.order, e.now, e.id, e.plan, e.approvalId, e.id);
  }

  lemma ReviewStepSucceeds(sys: System, e: Event, c: Request)
    requires Inv(sys) && e.ReviewEvent? && ValidEvent(sys, e) && e.io.Confirmed? && e.wall == e.now
    requires Together(sys.owner, c, e.request)
    requires var cap, row := Admit(sys.owner, c).value, RowOf(sys.store, e.id);
             Prepares(cap, e.id, e.now, row) && row.history == [] && (row.approval.Some? ==> ApprovedNow(cap, row, e.now))
    ensures var cap, row := Admit(sys.owner, c).value, RowOf(Next(sys, e).store, e.id);
            Prepares(cap, e.id, e.now, row) && row.history == [] && ApprovedNow(cap, row, e.now)
  {
    var tx := ReviewOf(sys, e);
    ReviewSucceeds(sys.owner, c, e.request, e.id, RowOf(sys.store, e.id), e.now, e.approvalId);
    if tx.Write? {
      ReviewTarget(sys, e);
    }
    AfterIsLocal(sys.store, e.id, tx, e.wall, e.io, e.id);
  }

  lemma ClaimStepSucceeds(sys: System, e: Event)
    requires Inv(sys) && e.ClaimEvent? && ValidEvent(sys, e) && e.io.Confirmed? && e.wall == e.now && e.now > 0
    requires Admit(sys.owner, e.request).Some?
    requires var cap, row := Admit(sys.owner, e.request).value, RowOf(sys.store, e.id);
             Prepares(cap, e.id, e.now, row) && row.history == [] && ApprovedNow(cap, row, e.now) &&
             CommitChecks(cap, row, e.now).Proceed?
    ensures RowOf(Next(sys, e).store, e.id) ==
            RowOf(sys.store, e.id).(history := [Attempt(e.attempt, e.id, e.now, Running, NoClass, 0)])
    ensures IsApplying(Next(sys, e), e.attempt) && Next(sys, e).clients[e.attempt].operation == e.id
  {
    ClaimSucceeds(Admit(sys.owner, e.request).value, e.id, RowOf(sys.store, e.id), e.now, e.attempt);
    LandedClaim(sys, e);
  }

  /** A claim whose decision is to write, in time and confirmed, is on the rows, and
      its process holds it. */
  lemma LandedClaim(sys: System, e: Event)
    requires Inv(sys) && e.ClaimEvent? && ValidEvent(sys, e)
    requires ClaimOf(sys, e).Write? && e.wall < ClaimOf(sys, e).validUntil && e.io.Confirmed?
    ensures RowOf(Next(sys, e).store, e.id) == ClaimOf(sys, e).row
    ensures IsApplying(Next(sys, e), e.attempt) && Next(sys, e).clients[e.attempt].operation == e.id
  {
    assert RowInv(e.id, ClaimOf(sys, e).row) && Extends(e.id, RowOf(sys.store, e.id), ClaimOf(sys, e).row) &&
           ClaimOf(sys, e).row.jobs == RowOf(sys.store, e.id).jobs by {
      ClaimTarget(sys, e);
    }
    AfterIsLocal(sys.store, e.id, ClaimOf(sys, e), e.wall, e.io, e.id);
    ClaimIsHeld(sys, e);
  }

  lemma ClaimIsHeld(sys: System, e: Event)
    requires e.ClaimEvent? && ClaimOf(sys, e).Write? && e.wall < ClaimOf(sys, e).validUntil && e.io.Confirmed?
    ensures IsApplying(Next(sys, e), e.attempt) && Next(sys, e).clients[e.attempt].operation == e.id
    ensures Next(sys, e).store == After(sys.store, e.id, ClaimOf(sys, e), e.wall, e.io)
  {
  }

  lemma ApplyStepSucceeds(sys: System, e: Event, id: Id)
    requires Inv(sys) && e.ApplyEvent? && ValidEvent(sys, e) && e.io.Confirmed? && e.wall == e.consumedAt == e.now
    requires Admit(sys.owner, e.request).Some? && WorkSucceeds(e.steps)
    requires IsApplying(sys, e.attempt) && sys.clients[e.attempt].operation == id
    requires var cap, row := Admit(sys.owner, e.request).value, RowOf(sys.store, id);
             Prepares(cap, id, e.now, row) && ApprovedNow(cap, row, e.now) && CommitChecks(cap, row, e.now).Proceed? &&
             row.history == [Attempt(e.attempt, id, e.now, Running, NoClass, 0)]
    ensures CommittedBy(RowOf(Next(sys, e).store, id), e.attempt)
  {
    ApplySucceeds(Admit(sys.owner, e.request).value, id, RowOf(sys.store, id), e.now, e.attempt, e.steps,
                  |sys.store.jobs|, e.readback);
    Answers.LandedApply(sys, e, id);
  }

  /** The four steps of one command, at one time. */
  function FourSteps(c: Request, b: Request, order: seq<Id>, now: int, id: Id, intent: Id, approvalId: Id, attempt: Id,
                     steps: seq<WorkStep>, readback: Id): seq<Event>
  {
    [PrepareEvent(c, order, now, id, Success(intent), approvalId, Confirmed),
     ReviewEvent(b, id, now, approvalId, now, Confirmed),
     ClaimEvent(c, id, now, attempt, now, Confirmed),
     ApplyEvent(c, attempt, now, steps, now, readback, now, Confirmed)]
  }

  lemma RunFirst(sys: System, e: Event, rest: seq<Event>)
    ensures Run(sys, [e] + rest) == Run(Next(sys, e), rest)
    ensures ValidRun(sys, [e] + rest) <==> ValidEvent(sys, e) && ValidRun(Next(sys, e), rest)
  {
    assert ([e] + rest)[1..] == rest;
  }

  lemma RunOfFour(sys: System, a: Event, b: Event, c: Event, d: Event)
    ensures var s1 := Next(sys, a); var s2 := Next(s1, b); var s3 := Next(s2, c);
            && Run(sys, [a, b, c, d]) == Next(s3, d)
            && (ValidRun(sys, [a, b, c, d]) <==>
                  ValidEvent(sys, a) && ValidEvent(s1, b) && ValidEvent(s2, c) && ValidEvent(s3, d))
  {
    var s1 := Next(sys, a);
    var s2 := Next(s1, b);
    var s3 := Next(s2, c);
    assert [a, b, c, d] == [a] + ([b] + ([c] + ([d] + [])));
    RunFirst(sys, a, [b] + ([c] + ([d] + [])));
    RunFirst(s1, b, [c] + ([d] + []));
    RunFirst(s2, c, [d] + []);
    RunFirst(s3, d, []);
  }

  lemma PreparedAndApproved(sys: System, e: Event, f: Event)
    requires Inv(sys) && e.PrepareEvent? && f.ReviewEvent? && Together(sys.owner, e.request, f.request)
    requires e.id !in sys.used && e.now > 0 && e.io.Confirmed? && e.plan.Success?
    requires f.id == e.id && f.io.Confirmed? && f.wall == f.now == e.now
    requires OpenCount(sys.store.ops, e.order, e.request.actor.user, e.now) < ACTOR_LIMIT
    ensures var s1 := Next(sys, e); var s2 := Next(s1, f);
            var cap, row := Admit(sys.owner, e.request).value, RowOf(s2.store, e.id);
            && ValidEvent(sys, e) && ValidEvent(s1, f) && Inv(s2) && s2.owner == sys.owner
            && s2.used == sys.used + {e.id, e.approvalId} + {f.approvalId}
            && Prepares(cap, e.id, e.now, row) && row.history == [] && ApprovedNow(cap, row, e.now)
  {
    StepKeeps(sys, e);
    PrepareStepSucceeds(sys, e);
    StepKeeps(Next(sys, e), f);
    ReviewStepSucceeds(Next(sys, e), f, e.request);
  }

  lemma ClaimedAndApplied(sys: System, e: Event, f: Event, cap: Capability)
    requires Inv(sys) && e.ClaimEvent? && f.ApplyEvent? && f.request == e.request && !e.request.readOnlyStatus
    requires Admit(sys.owner, e.request) == Some(cap) && e.now > 0 && e.io.Confirmed? && e.wall == e.now
    requires e.attempt !in sys.used && f.attempt == e.attempt && WorkSucceeds(f.steps)
    requires f.io.Confirmed? && f.wall == f.consumedAt == f.now == e.now
    requires var row := RowOf(sys.store, e.id);
             Prepares(cap, e.id, e.now, row) && row.history == [] && ApprovedNow(cap, row, e.now)
    ensures var s1 := Next(sys, e); var s2 := Next(s1, f);
            && ValidEvent(sys, e) && ValidEvent(s1, f) && Inv(s2) && s1.owner == sys.owner
            && RowOf(s1.store, e.id).history == [Attempt(e.attempt, e.id, e.now, Running, NoClass, 0)]
            && Prepares(cap, e.id, e.now, RowOf(s1.store, e.id)) && CommittedBy(RowOf(s2.store, e.id), e.attempt)
  {
    AdmitPushes(sys.owner, e.request);
    ProceedsNow(cap, e.id, RowOf(sys.store, e.id), e.now);
    StepKeeps(sys, e);
    ClaimStepSucceeds(sys, e);
    var s1 := Next(sys, e);
    ProceedsNow(cap, e.id, RowOf(s1.store, e.id), e.now);
    ApplyStepSucceeds(s1, f, e.id);
    StepKeeps(s1, f);
  }

  lemma AdmitPushes(owner: Option<OwnerState>, r: Request)
    requires Admit(owner, r).Some? && !r.readOnlyStatus
    ensures var cap := Admit(owner, r).value; cap.source.tool.transfer.Push? ==> cap.authority.external.Token?
  {
  }

  /** Nothing in the protocol stands in the way: whatever happened before, an
      admitted request of an actor below the limit, whose person approves (or has
      given standing consent), commits in four steps. */
  lemma FourStepsCommit(sys: System, c: Request, b: Request, order: seq<Id>, now: int, id: Id, intent: Id, approvalId: Id,
                        attempt: Id, steps: seq<WorkStep>, readback: Id)
    requires Inv(sys) && Together(sys.owner, c, b) && now > 0 && WorkSucceeds(steps)
    requires id !in sys.used && attempt !in sys.used + {id, approvalId}
    requires OpenCount(sys.store.ops, order, c.actor.user, now) < ACTOR_LIMIT
    ensures var es := FourSteps(c, b, order, now, id, intent, approvalId, attempt, steps, readback);
            ValidRun(sys, es) && RowOf(Run(sys, es).store, id).Done() && |AppsOf(Run(sys, es).store.log, id)| == 1
  {
    var es := FourSteps(c, b, order, now, id, intent, approvalId, attempt, steps, readback);
    RunOfFour(sys, es[0], es[1], es[2], es[3]);
    PreparedAndApproved(sys, es[0], es[1]);
    var s2 := Next(Next(sys, es[0]), es[1]);
    ClaimedAndApplied(s2, es[2], es[3], Admit(sys.owner, c).value);
    assert RowInv(id, RowOf(Run(sys, es).store, id));
  }

  /** Why the answer "expired, not committed" needs a clock that does not go back:
      asked about a claimed operation with a clock past its lifetime, it is given,
      and the claimed attempt still commits once the clock is back. */
  lemma ExpiredAnswerNeedsTheClock(sys: System, e: Event, id: Id, cap: Capability, later: int)
    requires Inv(sys) && e.ApplyEvent? && ValidEvent(sys, e) && e.io.Confirmed? && e.wall == e.consumedAt == e.now
    requires Admit(sys.owner, e.request) == Some(cap) && WorkSucceeds(e.steps)
    requires IsApplying(sys, e.attempt) && sys.clients[e.attempt].operation == id
    requires var row := RowOf(sys.store, id);
             Prepares(cap, id, e.now, row) && ApprovedNow(cap, row, e.now) &&
             row.history == [Attempt(e.attempt, id, e.now, Running, NoClass, 0)]
    requires later >= e.now + OPERATION_LIFETIME
    ensures var row := RowOf(sys.store, id);
            OperationState(cap, row.op.value, row.approval.Some?, row.history, later) == (IsExpired, NotCommitted)
    ensures CommittedBy(RowOf(Next(sys, e).store, id), RowOf(sys.store, id).history[0].id)
  {
    AdmitPushes(sys.owner, e.request);
    LateStatus(cap, id, RowOf(sys.store, id), e.now, later);
    ProceedsNow(cap, id, RowOf(sys.store, id), e.now);
    ApplyStepSucceeds(sys, e, id);
  }

  lemma LateStatus(cap: Capability, id: Id, row: Row, now: int, later: int)
    requires Prepares(cap, id, now, row) && later >= now + OPERATION_LIFETIME
    ensures OperationState(cap, row.op.value, row.approval.Some?, row.history, later) == (IsExpired, NotCommitted)
  {
  }

  // ---- from the start ------------------------------------------------------------

  lemma {:induction false} RunsJoin(sys: System, es: seq<Event>, more: seq<Event>)
    requires ValidRun(sys, es) && ValidRun(Run(sys, es), more)
    ensures ValidRun(sys, es + more) && Run(sys, es + more) == Run(Run(sys, es), more)
    decreases |es|
  {
    if es == [] {
      assert es + more == more;
    } else {
      assert (es + more)[1..] == es[1..] + more;
      RunsJoin(Next(sys, es[0]), es[1..], more);
    }
  }

  function AllOf(t: Token): Fresh { Fresh(t, t, t, t, t, t, t, t) }

  /** The owner exposes the connector and enables writes. */
  function SwitchOn(first: Token, second: Token): seq<Event> {
    [OwnerEvent(Mutate(Some(true), false, true, NoEdit), AllOf(first), Owner.Durable),
     OwnerEvent(EnableEnrolledWrites(false, first, second), AllOf(second), Owner.Durable)]
  }

  lemma SwitchedOn(key: string, first: Token, second: Token)
    requires Hex32(key) && HexToken(first) && HexToken(second) && first != second
    ensures var sys := Run(Initial(key), SwitchOn(first, second));
            && ValidRun(Initial(key), SwitchOn(first, second))
            && sys.store == Initial(key).store && sys.used == {} && sys.owner.Some? && sys.owner.value.WritesOn()
            && sys.owner.value.exposed && sys.owner.value.version == 2
            && sys.owner.value.epoch == first && sys.owner.value.writeEpoch == second
  {
    var es := SwitchOn(first, second);
    var s0 := Initial(key);
    var s1 := Next(s0, es[0]);
    var s2 := Next(s1, es[1]);
    assert AllOf(first).All() == {first} && AllOf(second).All() == {second};
    assert es[1..] == [es[1]] && [es[1]][1..] == [];
    assert Run(s1, [es[1]]) == s2 && ValidRun(s1, [es[1]]);
  }

  lemma OneWriteSucceeds(value: Id)
    ensures WorkSucceeds([BusinessWrite(value)])
  {
    assert [BusinessWrite(value)][1..] == [];
  }

  /** So committed operations are reachable from the empty store. */
  lemma CommittedIsReachable(key: string, first: Token, second: Token, source: Source, actor: Actor, standing: Standing,
                             grant: Grant) returns (es: seq<Event>)
    requires Hex32(key) && HexToken(first) && HexToken(second) && first != second && source.tool.transfer.NoTransfer?
    ensures ValidRun(Initial(key), es) && |AppsOf(Run(Initial(key), es).store.log, "operation")| == 1
  {
    var on := SwitchOn(first, second);
    var sys := Run(Initial(key), on);
    SwitchedOn(key, first, second);
    InitialInv(key);
    RunKeeps(Initial(key), on);
    var sessions := {("session", actor.user)};
    var c := Request(source, actor, standing, ConnectorPin(grant, first, second, Unset, Unset, {}), sessions, false);
    var b := Request(source, actor, standing, BrowserPin("session", true), sessions, false);
    assert Together(sys.owner, c, b);
    OneWriteSucceeds("value");
    var four := FourSteps(c, b, [], 1, "operation", "intent", "approval", "attempt", [BusinessWrite("value")], "readback");
    FourStepsCommit(sys, c, b, [], 1, "operation", "intent", "approval", "attempt", [BusinessWrite("value")], "readback");
    es := on + four;
    RunsJoin(Initial(key), on, four);
  }
}
