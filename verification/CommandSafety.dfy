/** What holds over every run of the protocol, whatever the clock does, wherever
    processes crash and however each COMMIT ends. */
module CommandSafety {
  import opened Wrappers
  import opened Attempts
  import opened OwnerRecord
  import Owner = OwnerAuthority
  import opened Commands
  import opened CommandRows
  import opened CommandStore
  import opened CommandRuns

  // ---- receipts are forever --------------------------------------------------

  predicate SameOutcome(before: Row, after: Row) {
    after.op == before.op && after.approval == before.approval && after.applied == before.applied &&
    after.jobs == before.jobs
  }

  lemma DoneStays(id: Id, before: Row, after: Row)
    requires RowInv(id, before) && RowChange(before, after) && before.Done()
    ensures after.Done() && SameOutcome(before, after)
  {
  }

  /** A receipt, its approval, its writes and its jobs never change again. */
  lemma {:induction false} ReceiptIsForever(sys: System, es: seq<Event>, id: Id)
    requires Inv(sys) && ValidRun(sys, es) && RowOf(sys.store, id).Done()
    ensures SameOutcome(RowOf(sys.store, id), RowOf(Run(sys, es).store, id))
    decreases |es|
  {
    if es != [] {
      StepKeeps(sys, es[0]);
      StepRow(sys, es[0], id);
      assert RowInv(id, RowOf(sys.store, id));
      DoneStays(id, RowOf(sys.store, id), RowOf(Next(sys, es[0]).store, id));
      ReceiptIsForever(Next(sys, es[0]), es[1..], id);
    }
  }

  // ---- at most once ----------------------------------------------------------

  /** An apply, made when the rows were as before, whose work is what the rows hold
      after it. */
  predicate WorkOf(e: Event, id: Id, before: Row, after: Row, queued: nat) {
    e.ApplyEvent? && CarriesWork(id, before, after, e.attempt, e.steps, queued, e.consumedAt, e.readback)
  }

  /** The step that gives an operation its receipt is an apply, and leaves exactly
      the writes and jobs of its own steps. */
  lemma CommitCarriesWork(sys: System, e: Event, id: Id)
    requires Inv(sys) && ValidEvent(sys, e)
    requires !RowOf(sys.store, id).Done() && RowOf(Next(sys, e).store, id).Done()
    ensures WorkOf(e, id, RowOf(sys.store, id), RowOf(Next(sys, e).store, id), |sys.store.jobs|)
  {
    var row := RowOf(sys.store, id);
    StepRow(sys, e, id);
    assert RowInv(id, row);
    assert e.ApplyEvent? && IsApplying(sys, e.attempt) && sys.clients[e.attempt].operation == id;
    var tx := ApplyOf(sys, e);
    if tx.Write? {
      ApplyTarget(sys, e);
    }
    AfterIsLocal(sys.store, id, tx, e.wall, e.io, id);
    ApplyKeeps(Admit(sys.owner, e.request).value, id, row, e.now, e.attempt, e.steps, |sys.store.jobs|, e.consumedAt,
               e.readback);
  }

  /** The state a run is in after its first k steps. */
  function At(sys: System, es: seq<Event>, k: nat): System
    requires k <= |es|
    decreases k
  {
    if k == 0 then sys else At(Next(sys, es[0]), es[1..], k - 1)
  }

  /** The k-th step of a run is an apply whose work the rows hold at its end. */
  predicate MadeBy(sys: System, es: seq<Event>, k: nat, id: Id, end: Row) {
    k < |es| && WorkOf(es[k], id, RowOf(At(sys, es, k).store, id), end, |At(sys, es, k).store.jobs|)
  }

  lemma MadeByFirst(sys: System, es: seq<Event>, id: Id)
    requires Inv(sys) && ValidRun(sys, es) && es != []
    requires !RowOf(sys.store, id).Done() && RowOf(Next(sys, es[0]).store, id).Done()
    ensures MadeBy(sys, es, 0, id, RowOf(Run(sys, es).store, id))
  {
    StepKeeps(sys, es[0]);
    CommitCarriesWork(sys, es[0], id);
    ReceiptIsForever(Next(sys, es[0]), es[1..], id);
    OutcomeKeepsWork(es[0], id, RowOf(sys.store, id), RowOf(Next(sys, es[0]).store, id),
                     RowOf(Run(Next(sys, es[0]), es[1..]).store, id), |sys.store.jobs|);
  }

  lemma OutcomeKeepsWork(e: Event, id: Id, before: Row, after: Row, end: Row, queued: nat)
    requires WorkOf(e, id, before, after, queued) && SameOutcome(after, end)
    ensures WorkOf(e, id, before, end, queued)
  {
  }

  lemma MadeByLater(sys: System, es: seq<Event>, k: nat, id: Id, end: Row)
    requires es != [] && MadeBy(Next(sys, es[0]), es[1..], k, id, end)
    ensures MadeBy(sys, es, k + 1, id, end)
  {
    assert es[1..][k] == es[k + 1];
  }

  /** The run after its first step, for the same end. */
  lemma FirstStep(sys: System, es: seq<Event>, id: Id, end: Row) returns (next: System)
    requires Inv(sys) && ValidRun(sys, es) && es != [] && !RowOf(sys.store, id).Done() && end == RowOf(Run(sys, es).store, id)
    ensures Inv(next) && ValidRun(next, es[1..]) && end == RowOf(Run(next, es[1..]).store, id)
    ensures RowOf(next.store, id).Done() ==> MadeBy(sys, es, 0, id, end)
    ensures forall k: nat :: MadeBy(next, es[1..], k, id, end) ==> MadeBy(sys, es, k + 1, id, end)
  {
    next := Next(sys, es[0]);
    StepKeeps(sys, es[0]);
    if RowOf(next.store, id).Done() {
      MadeByFirst(sys, es, id);
    }
    forall k: nat | MadeBy(next, es[1..], k, id, end) ensures MadeBy(sys, es, k + 1, id, end) {
      MadeByLater(sys, es, k, id, end);
    }
  }

  lemma {:induction false} CommitWasMade(sys: System, es: seq<Event>, id: Id, end: Row) returns (k: nat)
    requires Inv(sys) && ValidRun(sys, es) && end == RowOf(Run(sys, es).store, id)
    requires !RowOf(sys.store, id).Done() && end.Done()
    ensures MadeBy(sys, es, k, id, end)
    decreases |es|
  {
    var next := FirstStep(sys, es, id, end);
    k := 0;
    if !RowOf(next.store, id).Done() {
      var j := CommitWasMade(next, es[1..], id, end);
      k := j + 1;
    }
  }

  /** In every reachable state, an operation's writes have landed exactly when
      its receipt exists, and then once: all of them are the writes of one apply of
      the run, by the receipt's attempt, and the queued jobs are exactly the effects
      of that apply's steps. */
  lemma AtMostOnce(key: string, es: seq<Event>, id: Id) returns (k: nat)
    requires Hex32(key) && ValidRun(Initial(key), es)
    ensures var s := Run(Initial(key), es).store;
            var applied, jobs := AppsOf(s.log, id), JobsOf(s.jobs, id);
            && |applied| <= 1
            && (|applied| == 1 <==> id in s.ops && s.ops[id].receipt.Some?)
            && (|applied| == 0 ==> jobs == [])
            && (|applied| == 1 ==>
                  && applied[0].attempt == s.ops[id].receipt.value.attempt
                  && jobs == StampJobs(s.ops[id].prepared, s.ops[id].receipt.value.effects)
                  && MadeBy(Initial(key), es, k, id, RowOf(s, id)))
  {
    k := 0;
    InitialInv(key);
    RunKeeps(Initial(key), es);
    var row := RowOf(Run(Initial(key), es).store, id);
    assert RowInv(id, row);
    if row.Done() {
      k := CommitWasMade(Initial(key), es, id, row);
    }
  }

  /** In every reachable state the union validator accepts the tables, and no
      two queued jobs share an id. */
  lemma UnionAlwaysHolds(key: string, es: seq<Event>)
    requires Hex32(key) && ValidRun(Initial(key), es)
    ensures TablesOk(Run(Initial(key), es).store) && JobsNumbered(Run(Initial(key), es).store.jobs)
  {
    InitialInv(key);
    RunKeeps(Initial(key), es);
    var s := Run(Initial(key), es).store;
    forall id ensures RowUnion(id, RowOf(s, id)) {
      assert RowInv(id, RowOf(s, id));
    }
    TablesOkIffRows(s);
  }

  /** In every reachable state the attempts of one operation start strictly one
      after another, at most the last is running, no attempt follows an unknown
      COMMIT outcome, and an attempt that is not the last never committed. */
  lemma AttemptsAreOrdered(key: string, es: seq<Event>, id: Id)
    requires Hex32(key) && ValidRun(Initial(key), es)
    ensures var row := RowOf(Run(Initial(key), es).store, id);
            && Increasing(row.history) && Distinct(row.history) && OnlyLastRuns(row.history) && UnknownIsFinal(row.history)
            && (forall k :: 0 <= k < |row.history| - 1 ==> !CommittedBy(row, row.history[k].id))
            && (row.history != [] ==> Latest(row.history) == Some(row.history[|row.history| - 1]))
  {
    InitialInv(key);
    RunKeeps(Initial(key), es);
    var row := RowOf(Run(Initial(key), es).store, id);
    assert RowInv(id, row);
    if row.history != [] {
      LatestIsLast(row.history);
    }
  }

  // ---- superseded claims -----------------------------------------------------

  /** An attempt that is no longer the latest of its operation, or is gone with
      it. */
  predicate Overtaken(sys: System, id: Id, attempt: Id) {
    var row := RowOf(sys.store, id);
    attempt in sys.used && !CommittedBy(row, attempt) && NotLast(row.history, attempt)
  }

  predicate NotLast(h: seq<Attempt>, attempt: Id) {
    forall k :: 0 <= k < |h| && h[k].id == attempt ==> k < |h| - 1
  }

  lemma NotLastStays(before: Row, after: Row, used: set<Id>, attempt: Id)
    requires RowChange(before, after) && NewAttempts(used, before, after) && attempt in used
    requires NotLast(before.history, attempt) && !CommittedBy(before, attempt)
    ensures NotLast(after.history, attempt) && !CommittedBy(after, attempt)
  {
    assert Commits(before, after) ==> before.history[|before.history| - 1].id != attempt;
    forall k | 0 <= k < |after.history| && after.history[k].id == attempt ensures k < |after.history| - 1 {
      assert k < |before.history|;
    }
  }

  lemma StaysOvertaken(sys: System, e: Event, id: Id, attempt: Id)
    requires Inv(sys) && ValidEvent(sys, e) && Overtaken(sys, id, attempt)
    ensures Overtaken(Next(sys, e), id, attempt)
  {
    StepRow(sys, e, id);
    UsedGrows(sys, e);
    NotLastStays(RowOf(sys.store, id), RowOf(Next(sys, e).store, id), sys.used, attempt);
  }

  lemma {:induction false} OvertakenNeverCommits(sys: System, es: seq<Event>, id: Id, attempt: Id)
    requires Inv(sys) && ValidRun(sys, es) && Overtaken(sys, id, attempt)
    ensures !CommittedBy(RowOf(Run(sys, es).store, id), attempt)
    decreases |es|
  {
    if es != [] {
      StepKeeps(sys, es[0]);
      StaysOvertaken(sys, es[0], id, attempt);
      OvertakenNeverCommits(Next(sys, es[0]), es[1..], id, attempt);
    }
  }

  /** A superseded claim can never commit, whatever the clock does and although
      its process may still be running: once another attempt follows it, no
      continuation of the run gives the operation a receipt by it. */
  lemma SupersededNeverCommits(sys: System, es: seq<Event>, id: Id, k: nat)
    requires Inv(sys) && ValidRun(sys, es) && k < |RowOf(sys.store, id).history| - 1
    ensures !CommittedBy(RowOf(Run(sys, es).store, id), RowOf(sys.store, id).history[k].id)
  {
    var row := RowOf(sys.store, id);
    assert RowInv(id, row) && RowKnown(sys, id, row);
    OvertakenNeverCommits(sys, es, id, row.history[k].id);
  }

  // ---- an unknown outcome ends the operation ---------------------------------

  predicate Ended(row: Row) {
    || (row.op.None? && row.history == [])
    || (!row.Done() && row.history != [] && Unreconciled(row.history[|row.history| - 1]))
  }

  lemma EndedStays(id: Id, before: Row, after: Row)
    requires RowInv(id, before) && RowInv(id, after) && RowChange(before, after) && Ended(before)
    requires before.op.None? ==> after.op.None?
    ensures Ended(after) && (after.history == before.history || after.history == [])
  {
  }

  /** Once the record step has stored an unknown outcome without a receipt, no
      attempt ever follows and the operation never commits. */
  lemma {:induction false} UnknownIsTheEnd(sys: System, es: seq<Event>, id: Id)
    requires Inv(sys) && ValidRun(sys, es) && id in sys.used && Ended(RowOf(sys.store, id))
    ensures var row := RowOf(Run(sys, es).store, id);
            !row.Done() && row.applied == [] && (row.history == RowOf(sys.store, id).history || row.history == [])
    decreases |es|
  {
    assert RowInv(id, RowOf(sys.store, id));
    if es != [] {
      StepKeeps(sys, es[0]);
      StepRow(sys, es[0], id);
      UsedGrows(sys, es[0]);
      EndedStays(id, RowOf(sys.store, id), RowOf(Next(sys, es[0]).store, id));
      UnknownIsTheEnd(Next(sys, es[0]), es[1..], id);
    }
  }

  lemma UsedGrows(sys: System, e: Event)
    ensures sys.used <= Next(sys, e).used && sys.tokens <= Next(sys, e).tokens
  {
  }

  // ---- authority that has died stays dead ------------------------------------

  /** An owner step cannot bring back the authority of an existing operation:
      epochs only ever change to newly drawn ones. */
  lemma OwnerStepRevivesNothing(sys: System, e: Event, row: Row)
    requires Inv(sys) && ValidEvent(sys, e) && e.OwnerEvent?
    requires exists id :: RowKnown(sys, id, row)
    ensures Alive(Next(sys, e).owner, row) ==> Alive(sys.owner, row)
  {
    if Decide(sys.key, sys.owner, e.action, e.drawn).Replace? {
      ReplacementRevivesNothing(sys.key, sys.owner, e.action, e.drawn, sys.tokens, row);
    }
  }

  /** A record written with fresh tokens carries no authority of a row that only
      mentions drawn ones, unless the record before it did. */
  lemma ReplacementRevivesNothing(key: string, owner: Option<OwnerState>, a: OwnerAction, f: Fresh, tokens: set<Token>, row: Row)
    requires Owner.SoundRecord(key, owner) && Decide(key, owner, a, f).Replace? && f.All() !! tokens
    requires row.op.Some? ==>
               var p := row.op.value.prepared; {p.authority.owner, p.authority.write, p.authority.external} <= tokens
    requires row.approval.Some? && row.approval.value.record.basis.GrantConsent? ==> row.approval.value.record.basis.epoch in tokens
    ensures Alive(Some(Decide(key, owner, a, f).next), row) ==> Alive(owner, row)
  {
    assert f.owner in f.All() && f.write in f.All() && f.editExport in f.All() && f.exportToken in f.All() &&
           f.auto in f.All() && f.editAuto in f.All();
    if owner.Some? {
      EpochsFollowSwitches(key, owner.value, a, f);
    } else {
      assert Decide(key, owner, a, f).next.epoch == f.owner;
    }
  }

  lemma DeadRowStays(before: Row, after: Row, owner: Option<OwnerState>)
    requires RowChange(before, after) && !after.Done() && !Alive(owner, before)
    requires before.op.None? ==> after.op.None?
    ensures !Alive(owner, after)
  {
  }

  lemma DeadStaysDead(sys: System, e: Event, id: Id)
    requires Inv(sys) && ValidEvent(sys, e) && id in sys.used
    requires !Alive(sys.owner, RowOf(sys.store, id)) && !RowOf(sys.store, id).Done()
    ensures !Alive(Next(sys, e).owner, RowOf(Next(sys, e).store, id)) && !RowOf(Next(sys, e).store, id).Done()
  {
    StepRow(sys, e, id);
    var before, after := RowOf(sys.store, id), RowOf(Next(sys, e).store, id);
    if e.OwnerEvent? {
      assert RowKnown(sys, id, before);
      OwnerStepRevivesNothing(sys, e, before);
    } else {
      DeadRowStays(before, after, sys.owner);
    }
  }

  /** An operation whose authority the owner record no longer carries never
      commits, whatever the owner does afterwards. */
  lemma {:induction false} DeadNeverCommits(sys: System, es: seq<Event>, id: Id)
    requires Inv(sys) && ValidRun(sys, es) && id in sys.used
    requires !Alive(sys.owner, RowOf(sys.store, id)) && !RowOf(sys.store, id).Done()
    ensures !RowOf(Run(sys, es).store, id).Done() && AppsOf(Run(sys, es).store.log, id) == []
    decreases |es|
  {
    assert RowInv(id, RowOf(sys.store, id));
    if es != [] {
      StepKeeps(sys, es[0]);
      DeadStaysDead(sys, es[0], id);
      UsedGrows(sys, es[0]);
      DeadNeverCommits(Next(sys, es[0]), es[1..], id);
    }
  }

  predicate OwnerStepSucceeds(sys: System, e: Event)
    requires e.OwnerEvent?
  {
    Owner.Succeeds(Decide(sys.key, sys.owner, e.action, e.drawn), e.replacement)
  }

  lemma TurnOffLeavesWritesOff(key: string, owner: Option<OwnerState>, a: OwnerAction, f: Fresh, io: Owner.Replacement)
    requires IsTurnOff(a) && Owner.SoundRecord(key, owner) && Owner.Succeeds(Decide(key, owner, a, f), io)
    ensures !Owner.Writable(Owner.Replaced(owner, Decide(key, owner, a, f), io))
  {
    if owner.Some? {
      TurnOffRotates(key, owner.value, a, f);
    }
  }

  lemma TurnOffKills(sys: System, off: Event, row: Row)
    requires Owner.SoundRecord(sys.key, sys.owner)
    requires off.OwnerEvent? && IsTurnOff(off.action) && OwnerStepSucceeds(sys, off)
    ensures !Alive(Next(sys, off).owner, row)
  {
    TurnOffLeavesWritesOff(sys.key, sys.owner, off.action, off.drawn, off.replacement);
  }

  /** What follows once an owner step has ended an operation's authority. */
  lemma KilledNeverCommits(sys: System, e: Event, es: seq<Event>, id: Id)
    requires Inv(sys) && ValidRun(sys, [e] + es) && id in sys.used && e.OwnerEvent? && !RowOf(sys.store, id).Done()
    requires !Alive(Next(sys, e).owner, RowOf(sys.store, id))
    ensures !RowOf(Run(sys, [e] + es).store, id).Done() && AppsOf(Run(sys, [e] + es).store.log, id) == []
  {
    assert ([e] + es)[1..] == es && ([e] + es)[0] == e;
    StepKeeps(sys, e);
    DeadNeverCommits(Next(sys, e), es, id);
  }

  /** Writes off, disable, revoke, restore or start-up suspension: no operation
      prepared before it commits after it, even if writes come back. */
  lemma TurnOffIsForever(sys: System, off: Event, es: seq<Event>, id: Id)
    requires Inv(sys) && ValidRun(sys, [off] + es) && id in sys.used && !RowOf(sys.store, id).Done()
    requires off.OwnerEvent? && IsTurnOff(off.action) && OwnerStepSucceeds(sys, off)
    ensures !RowOf(Run(sys, [off] + es).store, id).Done() && AppsOf(Run(sys, [off] + es).store.log, id) == []
  {
    TurnOffKills(sys, off, RowOf(sys.store, id));
    KilledNeverCommits(sys, off, es, id);
  }

  lemma AutoSwitchKills(sys: System, e: Event, row: Row)
    requires Inv(sys) && ValidEvent(sys, e) && e.OwnerEvent? && IsAutoSwitch(e.action) && OwnerStepSucceeds(sys, e)
    requires row.approval.Some? && row.approval.value.record.basis.GrantConsent?
    requires row.approval.value.record.basis.epoch in sys.tokens
    ensures !Alive(Next(sys, e).owner, row)
  {
    assert e.drawn.auto in e.drawn.All() && e.drawn.editAuto in e.drawn.All();
    AutoSwitchLeaves(sys.key, sys.owner, e.action, e.drawn);
    assert Next(sys, e).owner == Some(Decide(sys.key, sys.owner, e.action, e.drawn).next);
  }

  lemma AutoSwitchLeaves(key: string, owner: Option<OwnerState>, a: OwnerAction, f: Fresh)
    requires Owner.SoundRecord(key, owner) && IsAutoSwitch(a)
    ensures var d := Decide(key, owner, a, f);
            !d.Keep? && (d.Replace? && d.next.WritesOn() && d.next.autoApprove.on ==> d.next.autoApprove.epoch in {f.editAuto, f.auto})
  {
    if owner.Some? && Decide(key, owner, a, f).Replace? {
      if owner.value.version == 2 {
        AutoSwitchRotates(key, owner.value, a, f);
      } else {
        Version1StaysOff(key, owner.value, a, f);
      }
    }
  }

  lemma Version1StaysOff(key: string, st: OwnerState, a: OwnerAction, f: Fresh)
    requires FieldsOk(key, st) && st.version == 1 && a.Mutate? && Decide(key, Some(st), a, f).Replace?
    ensures !Decide(key, Some(st), a, f).next.WritesOn()
  {
  }

  /** Auto-approval switched either way: an operation approved by standing
      consent before it never commits after it. */
  lemma AutoSwitchIsForever(sys: System, switch: Event, es: seq<Event>, id: Id)
    requires Inv(sys) && ValidRun(sys, [switch] + es) && id in sys.used && !RowOf(sys.store, id).Done()
    requires switch.OwnerEvent? && IsAutoSwitch(switch.action) && OwnerStepSucceeds(sys, switch)
    requires var a := RowOf(sys.store, id).approval; a.Some? && a.value.record.basis.GrantConsent?
    ensures !RowOf(Run(sys, [switch] + es).store, id).Done() && AppsOf(Run(sys, [switch] + es).store.log, id) == []
  {
    var row := RowOf(sys.store, id);
    assert RowKnown(sys, id, row);
    assert ValidEvent(sys, ([switch] + es)[0]);
    AutoSwitchKills(sys, switch, row);
    KilledNeverCommits(sys, switch, es, id);
  }

  predicate IsExportSwitch(a: OwnerAction) {
    a.Mutate? && a.edit.SwitchEdit? && a.edit.exporting.Some?
  }

  lemma ExportSwitchKills(sys: System, e: Event, row: Row)
    requires ValidEvent(sys, e) && e.OwnerEvent? && IsExportSwitch(e.action) && OwnerStepSucceeds(sys, e)
    requires row.op.Some? && row.op.value.prepared.source.tool.transfer.Push?
    requires row.op.value.prepared.authority.external in sys.tokens
    ensures !Alive(Next(sys, e).owner, row)
  {
    assert e.drawn.editExport in e.drawn.All();
  }

  /** External export switched either way: no push prepared before it commits
      after it. */
  lemma ExportSwitchIsForever(sys: System, switch: Event, es: seq<Event>, id: Id)
    requires Inv(sys) && ValidRun(sys, [switch] + es) && id in sys.used && !RowOf(sys.store, id).Done()
    requires switch.OwnerEvent? && IsExportSwitch(switch.action) && OwnerStepSucceeds(sys, switch)
    requires var op := RowOf(sys.store, id).op; op.Some? && op.value.prepared.source.tool.transfer.Push?
    ensures !RowOf(Run(sys, [switch] + es).store, id).Done() && AppsOf(Run(sys, [switch] + es).store.log, id) == []
  {
    assert RowKnown(sys, id, RowOf(sys.store, id));
    assert ValidEvent(sys, ([switch] + es)[0]);
    ExportSwitchKills(sys, switch, RowOf(sys.store, id));
    KilledNeverCommits(sys, switch, es, id);
  }

  // ---- expiry ----------------------------------------------------------------

  function TimeOf(e: Event): Option<int> {
    match e
    case PrepareEvent(_, _, now, _, _, _, _) => Some(now)
    case ReviewEvent(_, _, now, _, _, _) => Some(now)
    case ClaimEvent(_, _, now, _, _, _) => Some(now)
    case ApplyEvent(_, _, now, _, _, _, _, _) => Some(now)
    case SettleEvent(_, now, _) => Some(now)
    case _ => None
  }

  /** Every later step happens at this time or after. */
  predicate NotBefore(es: seq<Event>, time: int) {
    forall i :: 0 <= i < |es| ==> TimeOf(es[i]).Some? ==> TimeOf(es[i]).value >= time
  }

  /** An epoch the prepared operation is pinned to is no longer the record's. */
  predicate EpochsGone(owner: Option<OwnerState>, p: Prepared) { EpochsGoneFor(owner, p, p.source.tool.transfer.Push?) }

  /** As a caller sees it, whose own tool says whether the export epoch matters. */
  predicate EpochsGoneFor(owner: Option<OwnerState>, p: Prepared, pushes: bool) {
    && owner.Some?
    && (owner.value.epoch != p.authority.owner || owner.value.writeEpoch != p.authority.write ||
        (pushes && (p.authority.external.Unset? || owner.value.externalExport.epoch != p.authority.external)))
  }

  lemma EpochsStayGone(sys: System, e: Event, p: Prepared)
    requires Inv(sys) && ValidEvent(sys, e) && EpochsGone(sys.owner, p)
    requires {p.authority.owner, p.authority.write, p.authority.external} <= sys.tokens
    ensures EpochsGone(Next(sys, e).owner, p)
  {
    if e.OwnerEvent? {
      var d := Decide(sys.key, sys.owner, e.action, e.drawn);
      assert e.drawn.owner in e.drawn.All() && e.drawn.write in e.drawn.All() && e.drawn.editExport in e.drawn.All()
          && e.drawn.exportToken in e.drawn.All();
      if d.Replace? {
        EpochsFollowSwitches(sys.key, sys.owner.value, e.action, e.drawn);
      }
    }
  }

  /** No receipt, and expired at this time: past its lifetime, or an epoch of it
      is gone. */
  predicate OverRow(owner: Option<OwnerState>, row: Row, time: int) {
    && !row.Done()
    && (row.op.Some? ==> time >= row.op.value.prepared.expiresAt || EpochsGone(owner, row.op.value.prepared))
  }

  predicate Over(sys: System, id: Id, time: int) {
    id in sys.used && OverRow(sys.owner, RowOf(sys.store, id), time)
  }

  lemma OverRowNeverCommits(sys: System, e: Event, before: Row, time: int)
    requires Owner.SoundRecord(sys.key, sys.owner) && before.op.Some? && OverRow(sys.owner, before, time)
    requires TimeOf(e).Some? ==> TimeOf(e).value >= time
    ensures !CommitPoint(sys, e, before)
  {
  }

  lemma OverRowStays(before: Row, after: Row, owner: Option<OwnerState>, next: Option<OwnerState>, time: int)
    requires RowChange(before, after) && !after.Done() && before.op.Some? && OverRow(owner, before, time)
    requires EpochsGone(owner, before.op.value.prepared) ==> EpochsGone(next, before.op.value.prepared)
    ensures OverRow(next, after, time)
  {
  }

  lemma NothingIsOver(before: Row, after: Row, next: Option<OwnerState>, time: int)
    requires RowChange(before, after) && before.op.None? && after.op.None? && !before.Done()
    ensures OverRow(next, after, time)
  {
  }

  lemma OverDoesNotCommit(sys: System, e: Event, id: Id, time: int)
    requires Inv(sys) && ValidEvent(sys, e) && Over(sys, id, time) && (TimeOf(e).Some? ==> TimeOf(e).value >= time)
    ensures var before, after := RowOf(sys.store, id), RowOf(Next(sys, e).store, id);
            RowChange(before, after) && (before.op.None? ==> after.op.None?) && (before.op.Some? ==> !after.Done())
  {
    StepRow(sys, e, id);
    var before := RowOf(sys.store, id);
    if before.op.Some? {
      OverRowNeverCommits(sys, e, before, time);
    }
  }

  lemma GoneStaysGone(sys: System, e: Event, id: Id)
    requires Inv(sys) && ValidEvent(sys, e)
    requires var op := RowOf(sys.store, id).op; op.Some? && EpochsGone(sys.owner, op.value.prepared)
    ensures EpochsGone(Next(sys, e).owner, RowOf(sys.store, id).op.value.prepared)
  {
    assert RowKnown(sys, id, RowOf(sys.store, id));
    EpochsStayGone(sys, e, RowOf(sys.store, id).op.value.prepared);
  }

  lemma StaysOver(sys: System, e: Event, id: Id, time: int)
    requires Inv(sys) && ValidEvent(sys, e) && Over(sys, id, time) && (TimeOf(e).Some? ==> TimeOf(e).value >= time)
    ensures Over(Next(sys, e), id, time)
  {
    OverDoesNotCommit(sys, e, id, time);
    UsedGrows(sys, e);
    var before, after, next := RowOf(sys.store, id), RowOf(Next(sys, e).store, id), Next(sys, e).owner;
    if before.op.Some? {
      if EpochsGone(sys.owner, before.op.value.prepared) {
        GoneStaysGone(sys, e, id);
      }
      OverRowStays(before, after, sys.owner, next, time);
    } else {
      NothingIsOver(before, after, next, time);
    }
  }

  lemma {:induction false} OverForever(sys: System, es: seq<Event>, id: Id, time: int)
    requires Inv(sys) && ValidRun(sys, es) && NotBefore(es, time) && Over(sys, id, time)
    ensures Over(Run(sys, es), id, time)
    decreases |es|
  {
    if es != [] {
      StepKeeps(sys, es[0]);
      StaysOver(sys, es[0], id, time);
      forall i | 0 <= i < |es| - 1 && TimeOf(es[1..][i]).Some? ensures TimeOf(es[1..][i]).value >= time {
        assert es[1..][i] == es[i + 1];
      }
      OverForever(Next(sys, es[0]), es[1..], id, time);
    }
  }

  /** While the clock does not go back behind its expiry, an expired operation
      never commits. */
  lemma ExpiredNeverCommits(sys: System, es: seq<Event>, id: Id, time: int)
    requires Inv(sys) && ValidRun(sys, es) && id in sys.used && !RowOf(sys.store, id).Done() && NotBefore(es, time)
    requires var op := RowOf(sys.store, id).op; op.Some? ==> time >= op.value.prepared.expiresAt
    ensures !RowOf(Run(sys, es).store, id).Done() && AppsOf(Run(sys, es).store.log, id) == []
  {
    OverForever(sys, es, id, time);
    RunKeeps(sys, es);
    assert RowInv(id, RowOf(Run(sys, es).store, id));
  }

  /** An operation that is expired at some time is expired, or removed, at any
      later time, for every caller with the same tool, and in fact for any caller
      but this one: if the operation pushes and only its export epoch is gone, a
      caller whose tool no longer pushes does not see that. */
  lemma ExpiredIsAbsorbing(sys: System, es: seq<Event>, id: Id, time: int, later: Request, at: int)
    requires Inv(sys) && ValidRun(sys, es) && NotBefore(es, time) && Over(sys, id, time) && time <= at
    requires Admit(Run(sys, es).owner, later).Some?
    ensures var row := RowOf(Run(sys, es).store, id);
            row.op.Some? ==>
              var p := row.op.value.prepared;
              (OperationState(Admit(Run(sys, es).owner, later).value, row.op.value, row.approval.Some?, row.history, at).0.IsExpired?
               <==> (p.source.tool.transfer.Push? ==> later.source.tool.transfer.Push?) || at >= p.expiresAt ||
                    EpochsGoneFor(Run(sys, es).owner, p, false))
  {
    OverForever(sys, es, id, time);
    var row := RowOf(Run(sys, es).store, id);
    if row.op.Some? {
      ExpiredMeans(Run(sys, es).owner, later, row.op.value.prepared, at);
    }
  }

  /** The status reads expired exactly when the time has come or an epoch the
      caller looks at is gone. */
  lemma ExpiredMeans(owner: Option<OwnerState>, r: Request, p: Prepared, now: int)
    requires Admit(owner, r).Some?
    ensures Expired(Admit(owner, r).value, p, now) <==>
            now >= p.expiresAt || EpochsGoneFor(owner, p, r.source.tool.transfer.Push?)
  {
    AdmitMeans(owner, r);
  }
}
