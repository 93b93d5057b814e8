/** The writers of the owner record as the program runs them: read under the
    lock, assign fields, then stage and rename. Each is proved equal to its
    decision in OwnerRecord, for every way the replacement can end. */
module OwnerAuthority {
  import opened Wrappers
  import opened OwnerRecord

  /** How far stage, rename and directory sync got. The rename is the moment the
      new record becomes visible; only a completed sync reports success. */
  datatype Replacement = NotRenamed | RenamedUnsynced | Durable

  function Replaced(record: Option<OwnerState>, d: Decision, io: Replacement): Option<OwnerState> {
    if d.Replace? && !io.NotRenamed? then Some(d.next) else record
  }

  predicate Succeeds(d: Decision, io: Replacement) { d.Keep? || (d.Replace? && io.Durable?) }

  predicate Readable(key: string, record: Option<OwnerState>) {
    record.Some? ==> ReaderAccepts(key, record.value)
  }

  predicate SoundRecord(key: string, record: Option<OwnerState>) {
    record.Some? ==> Sound(key, record.value)
  }

  predicate Exposed(record: Option<OwnerState>) { record.Some? && record.value.exposed }
  predicate Writable(record: Option<OwnerState>) { record.Some? && record.value.WritesOn() }

  predicate AutoApproves(record: Option<OwnerState>) { record.Some? && record.value.autoApprove.on }

  /** A record with no connector exposed, nothing exported and nothing published. */
  predicate Hidden(record: Option<OwnerState>) {
    record.Some? && !record.value.exposed && !record.value.externalExport.on && !record.value.publication.on
  }

  /** Exposure, owner epoch, export and publication are as they were. */
  predicate SameConnector(before: OwnerState, after: OwnerState) {
    && after.app == before.app && after.epoch == before.epoch && after.exposed == before.exposed
    && after.externalExport == before.externalExport && after.publication == before.publication
  }

  /** Writes and auto-approval went off under new epochs, with the reviewed digests
      kept or dropped, and nothing else. */
  predicate Suspended(before: OwnerState, after: OwnerState, keepBinding: bool, f: Fresh) {
    && SameConnector(before, after) && !after.WritesOn() && after.writeEpoch == f.write
    && after.autoApprove == Switch(false, f.auto)
    && after.contractDigest == (if keepBinding then before.contractDigest else Unset)
    && after.executionDigest == (if keepBinding then before.executionDigest else Unset)
  }

  /** Writes came on under a new epoch, with auto-approval off, and nothing else. */
  predicate Resumed(before: OwnerState, after: OwnerState, f: Fresh) {
    && SameConnector(before, after) && after.WritesOn() && after.writeEpoch == f.write
    && after.autoApprove == Switch(false, f.auto)
    && after.contractDigest == before.contractDigest && after.executionDigest == before.executionDigest
  }

  /** Export and publication are as they were. */
  predicate SameCapabilities(before: Option<OwnerState>, after: Option<OwnerState>) {
    before.Some? ==>
      after.Some? && after.value.externalExport == before.value.externalExport &&
      after.value.publication == before.value.publication
  }

  lemma ReplacementKeepsSound(key: string, record: Option<OwnerState>, a: OwnerAction, f: Fresh, io: Replacement)
    requires Hex32(key) && f.Valid() && ActionValid(a) && SoundRecord(key, record)
    ensures SoundRecord(key, Replaced(record, Decide(key, record, a, f), io))
  {
    WritersKeepSound(key, record, a, f);
  }

  /** The edit that switches the named capabilities, and with them auto-approval off. */
  function Switches(on: bool, autoOff: bool, exporting: bool, publishing: bool): Edit {
    SwitchEdit(autoOff, if exporting then Some(on) else None, if publishing then Some(on) else None)
  }

  lemma SwitchesOffMeans(key: string, st: OwnerState, auto: bool, exporting: bool, publishing: bool, f: Fresh)
    requires FieldsOk(key, st)
    ensures var d := Decide(key, Some(st), Mutate(None, false, false, Switches(false, auto, exporting, publishing)), f);
            && d.Replace? && (auto ==> !d.next.autoApprove.on)
            && (exporting ==> d.next.externalExport == Switch(false, f.editExport))
            && (publishing ==> d.next.publication == Switch(false, f.editPublication))
            && (d.next.WritesOn() <==> st.WritesOn())
  {
  }

  lemma SwitchesOnMeans(key: string, record: Option<OwnerState>, exporting: bool, publishing: bool, f: Fresh)
    ensures var d := Decide(key, record, Mutate(Some(true), false, true, Switches(true, false, exporting, publishing)), f);
            && d.Replace? && d.next.exposed && (exporting ==> d.next.externalExport.on) && (publishing ==> d.next.publication.on)
  {
  }

  /** However its replacement ends, an expose leaves a sound record, and shows the
      connector with the named switches on if it is durable. */
  lemma ExposeOutcome(key: string, record: Option<OwnerState>, exporting: bool, publishing: bool, f: Fresh, io: Replacement)
    requires Hex32(key) && f.Valid() && SoundRecord(key, record)
    ensures var after := Replaced(record, Decide(key, record, Mutate(Some(true), false, true, Switches(true, false, exporting, publishing)), f), io);
            && SoundRecord(key, after)
            && (io.Durable? ==>
                  && Exposed(after) && (exporting ==> after.value.externalExport.on) && (publishing ==> after.value.publication.on))
            && (io.NotRenamed? ==> after == record)
  {
    ReplacementKeepsSound(key, record, Mutate(Some(true), false, true, Switches(true, false, exporting, publishing)), f, io);
    SwitchesOnMeans(key, record, exporting, publishing, f);
  }

  /** What an enable that succeeds found, and what it left. */
  lemma EnableOutcome(key: string, record: Option<OwnerState>, resume: bool, contract: Token, execution: Token, f: Fresh, io: Replacement)
    requires Readable(key, record)
    ensures var d := Decide(key, record, EnableEnrolledWrites(resume, contract, execution), f);
            var after := Replaced(record, d, io);
            && (Succeeds(d, io) ==> EnabledFrom(record, after, resume, contract, execution, f))
            && (Exposed(record) && !resume && io.Durable? ==> Succeeds(d, io))
  {
  }

  /** Writes on, on a connector that was exposed, under the digests given unless they
      were on before; by a resume only after a suspension under the same digests. */
  predicate EnabledFrom(before: Option<OwnerState>, after: Option<OwnerState>, resume: bool, contract: Token, execution: Token, f: Fresh) {
    && Exposed(before) && Writable(after)
    && (resume ==>
          before.value.approvedWrites == Some(false) && before.value.contractDigest.Token? &&
          before.value.contractDigest == contract && before.value.executionDigest == execution)
    && (Writable(before) ==> after == before)
    && (!Writable(before) ==>
          after.value.contractDigest == contract && after.value.executionDigest == execution &&
          Resumed(before.value.(contractDigest := contract, executionDigest := execution), after.value, f))
  }

  /** An owner request to the control endpoint. */
  datatype ControlAction = EnableConnector | DisableConnector
  datatype Request = Request(action: ControlAction, writes: bool, exporting: bool, publishing: bool, revoke: bool, auto: bool)
  {
    predicate Flags() { exporting || publishing || auto }

    /** A revoke stands alone, and auto-approval is switched on only with writes. */
    predicate Meaningful() {
      && (revoke ==> action.DisableConnector? && !writes && !Flags())
      && (auto && action.EnableConnector? ==> writes)
    }
  }

  /** What the surroundings answer while a request runs. */
  datatype Surroundings = Surroundings(
    manifestValid: bool, commandTools: nat, grantTools: nat, enrolled: bool,
    contract: Token, execution: Token,
    first: Replacement, second: Replacement, third: Replacement, rollback: Replacement,
    fresh1: Fresh, fresh2: Fresh, fresh3: Fresh, fresh4: Fresh)
  {
    predicate Valid() {
      fresh1.Valid() && fresh2.Valid() && fresh3.Valid() && fresh4.Valid() && HexToken(contract) && HexToken(execution)
    }

    predicate AllDurable() { first.Durable? && second.Durable? && third.Durable? && rollback.Durable? }

    /** What an enable finds: a valid manifest, and for writes an enrolled source
        with a command, for auto-approval with one that grants may approve. */
    predicate Ready(req: Request) {
      && manifestValid
      && (req.writes ==> commandTools > 0 && enrolled)
      && (req.writes && req.auto ==> grantTools > 0)
    }
  }

  class Authority {
    const key: string
    var record: Option<OwnerState>

    constructor (key: string)
      ensures this.key == key && record.None?
    {
      this.key := key;
      record := None;
    }

    method Store(next: OwnerState, io: Replacement) returns (ok: bool)
      modifies this`record
      ensures record == Replaced(old(record), Replace(next), io)
      ensures ok <==> io.Durable?
    {
      if io.NotRenamed? {
        return false;
      }
      record := Some(next);
      ok := io.Durable?;
    }

    /** The closures of the owner steps, assigning one switch at a time. */
    static method RunEdit(edit: Edit, f: Fresh, before: OwnerState) returns (ok: bool, state: OwnerState)
      ensures ok <==> ApplyEdit(before, edit, f).Some?
      ensures ok ==> ApplyEdit(before, edit, f) == Some(state)
    {
      state := before;
      match edit {
        case NoEdit =>
        case AutoEdit(enabled) =>
          if enabled && (!state.exposed || state.version != 2 || !state.WritesOn()) {
            return false, state;
          }
          state := state.(autoApprove := state.autoApprove.(on := enabled));
          if state.version == 2 {
            state := state.(autoApprove := state.autoApprove.(epoch := f.editAuto));
          }
        case SwitchEdit(autoOff, exporting, publishing) =>
          if autoOff && state.version == 2 {
            state := state.(autoApprove := Switch(false, f.editAuto));
          }
          if exporting.Some? {
            state := state.(externalExport := Switch(exporting.value, f.editExport));
          }
          if publishing.Some? {
            state := state.(publication := Switch(publishing.value, f.editPublication));
          }
      }
      ok := true;
    }

    static method AssignExposure(exposed: Option<bool>, f: Fresh, before: OwnerState) returns (state: OwnerState)
      ensures state == SetExposure(before, exposed, f)
    {
      state := before;
      if exposed.Some? {
        state := state.(exposed := exposed.value);
        if !exposed.value {
          state := state.(externalExport := Switch(false, f.exportToken));
          state := state.(publication := Switch(false, f.publication));
        }
      }
    }

    /** New write and auto-approval epochs, and auto-approval off. */
    static method NewWriteEpoch(f: Fresh, before: OwnerState) returns (state: OwnerState)
      ensures state == RotateWriteEpoch(before, f)
    {
      state := before.(writeEpoch := f.write);
      state := state.(autoApprove := Switch(false, f.auto));
    }

    static method SuspendWrites(f: Fresh, before: OwnerState) returns (state: OwnerState)
      ensures state == WritesOff(before, false, f)
    {
      state := before.(approvedWrites := Some(false));
      state := state.(contractDigest := Unset, executionDigest := Unset);
      state := NewWriteEpoch(f, state);
    }

    /** The generic writer: exposure, epoch rotation and capability switches. */
    method MutateRecord(exposed: Option<bool>, rotate: bool, allowCreate: bool, edit: Edit, f: Fresh, io: Replacement)
      returns (ok: bool)
      requires Readable(key, record)
      modifies this`record
      ensures var d := Decide(key, old(record), Mutate(exposed, rotate, allowCreate, edit), f);
              record == Replaced(old(record), d, io) && (ok <==> Succeeds(d, io))
      ensures ok ==> record.Some? && (exposed.Some? ==> record.value.exposed == exposed.value)
      ensures ok && (rotate || old(record).None?) ==> record.value.epoch == f.owner
      ensures ok && exposed == Some(false) && edit.NoEdit? ==> Hidden(record)
      ensures ok && (exposed == Some(false) || rotate) ==> !Writable(record) && !AutoApproves(record)
      ensures edit != AutoEdit(true) && (old(record).Some? || allowCreate) && io.Durable? ==> ok
    {
      var state := NewState(key);
      var rotating := rotate;
      if record.Some? {
        state := record.value;
      } else if allowCreate {
        rotating := true;
      } else {
        return false;
      }
      ghost var start := state;
      if rotating {
        state := state.(epoch := f.owner);
      }
      state := AssignExposure(exposed, f, state);
      ok, state := RunEdit(edit, f, state);
      if !ok {
        return;
      }
      if state.version == 2 && (exposed == Some(false) || rotating) {
        state := SuspendWrites(f, state);
      }
      assert MutateState(start, exposed, rotating, edit, f) == Replace(state);
      ok := Store(state, io);
    }

    method TurnOffWritesWithLease(keepBinding: bool, f: Fresh, io: Replacement) returns (ok: bool)
      requires Readable(key, record)
      modifies this`record
      ensures var d := Decide(key, old(record), TurnOffWrites(keepBinding), f);
              record == Replaced(old(record), d, io) && (ok <==> Succeeds(d, io))
      ensures ok <==> old(record).None? || io.Durable?
      ensures ok && old(record).Some? ==> record.Some? && Suspended(old(record).value, record.value, keepBinding, f)
    {
      if record.None? {
        return true;
      }
      var state := record.value.(version := 2, approvedWrites := Some(false));
      if !keepBinding {
        state := state.(contractDigest := Unset, executionDigest := Unset);
      }
      state := NewWriteEpoch(f, state);
      ok := Store(state, io);
    }

    method SetWrites(enabled: bool, f: Fresh, io: Replacement) returns (ok: bool)
      requires Readable(key, record)
      modifies this`record
      ensures var d := Decide(key, old(record), SetApprovedWrites(enabled), f);
              record == Replaced(old(record), d, io) && (ok <==> Succeeds(d, io))
      ensures ok ==> record.Some? && record.value.approvedWrites == Some(enabled) && (enabled ==> Exposed(old(record)))
      ensures ok && record != old(record) && enabled ==> Resumed(old(record).value, record.value, f)
      ensures ok && record != old(record) && !enabled ==> Suspended(old(record).value, record.value, false, f)
      ensures old(record).Some? && (enabled ==> Exposed(old(record))) && io.Durable? ==> ok
    {
      if record.None? {
        return false;
      }
      var state := record.value;
      if enabled && !state.exposed {
        return false;
      }
      if state.version == 2 && state.approvedWrites == Some(enabled) && (enabled || state.contractDigest.Unset?) {
        return true;
      }
      if state.version == 1 {
        state := state.(version := 2);
      }
      state := state.(approvedWrites := Some(enabled));
      if !enabled {
        state := state.(contractDigest := Unset, executionDigest := Unset);
      }
      state := NewWriteEpoch(f, state);
      ok := Store(state, io);
    }

    method InvalidateForRestoreWithLease(f: Fresh, io: Replacement) returns (ok: bool)
      requires Readable(key, record)
      modifies this`record
      ensures var d := Decide(key, old(record), InvalidateForRestore, f);
              record == Replaced(old(record), d, io) && (ok <==> Succeeds(d, io))
      ensures ok <==> old(record).None? || io.Durable?
      ensures ok && old(record).Some? ==>
                && Hidden(record) && !Writable(record) && !AutoApproves(record)
                && record.value.version == 2 && record.value.app == old(record).value.app
                && record.value.epoch == f.owner && record.value.writeEpoch == f.write
                && record.value.autoApprove.epoch == f.auto
                && record.value.contractDigest.Unset? && record.value.executionDigest.Unset?
    {
      if record.None? {
        return true;
      }
      var state := record.value.(exposed := false);
      state := state.(externalExport := state.externalExport.(on := false));
      state := state.(publication := state.publication.(on := false));
      state := state.(epoch := f.owner);
      if state.version == 1 {
        state := state.(version := 2);
      }
      state := state.(approvedWrites := Some(false), contractDigest := Unset, executionDigest := Unset);
      state := NewWriteEpoch(f, state);
      ok := Store(state, io);
    }

    /** The one writer of approved writes on; resume only revives a recorded
        suspension under the same reviewed digests. */
    method EnableWrites(resume: bool, contract: Token, execution: Token, f: Fresh, io: Replacement) returns (ok: bool)
      requires Readable(key, record)
      modifies this`record
      ensures var d := Decide(key, old(record), EnableEnrolledWrites(resume, contract, execution), f);
              record == Replaced(old(record), d, io) && (ok <==> Succeeds(d, io))
      ensures ok ==> EnabledFrom(old(record), record, resume, contract, execution, f)
      ensures Exposed(old(record)) && !resume && io.Durable? ==> ok
    {
      EnableOutcome(key, record, resume, contract, execution, f, io);
      if record.None? || !record.value.exposed {
        return false;
      }
      var state := record.value;
      if resume && (state.version != 2 || state.approvedWrites != Some(false) || state.contractDigest.Unset? ||
                    state.contractDigest != contract || state.executionDigest != execution) {
        return false;
      }
      if state.version == 2 && state.WritesOn() {
        return true;
      }
      if state.version == 1 {
        state := state.(version := 2);
      }
      state := state.(approvedWrites := Some(true), contractDigest := contract, executionDigest := execution);
      state := NewWriteEpoch(f, state);
      ok := Store(state, io);
    }

    // ---- the steps an owner request is made of -----------------------------

    method ExposeStep(exporting: bool, publishing: bool, f: Fresh, io: Replacement) returns (ok: bool)
      requires Hex32(key) && f.Valid() && SoundRecord(key, record)
      modifies this`record
      ensures SoundRecord(key, record)
      ensures ok ==> Exposed(record)
      ensures ok && exporting ==> record.value.externalExport.on
      ensures ok && publishing ==> record.value.publication.on
      ensures !ok && !Exposed(old(record)) ==> !Exposed(record) || io.RenamedUnsynced?
      ensures io.Durable? ==> ok
    {
      var edit := Switches(true, false, exporting, publishing);
      ExposeOutcome(key, record, exporting, publishing, f, io);
      ok := MutateRecord(Some(true), false, true, edit, f, io);
    }

    method HideStep(rotate: bool, f: Fresh, io: Replacement) returns (ok: bool)
      requires Hex32(key) && f.Valid() && SoundRecord(key, record) && record.Some?
      modifies this`record
      ensures SoundRecord(key, record) && record.Some?
      ensures io.Durable? ==> ok
      ensures ok ==> Hidden(record) && !Writable(record) && (rotate ==> record.value.epoch == f.owner)
    {
      ReplacementKeepsSound(key, record, Mutate(Some(false), rotate, false, NoEdit), f, io);
      ok := MutateRecord(Some(false), rotate, false, NoEdit, f, io);
    }

    method WritesOffStep(f: Fresh, io: Replacement) returns (ok: bool)
      requires Hex32(key) && f.Valid() && SoundRecord(key, record)
      modifies this`record
      ensures SoundRecord(key, record) && (record.Some? <==> old(record).Some?)
      ensures ok ==> record.Some? && !Writable(record)
      ensures old(record).None? ==> !ok
      ensures old(record).Some? && io.Durable? ==> ok
    {
      ReplacementKeepsSound(key, record, SetApprovedWrites(false), f, io);
      ok := SetWrites(false, f, io);
    }

    method SwitchesOffStep(auto: bool, exporting: bool, publishing: bool, f: Fresh, io: Replacement) returns (ok: bool)
      requires Hex32(key) && f.Valid() && SoundRecord(key, record) && record.Some?
      modifies this`record
      ensures SoundRecord(key, record) && record.Some?
      ensures ok && auto ==> !record.value.autoApprove.on
      ensures ok && exporting ==> record.value.externalExport == Switch(false, f.editExport)
      ensures ok && publishing ==> record.value.publication == Switch(false, f.editPublication)
      ensures Writable(record) <==> Writable(old(record))
      ensures io.Durable? ==> ok
    {
      var edit := Switches(false, auto, exporting, publishing);
      ReplacementKeepsSound(key, record, Mutate(None, false, false, edit), f, io);
      SwitchesOffMeans(key, record.value, auto, exporting, publishing, f);
      ok := MutateRecord(None, false, false, edit, f, io);
    }

    method EnableStep(contract: Token, execution: Token, f: Fresh, io: Replacement) returns (ok: bool)
      requires Hex32(key) && f.Valid() && HexToken(contract) && HexToken(execution) && SoundRecord(key, record)
      modifies this`record
      ensures SoundRecord(key, record) && (record.Some? <==> old(record).Some?)
      ensures Exposed(record) <==> Exposed(old(record))
      ensures SameCapabilities(old(record), record)
      ensures ok ==> Writable(record)
      ensures Exposed(old(record)) && io.Durable? ==> ok
    {
      ReplacementKeepsSound(key, record, EnableEnrolledWrites(false, contract, execution), f, io);
      ok := EnableWrites(false, contract, execution, f, io);
    }

    method AutoOnStep(f: Fresh, io: Replacement) returns (ok: bool)
      requires Hex32(key) && f.Valid() && SoundRecord(key, record)
      modifies this`record
      ensures SoundRecord(key, record)
      ensures Exposed(record) <==> Exposed(old(record))
      ensures Writable(record) <==> Writable(old(record))
      ensures SameCapabilities(old(record), record)
      ensures ok ==> record.Some? && record.value.autoApprove == Switch(true, f.editAuto)
      ensures Writable(old(record)) && io.Durable? ==> ok
    {
      ReplacementKeepsSound(key, record, Mutate(None, false, false, AutoEdit(true)), f, io);
      ok := MutateRecord(None, false, false, AutoEdit(true), f, io);
    }

    /** One owner switch change. A successful disable leaves off what it names,
        and a revoke also leaves a new owner epoch; a successful enable leaves on
        what it names; a refused enable leaves no connector exposed that was not
        exposed before, unless a rename was visible but not synced, its own
        rollback could not be stored, or writes came on and only the requested
        auto-approval failed; and every state it can stop in is sound. */
    method ConnectorApply(req: Request, s: Surroundings) returns (ok: bool)
      requires Hex32(key) && s.Valid() && SoundRecord(key, record)
      modifies this`record
      ensures SoundRecord(key, record)
      ensures ok && req.action.DisableConnector? && (req.writes || !req.Flags()) ==> !Writable(record)
      ensures ok && req.action.DisableConnector? && !req.writes && !req.Flags() && record.Some? ==> Hidden(record)
      ensures ok && req.action.DisableConnector? && req.revoke && old(record).Some? ==>
                record.Some? && record.value.epoch == s.fresh1.owner
      ensures ok && req.action.DisableConnector? && req.auto && record.Some? ==> !record.value.autoApprove.on
      ensures ok && req.action.EnableConnector? ==> Exposed(record) && (req.writes ==> Writable(record))
      ensures ok && req.action.DisableConnector? && record.Some? ==>
                (req.exporting ==> !record.value.externalExport.on) && (req.publishing ==> !record.value.publication.on)
      ensures ok && req.action.EnableConnector? && req.auto ==> record.value.autoApprove.on
      ensures ok && req.action.EnableConnector? ==>
                (req.exporting ==> record.value.externalExport.on) && (req.publishing ==> record.value.publication.on)
      ensures !ok && req.action.EnableConnector? && !req.auto && !Exposed(old(record)) && s.rollback.Durable? ==>
                !Exposed(record) || s.first.RenamedUnsynced?
      ensures !ok && req.action.EnableConnector? && !Exposed(old(record)) && s.rollback.Durable? ==>
                !Exposed(record) || s.first.RenamedUnsynced? || (req.auto && Writable(record))
      ensures ok ==> req.Meaningful() && (req.action.EnableConnector? ==> s.Ready(req))
      ensures req.Meaningful() && s.AllDurable() && (req.action.EnableConnector? ==> s.Ready(req)) ==>
                (ok <==> !(old(record).None? && req.action.DisableConnector? && req.writes && req.Flags()))
      ensures !req.Meaningful() ==> record == old(record)
    {
      if req.revoke && (req.action.EnableConnector? || req.writes || req.Flags()) {
        return false;
      }
      if req.auto && req.action.EnableConnector? && !req.writes {
        return false;
      }
      if req.action.DisableConnector? {
        ok := Disable(req, s);
        return;
      }
      ok := Enable(req, s);
    }

    /** Expose, then enable writes and auto-approval if asked; writes that cannot be
        enabled hide a connector that was hidden before. */
    method Enable(req: Request, s: Surroundings) returns (ok: bool)
      requires req.action.EnableConnector? && (req.auto ==> req.writes)
      requires Hex32(key) && s.Valid() && SoundRecord(key, record)
      modifies this`record
      ensures SoundRecord(key, record)
      ensures ok ==> Exposed(record) && (req.writes ==> Writable(record)) && (req.auto ==> record.value.autoApprove.on)
      ensures ok ==> (req.exporting ==> record.value.externalExport.on) && (req.publishing ==> record.value.publication.on)
      ensures !ok && !Exposed(old(record)) && s.rollback.Durable? ==>
                !Exposed(record) || s.first.RenamedUnsynced? || (req.auto && Writable(record))
      ensures ok ==> s.Ready(req)
      ensures s.Ready(req) && s.AllDurable() ==> ok
    {
      if !s.manifestValid || (req.writes && (s.commandTools == 0 || (req.auto && s.grantTools == 0))) {
        return false;
      }
      var wasExposed := Exposed(record);
      ok := ExposeStep(req.exporting, req.publishing, s.fresh1, s.first);
      if !ok || !req.writes {
        return;
      }
      ok := false;
      if s.enrolled {
        ok := EnableStep(s.contract, s.execution, s.fresh2, s.second);
      }
      if ok {
        if req.auto {
          ok := AutoOnStep(s.fresh3, s.third);
        }
        return;
      }
      if !wasExposed {
        var restored := HideStep(false, s.fresh4, s.rollback);
      }
    }

    /** A record that does not exist has nothing to disable, except that turning
        writes off together with another switch reports the missing record. */
    method Disable(req: Request, s: Surroundings) returns (ok: bool)
      requires req.action.DisableConnector?
      requires req.revoke ==> !req.writes && !req.Flags()
      requires Hex32(key) && s.Valid() && SoundRecord(key, record)
      modifies this`record
      ensures SoundRecord(key, record)
      ensures ok && (req.writes || !req.Flags()) ==> !Writable(record)
      ensures ok && !req.writes && !req.Flags() && record.Some? ==> Hidden(record)
      ensures ok && req.revoke && old(record).Some? ==> record.Some? && record.value.epoch == s.fresh1.owner
      ensures ok && req.auto && record.Some? ==> !record.value.autoApprove.on
      ensures ok && record.Some? ==>
                (req.exporting ==> !record.value.externalExport.on) && (req.publishing ==> !record.value.publication.on)
      ensures old(record).None? ==> record.None? && (ok <==> !(req.writes && req.Flags()))
      ensures old(record).Some? ==> record.Some?
      ensures old(record).Some? && s.AllDurable() ==> ok
    {
      if record.None? {
        return !(req.writes && req.Flags());
      }
      if req.revoke {
        ok := HideStep(true, s.fresh1, s.first);
      } else if req.Flags() {
        if req.writes {
          ok := WritesOffStep(s.fresh1, s.first);
          if !ok {
            return;
          }
        }
        ok := SwitchesOffStep(req.auto, req.exporting, req.publishing, s.fresh2, s.second);
      } else if req.writes {
        ok := WritesOffStep(s.fresh1, s.first);
      } else {
        ok := HideStep(false, s.fresh1, s.first);
      }
    }
  }
}
