/** The owner authority record (app_mcp_epoch.go): switches and epochs, one
    strict reader, several writers, atomic replacement of the stored file.
    Epochs are 256-bit random hex tokens; a writer receives the tokens it would
    draw as an argument, and their freshness is a hypothesis of the theorems. */
module OwnerRecord {
  import opened Wrappers

  const RECORD_LIMIT := 1024

  /** An epoch or digest field of the record; Unset is the empty string. */
  datatype Token = Unset | Token(text: string)

  /** A capability switch and the epoch it carries. */
  datatype Switch = Switch(on: bool, epoch: Token)

  datatype OwnerState = OwnerState(
    version: int,
    app: string,
    epoch: Token,
    exposed: bool,
    approvedWrites: Option<bool>,
    writeEpoch: Token,
    contractDigest: Token,
    executionDigest: Token,
    externalExport: Switch,
    publication: Switch,
    autoApprove: Switch)
  {
    predicate WritesOn() { approvedWrites == Some(true) }
  }

  // ---- encoding ------------------------------------------------------------

  predicate HexDigit(c: char) { '0' <= c <= '9' || 'a' <= c <= 'f' }

  /** 32 bytes as lower-case hex. */
  predicate Hex32(s: string) { |s| == 64 && forall i | 0 <= i < |s| :: HexDigit(s[i]) }

  predicate HexToken(t: Token) { t.Token? && Hex32(t.text) }

  function BoolText(b: bool): string { if b then "true" else "false" }

  function Quoted(name: string, value: string): (r: string)
    ensures |r| == |name| + |value| + 5
  {
    "\"" + name + "\":\"" + value + "\""
  }

  /** An optional text field: omitted when unset. */
  function TokenField(name: string, t: Token): (r: string)
    ensures |r| == if t.Unset? then 0 else |name| + |t.text| + 6
  {
    if t.Unset? then "" else "," + Quoted(name, t.text)
  }

  function FlagField(name: string, value: bool): (r: string)
    ensures |r| <= |name| + 8
  {
    if value then ",\"" + name + "\":true" else ""
  }

  function WritesFields(st: OwnerState): string {
    (if st.approvedWrites.None? then "" else ",\"approved_writes\":" + BoolText(st.approvedWrites.value)) +
    TokenField("approved_write_epoch", st.writeEpoch) +
    TokenField("approved_contract_digest", st.contractDigest) +
    TokenField("approved_execution_digest", st.executionDigest)
  }

  function CapabilityFields(st: OwnerState): string {
    FlagField("external_export", st.externalExport.on) + FlagField("public_publication", st.publication.on) +
    TokenField("external_export_epoch", st.externalExport.epoch) +
    TokenField("public_publication_epoch", st.publication.epoch) +
    FlagField("auto_approve", st.autoApprove.on) + TokenField("auto_approve_epoch", st.autoApprove.epoch)
  }

  /** The stored text, field by field in the order the record declares them. */
  function Encode(st: OwnerState): string
    requires st.epoch.Token?
  {
    "{\"version\":" + (if st.version == 1 then "1" else "2") + "," + Quoted("app", st.app) + "," +
    Quoted("epoch", st.epoch.text) + ",\"exposed\":" + BoolText(st.exposed) +
    WritesFields(st) + CapabilityFields(st) + "}"
  }

  // ---- the reader ----------------------------------------------------------

  predicate ValidSwitch(s: Switch) {
    if s.epoch.Unset? then !s.on else HexToken(s.epoch)
  }

  /** What the reader checks about the decoded fields, but for the tie between
      auto-approval and the other switches. */
  predicate FieldsOk(key: string, st: OwnerState) {
    && (st.version == 1 || st.version == 2)
    && st.app == key
    && HexToken(st.epoch)
    && ValidSwitch(st.externalExport) && ValidSwitch(st.publication) && ValidSwitch(st.autoApprove)
    && (st.version == 1 ==>
          st.approvedWrites.None? && st.writeEpoch.Unset? && !st.autoApprove.on && st.autoApprove.epoch.Unset?)
    && (st.version == 2 ==> st.approvedWrites.Some? && HexToken(st.writeEpoch))
    && (st.contractDigest.Unset? <==> st.executionDigest.Unset?)
    && (st.version == 1 ==> st.contractDigest.Unset?)
    && (st.contractDigest.Token? ==> HexToken(st.contractDigest) && HexToken(st.executionDigest))
  }

  predicate ReaderAccepts(key: string, st: OwnerState) {
    && FieldsOk(key, st)
    && (st.autoApprove.on ==> st.WritesOn() && st.exposed)
    && |Encode(st)| <= RECORD_LIMIT
  }

  /** What every writer keeps: the reader's checks, and writes imply exposure,
      which the reader itself does not ask for. */
  predicate Sound(key: string, st: OwnerState) {
    ReaderAccepts(key, st) && (st.WritesOn() ==> st.exposed)
  }

  predicate SwitchesOk(st: OwnerState) {
    (st.WritesOn() ==> st.exposed) && (st.autoApprove.on ==> st.WritesOn())
  }

  lemma WritesFieldsFit(key: string, st: OwnerState)
    requires FieldsOk(key, st)
    ensures |WritesFields(st)| <= 303
  {
  }

  lemma CapabilityFieldsFit(key: string, st: OwnerState)
    requires FieldsOk(key, st)
    ensures |CapabilityFields(st)| <= 342
  {
  }

  /** The 1024-byte limit never rejects a record whose fields are well formed: none
      is longer than this. */
  lemma EncodingFits(key: string, st: OwnerState)
    requires FieldsOk(key, st) && Hex32(key)
    ensures |Encode(st)| <= 822
  {
    WritesFieldsFit(key, st);
    CapabilityFieldsFit(key, st);
  }

  /** And one is this long. */
  lemma LongestRecord(key: string, t: Token)
    requires Hex32(key) && HexToken(t)
    ensures var st := OwnerState(2, key, t, false, Some(false), t, t, t, Switch(true, t), Switch(true, t), Switch(true, t));
            FieldsOk(key, st) && |Encode(st)| == 822
  {
  }

  /** The reader itself does not ask that writes imply exposure. */
  lemma ReaderAcceptsUnexposedWrites(key: string, t: Token)
    requires Hex32(key) && HexToken(t)
    ensures var st := OwnerState(2, key, t, false, Some(true), t, Unset, Unset,
                                 Switch(false, Unset), Switch(false, Unset), Switch(false, Unset));
            ReaderAccepts(key, st) && !Sound(key, st)
  {
    EncodingFits(key, OwnerState(2, key, t, false, Some(true), t, Unset, Unset,
                                 Switch(false, Unset), Switch(false, Unset), Switch(false, Unset)));
  }

  lemma SoundIsFieldsAndSwitches(key: string, st: OwnerState)
    requires Hex32(key)
    ensures Sound(key, st) <==> FieldsOk(key, st) && SwitchesOk(st)
  {
    if FieldsOk(key, st) && SwitchesOk(st) {
      EncodingFits(key, st);
    }
  }

  // ---- the writers ---------------------------------------------------------

  /** The tokens one writer call may draw, one per place that draws. */
  datatype Fresh = Fresh(
    owner: Token, exportToken: Token, publication: Token,
    editExport: Token, editPublication: Token, editAuto: Token,
    write: Token, auto: Token)
  {
    function All(): set<Token> { {owner, exportToken, publication, editExport, editPublication, editAuto, write, auto} }
    predicate Valid() {
      HexToken(owner) && HexToken(exportToken) && HexToken(publication) && HexToken(editExport) &&
      HexToken(editPublication) && HexToken(editAuto) && HexToken(write) && HexToken(auto)
    }
  }

  /** The closures the owner steps pass to the generic writer. */
  datatype Edit =
    | NoEdit
    | SwitchEdit(autoOff: bool, exporting: Option<bool>, publishing: Option<bool>)
    | AutoEdit(enabled: bool)

  datatype OwnerAction =
    | Mutate(exposed: Option<bool>, rotate: bool, allowCreate: bool, edit: Edit)
    | TurnOffWrites(keepBinding: bool)
    | SetApprovedWrites(enabled: bool)
    | InvalidateForRestore
    | EnableEnrolledWrites(resume: bool, contract: Token, execution: Token)

  /** What one writer does with the record it read: nothing and an error,
      nothing and success, or a replacement. */
  datatype Decision = Refuse | Keep | Replace(next: OwnerState)

  function RotateWriteEpoch(st: OwnerState, f: Fresh): OwnerState {
    st.(writeEpoch := f.write, autoApprove := Switch(false, f.auto))
  }

  function WritesOff(st: OwnerState, keepBinding: bool, f: Fresh): OwnerState {
    RotateWriteEpoch(
      st.(approvedWrites := Some(false),
          contractDigest := if keepBinding then st.contractDigest else Unset,
          executionDigest := if keepBinding then st.executionDigest else Unset), f)
  }

  function SetExposure(st: OwnerState, exposed: Option<bool>, f: Fresh): OwnerState {
    if exposed.None? then st
    else if exposed.value then st.(exposed := true)
    else st.(exposed := false, externalExport := Switch(false, f.exportToken),
             publication := Switch(false, f.publication))
  }

  function ApplyEdit(st: OwnerState, edit: Edit, f: Fresh): Option<OwnerState> {
    match edit
    case NoEdit => Some(st)
    case AutoEdit(enabled) =>
      if enabled && (!st.exposed || st.version != 2 || !st.WritesOn()) then None
      else Some(st.(autoApprove := Switch(enabled, if st.version == 2 then f.editAuto else st.autoApprove.epoch)))
    case SwitchEdit(autoOff, exporting, publishing) =>
      Some(st.(
        autoApprove := if autoOff && st.version == 2 then Switch(false, f.editAuto) else st.autoApprove,
        externalExport := if exporting.Some? then Switch(exporting.value, f.editExport) else st.externalExport,
        publication := if publishing.Some? then Switch(publishing.value, f.editPublication) else st.publication))
  }

  function MutateState(st: OwnerState, exposed: Option<bool>, rotate: bool, edit: Edit, f: Fresh): Decision {
    var rotated := if rotate then st.(epoch := f.owner) else st;
    var edited := ApplyEdit(SetExposure(rotated, exposed, f), edit, f);
    if edited.None? then Refuse
    else if edited.value.version == 2 && (exposed == Some(false) || rotate) then
      Replace(WritesOff(edited.value, false, f))
    else Replace(edited.value)
  }

  function NewState(key: string): OwnerState {
    OwnerState(1, key, Unset, false, None, Unset, Unset, Unset,
               Switch(false, Unset), Switch(false, Unset), Switch(false, Unset))
  }

  function DecideSetWrites(st: OwnerState, enabled: bool, f: Fresh): Decision {
    if enabled && !st.exposed then Refuse
    else if st.version == 2 && st.approvedWrites == Some(enabled) && (enabled || st.contractDigest.Unset?) then Keep
    else if enabled then Replace(RotateWriteEpoch(st.(version := 2, approvedWrites := Some(true)), f))
    else Replace(WritesOff(st.(version := 2), false, f))
  }

  function DecideEnable(st: OwnerState, resume: bool, contract: Token, execution: Token, f: Fresh): Decision {
    if !st.exposed then Refuse
    else if resume && (st.version != 2 || st.approvedWrites != Some(false) || st.contractDigest.Unset? ||
                       st.contractDigest != contract || st.executionDigest != execution) then Refuse
    else if st.version == 2 && st.WritesOn() then Keep
    else Replace(RotateWriteEpoch(
           st.(version := 2, approvedWrites := Some(true), contractDigest := contract, executionDigest := execution), f))
  }

  /** The decision of every writer on the record as the reader sees it
      (None: no file). */
  function Decide(key: string, read: Option<OwnerState>, a: OwnerAction, f: Fresh): Decision {
    if read.None? then
      match a
      case Mutate(exposed, _, true, edit) => MutateState(NewState(key), exposed, true, edit, f)
      case TurnOffWrites(_) => Keep
      case InvalidateForRestore => Keep
      case _ => Refuse
    else
      var st := read.value;
      match a
      case Mutate(exposed, rotate, _, edit) => MutateState(st, exposed, rotate, edit, f)
      case TurnOffWrites(keepBinding) => Replace(WritesOff(st.(version := 2), keepBinding, f))
      case SetApprovedWrites(enabled) => DecideSetWrites(st, enabled, f)
      case InvalidateForRestore =>
        Replace(WritesOff(st.(version := 2, exposed := false, epoch := f.owner,
                              externalExport := st.externalExport.(on := false),
                              publication := st.publication.(on := false)), false, f))
      case EnableEnrolledWrites(resume, contract, execution) => DecideEnable(st, resume, contract, execution, f)
  }

  /** The reviewed digests a write enable records come from a validated
      manifest: two SHA-256 digests. */
  predicate ActionValid(a: OwnerAction) {
    a.EnableEnrolledWrites? ==> HexToken(a.contract) && HexToken(a.execution)
  }

  lemma EditKeepsFields(key: string, st: OwnerState, edit: Edit, f: Fresh)
    requires FieldsOk(key, st) && f.Valid() && ApplyEdit(st, edit, f).Some?
    ensures var e := ApplyEdit(st, edit, f).value;
            && FieldsOk(key, e) && e.version == st.version && e.exposed == st.exposed
            && e.approvedWrites == st.approvedWrites && (SwitchesOk(st) ==> SwitchesOk(e))
  {
  }

  lemma MutateKeepsSound(key: string, st: OwnerState, exposed: Option<bool>, rotate: bool, edit: Edit, f: Fresh)
    requires f.Valid() && MutateState(st, exposed, rotate, edit, f).Replace?
    requires (FieldsOk(key, st) && SwitchesOk(st)) || (rotate && st == NewState(key))
    ensures var next := MutateState(st, exposed, rotate, edit, f).next; FieldsOk(key, next) && SwitchesOk(next)
  {
    var rotated := if rotate then st.(epoch := f.owner) else st;
    var shown := SetExposure(rotated, exposed, f);
    assert FieldsOk(key, rotated) && SwitchesOk(rotated);
    assert FieldsOk(key, shown) && shown.version == st.version && (exposed != Some(false) ==> SwitchesOk(shown));
    EditKeepsFields(key, shown, edit, f);
    var edited := ApplyEdit(shown, edit, f).value;
    if edited.version == 2 {
      OffKeepsFields(key, edited, f);
    }
  }

  lemma OffKeepsFields(key: string, st: OwnerState, f: Fresh)
    requires FieldsOk(key, st) && st.version == 2 && f.Valid()
    ensures FieldsOk(key, WritesOff(st, false, f)) && SwitchesOk(WritesOff(st, false, f))
  {
  }

  lemma WritesOffKeepsSound(key: string, st: OwnerState, keepBinding: bool, f: Fresh)
    requires f.Valid() && FieldsOk(key, st.(version := 1, approvedWrites := None, writeEpoch := Unset,
                                            contractDigest := Unset, executionDigest := Unset,
                                            autoApprove := Switch(false, Unset)))
    requires st.version == 2
    requires st.contractDigest.Unset? <==> st.executionDigest.Unset?
    requires st.contractDigest.Token? ==> HexToken(st.contractDigest) && HexToken(st.executionDigest)
    ensures FieldsOk(key, WritesOff(st, keepBinding, f)) && SwitchesOk(WritesOff(st, keepBinding, f))
  {
  }

  lemma LeasedWritersKeepFields(key: string, st: OwnerState, a: OwnerAction, f: Fresh)
    requires f.Valid() && ActionValid(a) && !a.Mutate?
    requires FieldsOk(key, st) && SwitchesOk(st)
    ensures var d := Decide(key, Some(st), a, f); d.Replace? ==> FieldsOk(key, d.next) && SwitchesOk(d.next)
  {
    match a
    case TurnOffWrites(keepBinding) => WritesOffKeepsSound(key, st.(version := 2), keepBinding, f);
    case SetApprovedWrites(enabled) => if !enabled { WritesOffKeepsSound(key, st.(version := 2), false, f); }
    case InvalidateForRestore =>
      WritesOffKeepsSound(key, st.(version := 2, exposed := false, epoch := f.owner,
                                   externalExport := st.externalExport.(on := false),
                                   publication := st.publication.(on := false)), false, f);
    case EnableEnrolledWrites(_, _, _) =>
  }

  /** Every record any writer stores is accepted by the reader, and approved
      writes never outlive exposure. */
  lemma WritersKeepSound(key: string, read: Option<OwnerState>, a: OwnerAction, f: Fresh)
    requires Hex32(key) && f.Valid() && ActionValid(a)
    requires read.Some? ==> Sound(key, read.value)
    ensures Decide(key, read, a, f).Replace? ==> Sound(key, Decide(key, read, a, f).next)
  {
    var d := Decide(key, read, a, f);
    if d.Replace? {
      if read.Some? {
        SoundIsFieldsAndSwitches(key, read.value);
      }
      assert FieldsOk(key, d.next) && SwitchesOk(d.next) by {
        if a.Mutate? {
          var start := if read.Some? then read.value else NewState(key);
          assert d == MutateState(start, a.exposed, a.rotate || read.None?, a.edit, f);
          MutateKeepsSound(key, start, a.exposed, a.rotate || read.None?, a.edit, f);
        } else {
          LeasedWritersKeepFields(key, read.value, a, f);
        }
      }
      SoundIsFieldsAndSwitches(key, d.next);
    }
  }

  // ---- rotation rules ------------------------------------------------------

  /** The owner steps that end write authority: writes off, disable, revoke,
      restore and the start-up suspension. */
  predicate IsTurnOff(a: OwnerAction) {
    || (a.Mutate? && (a.exposed == Some(false) || a.rotate))
    || a.TurnOffWrites?
    || a == SetApprovedWrites(false)
    || a.InvalidateForRestore?
  }

  /** The owner steps that switch auto-approval either way. */
  predicate IsAutoSwitch(a: OwnerAction) {
    a.Mutate? && (a.edit.AutoEdit? || (a.edit.SwitchEdit? && a.edit.autoOff))
  }

  /** A turn-off that does not fail leaves writes off; when it replaces a
      version 2 record, write and auto-approval epochs are newly drawn. */
  lemma TurnOffRotates(key: string, st: OwnerState, a: OwnerAction, f: Fresh)
    requires IsTurnOff(a) && FieldsOk(key, st)
    requires !Decide(key, Some(st), a, f).Refuse?
    ensures var d := Decide(key, Some(st), a, f);
            && (d.Keep? ==> st.version == 2 && st.approvedWrites == Some(false))
            && (d.Replace? ==>
                  && !d.next.WritesOn()
                  && (d.next.version == 2 ==> d.next.writeEpoch == f.write && d.next.autoApprove == Switch(false, f.auto)))
  {
  }

  /** What one replacement may do to the epochs. */
  predicate EpochStep(st: OwnerState, next: OwnerState, f: Fresh) {
    && next.version >= st.version
    && (next.epoch == st.epoch || next.epoch == f.owner)
    && (next.writeEpoch == st.writeEpoch || next.writeEpoch == f.write)
    && (next.autoApprove.epoch == st.autoApprove.epoch || next.autoApprove.epoch == f.editAuto ||
        next.autoApprove.epoch == f.auto)
    && (next.externalExport.epoch == st.externalExport.epoch || next.externalExport.epoch == f.exportToken ||
        next.externalExport.epoch == f.editExport)
    && (next.approvedWrites != st.approvedWrites ==> next.writeEpoch == f.write)
    && (next.autoApprove.on != st.autoApprove.on ==> next.autoApprove.epoch in {f.editAuto, f.auto})
    && (next.externalExport.on && !st.externalExport.on ==> next.externalExport.epoch == f.editExport)
    && (next.WritesOn() && st.WritesOn() ==> next.epoch == st.epoch && next.writeEpoch == st.writeEpoch)
  }

  /** The write epoch changes whenever approved writes change, the auto-approval
      epoch whenever auto-approval does, and while writes stay on the owner and
      write epochs stay: a grant or an operation is pinned to one "on" period. */
  lemma EpochsFollowSwitches(key: string, st: OwnerState, a: OwnerAction, f: Fresh)
    requires FieldsOk(key, st) && Decide(key, Some(st), a, f).Replace?
    ensures EpochStep(st, Decide(key, Some(st), a, f).next, f)
  {
    if a.Mutate? {
      MutateEpochs(st, a.exposed, a.rotate, a.edit, f);
    }
  }

  lemma MutateEpochs(st: OwnerState, exposed: Option<bool>, rotate: bool, edit: Edit, f: Fresh)
    requires st.version == 2 || (st.approvedWrites.None? && !st.autoApprove.on)
    requires MutateState(st, exposed, rotate, edit, f).Replace?
    ensures EpochStep(st, MutateState(st, exposed, rotate, edit, f).next, f)
  {
    var rotated := if rotate then st.(epoch := f.owner) else st;
    var edited := ApplyEdit(SetExposure(rotated, exposed, f), edit, f).value;
    assert edited.version == st.version && edited.epoch == rotated.epoch && edited.writeEpoch == st.writeEpoch
        && edited.approvedWrites == st.approvedWrites;
  }

  /** Switching auto-approval either way draws a new auto-approval epoch, even
      when the switch already had that value. */
  lemma AutoSwitchRotates(key: string, st: OwnerState, a: OwnerAction, f: Fresh)
    requires IsAutoSwitch(a) && FieldsOk(key, st) && st.version == 2
    requires Decide(key, Some(st), a, f).Replace?
    ensures Decide(key, Some(st), a, f).next.autoApprove.epoch in {f.editAuto, f.auto}
  {
  }

  // ---- what each writer stores ---------------------------------------------

  /** A restore switches everything off under new owner, write and auto-approval
      epochs and drops the reviewed digests. */
  lemma RestoreStores(key: string, st: OwnerState, f: Fresh)
    ensures Decide(key, Some(st), InvalidateForRestore, f) ==
            Replace(OwnerState(2, st.app, f.owner, false, Some(false), f.write, Unset, Unset,
                               Switch(false, st.externalExport.epoch), Switch(false, st.publication.epoch),
                               Switch(false, f.auto)))
  {
  }

  /** Turning writes off leaves exposure, owner epoch, export and publication, and
      the reviewed digests only if asked to. */
  lemma TurnOffStores(key: string, st: OwnerState, keepBinding: bool, f: Fresh)
    ensures Decide(key, Some(st), TurnOffWrites(keepBinding), f) ==
            Replace(OwnerState(2, st.app, st.epoch, st.exposed, Some(false), f.write,
                               if keepBinding then st.contractDigest else Unset,
                               if keepBinding then st.executionDigest else Unset,
                               st.externalExport, st.publication, Switch(false, f.auto)))
  {
  }

  /** Setting approved writes either way leaves exposure, owner epoch, export and
      publication; off also drops the reviewed digests. */
  lemma SetWritesStores(key: string, st: OwnerState, enabled: bool, f: Fresh)
    ensures var d := Decide(key, Some(st), SetApprovedWrites(enabled), f);
            && (d.Refuse? <==> enabled && !st.exposed)
            && (d.Keep? ==> st.approvedWrites == Some(enabled) && (!enabled ==> st.contractDigest.Unset?))
            && (d.Replace? ==>
                  && !(st.version == 2 && st.approvedWrites == Some(enabled) && enabled)
                  && d.next == OwnerState(2, st.app, st.epoch, st.exposed, Some(enabled), f.write,
                                          if enabled then st.contractDigest else Unset,
                                          if enabled then st.executionDigest else Unset,
                                          st.externalExport, st.publication, Switch(false, f.auto)))
  {
  }

  /** Writes come on only on an exposed connector, and by a resume only after a
      suspension under the very digests that are reviewed now. */
  lemma EnableStores(key: string, st: OwnerState, resume: bool, contract: Token, execution: Token, f: Fresh)
    requires FieldsOk(key, st)
    ensures var d := Decide(key, Some(st), EnableEnrolledWrites(resume, contract, execution), f);
            && (d.Refuse? <==>
                  !st.exposed ||
                  (resume && !(st.approvedWrites == Some(false) && st.contractDigest.Token? && st.contractDigest == contract &&
                               st.executionDigest == execution)))
            && (d.Keep? ==> st.WritesOn())
            && (d.Replace? ==>
                  !st.WritesOn() &&
                  d.next == OwnerState(2, st.app, st.epoch, true, Some(true), f.write, contract, execution,
                                       st.externalExport, st.publication, Switch(false, f.auto)))
  {
  }

  /** The generic writer's connector fields: exposure and owner epoch as asked, and
      hiding switches export and publication off under new epochs unless the edit
      names them. It refuses only auto-approval without writes. */
  lemma MutateStoresConnector(key: string, st: OwnerState, a: OwnerAction, f: Fresh)
    requires a.Mutate?
    ensures var d := Decide(key, Some(st), a, f);
            var shown := if a.exposed.Some? then a.exposed.value else st.exposed;
            && (d.Refuse? <==> a.edit == AutoEdit(true) && !(shown && st.version == 2 && st.WritesOn()))
            && !d.Keep?
            && (d.Replace? ==>
                  && d.next.version == st.version && d.next.app == st.app && d.next.exposed == shown
                  && d.next.epoch == (if a.rotate then f.owner else st.epoch)
                  && d.next.externalExport ==
                       (if a.edit.SwitchEdit? && a.edit.exporting.Some? then Switch(a.edit.exporting.value, f.editExport)
                        else if a.exposed == Some(false) then Switch(false, f.exportToken) else st.externalExport)
                  && d.next.publication ==
                       (if a.edit.SwitchEdit? && a.edit.publishing.Some? then Switch(a.edit.publishing.value, f.editPublication)
                        else if a.exposed == Some(false) then Switch(false, f.publication) else st.publication))
  {
  }

  /** Its write fields: hiding or rotating a version 2 record switches writes and
      auto-approval off under new epochs and drops the digests; otherwise only the
      edit's own switch moves. */
  lemma MutateStoresWrites(key: string, st: OwnerState, a: OwnerAction, f: Fresh)
    requires a.Mutate? && Decide(key, Some(st), a, f).Replace?
    ensures var next := Decide(key, Some(st), a, f).next;
            if st.version == 2 && (a.exposed == Some(false) || a.rotate) then
              && next.approvedWrites == Some(false) && next.writeEpoch == f.write
              && next.contractDigest.Unset? && next.executionDigest.Unset? && next.autoApprove == Switch(false, f.auto)
            else
              && next.approvedWrites == st.approvedWrites && next.writeEpoch == st.writeEpoch
              && next.contractDigest == st.contractDigest && next.executionDigest == st.executionDigest
              && next.autoApprove ==
                   (if a.edit.AutoEdit? then Switch(a.edit.enabled, if st.version == 2 then f.editAuto else st.autoApprove.epoch)
                    else if a.edit.SwitchEdit? && a.edit.autoOff && st.version == 2 then Switch(false, f.editAuto)
                    else st.autoApprove)
  {
  }

  /** Without a file only a writer that may create one stores a record: version 1,
      under a new owner epoch, with nothing on but what it names. */
  lemma MissingRecord(key: string, a: OwnerAction, f: Fresh)
    ensures var d := Decide(key, None, a, f);
            && (d.Keep? <==> a.TurnOffWrites? || a.InvalidateForRestore?)
            && (d.Replace? <==> a.Mutate? && a.allowCreate && a.edit != AutoEdit(true))
            && (d.Replace? ==>
                  && d.next.version == 1 && d.next.app == key && d.next.epoch == f.owner && d.next.approvedWrites.None?
                  && d.next.writeEpoch.Unset? && d.next.contractDigest.Unset? && d.next.executionDigest.Unset?
                  && (d.next.exposed <==> a.exposed == Some(true)) && !d.next.autoApprove.on
                  && (d.next.externalExport.on <==> a.edit.SwitchEdit? && a.edit.exporting == Some(true))
                  && (d.next.publication.on <==> a.edit.SwitchEdit? && a.edit.publishing == Some(true)))
  {
  }
}
