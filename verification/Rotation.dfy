/** Key rotation of the sealed command store (app_mcp_command_rotation.go:37-102
    and the reseal loops it calls). Sealing is ideal: a ciphertext opens only
    under its key and in its column. */
module Rotation {
  import opened Wrappers
  import opened Attempts
  import opened Commands
  import opened OwnerRecord
  import opened CommandStore
  import CommandRuns
  import CommandSafety

  type Key = int

  datatype Context = PreparedColumn | ReceiptColumn | ApprovalColumn | AttemptColumn | MarkerColumn

  datatype Cipher<T> = Cipher(key: Key, context: Context, content: T, nonce: int)

  function Open<T>(key: Key, context: Context, c: Cipher<T>): Option<T> {
    if c.key == key && c.context == context then Some(c.content) else None
  }

  function Seal<T>(key: Key, context: Context, content: T, nonce: int): (c: Cipher<T>)
    ensures Open(key, context, c) == Some(content)
    ensures forall k, x :: Open(k, x, c).Some? ==> k == key && x == context
    ensures c.nonce == nonce
  {
    Cipher(key, context, content, nonce)
  }

  // ---- sealed rows ---------------------------------------------------------------

  datatype SealedReceipt = SealedReceipt(digest: Receipt, cipher: Cipher<Receipt>)
  datatype OpRow = OpRow(id: Id, digest: Prepared, prepared: Cipher<Prepared>, receipt: Option<SealedReceipt>)
  datatype ApprovalRow = ApprovalRow(id: Id, digest: Approval, state: Cipher<StoredApproval>)
  datatype AttemptRow = AttemptRow(id: Id, operation: Id, state: Cipher<Attempt>)

  /** The marker: which store it belongs to and what is provisioned, the generation
      of the key and the last rotation. */
  datatype Mark = Mark(
    version: int, owner: Id, generation: int, provisioned: bool, storageVersion: int, rotation: int)
  datatype MarkerRow = MarkerRow(mark: Mark, cipher: Cipher<Mark>)

  datatype Sealed = Sealed(ops: seq<OpRow>, approvals: seq<ApprovalRow>, attempts: seq<AttemptRow>, marker: MarkerRow)

  function OpenReceipt(key: Key, r: Option<SealedReceipt>): Option<Option<Receipt>> {
    if r.None? then Some(None)
    else
      var content := Open(key, ReceiptColumn, r.value.cipher);
      if content.Some? && content.value == r.value.digest then Some(Some(content.value)) else None
  }

  /** A row opens when its ciphertexts do and agree with its plaintext columns. */
  function OpenOp(key: Key, row: OpRow): Option<Op> {
    var p, r := Open(key, PreparedColumn, row.prepared), OpenReceipt(key, row.receipt);
    if p.Some? && p.value == row.digest && p.value.id == row.id && r.Some? then Some(Op(p.value, r.value)) else None
  }

  function OpenApproval(key: Key, row: ApprovalRow): Option<StoredApproval> {
    var a := Open(key, ApprovalColumn, row.state);
    if a.Some? && a.value.record == row.digest && a.value.record.prepared.id == row.id then a else None
  }

  function OpenAttempt(key: Key, row: AttemptRow): Option<Attempt> {
    var a := Open(key, AttemptColumn, row.state);
    if a.Some? && a.value.id == row.id && a.value.operation == row.operation then a else None
  }

  function OpenMarker(key: Key, row: MarkerRow): Option<Mark> {
    var m := Open(key, MarkerColumn, row.cipher);
    if m == Some(row.mark) then m else None
  }

  /** A row opens to exactly what was sealed under the key, in its own column, beside
      the same plaintext columns. */
  lemma OpensIffSealed(key: Key, op: Op, row: OpRow)
    ensures OpenOp(key, row) == Some(op) <==>
            && row.id == op.prepared.id && row.digest == op.prepared
            && row.prepared == Seal(key, PreparedColumn, op.prepared, row.prepared.nonce)
            && (if row.receipt.None? then op.receipt.None?
                else op.receipt.Some? && row.receipt.value ==
                     SealedReceipt(op.receipt.value, Seal(key, ReceiptColumn, op.receipt.value, row.receipt.value.cipher.nonce)))
  {
  }

  lemma OthersOpenIffSealed(key: Key, a: StoredApproval, approval: ApprovalRow, t: Attempt, attempt: AttemptRow, m: Mark, marker: MarkerRow)
    ensures OpenApproval(key, approval) == Some(a) <==>
            approval == ApprovalRow(a.record.prepared.id, a.record, Seal(key, ApprovalColumn, a, approval.state.nonce))
    ensures OpenAttempt(key, attempt) == Some(t) <==>
            attempt == AttemptRow(t.id, t.operation, Seal(key, AttemptColumn, t, attempt.state.nonce))
    ensures OpenMarker(key, marker) == Some(m) <==> marker == MarkerRow(m, Seal(key, MarkerColumn, m, marker.cipher.nonce))
  {
  }

  predicate AllOpen(s: Sealed, key: Key) {
    && (forall i :: 0 <= i < |s.ops| ==> OpenOp(key, s.ops[i]).Some?)
    && (forall i :: 0 <= i < |s.approvals| ==> OpenApproval(key, s.approvals[i]).Some?)
    && (forall i :: 0 <= i < |s.attempts| ==> OpenAttempt(key, s.attempts[i]).Some?)
    && OpenMarker(key, s.marker).Some?
  }

  // ---- the union under a key -------------------------------------------------------

  function ApprovalFor(rows: seq<ApprovalRow>, key: Key, id: Id): Option<StoredApproval> {
    if rows == [] then None
    else if rows[0].id == id then OpenApproval(key, rows[0])
    else ApprovalFor(rows[1..], key, id)
  }

  function HistoryFor(rows: seq<AttemptRow>, key: Key, id: Id): seq<Attempt> {
    if rows == [] then []
    else
      var a := OpenAttempt(key, rows[0]);
      (if rows[0].operation == id && a.Some? then [a.value] else []) + HistoryFor(rows[1..], key, id)
  }

  predicate HasOp(ops: seq<OpRow>, id: Id) { exists i :: 0 <= i < |ops| && ops[i].id == id }

  /** Everything opens under the key and the union validator accepts it. */
  predicate ValidUnder(s: Sealed, key: Key) {
    && AllOpen(s, key)
    && (forall i :: 0 <= i < |s.approvals| ==> HasOp(s.ops, s.approvals[i].id))
    && (forall i :: 0 <= i < |s.attempts| ==> HasOp(s.ops, s.attempts[i].operation))
    && (forall i :: 0 <= i < |s.ops| ==>
          RowUnion(s.ops[i].id, Row(OpenOp(key, s.ops[i]), ApprovalFor(s.approvals, key, s.ops[i].id),
                                    HistoryFor(s.attempts, key, s.ops[i].id), [], [])))
  }

  /** Row by row the same identities and plaintext columns, and under the second
      key the plaintexts there were under the first. */
  predicate SameOps(a: seq<OpRow>, ka: Key, b: seq<OpRow>, kb: Key) {
    |a| == |b| && forall i :: 0 <= i < |a| ==> b[i].id == a[i].id && OpenOp(kb, b[i]) == OpenOp(ka, a[i])
  }
  predicate SameApprovals(a: seq<ApprovalRow>, ka: Key, b: seq<ApprovalRow>, kb: Key) {
    |a| == |b| && forall i :: 0 <= i < |a| ==> b[i].id == a[i].id && OpenApproval(kb, b[i]) == OpenApproval(ka, a[i])
  }
  predicate SameAttempts(a: seq<AttemptRow>, ka: Key, b: seq<AttemptRow>, kb: Key) {
    |a| == |b| && forall i :: 0 <= i < |a| ==>
      b[i].id == a[i].id && b[i].operation == a[i].operation && OpenAttempt(kb, b[i]) == OpenAttempt(ka, a[i])
  }

  predicate SameContent(a: Sealed, ka: Key, b: Sealed, kb: Key) {
    && SameOps(a.ops, ka, b.ops, kb) && SameApprovals(a.approvals, ka, b.approvals, kb)
    && SameAttempts(a.attempts, ka, b.attempts, kb) && SameMarker(a.marker, ka, b.marker, kb)
  }

  /** The marker says the same but for the key's generation and the rotation. */
  predicate SameMarker(a: MarkerRow, ka: Key, b: MarkerRow, kb: Key) {
    var x, y := OpenMarker(ka, a), OpenMarker(kb, b);
    x.Some? && y.Some? && y.value == x.value.(generation := y.value.generation, rotation := y.value.rotation)
  }

  lemma {:induction false} SameApprovalFor(a: seq<ApprovalRow>, ka: Key, b: seq<ApprovalRow>, kb: Key, id: Id)
    requires SameApprovals(a, ka, b, kb)
    ensures ApprovalFor(a, ka, id) == ApprovalFor(b, kb, id)
  {
    if a != [] {
      assert b[0].id == a[0].id && OpenApproval(kb, b[0]) == OpenApproval(ka, a[0]);
      SameApprovalFor(a[1..], ka, b[1..], kb, id);
    }
  }

  lemma {:induction false} SameHistoryFor(a: seq<AttemptRow>, ka: Key, b: seq<AttemptRow>, kb: Key, id: Id)
    requires SameAttempts(a, ka, b, kb)
    ensures HistoryFor(a, ka, id) == HistoryFor(b, kb, id)
  {
    if a != [] {
      assert b[0].operation == a[0].operation && OpenAttempt(kb, b[0]) == OpenAttempt(ka, a[0]);
      SameHistoryFor(a[1..], ka, b[1..], kb, id);
    }
  }

  /** The union is about plaintexts, so a store with the same content under
      another key is as valid. */
  lemma SameContentSameUnion(a: Sealed, ka: Key, b: Sealed, kb: Key)
    requires SameContent(a, ka, b, kb) && ValidUnder(a, ka)
    ensures ValidUnder(b, kb)
  {
    forall id: Id ensures HasOp(a.ops, id) ==> HasOp(b.ops, id) {
      if HasOp(a.ops, id) {
        var i :| 0 <= i < |a.ops| && a.ops[i].id == id;
        assert b.ops[i].id == id;
      }
    }
    forall i | 0 <= i < |b.ops|
      ensures RowUnion(b.ops[i].id, Row(OpenOp(kb, b.ops[i]), ApprovalFor(b.approvals, kb, b.ops[i].id),
                                        HistoryFor(b.attempts, kb, b.ops[i].id), [], []))
    {
      var id := a.ops[i].id;
      assert b.ops[i].id == id && OpenOp(kb, b.ops[i]) == OpenOp(ka, a.ops[i]);
      SameApprovalFor(a.approvals, ka, b.approvals, kb, id);
      SameHistoryFor(a.attempts, ka, b.attempts, kb, id);
      assert RowUnion(id, Row(OpenOp(ka, a.ops[i]), ApprovalFor(a.approvals, ka, id), HistoryFor(a.attempts, ka, id), [], []));
    }
  }

  /** The sealed form of a store: one row for each operation, and every row opens to
      what the store holds. */
  ghost predicate Seals(s: Sealed, key: Key, store: Store) {
    && AllOpen(s, key)
    && (forall i :: 0 <= i < |s.ops| ==> Lookup(store.ops, s.ops[i].id) == OpenOp(key, s.ops[i]))
    && (forall id :: id in store.ops ==> HasOp(s.ops, id))
    && (forall id :: ApprovalFor(s.approvals, key, id) == Lookup(store.approvals, id))
    && (forall id :: HistoryFor(s.attempts, key, id) == AttemptsOf(store.attempts, id))
  }

  lemma {:induction false} ApprovalIsFound(rows: seq<ApprovalRow>, key: Key, i: nat)
    requires i < |rows| && forall j :: 0 <= j < |rows| ==> OpenApproval(key, rows[j]).Some?
    ensures ApprovalFor(rows, key, rows[i].id).Some?
  {
    if rows[0].id != rows[i].id {
      ApprovalIsFound(rows[1..], key, i - 1);
    }
  }

  lemma {:induction false} AttemptIsFound(rows: seq<AttemptRow>, key: Key, i: nat)
    requires i < |rows| && forall j :: 0 <= j < |rows| ==> OpenAttempt(key, rows[j]).Some?
    ensures HistoryFor(rows, key, rows[i].operation) != []
  {
    if i > 0 {
      AttemptIsFound(rows[1..], key, i - 1);
    }
  }

  lemma {:induction false} ApprovalHasRow(rows: seq<ApprovalRow>, key: Key, id: Id) returns (i: nat)
    requires ApprovalFor(rows, key, id).Some?
    ensures i < |rows| && rows[i].id == id
  {
    i := 0;
    if rows[0].id != id {
      var j := ApprovalHasRow(rows[1..], key, id);
      i := j + 1;
    }
  }

  lemma {:induction false} HistoryHasRow(rows: seq<AttemptRow>, key: Key, id: Id) returns (i: nat)
    requires HistoryFor(rows, key, id) != []
    ensures i < |rows| && rows[i].operation == id
  {
    i := 0;
    if rows[0].operation != id {
      var j := HistoryHasRow(rows[1..], key, id);
      i := j + 1;
    }
  }

  /** The union of the sealed tables is that of the store they seal. */
  lemma SealedUnion(s: Sealed, key: Key, store: Store)
    requires Seals(s, key, store)
    ensures ValidUnder(s, key) <==> TablesOk(store)
  {
    if TablesOk(store) {
      SealedIsValid(s, key, store);
    }
    if ValidUnder(s, key) {
      ValidSealsOk(s, key, store);
    }
  }

  lemma SealedIsValid(s: Sealed, key: Key, store: Store)
    requires Seals(s, key, store) && TablesOk(store)
    ensures ValidUnder(s, key)
  {
    forall i | 0 <= i < |s.approvals| ensures HasOp(s.ops, s.approvals[i].id) {
      ApprovalIsFound(s.approvals, key, i);
      assert s.approvals[i].id in store.approvals;
    }
    forall i | 0 <= i < |s.attempts| ensures HasOp(s.ops, s.attempts[i].operation) {
      AttemptIsFound(s.attempts, key, i);
      assert s.attempts[i].operation in store.attempts;
    }
    forall i | 0 <= i < |s.ops|
      ensures RowUnion(s.ops[i].id, Row(OpenOp(key, s.ops[i]), ApprovalFor(s.approvals, key, s.ops[i].id),
                                        HistoryFor(s.attempts, key, s.ops[i].id), [], []))
    {
      assert s.ops[i].id in store.ops;
    }
  }

  lemma ValidSealsOk(s: Sealed, key: Key, store: Store)
    requires Seals(s, key, store) && ValidUnder(s, key)
    ensures TablesOk(store)
  {
    forall id | id in store.approvals ensures id in store.ops {
      assert ApprovalFor(s.approvals, key, id) == Lookup(store.approvals, id);
      var i := ApprovalHasRow(s.approvals, key, id);
      assert HasOp(s.ops, id);
    }
    forall id | id in store.attempts && store.attempts[id] != [] ensures id in store.ops {
      assert HistoryFor(s.attempts, key, id) == AttemptsOf(store.attempts, id);
      var i := HistoryHasRow(s.attempts, key, id);
      assert HasOp(s.ops, id);
    }
    forall id | id in store.ops
      ensures RowUnion(id, Row(Some(store.ops[id]), Lookup(store.approvals, id), AttemptsOf(store.attempts, id), [], []))
    {
      var i :| 0 <= i < |s.ops| && s.ops[i].id == id;
      assert Lookup(store.ops, id) == OpenOp(key, s.ops[i]);
    }
  }

  /** A store reached by any run is sealed to a valid one, so its rotation is refused
      only when a row changes underneath. */
  lemma ReachableIsValid(app: string, es: seq<CommandRuns.Event>, s: Sealed, key: Key)
    requires Hex32(app) && CommandRuns.ValidRun(CommandRuns.Initial(app), es)
    requires Seals(s, key, CommandRuns.Run(CommandRuns.Initial(app), es).store)
    ensures ValidUnder(s, key)
  {
    CommandSafety.UnionAlwaysHolds(app, es);
    SealedUnion(s, key, CommandRuns.Run(CommandRuns.Initial(app), es).store);
  }

  /** Tables of the same content seal the same store. */
  lemma SameContentSealsSame(a: Sealed, ka: Key, b: Sealed, kb: Key, store: Store)
    requires SameContent(a, ka, b, kb) && Seals(a, ka, store)
    ensures Seals(b, kb, store)
  {
    forall i | 0 <= i < |b.ops| ensures Lookup(store.ops, b.ops[i].id) == OpenOp(kb, b.ops[i]) && OpenOp(kb, b.ops[i]).Some? {
      assert OpenOp(kb, b.ops[i]) == OpenOp(ka, a.ops[i]) && b.ops[i].id == a.ops[i].id;
    }
    forall id | id in store.ops ensures HasOp(b.ops, id) {
      var i :| 0 <= i < |a.ops| && a.ops[i].id == id;
      assert b.ops[i].id == id;
    }
    forall id ensures ApprovalFor(b.approvals, kb, id) == Lookup(store.approvals, id)
                  && HistoryFor(b.attempts, kb, id) == AttemptsOf(store.attempts, id)
    {
      SameApprovalFor(a.approvals, ka, b.approvals, kb, id);
      SameHistoryFor(a.attempts, ka, b.attempts, kb, id);
    }
  }

  // ---- the rotation ------------------------------------------------------------------

  /** Who else changes the sealed rows: the k-th compare-and-swap of a table finds
      another ciphertext than was read. */
  datatype Disturbance = Disturbance(approval: nat -> bool, attempt: nat -> bool, op: nat -> bool, marker: bool)

  predicate Quiet(d: Disturbance, s: Sealed) {
    && (forall k :: 0 <= k < |s.approvals| ==> !d.approval(k))
    && (forall k :: 0 <= k < |s.attempts| ==> !d.attempt(k))
    && (forall k :: 0 <= k < |s.ops| ==> !d.op(k)) && !d.marker
  }

  class SealedStore {
    var ops: seq<OpRow>
    var approvals: seq<ApprovalRow>
    var attempts: seq<AttemptRow>
    var marker: MarkerRow

    constructor (s: Sealed)
      ensures State() == s
    {
      ops, approvals, attempts, marker := s.ops, s.approvals, s.attempts, s.marker;
    }

    function State(): Sealed
      reads this
    {
      Sealed(ops, approvals, attempts, marker)
    }

    /** Reseal every approval; each update compares the stored ciphertext. */
    method RotateApprovals(oldKey: Key, newKey: Key, nonce: nat -> int, disturbed: nat -> bool) returns (ok: bool)
      requires oldKey != newKey && forall i :: 0 <= i < |approvals| ==> OpenApproval(oldKey, approvals[i]).Some?
      modifies this`approvals
      ensures ok ==> SameApprovals(old(approvals), oldKey, approvals, newKey)
      ensures ok <==> forall k :: 0 <= k < |old(approvals)| ==> !disturbed(k)
    {
      var rows := approvals;
      for i := 0 to |rows|
        invariant |approvals| == |rows|
        invariant forall j :: 0 <= j < i ==>
                    approvals[j].id == rows[j].id && OpenApproval(newKey, approvals[j]) == OpenApproval(oldKey, rows[j])
        invariant forall j :: i <= j < |rows| ==> approvals[j] == rows[j]
        invariant forall k :: 0 <= k < i ==> !disturbed(k)
      {
        if disturbed(i) {
          approvals := approvals[i := rows[i].(state := rows[i].state.(nonce := rows[i].state.nonce + 1))];
        }
        var plain := OpenApproval(oldKey, rows[i]).value;
        var next := Seal(newKey, ApprovalColumn, plain, nonce(i));
        if approvals[i].state != rows[i].state {
          return false;
        }
        approvals := approvals[i := rows[i].(state := next)];
      }
      ok := true;
    }

    method RotateAttempts(oldKey: Key, newKey: Key, nonce: nat -> int, disturbed: nat -> bool) returns (ok: bool)
      requires oldKey != newKey && forall i :: 0 <= i < |attempts| ==> OpenAttempt(oldKey, attempts[i]).Some?
      modifies this`attempts
      ensures ok ==> SameAttempts(old(attempts), oldKey, attempts, newKey)
      ensures ok <==> forall k :: 0 <= k < |old(attempts)| ==> !disturbed(k)
    {
      var rows := attempts;
      for i := 0 to |rows|
        invariant |attempts| == |rows|
        invariant forall j :: 0 <= j < i ==>
                    attempts[j].id == rows[j].id && attempts[j].operation == rows[j].operation &&
                    OpenAttempt(newKey, attempts[j]) == OpenAttempt(oldKey, rows[j])
        invariant forall j :: i <= j < |rows| ==> attempts[j] == rows[j]
        invariant forall k :: 0 <= k < i ==> !disturbed(k)
      {
        if disturbed(i) {
          attempts := attempts[i := rows[i].(state := rows[i].state.(nonce := rows[i].state.nonce + 1))];
        }
        var plain := OpenAttempt(oldKey, rows[i]).value;
        if attempts[i].state != rows[i].state {
          return false;
        }
        attempts := attempts[i := rows[i].(state := Seal(newKey, AttemptColumn, plain, nonce(i)))];
      }
      ok := true;
    }

    /** Reseal every operation with its receipt: all rows are opened and resealed
        first, then swapped one by one. */
    method RotateOperations(oldKey: Key, newKey: Key, nonce: nat -> int, disturbed: nat -> bool) returns (ok: bool)
      requires oldKey != newKey && forall i :: 0 <= i < |ops| ==> OpenOp(oldKey, ops[i]).Some?
      modifies this`ops
      ensures ok ==> SameOps(old(ops), oldKey, ops, newKey)
      ensures ok <==> forall k :: 0 <= k < |old(ops)| ==> !disturbed(k)
    {
      var rows := ops;
      var resealed: seq<OpRow> := [];
      for i := 0 to |rows|
        invariant |resealed| == i && ops == rows
        invariant forall j :: 0 <= j < i ==>
                    resealed[j].id == rows[j].id && OpenOp(newKey, resealed[j]) == OpenOp(oldKey, rows[j])
      {
        resealed := resealed + [Resealed(oldKey, newKey, rows[i], nonce(2 * i), nonce(2 * i + 1))];
      }
      for i := 0 to |rows|
        invariant |ops| == |rows|
        invariant forall j :: 0 <= j < i ==> ops[j] == resealed[j]
        invariant forall j :: i <= j < |rows| ==> ops[j] == rows[j]
        invariant forall k :: 0 <= k < i ==> !disturbed(k)
      {
        if disturbed(i) {
          ops := ops[i := rows[i].(prepared := rows[i].prepared.(nonce := rows[i].prepared.nonce + 1))];
        }
        if ops[i] != rows[i] {
          return false;
        }
        ops := ops[i := resealed[i]];
      }
      ok := true;
    }

    /** Reseal the marker with a fresh generation and rotation id. */
    method RotateMarker(oldKey: Key, newKey: Key, generation: int, rotation: int, nonce: int, disturbed: bool)
      returns (ok: bool)
      requires oldKey != newKey
      modifies this`marker
      ensures ok <==> OpenMarker(oldKey, old(marker)).Some? && !disturbed
      ensures ok ==> OpenMarker(newKey, marker) ==
                     Some(OpenMarker(oldKey, old(marker)).value.(generation := generation, rotation := rotation))
    {
      var row := marker;
      var state := OpenMarker(oldKey, row);
      if state.None? {
        return false;
      }
      var next := state.value.(generation := generation, rotation := rotation);
      if disturbed {
        marker := row.(cipher := row.cipher.(nonce := row.cipher.nonce + 1));
      }
      if marker.cipher != row.cipher {
        return false;
      }
      marker := MarkerRow(next, Seal(newKey, MarkerColumn, next, nonce));
      ok := true;
    }

    /** The whole rotation in the caller's transaction: approvals after the union
        under the old key, attempts, operations, the marker, and a last validation
        under the new key. It succeeds exactly when the keys differ, the store is
        valid under the old one and no row changed underneath; then every
        plaintext is what it was and opens under the new key only. On failure the
        caller's rollback leaves everything as it was. */
    method Rotate(oldKey: Key, newKey: Key, generation: int, rotation: int, nonce: nat -> int, d: Disturbance)
      returns (ok: bool)
      modifies this
      ensures ok <==> oldKey != newKey && ValidUnder(old(State()), oldKey) && Quiet(d, old(State()))
      ensures ok ==> SameContent(old(State()), oldKey, State(), newKey) && ValidUnder(State(), newKey)
      ensures ok ==> OpenMarker(newKey, marker) ==
                     Some(OpenMarker(oldKey, old(marker)).value.(generation := generation, rotation := rotation))
      ensures ok ==> NothingOpens(State(), oldKey)
      ensures !ok ==> State() == old(State())
    {
      var saved := State();
      if oldKey == newKey || !ValidUnder(saved, oldKey) {
        return false;
      }
      ok := RotateApprovals(oldKey, newKey, nonce, d.approval);
      if ok {
        ok := RotateAttempts(oldKey, newKey, nonce, d.attempt);
      }
      if ok {
        ok := RotateOperations(oldKey, newKey, nonce, d.op);
      }
      if ok {
        ok := RotateMarker(oldKey, newKey, generation, rotation, nonce(0), d.marker);
      }
      if ok {
        SameContentSameUnion(saved, oldKey, State(), newKey);
        NewKeyOnly(State(), oldKey, newKey);
        ok := ValidUnder(State(), newKey);
      }
      if !ok {
        ops, approvals, attempts, marker := saved.ops, saved.approvals, saved.attempts, saved.marker;
      }
    }
  }

  function Resealed(oldKey: Key, newKey: Key, row: OpRow, n1: int, n2: int): (r: OpRow)
    requires OpenOp(oldKey, row).Some?
    ensures r.id == row.id && OpenOp(newKey, r) == OpenOp(oldKey, row)
  {
    var receipt :=
      if row.receipt.None? then None
      else Some(row.receipt.value.(cipher := Seal(newKey, ReceiptColumn, row.receipt.value.cipher.content, n2)));
    row.(prepared := Seal(newKey, PreparedColumn, row.prepared.content, n1), receipt := receipt)
  }

  /** Nothing is left under a key. */
  predicate NothingOpens(s: Sealed, key: Key) {
    && (forall i :: 0 <= i < |s.ops| ==> OpenOp(key, s.ops[i]).None?)
    && (forall i :: 0 <= i < |s.approvals| ==> OpenApproval(key, s.approvals[i]).None?)
    && (forall i :: 0 <= i < |s.attempts| ==> OpenAttempt(key, s.attempts[i]).None?)
    && OpenMarker(key, s.marker).None?
  }

  lemma NewKeyOnly(s: Sealed, oldKey: Key, newKey: Key)
    requires oldKey != newKey && AllOpen(s, newKey)
    ensures NothingOpens(s, oldKey)
  {
    forall i | 0 <= i < |s.ops| ensures OpenOp(oldKey, s.ops[i]).None? {
      assert OpenOp(newKey, s.ops[i]).Some?;
    }
    forall i | 0 <= i < |s.approvals| ensures OpenApproval(oldKey, s.approvals[i]).None? {
      assert OpenApproval(newKey, s.approvals[i]).Some?;
    }
    forall i | 0 <= i < |s.attempts| ensures OpenAttempt(oldKey, s.attempts[i]).None? {
      assert OpenAttempt(newKey, s.attempts[i]).Some?;
    }
  }
}
