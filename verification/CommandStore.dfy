/** The command tables as one value: three tables keyed by operation id, the
    committed applications and the queued jobs. A transaction on one operation
    touches only that operation's rows. */
module CommandStore {
  import opened Wrappers
  import opened Attempts
  import opened Commands
  import opened CommandRows

  datatype Store = Store(
    ops: map<Id, Op>, approvals: map<Id, StoredApproval>, attempts: map<Id, seq<Attempt>>,
    log: seq<Application>, jobs: seq<Job>)

  function Lookup<T>(m: map<Id, T>, id: Id): Option<T> { if id in m then Some(m[id]) else None }

  function SetAt<T>(m: map<Id, T>, id: Id, v: Option<T>): map<Id, T> {
    if v.Some? then m[id := v.value] else m - {id}
  }

  function AttemptsOf(m: map<Id, seq<Attempt>>, id: Id): seq<Attempt> { if id in m then m[id] else [] }

  function SetHistory(m: map<Id, seq<Attempt>>, id: Id, h: seq<Attempt>): map<Id, seq<Attempt>> {
    if AttemptsOf(m, id) == h then m else m[id := h]
  }

  function AppsOf(log: seq<Application>, id: Id): seq<Application> {
    if log == [] then []
    else
      var last := log[|log| - 1];
      AppsOf(log[..|log| - 1], id) + (if last.operation == id then [last] else [])
  }

  function JobsOf(jobs: seq<Job>, id: Id): seq<Job> {
    if jobs == [] then []
    else
      var last := jobs[|jobs| - 1];
      JobsOf(jobs[..|jobs| - 1], id) + (if last.operation == id then [last] else [])
  }

  function RowOf(s: Store, id: Id): Row {
    Row(Lookup(s.ops, id), Lookup(s.approvals, id), AttemptsOf(s.attempts, id), AppsOf(s.log, id), JobsOf(s.jobs, id))
  }

  /** The ledgers only grow, by entries that carry the operation's id. */
  predicate Extends(id: Id, before: Row, row: Row) {
    && |before.applied| <= |row.applied| && row.applied[..|before.applied|] == before.applied
    && |before.jobs| <= |row.jobs| && row.jobs[..|before.jobs|] == before.jobs
    && (forall k :: |before.applied| <= k < |row.applied| ==> row.applied[k].operation == id)
    && (forall k :: |before.jobs| <= k < |row.jobs| ==> row.jobs[k].operation == id)
  }

  function Tail<T>(s: seq<T>, n: nat): seq<T> { if n <= |s| then s[n..] else [] }

  /** The store with one operation's rows replaced; what its row adds to the
      ledgers is appended. */
  function Put(s: Store, id: Id, row: Row): Store {
    Store(SetAt(s.ops, id, row.op), SetAt(s.approvals, id, row.approval), SetHistory(s.attempts, id, row.history),
          s.log + Tail(row.applied, |AppsOf(s.log, id)|), s.jobs + Tail(row.jobs, |JobsOf(s.jobs, id)|))
  }

  lemma AppsOfOneMore(log: seq<Application>, a: Application, id: Id)
    ensures AppsOf(log + [a], id) == AppsOf(log, id) + (if a.operation == id then [a] else [])
  {
    assert (log + [a])[..|log|] == log;
  }

  lemma JobsOfOneMore(jobs: seq<Job>, j: Job, id: Id)
    ensures JobsOf(jobs + [j], id) == JobsOf(jobs, id) + (if j.operation == id then [j] else [])
  {
    assert (jobs + [j])[..|jobs|] == jobs;
  }

  lemma {:induction false} AppsAppend(log: seq<Application>, more: seq<Application>, id: Id, other: Id)
    requires forall k :: 0 <= k < |more| ==> more[k].operation == id
    ensures AppsOf(log + more, id) == AppsOf(log, id) + more
    ensures other != id ==> AppsOf(log + more, other) == AppsOf(log, other)
  {
    if more == [] {
      assert log + more == log;
    } else {
      var init, last := more[..|more| - 1], more[|more| - 1];
      AppsAppend(log, init, id, other);
      assert log + more == (log + init) + [last];
      AppsOfOneMore(log + init, last, id);
      AppsOfOneMore(log + init, last, other);
    }
  }

  lemma {:induction false} JobsAppend(jobs: seq<Job>, more: seq<Job>, id: Id, other: Id)
    requires forall k :: 0 <= k < |more| ==> more[k].operation == id
    ensures JobsOf(jobs + more, id) == JobsOf(jobs, id) + more
    ensures other != id ==> JobsOf(jobs + more, other) == JobsOf(jobs, other)
  {
    if more == [] {
      assert jobs + more == jobs;
    } else {
      var init, last := more[..|more| - 1], more[|more| - 1];
      JobsAppend(jobs, init, id, other);
      assert jobs + more == (jobs + init) + [last];
      JobsOfOneMore(jobs + init, last, id);
      JobsOfOneMore(jobs + init, last, other);
    }
  }

  lemma TablesAreLocal(s: Store, id: Id, row: Row, other: Id)
    requires Extends(id, RowOf(s, id), row)
    ensures var t := Put(s, id, row);
            && Lookup(t.ops, other) == (if other == id then row.op else Lookup(s.ops, other))
            && Lookup(t.approvals, other) == (if other == id then row.approval else Lookup(s.approvals, other))
            && AttemptsOf(t.attempts, other) == (if other == id then row.history else AttemptsOf(s.attempts, other))
  {
  }

  lemma LedgersAreLocal(s: Store, id: Id, row: Row, other: Id)
    requires Extends(id, RowOf(s, id), row)
    ensures var t := Put(s, id, row);
            && AppsOf(t.log, other) == (if other == id then row.applied else AppsOf(s.log, other))
            && JobsOf(t.jobs, other) == (if other == id then row.jobs else JobsOf(s.jobs, other))
  {
    var apps, jobs := AppsOf(s.log, id), JobsOf(s.jobs, id);
    AppsAppend(s.log, row.applied[|apps|..], id, other);
    JobsAppend(s.jobs, row.jobs[|jobs|..], id, other);
    assert row.applied == row.applied[..|apps|] + row.applied[|apps|..];
    assert row.jobs == row.jobs[..|jobs|] + row.jobs[|jobs|..];
  }

  /** A transaction's row is what its operation's rows become, and no other
      operation notices. */
  lemma PutIsLocal(s: Store, id: Id, row: Row, other: Id)
    requires Extends(id, RowOf(s, id), row)
    ensures RowOf(Put(s, id, row), other) == if other == id then row else RowOf(s, other)
  {
    TablesAreLocal(s, id, row, other);
    LedgersAreLocal(s, id, row, other);
  }

  /** Job row ids are the insertion order. */
  predicate JobsNumbered(jobs: seq<Job>) {
    forall i :: 0 <= i < |jobs| ==> jobs[i].effect.id == i + 1
  }

  /** Every operation's rows are coherent, and job ids are unique. */
  ghost predicate StoreInv(s: Store) {
    JobsNumbered(s.jobs) && forall id :: RowInv(id, RowOf(s, id))
  }

  lemma PutKeeps(s: Store, id: Id, row: Row)
    requires StoreInv(s) && RowInv(id, row) && Extends(id, RowOf(s, id), row)
    requires forall k :: |JobsOf(s.jobs, id)| <= k < |row.jobs| ==>
               row.jobs[k].effect.id == |s.jobs| + 1 + k - |JobsOf(s.jobs, id)|
    ensures StoreInv(Put(s, id, row))
  {
    forall other ensures RowInv(other, RowOf(Put(s, id, row), other)) {
      PutIsLocal(s, id, row, other);
      assert RowInv(other, RowOf(s, other));
    }
  }

  // ---- sweep and prepare -----------------------------------------------------

  /** The order in which a query returns the unfinished operations. */
  predicate ScanOrder(ops: map<Id, Op>, order: seq<Id>) {
    && (forall i, j :: 0 <= i < j < |order| ==> order[i] != order[j])
    && (forall k :: 0 <= k < |order| ==> order[k] in ops && ops[order[k]].receipt.None?)
    && (forall id :: id in ops && ops[id].receipt.None? ==> id in order)
  }

  function OpenCount(ops: map<Id, Op>, order: seq<Id>, user: int, now: int): nat {
    if order == [] then 0
    else
      var last := order[|order| - 1];
      OpenCount(ops, order[..|order| - 1], user, now) + (if last in ops && Open(ops[last], user, now) then 1 else 0)
  }

  function ToSweep(ops: map<Id, Op>, order: seq<Id>, now: int): (sweep: seq<Id>)
    ensures |sweep| <= SWEEP_BATCH && |sweep| <= |order|
    ensures forall id :: id in sweep ==> id in ops && Sweepable(ops[id], now)
  {
    if order == [] then []
    else
      var sweep := ToSweep(ops, order[..|order| - 1], now);
      var last := order[|order| - 1];
      if last in ops && Sweepable(ops[last], now) && |sweep| < SWEEP_BATCH then sweep + [last] else sweep
  }

  function Elements(ids: seq<Id>): set<Id> { set id | id in ids }

  function OpenSet(ops: map<Id, Op>, user: int, now: int): set<Id> {
    set id | id in ops && Open(ops[id], user, now)
  }

  /** The scan's count is the number of the actor's open operations, in
      whatever order the rows come. */
  lemma OpenCountIsCardinality(ops: map<Id, Op>, order: seq<Id>, user: int, now: int)
    requires ScanOrder(ops, order)
    ensures OpenCount(ops, order, user, now) == |OpenSet(ops, user, now)|
  {
    OpenCountOfPrefix(ops, order, user, now);
    assert OpenSet(ops, user, now) == set id | id in order && id in ops && Open(ops[id], user, now);
  }

  lemma {:induction false} OpenCountOfPrefix(ops: map<Id, Op>, order: seq<Id>, user: int, now: int)
    requires forall i, j :: 0 <= i < j < |order| ==> order[i] != order[j]
    ensures OpenCount(ops, order, user, now) == |set id | id in order && id in ops && Open(ops[id], user, now)|
  {
    if order != [] {
      var init, last := order[..|order| - 1], order[|order| - 1];
      OpenCountOfPrefix(ops, init, user, now);
      var before := set id | id in init && id in ops && Open(ops[id], user, now);
      var after := set id | id in order && id in ops && Open(ops[id], user, now);
      assert order == init + [last];
      assert last !in init;
      assert after == if last in ops && Open(ops[last], user, now) then before + {last} else before;
    }
  }

  function Sweep(s: Store, ids: set<Id>): Store {
    s.(ops := s.ops - ids, approvals := s.approvals - ids, attempts := s.attempts - ids)
  }

  lemma SweepOneMore(s: Store, ids: set<Id>, id: Id)
    ensures Sweep(s, ids + {id}) == Sweep(Sweep(s, ids), {id})
  {
    assert s.ops - (ids + {id}) == s.ops - ids - {id};
    assert s.approvals - (ids + {id}) == s.approvals - ids - {id};
    assert s.attempts - (ids + {id}) == s.attempts - ids - {id};
  }

  lemma SweepIsLocal(s: Store, ids: set<Id>, id: Id)
    ensures RowOf(Sweep(s, ids), id) == if id in ids then SweptRow(RowOf(s, id)) else RowOf(s, id)
  {
  }

  lemma SweepKeepsStore(s: Store, ids: set<Id>, now: int)
    requires StoreInv(s)
    requires forall id :: id in ids ==> id in s.ops && Sweepable(s.ops[id], now)
    ensures StoreInv(Sweep(s, ids))
  {
    forall id ensures RowInv(id, RowOf(Sweep(s, ids), id)) {
      SweepIsLocal(s, ids, id);
      assert RowInv(id, RowOf(s, id));
      if id in ids {
        SweepKeeps(id, RowOf(s, id), now);
      }
    }
  }

  /** A prepare rolls back, commits the sweep alone and refuses, or commits the
      sweep with the new operation. */
  datatype PrepareTx = PrepareAbort(error: Error) | SweepOnly(store: Store) | PrepareWrite(store: Store)

  function Prepare(s: Store, cap: Capability, order: seq<Id>, now: int, id: Id, plan: Result<Id, Error>,
                   approvalId: Id): PrepareTx {
    var swept := Sweep(s, Elements(ToSweep(s.ops, order, now)));
    if OpenCount(s.ops, order, cap.actor.user, now) >= ACTOR_LIMIT then SweepOnly(swept)
    else if plan.Failure? then PrepareAbort(plan.error)
    else
      var r := InsertTx(cap, RowOf(swept, id), id, now, plan.value, approvalId);
      if r.Failure? then PrepareAbort(r.error) else PrepareWrite(Put(swept, id, r.value))
  }

  lemma InsertIsLocal(t: Store, cap: Capability, now: int, id: Id, intent: Id, approvalId: Id, other: Id)
    requires StoreInv(t) && InsertTx(cap, RowOf(t, id), id, now, intent, approvalId).Success?
    ensures var row := InsertTx(cap, RowOf(t, id), id, now, intent, approvalId).value;
            StoreInv(Put(t, id, row)) && RowOf(Put(t, id, row), other) == if other == id then row else RowOf(t, other)
  {
    var row := InsertTx(cap, RowOf(t, id), id, now, intent, approvalId).value;
    assert RowInv(id, RowOf(t, id));
    InsertKeeps(cap, RowOf(t, id), id, now, intent, approvalId);
    PutIsLocal(t, id, row, other);
    PutKeeps(t, id, row);
  }

  lemma PrepareIsLocal(s: Store, cap: Capability, order: seq<Id>, now: int, id: Id, plan: Result<Id, Error>,
                       approvalId: Id, other: Id) returns (swept: Row)
    requires StoreInv(s)
    ensures swept == if other in ToSweep(s.ops, order, now) then SweptRow(RowOf(s, other)) else RowOf(s, other)
    ensures other in ToSweep(s.ops, order, now) ==> other in s.ops && Sweepable(s.ops[other], now)
    ensures var tx := Prepare(s, cap, order, now, id, plan, approvalId);
            && (tx.SweepOnly? ==> RowOf(tx.store, other) == swept)
            && (tx.PrepareWrite? && other != id ==> RowOf(tx.store, other) == swept)
            && (tx.PrepareWrite? && other == id ==>
                  InsertTx(cap, swept, id, now, plan.value, approvalId) == Success(RowOf(tx.store, id)))
  {
    var ids := Elements(ToSweep(s.ops, order, now));
    var t := Sweep(s, ids);
    SweepKeepsStore(s, ids, now);
    SweepIsLocal(s, ids, other);
    swept := RowOf(t, other);
    var tx := Prepare(s, cap, order, now, id, plan, approvalId);
    if tx.PrepareWrite? {
      InsertIsLocal(t, cap, now, id, plan.value, approvalId, other);
    }
  }

  lemma PrepareKeeps(s: Store, cap: Capability, order: seq<Id>, now: int, id: Id, plan: Result<Id, Error>,
                     approvalId: Id)
    requires StoreInv(s)
    ensures var tx := Prepare(s, cap, order, now, id, plan, approvalId);
            !tx.PrepareAbort? ==> StoreInv(tx.store)
  {
    var ids := Elements(ToSweep(s.ops, order, now));
    var t := Sweep(s, ids);
    SweepKeepsStore(s, ids, now);
    var tx := Prepare(s, cap, order, now, id, plan, approvalId);
    if tx.PrepareWrite? {
      InsertIsLocal(t, cap, now, id, plan.value, approvalId, id);
    }
  }

  /** An actor never has more than the limit of live, unfinished operations when
      a prepare commits; past the limit a prepare still commits its sweep. */
  lemma PrepareKeepsLimit(s: Store, cap: Capability, order: seq<Id>, now: int, id: Id, plan: Result<Id, Error>,
                          approvalId: Id)
    requires StoreInv(s) && ScanOrder(s.ops, order)
    ensures var tx := Prepare(s, cap, order, now, id, plan, approvalId);
            && (tx.SweepOnly? <==> |OpenSet(s.ops, cap.actor.user, now)| >= ACTOR_LIMIT)
            && (tx.PrepareWrite? ==> |OpenSet(tx.store.ops, cap.actor.user, now)| <= ACTOR_LIMIT)
  {
    OpenCountIsCardinality(s.ops, order, cap.actor.user, now);
    var tx := Prepare(s, cap, order, now, id, plan, approvalId);
    if tx.PrepareWrite? {
      var before, after := OpenSet(s.ops, cap.actor.user, now), OpenSet(tx.store.ops, cap.actor.user, now);
      forall other | other in after && other != id ensures other in before {
        var swept := PrepareIsLocal(s, cap, order, now, id, plan, approvalId, other);
        assert RowOf(tx.store, other).op == swept.op;
      }
      assert after <= before + {id};
      SubsetSize(after, before + {id});
    }
  }

  lemma {:induction false} SubsetSize(a: set<Id>, b: set<Id>)
    requires a <= b
    ensures |a| <= |b|
  {
    assert b == a + (b - a);
  }

  // ---- the outcome of COMMIT -------------------------------------------------

  /** Everything that can end a transaction that asked to commit: it is rolled
      back first, COMMIT succeeds, or COMMIT reports an error and the change is
      or is not there. */
  datatype Io = RolledBack | Confirmed | UnknownLanded | UnknownLost

  predicate Landed(io: Io) { io.Confirmed? || io.UnknownLanded? }

  predicate InTime(tx: Tx, wall: int) { tx.Write? && wall < tx.validUntil }

  predicate Lands(tx: Tx, wall: int, io: Io) { InTime(tx, wall) && Landed(io) }

  /** What the caller is told. */
  datatype Reply = Done | Answered | Refused(error: Error) | UnknownReply

  function ReplyFor(tx: Tx, wall: int, io: Io): (r: Reply)
    ensures r.Done? ==> Lands(tx, wall, io)
    ensures Lands(tx, wall, io) ==> r.Done? || r.UnknownReply?
    ensures r.UnknownReply? ==> InTime(tx, wall) && (io.UnknownLanded? || io.UnknownLost?)
  {
    match tx
    case Abort(e) => Refused(e)
    case ReadOnly => Answered
    case Write(_, _) =>
      if !InTime(tx, wall) then Refused(Unavailable)
      else match io
        case RolledBack => Refused(Unavailable)
        case Confirmed => Done
        case _ => UnknownReply
  }

  function After(s: Store, id: Id, tx: Tx, wall: int, io: Io): Store {
    if Lands(tx, wall, io) then Put(s, id, tx.row) else s
  }

  // ---- the union validator on the tables -------------------------------------

  /** What the checker requires of the three tables together: no orphan approval
      or attempt, and every receipt coherent with a consumed approval. */
  predicate TablesOk(s: Store) {
    && (forall id :: id in s.approvals ==> id in s.ops)
    && (forall id :: id in s.attempts && s.attempts[id] != [] ==> id in s.ops)
    && (forall id :: id in s.ops ==>
          RowUnion(id, Row(Some(s.ops[id]), Lookup(s.approvals, id), AttemptsOf(s.attempts, id), [], [])))
  }

  /** The checker accepts a store exactly when every operation's rows satisfy
      the union. */
  lemma TablesOkIffRows(s: Store)
    ensures TablesOk(s) <==> forall id :: RowUnion(id, RowOf(s, id))
  {
    if TablesOk(s) {
      forall id ensures RowUnion(id, RowOf(s, id)) {
      }
    }
    if forall id :: RowUnion(id, RowOf(s, id)) {
      forall id | id in s.approvals || (id in s.attempts && s.attempts[id] != []) ensures id in s.ops {
        assert RowUnion(id, RowOf(s, id));
      }
      forall id | id in s.ops
        ensures RowUnion(id, Row(Some(s.ops[id]), Lookup(s.approvals, id), AttemptsOf(s.attempts, id), [], []))
      {
        assert RowUnion(id, RowOf(s, id));
      }
    }
  }
}
