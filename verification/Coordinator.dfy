/** The coordinator, sole commit point of the protocol
    (app_mcp_command_authority.go:111-402): one connection, one transaction, a
    connection guard, a commit barrier, and deferred cleanup that runs on every
    return path, last registered first. Every fallible call is answered by an
    oracle. */
module Coordinator {

  /** A pragma that fails leaves the connection at an unknown value. */
  datatype Set = SetOk | SetFailed(actual: int)

  datatype Cleanup = CleanupOk | CleanupUncertain(queryOnly: bool, authorizer: bool)

  datatype Finalization = FinalOk | FinalRefused | FinalUncertain

  datatype Commit = CommitOk | CommitErrorLanded | CommitErrorLost

  /** What each fallible call answers; a bool is its success. */
  datatype Oracle = Oracle(
    opening: Opening, guarding: Guarding, work: Work, finishing: Finishing, closing: Closing)
  {
    /** The work ran under the guard, without leaving it uncertain, to a good end. */
    predicate WorkDone() {
      opening.Answers() && guarding.Answers() && work.ok && work.lifetime && !work.uncertain
    }

    /** COMMIT is issued. */
    predicate Commits() { WorkDone() && work.commit && finishing.Answers() }

    /** Nothing to commit, and the guard came off. */
    predicate Reads() { WorkDone() && !work.commit && finishing.guardOff.CleanupOk? }
  }

  datatype Opening = Opening(
    lock: bool, conn: bool, native: bool, readBusy: bool, zero: Set, contextAfterZero: bool, begin: bool,
    restore: Set, authority: bool)
  {
    predicate Answers() {
      lock && conn && native && readBusy && zero.SetOk? && contextAfterZero && begin && restore.SetOk? && authority
    }
  }

  datatype Guarding = Guarding(readQueryOnly: bool, setQueryOnly: bool, register: bool, contextAfter: bool)
  {
    predicate Answers() { readQueryOnly && setQueryOnly && register && contextAfter }
  }

  /** What the work under the capability does: an error, a read-only end, or a
      request to commit; uncertain when a scope could not restore the guard. */
  datatype Work = Work(ok: bool, commit: bool, uncertain: bool, lifetime: bool)

  datatype Finishing = Finishing(
    begin: Finalization, finalize: bool, end: bool, lifetime: bool, guardOff: Cleanup, context: bool,
    inTime: bool, source: bool, commit: Commit)
  {
    /** Everything before COMMIT answers well. */
    predicate Answers() {
      begin.FinalOk? && finalize && end && lifetime && guardOff.CleanupOk? && context && inTime && source
    }
  }

  datatype Closing = Closing(guardOff: Cleanup, rollback: bool, restore: Set, dispose: bool, close: bool)

  datatype CommitState = NotAttempted | Confirmed | Unknown

  class Transaction {
    // the connection
    const originalBusy: int
    const originalQueryOnly: bool
    var busy: int
    var queryOnly: bool
    var authorizer: bool
    var held: bool
    var discarded: bool
    // the coordinator's flags
    var began: bool
    var transactionDone: bool
    var busyChanged: bool
    var busyRestored: bool
    var discardConn: bool
    var guardSet: bool
    var guardHeld: bool
    var guardUncertain: bool
    var guardQueryOnly: bool
    var guardRestored: bool
    // the outcome
    var state: CommitState
    var rollbackConfirmed: bool
    var cleanupErr: bool
    // what happened to the data
    ghost var ends: nat
    ghost var landed: bool
    ghost var commitFailed: bool

    constructor (busyTimeout: int, queryOnlyBefore: bool)
      ensures busy == originalBusy == busyTimeout && queryOnly == originalQueryOnly == queryOnlyBefore
      ensures Fresh()
    {
      originalBusy, originalQueryOnly, busy, queryOnly := busyTimeout, queryOnlyBefore, busyTimeout, queryOnlyBefore;
      authorizer, held, discarded, began, transactionDone := false, false, false, false, false;
      busyChanged, busyRestored, discardConn := false, true, false;
      guardSet, guardHeld, guardUncertain, guardQueryOnly, guardRestored := false, false, false, false, false;
      state, rollbackConfirmed, cleanupErr := NotAttempted, false, false;
      ends, landed, commitFailed := 0, false, false;
    }

    ghost predicate Fresh()
      reads this
    {
      && busy == originalBusy && queryOnly == originalQueryOnly && !authorizer && !held && !discarded && !began
      && !transactionDone && !busyChanged && busyRestored && !discardConn && !guardSet && !guardHeld && !guardRestored
      && !guardUncertain && !guardQueryOnly && state.NotAttempted? && !rollbackConfirmed && !cleanupErr && ends == 0
      && !landed && !commitFailed
    }

    /** The guard is off and query_only is what the guard noted when it was set, or
        what it was if no guard was; a guard that could not read query_only notes
        that it was off. */
    ghost predicate GuardClean()
      reads this
    {
      !authorizer && queryOnly == (if guardSet then guardQueryOnly else originalQueryOnly)
    }

    /** What holds at every point of the path. */
    ghost predicate Tracked()
      reads this
    {
      && (busyRestored ==> busy == originalBusy) && (!busyChanged ==> busyRestored)
      && (began ==> held) && (busyChanged ==> held) && (!discarded)
      && ends == (if transactionDone then 1 else 0) && (transactionDone ==> began)
      && (!guardSet ==> !guardHeld && !guardRestored && !authorizer && queryOnly == originalQueryOnly)
      && (guardSet ==> began) && (guardHeld ==> guardSet && !guardRestored)
      && (guardSet && !guardHeld ==> GuardClean() || discardConn)
      && (guardSet && guardQueryOnly ==> originalQueryOnly)
      && (state.NotAttempted? ==> !landed && !commitFailed)
      && (state.Confirmed? ==> landed && !commitFailed && transactionDone)
      && (state.Unknown? ==> commitFailed && transactionDone)
      && (rollbackConfirmed ==> !landed)
      && (commitFailed ==> state.Unknown?)
    }

    method SetBusyTimeout(value: int, answer: Set) returns (ok: bool)
      modifies this`busy
      ensures ok <==> answer.SetOk?
      ensures busy == if ok then value else answer.actual
    {
      ok := answer.SetOk?;
      busy := if ok then value else answer.actual;
    }

    /** Lock, connection, a zero busy timeout for BEGIN, and its restoration
        inside the transaction. */
    method Open(o: Opening) returns (err: bool)
      requires Fresh()
      modifies this
      ensures Tracked() && state.NotAttempted? && !guardSet && !transactionDone && !rollbackConfirmed
      ensures !err ==> began && busyRestored && !discardConn && !cleanupErr
      ensures began && !busyRestored ==> discardConn
      ensures !guardUncertain
      ensures err <==> !o.Answers()
    {
      if !o.lock || !o.conn {
        return true;
      }
      held := true;
      if !o.native || !o.readBusy {
        return true;
      }
      busyChanged, busyRestored := true, false;
      var ok := SetBusyTimeout(0, o.zero);
      if !ok || !o.contextAfterZero || !o.begin {
        return true;
      }
      began := true;
      ok := SetBusyTimeout(originalBusy, o.restore);
      if !ok {
        discardConn := true;
        cleanupErr := true;
        return true;
      }
      busyRestored := true;
      err := !o.authority;
    }

    /** The guard makes the connection query-only behind an authorizer. */
    method InstallGuard(g: Guarding) returns (err: bool)
      requires Tracked() && began && !guardSet && !transactionDone && state.NotAttempted?
      modifies this`guardSet, this`guardHeld, this`guardQueryOnly, this`queryOnly, this`authorizer
      ensures Tracked() && guardSet && guardHeld
      ensures guardQueryOnly == (g.readQueryOnly && originalQueryOnly)
      ensures err <==> !g.Answers()
    {
      guardSet, guardHeld := true, true;
      guardQueryOnly := g.readQueryOnly && originalQueryOnly;
      if !g.readQueryOnly {
        return true;
      }
      if !g.setQueryOnly {
        return true;
      }
      queryOnly := true;
      if !g.register {
        return true;
      }
      authorizer := true;
      err := !g.contextAfter;
    }

    /** Take the guard off; a failed step, or one that failed earlier, makes the
        connection uncertain. */
    method RestoreGuard(c: Cleanup) returns (err: bool)
      requires Tracked() && guardHeld
      modifies this`guardHeld, this`guardUncertain, this`queryOnly, this`authorizer, this`discardConn
      ensures guardSet && !guardHeld && (err <==> guardUncertain) && (old(guardUncertain) ==> guardUncertain)
      ensures err <==> old(guardUncertain) || !c.CleanupOk?
      ensures discardConn <==> old(discardConn) || err
      ensures Tracked()
    {
      match c {
        case CleanupOk =>
          queryOnly := guardQueryOnly;
          authorizer := false;
        case CleanupUncertain(q, a) =>
          queryOnly, authorizer := q, a;
          guardUncertain := true;
      }
      guardHeld := false;
      err := guardUncertain;
      if err {
        discardConn := true;
      }
    }

    /** From the request to commit to COMMIT itself. */
    method Finish(f: Finishing) returns (err: bool)
      requires Tracked() && guardHeld && began && !transactionDone && state.NotAttempted? && !rollbackConfirmed
      modifies this
      ensures Tracked() && !rollbackConfirmed && guardSet
      ensures busyRestored == old(busyRestored) && busyChanged == old(busyChanged) && began == old(began)
      ensures busy == old(busy) && held == old(held)
      ensures !err ==> state.Confirmed? || cleanupErr
      ensures state.Confirmed? <==> !old(guardUncertain) && f.Answers() && f.commit.CommitOk?
      ensures state.Unknown? <==> !old(guardUncertain) && f.Answers() && !f.commit.CommitOk?
      ensures landed <==> !old(guardUncertain) && f.Answers() && !f.commit.CommitErrorLost?
      ensures state.Confirmed? ==> !err && guardRestored && !guardHeld
      ensures state.Confirmed? ==> cleanupErr == old(cleanupErr) && discardConn == old(discardConn)
      ensures state.Unknown? ==> err
      ensures transactionDone <==> !state.NotAttempted?
      ensures guardHeld ==> !guardRestored
      ensures guardQueryOnly == old(guardQueryOnly)
      ensures old(discardConn) ==> discardConn
      ensures old(cleanupErr) ==> cleanupErr
    {
      if !f.begin.FinalOk? {
        guardUncertain := guardUncertain || f.begin.FinalUncertain?;
        return true;
      }
      if !f.end {
        guardUncertain := true;
      }
      if guardUncertain {
        discardConn := true;
        cleanupErr := true;
        return !f.finalize;
      }
      if !f.finalize || !f.lifetime {
        return true;
      }
      var failed := RestoreGuard(f.guardOff);
      if failed {
        cleanupErr := true;
        return false;
      }
      guardRestored := true;
      if !f.context || !f.inTime || !f.source {
        return true;
      }
      err := CommitNow(f.commit);
    }

    /** COMMIT itself; the state is unknown until it answers. */
    method CommitNow(c: Commit) returns (err: bool)
      requires Tracked() && began && !transactionDone && state.NotAttempted? && !rollbackConfirmed
      modifies this`state, this`ends, this`transactionDone, this`landed, this`commitFailed
      ensures Tracked() && transactionDone
      ensures state == if c.CommitOk? then Confirmed else Unknown
      ensures err <==> !c.CommitOk?
      ensures landed <==> !c.CommitErrorLost?
    {
      state := Unknown;
      ends := ends + 1;
      transactionDone := true;
      match c {
        case CommitOk =>
          landed := true;
          state := Confirmed;
          err := false;
        case CommitErrorLanded =>
          landed := true;
          commitFailed := true;
          err := true;
        case CommitErrorLost =>
          commitFailed := true;
          err := true;
      }
    }

    method DeferredGuard(c: Closing)
      requires Tracked()
      modifies this`guardHeld, this`guardUncertain, this`queryOnly, this`authorizer, this`discardConn, this`cleanupErr
      ensures Tracked() && !guardHeld
      ensures discardConn <==> old(discardConn) || old(GuardStuck(c))
      ensures cleanupErr <==> old(cleanupErr) || old(GuardStuck(c))
    {
      if guardHeld && !guardRestored {
        var failed := RestoreGuard(c.guardOff);
        if failed {
          cleanupErr := true;
        }
      }
    }

    method DeferredRollback(c: Closing)
      requires Tracked() && !guardHeld && !rollbackConfirmed && (transactionDone <==> !state.NotAttempted?)
      modifies this`transactionDone, this`rollbackConfirmed, this`cleanupErr, this`ends
      ensures Tracked() && (began ==> transactionDone) && (rollbackConfirmed ==> state.NotAttempted?)
      ensures rollbackConfirmed <==> old(began && !transactionDone) && c.rollback
      ensures cleanupErr <==> old(cleanupErr) || (old(began && !transactionDone) && !c.rollback)
    {
      if began && !transactionDone {
        ends := ends + 1;
        transactionDone := true;
        if c.rollback {
          rollbackConfirmed := true;
        } else {
          cleanupErr := true;
        }
      }
    }

    method DeferredBusyTimeout(c: Closing)
      requires Tracked()
      modifies this`busy, this`busyRestored, this`discardConn, this`cleanupErr
      ensures Tracked() && (busyRestored || discardConn)
      ensures discardConn <==> old(discardConn) || old(BusyStuck(c))
      ensures cleanupErr <==> old(cleanupErr) || old(BusyStuck(c))
    {
      if busyChanged && !busyRestored {
        var ok := SetBusyTimeout(originalBusy, c.restore);
        if ok {
          busyRestored := true;
        } else {
          discardConn := true;
          cleanupErr := true;
        }
      }
    }

    /** The guard, or the busy timeout, cannot be put back. */
    predicate GuardStuck(c: Closing)
      reads this
    {
      guardHeld && !guardRestored && (guardUncertain || !c.guardOff.CleanupOk?)
    }

    predicate BusyStuck(c: Closing)
      reads this
    {
      busyChanged && !busyRestored && !c.restore.SetOk?
    }

    /** Whether cleanup ends with the connection thrown away. */
    predicate Condemned(c: Closing)
      reads this
    {
      discardConn || GuardStuck(c) || BusyStuck(c)
    }

    /** Whether some cleanup fails. */
    predicate CleanupFails(c: Closing)
      reads this
    {
      || cleanupErr || GuardStuck(c) || BusyStuck(c) || (began && !transactionDone && !c.rollback)
      || (held && ((Condemned(c) && !c.dispose) || !c.close))
    }

    /** The deferred functions, last registered first: guard, rollback, busy
        timeout, disposal, close. */
    method Deferred(c: Closing, earlier: bool) returns (err: bool)
      requires Tracked() && !rollbackConfirmed && (transactionDone <==> !state.NotAttempted?)
      modifies this
      ensures state == old(state) && landed == old(landed) && began == old(began) && commitFailed == old(commitFailed)
      ensures held == old(held)
      ensures ends == if began then 1 else 0
      ensures guardSet == old(guardSet) && guardQueryOnly == old(guardQueryOnly)
      ensures discarded <==> held && old(Condemned(c))
      ensures held && !discarded ==> busy == originalBusy && GuardClean()
      ensures rollbackConfirmed ==> !landed && state.NotAttempted?
      ensures rollbackConfirmed <==> old(began && !transactionDone) && c.rollback
      ensures err <==> cleanupErr || earlier
      ensures cleanupErr <==> old(CleanupFails(c))
    {
      DeferredCleanup(c);
      DeferredClose(c);
      err := earlier || cleanupErr;
    }

    method DeferredCleanup(c: Closing)
      requires Tracked() && !rollbackConfirmed && (transactionDone <==> !state.NotAttempted?)
      modifies this`guardHeld, this`guardUncertain, this`queryOnly, this`authorizer, this`transactionDone,
               this`rollbackConfirmed, this`ends, this`busy, this`busyRestored, this`discardConn, this`cleanupErr
      ensures Tracked() && !guardHeld && (began ==> transactionDone) && (busyRestored || discardConn)
      ensures discardConn <==> old(Condemned(c))
      ensures rollbackConfirmed ==> state.NotAttempted?
      ensures rollbackConfirmed <==> old(began && !transactionDone) && c.rollback
      ensures cleanupErr <==>
                old(cleanupErr || GuardStuck(c) || BusyStuck(c)) || (old(began && !transactionDone) && !c.rollback)
    {
      DeferredGuard(c);
      DeferredRollback(c);
      DeferredBusyTimeout(c);
    }

    method DeferredClose(c: Closing)
      requires !discarded
      modifies this`discarded, this`cleanupErr
      ensures discarded <==> discardConn && held
      ensures cleanupErr <==> old(cleanupErr) || (held && ((discardConn && !c.dispose) || !c.close))
    {
      if discardConn && held {
        discarded := true;
        if !c.dispose {
          cleanupErr := true;
        }
      }
      if held && !c.close {
        cleanupErr := true;
      }
    }

    /** The work under the installed guard, then COMMIT if it asks for one, or the
        guard off again if it does not. */
    method UnderGuard(w: Work, f: Finishing) returns (err: bool)
      requires Tracked() && guardSet && guardHeld && began && !transactionDone && state.NotAttempted? && !rollbackConfirmed
      requires !guardUncertain && busyRestored && !discardConn && !cleanupErr
      modifies this
      ensures Tracked() && !rollbackConfirmed && guardSet
      ensures busyRestored && busyChanged == old(busyChanged) && began
      ensures busy == old(busy) && held == old(held) && guardQueryOnly == old(guardQueryOnly)
      ensures var commits := w.ok && w.lifetime && !w.uncertain && w.commit && f.Answers();
              && (state.Confirmed? <==> commits && f.commit.CommitOk?)
              && (state.Unknown? <==> commits && !f.commit.CommitOk?)
              && (landed <==> commits && !f.commit.CommitErrorLost?)
      ensures state.Confirmed? ==> !err && guardRestored && !guardHeld && !cleanupErr && !discardConn
      ensures state.Unknown? ==> err
      ensures transactionDone <==> !state.NotAttempted?
      ensures guardHeld ==> !guardRestored
      ensures !err && !w.commit && !cleanupErr ==> !guardHeld && !discardConn && guardRestored
      ensures !err && state.NotAttempted? && !cleanupErr <==>
                w.ok && w.lifetime && !w.uncertain && !w.commit && f.guardOff.CleanupOk?
    {
      guardUncertain := guardUncertain || w.uncertain;
      if !w.ok || !w.lifetime {
        return true;
      }
      if w.commit {
        err := Finish(f);
        return;
      }
      var failed := RestoreGuard(f.guardOff);
      if failed {
        cleanupErr := true;
      } else {
        guardRestored := true;
      }
      err := false;
    }

    /** One coordinated transaction. On every path: the transaction ends exactly
        once if it began; COMMIT is issued exactly when the work asked for it and
        every call before it answered well, success after a request to commit means
        it succeeded, the unknown state is reported exactly when it returned an
        error, and in every other failure nothing landed; and a connection that
        goes back to the pool has its busy timeout and no guard, and its query_only
        as found exactly when that was off or the guard could read it. */
    method Coordinate(o: Oracle) returns (err: bool)
      requires Fresh()
      modifies this
      ensures ends == (if began then 1 else 0)
      ensures !err && o.work.commit ==> state.Confirmed?
      ensures state.Confirmed? <==> o.Commits() && o.finishing.commit.CommitOk?
      ensures state.Unknown? <==> o.Commits() && !o.finishing.commit.CommitOk?
      ensures landed <==> o.Commits() && !o.finishing.commit.CommitErrorLost?
      ensures !err <==>
                o.closing.close && ((o.Commits() && o.finishing.commit.CommitOk?) || (o.Reads() && o.closing.rollback))
      ensures began && !o.Commits() && o.closing.rollback ==> rollbackConfirmed
      ensures state.Confirmed? <==> landed && !commitFailed
      ensures state.Unknown? <==> commitFailed
      ensures state.NotAttempted? ==> !landed
      ensures rollbackConfirmed ==> !landed && state.NotAttempted?
      ensures held && !discarded ==> busy == originalBusy && GuardClean()
      ensures held && !discarded && !guardSet ==> queryOnly == originalQueryOnly
      ensures held && !discarded && guardSet ==>
                (queryOnly == originalQueryOnly <==> o.guarding.readQueryOnly || !originalQueryOnly)
      ensures o.opening.Answers() && !o.guarding.readQueryOnly && o.closing.guardOff.CleanupOk? ==>
                held && !discarded && guardSet && !queryOnly
      ensures !err ==> !cleanupErr
    {
      var earlier := Open(o.opening);
      if !earlier {
        earlier := InstallGuard(o.guarding);
      }
      if !earlier {
        earlier := UnderGuard(o.work, o.finishing);
      }
      err := Deferred(o.closing, earlier);
    }
  }

  datatype Finished = Succeeded | UnknownOutcome | Failed

  /** How the callers read the coordinator's answer: a confirmed commit is a
      success even when only cleanup failed afterwards. */
  function FinishOutcome(state: CommitState, err: bool): Finished {
    if state.Confirmed? then Succeeded
    else if state.Unknown? then UnknownOutcome
    else if err then Failed else Succeeded
  }

  /** The three answers a caller that asked to commit can see, and what each says
      about the data. */
  method Ask(t: Transaction, o: Oracle) returns (answer: Finished)
    requires t.Fresh() && o.work.commit
    modifies t
    ensures answer.Succeeded? ==> t.landed
    ensures answer.Failed? ==> !t.landed
    ensures answer.UnknownOutcome? <==> t.commitFailed
    ensures answer.Succeeded? <==> o.Commits() && o.finishing.commit.CommitOk?
    ensures answer.Failed? <==> !o.Commits()
  {
    var err := t.Coordinate(o);
    answer := FinishOutcome(t.state, err);
  }

  /** A query-only connection whose query_only the guard cannot read, while
      everything else works, goes back to the pool writable. */
  method UnreadQueryOnlyIsForgotten() returns (t: Transaction)
    ensures t.originalQueryOnly && t.held && !t.discarded && !t.queryOnly
  {
    t := new Transaction(5000, true);
    var err := t.Coordinate(
      Oracle(Opening(true, true, true, true, SetOk, true, true, SetOk, true), Guarding(false, true, true, true),
             Work(true, true, false, true),
             Finishing(FinalOk, true, true, true, CleanupOk, true, true, true, CommitOk),
             Closing(CleanupOk, true, SetOk, true, true)));
  }
}
