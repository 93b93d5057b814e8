/** A command's write on a hooked table (app_mcp_command_hooks.go:503-686): the
    statement is probed in a savepoint and rolled back, its rows are checked
    against the state before the write, and it is run for final. A statement is a
    function of the table and of the clock, which it may read. */
module HookedWrite {
  import opened Wrappers

  type RowId = int
  type Column = int
  type Value = int
  type Row = map<Column, Value>

  const NULL: Value := 0

  function Get(row: Row, c: Column): Value { if c in row then row[c] else NULL }

  datatype Action = Insert | Update | Delete

  /** One row of RETURNING: the id it had and the id it has. */
  datatype Entry = Entry(before: RowId, id: RowId, row: Row)

  datatype Effect = Effect(after: map<RowId, Row>, entries: seq<Entry>)

  datatype Execution = Fails | Runs(effect: Effect)

  /** A statement run on a table at a clock reading; SQLite holds the clock stable
      within one run only. */
  type Clock = int
  type Statement = (map<RowId, Row>, Clock) -> Execution

  function Ids(entries: seq<Entry>): (r: seq<RowId>)
    ensures |r| == |entries| && forall i :: 0 <= i < |entries| ==> r[i] == entries[i].id
  {
    seq(|entries|, i requires 0 <= i < |entries| => entries[i].id)
  }

  function Befores(entries: seq<Entry>): (r: seq<RowId>)
    ensures |r| == |entries| && forall i :: 0 <= i < |entries| ==> r[i] == entries[i].before
  {
    seq(|entries|, i requires 0 <= i < |entries| => entries[i].before)
  }

  predicate Distinct(s: seq<RowId>) { forall i, j :: 0 <= i < j < |s| ==> s[i] != s[j] }

  function Elements(s: seq<RowId>): set<RowId> { set x | x in s }

  /** What one statement does to the table, and that RETURNING lists exactly it:
      ids are a primary key, other rows stay. */
  ghost predicate Coherent(action: Action, pre: map<RowId, Row>, e: Effect) {
    var gone, come := Elements(Befores(e.entries)), Elements(Ids(e.entries));
    && Distinct(Ids(e.entries)) && Distinct(Befores(e.entries))
    && match action
       case Insert =>
         && come !! pre.Keys && e.after.Keys == pre.Keys + come
         && (forall i :: 0 <= i < |e.entries| ==> e.after[e.entries[i].id] == e.entries[i].row)
         && (forall id :: id in pre ==> e.after[id] == pre[id])
       case Delete =>
         && (forall i :: 0 <= i < |e.entries| ==>
               e.entries[i].id == e.entries[i].before && e.entries[i].id in pre && e.entries[i].row == pre[e.entries[i].id])
         && e.after == pre - come
       case Update =>
         && gone <= pre.Keys && come !! (pre.Keys - gone) && e.after.Keys == pre.Keys - gone + come
         && (forall i :: 0 <= i < |e.entries| ==> e.after[e.entries[i].id] == e.entries[i].row)
         && (forall id :: id in pre && id !in gone ==> e.after[id] == pre[id])
  }

  ghost predicate CoherentAlways(action: Action, pre: map<RowId, Row>, statement: Statement) {
    forall t: Clock :: statement(pre, t).Runs? ==> Coherent(action, pre, statement(pre, t).effect)
  }

  // ---- rules -------------------------------------------------------------------

  datatype Transition = Transition(role: Option<int>, condition: Row -> bool)

  datatype Workflow = Workflow(
    name: int, field: Column, mayStart: Value -> bool, transitions: map<(Value, Value), Transition>)

  datatype Rules = Rules(
    actor: int, roles: set<int>, locks: map<RowId, int>, validate: Row -> bool,
    hasBefore: bool, beforeHook: (Option<Row>, Row) -> bool, workflows: seq<Workflow>, hasAfter: bool)

  predicate MayMove(w: Workflow, roles: set<int>, before: Row, after: Row) {
    var from, to := Get(before, w.field), Get(after, w.field);
    from == to ||
    ((from, to) in w.transitions &&
     (w.transitions[(from, to)].role.Some? ==> w.transitions[(from, to)].role.value in roles) &&
     w.transitions[(from, to)].condition(before))
  }

  predicate TransitionAllowed(r: Rules, before: Row, after: Row) {
    forall k :: 0 <= k < |r.workflows| ==> MayMove(r.workflows[k], r.roles, before, after)
  }

  predicate StartAllowed(r: Rules, row: Row) {
    forall k :: 0 <= k < |r.workflows| ==> r.workflows[k].mayStart(Get(row, r.workflows[k].field))
  }

  predicate Unlocked(r: Rules, id: RowId) { id in r.locks ==> r.locks[id] == r.actor }

  /** Everything a row must pass, judged against the state before the write. */
  predicate Passes(r: Rules, action: Action, pre: map<RowId, Row>, e: Entry) {
    && (!action.Insert? ==> Unlocked(r, e.id))
    && (action.Update? ==> e.id in pre)
    && (!action.Delete? ==> r.validate(e.row))
    && (action.Insert? ==> StartAllowed(r, e.row))
    && (r.hasBefore ==> r.beforeHook(OldImage(action, pre, e), e.row))
    && (action.Update? ==> TransitionAllowed(r, pre[e.id], e.row))
  }

  /** What a passed row has passed, spelled out: no other user's lock, the validator,
      the before-hook on the state before the write, a permitted start for a new row,
      and for an updated one, in each workflow whose field it moves, a declared move
      whose role the actor holds and whose condition held before the write. */
  lemma PassMeans(r: Rules, action: Action, pre: map<RowId, Row>, e: Entry)
    ensures Passes(r, action, pre, e) <==>
            && (!action.Insert? && e.id in r.locks ==> r.locks[e.id] == r.actor)
            && (action.Insert? || action.Update? ==> r.validate(e.row))
            && (r.hasBefore && action.Insert? ==> r.beforeHook(None, e.row))
            && (r.hasBefore && action.Delete? ==> r.beforeHook(Some(e.row), e.row))
            && (r.hasBefore && action.Update? && e.id in pre ==> r.beforeHook(Some(pre[e.id]), e.row))
            && (action.Insert? ==>
                  forall w :: w in r.workflows ==> w.mayStart(if w.field in e.row then e.row[w.field] else NULL))
            && (action.Update? ==>
                  e.id in pre &&
                  forall w :: w in r.workflows && Moves(w, pre[e.id], e.row) ==>
                    MoveOf(w, pre[e.id], e.row) in w.transitions &&
                    (w.transitions[MoveOf(w, pre[e.id], e.row)].role.Some? ==>
                       w.transitions[MoveOf(w, pre[e.id], e.row)].role.value in r.roles) &&
                    w.transitions[MoveOf(w, pre[e.id], e.row)].condition(pre[e.id]))
  {
  }

  /** The values of a workflow's field before and after. */
  function MoveOf(w: Workflow, before: Row, after: Row): (Value, Value) {
    (if w.field in before then before[w.field] else NULL, if w.field in after then after[w.field] else NULL)
  }

  predicate Moves(w: Workflow, before: Row, after: Row) { MoveOf(w, before, after).0 != MoveOf(w, before, after).1 }

  function OldImage(action: Action, pre: map<RowId, Row>, e: Entry): Option<Row> {
    match action
    case Insert => None
    case Delete => Some(e.row)
    case Update => if e.id in pre then Some(pre[e.id]) else None
  }

  // ---- before-images -------------------------------------------------------------

  type Tracked = map<(int, RowId), Value>

  /** The first image of a row among the updates of the command, oldest first. */
  function FirstImage(images: seq<map<RowId, Row>>, id: RowId): Option<Row> {
    if images == [] then None
    else
      var earlier := FirstImage(images[..|images| - 1], id);
      var last := images[|images| - 1];
      if earlier.Some? then earlier else if id in last then Some(last[id]) else None
  }

  function Named(workflows: seq<Workflow>, name: int): Option<Workflow> {
    if workflows == [] then None
    else
      var earlier := Named(workflows[..|workflows| - 1], name);
      var last := workflows[|workflows| - 1];
      if earlier.Some? then earlier else if last.name == name then Some(last) else None
  }

  function At(tracked: Tracked, key: (int, RowId)): Option<Value> { if key in tracked then Some(tracked[key]) else None }

  /** The state a workflow and a row should be tracked with: the field's value in
      the row's first before-image. */
  function FirstState(workflows: seq<Workflow>, images: seq<map<RowId, Row>>, key: (int, RowId)): Option<Value> {
    var image, workflow := FirstImage(images, key.1), Named(workflows, key.0);
    if image.Some? && workflow.Some? then Some(Get(image.value, workflow.value.field)) else None
  }

  ghost predicate TracksFirst(workflows: seq<Workflow>, images: seq<map<RowId, Row>>, tracked: Tracked) {
    forall key :: At(tracked, key) == FirstState(workflows, images, key)
  }

  /** Record the workflows' states in one before-image; an earlier record wins. */
  function TrackOne(workflows: seq<Workflow>, tracked: Tracked, id: RowId, before: Row): Tracked {
    if workflows == [] then tracked
    else
      var earlier := TrackOne(workflows[..|workflows| - 1], tracked, id, before);
      var w := workflows[|workflows| - 1];
      if (w.name, id) in earlier then earlier else earlier[(w.name, id) := Get(before, w.field)]
  }

  lemma {:induction false} TrackOneMeans(workflows: seq<Workflow>, tracked: Tracked, id: RowId, before: Row, key: (int, RowId))
    ensures At(TrackOne(workflows, tracked, id, before), key) ==
            if key in tracked then At(tracked, key)
            else if key.1 == id && Named(workflows, key.0).Some? then
              Some(Get(before, Named(workflows, key.0).value.field))
            else None
  {
    if workflows != [] {
      TrackOneMeans(workflows[..|workflows| - 1], tracked, id, before, key);
    }
  }

  /** The before-images of one statement, row by row. */
  function TrackAll(workflows: seq<Workflow>, tracked: Tracked, entries: seq<Entry>, pre: map<RowId, Row>): Tracked {
    if entries == [] then tracked
    else
      var earlier := TrackAll(workflows, tracked, entries[..|entries| - 1], pre);
      var id := entries[|entries| - 1].id;
      if id in pre then TrackOne(workflows, earlier, id, pre[id]) else earlier
  }

  function Images(entries: seq<Entry>, pre: map<RowId, Row>): map<RowId, Row> {
    map id | id in Elements(Ids(entries)) && id in pre :: pre[id]
  }

  lemma {:induction false} TrackAllMeans(workflows: seq<Workflow>, tracked: Tracked, entries: seq<Entry>,
                                         pre: map<RowId, Row>, key: (int, RowId))
    ensures At(TrackAll(workflows, tracked, entries, pre), key) ==
            if key in tracked then At(tracked, key)
            else if key.1 in Images(entries, pre) && Named(workflows, key.0).Some? then
              Some(Get(pre[key.1], Named(workflows, key.0).value.field))
            else None
  {
    if entries != [] {
      var init, id := entries[..|entries| - 1], entries[|entries| - 1].id;
      TrackAllMeans(workflows, tracked, init, pre, key);
      assert Ids(entries) == Ids(init) + [id];
      if id in pre {
        TrackOneMeans(workflows, TrackAll(workflows, tracked, init, pre), id, pre[id], key);
      }
    }
  }

  /** Recording a further statement keeps every row's first image. */
  lemma TrackingKeepsFirst(workflows: seq<Workflow>, images: seq<map<RowId, Row>>, tracked: Tracked,
                           entries: seq<Entry>, pre: map<RowId, Row>)
    requires TracksFirst(workflows, images, tracked)
    ensures TracksFirst(workflows, images + [Images(entries, pre)], TrackAll(workflows, tracked, entries, pre))
  {
    var more := images + [Images(entries, pre)];
    assert more[..|more| - 1] == images;
    forall key ensures At(TrackAll(workflows, tracked, entries, pre), key) == FirstState(workflows, more, key) {
      TrackAllMeans(workflows, tracked, entries, pre, key);
      assert At(tracked, key) == FirstState(workflows, images, key);
    }
  }

  predicate AllPass(rules: Rules, action: Action, pre: map<RowId, Row>, e: Effect) {
    forall i :: 0 <= i < |e.entries| ==> Passes(rules, action, pre, e.entries[i])
  }

  /** Both runs work, the probed rows all pass, and the write lists the same ids. */
  predicate GoesThrough(rules: Rules, action: Action, pre: map<RowId, Row>, statement: Statement, t1: Clock, t2: Clock) {
    && statement(pre, t1).Runs? && AllPass(rules, action, pre, statement(pre, t1).effect)
    && statement(pre, t2).Runs? && Ids(statement(pre, t2).effect.entries) == Ids(statement(pre, t1).effect.entries)
  }

  // ---- the command -----------------------------------------------------------------

  class Command {
    const rules: Rules
    var rows: map<RowId, Row>
    var savepoint: Option<map<RowId, Row>>
    var tracked: Tracked
    var events: seq<RowId>
    ghost var images: seq<map<RowId, Row>>
    ghost var applications: nat

    constructor (rules: Rules, rows: map<RowId, Row>)
      ensures this.rules == rules && this.rows == rows && Valid() && images == [] && applications == 0
    {
      this.rules, this.rows := rules, rows;
      savepoint, tracked, events, images, applications := None, map[], [], [], 0;
    }

    ghost predicate Valid()
      reads this
    {
      savepoint.None? && TracksFirst(rules.workflows, images, tracked)
    }

    /** Run the statement once. */
    method Run(statement: Statement, now: Clock) returns (entries: Option<seq<Entry>>)
      modifies this`rows
      ensures var x := statement(old(rows), now);
              && (x.Fails? ==> entries.None? && rows == old(rows))
              && (x.Runs? ==> entries == Some(x.effect.entries) && rows == x.effect.after)
    {
      match statement(rows, now) {
        case Fails => return None;
        case Runs(effect) =>
          rows := effect.after;
          return Some(effect.entries);
      }
    }

    /** Savepoint, run, roll back to it, release it: the rows the statement would
        return, and the table as it was. */
    method Probe(statement: Statement, now: Clock) returns (entries: Option<seq<Entry>>)
      requires savepoint.None?
      modifies this`rows, this`savepoint
      ensures var x := statement(old(rows), now);
              entries == if x.Runs? then Some(x.effect.entries) else None
      ensures rows == old(rows) && savepoint.None?
    {
      savepoint := Some(rows);
      entries := Run(statement, now);
      rows := savepoint.value;
      savepoint := None;
    }

    method CheckTransitions(before: Row, after: Row) returns (ok: bool)
      ensures ok <==> TransitionAllowed(rules, before, after)
    {
      for k := 0 to |rules.workflows|
        invariant forall j :: 0 <= j < k ==> MayMove(rules.workflows[j], rules.roles, before, after)
      {
        var w := rules.workflows[k];
        var from, to := Get(before, w.field), Get(after, w.field);
        if from != to {
          if (from, to) !in w.transitions {
            return false;
          }
          var t := w.transitions[(from, to)];
          if t.role.Some? && t.role.value !in rules.roles {
            return false;
          }
          if !t.condition(before) {
            return false;
          }
        }
      }
      ok := true;
    }

    method CheckStart(row: Row) returns (ok: bool)
      ensures ok <==> StartAllowed(rules, row)
    {
      for k := 0 to |rules.workflows|
        invariant forall j :: 0 <= j < k ==> rules.workflows[j].mayStart(Get(row, rules.workflows[j].field))
      {
        if !rules.workflows[k].mayStart(Get(row, rules.workflows[k].field)) {
          return false;
        }
      }
      ok := true;
    }

    /** Whether another user holds a lock on any row of the table. */
    method ForeignLocks(action: Action) returns (found: bool)
      ensures found <==> !action.Insert? && exists id :: id in rules.locks && rules.locks[id] != rules.actor
    {
      if action.Insert? {
        return false;
      }
      found := exists id | id in rules.locks :: rules.locks[id] != rules.actor;
    }

    /** The checks of one probed row, in the order they are made. */
    method CheckRow(action: Action, lockCheck: bool, e: Entry) returns (ok: bool, image: Option<Row>)
      requires !lockCheck ==> action.Insert? || forall id :: id in rules.locks ==> rules.locks[id] == rules.actor
      requires lockCheck ==> !action.Insert?
      ensures ok <==> Passes(rules, action, rows, e)
      ensures ok ==> image == OldImage(action, rows, e)
    {
      image := None;
      if lockCheck && e.id in rules.locks && rules.locks[e.id] != rules.actor {
        return false, None;
      }
      if action.Update? {
        if e.id !in rows {
          return false, None;
        }
        image := Some(rows[e.id]);
      } else if action.Delete? {
        image := Some(e.row);
      }
      if !action.Delete? && !rules.validate(e.row) {
        return false, image;
      }
      if action.Insert? {
        var start := CheckStart(e.row);
        if !start {
          return false, image;
        }
      }
      if rules.hasBefore && !rules.beforeHook(image, e.row) {
        return false, image;
      }
      if action.Update? {
        ok := CheckTransitions(image.value, e.row);
        return;
      }
      ok := true;
    }

    /** Every probed row is checked before anything is written, and its image
        before the write is kept. */
    method CheckRows(action: Action, lockCheck: bool, entries: seq<Entry>) returns (ok: bool, befores: seq<Option<Row>>)
      requires !lockCheck ==> action.Insert? || forall id :: id in rules.locks ==> rules.locks[id] == rules.actor
      requires lockCheck ==> !action.Insert?
      ensures ok <==> forall i :: 0 <= i < |entries| ==> Passes(rules, action, rows, entries[i])
      ensures ok ==> |befores| == |entries| &&
                     forall i :: 0 <= i < |entries| ==> befores[i] == OldImage(action, rows, entries[i])
    {
      befores := [];
      for i := 0 to |entries|
        invariant |befores| == i
        invariant forall j :: 0 <= j < i ==> Passes(rules, action, rows, entries[j])
        invariant forall j :: 0 <= j < i ==> befores[j] == OldImage(action, rows, entries[j])
      {
        var passed, image := CheckRow(action, lockCheck, entries[i]);
        if !passed {
          return false, befores;
        }
        befores := befores + [image];
      }
      ok := true;
    }

    /** Remember the workflow states before the command's first update of a row. */
    method TrackBeforeImage(id: RowId, before: Row)
      modifies this`tracked
      ensures tracked == TrackOne(rules.workflows, old(tracked), id, before)
    {
      for k := 0 to |rules.workflows|
        invariant tracked == TrackOne(rules.workflows[..k], old(tracked), id, before)
      {
        assert rules.workflows[..k + 1][..k] == rules.workflows[..k];
        var key := (rules.workflows[k].name, id);
        if key !in tracked {
          tracked := tracked[key := Get(before, rules.workflows[k].field)];
        }
      }
      assert rules.workflows[..|rules.workflows|] == rules.workflows;
    }

    /** The hooked write. On success the statement has been applied once more, its
        rows are those the probe listed in the same order, every probed row passed
        every check against the state before the write, and the workflow states
        before the command's first update of each row are remembered; if what the
        statement lists does not depend on the clock, every row written passed. On
        failure the caller rolls the whole command back. */
    method ExecuteHookedWrite(action: Action, statement: Statement, probedAt: Clock, wroteAt: Clock,
                              expectRows: nat -> bool, hooksOk: bool)
      returns (affected: Option<nat>)
      requires Valid() && CoherentAlways(action, rows, statement)
      modifies this
      ensures Valid()
      ensures affected.Some? <==>
                GoesThrough(rules, action, old(rows), statement, probedAt, wroteAt) &&
                var n := |statement(old(rows), wroteAt).effect.entries|;
                expectRows(n) && (n == 0 || !rules.hasAfter || hooksOk)
      ensures affected.Some? ==>
                var probe, final := statement(old(rows), probedAt), statement(old(rows), wroteAt);
                && probe.Runs? && final.Runs? && rows == final.effect.after
                && Ids(final.effect.entries) == Ids(probe.effect.entries)
                && AllPass(rules, action, old(rows), probe.effect)
                && (ClockFree(action, old(rows), statement) ==> AllPass(rules, action, old(rows), final.effect))
                && affected.value == |final.effect.entries| && expectRows(affected.value)
                && applications == old(applications) + 1
                && images == old(images) + (if action.Update? then [Images(final.effect.entries, old(rows))] else [])
                && events == old(events) + (if rules.hasAfter then Ids(final.effect.entries) else [])
      ensures affected.None? ==>
                rows == old(rows) ||
                (statement(old(rows), wroteAt).Runs? && rows == statement(old(rows), wroteAt).effect.after &&
                 applications == old(applications) + 1)
      ensures rows == old(rows) || applications == old(applications) + 1
    {
      ghost var pre := rows;
      var returned, befores := ProbeAndWrite(action, statement, probedAt, wroteAt);
      if returned.None? {
        return None;
      }
      affected := Some(|returned.value|);
      if !expectRows(|returned.value|) {
        return None;
      }
      if action.Update? {
        Remember(returned.value, befores, pre);
      }
      var ok := RunAfter(returned.value, hooksOk);
      if !ok {
        affected := None;
      }
    }

    /** The after-hooks, once per row in order. */
    method RunAfter(entries: seq<Entry>, hooksOk: bool) returns (ok: bool)
      modifies this`events
      ensures ok <==> |entries| == 0 || !rules.hasAfter || hooksOk
      ensures ok ==> events == old(events) + (if rules.hasAfter then Ids(entries) else [])
      ensures !ok ==> events == old(events)
    {
      if |entries| == 0 || !rules.hasAfter {
        return true;
      }
      if !hooksOk {
        return false;
      }
      events := events + Ids(entries);
      ok := true;
    }

    /** Probe, check every probed row, write, compare the ids. */
    method ProbeAndWrite(action: Action, statement: Statement, probedAt: Clock, wroteAt: Clock)
      returns (returned: Option<seq<Entry>>, befores: seq<Option<Row>>)
      requires savepoint.None?
      modifies this`rows, this`savepoint, this`applications
      ensures savepoint.None?
      ensures returned.Some? <==> GoesThrough(rules, action, old(rows), statement, probedAt, wroteAt)
      ensures returned.Some? ==>
                var probe, final := statement(old(rows), probedAt), statement(old(rows), wroteAt);
                && probe.Runs? && final.Runs? && rows == final.effect.after
                && returned.value == final.effect.entries && Ids(final.effect.entries) == Ids(probe.effect.entries)
                && AllPass(rules, action, old(rows), probe.effect)
                && (ClockFree(action, old(rows), statement) ==> AllPass(rules, action, old(rows), final.effect))
                && applications == old(applications) + 1 && |befores| == |returned.value|
                && (action.Update? ==> forall i :: 0 <= i < |befores| ==>
                      returned.value[i].id in old(rows) && befores[i] == Some(old(rows)[returned.value[i].id]))
      ensures returned.None? ==>
                rows == old(rows) ||
                (statement(old(rows), wroteAt).Runs? && rows == statement(old(rows), wroteAt).effect.after)
      ensures applications == old(applications) + 1 || (rows == old(rows) && applications == old(applications))
    {
      ghost var pre := rows;
      var lockCheck := ForeignLocks(action);
      var probed := Probe(statement, probedAt);
      if probed.None? {
        return None, [];
      }
      var ok;
      ok, befores := CheckRows(action, lockCheck, probed.value);
      if !ok {
        return None, [];
      }
      returned := Run(statement, wroteAt);
      if returned.None? {
        return None, [];
      }
      applications := applications + 1;
      if Ids(returned.value) != Ids(probed.value) {
        return None, [];
      }
      ghost var probe, final := statement(pre, probedAt).effect, statement(pre, wroteAt).effect;
      assert AllPass(rules, action, pre, probe);
      CoveredIfClockFree(rules, action, pre, statement, probedAt, wroteAt);
      if action.Update? {
        BeforesFit(rules, pre, probe.entries, final.entries, befores);
      }
    }

    method Remember(entries: seq<Entry>, befores: seq<Option<Row>>, ghost pre: map<RowId, Row>)
      requires Valid() && |befores| == |entries|
      requires forall i :: 0 <= i < |entries| ==> entries[i].id in pre && befores[i] == Some(pre[entries[i].id])
      modifies this`tracked, this`images
      ensures Valid() && images == old(images) + [Images(entries, pre)]
    {
      ghost var start := tracked;
      for i := 0 to |entries|
        invariant tracked == TrackAll(rules.workflows, start, entries[..i], pre)
        invariant images == old(images) && rows == old(rows)
      {
        assert entries[..i + 1][..i] == entries[..i];
        TrackBeforeImage(entries[i].id, befores[i].value);
      }
      assert entries[..|entries|] == entries;
      TrackingKeepsFirst(rules.workflows, images, start, entries, pre);
      images := images + [Images(entries, pre)];
    }
  }

  lemma BeforesFit(rules: Rules, pre: map<RowId, Row>, probe: seq<Entry>, final: seq<Entry>, befores: seq<Option<Row>>)
    requires Ids(probe) == Ids(final) && |befores| == |probe|
    requires forall i :: 0 <= i < |probe| ==> Passes(rules, Action.Update, pre, probe[i])
    requires forall i :: 0 <= i < |probe| ==> befores[i] == OldImage(Action.Update, pre, probe[i])
    ensures forall i :: 0 <= i < |befores| ==> final[i].id in pre && befores[i] == Some(pre[final[i].id])
  {
    forall i | 0 <= i < |befores| ensures final[i].id in pre && befores[i] == Some(pre[final[i].id]) {
      assert Ids(probe)[i] == Ids(final)[i];
      assert Passes(rules, Action.Update, pre, probe[i]);
    }
  }

  // ---- what a successful write changed ------------------------------------------------

  lemma {:induction false} DistinctSize(s: seq<RowId>)
    requires Distinct(s)
    ensures |Elements(s)| == |s|
  {
    if s != [] {
      var init, last := s[..|s| - 1], s[|s| - 1];
      DistinctSize(init);
      assert s == init + [last];
      assert last !in init;
      assert Elements(s) == Elements(init) + {last};
    }
  }

  lemma SameSizeSubset(a: set<RowId>, b: set<RowId>)
    requires a <= b && |a| == |b|
    ensures a == b
  {
    assert b == a + (b - a);
    assert |b - a| == 0;
  }

  /** A checked write changes exactly the rows it lists: rows outside the list
      keep their content, and no row changed its id, since every listed id of an
      update was found before the write. */
  lemma OnlyListedRowsChange(rules: Rules, action: Action, pre: map<RowId, Row>, probe: Effect, final: Effect, id: RowId)
    requires Coherent(action, pre, final) && Ids(final.entries) == Ids(probe.entries)
    requires forall i :: 0 <= i < |probe.entries| ==> Passes(rules, action, pre, probe.entries[i])
    requires id !in Ids(probe.entries)
    ensures id in pre <==> id in final.after
    ensures id in pre ==> final.after[id] == pre[id]
  {
    if action.Update? {
      var gone, come := Elements(Befores(final.entries)), Elements(Ids(final.entries));
      forall x | x in come ensures x in pre {
        var i :| 0 <= i < |final.entries| && Ids(final.entries)[i] == x;
        assert Passes(rules, action, pre, probe.entries[i]);
      }
      DistinctSize(Ids(final.entries));
      DistinctSize(Befores(final.entries));
      SameSizeSubset(come, gone);
    }
  }

  // ---- what the checks say about the rows really written --------------------------------

  predicate SameImages(probe: Effect, final: Effect) {
    |probe.entries| == |final.entries| && forall i :: 0 <= i < |probe.entries| ==> probe.entries[i].row == final.entries[i].row
  }

  /** Runs at this reading, and an update lists rows that were there. */
  predicate Lists(action: Action, pre: map<RowId, Row>, statement: Statement, t: Clock) {
    && statement(pre, t).Runs?
    && (action.Update? ==>
          forall i :: 0 <= i < |statement(pre, t).effect.entries| ==> statement(pre, t).effect.entries[i].id in pre)
  }

  /** Two readings between which the comparison of ids finds no difference. */
  predicate SameIds(action: Action, pre: map<RowId, Row>, statement: Statement, t1: Clock, t2: Clock) {
    && Lists(action, pre, statement, t1) && statement(pre, t2).Runs?
    && Ids(statement(pre, t1).effect.entries) == Ids(statement(pre, t2).effect.entries)
  }

  /** The rows the statement lists are determined by their ids: the clock does not
      show in them. A property of statement and table, before any run. */
  ghost predicate ClockFree(action: Action, pre: map<RowId, Row>, statement: Statement) {
    forall t1: Clock, t2: Clock :: SameIds(action, pre, statement, t1, t2) ==>
      SameImages(statement(pre, t1).effect, statement(pre, t2).effect)
  }

  /** Whatever the rules and the two clock readings, checking the probed rows
      checks the rows written. */
  ghost predicate ChecksCover(action: Action, pre: map<RowId, Row>, statement: Statement) {
    forall rules: Rules, t1: Clock, t2: Clock :: SameIds(action, pre, statement, t1, t2) ==>
      AllPass(rules, action, pre, statement(pre, t1).effect) ==> AllPass(rules, action, pre, statement(pre, t2).effect)
  }

  /** A row shows its own id. */
  ghost predicate RowsShowIds(pre: map<RowId, Row>, statement: Statement, idColumn: Column) {
    forall t: Clock :: statement(pre, t).Runs? ==> ShowsIds(statement(pre, t).effect, idColumn)
  }

  predicate ShowsIds(e: Effect, idColumn: Column) {
    forall i :: 0 <= i < |e.entries| ==> Get(e.entries[i].row, idColumn) == e.entries[i].id
  }

  /** Rules that accept, for each listed id, exactly the row listed. */
  function Exactly(e: Effect, idColumn: Column): Rules {
    Rules(0, {}, map[],
          row => forall j :: 0 <= j < |e.entries| && Get(row, idColumn) == e.entries[j].id ==> row == e.entries[j].row,
          false, (image, row) => true, [], false)
  }

  /** The checks are made on the probe's rows. They hold of the rows written,
      whatever the rules and the clock, exactly when the clock does not show in
      what the statement lists. */
  lemma ChecksCoverIffClockFree(action: Action, pre: map<RowId, Row>, statement: Statement, idColumn: Column)
    requires CoherentAlways(action, pre, statement) && RowsShowIds(pre, statement, idColumn)
    ensures ChecksCover(action, pre, statement) <==> ClockFree(action, pre, statement)
  {
    if ClockFree(action, pre, statement) {
      forall rules: Rules, t1: Clock, t2: Clock |
        SameIds(action, pre, statement, t1, t2) && AllPass(rules, action, pre, statement(pre, t1).effect)
        ensures AllPass(rules, action, pre, statement(pre, t2).effect)
      {
        SameImagesPass(rules, action, pre, statement(pre, t1).effect, statement(pre, t2).effect);
      }
    }
    if ChecksCover(action, pre, statement) {
      forall t1: Clock, t2: Clock | SameIds(action, pre, statement, t1, t2)
        ensures SameImages(statement(pre, t1).effect, statement(pre, t2).effect)
      {
        var probe, final := statement(pre, t1).effect, statement(pre, t2).effect;
        if !action.Delete? {
          ExactlyPasses(action, pre, probe, idColumn);
          ExactlyTells(action, pre, probe, final, idColumn);
        } else {
          DeletesListWhatWas(pre, probe, final);
        }
      }
    }
  }

  lemma DeletesListWhatWas(pre: map<RowId, Row>, probe: Effect, final: Effect)
    requires Coherent(Delete, pre, probe) && Coherent(Delete, pre, final) && Ids(probe.entries) == Ids(final.entries)
    ensures SameImages(probe, final)
  {
    forall i | 0 <= i < |probe.entries| ensures probe.entries[i].row == final.entries[i].row {
      assert Ids(probe.entries)[i] == Ids(final.entries)[i];
    }
  }

  lemma SameImagesPass(rules: Rules, action: Action, pre: map<RowId, Row>, probe: Effect, final: Effect)
    requires SameImages(probe, final) && Ids(probe.entries) == Ids(final.entries)
    requires AllPass(rules, action, pre, probe)
    ensures AllPass(rules, action, pre, final)
  {
    forall i | 0 <= i < |final.entries| ensures Passes(rules, action, pre, final.entries[i]) {
      assert Passes(rules, action, pre, probe.entries[i]);
      assert Ids(probe.entries)[i] == Ids(final.entries)[i];
    }
  }

  lemma ExactlyPasses(action: Action, pre: map<RowId, Row>, e: Effect, idColumn: Column)
    requires !action.Delete? && Coherent(action, pre, e) && ShowsIds(e, idColumn)
    requires action.Update? ==> forall i :: 0 <= i < |e.entries| ==> e.entries[i].id in pre
    ensures AllPass(Exactly(e, idColumn), action, pre, e)
  {
    forall i, j | 0 <= i < |e.entries| && 0 <= j < |e.entries| && e.entries[i].id == e.entries[j].id ensures i == j {
      assert Ids(e.entries)[i] == Ids(e.entries)[j];
    }
  }

  lemma ExactlyTells(action: Action, pre: map<RowId, Row>, probe: Effect, final: Effect, idColumn: Column)
    requires !action.Delete? && Ids(probe.entries) == Ids(final.entries) && ShowsIds(final, idColumn)
    requires AllPass(Exactly(probe, idColumn), action, pre, final)
    ensures SameImages(probe, final)
  {
    forall i | 0 <= i < |probe.entries| ensures probe.entries[i].row == final.entries[i].row {
      assert Passes(Exactly(probe, idColumn), action, pre, final.entries[i]);
      assert Ids(probe.entries)[i] == Ids(final.entries)[i];
    }
  }

  lemma CoveredIfClockFree(rules: Rules, action: Action, pre: map<RowId, Row>, statement: Statement, t1: Clock, t2: Clock)
    requires statement(pre, t1).Runs? && statement(pre, t2).Runs?
    requires Ids(statement(pre, t1).effect.entries) == Ids(statement(pre, t2).effect.entries)
    requires AllPass(rules, action, pre, statement(pre, t1).effect)
    ensures ClockFree(action, pre, statement) ==> AllPass(rules, action, pre, statement(pre, t2).effect)
  {
    assert forall i :: 0 <= i < |statement(pre, t1).effect.entries| ==>
             Passes(rules, action, pre, statement(pre, t1).effect.entries[i]);
    if ClockFree(action, pre, statement) {
      assert SameIds(action, pre, statement, t1, t2);
      SameImagesPass(rules, action, pre, statement(pre, t1).effect, statement(pre, t2).effect);
    }
  }

  // ---- a statement's text --------------------------------------------------------------

  /** A scalar expression over the row, which may call a date function. */
  datatype Expr = Literal(value: Value) | Field(column: Column) | Now | Apply(op: (Value, Value) -> Value, left: Expr, right: Expr)

  function Eval(e: Expr, row: Row, now: Clock): Value {
    match e
    case Literal(v) => v
    case Field(c) => Get(row, c)
    case Now => now
    case Apply(op, left, right) => op(Eval(left, row, now), Eval(right, row, now))
  }

  predicate CallsClock(e: Expr) {
    match e
    case Now => true
    case Apply(_, left, right) => CallsClock(left) || CallsClock(right)
    case _ => false
  }

  lemma {:induction false} EvalWithoutClock(e: Expr, row: Row, t1: Clock, t2: Clock)
    requires !CallsClock(e)
    ensures Eval(e, row, t1) == Eval(e, row, t2)
    decreases e
  {
    match e
    case Apply(_, left, right) =>
      EvalWithoutClock(left, row, t1, t2);
      EvalWithoutClock(right, row, t1, t2);
    case _ =>
  }

  /** UPDATE ... SET column = value WHERE the condition is not zero, in the order
      the table is read. */
  datatype Assignment = Assignment(column: Column, value: Expr, where: Expr, order: map<RowId, Row> -> seq<RowId>)

  function Hits(u: Assignment, pre: map<RowId, Row>, now: Clock, ids: seq<RowId>): (hits: seq<RowId>)
    ensures forall i :: 0 <= i < |hits| ==> hits[i] in pre && hits[i] in ids
  {
    if ids == [] then []
    else
      var last := ids[|ids| - 1];
      Hits(u, pre, now, ids[..|ids| - 1]) + (if last in pre && Eval(u.where, pre[last], now) != 0 then [last] else [])
  }

  lemma {:induction false} HitsAreDistinct(u: Assignment, pre: map<RowId, Row>, now: Clock, ids: seq<RowId>)
    requires Distinct(ids)
    ensures Distinct(Hits(u, pre, now, ids))
  {
    if ids != [] {
      var init := ids[..|ids| - 1];
      HitsAreDistinct(u, pre, now, init);
      assert ids[|ids| - 1] !in init;
    }
  }

  function Written(u: Assignment, row: Row, now: Clock): Row { row[u.column := Eval(u.value, row, now)] }

  function Assigned(u: Assignment, pre: map<RowId, Row>, now: Clock, hits: seq<RowId>): (e: Effect)
    requires forall i :: 0 <= i < |hits| ==> hits[i] in pre
    ensures Ids(e.entries) == hits
    ensures forall i :: 0 <= i < |e.entries| ==>
              e.entries[i].id == e.entries[i].before == hits[i] && e.entries[i].row == Written(u, pre[hits[i]], now)
  {
    Effect(map id | id in pre :: if id in hits then Written(u, pre[id], now) else pre[id],
           seq(|hits|, i requires 0 <= i < |hits| => Entry(hits[i], hits[i], Written(u, pre[hits[i]], now))))
  }

  function AsStatement(u: Assignment): Statement {
    (pre: map<RowId, Row>, now: Clock) => Runs(Assigned(u, pre, now, Hits(u, pre, now, u.order(pre))))
  }

  lemma AssignedIsCoherent(u: Assignment, pre: map<RowId, Row>, now: Clock, hits: seq<RowId>)
    requires Distinct(hits) && forall i :: 0 <= i < |hits| ==> hits[i] in pre
    ensures Coherent(Update, pre, Assigned(u, pre, now, hits))
  {
    var e := Assigned(u, pre, now, hits);
    assert Befores(e.entries) == hits;
  }

  lemma AssignmentIsCoherent(u: Assignment, pre: map<RowId, Row>)
    requires Distinct(u.order(pre))
    ensures CoherentAlways(Update, pre, AsStatement(u))
  {
    forall t: Clock ensures Coherent(Update, pre, AsStatement(u)(pre, t).effect) {
      HitsAreDistinct(u, pre, t, u.order(pre));
      AssignedIsCoherent(u, pre, t, Hits(u, pre, t, u.order(pre)));
    }
  }

  /** What a caller can read off the text: an assignment that calls no date
      function is covered by the checks. The condition may call one, since the
      comparison of ids sees what it changes. */
  lemma AssignmentWithoutClockIsCovered(u: Assignment, pre: map<RowId, Row>)
    requires Distinct(u.order(pre)) && !CallsClock(u.value)
    ensures ClockFree(Update, pre, AsStatement(u)) && ChecksCover(Update, pre, AsStatement(u))
  {
    var statement := AsStatement(u);
    forall t1: Clock, t2: Clock | SameIds(Update, pre, statement, t1, t2)
      ensures SameImages(statement(pre, t1).effect, statement(pre, t2).effect)
    {
      var hits := Hits(u, pre, t1, u.order(pre));
      assert hits == Hits(u, pre, t2, u.order(pre));
      forall i | 0 <= i < |hits| ensures Written(u, pre[hits[i]], t1) == Written(u, pre[hits[i]], t2) {
        EvalWithoutClock(u.value, pre[hits[i]], t1, t2);
      }
    }
    forall rules: Rules, t1: Clock, t2: Clock |
      SameIds(Update, pre, statement, t1, t2) && AllPass(rules, Update, pre, statement(pre, t1).effect)
      ensures AllPass(rules, Update, pre, statement(pre, t2).effect)
    {
      SameImagesPass(rules, Update, pre, statement(pre, t1).effect, statement(pre, t2).effect);
    }
  }

  function NotAfter(column: Column, deadline: Clock): Rules {
    Rules(0, {}, map[], row => Get(row, column) <= deadline, false, (image, row) => true, [], false)
  }

  function Stamping(id: RowId, column: Column): Assignment { Assignment(column, Now, Literal(1), rows => [id]) }

  /** An assignment of the clock is not: probed before a deadline and written after
      it, the row written fails the validator that the probed one passed, with the
      same ids in the same order. */
  lemma AssignedClockEscapesTheChecks(id: RowId, column: Column, deadline: Clock, row: Row)
    ensures var rules, pre, statement := NotAfter(column, deadline), map[id := row], AsStatement(Stamping(id, column));
            && CoherentAlways(Update, pre, statement) && SameIds(Update, pre, statement, deadline, deadline + 1)
            && AllPass(rules, Update, pre, statement(pre, deadline).effect)
            && !AllPass(rules, Update, pre, statement(pre, deadline + 1).effect)
            && !ChecksCover(Update, pre, statement)
  {
    var rules, pre, statement := NotAfter(column, deadline), map[id := row], AsStatement(Stamping(id, column));
    AssignmentIsCoherent(Stamping(id, column), pre);
    ClockIsListed(Stamping(id, column), pre, id, deadline);
    ClockIsListed(Stamping(id, column), pre, id, deadline + 1);
    StampPassesUntil(id, column, deadline, row, deadline);
    StampPassesUntil(id, column, deadline, row, deadline + 1);
    assert SameIds(Update, pre, statement, deadline, deadline + 1);
  }

  lemma StampPassesUntil(id: RowId, column: Column, deadline: Clock, row: Row, t: Clock)
    ensures var pre := map[id := row];
            AllPass(NotAfter(column, deadline), Update, pre, AsStatement(Stamping(id, column))(pre, t).effect) <==> t <= deadline
  {
    var pre := map[id := row];
    ClockIsListed(Stamping(id, column), pre, id, t);
    var e := Entry(id, id, row[column := t]);
    assert AsStatement(Stamping(id, column))(pre, t).effect.entries == [e];
    assert Passes(NotAfter(column, deadline), Update, pre, e) <==> t <= deadline;
  }

  lemma ClockIsListed(u: Assignment, pre: map<RowId, Row>, id: RowId, t: Clock)
    requires u.value == Now && u.where == Literal(1) && u.order(pre) == [id] && pre.Keys == {id}
    ensures var e := AsStatement(u)(pre, t).effect;
            Ids(e.entries) == [id] && e.entries == [Entry(id, id, pre[id][u.column := t])]
  {
    assert [id][..0] == [];
    assert Hits(u, pre, t, []) == [];
    assert Hits(u, pre, t, [id]) == [id];
  }
}
