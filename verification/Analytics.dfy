/** The pageview beacon (analytics.go:287-332, 592-607): visitors, events and
    incremental sessions, in one transaction. Every statement reads the clock for
    itself. Session ids are fresh when drawn. */
module Analytics {
  import opened Wrappers

  type Visitor = int
  type Session = int
  type User = int

  const NOBODY: User := 0
  const SESSION_GAP := 1800

  datatype Event = Event(visitor: Visitor, session: Session, created: int, entry: bool, exit: bool, bounce: bool)

  datatype Counts = Counts(user: User, lastSeen: int, sessions: nat, pageviews: nat)

  /** The tables; an event's row id is its position. */
  datatype State = State(events: seq<Event>, visitors: map<Visitor, Counts>)

  /** One beacon, with the clock as the visitor upsert, the session lookup and the
      event's insert read it. */
  datatype Visit = Visit(visitor: Visitor, user: User, seen: int, looked: int, created: int, drawn: Session)

  // ---- one beacon ------------------------------------------------------------------

  /** The visitor's newest event created within the gap; its session goes on. */
  function Recent(events: seq<Event>, v: Visitor, now: int): (k: nat)
    ensures k <= |events|
    ensures k < |events| ==> events[k].visitor == v && events[k].created > now - SESSION_GAP
    ensures k < |events| ==> forall i :: k < i < |events| ==> events[i].visitor != v || events[i].created <= now - SESSION_GAP
    ensures k == |events| ==> forall i :: 0 <= i < |events| ==> events[i].visitor != v || events[i].created <= now - SESSION_GAP
  {
    if events == [] then 0
    else
      var last := |events| - 1;
      if events[last].visitor == v && events[last].created > now - SESSION_GAP then last
      else
        var k := Recent(events[..last], v, now);
        if k < last then k else |events|
  }

  function Superseded(e: Event, session: Session): Event {
    if e.session == session then e.(bounce := false, exit := false) else e
  }

  function Earlier(events: seq<Event>, session: Session): (r: seq<Event>)
    ensures |r| == |events| && forall i :: 0 <= i < |events| ==> r[i] == Superseded(events[i], session)
  {
    seq(|events|, i requires 0 <= i < |events| => Superseded(events[i], session))
  }

  function Seen(visitors: map<Visitor, Counts>, v: Visitor, user: User, now: int, first: bool): map<Visitor, Counts> {
    var c := if v in visitors then visitors[v] else Counts(NOBODY, now, 0, 0);
    visitors[v := Counts(if c.user == NOBODY then user else c.user, now,
                         c.sessions + (if first then 1 else 0), c.pageviews + 1)]
  }

  /** The session the lookup finds, or the one it draws. */
  function SessionOf(events: seq<Event>, x: Visit): Session {
    var k := Recent(events, x.visitor, x.looked);
    if k == |events| then x.drawn else events[k].session
  }

  function NewEvent(events: seq<Event>, x: Visit): Event {
    Event(x.visitor, SessionOf(events, x), x.created, Recent(events, x.visitor, x.looked) == |events|, true, true)
  }

  function Record(s: State, x: Visit): State {
    var e := NewEvent(s.events, x);
    State(Earlier(s.events, e.session) + [e], Seen(s.visitors, x.visitor, x.user, x.seen, e.entry))
  }

  class Beacon {
    var events: seq<Event>
    var visitors: map<Visitor, Counts>

    constructor ()
      ensures Tables() == State([], map[])
    {
      events, visitors := [], map[];
    }

    function Tables(): State
      reads this
    {
      State(events, visitors)
    }

    method UpsertVisitor(v: Visitor, user: User, now: int)
      modifies this`visitors
      ensures visitors == Seen(old(visitors), v, user, now, false)
    {
      if v in visitors {
        var c := visitors[v];
        visitors := visitors[v := Counts(if c.user == NOBODY then user else c.user, now, c.sessions, c.pageviews + 1)];
      } else {
        visitors := visitors[v := Counts(user, now, 0, 1)];
      }
    }

    /** Newest first: the session of the first event within the gap. */
    method ResolveSession(v: Visitor, now: int) returns (found: Option<Session>)
      ensures var k := Recent(events, v, now); found == if k < |events| then Some(events[k].session) else None
    {
      var i := |events|;
      while i > 0
        invariant 0 <= i <= |events|
        invariant forall j :: i <= j < |events| ==> events[j].visitor != v || events[j].created <= now - SESSION_GAP
      {
        i := i - 1;
        if events[i].visitor == v && events[i].created > now - SESSION_GAP {
          return Some(events[i].session);
        }
      }
      found := None;
    }

    /** The last update: every other event of the session stops being its exit. */
    method SupersedeExits(session: Session, except: nat)
      requires except == |events| - 1
      modifies this`events
      ensures events == Earlier(old(events)[..except], session) + [old(events)[except]]
    {
      var rows := events;
      for i := 0 to |rows|
        invariant |events| == |rows|
        invariant forall j :: 0 <= j < i && j != except ==> events[j] == Superseded(rows[j], session)
        invariant forall j :: 0 <= j < |rows| && (j >= i || j == except) ==> events[j] == rows[j]
      {
        if rows[i].session == session && i != except {
          events := events[i := rows[i].(bounce := false, exit := false)];
        }
      }
      assert events == Earlier(rows[..except], session) + [rows[except]];
    }

    /** One pageview; a failed statement or COMMIT leaves the tables as they were. */
    method Pageview(x: Visit, failsAt: nat, commits: bool) returns (ok: bool)
      modifies this
      ensures Tables() == if ok then Record(old(Tables()), x) else old(Tables())
      ensures ok <==> failsAt >= 6 && commits
    {
      var saved := Tables();
      if failsAt == 0 {
        return false;
      }
      UpsertVisitor(x.visitor, x.user, x.seen);
      var found := ResolveSession(x.visitor, x.looked);
      var session := if found.Some? then found.value else x.drawn;
      if found.None? {
        visitors := visitors[x.visitor := visitors[x.visitor].(sessions := visitors[x.visitor].sessions + 1)];
      }
      events := events + [Event(x.visitor, session, x.created, false, false, true)];
      var id := |events| - 1;
      events := events[id := events[id].(entry := found.None?, exit := true)];
      SupersedeExits(session, id);
      if failsAt < 6 || !commits {
        events, visitors := saved.events, saved.visitors;
        return false;
      }
      ok := true;
      assert events == Earlier(saved.events, session) + [NewEvent(saved.events, x)];
      assert visitors == Seen(saved.visitors, x.visitor, x.user, x.seen, found.None?);
    }
  }

  // ---- what every run keeps, whatever the clock does -----------------------------------

  predicate SameVisitor(events: seq<Event>) {
    forall i, j :: 0 <= i < |events| && 0 <= j < |events| && events[i].session == events[j].session ==>
      events[i].visitor == events[j].visitor
  }

  predicate IsFirst(events: seq<Event>, i: nat)
    requires i < |events|
  {
    forall j :: 0 <= j < i ==> events[j].session != events[i].session
  }

  predicate IsLast(events: seq<Event>, i: nat)
    requires i < |events|
  {
    forall j :: i < j < |events| ==> events[j].session != events[i].session
  }

  /** Each session has exactly one entry row, its first, and one exit row, its
      last, which is also the one that carries the bounce flag. */
  predicate EntriesAndExits(events: seq<Event>) {
    && (forall i :: 0 <= i < |events| ==> (events[i].entry <==> IsFirst(events, i)))
    && (forall i :: 0 <= i < |events| ==> (events[i].exit <==> IsLast(events, i)))
    && (forall i :: 0 <= i < |events| ==> (events[i].bounce <==> events[i].exit))
  }

  function Pageviews(events: seq<Event>, v: Visitor): nat {
    if events == [] then 0
    else Pageviews(events[..|events| - 1], v) + (if events[|events| - 1].visitor == v then 1 else 0)
  }

  /** Sessions are counted by their entry rows, of which each has one. */
  function Sessions(events: seq<Event>, v: Visitor): nat {
    if events == [] then 0
    else
      Sessions(events[..|events| - 1], v) +
      (if events[|events| - 1].visitor == v && events[|events| - 1].entry then 1 else 0)
  }

  predicate CountsOf(s: State, v: Visitor) {
    && (v in s.visitors <==> Pageviews(s.events, v) > 0)
    && (v in s.visitors ==>
          s.visitors[v].pageviews == Pageviews(s.events, v) && s.visitors[v].sessions == Sessions(s.events, v))
  }

  ghost predicate CountsMatch(s: State) { forall v: Visitor :: CountsOf(s, v) }

  ghost predicate Valid(s: State) { SameVisitor(s.events) && EntriesAndExits(s.events) && CountsMatch(s) }

  function SessionIds(events: seq<Event>, v: Visitor): set<Session> {
    set e | e in events && e.visitor == v :: e.session
  }

  lemma SessionIdsGrow(init: seq<Event>, last: Event, v: Visitor)
    ensures SessionIds(init + [last], v) == SessionIds(init, v) + (if last.visitor == v then {last.session} else {})
  {
    var all := init + [last];
    forall e | e in all ensures e in init || e == last {
    }
    assert last in all;
    assert forall e :: e in init ==> e in all;
  }

  lemma SplitLast(events: seq<Event>)
    requires events != []
    ensures events == events[..|events| - 1] + [events[|events| - 1]]
  {
  }

  lemma NoSessionIds(v: Visitor)
    ensures SessionIds([], v) == {}
  {
  }

  lemma KnownSession(events: seq<Event>, j: nat, v: Visitor)
    requires j < |events| && events[j].visitor == v
    ensures events[j].session in SessionIds(events, v)
  {
    assert events[j] in events;
  }

  lemma NewSession(events: seq<Event>, session: Session, v: Visitor)
    requires forall j :: 0 <= j < |events| ==> events[j].session != session
    ensures session !in SessionIds(events, v)
  {
  }

  predicate EntriesFirst(events: seq<Event>) {
    SameVisitor(events) && forall i :: 0 <= i < |events| ==> (events[i].entry <==> IsFirst(events, i))
  }

  lemma PrefixKeepsEntries(init: seq<Event>, last: Event)
    requires EntriesFirst(init + [last])
    ensures EntriesFirst(init)
  {
    var all := init + [last];
    forall i, j | 0 <= i < |init| && 0 <= j < |init| && init[i].session == init[j].session
      ensures init[i].visitor == init[j].visitor
    {
      assert all[i] == init[i] && all[j] == init[j];
    }
    forall i | 0 <= i < |init| ensures init[i].entry <==> IsFirst(init, i) {
      assert all[i] == init[i];
      assert forall j :: 0 <= j < i ==> all[j] == init[j];
      assert IsFirst(all, i) <==> IsFirst(init, i);
    }
  }

  /** The last event brings a session id the earlier ones of the visitor do not
      have exactly when it is an entry. */
  lemma LastIsNewIfEntry(init: seq<Event>, last: Event)
    requires EntriesFirst(init + [last])
    ensures last.session in SessionIds(init, last.visitor) <==> !last.entry
  {
    var all, n := init + [last], |init|;
    assert all[n] == last;
    if IsFirst(all, n) {
      forall j | 0 <= j < n ensures init[j].session != last.session {
        assert all[j] == init[j];
      }
      NewSession(init, last.session, last.visitor);
    } else {
      var j :| 0 <= j < n && all[j].session == last.session;
      assert all[j] == init[j];
      KnownSession(init, j, last.visitor);
    }
  }

  lemma AddOne(before: set<Session>, after: set<Session>, x: Session, counts: bool, isNew: bool)
    requires after == before + (if counts then {x} else {})
    requires counts ==> (x in before <==> !isNew)
    ensures |after| == |before| + (if counts && isNew then 1 else 0)
  {
    if counts && !isNew {
      assert after == before;
    }
  }

  lemma CountOneMoreSession(init: seq<Event>, last: Event, v: Visitor)
    requires last.visitor == v ==> (last.session in SessionIds(init, v) <==> !last.entry)
    requires Sessions(init, v) == |SessionIds(init, v)|
    ensures Sessions(init + [last], v) == |SessionIds(init + [last], v)|
  {
    CountsOneMore(init, last, v);
    SessionIdsGrow(init, last, v);
    AddOne(SessionIds(init, v), SessionIds(init + [last], v), last.session, last.visitor == v, last.entry);
  }

  lemma EntriesCountOneMore(init: seq<Event>, last: Event, v: Visitor)
    requires EntriesFirst(init + [last]) && Sessions(init, v) == |SessionIds(init, v)|
    ensures Sessions(init + [last], v) == |SessionIds(init + [last], v)|
  {
    assert last.visitor == v ==> (last.session in SessionIds(init, v) <==> !last.entry) by {
      LastIsNewIfEntry(init, last);
    }
    CountOneMoreSession(init, last, v);
  }

  /** Counting entry rows counts the visitor's distinct sessions. */
  lemma {:induction false} EntriesCountSessions(events: seq<Event>, v: Visitor)
    requires EntriesFirst(events)
    ensures Sessions(events, v) == |SessionIds(events, v)|
  {
    if events == [] {
      NoSessionIds(v);
    } else {
      var init, last := events[..|events| - 1], events[|events| - 1];
      SplitLast(events);
      PrefixKeepsEntries(init, last);
      EntriesCountSessions(init, v);
      EntriesCountOneMore(init, last, v);
    }
  }

  predicate Unused(events: seq<Event>, session: Session) {
    forall i :: 0 <= i < |events| ==> events[i].session != session
  }

  lemma {:induction false} CountsIgnoreFlags(events: seq<Event>, session: Session, v: Visitor)
    ensures Pageviews(Earlier(events, session), v) == Pageviews(events, v)
    ensures Sessions(Earlier(events, session), v) == Sessions(events, v)
  {
    if events != [] {
      var n := |events| - 1;
      CountsIgnoreFlags(events[..n], session, v);
      assert Earlier(events, session)[..n] == Earlier(events[..n], session);
    }
  }

  lemma CountsOneMore(events: seq<Event>, e: Event, v: Visitor)
    ensures Pageviews(events + [e], v) == Pageviews(events, v) + (if e.visitor == v then 1 else 0)
    ensures Sessions(events + [e], v) == Sessions(events, v) + (if e.visitor == v && e.entry then 1 else 0)
  {
    assert (events + [e])[..|events|] == events;
  }

  /** Entry and exit rows and the counts stay right with every beacon, also when
      the clock steps back. */
  lemma RecordKeepsValid(s: State, x: Visit)
    requires Valid(s) && Unused(s.events, x.drawn)
    ensures Valid(Record(s, x))
  {
    var e := NewEvent(s.events, x);
    RecordKeepsRows(s.events, Earlier(s.events, e.session), e, Recent(s.events, x.visitor, x.looked));
    forall w: Visitor ensures CountsOf(Record(s, x), w) {
      assert CountsOf(s, w);
      RecordKeepsCounts(s, x, w);
    }
  }

  lemma RecordKeepsCounts(s: State, x: Visit, w: Visitor)
    requires CountsOf(s, w)
    ensures CountsOf(Record(s, x), w)
  {
    var e := NewEvent(s.events, x);
    CountsIgnoreFlags(s.events, e.session, w);
    CountsOneMore(Earlier(s.events, e.session), e, w);
    NoViewsNoSessions(s.events, w);
  }

  lemma {:induction false} NoViewsNoSessions(events: seq<Event>, v: Visitor)
    ensures Sessions(events, v) <= Pageviews(events, v)
  {
    if events != [] {
      NoViewsNoSessions(events[..|events| - 1], v);
    }
  }

  lemma RecordKeepsRows(events: seq<Event>, before: seq<Event>, e: Event, k: nat)
    requires SameVisitor(events) && EntriesAndExits(events) && before == Earlier(events, e.session) && k <= |events|
    requires k < |events| ==> e.session == events[k].session && e.visitor == events[k].visitor && !e.entry
    requires k == |events| ==> Unused(events, e.session) && e.entry
    requires e.exit && e.bounce
    ensures SameVisitor(before + [e]) && EntriesAndExits(before + [e])
  {
    var after := before + [e];
    assert forall i :: 0 <= i < |events| ==> after[i].session == events[i].session && after[i].visitor == events[i].visitor;
    forall i | 0 <= i < |after| ensures after[i].entry <==> IsFirst(after, i) {
      if i < |events| {
        assert IsFirst(after, i) <==> IsFirst(events, i);
      } else if k < |events| {
        assert after[k].session == e.session;
      }
    }
    forall i | 0 <= i < |after| ensures after[i].exit <==> IsLast(after, i) {
      if i < |events| && events[i].session == e.session {
        assert after[|events|].session == after[i].session;
      } else if i < |events| {
        assert IsLast(after, i) <==> IsLast(events, i);
      }
    }
  }

  // ---- the thirty minutes ---------------------------------------------------------------

  /** Two events of one visitor with none of theirs in between. */
  predicate Consecutive(events: seq<Event>, i: nat, j: nat) {
    && i < j < |events| && events[i].visitor == events[j].visitor
    && forall m :: i < m < j ==> events[m].visitor != events[i].visitor
  }

  predicate InRule(events: seq<Event>, i: nat, j: nat)
    requires i < |events| && j < |events|
  {
    events[i].session == events[j].session <==> events[j].created - events[i].created < SESSION_GAP
  }

  /** Consecutive events of a visitor share a session exactly when they are under
      thirty minutes apart. */
  predicate ThirtyMinutes(events: seq<Event>) {
    forall i, j :: 0 <= i < j < |events| && Consecutive(events, i, j) ==> InRule(events, i, j)
  }

  /** The visitor's newest event, whatever its age. */
  function Newest(events: seq<Event>, v: Visitor): (i: nat)
    ensures i <= |events|
    ensures i < |events| ==> events[i].visitor == v
    ensures forall m :: i < m < |events| ==> events[m].visitor != v
    ensures i == |events| ==> forall m :: 0 <= m < |events| ==> events[m].visitor != v
  {
    if events == [] then 0
    else
      var last := |events| - 1;
      if events[last].visitor == v then last
      else
        var i := Newest(events[..last], v);
        if i < last then i else |events|
  }

  /** Whether the lookup finds the session of the event at i. */
  predicate GoesOn(events: seq<Event>, x: Visit, i: nat)
    requires i < |events|
  {
    var k := Recent(events, x.visitor, x.looked);
    k < |events| && events[k].session == events[i].session
  }

  /** The half hour after the newest event ends between the lookup and the insert. */
  predicate Drifts(e: Event, x: Visit) {
    x.looked - SESSION_GAP < e.created <= x.created - SESSION_GAP
  }

  /** The newest event is too old, but the lookup finds its session through an
      older row with a later time. */
  predicate Stretches(events: seq<Event>, x: Visit, i: nat)
    requires i < |events|
  {
    events[i].created <= x.looked - SESSION_GAP && events[i].created <= x.created - SESSION_GAP && GoesOn(events, x, i)
  }

  /** The newest event is too old for the lookup but not for the insert, whose
      clock reads earlier. */
  predicate Splits(events: seq<Event>, x: Visit, i: nat)
    requires i < |events|
  {
    x.created - SESSION_GAP < events[i].created <= x.looked - SESSION_GAP && !GoesOn(events, x, i)
  }

  predicate OnTime(events: seq<Event>, x: Visit) {
    var i := Newest(events, x.visitor);
    i < |events| ==> !Drifts(events[i], x) && !Stretches(events, x, i) && !Splits(events, x, i)
  }

  lemma NewestInRule(events: seq<Event>, x: Visit)
    requires Unused(events, x.drawn)
    ensures var i, e := Newest(events, x.visitor), NewEvent(events, x);
            i < |events| ==>
              (OnTime(events, x) <==> (events[i].session == e.session <==> e.created - events[i].created < SESSION_GAP))
  {
    var i, k := Newest(events, x.visitor), Recent(events, x.visitor, x.looked);
    if i < |events| && events[i].created > x.looked - SESSION_GAP {
      assert k == i;
    }
  }

  lemma ConsecutiveWithLast(events: seq<Event>, after: seq<Event>, e: Event, i: nat)
    requires |after| == |events| + 1 && after[|events|].visitor == e.visitor && i < |events|
    requires forall m :: 0 <= m < |events| ==> after[m].visitor == events[m].visitor
    ensures Consecutive(after, i, |events|) <==> i == Newest(events, e.visitor)
  {
    var newest := Newest(events, e.visitor);
    if Consecutive(after, i, |events|) && newest < |events| {
      assert newest <= i;
    }
    if i == newest {
      assert forall m :: i < m < |events| ==> after[m].visitor != e.visitor;
    }
  }

  /** The exact condition, beacon by beacon, whatever the clock does: the rule
      holds after a beacon exactly when it held before and the visitor's newest
      row, the lookup and the two clock readings show none of the three cases. */
  lemma RecordKeepsThirtyMinutesIff(s: State, x: Visit)
    requires Unused(s.events, x.drawn)
    ensures ThirtyMinutes(Record(s, x).events) <==> ThirtyMinutes(s.events) && OnTime(s.events, x)
  {
    var e, after, n := NewEvent(s.events, x), Record(s, x).events, |s.events|;
    assert forall i :: 0 <= i < n ==>
             after[i].session == s.events[i].session && after[i].visitor == s.events[i].visitor &&
             after[i].created == s.events[i].created;
    assert after[n] == e;
    NewestInRule(s.events, x);
    var newest := Newest(s.events, x.visitor);
    forall i | 0 <= i < n ensures Consecutive(after, i, n) <==> i == newest {
      ConsecutiveWithLast(s.events, after, e, i);
    }
    forall i, j | 0 <= i < j < n ensures Consecutive(after, i, j) <==> Consecutive(s.events, i, j) {
    }
    if ThirtyMinutes(after) {
      forall i, j | 0 <= i < j < n && Consecutive(s.events, i, j) ensures InRule(s.events, i, j) {
        assert InRule(after, i, j);
      }
      if newest < n {
        assert InRule(after, newest, n);
      }
    }
    if ThirtyMinutes(s.events) && OnTime(s.events, x) {
      forall i, j | 0 <= i < j < |after| && Consecutive(after, i, j) ensures InRule(after, i, j) {
        if j < n {
          assert InRule(s.events, i, j);
        }
      }
    }
  }

  // ---- runs -----------------------------------------------------------------------------

  function Run(s: State, visits: seq<Visit>): State
    decreases |visits|
  {
    if visits == [] then s else Run(Record(s, visits[0]), visits[1..])
  }

  predicate Drawn(s: State, visits: seq<Visit>)
    decreases |visits|
  {
    visits == [] || (Unused(s.events, visits[0].drawn) && Drawn(Record(s, visits[0]), visits[1..]))
  }

  /** Every beacon finds none of the three cases. */
  predicate AllOnTime(s: State, visits: seq<Visit>)
    decreases |visits|
  {
    visits == [] || (OnTime(s.events, visits[0]) && AllOnTime(Record(s, visits[0]), visits[1..]))
  }

  /** Whether the half hour of the newest event never ends between a lookup and
      its insert. */
  predicate NeverDrifts(s: State, visits: seq<Visit>)
    decreases |visits|
  {
    visits == [] ||
    ((var i := Newest(s.events, visits[0].visitor); i < |s.events| ==> !Drifts(s.events[i], visits[0])) &&
     NeverDrifts(Record(s, visits[0]), visits[1..]))
  }

  lemma {:induction false} RunsStayValid(s: State, visits: seq<Visit>)
    requires Valid(s) && Drawn(s, visits)
    ensures Valid(Run(s, visits))
    decreases |visits|
  {
    if visits != [] {
      RecordKeepsValid(s, visits[0]);
      RunsStayValid(Record(s, visits[0]), visits[1..]);
    }
  }

  /** Over a run the rule holds exactly when every beacon was on time: a beacon
      that breaks it breaks it for good. */
  lemma {:induction false} RunsKeepThirtyMinutesIff(s: State, visits: seq<Visit>)
    requires Drawn(s, visits)
    ensures ThirtyMinutes(Run(s, visits).events) <==> ThirtyMinutes(s.events) && AllOnTime(s, visits)
    decreases |visits|
  {
    if visits != [] {
      RecordKeepsThirtyMinutesIff(s, visits[0]);
      RunsKeepThirtyMinutesIff(Record(s, visits[0]), visits[1..]);
    }
  }

  // ---- under a clock that does not step back ------------------------------------------------

  predicate Nondecreasing(events: seq<Event>) {
    forall i, j :: 0 <= i < j < |events| ==> events[i].created <= events[j].created
  }

  predicate AllBefore(events: seq<Event>, now: int) {
    forall i :: 0 <= i < |events| ==> events[i].created <= now
  }

  /** The readings of the lookups and inserts, one after another, never go down. */
  predicate Steady(visits: seq<Visit>) {
    && (forall i :: 0 <= i < |visits| ==> visits[i].looked <= visits[i].created)
    && (forall i, j :: 0 <= i < j < |visits| ==> visits[i].created <= visits[j].looked)
  }

  /** Then the newest event decides: its session goes on exactly when it is under
      thirty minutes old at the lookup. */
  lemma NewestDecides(events: seq<Event>, x: Visit, i: nat)
    requires Nondecreasing(events) && Unused(events, x.drawn) && i == Newest(events, x.visitor) < |events|
    ensures SessionOf(events, x) == events[i].session <==> x.looked - events[i].created < SESSION_GAP
  {
    var k := Recent(events, x.visitor, x.looked);
    if k < |events| {
      assert k <= i;
    }
  }

  lemma SteadyIsOnTimeIff(events: seq<Event>, x: Visit)
    requires Nondecreasing(events) && Unused(events, x.drawn) && x.looked <= x.created
    ensures var i := Newest(events, x.visitor);
            OnTime(events, x) <==> (i < |events| ==> !Drifts(events[i], x))
  {
    var i := Newest(events, x.visitor);
    if i < |events| {
      NewestDecides(events, x, i);
    }
  }

  lemma RecordStaysSteady(s: State, x: Visit, next: int)
    requires Nondecreasing(s.events) && AllBefore(s.events, x.looked) && x.looked <= x.created <= next
    ensures Nondecreasing(Record(s, x).events) && AllBefore(Record(s, x).events, next)
  {
    var after := Record(s, x).events;
    assert forall i :: 0 <= i < |s.events| ==> after[i].created == s.events[i].created;
    assert after[|s.events|].created == x.created;
  }

  lemma {:induction false} SteadyRunsAreOnTimeIff(s: State, visits: seq<Visit>)
    requires Nondecreasing(s.events) && Drawn(s, visits) && Steady(visits)
    requires visits != [] ==> AllBefore(s.events, visits[0].looked)
    ensures AllOnTime(s, visits) <==> NeverDrifts(s, visits)
    decreases |visits|
  {
    if visits != [] {
      var x, rest := visits[0], visits[1..];
      SteadyIsOnTimeIff(s.events, x);
      assert forall i :: 0 <= i < |rest| ==> rest[i] == visits[i + 1];
      RecordStaysSteady(s, x, if rest == [] then x.created else rest[0].looked);
      SteadyRunsAreOnTimeIff(Record(s, x), rest);
    }
  }

  lemma {:induction false} OneReadingNeverDrifts(s: State, visits: seq<Visit>)
    requires forall i :: 0 <= i < |visits| ==> visits[i].looked == visits[i].created
    ensures NeverDrifts(s, visits)
    decreases |visits|
  {
    if visits != [] {
      OneReadingNeverDrifts(Record(s, visits[0]), visits[1..]);
    }
  }

  /** All runs from the empty tables. Rows and counts are right whatever the clock
      does. The thirty-minute rule holds exactly when every beacon was on time;
      with a steady clock, exactly when no half hour ended between a lookup and
      its insert, so always if each beacon's two readings are equal. */
  lemma {:induction false} AllRuns(visits: seq<Visit>)
    requires Drawn(State([], map[]), visits)
    ensures var t := Run(State([], map[]), visits);
            && Valid(t)
            && (ThirtyMinutes(t.events) <==> AllOnTime(State([], map[]), visits))
            && (Steady(visits) ==> (ThirtyMinutes(t.events) <==> NeverDrifts(State([], map[]), visits)))
            && (Steady(visits) && (forall i :: 0 <= i < |visits| ==> visits[i].looked == visits[i].created) ==>
                  ThirtyMinutes(t.events))
            && forall v :: v in t.visitors ==> t.visitors[v].sessions == |SessionIds(t.events, v)|
  {
    var start, t := State([], map[]), Run(State([], map[]), visits);
    RunsStayValid(start, visits);
    RunsKeepThirtyMinutesIff(start, visits);
    if Steady(visits) {
      SteadyRunsAreOnTimeIff(start, visits);
      if forall i :: 0 <= i < |visits| ==> visits[i].looked == visits[i].created {
        OneReadingNeverDrifts(start, visits);
      }
    }
    forall v | v in t.visitors ensures t.visitors[v].sessions == |SessionIds(t.events, v)| {
      assert CountsOf(t, v);
      EntriesCountSessions(t.events, v);
    }
  }

  lemma TwoVisits(x: Visit, y: Visit)
    requires x.visitor == y.visitor && x.drawn != y.drawn && y.looked - SESSION_GAP < x.created
    ensures var visits, t := [x, y], Run(State([], map[]), [x, y]);
            && Drawn(State([], map[]), visits) && |t.events| == 2
            && t.events[0].session == t.events[1].session == x.drawn
            && t.events[0].created == x.created && t.events[1].created == y.created
            && t.events[0].visitor == t.events[1].visitor == x.visitor
  {
    var s0, visits := State([], map[]), [x, y];
    var s1 := Record(s0, x);
    assert s1.events == [Event(x.visitor, x.drawn, x.created, true, true, true)];
    var s2 := Record(s1, y);
    assert Recent(s1.events, y.visitor, y.looked) == 0;
    assert visits[1..] == [y] && [y][1..] == [];
    assert Run(s2, []) == s2 && Run(s1, [y]) == s2 && Run(s0, visits) == s2;
    assert Drawn(s2, []) && Drawn(s1, [y]);
  }

  /** A steady clock is not enough: a lookup just before the half hour ends and an
      insert just after it put two events a full half hour apart into one session. */
  lemma LateInsertStretchesASession(v: Visitor, a: Session, b: Session)
    requires a != b
    ensures var visits := [Visit(v, NOBODY, 0, 0, 0, a), Visit(v, NOBODY, 1799, 1799, 1800, b)];
            Drawn(State([], map[]), visits) && Steady(visits) && !ThirtyMinutes(Run(State([], map[]), visits).events)
  {
    var x, y := Visit(v, NOBODY, 0, 0, 0, a), Visit(v, NOBODY, 1799, 1799, 1800, b);
    TwoVisits(x, y);
    var t := Run(State([], map[]), [x, y]);
    assert Consecutive(t.events, 0, 1) && !InRule(t.events, 0, 1);
  }

  /** A clock that steps back between beacons: an event from before the step stays
      recent and carries its session over a longer pause. */
  lemma SteppedClockStretchesSessions(v: Visitor, a: Session, b: Session, c: Session)
    requires a != b && a != c && b != c
    ensures var visits := [Visit(v, NOBODY, 5000, 5000, 5000, a), Visit(v, NOBODY, 1000, 1000, 1000, b),
                           Visit(v, NOBODY, 2900, 2900, 2900, c)];
            Drawn(State([], map[]), visits) && !ThirtyMinutes(Run(State([], map[]), visits).events)
  {
    var x, y, z := Visit(v, NOBODY, 5000, 5000, 5000, a), Visit(v, NOBODY, 1000, 1000, 1000, b),
                   Visit(v, NOBODY, 2900, 2900, 2900, c);
    TwoVisits(x, y);
    var s0, s2 := State([], map[]), Run(State([], map[]), [x, y]);
    assert [x, y] + [z] == [x, y, z];
    RunSplits(s0, [x, y], z);
    DrawnSplits(s0, [x, y], z);
    var t := Record(s2, z);
    assert Recent(s2.events, v, 2900) == 0;
    assert t.events[1].created == 1000 && t.events[2].created == 2900;
    assert Consecutive(t.events, 1, 2) && !InRule(t.events, 1, 2);
  }

  lemma {:induction false} DrawnSplits(s: State, visits: seq<Visit>, x: Visit)
    requires Drawn(s, visits) && Unused(Run(s, visits).events, x.drawn)
    ensures Drawn(s, visits + [x])
    decreases |visits|
  {
    if visits == [] {
      assert [] + [x] == [x] && [x][1..] == [];
    } else {
      assert (visits + [x])[1..] == visits[1..] + [x];
      DrawnSplits(Record(s, visits[0]), visits[1..], x);
    }
  }

  // ---- who the visitor is -----------------------------------------------------------------

  /** The first signed-in user among a visitor's beacons. */
  function FirstUser(visits: seq<Visit>, v: Visitor): User {
    if visits == [] then NOBODY
    else
      var earlier := FirstUser(visits[..|visits| - 1], v);
      var last := visits[|visits| - 1];
      if earlier != NOBODY then earlier else if last.visitor == v then last.user else NOBODY
  }

  lemma {:induction false} RunSplits(s: State, visits: seq<Visit>, x: Visit)
    ensures Run(s, visits + [x]) == Record(Run(s, visits), x)
    decreases |visits|
  {
    if visits == [] {
      assert [] + [x] == [x];
      assert [x][1..] == [];
    } else {
      assert (visits + [x])[1..] == visits[1..] + [x];
      RunSplits(Record(s, visits[0]), visits[1..], x);
    }
  }

  function UserOf(s: State, v: Visitor): User { if v in s.visitors then s.visitors[v].user else NOBODY }

  lemma UserAfterOne(s: State, x: Visit, v: Visitor)
    ensures UserOf(Record(s, x), v) ==
            if UserOf(s, v) != NOBODY then UserOf(s, v) else if x.visitor == v then x.user else NOBODY
  {
  }

  /** A visitor's user is the first one that signed in and never changes again. */
  lemma {:induction false} UserIsFirstSignedIn(visits: seq<Visit>, v: Visitor)
    ensures UserOf(Run(State([], map[]), visits), v) == FirstUser(visits, v)
  {
    if visits != [] {
      var init, x := visits[..|visits| - 1], visits[|visits| - 1];
      UserIsFirstSignedIn(init, v);
      assert visits == init + [x];
      RunSplits(State([], map[]), init, x);
      UserAfterOne(Run(State([], map[]), init), x, v);
    }
  }

  /** The beacon of the visitor that came last, if any. */
  function LastBeacon(visits: seq<Visit>, v: Visitor): Option<Visit> {
    if visits == [] then None
    else
      var last := visits[|visits| - 1];
      if last.visitor == v then Some(last) else LastBeacon(visits[..|visits| - 1], v)
  }

  lemma SeenAfterOne(s: State, x: Visit, v: Visitor)
    ensures var t := Record(s, x);
            if v == x.visitor then v in t.visitors && t.visitors[v].lastSeen == x.seen
            else (v in t.visitors <==> v in s.visitors) && (v in s.visitors ==> t.visitors[v] == s.visitors[v])
  {
  }

  /** A visitor is known exactly when a beacon of theirs was recorded, and was last
      seen at the last of them, as its upsert read the clock. */
  lemma {:induction false} LastSeenIsLastBeacon(visits: seq<Visit>, v: Visitor)
    ensures var t, last := Run(State([], map[]), visits), LastBeacon(visits, v);
            (v in t.visitors <==> last.Some?) && (last.Some? ==> t.visitors[v].lastSeen == last.value.seen)
  {
    if visits != [] {
      var init, x := visits[..|visits| - 1], visits[|visits| - 1];
      LastSeenIsLastBeacon(init, v);
      assert visits == init + [x];
      RunSplits(State([], map[]), init, x);
      SeenAfterOne(Run(State([], map[]), init), x, v);
    }
  }

  // ---- bounces ------------------------------------------------------------------------------

  /** The sessions the summary counts, and those it counts as bounced. */
  function AllSessions(events: seq<Event>): set<Session> { set e | e in events :: e.session }
  function Bounced(events: seq<Event>): set<Session> { set e | e in events && e.bounce :: e.session }

  lemma LastOfSession(events: seq<Event>, i: nat) returns (k: nat)
    requires i < |events|
    ensures i <= k < |events| && events[k].session == events[i].session && IsLast(events, k)
    decreases |events| - i
  {
    k := i;
    if !IsLast(events, i) {
      var j :| i < j < |events| && events[j].session == events[i].session;
      k := LastOfSession(events, j);
    }
  }

  /** After any run every session counts as bounced, however many pages it has,
      since the flag is cleared on every row but its last. So the flag tells the
      sessions of a single page apart exactly when there are no others. */
  lemma EverySessionBounces(visits: seq<Visit>)
    requires Drawn(State([], map[]), visits)
    ensures var events := Run(State([], map[]), visits).events;
            && Bounced(events) == AllSessions(events)
            && ((forall i :: 0 <= i < |events| ==> (events[i].session in Bounced(events) <==> SinglePage(events, i))) <==>
                forall i :: 0 <= i < |events| ==> SinglePage(events, i))
  {
    AllRuns(visits);
    AllBounce(Run(State([], map[]), visits).events);
  }

  lemma AllBounce(events: seq<Event>)
    requires EntriesAndExits(events)
    ensures Bounced(events) == AllSessions(events)
    ensures forall i :: 0 <= i < |events| ==> events[i].session in Bounced(events)
  {
    forall i | 0 <= i < |events| ensures events[i].session in Bounced(events) {
      var k := LastOfSession(events, i);
      assert events[k].bounce && events[k] in events;
    }
    forall x | x in AllSessions(events) ensures x in Bounced(events) {
      var e :| e in events && e.session == x;
      var i :| 0 <= i < |events| && events[i] == e;
    }
  }

  predicate SinglePage(events: seq<Event>, i: nat)
    requires i < |events|
  {
    forall j :: 0 <= j < |events| && events[j].session == events[i].session ==> j == i
  }

  /** And there are others: a session of two pages is bounced. */
  lemma TwoPagesBounce(v: Visitor, a: Session, b: Session)
    requires a != b
    ensures var visits := [Visit(v, NOBODY, 0, 0, 0, a), Visit(v, NOBODY, 60, 60, 60, b)];
            var events := Run(State([], map[]), visits).events;
            Drawn(State([], map[]), visits) && |events| == 2 && AllSessions(events) == {a} && a in Bounced(events)
  {
    var x, y := Visit(v, NOBODY, 0, 0, 0, a), Visit(v, NOBODY, 60, 60, 60, b);
    TwoVisits(x, y);
    var events := Run(State([], map[]), [x, y]).events;
    EverySessionBounces([x, y]);
    assert events[0] in events;
    assert forall e :: e in events ==> e.session == a;
  }
}
