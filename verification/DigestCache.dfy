/** The digest cache (app_mcp_digests.go:231-342): a verified source digest is
    reused while a fingerprint of every covered file's stat identity is
    unchanged. Digests are ideal; the source tree changes under the program's
    feet, so it is a function of time. */
module DigestCache {
  import opened Wrappers

  type Path = seq<int>
  type Data = int
  type Time = int

  const RACY_WINDOW: Time := 2_000_000_000
  const MAX_AGE: Time := 60_000_000_000
  const MAX_ENTRIES := 4096
  const FILE_LIMIT := 10000

  datatype Stamp = Stamp(size: int, mtime: Time, ctime: Time, inode: int, device: int)

  /** A file as it is at some time; since is when its present content came to
      this path, which no stat shows. */
  datatype File = File(stamp: Stamp, identity: bool, data: Data, ghost since: Time)

  type Tree = map<Path, File>

  /** What the two digests pin: the declaration with the paths it leaves out, and
      the covered contents. */
  datatype Declaration = Declaration(text: int, excluded: set<Path>)
  datatype Execution = Execution(declaration: Declaration, contents: map<Path, Data>)
  datatype Manifest = Manifest(declared: Declaration, contractDigest: Declaration, executionDigest: Execution)

  /** The file system: its tree at every time, the order a walk visits a set of
      paths in, the refusals of the walk and the byte limit. */
  datatype World = World(
    at: Time -> Tree, order: set<Path> -> seq<Path>, walkable: set<Path> -> bool, fits: map<Path, Data> -> bool)

  function Covered(tree: Tree, d: Declaration): Tree { map p | p in tree && p !in d.excluded :: tree[p] }

  function Contents(tree: Tree): map<Path, Data> { map p | p in tree :: tree[p].data }

  function Stamps(tree: Tree): map<Path, Stamp> { map p | p in tree :: tree[p].stamp }

  /** Walks visit every path once, in an order that depends on the paths only. */
  ghost predicate OrderOk(w: World) {
    forall paths :: forall p :: p in w.order(paths) <==> p in paths
  }

  /** What since means: the content has been there unchanged from then on. */
  ghost predicate SinceOk(w: World) {
    forall t1: Time, t2: Time, p: Path {:trigger w.at(t1), w.at(t2)[p]} ::
      t1 <= t2 && p in w.at(t2) && w.at(t2)[p].since <= t1 ==> p in w.at(t1) && w.at(t1)[p].data == w.at(t2)[p].data
  }

  /** The hypothesis on the file system: a change stamps a change time no older
      than the racy window before it. */
  ghost predicate ChangesAreStamped(w: World) {
    forall t: Time, p: Path {:trigger w.at(t)[p]} :: p in w.at(t) ==> w.at(t)[p].stamp.ctime >= w.at(t)[p].since - RACY_WINDOW
  }

  // ---- the fingerprint -----------------------------------------------------------

  function Record(path: Path, s: Stamp): seq<int> {
    [|path|, s.size, s.mtime, s.ctime, s.inode, s.device] + path
  }

  function Stream(listing: seq<(Path, Stamp)>): seq<int> {
    if listing == [] then [] else Record(listing[0].0, listing[0].1) + Stream(listing[1..])
  }

  /** The record stream determines the listing: lengths come first. */
  lemma {:induction false} StreamIsInjective(a: seq<(Path, Stamp)>, b: seq<(Path, Stamp)>)
    requires Stream(a) == Stream(b)
    ensures a == b
  {
    assert (a == [] <==> Stream(a) == []) && (b == [] <==> Stream(b) == []);
    if a != [] {
      var ra, rb := Record(a[0].0, a[0].1), Record(b[0].0, b[0].1);
      assert Stream(a)[0] == ra[0] && Stream(b)[0] == rb[0];
      assert ra == Stream(a)[..|ra|] && rb == Stream(b)[..|rb|];
      RecordIsInjective(a[0].0, a[0].1, b[0].0, b[0].1);
      assert Stream(a[1..]) == Stream(a)[|ra|..] && Stream(b[1..]) == Stream(b)[|rb|..];
      StreamIsInjective(a[1..], b[1..]);
      assert a == [a[0]] + a[1..] && b == [b[0]] + b[1..];
    }
  }

  lemma RecordIsInjective(p: Path, s: Stamp, q: Path, t: Stamp)
    requires Record(p, s) == Record(q, t)
    ensures p == q && s == t
  {
    var a, b := Record(p, s), Record(q, t);
    assert a[0] == b[0] && a[1] == b[1] && a[2] == b[2] && a[3] == b[3] && a[4] == b[4] && a[5] == b[5];
    assert p == a[6..] && q == b[6..];
  }

  function Listing(order: seq<Path>, tree: Tree): seq<(Path, Stamp)>
    requires forall p :: p in order ==> p in tree
  {
    seq(|order|, i requires 0 <= i < |order| => (order[i], tree[order[i]].stamp))
  }

  predicate Settled(f: File, now: Time) {
    f.identity && f.stamp.mtime < now - RACY_WINDOW && f.stamp.ctime < now - RACY_WINDOW
  }

  /** The fingerprint taken at a time; None when the set cannot be walked, a file
      has no stat identity, or a timestamp is too recent to trust. */
  ghost function Fingerprint(w: World, tree: Tree, now: Time): Option<seq<int>>
    requires OrderOk(w)
  {
    if !w.walkable(tree.Keys) || exists p :: p in tree && !Settled(tree[p], now) then None
    else Some(Stream(Listing(w.order(tree.Keys), tree)))
  }

  lemma SameFingerprint(w: World, a: Tree, b: Tree, ta: Time, tb: Time)
    requires OrderOk(w)
    requires Fingerprint(w, a, ta).Some? && Fingerprint(w, a, ta) == Fingerprint(w, b, tb)
    ensures Stamps(a) == Stamps(b)
  {
    var oa, ob := w.order(a.Keys), w.order(b.Keys);
    StreamIsInjective(Listing(oa, a), Listing(ob, b));
    forall i | 0 <= i < |oa| ensures oa[i] == ob[i] && a[oa[i]].stamp == b[ob[i]].stamp {
      assert Listing(oa, a)[i] == Listing(ob, b)[i];
    }
    assert oa == ob;
    forall p | p in a ensures p in b && a[p].stamp == b[p].stamp {
      assert p in oa;
      var i :| 0 <= i < |oa| && oa[i] == p;
    }
    forall p | p in b ensures p in a {
      assert p in ob;
    }
  }

  // ---- why an unchanged fingerprint means unchanged content ------------------------

  /** A fingerprint that was settled when taken and is the same later: every
      covered file still has the content it had, at every time between. */
  lemma UnchangedMeansSameContent(w: World, d: Declaration, t1: Time, t2: Time, t: Time)
    requires OrderOk(w) && SinceOk(w) && ChangesAreStamped(w) && t1 <= t <= t2
    requires var f := Fingerprint(w, Covered(w.at(t1), d), t1);
             f.Some? && f == Fingerprint(w, Covered(w.at(t2), d), t2)
    ensures Covered(w.at(t1), d).Keys == Covered(w.at(t2), d).Keys
    ensures forall p :: p in Covered(w.at(t1), d) ==>
              p in w.at(t) && w.at(t)[p].data == w.at(t1)[p].data && w.at(t2)[p].data == w.at(t1)[p].data
  {
    var a, b := Covered(w.at(t1), d), Covered(w.at(t2), d);
    SameFingerprint(w, a, b, t1, t2);
    assert Stamps(a).Keys == a.Keys && Stamps(b).Keys == b.Keys;
    forall p | p in a ensures p in w.at(t) && w.at(t)[p].data == a[p].data && w.at(t2)[p].data == a[p].data {
      assert Stamps(a)[p] == Stamps(b)[p];
      assert Settled(a[p], t1);
      assert b[p] == w.at(t2)[p];
      assert w.at(t2)[p].since <= t1;
    }
  }

  // ---- re-hashing -------------------------------------------------------------------

  /** What a full re-hash of a tree says. */
  predicate Rehash(w: World, tree: Tree, m: Manifest) {
    && w.walkable(tree.Keys) && |tree| <= FILE_LIMIT && w.fits(Contents(tree))
    && m.declared == m.contractDigest && Execution(m.declared, Contents(tree)) == m.executionDigest
  }

  /** The content a re-hash reads: the paths of a walk, each read at its own time. */
  datatype Reading = Reading(walk: Time, readAt: Path -> Time)

  ghost predicate Within(r: Reading, from: Time, to: Time) {
    from <= r.walk <= to && forall p :: from <= r.readAt(p) <= to
  }

  /** The other hypothesis: no covered path comes and goes between the two
      fingerprints of one verification, since a removed file leaves no stamp. */
  ghost predicate NoTransientPath(w: World, d: Declaration, r: Reading, from: Time) {
    Covered(w.at(r.walk), d).Keys <= Covered(w.at(from), d).Keys
  }

  datatype Entry = Entry(fingerprint: seq<int>, contract: Declaration, execution: Execution, verified: Time)

  /** The fingerprint was settled when taken, and a re-hash then agrees with the
      entry's digests. */
  ghost predicate EntryOk(w: World, e: Entry, t: Time)
    requires OrderOk(w)
  {
    && Fingerprint(w, Covered(w.at(t), e.contract), t) == Some(e.fingerprint)
    && Rehash(w, Covered(w.at(t), e.contract), Manifest(e.contract, e.contract, e.execution))
  }

  /** Every entry's fingerprint was taken at some past time. */
  ghost predicate AllOk(w: World, entries: map<int, Entry>, taken: map<int, Time>, now: Time)
    requires OrderOk(w)
  {
    taken.Keys == entries.Keys && forall k :: k in entries ==> taken[k] <= now && EntryOk(w, entries[k], taken[k])
  }

  lemma OneMoreOk(w: World, entries: map<int, Entry>, taken: map<int, Time>, key: int, e: Entry, before: Time, after: Time)
    requires OrderOk(w) && AllOk(w, entries, taken, before) && EntryOk(w, e, before) && before <= after
    ensures AllOk(w, entries[key := e], taken[key := before], after)
  {
    var all, times := entries[key := e], taken[key := before];
    assert times.Keys == all.Keys;
    forall k | k in all ensures times[k] <= after && EntryOk(w, all[k], times[k]) {
      if k != key {
        assert k in entries;
      }
    }
  }

  lemma OneMoreCounts(entries: map<int, Entry>, key: int, e: Entry)
    ensures |entries[key := e]| <= |entries| + 1
  {
    var all := entries[key := e];
    assert all.Keys == entries.Keys + {key} && |all.Keys| == |all| && |entries.Keys| == |entries|;
  }

  /** While the fingerprint of a good entry stays, a re-hash still agrees. */
  lemma EntryStaysSound(w: World, e: Entry, t: Time, now: Time)
    requires OrderOk(w) && SinceOk(w) && ChangesAreStamped(w) && t <= now && EntryOk(w, e, t)
    requires Fingerprint(w, Covered(w.at(now), e.contract), now) == Some(e.fingerprint)
    ensures Rehash(w, Covered(w.at(now), e.contract), Manifest(e.contract, e.contract, e.execution))
  {
    UnchangedMeansSameContent(w, e.contract, t, now, now);
    var a, b := Covered(w.at(t), e.contract), Covered(w.at(now), e.contract);
    assert Contents(a) == Contents(b);
    assert a.Keys == b.Keys;
    assert |a.Keys| == |a| && |b.Keys| == |b|;
  }

  class Cache {
    const world: World
    var entries: map<int, Entry>
    ghost var taken: map<int, Time>

    constructor (world: World)
      ensures this.world == world && entries == map[] && taken == map[]
    {
      this.world, entries, taken := world, map[], map[];
    }

    ghost predicate WorldOk() { OrderOk(world) && SinceOk(world) && ChangesAreStamped(world) }

    /** Every entry's fingerprint was taken at some past time, when it was settled
        and the re-hash of the tree agreed with the entry's digests. */
    ghost predicate Valid(now: Time)
      reads this
    {
      WorldOk() && |entries| <= MAX_ENTRIES && AllOk(world, entries, taken, now)
    }

    /** Cache a verified result; a full map is dropped first. */
    method Remember(key: int, e: Entry, ghost before: Time, ghost after: Time)
      requires Valid(before) && before <= after
      modifies this
      ensures EntryOk(world, e, before) ==> Valid(after)
      ensures key in entries && entries[key] == e
      ensures forall k :: k in entries && k != key ==> k in old(entries) && entries[k] == old(entries)[k]
    {
      if |entries| >= MAX_ENTRIES {
        entries, taken := map[], map[];
      }
      OneMoreCounts(entries, key, e);
      if EntryOk(world, e, before) {
        OneMoreOk(world, entries, taken, key, e, before, after);
      }
      entries := entries[key := e];
      taken := taken[key := before];
    }

    predicate Hit(key: int, fingerprint: seq<int>, m: Manifest, now: Time)
      reads this
    {
      && key in entries && entries[key].fingerprint == fingerprint && now - entries[key].verified < MAX_AGE
      && entries[key].contract == m.declared && m.declared == m.contractDigest
      && entries[key].execution == m.executionDigest
    }

    /** The cache refines the full re-hash: a hit, whatever its clock says, means
        that re-hashing the current source would succeed. */
    lemma HitIsSound(key: int, m: Manifest, now: Time, clock: Time)
      requires Valid(now)
      requires Fingerprint(world, Covered(world.at(now), m.declared), now).Some?
      requires Hit(key, Fingerprint(world, Covered(world.at(now), m.declared), now).value, m, clock)
      ensures Rehash(world, Covered(world.at(now), m.declared), m)
    {
      EntryStaysSound(world, entries[key], taken[key], now);
    }

    method Forget(key: int, ghost now: Time)
      requires Valid(now)
      modifies this
      ensures Valid(now) && key !in entries
      ensures entries == old(entries) - {key}
    {
      entries := entries - {key};
      taken := taken - {key};
    }

    /** validateAppMCPDigests: a hit, or a re-hash whose reads are spread between
        two fingerprints; the result is cached only when both agree. Success
        without reading means the current source would pass; success by reading
        means the bytes read passed. What was cached is a hit for the same
        fingerprint and manifest until its age is reached, and for no other. */
    method Validate(key: int, m: Manifest, ghost before: Time, r: Reading, ghost after: Time, verified: Time,
                    first: Option<seq<int>>, second: Option<seq<int>>, read: Option<map<Path, Data>>)
      returns (ok: bool)
      requires Valid(before) && before <= after && Within(r, before, after)
      requires first == Fingerprint(world, Covered(world.at(before), m.declared), before)
      requires second == Fingerprint(world, Covered(world.at(after), m.declared), after)
      requires read.Some? ==> ReadContents(world, m.declared, r, read.value)
      requires verified >= before
      modifies this
      ensures NoTransientPath(world, m.declared, r, before) || !ok || entries == old(entries) ==> Valid(after)
      ensures var hit := first.Some? && old(Hit(key, first.value, m, verified));
              && (ok <==> hit || (read.Some? && Agrees(world, m, read.value)))
              && (hit ==> Rehash(world, Covered(world.at(before), m.declared), m) && entries == old(entries))
              && (!ok ==> entries == old(entries) - {key})
              && (ok && !hit && (first.None? || first != second) ==> entries == old(entries))
              && (ok && !hit && first.Some? && first == second ==>
                    && key in entries && entries[key] == Entry(first.value, m.declared, m.executionDigest, verified)
                    && (forall later, seen: Manifest :: Hit(key, first.value, seen, later) <==>
                          seen == m && later - verified < MAX_AGE)
                    && forall k :: k in entries && k != key ==> k in old(entries) && entries[k] == old(entries)[k])
    {
      if first.Some? && Hit(key, first.value, m, verified) {
        HitIsSound(key, m, before, verified);
        return true;
      }
      if read.None? || !Agrees(world, m, read.value) {
        Forget(key, before);
        return false;
      }
      if first.Some? && second.Some? && first.value == second.value {
        ReadIsSoundIff(world, m, before, r, after, read.value);
        Remember(key, Entry(first.value, m.declared, m.executionDigest, verified), before, after);
      }
      ok := true;
    }
  }

  /** Each path of the walk, with its content at the time it was read. */
  ghost predicate ReadContents(w: World, d: Declaration, r: Reading, read: map<Path, Data>) {
    && read.Keys == Covered(w.at(r.walk), d).Keys && w.walkable(read.Keys)
    && forall p :: p in read ==> p in w.at(r.readAt(p)) && read[p] == w.at(r.readAt(p))[p].data
  }

  predicate Agrees(w: World, m: Manifest, read: map<Path, Data>) {
    && |read| <= FILE_LIMIT && w.fits(read)
    && m.declared == m.contractDigest && Execution(m.declared, read) == m.executionDigest
  }

  lemma CoveredPathIsRead(w: World, d: Declaration, before: Time, r: Reading, after: Time, read: map<Path, Data>, p: Path)
    requires OrderOk(w) && SinceOk(w) && ChangesAreStamped(w) && before <= after && Within(r, before, after)
    requires ReadContents(w, d, r, read)
    requires var f := Fingerprint(w, Covered(w.at(before), d), before);
             f.Some? && f == Fingerprint(w, Covered(w.at(after), d), after)
    requires p in Covered(w.at(before), d)
    ensures p in read && read[p] == w.at(before)[p].data
  {
    assert p in w.at(r.walk) by {
      UnchangedMeansSameContent(w, d, before, after, r.walk);
    }
    assert p in Covered(w.at(r.walk), d);
    var t := r.readAt(p);
    assert p in w.at(t) && w.at(t)[p].data == w.at(before)[p].data by {
      UnchangedMeansSameContent(w, d, before, after, t);
    }
  }

  lemma SameMaps(a: Tree, read: map<Path, Data>)
    requires read.Keys <= a.Keys && forall p :: p in a ==> p in read && read[p] == a[p].data
    ensures read == Contents(a)
  {
  }

  lemma ReadIsCovered(w: World, d: Declaration, before: Time, r: Reading, after: Time, read: map<Path, Data>)
    requires OrderOk(w) && SinceOk(w) && ChangesAreStamped(w) && before <= after && Within(r, before, after)
    requires NoTransientPath(w, d, r, before) && ReadContents(w, d, r, read)
    requires var f := Fingerprint(w, Covered(w.at(before), d), before);
             f.Some? && f == Fingerprint(w, Covered(w.at(after), d), after)
    ensures read == Contents(Covered(w.at(before), d))
  {
    var a := Covered(w.at(before), d);
    assert forall p :: p in a ==> p in read && read[p] == a[p].data by {
      forall p | p in a ensures p in read && read[p] == a[p].data {
        CoveredPathIsRead(w, d, before, r, after, read, p);
      }
    }
    assert read.Keys <= a.Keys;
    SameMaps(a, read);
  }

  /** A reading that agrees with the manifest between two equal settled
      fingerprints may be cached exactly when no covered path was transient: then
      and only then would a re-hash of what the first one covered succeed. */
  lemma ReadIsSoundIff(w: World, m: Manifest, before: Time, r: Reading, after: Time, read: map<Path, Data>)
    requires OrderOk(w) && SinceOk(w) && ChangesAreStamped(w) && before <= after && Within(r, before, after)
    requires var f := Fingerprint(w, Covered(w.at(before), m.declared), before);
             f.Some? && f == Fingerprint(w, Covered(w.at(after), m.declared), after)
    requires ReadContents(w, m.declared, r, read) && Agrees(w, m, read)
    ensures Rehash(w, Covered(w.at(before), m.declared), m) <==> NoTransientPath(w, m.declared, r, before)
  {
    var a := Covered(w.at(before), m.declared);
    assert Contents(a).Keys == a.Keys && |a.Keys| == |a| && |read.Keys| == |read|;
    if NoTransientPath(w, m.declared, r, before) {
      ReadIsCovered(w, m.declared, before, r, after, read);
    }
    if Rehash(w, a, m) {
      assert Contents(a) == read;
    }
  }

  /** Without the hypothesis on change times the fingerprint can miss a change: a
      rewrite that leaves every stat field as it was. */
  lemma UnstampedChangeIsMissed(p: Path, d: Declaration, order: set<Path> -> seq<Path>)
    requires p !in d.excluded && order({p}) == [p]
    ensures var s := Stamp(1, 0, 0, 1, 1);
            var w := World(t => if t < 5_000_000_000 then map[p := File(s, true, 1, 0)]
                                else map[p := File(s, true, 2, 5_000_000_000)],
                           order, paths => true, contents => true);
            SinceOk(w) && !ChangesAreStamped(w) &&
            (OrderOk(w) ==>
              && Fingerprint(w, Covered(w.at(3_000_000_000), d), 3_000_000_000).Some?
              && Fingerprint(w, Covered(w.at(3_000_000_000), d), 3_000_000_000)
                 == Fingerprint(w, Covered(w.at(6_000_000_000), d), 6_000_000_000)
              && Contents(Covered(w.at(3_000_000_000), d)) != Contents(Covered(w.at(6_000_000_000), d)))
  {
    var s := Stamp(1, 0, 0, 1, 1);
    var w := World(t => if t < 5_000_000_000 then map[p := File(s, true, 1, 0)]
                        else map[p := File(s, true, 2, 5_000_000_000)],
                   order, paths => true, contents => true);
    var a, b := Covered(w.at(3_000_000_000), d), Covered(w.at(6_000_000_000), d);
    assert p in w.at(5_000_000_000);
    assert a == map[p := File(s, true, 1, 0)] && b == map[p := File(s, true, 2, 5_000_000_000)];
    assert a.Keys == {p} && b.Keys == {p};
    if OrderOk(w) {
      assert Listing([p], a) == Listing([p], b);
      assert Contents(a)[p] == 1 && Contents(b)[p] == 2;
    }
  }

  /** However honest the change times are, without the hypothesis on transient
      paths a verification can cache a result no later re-hash confirms: a covered
      file that exists only while the content is read. */
  lemma TransientPathIsCached(q: Path, text: int, order: set<Path> -> seq<Path>)
    requires order({}) == []
    ensures var d := Declaration(text, {});
            var f := File(Stamp(1, 0, 2, 1, 1), true, 1, 2);
            var w := World(t => if t == 2 then map[q := f] else map[], order, paths => true, contents => true);
            var m := Manifest(d, d, Execution(d, map[q := 1]));
            var r := Reading(2, p => 2);
            && SinceOk(w) && ChangesAreStamped(w)
            && ReadContents(w, d, r, map[q := 1]) && Agrees(w, m, map[q := 1]) && Within(r, 1, 3)
            && (OrderOk(w) ==>
                  && Fingerprint(w, Covered(w.at(1), d), 1).Some?
                  && Fingerprint(w, Covered(w.at(1), d), 1) == Fingerprint(w, Covered(w.at(3), d), 3))
            && !Rehash(w, Covered(w.at(3), d), m)
  {
    var d := Declaration(text, {});
    var f := File(Stamp(1, 0, 2, 1, 1), true, 1, 2);
    var w := World(t => if t == 2 then map[q := f] else map[], order, paths => true, contents => true);
    assert Covered(w.at(2), d) == map[q := f];
    assert Covered(w.at(1), d) == map[] && Covered(w.at(3), d) == map[];
    assert q in map[q := 1] && q !in Contents(Covered(w.at(3), d));
    var empty: Tree := map[];
    assert empty.Keys == {};
    assert |map[q := 1]| == 1 by { assert map[q := 1].Keys == {q}; }
  }
}
