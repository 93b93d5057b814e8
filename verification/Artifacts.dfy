/** The artifact ring (app_mcp_artifacts.go:219-432): manifests in a table, bytes
    in storage, a per-owner budget, and removals that follow the commit. */
module Artifacts {
  import opened Wrappers

  type Ref = int
  type Owner = int

  const KEEP_PER_USER := 25
  const BYTES_PER_USER := 0x800_0000
  const LIFETIME := 7 * 24 * 3600
  const MAX_BYTES := 50 * 0x10_0000
  const ORPHAN_GRACE := 600

  /** A manifest row; id and storage reference are one fresh name, and created is
      None when it does not parse. */
  datatype Manifest = Manifest(ref: Ref, owner: Owner, read: bool, size: nat, created: Option<int>)

  /** The clock as an eviction reads it, row by row, newest first. */
  type Clock = nat -> int

  predicate ExpiredAt(m: Manifest, now: int) { m.created.None? || now - m.created.value > LIFETIME }

  /** The owner's read artifacts, newest first; rows are kept oldest first. */
  function Reads(rows: seq<Manifest>, owner: Owner): seq<Manifest> {
    if rows == [] then []
    else
      var last, before := rows[|rows| - 1], Reads(rows[..|rows| - 1], owner);
      if last.owner == owner && last.read then [last] + before else before
  }

  function Bytes(ms: seq<Manifest>): nat {
    if ms == [] then 0 else Bytes(ms[..|ms| - 1]) + ms[|ms| - 1].size
  }

  /** Whether the k newest fit beside one more artifact of the given size. */
  predicate Fits(shown: seq<Manifest>, k: nat, size: nat, clock: Clock)
    requires k <= |shown|
  {
    && (k > 0 ==> k + 1 <= KEEP_PER_USER && size + Bytes(shown[..k]) <= BYTES_PER_USER)
    && forall i :: 0 <= i < k ==> !ExpiredAt(shown[i], clock(i))
  }

  /** The longest newest-first run that fits. */
  predicate Longest(shown: seq<Manifest>, k: nat, size: nat, clock: Clock) {
    k <= |shown| && Fits(shown, k, size, clock) && forall j :: k < j <= |shown| ==> !Fits(shown, j, size, clock)
  }

  lemma {:induction false} BytesGrow(ms: seq<Manifest>, j: nat, k: nat)
    requires j <= k <= |ms|
    ensures Bytes(ms[..j]) <= Bytes(ms[..k])
    decreases k - j
  {
    if j < k {
      BytesGrow(ms, j, k - 1);
      assert ms[..k][..k - 1] == ms[..k - 1];
    }
  }

  lemma FitsShrinks(shown: seq<Manifest>, j: nat, k: nat, size: nat, clock: Clock)
    requires j <= k <= |shown| && Fits(shown, k, size, clock)
    ensures Fits(shown, j, size, clock)
  {
    BytesGrow(shown, j, k);
  }

  /** The rows without all but the k newest read artifacts of an owner. */
  function KeepNewest(rows: seq<Manifest>, owner: Owner, k: nat): seq<Manifest> {
    if rows == [] then []
    else
      var init, last := rows[..|rows| - 1], rows[|rows| - 1];
      if last.owner == owner && last.read then
        if k > 0 then KeepNewest(init, owner, k - 1) + [last] else KeepNewest(init, owner, 0)
      else KeepNewest(init, owner, k) + [last]
  }

  lemma {:induction false} KeepNewestKeeps(rows: seq<Manifest>, owner: Owner, k: nat)
    requires k <= |Reads(rows, owner)|
    ensures Reads(KeepNewest(rows, owner, k), owner) == Reads(rows, owner)[..k]
    ensures forall m :: m in KeepNewest(rows, owner, k) ==> m in rows
    ensures forall m :: m in rows && (m.owner != owner || !m.read) ==> m in KeepNewest(rows, owner, k)
  {
    if rows != [] {
      var init, last := rows[..|rows| - 1], rows[|rows| - 1];
      assert rows == init + [last];
      var mine := last.owner == owner && last.read;
      var less := if mine && k > 0 then k - 1 else k;
      KeepNewestKeeps(init, owner, less);
      var kept := KeepNewest(init, owner, less);
      if !mine || k > 0 {
        assert (kept + [last])[..|kept|] == kept;
      }
    }
  }

  lemma FitsOneMore(shown: seq<Manifest>, k: nat, size: nat, clock: Clock)
    requires k < |shown| && Fits(shown, k, size, clock)
    ensures Bytes(shown[..k + 1]) == Bytes(shown[..k]) + shown[k].size
    ensures Fits(shown, k + 1, size, clock) <==>
            k + 2 <= KEEP_PER_USER && size + Bytes(shown[..k + 1]) <= BYTES_PER_USER && !ExpiredAt(shown[k], clock(k))
  {
    assert shown[..k + 1][..k] == shown[..k];
  }

  lemma StopsAtLongest(shown: seq<Manifest>, k: nat, size: nat, clock: Clock)
    requires k <= |shown| && Fits(shown, k, size, clock) && (k < |shown| ==> !Fits(shown, k + 1, size, clock))
    ensures Longest(shown, k, size, clock)
  {
    forall j | k < j <= |shown| ensures !Fits(shown, j, size, clock) {
      if Fits(shown, j, size, clock) {
        FitsShrinks(shown, k + 1, j, size, clock);
      }
    }
  }

  // ---- eviction -----------------------------------------------------------------------

  predicate Distinct(rows: seq<Manifest>) {
    forall i, j :: 0 <= i < j < |rows| ==> rows[i].ref != rows[j].ref
  }

  function Refs(ms: seq<Manifest>): set<Ref> { set m | m in ms :: m.ref }

  function Without(rows: seq<Manifest>, gone: set<Ref>): seq<Manifest> {
    if rows == [] then []
    else
      var last := rows[|rows| - 1];
      Without(rows[..|rows| - 1], gone) + (if last.ref in gone then [] else [last])
  }

  lemma {:induction false} WithoutMeans(rows: seq<Manifest>, gone: set<Ref>, m: Manifest)
    ensures m in Without(rows, gone) <==> m in rows && m.ref !in gone
  {
    if rows != [] {
      WithoutMeans(rows[..|rows| - 1], gone, m);
      assert rows == rows[..|rows| - 1] + [rows[|rows| - 1]];
    }
  }

  lemma {:induction false} WithoutOthers(rows: seq<Manifest>, gone: set<Ref>, other: Ref)
    requires forall m :: m in rows ==> m.ref != other
    ensures Without(rows, gone + {other}) == Without(rows, gone)
  {
    if rows != [] {
      WithoutOthers(rows[..|rows| - 1], gone, other);
    }
  }

  lemma {:induction false} ReadsAreRows(rows: seq<Manifest>, owner: Owner)
    ensures forall m :: m in Reads(rows, owner) ==> m in rows && m.owner == owner && m.read
  {
    if rows != [] {
      ReadsAreRows(rows[..|rows| - 1], owner);
    }
  }

  lemma EvictedOneMore(shown: seq<Manifest>, k: nat, i: nat, refs: seq<Ref>)
    requires k <= i < |shown| && Elements(refs) == Refs(shown[k..i])
    ensures Elements(refs + [shown[i].ref]) == Refs(shown[k..i + 1])
  {
    ElementsAppend(refs, shown[i].ref);
    assert shown[k..i + 1] == shown[k..i] + [shown[i]];
    RefsOfLast(shown[k..i], shown[i]);
  }

  lemma RefsOfLast(ms: seq<Manifest>, m: Manifest)
    ensures Refs(ms + [m]) == Refs(ms) + {m.ref}
  {
    assert forall x :: x in ms + [m] <==> x in ms || x == m;
  }

  lemma NotAmong(rows: seq<Manifest>, ms: seq<Manifest>, other: Ref)
    requires (forall m :: m in ms ==> m in rows) && forall m :: m in rows ==> m.ref != other
    ensures other !in Refs(ms)
  {
  }

  lemma RefsOfOneMore(m: Manifest, ms: seq<Manifest>)
    ensures Refs([m] + ms) == Refs(ms) + {m.ref}
  {
    assert forall x :: x in [m] + ms <==> x == m || x in ms;
  }

  lemma LastIsDistinct(rows: seq<Manifest>)
    requires Distinct(rows) && rows != []
    ensures Distinct(rows[..|rows| - 1])
    ensures forall m :: m in rows[..|rows| - 1] ==> m.ref != rows[|rows| - 1].ref
  {
  }

  /** Deleting the rows past the k newest by their ids leaves the k newest. */
  lemma {:induction false} DeletingTheRest(rows: seq<Manifest>, owner: Owner, k: nat)
    requires Distinct(rows) && k <= |Reads(rows, owner)|
    ensures Without(rows, Refs(Reads(rows, owner)[k..])) == KeepNewest(rows, owner, k)
  {
    if rows != [] {
      var init, last := rows[..|rows| - 1], rows[|rows| - 1];
      var shown, earlier := Reads(rows, owner), Reads(init, owner);
      ReadsAreRows(init, owner);
      LastIsDistinct(rows);
      if last.owner == owner && last.read && k == 0 {
        assert shown[0..] == [last] + earlier && earlier[0..] == earlier;
        RefsOfOneMore(last, earlier);
        DeletingTheRest(init, owner, 0);
        WithoutOthers(init, Refs(earlier), last.ref);
      } else {
        var less := if last.owner == owner && last.read then k - 1 else k;
        assert shown[k..] == earlier[less..];
        NotAmong(init, earlier[less..], last.ref);
        DeletingTheRest(init, owner, less);
      }
    }
  }

  datatype Commit = Committed | RolledBack | FailedButLanded

  /** The newest run with the new artifact before it is within the budget, and one more
      would break it or is past its lifetime. */
  lemma LongestIsInBudget(m: Manifest, shown: seq<Manifest>, k: nat, clock: Clock)
    requires Longest(shown, k, m.size, clock) && m.size <= MAX_BYTES
    ensures 1 + k <= 25 && m.size + Bytes(shown[..k]) <= 128 * 0x10_0000
    ensures Bytes([m] + shown[..k]) == m.size + Bytes(shown[..k])
    ensures forall i :: 0 <= i < k ==> shown[i].created.Some? && clock(i) - shown[i].created.value <= 7 * 86400
    ensures k < |shown| ==>
              || 2 + k > 25 || m.size + Bytes(shown[..k]) + shown[k].size > 128 * 0x10_0000
              || shown[k].created.None? || clock(k) - shown[k].created.value > 7 * 86400
  {
    BytesInFront(m, shown[..k]);
    if k < |shown| {
      FitsOneMore(shown, k, m.size, clock);
    }
  }

  lemma {:induction false} BytesInFront(m: Manifest, ms: seq<Manifest>)
    ensures Bytes([m] + ms) == m.size + Bytes(ms)
  {
    if ms != [] {
      var all := [m] + ms;
      assert all[..|all| - 1] == [m] + ms[..|ms| - 1];
      BytesInFront(m, ms[..|ms| - 1]);
    }
  }

  class Ring {
    var rows: seq<Manifest>
    var files: map<Ref, nat>

    constructor ()
      ensures rows == [] && files == map[]
    {
      rows, files := [], map[];
    }

    /** Walk newest to oldest; the first artifact that breaks a budget or is past
        its lifetime goes with every older one. */
    static method ChooseEvicted(shown: seq<Manifest>, size: nat, clock: Clock) returns (refs: seq<Ref>, ghost k: nat)
      ensures Longest(shown, k, size, clock)
      ensures Elements(refs) == Refs(shown[k..])
      ensures forall n: nat :: Longest(shown, n, size, clock) ==> Elements(refs) == Refs(shown[n..])
    {
      refs := [];
      k := 0;
      var kept, keptBytes, evicting := 1, size, false;
      for i := 0 to |shown|
        invariant k <= i && (!evicting ==> k == i) && kept == k + 1 && keptBytes == size + Bytes(shown[..k])
        invariant Fits(shown, k, size, clock)
        invariant evicting ==> k < |shown| && !Fits(shown, k + 1, size, clock)
        invariant !evicting ==> refs == []
        invariant Elements(refs) == Refs(shown[k..i])
      {
        if !evicting {
          FitsOneMore(shown, k, size, clock);
          evicting := kept >= KEEP_PER_USER || keptBytes + shown[i].size > BYTES_PER_USER || ExpiredAt(shown[i], clock(i));
        }
        if evicting {
          EvictedOneMore(shown, k, i, refs);
          refs := refs + [shown[i].ref];
        } else {
          kept, keptBytes := kept + 1, keptBytes + shown[i].size;
          k := k + 1;
          assert refs == [] && shown[k..i + 1] == [];
        }
      }
      assert shown[k..|shown|] == shown[k..];
      StopsAtLongest(shown, k, size, clock);
    }

    /** Make room for one more artifact of the owner. */
    method Evict(owner: Owner, size: nat, clock: Clock) returns (refs: seq<Ref>, ghost k: nat)
      requires Distinct(rows)
      modifies this`rows
      ensures Longest(Reads(old(rows), owner), k, size, clock)
      ensures rows == KeepNewest(old(rows), owner, k)
      ensures Elements(refs) == Refs(Reads(old(rows), owner)[k..])
      ensures Leave(old(rows), rows, refs)
    {
      var shown := SelectReads(owner);
      refs, k := ChooseEvicted(shown, size, clock);
      DeletingTheRest(rows, owner, k);
      ReadsAreRows(rows, owner);
      DeleteRows(refs);
      forall m ensures m in rows <==> m in old(rows) && m.ref !in refs {
        WithoutMeans(old(rows), Elements(refs), m);
      }
      forall r | r in refs ensures exists m :: m in old(rows) && m.ref == r {
        assert r in Elements(refs);
        var m :| m in shown[k..] && m.ref == r;
        assert m in shown;
      }
    }

    method SelectReads(owner: Owner) returns (shown: seq<Manifest>)
      ensures shown == Reads(rows, owner)
    {
      shown := [];
      for i := 0 to |rows|
        invariant shown == Reads(rows[..i], owner)
      {
        assert rows[..i + 1][..i] == rows[..i];
        if rows[i].owner == owner && rows[i].read {
          shown := [rows[i]] + shown;
        }
      }
      assert rows[..|rows|] == rows;
    }

    method DeleteRows(refs: seq<Ref>)
      modifies this`rows
      ensures rows == Without(old(rows), Elements(refs))
    {
      var before := rows;
      var after: seq<Manifest> := [];
      for i := 0 to |before|
        invariant rows == before && after == Without(before[..i], Elements(refs))
      {
        assert before[..i + 1][..i] == before[..i];
        if before[i].ref !in refs {
          after := after + [before[i]];
        }
      }
      assert before[..|before|] == before;
      rows := after;
    }

    predicate Named(r: Ref)
      reads this`rows
    {
      exists m :: m in rows && m.ref == r
    }

    /** Remove the bytes of deleted manifests; one that some manifest still names
        is kept, and a failed removal is left for the sweep. */
    method DeleteBytes(refs: seq<Ref>, fails: nat -> bool)
      modifies this`files
      ensures forall r :: r in files ==> r in old(files) && files[r] == old(files)[r]
      ensures forall r :: r in old(files) ==>
                (r !in files <==> !Named(r) && exists i :: 0 <= i < |refs| && refs[i] == r && !fails(i))
    {
      for i := 0 to |refs|
        invariant forall r :: r in files ==> r in old(files) && files[r] == old(files)[r]
        invariant forall r :: r in old(files) ==>
                    (r !in files <==> !Named(r) && exists j :: 0 <= j < i && refs[j] == r && !fails(j))
      {
        if !(exists m | m in rows :: m.ref == refs[i]) && !fails(i) {
          files := files - {refs[i]};
        }
      }
    }

    /** Every manifest has its bytes, of its size. */
    ghost predicate Backed()
      reads this
    {
      forall m :: m in rows ==> m.ref in files && files[m.ref] == m.size
    }

    /** The rows once the new manifest is in and the evictions are done. */
    method InsertRow(m: Manifest, budgeted: bool, clock: Clock) returns (evicted: seq<Ref>, ghost k: nat)
      requires Distinct(rows) && forall x :: x in rows ==> x.ref != m.ref
      modifies this`rows
      ensures Distinct(rows) && m in rows
      ensures forall x :: x in rows <==> x == m || (x in old(rows) && x.ref !in evicted)
      ensures forall r :: r in evicted ==> exists x :: x in old(rows) && x.ref == r
      ensures forall x :: x in old(rows) && (!budgeted || x.owner != m.owner || !x.read) ==> x in rows
      ensures budgeted && m.read ==>
                Longest(Reads(old(rows), m.owner), k, m.size, clock) &&
                Reads(rows, m.owner) == [m] + Reads(old(rows), m.owner)[..k]
    {
      evicted, k := [], 0;
      if budgeted {
        evicted, k := Evict(m.owner, m.size, clock);
        KeepNewestKeeps(old(rows), m.owner, k);
        KeptDistinct(old(rows), m.owner, k);
      }
      ghost var kept := rows;
      assert forall x :: x in kept ==> x.ref != m.ref;
      rows := rows + [m];
      assert rows[..|rows| - 1] == kept;
    }

    /** One store: bytes, then the row with the evictions in one transaction, then
        the evicted bytes. After a budgeted success the owner's read artifacts are
        the new one and the longest newest-first run that fits beside it; after a
        failure that rolled back nothing is lost; after one that landed the new
        row has lost its bytes. The bytes that go are those of the evicted rows. */
    method StoreArtifact(m: Manifest, budgeted: bool, clock: Clock, saveOk: bool, commit: Commit, fails: nat -> bool)
      returns (ok: bool, ghost k: nat)
      requires Distinct(rows) && Backed() && m.ref !in files
      modifies this
      ensures ok <==> 0 < m.size <= MAX_BYTES && saveOk && commit.Committed?
      ensures ok ==> Distinct(rows) && Backed() && m in rows
      ensures ok && budgeted && m.read ==>
                Longest(Reads(old(rows), m.owner), k, m.size, clock) &&
                Reads(rows, m.owner) == [m] + Reads(old(rows), m.owner)[..k]
      ensures ok && budgeted && m.read ==>
                |Reads(rows, m.owner)| <= 25 && Bytes(Reads(rows, m.owner)) <= 128 * 0x10_0000
      ensures ok ==> forall x :: x in old(rows) && (!budgeted || x.owner != m.owner || !x.read) ==> x in rows
      ensures ok ==> forall r :: r in old(files) && r !in files ==> exists x :: x in old(rows) && x !in rows && x.ref == r
      ensures ok && (forall i: nat :: !fails(i)) ==> forall x :: x in old(rows) && x !in rows ==> x.ref !in files
      ensures !ok ==> (Backed() <==> !(0 < m.size <= MAX_BYTES && saveOk && commit.FailedButLanded?))
      ensures !ok && Backed() ==> rows == old(rows)
      ensures !ok ==> files == old(files)
    {
      k := 0;
      if m.size == 0 || m.size > MAX_BYTES || !saveOk {
        return false, k;
      }
      files := files[m.ref := m.size];
      var saved := rows;
      var evicted;
      evicted, k := InsertRow(m, budgeted, clock);
      if budgeted && m.read {
        LongestIsInBudget(m, Reads(saved, m.owner), k, clock);
      }
      if commit.RolledBack? {
        rows := saved;
      }
      if !commit.Committed? {
        files := files - {m.ref};
        assert commit.FailedButLanded? ==> m in rows;
        return false, k;
      }
      DeleteBytes(evicted, fails);
      forall r | r in old(files) && r !in files ensures exists x :: x in old(rows) && x !in rows && x.ref == r {
        assert r in evicted;
        var x :| x in old(rows) && x.ref == r;
        assert x !in rows;
      }
      ok := true;
    }
  }

  /** The rows of these ids go, and no others; each id is a row's. */
  ghost predicate Leave(before: seq<Manifest>, after: seq<Manifest>, refs: seq<Ref>) {
    && (forall m :: m in after <==> m in before && m.ref !in refs)
    && (forall r :: r in refs ==> exists m :: m in before && m.ref == r)
  }

  function Elements(refs: seq<Ref>): set<Ref> { set r | r in refs }

  lemma ElementsAppend(refs: seq<Ref>, r: Ref)
    ensures Elements(refs + [r]) == Elements(refs) + {r}
  {
  }

  lemma {:induction false} KeptDistinct(rows: seq<Manifest>, owner: Owner, k: nat)
    requires Distinct(rows)
    ensures Distinct(KeepNewest(rows, owner, k))
  {
    if rows != [] {
      var init, last := rows[..|rows| - 1], rows[|rows| - 1];
      var mine := last.owner == owner && last.read;
      var less := if mine && k > 0 then k - 1 else k;
      KeptDistinct(init, owner, less);
      KeptAreRows(init, owner, less);
      var kept := KeepNewest(init, owner, less);
      forall i | 0 <= i < |kept| ensures kept[i].ref != last.ref {
        assert kept[i] in init;
        NewNames(init, last, kept[i]);
      }
    }
  }

  lemma NewNames(init: seq<Manifest>, last: Manifest, m: Manifest)
    requires m in init && forall i :: 0 <= i < |init| ==> init[i].ref != last.ref
    ensures m.ref != last.ref
  {
  }

  lemma {:induction false} KeptAreRows(rows: seq<Manifest>, owner: Owner, k: nat)
    ensures forall m :: m in KeepNewest(rows, owner, k) ==> m in rows
  {
    if rows != [] {
      var last := rows[|rows| - 1];
      KeptAreRows(rows[..|rows| - 1], owner, if last.owner == owner && last.read && k > 0 then k - 1 else k);
    }
  }
}
