/** Publication of the authority locator (app_mcp_authority_binding.go:486-644):
    a staged file is written, synced and hard-linked to its final name, with
    failures after any call, rivals in between and crashes anywhere. Every
    intermediate state of the directory is recorded. */
module Locator {
  import opened Wrappers

  type Data = seq<int>
  type Inode = int

  datatype Name = Final | Stage(nonce: int)

  /** The directory as programs see it, the entries a directory sync has made
      durable, and the files whose content is on disk. */
  datatype Dir = Dir(entries: map<Name, Inode>, durable: map<Name, Inode>, contents: map<Inode, Data>, synced: set<Inode>)

  /** offered holds the whole records that publishers set out to publish. */
  predicate Complete(d: Dir, offered: set<Data>, i: Inode) {
    i in d.contents && i in d.synced && d.contents[i] in offered
  }

  /** The locator is absent or complete, and a durable one is the one there is. */
  predicate Sound(d: Dir, offered: set<Data>) {
    && (Final in d.entries ==> Complete(d, offered, d.entries[Final]))
    && (Final in d.durable ==> Final in d.entries && d.entries[Final] == d.durable[Final])
  }

  /** What a later state keeps: an existing locator and its content. */
  predicate Keeps(d: Dir, e: Dir) {
    && (Final in d.entries ==>
          Final in e.entries && e.entries[Final] == d.entries[Final] &&
          (d.entries[Final] in d.contents ==>
             d.entries[Final] in e.contents && e.contents[d.entries[Final]] == d.contents[d.entries[Final]]))
    && (Final in d.durable ==> Final in e.durable)
  }

  // ---- crashes -------------------------------------------------------------------

  /** After a crash each name is as it was or as it was last made durable, and a
      file not synced may hold anything. */
  ghost predicate CrashOf(d: Dir, e: Dir) {
    && e.durable == e.entries
    && (forall n :: n in e.entries ==>
          (n in d.entries && e.entries[n] == d.entries[n]) || (n in d.durable && e.entries[n] == d.durable[n]))
    && (forall n :: n in d.entries && n in d.durable && d.entries[n] == d.durable[n] ==> n in e.entries)
    && (forall i :: i in d.synced && i in d.contents ==> i in e.synced && i in e.contents && e.contents[i] == d.contents[i])
  }

  lemma CrashKeepsSound(d: Dir, e: Dir, offered: set<Data>)
    requires Sound(d, offered) && CrashOf(d, e)
    ensures Sound(e, offered)
    ensures Final in e.entries ==> Final in d.entries && e.entries[Final] == d.entries[Final]
    ensures Final in d.durable ==> Final in e.entries
  {
  }

  // ---- one call --------------------------------------------------------------------

  /** Another process that publishes in between, through the same steps. */
  datatype Rival = Rival(inode: Inode, data: Data)

  /** What each fallible call answers; a bool is its success. The write answers
      how many bytes the k-th call takes and whether it reports an error. */
  datatype Staging = Staging(open: bool, stat: bool, beforeWrite: bool, write: nat -> (nat, bool), fileSync: bool, close: bool)
  {
    /** Every call works, each write taking at least one byte. */
    ghost predicate Answers() {
      open && stat && beforeWrite && (forall k: nat :: Takes(write, k)) && fileSync && close
    }
  }

  predicate Takes(write: nat -> (nat, bool), k: nat) { write(k).0 > 0 && write(k).1 }

  datatype Publishing = Publishing(
    checks: bool, link: bool, afterLink: bool, unstage: bool, validate: bool, directorySync: bool, readback: bool)
  {
    predicate Answers() { checks && link && afterLink && unstage && validate && directorySync && readback }
  }

  datatype Closing = Closing(remove: bool, close: bool)

  datatype Outcome = Published | Conflict | Failed | Unknown

  class Directory {
    var entries: map<Name, Inode>
    var durable: map<Name, Inode>
    var contents: map<Inode, Data>
    var synced: set<Inode>
    ghost var offered: set<Data>
    ghost var trace: seq<Dir>

    constructor ()
      ensures State() == Dir(map[], map[], map[], {}) && offered == {} && trace == []
    {
      entries, durable, contents, synced, offered, trace := map[], map[], map[], {}, {}, [];
    }

    function State(): Dir
      reads this
    {
      Dir(entries, durable, contents, synced)
    }

    /** The states since a point of the trace: all sound, none giving up a
        locator that was there before, up to the present one. */
    ghost predicate Watched(from: nat, start: Dir)
      reads this
    {
      && from <= |trace| && Sound(State(), offered) && Keeps(start, State())
      && (forall k :: from <= k < |trace| ==> Sound(trace[k], offered) && Keeps(start, trace[k]) && Keeps(trace[k], State()))
    }

    /** This call's inode is not the locator. */
    ghost predicate Unlinked(inode: Inode)
      reads this
    {
      Final in entries ==> entries[Final] != inode
    }

    ghost method Observe(from: nat, start: Dir)
      requires Watched(from, start)
      modifies this`trace
      ensures Watched(from, start) && trace == old(trace) + [State()]
    {
      trace := trace + [State()];
    }

    /** A rival publishes if there is no locator yet; it uses its own file. */
    method Interfere(r: Option<Rival>, inode: Inode, ghost from: nat, ghost start: Dir)
      requires Watched(from, start) && Unlinked(inode)
      requires r.Some? ==> r.value.inode !in contents && r.value.inode != inode
      modifies this`entries, this`contents, this`synced, this`offered, this`trace
      ensures Watched(from, start) && Unlinked(inode) && old(trace) <= trace && old(offered) <= offered
      ensures inode in old(contents) ==> inode in contents && contents[inode] == old(contents)[inode]
      ensures inode in synced <==> inode in old(synced)
      ensures contents.Keys <= old(contents).Keys + (if r.Some? then {r.value.inode} else {})
      ensures forall n :: n != Final ==> (n in entries <==> n in old(entries)) && (n in entries ==> entries[n] == old(entries)[n])
      ensures r.None? || Final in old(entries) ==> entries == old(entries)
      ensures r.Some? ==> Final in entries
    {
      if r.Some? && Final !in entries {
        offered := offered + {r.value.data};
        contents := contents[r.value.inode := r.value.data];
        synced := synced + {r.value.inode};
        Observe(from, start);
        entries := entries[Final := r.value.inode];
        Observe(from, start);
      }
    }

    method CreateStage(inode: Inode, stage: Name, ghost from: nat, ghost start: Dir)
      requires Watched(from, start) && Unlinked(inode) && inode !in contents
      requires stage.Stage? && stage !in entries
      modifies this`entries, this`contents, this`trace
      ensures Watched(from, start) && Unlinked(inode) && old(trace) <= trace
      ensures entries == old(entries)[stage := inode] && contents == old(contents)[inode := []]
    {
      entries := entries[stage := inode];
      contents := contents[inode := []];
      Observe(from, start);
    }

    /** Create the staged file and write, sync and close it. */
    method StageFile(data: Data, inode: Inode, stage: Name, s: Staging, ghost from: nat, ghost start: Dir)
      returns (created: bool, ok: bool)
      requires Watched(from, start) && Unlinked(inode) && inode !in contents && inode !in synced
      requires stage.Stage? && stage !in entries
      modifies this`entries, this`contents, this`synced, this`trace
      ensures Watched(from, start) && Unlinked(inode) && old(trace) <= trace
      ensures created ==> stage in entries && entries[stage] == inode
      ensures !created ==> !ok && stage !in entries
      ensures ok ==> inode in contents && contents[inode] == data && inode in synced
      ensures (Final in entries <==> Final in old(entries)) && contents.Keys <= old(contents).Keys + {inode}
      ensures s.Answers() ==> ok
    {
      if !s.open {
        return false, false;
      }
      CreateStage(inode, stage, from, start);
      created := true;
      if !s.stat || !s.beforeWrite {
        return created, false;
      }
      var wrote := WriteAll(data, inode, s.write, from, start);
      ok := wrote && s.fileSync && s.close;
      if s.fileSync {
        synced := synced + {inode};
        Observe(from, start);
      }
    }

    /** The write loop: short writes go on, an error or an empty write ends it. */
    method WriteAll(data: Data, inode: Inode, write: nat -> (nat, bool), ghost from: nat, ghost start: Dir) returns (ok: bool)
      requires Watched(from, start) && Unlinked(inode) && inode in contents && contents[inode] == []
      modifies this`contents, this`trace
      ensures Watched(from, start) && Unlinked(inode) && old(trace) <= trace
      ensures contents.Keys == old(contents).Keys && (ok ==> contents[inode] == data)
      ensures (forall i: nat :: Takes(write, i)) ==> ok
    {
      var remaining, k := data, 0;
      while |remaining| > 0
        invariant Watched(from, start) && Unlinked(inode) && old(trace) <= trace
        invariant contents.Keys == old(contents).Keys && contents[inode] + remaining == data
        decreases |remaining|
      {
        var (asked, good) := write(k);
        var n := if asked <= |remaining| then asked else |remaining|;
        contents := contents[inode := contents[inode] + remaining[..n]];
        remaining := remaining[n..];
        Observe(from, start);
        k := k + 1;
        if !good || n == 0 {
          assert !Takes(write, k - 1);
          return false;
        }
      }
      ok := true;
    }

    /** Link the complete staged file to its final name, never replacing one. */
    method LinkFinal(data: Data, inode: Inode, p: Publishing, ghost from: nat, ghost start: Dir) returns (o: Outcome)
      requires Watched(from, start) && Unlinked(inode) && data in offered
      requires inode in contents && contents[inode] == data && inode in synced
      modifies this`entries, this`trace
      ensures Watched(from, start) && old(trace) <= trace
      ensures o.Published? ==> Final !in old(entries) && entries == old(entries)[Final := inode]
      ensures !o.Published? ==> (o.Conflict? || o.Failed?) && entries == old(entries)
      ensures o.Published? <==> Final !in old(entries) && p.link
      ensures o.Conflict? <==> Final in old(entries)
    {
      if Final in entries {
        return Conflict;
      }
      if !p.link {
        return Failed;
      }
      entries := entries[Final := inode];
      Observe(from, start);
      return Published;
    }

    method RemoveStage(stage: Name, ghost from: nat, ghost start: Dir)
      requires Watched(from, start) && stage.Stage?
      modifies this`entries, this`trace
      ensures Watched(from, start) && old(trace) <= trace && entries == old(entries) - {stage}
    {
      entries := entries - {stage};
      Observe(from, start);
    }

    method SyncDirectory(ghost from: nat, ghost start: Dir)
      requires Watched(from, start)
      modifies this`durable, this`trace
      ensures Watched(from, start) && old(trace) <= trace && durable == entries
    {
      durable := entries;
      Observe(from, start);
    }

    /** A locator that is already there: the same record is made durable and read
        back, another one is a conflict. */
    method Adopt(data: Data, syncOk: bool, readbackOk: bool, ghost from: nat, ghost start: Dir) returns (o: Outcome)
      requires Watched(from, start) && Final in entries
      modifies this`durable, this`trace
      ensures Watched(from, start) && old(trace) <= trace
      ensures o.Conflict? <==> contents[entries[Final]] != data
      ensures o.Published? ==> contents[entries[Final]] == data && Final in durable
      ensures !o.Failed?
      ensures o.Published? <==> contents[entries[Final]] == data && syncOk && readbackOk
    {
      if contents[entries[Final]] != data {
        return Conflict;
      }
      if !syncOk {
        return Unknown;
      }
      SyncDirectory(from, start);
      o := if readbackOk then Published else Unknown;
    }

    /** After the link: drop the staged name, make the directory durable, read
        back. Any failure from here on is the unknown outcome. */
    method Conclude(stage: Name, data: Data, inode: Inode, p: Publishing, ghost from: nat, ghost start: Dir)
      returns (unstaged: bool, o: Outcome)
      requires Watched(from, start) && stage.Stage? && Final in entries && entries[Final] == inode
      requires inode in contents && contents[inode] == data
      modifies this`entries, this`durable, this`trace
      ensures Watched(from, start) && old(trace) <= trace && Final in entries && entries[Final] == inode
      ensures o.Published? || o.Unknown?
      ensures unstaged ==> stage !in entries
      ensures o.Published? ==> unstaged && Final in durable
      ensures p.Answers() ==> o.Published?
    {
      if !p.afterLink || !p.unstage {
        return false, Unknown;
      }
      RemoveStage(stage, from, start);
      unstaged := true;
      if !p.validate || !p.directorySync {
        return unstaged, Unknown;
      }
      SyncDirectory(from, start);
      o := if p.readback && contents[entries[Final]] == data then Published else Unknown;
    }

    /** From the staged file to the outcome, cleanup apart. */
    method StageAndLink(data: Data, inode: Inode, stage: Name, s: Staging, p: Publishing, rival: Option<Rival>,
                        ghost from: nat, ghost start: Dir)
      returns (published: bool, unstaged: bool, o: Outcome)
      requires Watched(from, start) && Unlinked(inode) && inode !in contents && inode !in synced && data in offered
      requires stage.Stage? && stage !in entries
      requires rival.Some? ==> rival.value.inode !in contents && rival.value.inode != inode
      modifies this
      ensures Watched(from, start) && old(trace) <= trace
      ensures published <==> !Unlinked(inode)
      ensures !published ==> o.Failed? || o.Conflict?
      ensures published ==> o.Published? || o.Unknown?
      ensures o.Published? ==> unstaged && contents[inode] == data && Final in durable
      ensures s.Answers() && p.Answers() && rival.None? && Final !in old(entries) ==> o.Published?
      ensures s.Answers() && p.checks && rival.Some? ==> o.Conflict?
    {
      var created, staged := StageFile(data, inode, stage, s, from, start);
      if !staged || !p.checks {
        return false, !created, Failed;
      }
      Interfere(rival, inode, from, start);
      o := LinkFinal(data, inode, p, from, start);
      published, unstaged := o.Published?, false;
      if published {
        unstaged, o := Conclude(stage, data, inode, p, from, start);
      }
    }

    /** One publication. At every point of it, and after any crash, the locator is
        absent or complete, and one that was there stays as it was; success means
        it holds the record, durably; and any error but the unknown outcome means
        this call published nothing. An existing locator that cannot be read is a
        plain error. */
    method Publish(data: Data, inode: Inode, stage: Name, read: bool, ready: bool, s: Staging, p: Publishing, c: Closing,
                   first: Option<Rival>, second: Option<Rival>) returns (o: Outcome)
      requires Sound(State(), offered) && stage.Stage? && stage !in entries
      requires inode !in contents && inode !in synced && Unlinked(inode)
      requires first.Some? ==> first.value.inode !in contents && first.value.inode != inode
      requires second.Some? ==> second.value.inode !in contents && second.value.inode != inode
      requires first.Some? && second.Some? ==> first.value.inode != second.value.inode
      modifies this
      ensures Watched(|old(trace)|, old(State())) && old(trace) <= trace
      ensures o.Published? ==> Final in entries && contents[entries[Final]] == data && Final in durable
      ensures o.Failed? || o.Conflict? ==> Unlinked(inode)
      ensures o.Unknown? && Final !in old(entries) ==> !Unlinked(inode)
      ensures Final in old(entries) ==> Unlinked(inode) && (o.Failed? <==> !read)
      ensures !read ==> o.Failed? && State() == old(State())
      ensures read && Final !in old(entries) && ready && s.Answers() && p.Answers() && first.None? && second.None? &&
              c.remove && c.close ==>
                o.Published? && !Unlinked(inode)
      ensures read && Final !in old(entries) && ready && s.Answers() && p.checks && first.None? && second.Some? ==> o.Conflict?
      ensures read && Final in old(entries) && old(entries)[Final] in old(contents) ==>
                && (o.Conflict? <==> old(contents)[old(entries)[Final]] != data)
                && (o.Published? <==> old(contents)[old(entries)[Final]] == data && ready && p.readback)
    {
      ghost var from, start := |trace|, State();
      offered := offered + {data};
      if !read {
        return Failed;
      }
      if Final in entries {
        o := Adopt(data, ready, p.readback, from, start);
        return;
      }
      if !ready {
        return Failed;
      }
      Interfere(first, inode, from, start);
      if Final in entries {
        return Failed;
      }
      var published, unstaged;
      published, unstaged, o := StageAndLink(data, inode, stage, s, p, second, from, start);
      if !unstaged {
        if c.remove {
          RemoveStage(stage, from, start);
        } else if published {
          o := Unknown;
        }
      }
      if !c.close && published {
        o := Unknown;
      }
    }
  }
}
