/** Artifact bytes and rows over every interleaving of stores, evictions, purges,
    orphan sweeps and crashes (app_mcp_artifacts.go:219-303, 314-385). */
module ArtifactRuns {
  import Artifacts

  type Ref = int

  /** rows and files last; the rest is what running processes still mean to do:
      stores with saved bytes and no row yet, failed stores about to remove their
      bytes, deleted manifests whose bytes may go, and sweep candidates. */
  datatype World = World(
    rows: set<Ref>, files: map<Ref, int>,
    pending: set<Ref>, cleanup: set<Ref>, doomed: set<Ref>, candidates: set<Ref>,
    ghost used: set<Ref>, ghost lost: set<Ref>)

  datatype Event =
    | Save(ref: Ref, at: int)
    | Land(ref: Ref, evicted: set<Ref>)
    | FailCommit(ref: Ref, landed: bool, evicted: set<Ref>)
    | CleanUp(ref: Ref)
    | RemoveBytes(ref: Ref)
    | Purge(gone: set<Ref>)
    | SweepStart(now: int)
    | SweepDelete(ref: Ref)
    | Crash

  ghost function Initial(): World { World({}, map[], {}, {}, {}, {}, {}, {}) }

  /** References are fresh, and a store finishes within the sweep's grace. */
  ghost predicate ValidEvent(w: World, e: Event) {
    match e
    case Save(ref, _) => ref !in w.used
    case Land(ref, _) => ref in w.pending
    case FailCommit(ref, _, _) => ref in w.pending
    case CleanUp(ref) => ref in w.cleanup
    case RemoveBytes(ref) => ref in w.doomed
    case SweepStart(now) => forall r :: r in w.pending && r in w.files ==> w.files[r] >= now - Artifacts.ORPHAN_GRACE
    case SweepDelete(ref) => ref in w.candidates
    case _ => true
  }

  ghost function Next(w: World, e: Event): World {
    match e
    case Save(ref, at) => w.(files := w.files[ref := at], pending := w.pending + {ref}, used := w.used + {ref})
    case Land(ref, evicted) =>
      w.(rows := w.rows - evicted + {ref}, pending := w.pending - {ref}, doomed := w.doomed + (w.rows * evicted))
    case FailCommit(ref, landed, evicted) =>
      w.(rows := if landed then w.rows - evicted + {ref} else w.rows, pending := w.pending - {ref},
         cleanup := w.cleanup + {ref}, lost := if landed then w.lost + {ref} else w.lost)
    case CleanUp(ref) => w.(files := w.files - {ref}, cleanup := w.cleanup - {ref})
    case RemoveBytes(ref) =>
      if ref in w.rows then w.(doomed := w.doomed - {ref})
      else w.(files := w.files - {ref}, doomed := w.doomed - {ref})
    case Purge(gone) => w.(rows := w.rows - gone, doomed := w.doomed + (w.rows * gone))
    case SweepStart(now) =>
      w.(candidates := set r | r in w.files && r !in w.rows && w.files[r] < now - Artifacts.ORPHAN_GRACE)
    case SweepDelete(ref) => w.(files := w.files - {ref}, candidates := w.candidates - {ref})
    case Crash => w.(pending := {}, cleanup := {}, doomed := {}, candidates := {})
  }

  ghost predicate Inv(w: World) {
    && w.rows + w.pending + w.cleanup + w.doomed + w.candidates + w.files.Keys <= w.used
    && w.pending <= w.files.Keys && w.rows <= w.files.Keys + w.lost
    && w.pending !! (w.rows + w.cleanup + w.doomed + w.candidates)
    && w.rows !! (w.doomed + w.candidates) && w.rows * w.cleanup <= w.lost
  }

  lemma StepKeeps(w: World, e: Event)
    requires Inv(w) && ValidEvent(w, e)
    ensures Inv(Next(w, e))
  {
    if e.SweepStart? {
      forall r | r in w.pending ensures r !in Next(w, e).candidates {
        assert r in w.files.Keys;
      }
    }
  }

  ghost function Run(w: World, es: seq<Event>): World
    decreases |es|
  {
    if es == [] then w else Run(Next(w, es[0]), es[1..])
  }

  ghost predicate ValidRun(w: World, es: seq<Event>)
    decreases |es|
  {
    es == [] || (ValidEvent(w, es[0]) && ValidRun(Next(w, es[0]), es[1..]))
  }

  /** A failed COMMIT rolled back. */
  predicate Honest(es: seq<Event>) {
    forall i :: 0 <= i < |es| ==> es[i].FailCommit? ==> !es[i].landed
  }

  lemma {:induction false} RunKeeps(w: World, es: seq<Event>)
    requires Inv(w) && ValidRun(w, es)
    ensures Inv(Run(w, es))
    ensures Honest(es) ==> Run(w, es).lost == w.lost
    decreases |es|
  {
    if es != [] {
      StepKeeps(w, es[0]);
      RunKeeps(Next(w, es[0]), es[1..]);
      if Honest(es) {
        assert forall i :: 0 <= i < |es| - 1 ==> es[1..][i] == es[i + 1];
        assert es[0].FailCommit? ==> !es[0].landed;
      }
    }
  }

  /** Across every run, wherever processes crash, a manifest row without bytes is
      one whose COMMIT reported failure and landed; if failed COMMITs roll back,
      every row has its bytes. */
  lemma RowsKeepTheirBytes(es: seq<Event>)
    requires ValidRun(Initial(), es)
    ensures var w := Run(Initial(), es); w.rows - w.files.Keys <= w.lost
    ensures Honest(es) ==> Run(Initial(), es).rows <= Run(Initial(), es).files.Keys
  {
    RunKeeps(Initial(), es);
  }

  /** The hypothesis is needed: a store whose COMMIT landed although it failed
      removes the bytes its own row names. */
  lemma LandedFailureLosesBytes(ref: Ref, at: int)
    ensures var es := [Save(ref, at), FailCommit(ref, true, {}), CleanUp(ref)];
            ValidRun(Initial(), es) && ref in Run(Initial(), es).rows && ref !in Run(Initial(), es).files
  {
    var w1 := Next(Initial(), Save(ref, at));
    var w2 := Next(w1, FailCommit(ref, true, {}));
    var w3 := Next(w2, CleanUp(ref));
    var es := [Save(ref, at), FailCommit(ref, true, {}), CleanUp(ref)];
    assert es[1..] == [FailCommit(ref, true, {}), CleanUp(ref)];
    assert es[1..][1..] == [CleanUp(ref)];
    assert es[1..][1..][1..] == [];
    assert Run(w3, []) == w3 && ValidRun(w3, []);
    assert Run(w2, es[1..][1..]) == w3 && ValidRun(w2, es[1..][1..]);
    assert Run(w1, es[1..]) == w3 && ValidRun(w1, es[1..]);
  }

  /** Nothing leaks for good: bytes no row, store or cleanup knows are candidates
      of the next sweep after the grace. */
  lemma OrphansAreSwept(w: World, r: Ref, now: int)
    requires r in w.files && r !in w.rows && w.files[r] < now - Artifacts.ORPHAN_GRACE
    ensures r in Next(w, SweepStart(now)).candidates
    ensures r !in Next(Next(w, SweepStart(now)), SweepDelete(r)).files
  {
  }
}
