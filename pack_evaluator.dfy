/**
 * `runs/experiments/pack-boxes-with-evaluator.py`: pack one entry with the
 * evaluator's `pack_box`, which returns a trajectory. The detached solute is
 * never handed to the packer, so the system holds the bulk species only. A
 * packing failure is written to `error.txt` and re-raised. On success the
 * topology is rebuilt by repeating each bulk molecule by its count, and the
 * first frame of the trajectory becomes the interchange's positions.
 */
module EvaluatorPacking {
  import opened Wrappers
  import opened Exceptions
  import opened PackingCommon
  import BoxSpecs
  import EntryNaming

  /** The packing call: the packed trajectory, or the exception it raised. */
  type Packer = PackRequest -> Result<Trajectory, PyError>

  /** `[mol] * n`: empty when `n` is zero or negative. */
  function Repeat(m: Molecule, n: int): (r: seq<Molecule>)
    ensures |r| == if n <= 0 then 0 else n
    ensures forall x :: x in r ==> x == m
  {
    if n <= 0 then [] else seq(n, _ => m)
  }

  /** The number of pairs `zip` yields: the shorter list decides. */
  function ZipLength<A, B>(a: seq<A>, b: seq<B>): nat {
    if |a| <= |b| then |a| else |b|
  }

  /** `extend([mol] * n)` for every `(mol, n)` of `zip(mols, counts)`, in order. */
  function Replicated(mols: seq<Molecule>, counts: seq<int>): seq<Molecule>
    decreases ZipLength(mols, counts)
  {
    var k := ZipLength(mols, counts);
    if k == 0 then []
    else Replicated(mols[..k - 1], counts[..k - 1]) + Repeat(mols[k - 1], counts[k - 1])
  }

  /** The sum of the positive counts among the first `k` pairs. */
  function CopyCount(counts: seq<int>, k: nat): nat
    requires k <= |counts|
  {
    if k == 0 then 0
    else CopyCount(counts, k - 1) + (if counts[k - 1] <= 0 then 0 else counts[k - 1])
  }

  /** The first frame, `trajectory.xyz[0]`; numpy raises on an empty trajectory. */
  function FirstFrame(t: Trajectory): (r: Result<Frame, PyError>)
    ensures r.Ok? <==> |t.frames| > 0
    ensures r.Ok? ==> r.value == t.frames[0]
  {
    if |t.frames| == 0 then Err(PyError("IndexError", "index 0 is out of bounds for axis 0 with size 0"))
    else Ok(t.frames[0])
  }

  lemma ReplicatedPrefix(mols: seq<Molecule>, counts: seq<int>, k: nat)
    requires k < |mols| && k < |counts|
    ensures Replicated(mols[..k + 1], counts[..k + 1]) == Replicated(mols[..k], counts[..k]) + Repeat(mols[k], counts[k])
  {
    assert mols[..k + 1][..k] == mols[..k];
    assert counts[..k + 1][..k] == counts[..k];
  }

  /**
   * The loop building `topology_molecules`: over the pairs of
   * `zip(mols, n_molecules)`, extend the list by each molecule repeated by its
   * count.
   */
  method TopologyMolecules(mols: seq<Molecule>, counts: seq<int>) returns (r: seq<Molecule>)
    ensures r == Replicated(mols, counts)
  {
    r := [];
    var k := 0;
    while k < |mols| && k < |counts|
      invariant 0 <= k <= ZipLength(mols, counts)
      invariant r == Replicated(mols[..k], counts[..k])
    {
      ReplicatedPrefix(mols, counts, k);
      r := r + Repeat(mols[k], counts[k]);
      k := k + 1;
    }
    assert Replicated(mols, counts) == Replicated(mols[..k], counts[..k]) by {
      if k == |mols| {
        assert mols[..k] == mols;
        assert ZipLength(mols, counts) == ZipLength(mols, counts[..k]);
        ReplicatedTruncates(mols, counts);
      } else {
        assert counts[..k] == counts;
        ReplicatedTruncates(mols, counts);
      }
    }
  }

  /** `zip` ignores the tail of the longer list. */
  lemma ReplicatedTruncates(mols: seq<Molecule>, counts: seq<int>)
    ensures var k := ZipLength(mols, counts);
            Replicated(mols, counts) == Replicated(mols[..k], counts[..k])
  {
    var k := ZipLength(mols, counts);
    if k > 0 {
      assert mols[..k][..k - 1] == mols[..k - 1];
      assert counts[..k][..k - 1] == counts[..k - 1];
    }
  }

  /** The topology holds as many molecules as the positive counts add up to, over the zipped pairs. */
  lemma {:induction false} ReplicatedLength(mols: seq<Molecule>, counts: seq<int>)
    ensures |Replicated(mols, counts)| == CopyCount(counts, ZipLength(mols, counts))
    decreases ZipLength(mols, counts)
  {
    var k := ZipLength(mols, counts);
    if k > 0 {
      ReplicatedLength(mols[..k - 1], counts[..k - 1]);
      assert ZipLength(mols[..k - 1], counts[..k - 1]) == k - 1;
      CopyCountPrefix(counts, k - 1, k - 1);
    }
  }

  lemma {:induction false} CopyCountPrefix(counts: seq<int>, m: nat, k: nat)
    requires k <= m <= |counts|
    ensures CopyCount(counts[..m], k) == CopyCount(counts, k)
    decreases k
  {
    if k > 0 {
      CopyCountPrefix(counts, m, k - 1);
      assert counts[..m][k - 1] == counts[k - 1];
    }
  }

  /**
   * Every molecule of the topology is a bulk molecule with a positive count:
   * nothing else (in particular no detached solute) can enter it.
   */
  lemma {:induction false} ReplicatedMembers(mols: seq<Molecule>, counts: seq<int>, x: Molecule)
    requires x in Replicated(mols, counts)
    ensures exists i :: 0 <= i < |mols| && i < |counts| && mols[i] == x && counts[i] > 0
    decreases ZipLength(mols, counts)
  {
    var k := ZipLength(mols, counts);
    if x in Repeat(mols[k - 1], counts[k - 1]) {
      assert mols[k - 1] == x && counts[k - 1] > 0;
    } else {
      ReplicatedMembers(mols[..k - 1], counts[..k - 1], x);
      var i :| 0 <= i < k - 1 && mols[..k - 1][i] == x && counts[..k - 1][i] > 0;
      assert mols[i] == x && counts[i] > 0;
    }
  }

  /** Every bulk molecule with a positive count appears in the topology. */
  lemma {:induction false} ReplicatedCovers(mols: seq<Molecule>, counts: seq<int>, i: nat)
    requires i < |mols| && i < |counts| && counts[i] > 0
    ensures mols[i] in Replicated(mols, counts)
    decreases ZipLength(mols, counts)
  {
    var k := ZipLength(mols, counts);
    if i == k - 1 {
      assert mols[i] == Repeat(mols[i], counts[i])[0];
    } else {
      ReplicatedCovers(mols[..k - 1], counts[..k - 1], i);
    }
  }

  /** The packing request: the bulk only, no solute structure, centred. */
  function Request(p: Prepared): PackRequest {
    PackRequest(p.detached.molecules, p.detached.counts, None, true)
  }

  /** The files a completed run writes, in order. */
  function Artifacts(dir: string, ic: Interchange, t: Trajectory, elapsed: real): seq<FileWrite> {
    [ FileWrite(dir, "interchange.json", InterchangeJson(ic)),
      FileWrite(dir, "input.pdb", TrajectoryPdb(t)),
      FileWrite(dir, "input.gro", Gro(ic)),
      FileWrite(dir, "system.top", Top(ic)),
      FileWrite(dir, "time.json", Timing(elapsed)) ]
  }

  /**
   * What one run of the script does, as a value: nothing when the opening
   * raises; otherwise the entry directory is made and packing is called. A
   * packing failure leaves `error.txt` and is re-raised; after packing, the
   * topology is the replicated bulk, parameterised, and given the first
   * frame as positions; a success leaves the four structure files and the
   * timing record, in that order.
   */
  function Run(
    tk: Toolkit, packBox: Packer, data: seq<BoxSpecs.BoxRecord>, forceFieldName: string,
    out: string, index: int, existing: set<string>, start: real, end: real): Invocation
  {
    match Prepare(tk, data, forceFieldName, index, false)
    case Err(e) => EarlyCrash(existing, e)
    case Ok(p) =>
      var dir := EntryNaming.EntryDirectory(out, index);
      var dirs := MakeDirs(existing, dir);
      match packBox(Request(p))
      case Err(e) =>
        Invocation(dirs, Some(Request(p)), [FileWrite(dir, "error.txt", ErrorText(e.message))], Crashed(e))
      case Ok(t) => Packed(tk, p, dirs, dir, t, end - start)
  }

  /**
   * The run after a successful packing call: the replicated bulk is
   * parameterised and given the trajectory's first frame as positions, then
   * the files are written.
   */
  function Packed(tk: Toolkit, p: Prepared, dirs: set<string>, dir: string, t: Trajectory, elapsed: real): Invocation {
    var topology := Topology(Replicated(p.detached.molecules, p.detached.counts));
    match FromSmirnoff(tk, p.forceField, topology)
    case Err(e) => Invocation(dirs, Some(Request(p)), [], Crashed(e))
    case Ok(ic) =>
      match FirstFrame(t)
      case Err(e) => Invocation(dirs, Some(Request(p)), [], Crashed(e))
      case Ok(frame) =>
        Invocation(dirs, Some(Request(p)), Artifacts(dir, ic.(positions := Some(frame)), t, elapsed), Completed)
  }

  /**
   * The script's `main` for one index. `existing` is the set of directories
   * before the run, and `start`/`end` the two clock readings around the
   * packing call.
   */
  method PackEntry(
    tk: Toolkit, packBox: Packer, data: seq<BoxSpecs.BoxRecord>, forceFieldName: string,
    out: string, index: int, existing: set<string>, start: real, end: real)
    returns (inv: Invocation)
    ensures inv == Run(tk, packBox, data, forceFieldName, out, index, existing, start, end)
  {
    var prepared := OpenEntry(tk, data, forceFieldName, index, false);
    if prepared.Err? {
      return EarlyCrash(existing, prepared.error);
    }
    var mols := prepared.value.detached.molecules;
    var nMolecules := prepared.value.detached.counts;

    var entryDirectory := EntryNaming.EntryDirectory(out, index);
    var directories := MakeDirs(existing, entryDirectory);
    var cwd := entryDirectory;

    var request := PackRequest(mols, nMolecules, None, true);
    var writes: seq<FileWrite> := [];
    var packed := packBox(request);
    if packed.Err? {
      writes := writes + [FileWrite(cwd, "error.txt", ErrorText(packed.error.message))];
      return Invocation(directories, Some(request), writes, Crashed(packed.error));
    }
    var difference := end - start;
    inv := FinishPacked(tk, prepared.value, directories, cwd, packed.value, difference);
  }

  /** Lines 99-121 of the script, after `pack_box` returned a trajectory. */
  method FinishPacked(tk: Toolkit, p: Prepared, directories: set<string>, cwd: string, trajectory: Trajectory, difference: real)
    returns (inv: Invocation)
    ensures inv == Packed(tk, p, directories, cwd, trajectory, difference)
  {
    var request := Request(p);
    var writes: seq<FileWrite> := [];
    var topologyMolecules := TopologyMolecules(p.detached.molecules, p.detached.counts);
    var solvatedTopology := Topology(topologyMolecules);
    var icResult := FromSmirnoff(tk, p.forceField, solvatedTopology);
    if icResult.Err? {
      return Invocation(directories, Some(request), writes, Crashed(icResult.error));
    }
    var interchange := icResult.value;
    var frame := FirstFrame(trajectory);
    if frame.Err? {
      return Invocation(directories, Some(request), writes, Crashed(frame.error));
    }
    interchange := interchange.(positions := Some(frame.value));

    writes := writes + [FileWrite(cwd, "interchange.json", InterchangeJson(interchange))];
    writes := writes + [FileWrite(cwd, "input.pdb", TrajectoryPdb(trajectory))];
    writes := writes + [FileWrite(cwd, "input.gro", Gro(interchange))];
    writes := writes + [FileWrite(cwd, "system.top", Top(interchange))];
    writes := writes + [FileWrite(cwd, "time.json", Timing(difference))];
    return Invocation(directories, Some(request), writes, Completed);
  }

  /** Every file a run writes lands in the entry directory named from the index. */
  lemma WritesStayInEntryDirectory(
    tk: Toolkit, packBox: Packer, data: seq<BoxSpecs.BoxRecord>, forceFieldName: string,
    out: string, index: int, existing: set<string>, start: real, end: real)
    ensures var inv := Run(tk, packBox, data, forceFieldName, out, index, existing, start, end);
            forall w :: w in inv.writes ==> w.directory == EntryNaming.EntryDirectory(out, index)
  {
  }

  /**
   * A run completes exactly when its last write is the timing record, which
   * holds the time between the two clock readings around the packing call
   * and follows the structure files.
   */
  lemma CompletedIffTimingWrittenLast(
    tk: Toolkit, packBox: Packer, data: seq<BoxSpecs.BoxRecord>, forceFieldName: string,
    out: string, index: int, existing: set<string>, start: real, end: real)
    ensures var inv := Run(tk, packBox, data, forceFieldName, out, index, existing, start, end);
            inv.status.Completed? <==>
              |inv.writes| == 5
              && inv.writes[4] == FileWrite(EntryNaming.EntryDirectory(out, index), "time.json", Timing(end - start))
  {
  }

  /** A packing failure is recorded in `error.txt` and then re-raised: the run ends with that same exception. */
  lemma PackingFailureReraised(
    tk: Toolkit, packBox: Packer, data: seq<BoxSpecs.BoxRecord>, forceFieldName: string,
    out: string, index: int, existing: set<string>, start: real, end: real)
    requires Prepare(tk, data, forceFieldName, index, false).Ok?
    requires packBox(Request(Prepare(tk, data, forceFieldName, index, false).value)).Err?
    ensures var inv := Run(tk, packBox, data, forceFieldName, out, index, existing, start, end);
            var e := packBox(Request(Prepare(tk, data, forceFieldName, index, false).value)).error;
            inv.writes == [FileWrite(EntryNaming.EntryDirectory(out, index), "error.txt", ErrorText(e.message))]
            && inv.status == Crashed(e)
  {
  }

  /**
   * The solute is never packed: the request carries no solute structure, and
   * every molecule of a completed run's topology is one of the bulk
   * molecules, with a positive count.
   */
  lemma SoluteNeverPacked(
    tk: Toolkit, packBox: Packer, data: seq<BoxSpecs.BoxRecord>, forceFieldName: string,
    out: string, index: int, existing: set<string>, start: real, end: real)
    requires Run(tk, packBox, data, forceFieldName, out, index, existing, start, end).status.Completed?
    ensures Prepare(tk, data, forceFieldName, index, false).Ok?
    ensures var inv := Run(tk, packBox, data, forceFieldName, out, index, existing, start, end);
            var d := Prepare(tk, data, forceFieldName, index, false).value.detached;
            inv.request.Some? && inv.request.value.solute.None?
            && inv.writes[0].content.InterchangeJson?
            && forall x :: x in inv.writes[0].content.interchange.topology.molecules ==>
                 exists i :: 0 <= i < |d.molecules| && i < |d.counts| && d.molecules[i] == x && d.counts[i] > 0
  {
    var inv := Run(tk, packBox, data, forceFieldName, out, index, existing, start, end);
    var p := Prepare(tk, data, forceFieldName, index, false).value;
    var t := packBox(Request(p)).value;
    var topology := Topology(Replicated(p.detached.molecules, p.detached.counts));
    var ic := FromSmirnoff(tk, p.forceField, topology).value;
    var frame := FirstFrame(t).value;
    var dir := EntryNaming.EntryDirectory(out, index);
    assert inv.writes == Artifacts(dir, ic.(positions := Some(frame)), t, end - start);
    assert inv.writes[0].content.interchange.topology == topology;
    forall x | x in topology.molecules
      ensures exists i :: 0 <= i < |p.detached.molecules| && i < |p.detached.counts|
                && p.detached.molecules[i] == x && p.detached.counts[i] > 0
    {
      ReplicatedMembers(p.detached.molecules, p.detached.counts, x);
    }
  }

  /**
   * A completed run's topology has one molecule per copy requested: the
   * positive counts of the zipped bulk pairs add up to its size.
   */
  lemma TopologySize(
    tk: Toolkit, packBox: Packer, data: seq<BoxSpecs.BoxRecord>, forceFieldName: string,
    out: string, index: int, existing: set<string>, start: real, end: real)
    requires Run(tk, packBox, data, forceFieldName, out, index, existing, start, end).status.Completed?
    ensures Prepare(tk, data, forceFieldName, index, false).Ok?
    ensures var inv := Run(tk, packBox, data, forceFieldName, out, index, existing, start, end);
            var d := Prepare(tk, data, forceFieldName, index, false).value.detached;
            inv.writes[0].content.InterchangeJson?
            && |inv.writes[0].content.interchange.topology.molecules| == CopyCount(d.counts, ZipLength(d.molecules, d.counts))
  {
    var inv := Run(tk, packBox, data, forceFieldName, out, index, existing, start, end);
    var p := Prepare(tk, data, forceFieldName, index, false).value;
    var t := packBox(Request(p)).value;
    var topology := Topology(Replicated(p.detached.molecules, p.detached.counts));
    var ic := FromSmirnoff(tk, p.forceField, topology).value;
    var frame := FirstFrame(t).value;
    var dir := EntryNaming.EntryDirectory(out, index);
    assert inv.writes == Artifacts(dir, ic.(positions := Some(frame)), t, end - start);
    ReplicatedLength(p.detached.molecules, p.detached.counts);
  }

  /**
   * A packed system is written only when the trajectory has a frame: its
   * positions are the first frame and `input.pdb` is the trajectory itself.
   * An empty trajectory ends the run with an IndexError after the
   * parameterisation, before any file is written.
   */
  lemma PositionsFromFirstFrame(
    tk: Toolkit, packBox: Packer, data: seq<BoxSpecs.BoxRecord>, forceFieldName: string,
    out: string, index: int, existing: set<string>, start: real, end: real)
    requires Prepare(tk, data, forceFieldName, index, false).Ok?
    requires packBox(Request(Prepare(tk, data, forceFieldName, index, false).value)).Ok?
    ensures var p := Prepare(tk, data, forceFieldName, index, false).value;
            var t := packBox(Request(p)).value;
            var inv := Run(tk, packBox, data, forceFieldName, out, index, existing, start, end);
            (inv.status.Completed? ==>
               |t.frames| > 0
               && inv.writes[0].content.InterchangeJson?
               && inv.writes[0].content.interchange.positions == Some(t.frames[0])
               && inv.writes[1].content == TrajectoryPdb(t))
            && (|t.frames| == 0 ==> inv.writes == [] && inv.status.Crashed?)
  {
  }
}
