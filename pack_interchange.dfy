/**
 * `runs/pack-boxes-with-interchange.py`: pack one entry of the box list with
 * the interchange package's `pack_box`, parameterise it and write its
 * structure files. A packing failure is caught and written to `error.txt`,
 * but the script goes on and reads the topology the failed call never
 * assigned, so it ends with an `UnboundLocalError` and writes nothing else.
 */
module InterchangePacking {
  import opened Wrappers
  import opened Exceptions
  import opened PackingCommon
  import BoxSpecs
  import EntryNaming

  /** The packing call: the solvated topology, or the exception it raised. */
  type Packer = PackRequest -> Result<Topology, PyError>

  /** The files a completed run writes after `error.txt` would have been, in order. */
  function Artifacts(dir: string, ic: Interchange, elapsed: real): seq<FileWrite> {
    [ FileWrite(dir, "interchange.json", InterchangeJson(ic)),
      FileWrite(dir, "input.pdb", InterchangePdb(ic)),
      FileWrite(dir, "input.gro", Gro(ic)),
      FileWrite(dir, "system.top", Top(ic)),
      FileWrite(dir, "time.json", Timing(elapsed)) ]
  }

  /** The packing request: the bulk after detachment, the solute if any, centred. */
  function Request(p: Prepared): PackRequest {
    PackRequest(p.detached.molecules, p.detached.counts, p.detached.solute, true)
  }

  /**
   * What one run of the script does, as a value: nothing when the opening
   * raises; otherwise the entry directory is made and packing is called. A
   * packing failure leaves `error.txt` and then the unbound-variable crash;
   * a parameterisation failure leaves nothing; a success leaves the four
   * structure files and the timing record, in that order.
   */
  function Run(
    tk: Toolkit, packBox: Packer, data: seq<BoxSpecs.BoxRecord>, forceFieldName: string,
    out: string, index: int, existing: set<string>, start: real, end: real): Invocation
  {
    match Prepare(tk, data, forceFieldName, index, true)
    case Err(e) => EarlyCrash(existing, e)
    case Ok(p) =>
      var dir := EntryNaming.EntryDirectory(out, index);
      var dirs := MakeDirs(existing, dir);
      match packBox(Request(p))
      case Err(e) =>
        Invocation(dirs, Some(Request(p)), [FileWrite(dir, "error.txt", ErrorText(e.message))],
                   Crashed(UnboundLocal("solvated_topology")))
      case Ok(t) =>
        match FromSmirnoff(tk, p.forceField, t)
        case Err(e) => Invocation(dirs, Some(Request(p)), [], Crashed(e))
        case Ok(ic) => Invocation(dirs, Some(Request(p)), Artifacts(dir, ic, end - start), Completed)
  }

  /**
   * The script's `main` for one index. `existing` is the set of directories
   * before the run, and `start`/`end` the two clock readings around the
   * packing call.
   */
  method PackEntry(
    tk: Toolkit, packBox: Packer, data: seq<BoxSpecs.BoxRecord>, forceFieldName: string,
    out: string, index: int, existing: set<string>, start: real, end: real)
    returns (inv: Invocation)
    ensures inv == Run(tk, packBox, data, forceFieldName, out, index, existing, start, end)
  {
    var prepared := OpenEntry(tk, data, forceFieldName, index, true);
    if prepared.Err? {
      return EarlyCrash(existing, prepared.error);
    }
    var forceField := prepared.value.forceField;
    var mols := prepared.value.detached.molecules;
    var nMolecules := prepared.value.detached.counts;
    var solute := prepared.value.detached.solute;

    var entryDirectory := EntryNaming.EntryDirectory(out, index);
    var directories := MakeDirs(existing, entryDirectory);
    var cwd := entryDirectory;

    var request := PackRequest(mols, nMolecules, solute, true);
    var writes: seq<FileWrite> := [];
    // None stands for a local variable that was never assigned.
    var solvatedTopology: Option<Topology> := None;
    var packed := packBox(request);
    if packed.Ok? {
      solvatedTopology := Some(packed.value);
    } else {
      writes := writes + [FileWrite(cwd, "error.txt", ErrorText(packed.error.message))];
    }
    var difference := end - start;

    if solvatedTopology.None? {
      return Invocation(directories, Some(request), writes, Crashed(UnboundLocal("solvated_topology")));
    }
    var icResult := FromSmirnoff(tk, forceField, solvatedTopology.value);
    if icResult.Err? {
      return Invocation(directories, Some(request), writes, Crashed(icResult.error));
    }
    var interchange := icResult.value;
    writes := writes + [FileWrite(cwd, "interchange.json", InterchangeJson(interchange))];
    writes := writes + [FileWrite(cwd, "input.pdb", InterchangePdb(interchange))];
    writes := writes + [FileWrite(cwd, "input.gro", Gro(interchange))];
    writes := writes + [FileWrite(cwd, "system.top", Top(interchange))];
    writes := writes + [FileWrite(cwd, "time.json", Timing(difference))];
    return Invocation(directories, Some(request), writes, Completed);
  }

  /** Every file a run writes lands in the entry directory named from the index. */
  lemma WritesStayInEntryDirectory(
    tk: Toolkit, packBox: Packer, data: seq<BoxSpecs.BoxRecord>, forceFieldName: string,
    out: string, index: int, existing: set<string>, start: real, end: real)
    ensures var inv := Run(tk, packBox, data, forceFieldName, out, index, existing, start, end);
            forall w :: w in inv.writes ==> w.directory == EntryNaming.EntryDirectory(out, index)
  {
  }

  /**
   * A run completes exactly when its last write is the timing record, which
   * holds the time between the two clock readings around the packing call.
   */
  lemma CompletedIffTimingWrittenLast(
    tk: Toolkit, packBox: Packer, data: seq<BoxSpecs.BoxRecord>, forceFieldName: string,
    out: string, index: int, existing: set<string>, start: real, end: real)
    ensures var inv := Run(tk, packBox, data, forceFieldName, out, index, existing, start, end);
            inv.status.Completed? <==>
              |inv.writes| > 0
              && inv.writes[|inv.writes| - 1] == FileWrite(EntryNaming.EntryDirectory(out, index), "time.json", Timing(end - start))
  {
  }

  /**
   * The swallowed packing failure: `error.txt` holds the exception's text,
   * the run then crashes on the unassigned topology, and no artifact follows.
   */
  lemma PackingFailureWritesOnlyErrorText(
    tk: Toolkit, packBox: Packer, data: seq<BoxSpecs.BoxRecord>, forceFieldName: string,
    out: string, index: int, existing: set<string>, start: real, end: real)
    requires Prepare(tk, data, forceFieldName, index, true).Ok?
    requires packBox(Request(Prepare(tk, data, forceFieldName, index, true).value)).Err?
    ensures var inv := Run(tk, packBox, data, forceFieldName, out, index, existing, start, end);
            var e := packBox(Request(Prepare(tk, data, forceFieldName, index, true).value)).error;
            inv.writes == [FileWrite(EntryNaming.EntryDirectory(out, index), "error.txt", ErrorText(e.message))]
            && inv.status == Crashed(UnboundLocal("solvated_topology"))
            && inv.status != Completed
  {
  }

  /** Whenever `error.txt` is written it is the only file, and the run does not complete. */
  lemma ErrorTextIsAlone(
    tk: Toolkit, packBox: Packer, data: seq<BoxSpecs.BoxRecord>, forceFieldName: string,
    out: string, index: int, existing: set<string>, start: real, end: real)
    ensures var inv := Run(tk, packBox, data, forceFieldName, out, index, existing, start, end);
            forall i :: 0 <= i < |inv.writes| && inv.writes[i].name == "error.txt" ==>
              |inv.writes| == 1 && inv.status.Crashed?
  {
    var inv := Run(tk, packBox, data, forceFieldName, out, index, existing, start, end);
    if inv.status.Completed? {
      var p := Prepare(tk, data, forceFieldName, index, true).value;
      var ic := FromSmirnoff(tk, p.forceField, packBox(Request(p)).value).value;
      var dir := EntryNaming.EntryDirectory(out, index);
      assert inv.writes == Artifacts(dir, ic, end - start);
      forall i | 0 <= i < |inv.writes|
        ensures inv.writes[i].name != "error.txt"
      {
        assert inv.writes[i].name[0] != 'e';
      }
    }
  }

  /**
   * The entry directory (and the output directory above it) exists after any
   * run that got past the opening, whether or not it existed before.
   */
  lemma EntryDirectoryExists(
    tk: Toolkit, packBox: Packer, data: seq<BoxSpecs.BoxRecord>, forceFieldName: string,
    out: string, index: int, existing: set<string>, start: real, end: real)
    requires Prepare(tk, data, forceFieldName, index, true).Ok?
    requires out != ""
    ensures var inv := Run(tk, packBox, data, forceFieldName, out, index, existing, start, end);
            existing <= inv.directories
            && EntryNaming.EntryDirectory(out, index) in inv.directories
            && out in inv.directories
  {
    EntryDirectoryParents(out, EntryNaming.EntryName(index));
  }

  /**
   * The request carries the detached solute, centred, exactly when the
   * selected box's first count is 1. The solute is then the topology of the
   * first opened molecule and the bulk is the rest of the opened molecules;
   * otherwise the bulk is every opened molecule with the box's counts.
   */
  lemma RequestCarriesSolute(tk: Toolkit, data: seq<BoxSpecs.BoxRecord>, forceFieldName: string, index: int)
    requires Prepare(tk, data, forceFieldName, index, true).Ok?
    ensures Select(data, index).Ok?
    ensures var box := Select(data, index).value;
            var req := Request(Prepare(tk, data, forceFieldName, index, true).value);
            req.centerSolute
            && |box.nMolecules| > 0
            && (req.solute.Some? <==> box.nMolecules[0] == 1)
            && (box.nMolecules[0] == 1 ==>
                  req.numberOfCopies == box.nMolecules[1..] && |req.molecules| + 1 == |box.smiles|)
            && (box.nMolecules[0] != 1 ==>
                  req.numberOfCopies == box.nMolecules && |req.molecules| == |box.smiles|)
  ensures var box := Select(data, index).value;
          var mols := TryMap(TryMap(box.smiles, tk.fromSmiles).value, tk.generateConformers).value;
          var req := Request(Prepare(tk, data, forceFieldName, index, true).value);
          TryMap(box.smiles, tk.fromSmiles).Ok?
          && TryMap(TryMap(box.smiles, tk.fromSmiles).value, tk.generateConformers).Ok?
          && (box.nMolecules[0] == 1 ==>
                |mols| > 0 && req.solute == Some(Topology([mols[0]])) && req.molecules == mols[1..])
          && (box.nMolecules[0] != 1 ==> req.molecules == mols)
  {
    var box := Select(data, index).value;
    var built := TryMap(box.smiles, tk.fromSmiles).value;
    var mols := TryMap(built, tk.generateConformers).value;
    DetachFailures(mols, box.nMolecules);
    DetachSolute(mols, box.nMolecules);
  }

  /**
   * A completed run serialises the topology the packer returned, under the
   * force field named on the command line and with the packer's positions
   * (carried in the topology) rather than any set afterwards.
   */
  lemma CompletedWritesPackedTopology(
    tk: Toolkit, packBox: Packer, data: seq<BoxSpecs.BoxRecord>, forceFieldName: string,
    out: string, index: int, existing: set<string>, start: real, end: real)
    requires Run(tk, packBox, data, forceFieldName, out, index, existing, start, end).status.Completed?
    ensures Prepare(tk, data, forceFieldName, index, true).Ok?
    ensures var p := Prepare(tk, data, forceFieldName, index, true).value;
            var inv := Run(tk, packBox, data, forceFieldName, out, index, existing, start, end);
            packBox(Request(p)).Ok?
            && tk.loadForceField(forceFieldName) == Ok(p.forceField)
            && |inv.writes| == 5
            && inv.writes[0].content.InterchangeJson?
            && var ic := inv.writes[0].content.interchange;
               ic.topology == packBox(Request(p)).value
               && ic.forceField == p.forceField
               && ic.positions.None?
               && inv.writes == Artifacts(EntryNaming.EntryDirectory(out, index), ic, end - start)
  {
  }
}
