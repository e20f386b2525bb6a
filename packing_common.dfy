/**
 * What the two packing scripts share: the values that flow between the
 * toolkit calls, the exceptions they raise, Python list indexing, the
 * one-to-one list comprehension over the SMILES, the in-place detachment of
 * a leading count-1 solute, `mkdir(parents=True, exist_ok=True)`, and the
 * record of one invocation (the directories made, the packing call, the files
 * written in order and how the run ended).
 */
module PackingCommon {
  import opened Wrappers
  import opened Exceptions
  import BoxSpecs

  /** The force field loaded from its file name. */
  datatype ForceField = ForceField(source: string)

  datatype Molecule = Molecule(smiles: string, conformers: nat)

  datatype Topology = Topology(molecules: seq<Molecule>)

  /** One frame of coordinates, as the packer wrote it. */
  type Frame = seq<real>

  datatype Trajectory = Trajectory(frames: seq<Frame>)

  /** The force-field terms assigned to a topology; their content is the toolkit's business. */
  datatype Parameters = Parameters(terms: seq<string>)

  datatype Interchange = Interchange(
    forceField: ForceField,
    topology: Topology,
    parameters: Parameters,
    positions: Option<Frame>)

  /** The arguments of the packing call that the scripts vary. */
  datatype PackRequest = PackRequest(
    molecules: seq<Molecule>,
    numberOfCopies: seq<int>,
    solute: Option<Topology>,
    centerSolute: bool)

  /** What a written file holds. */
  datatype Content =
    | ErrorText(text: string)
    | InterchangeJson(interchange: Interchange)
    | InterchangePdb(interchange: Interchange)
    | TrajectoryPdb(trajectory: Trajectory)
    | Gro(interchange: Interchange)
    | Top(interchange: Interchange)
    | Timing(time: real)

  /** A file written into `directory` (the working directory at the time). */
  datatype FileWrite = FileWrite(directory: string, name: string, content: Content)

  datatype Status = Completed | Crashed(error: PyError)

  /** One run of a packing script, observed from outside. */
  datatype Invocation = Invocation(
    directories: set<string>,
    request: Option<PackRequest>,
    writes: seq<FileWrite>,
    status: Status)

  /** The calls into the toolkit that both scripts make; each may raise. */
  datatype Toolkit = Toolkit(
    loadForceField: string -> Result<ForceField, PyError>,
    fromSmiles: string -> Result<Molecule, PyError>,
    generateConformers: Molecule -> Result<Molecule, PyError>,
    assignParameters: (ForceField, Topology) -> Result<Parameters, PyError>)

  /**
   * `Interchange.from_smirnoff(force_field, topology)`: the interchange holds
   * the force field and topology it was made from, without positions.
   */
  function FromSmirnoff(tk: Toolkit, ff: ForceField, topology: Topology): (r: Result<Interchange, PyError>)
    ensures r.Ok? <==> tk.assignParameters(ff, topology).Ok?
    ensures r.Ok? ==> r.value.forceField == ff && r.value.topology == topology && r.value.positions.None?
  {
    var parameters :- tk.assignParameters(ff, topology);
    Ok(Interchange(ff, topology, parameters, None))
  }

  /** A run that ended before making its directory: nothing changed. */
  function EarlyCrash(existing: set<string>, e: PyError): Invocation {
    Invocation(existing, None, [], Crashed(e))
  }

  // ---------------------------------------------------------------------------
  // Python list indexing

  /** `data[i]`: negative indices count from the end. */
  function Select<T>(data: seq<T>, i: int): (r: Result<T, PyError>)
    ensures r.Ok? <==> -|data| <= i < |data|
    ensures r.Ok? && 0 <= i ==> r.value == data[i]
    ensures r.Ok? && i < 0 ==> r.value == data[|data| + i]
    ensures r.Err? ==> r.error == IndexOutOfRange()
  {
    if 0 <= i < |data| then Ok(data[i])
    else if -|data| <= i < 0 then Ok(data[|data| + i])
    else Err(IndexOutOfRange())
  }

  /** `data[i]` is the same element as `data[i - len(data)]`: both spellings select it. */
  lemma SelectNegativeAlias<T>(data: seq<T>, i: int)
    requires 0 <= i < |data|
    ensures Select(data, i - |data|) == Select(data, i)
  {
  }

  // ---------------------------------------------------------------------------
  // Calls that may raise, applied in order

  /**
   * `[f(x) for x in xs]` where `f` may raise: the first exception, counting
   * from the front, ends the comprehension.
   */
  function TryMap<A, B>(xs: seq<A>, f: A -> Result<B, PyError>): (r: Result<seq<B>, PyError>)
    ensures r.Ok? ==> |r.value| == |xs| && forall i :: 0 <= i < |xs| ==> f(xs[i]) == Ok(r.value[i])
    ensures r.Err? ==> exists k :: 0 <= k < |xs| && f(xs[k]) == Err(r.error) && forall i :: 0 <= i < k ==> f(xs[i]).Ok?
    decreases |xs|
  {
    if xs == [] then Ok([])
    else
      match f(xs[0])
      case Err(e) => Err(e)
      case Ok(y) =>
        match TryMap(xs[1..], f)
        case Err(e) =>
          assert forall i :: 1 <= i < |xs| ==> xs[1..][i - 1] == xs[i];
          Err(e)
        case Ok(ys) =>
          assert forall i :: 1 <= i < |xs| ==> xs[1..][i - 1] == xs[i];
          Ok([y] + ys)
  }

  /** When every call succeeds the comprehension succeeds. */
  lemma {:induction false} TryMapAllOk<A, B>(xs: seq<A>, f: A -> Result<B, PyError>)
    requires forall i :: 0 <= i < |xs| ==> f(xs[i]).Ok?
    ensures TryMap(xs, f).Ok?
    decreases |xs|
  {
    if xs != [] {
      assert forall i :: 0 <= i < |xs[1..]| ==> xs[1..][i] == xs[i + 1];
      TryMapAllOk(xs[1..], f);
    }
  }

  /** Running the comprehension over a prefix and then one more element is running it over the longer prefix. */
  lemma {:induction false} TryMapSnoc<A, B>(xs: seq<A>, x: A, f: A -> Result<B, PyError>)
    requires TryMap(xs, f).Ok? && f(x).Ok?
    ensures TryMap(xs + [x], f) == Ok(TryMap(xs, f).value + [f(x).value])
    decreases |xs|
  {
    if xs == [] {
      assert xs + [x] == [x] && [x][0] == x && [x][1..] == [];
      assert TryMap(xs, f) == Ok([]) && TryMap([x][1..], f) == Ok([]);
      assert TryMap([x], f) == Ok([f(x).value] + []);
      assert [f(x).value] + [] == [] + [f(x).value];
    } else {
      assert (xs + [x])[0] == xs[0] && (xs + [x])[1..] == xs[1..] + [x];
      assert f(xs[0]).Ok? && TryMap(xs[1..], f).Ok?;
      TryMapSnoc(xs[1..], x, f);
      var y, ys, z := f(xs[0]).value, TryMap(xs[1..], f).value, f(x).value;
      assert TryMap(xs, f).value == [y] + ys;
      assert TryMap(xs + [x], f) == Ok([y] + (ys + [z]));
      assert [y] + (ys + [z]) == [y] + ys + [z];
    }
  }

  /** A failing call on a prefix ends the comprehension over anything longer with the same exception. */
  lemma {:induction false} TryMapErrPrefix<A, B>(xs: seq<A>, ys: seq<A>, f: A -> Result<B, PyError>)
    requires TryMap(xs, f).Err?
    ensures TryMap(xs + ys, f) == TryMap(xs, f)
    decreases |xs|
  {
    assert (xs + ys)[0] == xs[0];
    if f(xs[0]).Ok? {
      assert (xs + ys)[1..] == xs[1..] + ys;
      TryMapErrPrefix(xs[1..], ys, f);
    }
  }

  // ---------------------------------------------------------------------------
  // Solute detachment

  /** The bulk species and counts left for packing, and the solute taken off the front. */
  datatype Detached = Detached(solute: Option<Topology>, molecules: seq<Molecule>, counts: seq<int>)

  /**
   * `if n_molecules[0] == 1: solute = mols.pop(0).to_topology(); n_molecules.pop(0)`:
   * the index raises on an empty count list, and the first pop on an empty
   * molecule list (before the counts lose anything).
   */
  function Detach(mols: seq<Molecule>, counts: seq<int>): Result<Detached, PyError> {
    if |counts| == 0 then Err(IndexOutOfRange())
    else if counts[0] != 1 then Ok(Detached(None, mols, counts))
    else if |mols| == 0 then Err(PopFromEmpty())
    else Ok(Detached(Some(Topology([mols[0]])), mols[1..], counts[1..]))
  }

  /** Putting the solute back in front restores both lists. */
  function Reattach(d: Detached): (seq<Molecule>, seq<int>) {
    match d.solute
    case None => (d.molecules, d.counts)
    case Some(t) => (t.molecules + d.molecules, [1] + d.counts)
  }

  /** Detachment fails exactly on an empty count list, or a leading count 1 with no molecule to pop. */
  lemma DetachFailures(mols: seq<Molecule>, counts: seq<int>)
    ensures Detach(mols, counts).Err? <==> |counts| == 0 || (counts[0] == 1 && |mols| == 0)
    ensures |counts| == 0 ==> Detach(mols, counts) == Err(IndexOutOfRange())
    ensures |counts| > 0 && counts[0] == 1 && |mols| == 0 ==> Detach(mols, counts) == Err(PopFromEmpty())
  {
  }

  /** A solute is detached exactly when the first count is 1, and it is the first molecule. */
  lemma DetachSolute(mols: seq<Molecule>, counts: seq<int>)
    requires Detach(mols, counts).Ok?
    ensures Detach(mols, counts).value.solute.Some? <==> counts[0] == 1
    ensures Detach(mols, counts).value.solute.Some? ==> Detach(mols, counts).value.solute.value.molecules == [mols[0]]
  {
  }

  /** Both lists lose the same number of elements, so aligned lists stay aligned. */
  lemma DetachKeepsAlignment(mols: seq<Molecule>, counts: seq<int>)
    requires Detach(mols, counts).Ok?
    ensures |mols| - |Detach(mols, counts).value.molecules| == |counts| - |Detach(mols, counts).value.counts|
    ensures |mols| == |counts| ==> |Detach(mols, counts).value.molecules| == |Detach(mols, counts).value.counts|
  {
  }

  /** Nothing is lost: reattaching the solute gives back the lists the script started from. */
  lemma DetachRoundTrip(mols: seq<Molecule>, counts: seq<int>)
    requires Detach(mols, counts).Ok?
    ensures Reattach(Detach(mols, counts).value) == (mols, counts)
  {
    var d := Detach(mols, counts).value;
    if d.solute.Some? {
      assert mols == [mols[0]] + mols[1..];
      assert counts == [1] + counts[1..];
    }
  }

  /** Without a solute, both the molecule list and the count list pass through unchanged. */
  lemma DetachLeavesUndetached(mols: seq<Molecule>, counts: seq<int>)
    requires Detach(mols, counts).Ok? && Detach(mols, counts).value.solute.None?
    ensures Detach(mols, counts).value == Detached(None, mols, counts)
  {
  }

  // ---------------------------------------------------------------------------
  // Directories

  /** Every directory on the way to `path`, `path` itself included (`mkdir(parents=True)`). */
  function Ancestors(path: string): set<string> {
    set i | 0 < i <= |path| && (i == |path| || path[i] == '/') :: path[..i]
  }

  /** `mkdir(parents=True, exist_ok=True)` on a set of existing directories: it never fails. */
  function MakeDirs(existing: set<string>, path: string): (r: set<string>)
    ensures existing <= r
    ensures path != "" ==> path in r
  {
    assert path != "" ==> path[..|path|] == path;
    existing + Ancestors(path)
  }

  /** Making a directory that already exists changes nothing and is not an error. */
  lemma MakeDirsIdempotent(existing: set<string>, path: string)
    ensures MakeDirs(MakeDirs(existing, path), path) == MakeDirs(existing, path)
  {
  }

  /** The entry directory is made together with the output directory above it. */
  lemma EntryDirectoryParents(out: string, name: string)
    requires out != ""
    ensures out in Ancestors(out + "/" + name)
    ensures out + "/" + name in Ancestors(out + "/" + name)
  {
    var p := out + "/" + name;
    assert p[|out|] == '/' && p[..|out|] == out;
    assert p[..|p|] == p;
  }

  // ---------------------------------------------------------------------------
  // The shared opening of both scripts

  /** The state the scripts reach just before naming the entry directory. */
  datatype Prepared = Prepared(forceField: ForceField, detached: Detached)

  /**
   * `ForceField(force_field)`, `box = data[i]`, the SMILES comprehension,
   * optionally `generate_conformers` on every molecule, then detachment.
   * `box["n_molecules"]` is read after the molecules are built.
   */
  function Prepare(tk: Toolkit, data: seq<BoxSpecs.BoxRecord>, forceFieldName: string, index: int, conformers: bool)
    : Result<Prepared, PyError>
  {
    var ff :- tk.loadForceField(forceFieldName);
    var box :- Select(data, index);
    var built :- TryMap(box.smiles, tk.fromSmiles);
    var mols :- if conformers then TryMap(built, tk.generateConformers) else Ok(built);
    var d :- Detach(mols, box.nMolecules);
    Ok(Prepared(ff, d))
  }

  /**
   * `for mol in mols: mol.generate_conformers(n_conformers=1)`: each molecule
   * is replaced by its conformer-bearing self, in order, until one call raises.
   */
  method GenerateConformers(generate: Molecule -> Result<Molecule, PyError>, mols: seq<Molecule>)
    returns (r: Result<seq<Molecule>, PyError>)
    ensures r == TryMap(mols, generate)
  {
    var current := mols;
    for k := 0 to |mols|
      invariant |current| == |mols|
      invariant TryMap(mols[..k], generate).Ok?
      invariant current[..k] == TryMap(mols[..k], generate).value
      invariant current[k..] == mols[k..]
    {
      assert mols[..k + 1] == mols[..k] + [mols[k]];
      var m := generate(current[k]);
      if m.Err? {
        TryMapErrPrefix(mols[..k] + [mols[k]], mols[k + 1..], generate);
        assert mols[..k] + [mols[k]] + mols[k + 1..] == mols;
        return Err(m.error);
      }
      TryMapSnoc(mols[..k], mols[k], generate);
      current := current[k := m.value];
      assert current[..k + 1] == current[..k] + [m.value];
    }
    assert mols[..|mols|] == mols && current[..|mols|] == current;
    return Ok(current);
  }

  /**
   * The opening both scripts share: load the force field, select the box,
   * build a molecule per SMILES, give each a conformer when `conformers`,
   * and pop a leading count-1 species off both lists as the solute.
   */
  method OpenEntry(tk: Toolkit, data: seq<BoxSpecs.BoxRecord>, forceFieldName: string, index: int, conformers: bool)
    returns (r: Result<Prepared, PyError>)
    ensures r == Prepare(tk, data, forceFieldName, index, conformers)
  {
    var ffResult := tk.loadForceField(forceFieldName);
    if ffResult.Err? {
      return Err(ffResult.error);
    }
    var forceField := ffResult.value;
    var boxResult := Select(data, index);
    if boxResult.Err? {
      return Err(boxResult.error);
    }
    var box := boxResult.value;
    var built := TryMap(box.smiles, tk.fromSmiles);
    if built.Err? {
      return Err(built.error);
    }
    var mols := built.value;
    if conformers {
      var withConformers := GenerateConformers(tk.generateConformers, mols);
      if withConformers.Err? {
        return Err(withConformers.error);
      }
      mols := withConformers.value;
    }
    var nMolecules := box.nMolecules;

    var solute: Option<Topology> := None;
    if |nMolecules| == 0 {
      return Err(IndexOutOfRange());
    }
    if nMolecules[0] == 1 {
      if |mols| == 0 {
        return Err(PopFromEmpty());
      }
      solute := Some(Topology([mols[0]]));
      mols := mols[1..];
      nMolecules := nMolecules[1..];
    }

    return Ok(Prepared(forceField, Detached(solute, mols, nMolecules)));
  }

  /**
   * After a successful opening, the molecule list was built one-to-one from
   * the selected box's SMILES: with the solute put back, there is one
   * molecule per SMILES, each made from it, and the counts are the box's.
   */
  lemma PrepareOneToOne(tk: Toolkit, data: seq<BoxSpecs.BoxRecord>, forceFieldName: string, index: int, conformers: bool)
    requires Prepare(tk, data, forceFieldName, index, conformers).Ok?
    ensures Select(data, index).Ok?
    ensures var box := Select(data, index).value;
            var (mols, counts) := Reattach(Prepare(tk, data, forceFieldName, index, conformers).value.detached);
            |mols| == |box.smiles| && counts == box.nMolecules
            && (!conformers ==> forall i :: 0 <= i < |mols| ==> tk.fromSmiles(box.smiles[i]) == Ok(mols[i]))
            && (conformers ==> forall i :: 0 <= i < |mols| ==>
                  tk.fromSmiles(box.smiles[i]).Ok?
                  && tk.generateConformers(tk.fromSmiles(box.smiles[i]).value) == Ok(mols[i]))
  {
    var box := Select(data, index).value;
    var built := TryMap(box.smiles, tk.fromSmiles).value;
    var mols := if conformers then TryMap(built, tk.generateConformers).value else built;
    DetachRoundTrip(mols, box.nMolecules);
  }

  /** Aligned lists in the selected box stay aligned after detachment. */
  lemma PrepareAligned(tk: Toolkit, data: seq<BoxSpecs.BoxRecord>, forceFieldName: string, index: int, conformers: bool)
    requires Prepare(tk, data, forceFieldName, index, conformers).Ok?
    ensures Select(data, index).Ok?
    ensures var box := Select(data, index).value;
            var d := Prepare(tk, data, forceFieldName, index, conformers).value.detached;
            |box.smiles| == |box.nMolecules| ==> |d.molecules| == |d.counts|
  {
    var box := Select(data, index).value;
    var built := TryMap(box.smiles, tk.fromSmiles).value;
    var mols := if conformers then TryMap(built, tk.generateConformers).value else built;
    DetachKeepsAlignment(mols, box.nMolecules);
  }
}
