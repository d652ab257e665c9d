/** The dataset loader of main.py: up-front checks on the dataset root, then
    one load attempt per discovered `.metta` file, each inside its own
    try/except, then a final count. The engine and the filesystem are
    inputs: whether the root exists, the paths the recursive glob found, and
    what the engine did with each file. */
module Loader {
  import opened Results

  type Path = string

  /** What the engine did inside one iteration's `try` block. */
  datatype FileOutcome =
    | LoadFails     // `load-ascii` raised
    | ShowFails     // `load-ascii` succeeded, then `show-space` raised
    | LoadSucceeds  // both commands returned

  /** The console messages of one run, without their formatting. */
  datatype Step =
    | Start       // "Start loading dataset from ..."
    | Loaded      // "Successfully loaded dataset from ..." and the space header
    | SpaceShown  // the space dump
    | Failed      // "Error loading dataset from ..."

  datatype Event = FileEvent(step: Step, path: Path) | Finished(count: nat)

  /** The ValueErrors raised before any file is attempted. */
  datatype LoadError = PathMissing(root: Path) | NoMettaFiles(root: Path)

  // ---------------------------------------------------------------------
  // The specification as functions.
  // ---------------------------------------------------------------------

  /** The messages of one iteration. */
  function AttemptEvents(p: Path, o: FileOutcome): seq<Event> {
    match o
    case LoadFails => [FileEvent(Start, p), FileEvent(Failed, p)]
    case ShowFails => [FileEvent(Start, p), FileEvent(Loaded, p), FileEvent(Failed, p)]
    case LoadSucceeds => [FileEvent(Start, p), FileEvent(Loaded, p), FileEvent(SpaceShown, p)]
  }

  /** The messages of the whole loop, iteration after iteration. */
  function AttemptLog(paths: seq<Path>, outcomes: seq<FileOutcome>): seq<Event>
    requires |outcomes| == |paths|
  {
    if paths == [] then []
    else
      var n := |paths| - 1;
      AttemptLog(paths[..n], outcomes[..n]) + AttemptEvents(paths[n], outcomes[n])
  }

  /** The files whose facts reached the space, in loading order. */
  function SpaceAdditions(paths: seq<Path>, outcomes: seq<FileOutcome>): seq<Path>
    requires |outcomes| == |paths|
  {
    if paths == [] then []
    else
      var n := |paths| - 1;
      SpaceAdditions(paths[..n], outcomes[..n]) + (if outcomes[n] != LoadFails then [paths[n]] else [])
  }

  /** The up-front checks of `load_dataset`. */
  function Precheck(root: Path, rootExists: bool, discovered: seq<Path>): (r: Outcome<LoadError>)
    ensures r.Fail? <==> !rootExists || discovered == []
  {
    if !rootExists then Fail(PathMissing(root))
    else if discovered == [] then Fail(NoMettaFiles(root))
    else Pass
  }

  /** The messages of a run that passed the checks. */
  function RunLog(paths: seq<Path>, outcomes: seq<FileOutcome>): seq<Event>
    requires |outcomes| == |paths|
  {
    AttemptLog(paths, outcomes) + [Finished(|paths|)]
  }

  /** Nothing is printed or loaded before the first iteration. */
  lemma LogStart(paths: seq<Path>, outcomes: seq<FileOutcome>)
    requires |outcomes| == |paths|
    ensures AttemptLog(paths[..0], outcomes[..0]) == [] && SpaceAdditions(paths[..0], outcomes[..0]) == []
  {
    assert paths[..0] == [] && outcomes[..0] == [];
  }

  /** One more iteration of the loop. */
  lemma LogStep(paths: seq<Path>, outcomes: seq<FileOutcome>, k: nat)
    requires |outcomes| == |paths| && k < |paths|
    ensures AttemptLog(paths[..k + 1], outcomes[..k + 1]) ==
      AttemptLog(paths[..k], outcomes[..k]) + AttemptEvents(paths[k], outcomes[k])
    ensures SpaceAdditions(paths[..k + 1], outcomes[..k + 1]) ==
      SpaceAdditions(paths[..k], outcomes[..k]) + (if outcomes[k] != LoadFails then [paths[k]] else [])
  {
    assert paths[..k + 1][..k] == paths[..k] && outcomes[..k + 1][..k] == outcomes[..k];
  }

  // ---------------------------------------------------------------------
  // The engine session: the shared space and the console.
  // ---------------------------------------------------------------------

  /** The process-wide engine state that `load_dataset` mutates: the files
      loaded into `&space`, and the messages printed so far. */
  class Session {
    var space: seq<Path>
    var console: seq<Event>

    /** `metta = MeTTa()` followed by `bind! &space (new-space)`. */
    constructor ()
      ensures space == [] && console == []
    {
      space := [];
      console := [];
    }

    /** One iteration of the loading loop: announce the file, then inside
        the `try` load it and show the space; an exception from either
        command is reported and swallowed. */
    method Attempt(path: Path, outcome: FileOutcome)
      modifies this
      ensures console == old(console) + AttemptEvents(path, outcome)
      ensures space == old(space) + (if outcome != LoadFails then [path] else [])
    {
      console := console + [FileEvent(Start, path)];
      if outcome == LoadFails {
        console := console + [FileEvent(Failed, path)];
      } else {
        space := space + [path];
        console := console + [FileEvent(Loaded, path)];
        if outcome == ShowFails {
          console := console + [FileEvent(Failed, path)];
        } else {
          console := console + [FileEvent(SpaceShown, path)];
        }
      }
    }

    /** The loop `for path in paths`: every file in discovery order. */
    method LoadEach(paths: seq<Path>, outcomes: seq<FileOutcome>)
      requires |outcomes| == |paths|
      modifies this
      ensures console == old(console) + AttemptLog(paths, outcomes)
      ensures space == old(space) + SpaceAdditions(paths, outcomes)
    {
      LogStart(paths, outcomes);
      assert console == old(console) + [] && space == old(space) + [];
      for k := 0 to |paths|
        invariant console == old(console) + AttemptLog(paths[..k], outcomes[..k])
        invariant space == old(space) + SpaceAdditions(paths[..k], outcomes[..k])
      {
        LogStep(paths, outcomes, k);
        Attempt(paths[k], outcomes[k]);
      }
      assert paths[..|paths|] == paths && outcomes[..|outcomes|] == outcomes;
    }

    /** `load_dataset(root)`, where `rootExists` is `os.path.exists(root)`,
        `discovered` is what the recursive glob returned, and `outcomes[k]`
        is what the engine did with `discovered[k]`. */
    method LoadDataset(root: Path, rootExists: bool, discovered: seq<Path>, outcomes: seq<FileOutcome>)
      returns (r: Outcome<LoadError>)
      requires |outcomes| == |discovered|
      modifies this
      ensures r == Precheck(root, rootExists, discovered)
      ensures !rootExists ==> r == Fail(PathMissing(root))
      ensures rootExists && discovered == [] ==> r == Fail(NoMettaFiles(root))
      ensures r.Fail? ==> space == old(space) && console == old(console)
      ensures r.Pass? ==> console == old(console) + RunLog(discovered, outcomes)
      ensures r.Pass? ==> space == old(space) + SpaceAdditions(discovered, outcomes)
    {
      if !rootExists {
        return Fail(PathMissing(root));
      }
      var paths := discovered;
      if paths == [] {
        return Fail(NoMettaFiles(root));
      }
      LoadEach(paths, outcomes);
      console := console + [Finished(|paths|)];
      r := Pass;
    }
  }
}
