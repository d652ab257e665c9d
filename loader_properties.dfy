/** What `load_dataset` promises about its console messages and the shared
    space, proved of the specification in module Loader (and so of
    Session.LoadDataset, whose new state is given by those functions). */
module LoaderProperties {
  import opened Results
  import opened Loader
  import opened Sequences

  /** The paths of the messages of kind `step`, in printing order. */
  function PathsAt(log: seq<Event>, step: Step): seq<Path> {
    if log == [] then []
    else
      var last := log[|log| - 1];
      PathsAt(log[..|log| - 1], step) + (if last.FileEvent? && last.step == step then [last.path] else [])
  }

  /** The number of iterations whose `try` block raised. */
  function FailureCount(outcomes: seq<FileOutcome>): nat {
    multiset(outcomes)[LoadFails] + multiset(outcomes)[ShowFails]
  }

  lemma {:induction false} PathsAtAppend(a: seq<Event>, b: seq<Event>, step: Step)
    ensures PathsAt(a + b, step) == PathsAt(a, step) + PathsAt(b, step)
    decreases |b|
  {
    if b == [] {
      assert a + b == a;
    } else {
      var front := b[..|b| - 1];
      PathsAtAppend(a, front, step);
      DropLast(a, b);
    }
  }

  /** The messages of one iteration, sorted by kind. */
  lemma AttemptEventsByStep(p: Path, o: FileOutcome)
    ensures PathsAt(AttemptEvents(p, o), Start) == [p]
    ensures PathsAt(AttemptEvents(p, o), Loaded) == (if o != LoadFails then [p] else [])
    ensures PathsAt(AttemptEvents(p, o), Failed) == (if o != LoadSucceeds then [p] else [])
    ensures PathsAt(AttemptEvents(p, o), SpaceShown) == (if o == LoadSucceeds then [p] else [])
  {
    var events := AttemptEvents(p, o);
    var first, last := [events[0]], [events[|events| - 1]];
    assert [FileEvent(Start, p)][..0] == [];
    if o == LoadFails {
      assert events == first + last;
      PathsAtAppend(first, last, Start);
      PathsAtAppend(first, last, Loaded);
      PathsAtAppend(first, last, Failed);
      PathsAtAppend(first, last, SpaceShown);
    } else {
      var middle := [FileEvent(Loaded, p)];
      assert events == first + middle + last;
      PathsAtAppend(first + middle, last, Start);
      PathsAtAppend(first + middle, last, Loaded);
      PathsAtAppend(first + middle, last, Failed);
      PathsAtAppend(first + middle, last, SpaceShown);
      PathsAtAppend(first, middle, Start);
      PathsAtAppend(first, middle, Loaded);
      PathsAtAppend(first, middle, Failed);
      PathsAtAppend(first, middle, SpaceShown);
    }
  }

  /** Every discovered file is attempted exactly once, in discovery order,
      whatever the engine does with the files before it. */
  lemma {:induction false} EveryFileAttemptedInOrder(paths: seq<Path>, outcomes: seq<FileOutcome>)
    requires |outcomes| == |paths|
    ensures PathsAt(AttemptLog(paths, outcomes), Start) == paths
    decreases |paths|
  {
    if paths != [] {
      var n := |paths| - 1;
      EveryFileAttemptedInOrder(paths[..n], outcomes[..n]);
      PathsAtAppend(AttemptLog(paths[..n], outcomes[..n]), AttemptEvents(paths[n], outcomes[n]), Start);
      AttemptEventsByStep(paths[n], outcomes[n]);
      LastSplit(paths);
    }
  }

  /** The space receives exactly the files reported as loaded, in the order
      they are reported: a file whose load raised leaves the space alone. */
  lemma {:induction false} SpaceMatchesLoadedMessages(paths: seq<Path>, outcomes: seq<FileOutcome>)
    requires |outcomes| == |paths|
    ensures SpaceAdditions(paths, outcomes) == PathsAt(AttemptLog(paths, outcomes), Loaded)
    decreases |paths|
  {
    if paths != [] {
      var n := |paths| - 1;
      SpaceMatchesLoadedMessages(paths[..n], outcomes[..n]);
      PathsAtAppend(AttemptLog(paths[..n], outcomes[..n]), AttemptEvents(paths[n], outcomes[n]), Loaded);
      AttemptEventsByStep(paths[n], outcomes[n]);
    }
  }

  /** A file whose `try` block raises is reported as failed and the loop
      goes on: every iteration ends with exactly one of "failed" or "space
      shown", and the failures number as many as the outcomes that raise. */
  lemma {:induction false} FailuresCounted(paths: seq<Path>, outcomes: seq<FileOutcome>)
    requires |outcomes| == |paths|
    ensures |PathsAt(AttemptLog(paths, outcomes), Failed)| == FailureCount(outcomes)
    ensures |PathsAt(AttemptLog(paths, outcomes), Failed)| + |PathsAt(AttemptLog(paths, outcomes), SpaceShown)| == |paths|
    decreases |paths|
  {
    if paths != [] {
      var n := |paths| - 1;
      var front, last := AttemptLog(paths[..n], outcomes[..n]), AttemptEvents(paths[n], outcomes[n]);
      FailuresCounted(paths[..n], outcomes[..n]);
      PathsAtAppend(front, last, Failed);
      PathsAtAppend(front, last, SpaceShown);
      AttemptEventsByStep(paths[n], outcomes[n]);
      MultisetSnoc(outcomes);
    }
  }

  /** The message that closes the iteration of a file with outcome `o`. */
  function FinalStep(o: FileOutcome): Step {
    if o == LoadSucceeds then SpaceShown else Failed
  }

  /** Each file is reported under the outcome the engine gave it: failed when
      its `try` block raised, with the space shown when it did not. By
      position: the log of the first `k + 1` iterations, which begins the
      whole log, ends with file `k`'s closing message, so the report is that
      file's own even when two discovered paths are equal. */
  lemma EachFileReportedByOutcome(paths: seq<Path>, outcomes: seq<FileOutcome>, k: nat)
    requires |outcomes| == |paths| && k < |paths|
    ensures paths[k] in PathsAt(AttemptLog(paths, outcomes), FinalStep(outcomes[k]))
    ensures var upTo := AttemptLog(paths[..k + 1], outcomes[..k + 1]);
      |upTo| > 0 && upTo <= AttemptLog(paths, outcomes) &&
      upTo[|upTo| - 1] == FileEvent(FinalStep(outcomes[k]), paths[k])
  {
    var before, own := AttemptLog(paths[..k], outcomes[..k]), AttemptEvents(paths[k], outcomes[k]);
    var rest := LogAroundFile(paths, outcomes, k);
    assert AttemptLog(paths, outcomes) == before + (own + rest);
    assert own[|own| - 1] == FileEvent(FinalStep(outcomes[k]), paths[k]);
    ReportedAmid(before, paths[k], outcomes[k], rest);
  }

  /** One iteration's closing message survives whatever is printed around it. */
  lemma ReportedAmid(before: seq<Event>, p: Path, o: FileOutcome, rest: seq<Event>)
    ensures p in PathsAt(before + (AttemptEvents(p, o) + rest), FinalStep(o))
  {
    PathsAtAppend(before, AttemptEvents(p, o) + rest, FinalStep(o));
    PathsAtAppend(AttemptEvents(p, o), rest, FinalStep(o));
    AttemptEventsByStep(p, o);
  }

  /** The whole log around iteration `k`: the iterations before it, its own
      messages, then the rest. */
  lemma LogAroundFile(paths: seq<Path>, outcomes: seq<FileOutcome>, k: nat) returns (rest: seq<Event>)
    requires |outcomes| == |paths| && k < |paths|
    ensures AttemptLog(paths[..k + 1], outcomes[..k + 1]) == AttemptLog(paths[..k], outcomes[..k]) + AttemptEvents(paths[k], outcomes[k])
    ensures AttemptLog(paths, outcomes) == AttemptLog(paths[..k + 1], outcomes[..k + 1]) + rest
  {
    LogStep(paths, outcomes, k);
    AttemptLogPrefix(paths, outcomes, k + 1);
    rest := AttemptLog(paths, outcomes)[|AttemptLog(paths[..k + 1], outcomes[..k + 1])|..];
  }

  /** The log of the first `m` iterations begins the log of the whole loop. */
  lemma {:induction false} AttemptLogPrefix(paths: seq<Path>, outcomes: seq<FileOutcome>, m: nat)
    requires |outcomes| == |paths| && m <= |paths|
    ensures AttemptLog(paths[..m], outcomes[..m]) <= AttemptLog(paths, outcomes)
    decreases |paths|
  {
    if m == |paths| {
      assert paths[..m] == paths && outcomes[..m] == outcomes;
    } else {
      var n := |paths| - 1;
      AttemptLogPrefix(paths[..n], outcomes[..n], m);
      assert paths[..n][..m] == paths[..m] && outcomes[..n][..m] == outcomes[..m];
    }
  }

  /** The loop prints only per-file messages. */
  lemma {:induction false} AttemptLogHasOnlyFileEvents(paths: seq<Path>, outcomes: seq<FileOutcome>)
    requires |outcomes| == |paths|
    ensures forall k :: 0 <= k < |AttemptLog(paths, outcomes)| ==> AttemptLog(paths, outcomes)[k].FileEvent?
    decreases |paths|
  {
    if paths != [] {
      var n := |paths| - 1;
      AttemptLogHasOnlyFileEvents(paths[..n], outcomes[..n]);
    }
  }

  /** The last message, and the only closing one, reports the number of
      discovered files, failed ones included. */
  lemma FinishedReportsDiscoveredCount(paths: seq<Path>, outcomes: seq<FileOutcome>)
    requires |outcomes| == |paths|
    ensures RunLog(paths, outcomes)[|RunLog(paths, outcomes)| - 1] == Finished(|paths|)
    ensures forall k :: 0 <= k < |RunLog(paths, outcomes)| - 1 ==> RunLog(paths, outcomes)[k].FileEvent?
  {
    AttemptLogHasOnlyFileEvents(paths, outcomes);
  }

  /** Two files, the second of which fails to load: both are attempted,
      the first is loaded, the second reported, and the count is 2. */
  lemma SecondFileFails()
    ensures RunLog(["a.metta", "b.metta"], [LoadSucceeds, LoadFails]) ==
      [FileEvent(Start, "a.metta"), FileEvent(Loaded, "a.metta"), FileEvent(SpaceShown, "a.metta"),
       FileEvent(Start, "b.metta"), FileEvent(Failed, "b.metta"), Finished(2)]
    ensures SpaceAdditions(["a.metta", "b.metta"], [LoadSucceeds, LoadFails]) == ["a.metta"]
  {
    var paths: seq<Path> := ["a.metta", "b.metta"];
    var outcomes := [LoadSucceeds, LoadFails];
    assert paths[..1] == ["a.metta"] && outcomes[..1] == [LoadSucceeds];
    assert paths[..1][..0] == [] && outcomes[..1][..0] == [];
    assert AttemptLog(paths[..1], outcomes[..1]) == AttemptEvents("a.metta", LoadSucceeds);
    assert AttemptLog(paths, outcomes) == AttemptEvents("a.metta", LoadSucceeds) + AttemptEvents("b.metta", LoadFails);
  }
}
