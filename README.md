# MeTTa gene-data loader and result serializer

This project models `main.py`, a script that loads a biological dataset into
a MeTTa (Hyperon) space and turns query results into edge records. It covers
two parts of the script.

- **`load_dataset(path)`** checks that the dataset root exists and that a
  recursive glob finds at least one `.metta` file under it. If either check
  fails, it raises `ValueError`. Otherwise it attempts every discovered
  file in discovery order. Each attempt runs `load-ascii` and then
  `show-space` inside its own `try`, so an exception is reported and the
  loop goes on. At the end it prints how many files were discovered.
  Module `Loader` models this as the class `Session`. The class holds the
  shared space (the files whose facts reached `&space`) and the console (the
  messages printed so far, without their formatting). The filesystem and
  the engine are inputs: whether the root exists, the list the glob
  returned, and what the engine did with each file (`FileOutcome`).
- **`metta_serializer(metta_result)`** walks the nested value a `find`
  query returns. Inside every top-level element that is a list, each
  statement that is a list is unpacked as `_, edge_data`. If `edge_data`
  has length 3 and its first item is `'transcribed_to'` or
  `'translates_to'`, the serializer emits the record
  `{edge, source, target}`. Module `Serializer` models this twice. The
  method `MettaSerializer` keeps the source's two nested loops. The
  functions `StatementRecord`, `Examined`, `Collect` and `Serialize` state
  the same behaviour without loops, and the method is proved to return
  exactly `Serialize(v)`. Python values are modelled by `Values.Val`: lists,
  tuples, strings (whose `len` and iteration go character by character) and
  values with neither a length nor iteration. The exceptions that escape
  are part of the result (`SerializeError`): a non-iterable input, a list
  statement whose length is not 2, and edge data without a length.

Modules `SerializerProperties` and `LoaderProperties` prove what the two
functions promise about these specifications.

On input `[["x", ("translates_to", "t1", "p1")]]` the serializer returns
`[]`. The statements of that element are a string and a tuple, and the type
test at main.py:63 skips both, although the comment on that line expects "a
list of tuples" (`SerializerProperties.MisnestedTupleYieldsNothing`). A
record needs one more level of nesting
(`SerializerProperties.WellNestedStatementYieldsRecord`).

## Model

| member | source | states |
|---|---|---|
| Values.Len | main.py:65 | `len(v)` is defined exactly for lists, tuples and strings; it is undefined (Python raises) only for other values |
| Values.Elements | main.py:60-62 | iteration is defined exactly where `len` is, and it yields as many elements as `len` reports |
| Serializer.KindOf | main.py:67-77 | a relation name is recognised only when it equals `'transcribed_to'` or `'translates_to'`, and the kind found has that label |
| Serializer.MettaSerializer | main.py:57-79 | the two nested loops return exactly `Serialize(v)`: the records of all statements in visiting order, or the first exception raised |
| Serializer.SerializeStatements | main.py:62-78 | the inner loop over one element's statements extends the records of the statements already seen, exactly as `Collect` over the concatenation, and stops at the first exception |
| Serializer.SerializeStatement | main.py:63-78 | one statement, with the source's branches: it raises if and only if it is a list with wrong arity or edge data without length; it yields a record if and only if it has the accepted edge shape; it yields `e` if and only if its edge data is exactly `[label(e), source(e), target(e)]` |
| Serializer.CollectAppend | main.py:60-78 | processing two runs of statements in a row is processing the first and, if it did not raise, appending the records of the second |
| Serializer.StatementClassification | main.py:63-78 | a statement raises if and only if it is a list with wrong arity or edge data without length; it yields a record if and only if it has the accepted edge shape; it yields `e` if and only if its edge data is exactly `[label(e), source(e), target(e)]` |
| SerializerProperties.SilentStatementRemovable | main.py:63-78 | a statement that neither raises nor yields can be deleted without changing the result |
| SerializerProperties.CollectFailsAtFirstError | main.py:62-64 | processing raises if and only if some statement raises, and then with the exception of the first such statement, every earlier one having succeeded |
| SerializerProperties.SourcesAreEdgeStatementsInOrder | main.py:63-67 | the statements that yield records are exactly those of the accepted shape, listed by increasing position |
| SerializerProperties.RecordsFollowStatements | main.py:59-79 | on success there is exactly one record per statement of the accepted shape, in statement order, each carrying that statement's edge, source and target |
| SerializerProperties.RecordCountBound | main.py:63-78 | there are never more records than list statements |
| SerializerProperties.NotIterableRaises | main.py:60 | a non-iterable input raises before anything is produced |
| SerializerProperties.NonListElementIgnored | main.py:61 | a top-level element that is not a list (tuples and strings included) can be deleted without changing the result |
| SerializerProperties.DroppedStatementIgnored | main.py:63-77 | a non-list statement, or a list statement whose edge data has a length but not the accepted shape, can be deleted without changing the result |
| SerializerProperties.MalformedStatementRaises | main.py:64-65 | a list statement of wrong arity, or whose edge data has no length, anywhere in any list element makes the whole call raise |
| SerializerProperties.ExaminedOrigin | main.py:60-62 | every visited statement is an item of some top-level list element |
| SerializerProperties.SerializedRecordsHaveSources | main.py:59-79 | every output record comes from a list statement of some list element whose edge data spells it out; records never outnumber the list statements visited |
| SerializerProperties.EmptyInput | main.py:59-79 | an empty result serializes to an empty list |
| SerializerProperties.MisnestedTupleYieldsNothing | main.py:61-63 | `[["x", ("translates_to", "t1", "p1")]]` yields no record, because neither statement is a list |
| SerializerProperties.WellNestedStatementYieldsRecord | main.py:61-72 | `[[["x", ("transcribed_to", "g", "t")]]]` yields exactly the record `transcribed_to g -> t` |
| SerializerProperties.BadArityAfterRecordRaises | main.py:64 | a one-item list statement raises even after a good record, and the record is lost |
| Loader.Precheck | main.py:11-15 | `load_dataset` raises up front if and only if the root is missing or the glob found nothing |
| Loader.Session.constructor | main.py:6-7 | a new session starts with an empty space and nothing printed |
| Loader.Session.Attempt | main.py:18-26 | one iteration: "start" is printed; if `load-ascii` raises, "error" is printed and the space is unchanged; otherwise the file is added to the space, "loaded" is printed, then either the space dump or, if `show-space` raises, "error" |
| Loader.Session.LoadEach | main.py:17-26 | the loop appends to the console the messages of every file in discovery order and adds to the space every file whose load did not raise |
| Loader.Session.LoadDataset | main.py:9-28 | it fails exactly as `Precheck` says, with the "does not exist" error when the root is missing and the "no .metta files" error when the glob found nothing, and then changes nothing (no file is attempted); otherwise the console gains the whole per-file log followed by the final count, and the space gains the files whose load did not raise |
| LoaderProperties.PathsAtAppend | main.py:17-26 | the messages of each kind in a log made of two parts are those of the first part followed by those of the second |
| LoaderProperties.AttemptEventsByStep | main.py:18-26 | one iteration prints "start" once; "loaded" unless the load raised; "error" unless both commands returned; the space dump only if both returned |
| LoaderProperties.EveryFileAttemptedInOrder | main.py:17-18 | every discovered file is announced exactly once, in discovery order, whatever happens to the files before it |
| LoaderProperties.SpaceMatchesLoadedMessages | main.py:20-21 | the files added to the space are exactly the files reported as loaded, in the same order |
| LoaderProperties.FailuresCounted | main.py:19-26 | as many "error" messages are printed as files whose `try` block raised, and every file ends with exactly one "error" or space dump |
| LoaderProperties.EachFileReportedByOutcome | main.py:19-26 | file `k` is reported as failed if its `try` block raised, and with its space dump otherwise; by position, the log of the first `k + 1` iterations begins the whole log and ends with file `k`'s own closing message |
| LoaderProperties.AttemptLogPrefix | main.py:17-26 | the messages of the first `m` iterations begin the messages of the whole loop: later iterations only print after them and never change what was printed |
| LoaderProperties.AttemptLogHasOnlyFileEvents | main.py:17-26 | the loop prints only per-file messages |
| LoaderProperties.FinishedReportsDiscoveredCount | main.py:28 | the last message is the final count of discovered files, failed ones included, and it is the only closing message |
| LoaderProperties.SecondFileFails | main.py:17-28 | with two files where the second fails to load, both are announced, only the first is loaded and shown, the second is reported, and the count is 2 |

## Left out

- The Hyperon engine (`MeTTa()`, `bind!`, `load-ascii`, `show-space`, `find`) is not modelled. The fresh `&space` that main.py:6-7 creates is modelled only as the empty initial state of `Session` (`space == []`, `console == []`). Each file's fate is an input `FileOutcome`, and the space is the list of files whose facts it received, not the atoms themselves.
- A `load-ascii` that raises is assumed to leave the space unchanged. The model does not capture a partial load before the exception.
- The filesystem (`os.path.exists`, the recursive `glob.glob`) is not modelled. Its answers are parameters, and `discovered` is taken as the glob returned it, in that order.
- Console messages are abstract events carrying the step and the path. The formatting of the strings, the exception text in "error" messages and the space dump are left out.
- Loader.Session.LoadDataset: requires one engine outcome per discovered file. This aligns the engine's inputs with the glob's output and excludes no run of the source.
- `get_transcript` and `get_protein` (main.py:39-54) are not modelled. Each only builds a query string around one engine call, so there is nothing to prove without the engine. `get_protein` computes `gene_id` but never uses it in its query (main.py:50-52). That is likely a defect, but it is outside this model.
- The module-level script (main.py:5, 30-36, 81-98) is not modelled. This includes the two calls to `load_dataset` and the top-level `except` that prints their errors.
- Python values other than lists, tuples and strings are a single case without length or iteration. Dicts, sets and other iterables are not distinguished. Equality of a relation name with `'transcribed_to'` is modelled only for strings.
- Records hold the source's `source` and `target` values as they are. The dict representation of a record is the datatype `Edge`.
