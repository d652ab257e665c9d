/** The result serializer of main.py: it walks the nested value a `find`
    query returns and emits one edge record per well-formed statement. */
module Serializer {
  import opened Results
  import opened Values
  import opened Sequences

  /** The two relation names the serializer recognises. */
  datatype EdgeKind = TranscribedTo | TranslatesTo {
    function Label(): (s: string)
      ensures s == "transcribed_to" || s == "translates_to"
    {
      match this
      case TranscribedTo => "transcribed_to"
      case TranslatesTo => "translates_to"
    }
  }

  /** One output record `{'edge': ..., 'source': ..., 'target': ...}`. */
  datatype Edge = Edge(edge: EdgeKind, source: Val, target: Val)

  /** The exceptions that escape the serializer. */
  datatype SerializeError =
    | NotIterable            // `for res in metta_result` on a non-iterable value
    | UnpackMismatch(got: nat) // `_, edge_data = statement` on a list whose length is not 2
    | NoLength               // `len(edge_data)` on a value without a length

  /** The edge kind whose label equals `v` (Python `==` against a str literal). */
  function KindOf(v: Val): (k: Option<EdgeKind>)
    ensures k.Some? ==> v == VStr(k.value.Label())
    ensures k.None? ==> v != VStr("transcribed_to") && v != VStr("translates_to")
  {
    if v == VStr("transcribed_to") then Some(TranscribedTo)
    else if v == VStr("translates_to") then Some(TranslatesTo)
    else None
  }

  // ---------------------------------------------------------------------
  // Reference shapes, stated without the serializer's control flow.
  // ---------------------------------------------------------------------

  /** Edge data the serializer accepts: a list or tuple of three whose first
      item is one of the two relation names. */
  predicate IsEdgeData(d: Val) {
    (d.VList? || d.VTuple?) && |d.items| == 3 &&
    (d.items[0] == VStr("transcribed_to") || d.items[0] == VStr("translates_to"))
  }

  /** A statement that yields a record: a list `[_, edge_data]` with
      edge data of the accepted shape. */
  predicate IsEdgeStatement(st: Val) {
    st.VList? && |st.items| == 2 && IsEdgeData(st.items[1])
  }

  /** `e` is the record statement `st` stands for: `edge`, `source` and
      `target` are the three items of its edge data, in that order. */
  predicate Emits(st: Val, e: Edge) {
    st.VList? && |st.items| == 2 &&
    (st.items[1].VList? || st.items[1].VTuple?) &&
    st.items[1].items == [VStr(e.edge.Label()), e.source, e.target]
  }

  /** A list statement that raises: wrong arity for the unpacking, or edge
      data that `len` rejects. */
  predicate IsMalformedStatement(st: Val) {
    st.VList? && (|st.items| != 2 || Len(st.items[1]).None?)
  }

  // ---------------------------------------------------------------------
  // The specification of the serializer as functions.
  // ---------------------------------------------------------------------

  /** What one statement of the inner loop contributes: no record, one
      record, or the exception it raises. */
  function StatementRecord(st: Val): Result<Option<Edge>, SerializeError> {
    if !st.VList? then Ok(None)
    else if |st.items| != 2 then Err(UnpackMismatch(|st.items|))
    else
      var edgeData := st.items[1];
      match Elements(edgeData)
      case None => Err(NoLength)
      case Some(parts) =>
        if |parts| != 3 then Ok(None)
        else match KindOf(parts[0])
          case None => Ok(None)
          case Some(k) => Ok(Some(Edge(k, parts[1], parts[2])))
  }

  function Emitted(o: Option<Edge>): seq<Edge> {
    if o.Some? then [o.value] else []
  }

  /** The statements the inner loop visits, in visiting order: the items of
      every top-level element that is a list. */
  function Examined(rs: seq<Val>): seq<Val> {
    if rs == [] then []
    else
      var last := rs[|rs| - 1];
      Examined(rs[..|rs| - 1]) + (if last.VList? then last.items else [])
  }

  /** The records of a sequence of statements processed in order; the first
      statement that raises makes the whole call raise. */
  function Collect(sts: seq<Val>): Result<seq<Edge>, SerializeError> {
    if sts == [] then Ok([])
    else match Collect(sts[..|sts| - 1])
      case Err(e) => Err(e)
      case Ok(acc) =>
        match StatementRecord(sts[|sts| - 1])
        case Err(e) => Err(e)
        case Ok(o) => Ok(acc + Emitted(o))
  }

  /** `metta_serializer(v)`: its list of records, or the exception it raises. */
  function Serialize(v: Val): Result<seq<Edge>, SerializeError> {
    match Elements(v)
    case None => Err(NotIterable)
    case Some(rs) => Collect(Examined(rs))
  }

  // ---------------------------------------------------------------------
  // The serializer as the source writes it: two nested loops appending to
  // `parsed_result`.
  // ---------------------------------------------------------------------

  method MettaSerializer(mettaResult: Val) returns (r: Result<seq<Edge>, SerializeError>)
    ensures r == Serialize(mettaResult)
  {
    var outer := Elements(mettaResult);
    if outer.None? {
      return Err(NotIterable);
    }
    var rs := outer.value;
    var parsed: seq<Edge> := [];
    for i := 0 to |rs|
      invariant Collect(Examined(rs[..i])) == Ok(parsed)
    {
      var res := rs[i];
      ExaminedSnoc(rs, i);
      if res.VList? {
        var next := SerializeStatements(res.items, Examined(rs[..i]), parsed);
        if next.Err? {
          r := next;
          ExaminedSplit(rs, i);
          CollectAppend(Examined(rs[..i + 1]), Examined(rs[i + 1..]));
          return;
        }
        parsed := next.value;
      }
    }
    assert rs[..|rs|] == rs;
    r := Ok(parsed);
  }

  /** The inner loop over the statements of one list element, continuing
      from the records `parsed` of the statements `seen` before it. */
  method SerializeStatements(statements: seq<Val>, ghost seen: seq<Val>, parsed: seq<Edge>)
    returns (r: Result<seq<Edge>, SerializeError>)
    requires Collect(seen) == Ok(parsed)
    ensures r == Collect(seen + statements)
  {
    var records := parsed;
    assert seen + statements[..0] == seen;
    for j := 0 to |statements|
      invariant Collect(seen + statements[..j]) == Ok(records)
    {
      var statement := statements[j];
      CollectNext(seen, statements, j, records);
      var step := SerializeStatement(statement);
      if step.Err? {
        r := Err(step.error);
        assert statements == statements[..j + 1] + statements[j + 1..];
        assert seen + statements == (seen + statements[..j + 1]) + statements[j + 1..];
        CollectAppend(seen + statements[..j + 1], statements[j + 1..]);
        return;
      }
      if step.value.Some? {
        records := records + [step.value.value];
      }
    }
    assert statements[..|statements|] == statements;
    r := Ok(records);
  }

  /** The body of the inner loop: the type test, the unpacking, the length
      test and the comparison of the edge type with the two names. */
  method SerializeStatement(statement: Val) returns (r: Result<Option<Edge>, SerializeError>)
    ensures r == StatementRecord(statement)
    ensures r.Err? <==> IsMalformedStatement(statement)
    ensures r.Ok? && r.value.Some? <==> IsEdgeStatement(statement)
    ensures forall e :: r == Ok(Some(e)) <==> Emits(statement, e)
  {
    StatementClassification(statement);
    if !statement.VList? {
      return Ok(None);
    }
    if |statement.items| != 2 {
      return Err(UnpackMismatch(|statement.items|));
    }
    var edgeData := statement.items[1];
    var n := Len(edgeData);
    if n.None? {
      return Err(NoLength);
    }
    r := Ok(None);
    if n.value == 3 {
      var parts := Elements(edgeData).value;
      var edgeType, source, target := parts[0], parts[1], parts[2];
      if edgeType == VStr("transcribed_to") {
        r := Ok(Some(Edge(TranscribedTo, source, target)));
      } else if edgeType == VStr("translates_to") {
        r := Ok(Some(Edge(TranslatesTo, source, target)));
      }
    }
  }

  /** A statement raises exactly when it is a list whose unpacking or length
      test fails; it yields a record exactly when it has the accepted edge
      shape, and the record it yields is the one its edge data spells out. */
  lemma StatementClassification(st: Val)
    ensures StatementRecord(st).Err? <==> IsMalformedStatement(st)
    ensures StatementRecord(st).Ok? && StatementRecord(st).value.Some? <==> IsEdgeStatement(st)
    ensures forall e :: StatementRecord(st) == Ok(Some(e)) <==> Emits(st, e)
  {
    if st.VList? && |st.items| == 2 {
      var d := st.items[1];
      if d.VStr? && |d.text| == 3 {
        assert Elements(d).value[0] == VStr([d.text[0]]);
        assert [d.text[0]] != "transcribed_to" && [d.text[0]] != "translates_to";
      }
      forall e | Emits(st, e)
        ensures StatementRecord(st) == Ok(Some(e))
      {
        assert d.items[0] == VStr(e.edge.Label());
      }
    }
  }

  /** One more statement processed by the inner loop. */
  lemma CollectSnoc(done: seq<Val>, st: Val)
    ensures Collect(done + [st]) ==
      match Collect(done)
      case Err(e) => Err(e)
      case Ok(acc) =>
        match StatementRecord(st)
        case Err(e) => Err(e)
        case Ok(o) => Ok(acc + Emitted(o))
    ensures StatementRecord(st) == Ok(None) && Collect(done).Ok? ==> Collect(done + [st]) == Collect(done)
  {
    assert (done + [st])[..|done|] == done;
    if Collect(done).Ok? {
      assert Collect(done).value + Emitted(None) == Collect(done).value;
    }
  }

  /** The inner loop's invariant one statement further. */
  lemma CollectNext(seen: seq<Val>, statements: seq<Val>, j: nat, records: seq<Edge>)
    requires j < |statements| && Collect(seen + statements[..j]) == Ok(records)
    ensures Collect(seen + statements[..j + 1]) ==
      match StatementRecord(statements[j])
      case Err(e) => Err(e)
      case Ok(None) => Ok(records)
      case Ok(Some(edge)) => Ok(records + [edge])
  {
    ExtendPrefix(seen, statements, j);
    CollectSnoc(seen + statements[..j], statements[j]);
  }

  /** One more top-level element processed by the outer loop. */
  lemma ExaminedSnoc(rs: seq<Val>, i: nat)
    requires i < |rs|
    ensures rs[i].VList? ==> Examined(rs[..i + 1]) == Examined(rs[..i]) + rs[i].items
    ensures !rs[i].VList? ==> Examined(rs[..i + 1]) == Examined(rs[..i])
  {
    assert rs[..i + 1][..i] == rs[..i];
    assert Examined(rs[..i]) + [] == Examined(rs[..i]);
  }

  // ---------------------------------------------------------------------
  // Composition lemmas for the specification functions.
  // ---------------------------------------------------------------------

  /** Left-to-right composition with the first failure winning. */
  function Combine(a: Result<seq<Edge>, SerializeError>, b: Result<seq<Edge>, SerializeError>): Result<seq<Edge>, SerializeError> {
    if a.Err? then a else if b.Err? then b else Ok(a.value + b.value)
  }

  /** Processing `a` then `b` is processing `a + b`. */
  lemma {:induction false} CollectAppend(a: seq<Val>, b: seq<Val>)
    ensures Collect(a + b) == Combine(Collect(a), Collect(b))
    decreases |b|
  {
    if b == [] {
      assert a + b == a;
      if Collect(a).Ok? {
        assert Collect(a).value + [] == Collect(a).value;
      }
    } else {
      var front := b[..|b| - 1];
      CollectAppend(a, front);
      DropLast(a, b);
      match Collect(front)
      case Err(_) =>
      case Ok(fv) =>
        match Collect(a)
        case Err(_) =>
        case Ok(av) =>
          match StatementRecord(b[|b| - 1])
          case Err(_) =>
          case Ok(o) =>
            assert av + (fv + Emitted(o)) == (av + fv) + Emitted(o);
    }
  }

  /** The statements visited for `a + b` are those of `a`, then those of `b`. */
  lemma {:induction false} ExaminedAppend(a: seq<Val>, b: seq<Val>)
    ensures Examined(a + b) == Examined(a) + Examined(b)
    decreases |b|
  {
    if b == [] {
      assert a + b == a;
    } else {
      var front, last := b[..|b| - 1], b[|b| - 1];
      var tail := if last.VList? then last.items else [];
      ExaminedAppend(a, front);
      DropLast(a, b);
      assert Examined(a + b) == Examined(a + front) + tail;
      assert Examined(b) == Examined(front) + tail;
    }
  }

  /** The statements visited around element `i`. */
  lemma ExaminedSplit(rs: seq<Val>, i: nat)
    requires i < |rs| && rs[i].VList?
    ensures Examined(rs) == Examined(rs[..i]) + rs[i].items + Examined(rs[i + 1..])
  {
    assert rs == rs[..i] + [rs[i]] + rs[i + 1..];
    ExaminedAppend(rs[..i] + [rs[i]], rs[i + 1..]);
    ExaminedAppend(rs[..i], [rs[i]]);
    assert [rs[i]][..0] == [];
  }
}
