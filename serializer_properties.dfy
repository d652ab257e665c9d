/** What `metta_serializer` promises about its output, proved of the
    specification in module Serializer (and so of MettaSerializer, which
    returns exactly `Serialize(v)`). */
module SerializerProperties {
  import opened Results
  import opened Values
  import opened Serializer
  import opened Sequences

  // ---------------------------------------------------------------------
  // One statement.
  // ---------------------------------------------------------------------

  /** A statement that neither raises nor yields a record can be deleted
      without changing anything. */
  lemma SilentStatementRemovable(a: seq<Val>, st: Val, b: seq<Val>)
    requires StatementRecord(st) == Ok(None)
    ensures Collect(a + [st] + b) == Collect(a + b)
  {
    CollectAppend(a + [st], b);
    CollectAppend(a, [st]);
    CollectAppend(a, b);
    assert [st][..0] == [];
    if Collect(a).Ok? {
      assert Collect(a).value + [] == Collect(a).value;
    }
  }

  // ---------------------------------------------------------------------
  // A sequence of statements.
  // ---------------------------------------------------------------------

  /** Processing fails exactly when some statement raises, and then it fails
      with the exception of the first statement that raises. */
  lemma {:induction false} CollectFailsAtFirstError(sts: seq<Val>)
    ensures Collect(sts).Err? <==> exists k :: 0 <= k < |sts| && StatementRecord(sts[k]).Err?
    ensures Collect(sts).Err? ==>
      exists k :: 0 <= k < |sts| && StatementRecord(sts[k]) == Err(Collect(sts).error) &&
        forall j :: 0 <= j < k ==> StatementRecord(sts[j]).Ok?
    decreases |sts|
  {
    if sts != [] {
      var front := sts[..|sts| - 1];
      var n := |sts| - 1;
      CollectFailsAtFirstError(front);
      assert forall k :: 0 <= k < n ==> sts[k] == front[k];
      if Collect(front).Err? {
        var k :| 0 <= k < |front| && StatementRecord(front[k]) == Err(Collect(front).error) &&
          forall j :: 0 <= j < k ==> StatementRecord(front[j]).Ok?;
        assert StatementRecord(sts[k]) == Err(Collect(sts).error);
      } else if StatementRecord(sts[n]).Err? {
        assert forall j :: 0 <= j < n ==> StatementRecord(sts[j]).Ok?;
      }
    }
  }

  /** The indices of the statements that yield a record, in order. */
  function Sources(sts: seq<Val>): seq<nat> {
    if sts == [] then []
    else
      var n := |sts| - 1;
      Sources(sts[..n]) + (if IsEdgeStatement(sts[n]) then [n] else [])
  }

  /** The number of list statements among `sts`. */
  function ListCount(sts: seq<Val>): nat {
    if sts == [] then 0
    else ListCount(sts[..|sts| - 1]) + (if sts[|sts| - 1].VList? then 1 else 0)
  }

  /** The source indices are positions of `sts` in increasing order, and
      they are exactly the positions of the statements of the accepted shape. */
  lemma {:induction false} SourcesAreEdgeStatementsInOrder(sts: seq<Val>)
    ensures forall k :: 0 <= k < |Sources(sts)| ==> Sources(sts)[k] < |sts|
    ensures forall k, l :: 0 <= k < l < |Sources(sts)| ==> Sources(sts)[k] < Sources(sts)[l]
    ensures forall j :: 0 <= j < |sts| ==> (j in Sources(sts) <==> IsEdgeStatement(sts[j]))
    decreases |sts|
  {
    if sts != [] {
      var n := |sts| - 1;
      SourcesAreEdgeStatementsInOrder(sts[..n]);
      assert forall j :: 0 <= j < n ==> sts[j] == sts[..n][j];
    }
  }

  /** When processing succeeds, record `k` is the record that statement
      `Sources(sts)[k]` stands for: one record per statement of the accepted
      shape, in the order of the statements. */
  lemma {:induction false} RecordsFollowStatements(sts: seq<Val>, out: seq<Edge>)
    requires Collect(sts) == Ok(out)
    ensures |Sources(sts)| == |out|
    ensures forall k :: 0 <= k < |out| ==> Sources(sts)[k] < |sts| && Emits(sts[Sources(sts)[k]], out[k])
    decreases |sts|
  {
    SourcesAreEdgeStatementsInOrder(sts);
    if sts != [] {
      var n := |sts| - 1;
      var front := sts[..n];
      var st := sts[n];
      assert Collect(front).Ok?;
      var prev := Collect(front).value;
      RecordsFollowStatements(front, prev);
      SourcesAreEdgeStatementsInOrder(front);
      StatementClassification(st);
      var o := StatementRecord(st).value;
      assert out == prev + Emitted(o);
      forall k | 0 <= k < |prev|
        ensures Emits(sts[Sources(sts)[k]], out[k])
      {
        assert Sources(sts)[k] == Sources(front)[k];
        assert sts[Sources(front)[k]] == front[Sources(front)[k]];
      }
    }
  }

  /** There are never more records than list statements. */
  lemma {:induction false} RecordCountBound(sts: seq<Val>, out: seq<Edge>)
    requires Collect(sts) == Ok(out)
    ensures |out| <= ListCount(sts)
    decreases |sts|
  {
    if sts != [] {
      var n := |sts| - 1;
      assert Collect(sts[..n]).Ok?;
      RecordCountBound(sts[..n], Collect(sts[..n]).value);
    }
  }

  // ---------------------------------------------------------------------
  // Whole inputs.
  // ---------------------------------------------------------------------

  /** An input without length (and so not iterable) raises at once. */
  lemma NotIterableRaises(v: Val)
    requires v.VOther?
    ensures Serialize(v) == Err(NotIterable)
  {
  }

  /** A top-level element that is not a list (a tuple, a string, anything
      else) adds no record and raises nothing: deleting it changes nothing. */
  lemma NonListElementIgnored(pre: seq<Val>, x: Val, post: seq<Val>)
    requires !x.VList?
    ensures Serialize(VList(pre + [x] + post)) == Serialize(VList(pre + post))
  {
    ExaminedAppend(pre + [x], post);
    ExaminedAppend(pre, [x]);
    ExaminedAppend(pre, post);
    assert [x][..0] == [];
    assert Examined([x]) == [];
    assert Examined(pre) + [] == Examined(pre);
  }

  /** A statement that is not a list (tuples included), or a list statement
      whose edge data has a length but not the accepted shape (a length other
      than 3, or a first item that is neither relation name), adds no record
      and raises nothing: deleting it changes nothing. */
  lemma DroppedStatementIgnored(rs: seq<Val>, i: nat, pre: seq<Val>, st: Val, post: seq<Val>)
    requires i < |rs| && rs[i] == VList(pre + [st] + post)
    requires !st.VList? || (|st.items| == 2 && Len(st.items[1]).Some? && !IsEdgeData(st.items[1]))
    ensures Serialize(VList(rs)) == Serialize(VList(rs[i := VList(pre + post)]))
  {
    var before, after := Examined(rs[..i]), Examined(rs[i + 1..]);
    var rs' := rs[i := VList(pre + post)];
    ExaminedSplit(rs, i);
    Regroup(before, pre, [st], post, after);
    assert Examined(rs) == (before + pre) + [st] + (post + after);
    ExaminedAfterReplace(rs, i, pre + post);
    Regroup(before, pre, [], post, after);
    assert pre + [] + post == pre + post;
    assert (before + pre) + [] == before + pre;
    assert Examined(rs') == (before + pre) + (post + after);
    DroppedStatementIsSilent(st);
    SilentStatementRemovable(before + pre, st, post + after);
    assert Serialize(VList(rs)) == Collect(Examined(rs));
    assert Serialize(VList(rs')) == Collect(Examined(rs'));
  }

  /** The statements visited once element `i` is replaced by another list. */
  lemma ExaminedAfterReplace(rs: seq<Val>, i: nat, items: seq<Val>)
    requires i < |rs|
    ensures Examined(rs[i := VList(items)]) == Examined(rs[..i]) + items + Examined(rs[i + 1..])
  {
    var rs' := rs[i := VList(items)];
    ExaminedSplit(rs', i);
    assert rs'[..i] == rs[..i] && rs'[i + 1..] == rs[i + 1..];
  }

  lemma DroppedStatementIsSilent(st: Val)
    requires !st.VList? || (|st.items| == 2 && Len(st.items[1]).Some? && !IsEdgeData(st.items[1]))
    ensures StatementRecord(st) == Ok(None)
  {
    StatementClassification(st);
  }

  /** A list statement whose length is not 2, or whose second item has no
      length, makes the whole call raise: it is never skipped. */
  lemma MalformedStatementRaises(rs: seq<Val>, i: nat, j: nat)
    requires i < |rs| && rs[i].VList? && j < |rs[i].items|
    requires IsMalformedStatement(rs[i].items[j])
    ensures Serialize(VList(rs)).Err?
  {
    ExaminedSplit(rs, i);
    var sts := Examined(rs);
    var k := |Examined(rs[..i])| + j;
    assert sts[k] == rs[i].items[j];
    StatementClassification(sts[k]);
    CollectFailsAtFirstError(sts);
  }

  /** Every visited statement sits at some position of some list element. */
  lemma {:induction false} ExaminedOrigin(rs: seq<Val>, k: nat)
    requires k < |Examined(rs)|
    ensures exists i, j :: 0 <= i < |rs| && rs[i].VList? && 0 <= j < |rs[i].items| && rs[i].items[j] == Examined(rs)[k]
    decreases |rs|
  {
    var n := |rs| - 1;
    var front := rs[..n];
    if k < |Examined(front)| {
      ExaminedOrigin(front, k);
      var i, j :| 0 <= i < |front| && front[i].VList? && 0 <= j < |front[i].items| && front[i].items[j] == Examined(front)[k];
      assert rs[i] == front[i];
    } else {
      var j := k - |Examined(front)|;
      assert rs[n].items[j] == Examined(rs)[k];
    }
  }

  /** Some list element of `rs` holds a statement that stands for `e`. */
  ghost predicate HasSourceStatement(rs: seq<Val>, e: Edge) {
    exists i, j :: 0 <= i < |rs| && rs[i].VList? && 0 <= j < |rs[i].items| && Emits(rs[i].items[j], e)
  }

  /** Every output record comes from a list statement `[_, edge_data]` of a
      list element, with `edge`, `source` and `target` the three items of
      `edge_data`; there are at most as many records as list statements
      examined (order: see RecordsFollowStatements). */
  lemma SerializedRecordsHaveSources(rs: seq<Val>, out: seq<Edge>)
    requires Serialize(VList(rs)) == Ok(out)
    ensures |out| <= ListCount(Examined(rs))
    ensures forall k :: 0 <= k < |out| ==> HasSourceStatement(rs, out[k])
  {
    var sts := Examined(rs);
    RecordsFollowStatements(sts, out);
    RecordCountBound(sts, out);
    forall k | 0 <= k < |out|
      ensures HasSourceStatement(rs, out[k])
    {
      var at := Sources(sts)[k];
      assert at < |sts| && Emits(sts[at], out[k]);
      ExaminedOrigin(rs, at);
      var i, j :| 0 <= i < |rs| && rs[i].VList? && 0 <= j < |rs[i].items| && rs[i].items[j] == sts[at];
      assert Emits(rs[i].items[j], out[k]);
    }
  }

  // ---------------------------------------------------------------------
  // Concrete inputs.
  // ---------------------------------------------------------------------

  /** Empty input: empty output. */
  lemma EmptyInput()
    ensures Serialize(VList([])) == Ok([])
  {
  }

  /** `[["x", ("translates_to", "t1", "p1")]]`: the element is a list, but its
      statements are a string and a tuple, so both are skipped. */
  lemma MisnestedTupleYieldsNothing()
    ensures Serialize(VList([VList([VStr("x"), VTuple([VStr("translates_to"), VStr("t1"), VStr("p1")])])])) == Ok([])
  {
    var st1 := VStr("x");
    var st2 := VTuple([VStr("translates_to"), VStr("t1"), VStr("p1")]);
    var rs := [VList([st1, st2])];
    assert rs[..0] == [];
    assert Examined(rs) == [st1, st2];
    assert [st1, st2][..1] == [st1];
    assert [st1][..0] == [];
    assert StatementRecord(st1) == Ok(None) && StatementRecord(st2) == Ok(None);
    CollectSnoc([], st1);
    assert [] + [st1] == [st1];
    CollectSnoc([st1], st2);
    assert [st1] + [st2] == [st1, st2];
  }

  /** `[[["x", ("transcribed_to", "g", "t")]]]`: one well-nested statement
      yields exactly one record with the positional source and target. */
  lemma WellNestedStatementYieldsRecord()
    ensures Serialize(VList([VList([VList([VStr("x"), VTuple([VStr("transcribed_to"), VStr("g"), VStr("t")])])])]))
      == Ok([Edge(TranscribedTo, VStr("g"), VStr("t"))])
  {
    var st := VList([VStr("x"), VTuple([VStr("transcribed_to"), VStr("g"), VStr("t")])]);
    var rs := [VList([st])];
    assert rs[..0] == [];
    assert Examined(rs) == [st];
    assert [st][..0] == [];
    assert StatementRecord(st) == Ok(Some(Edge(TranscribedTo, VStr("g"), VStr("t"))));
    CollectSnoc([], st);
    assert [] + [st] == [st];
    assert [] + [Edge(TranscribedTo, VStr("g"), VStr("t"))] == [Edge(TranscribedTo, VStr("g"), VStr("t"))];
  }

  /** A statement of the wrong arity raises even after good records. */
  lemma BadArityAfterRecordRaises()
    ensures Serialize(VList([VList([
      VList([VStr("x"), VTuple([VStr("transcribed_to"), VStr("g"), VStr("t")])]),
      VList([VStr("x")])])])) == Err(UnpackMismatch(1))
  {
    var good := VList([VStr("x"), VTuple([VStr("transcribed_to"), VStr("g"), VStr("t")])]);
    var bad := VList([VStr("x")]);
    var rs := [VList([good, bad])];
    assert rs[..0] == [];
    assert Examined(rs) == [good, bad];
    assert [good, bad][..1] == [good];
    assert [good][..0] == [];
    assert StatementRecord(good).Ok? && StatementRecord(bad) == Err(UnpackMismatch(1));
    CollectSnoc([], good);
    assert [] + [good] == [good];
    CollectSnoc([good], bad);
    assert [good] + [bad] == [good, bad];
  }
}
