/** The loosely typed values a query of the symbolic engine hands to the
    serializer, reduced to what the serializer's type and length tests can
    tell apart. */
module Values {
  import opened Results

  /** A Python `list`, a `tuple`, a `str`, or any other object (an atom, a
      number, `None`, ...) that has no length and cannot be iterated. */
  datatype Val =
    | VList(items: seq<Val>)
    | VTuple(items: seq<Val>)
    | VStr(text: string)
    | VOther

  /** The one-character strings that iterating over a string produces. */
  function Chars(s: string): (r: seq<Val>)
    ensures |r| == |s|
    ensures forall i :: 0 <= i < |s| ==> r[i] == VStr([s[i]])
  {
    seq(|s|, i requires 0 <= i < |s| => VStr([s[i]]))
  }

  /** Python's `len(v)`; `None` where `len` raises a TypeError. */
  function Len(v: Val): (r: Option<nat>)
    ensures r.None? <==> v.VOther?
  {
    match v
    case VList(xs) => Some(|xs|)
    case VTuple(xs) => Some(|xs|)
    case VStr(s) => Some(|s|)
    case VOther => None
  }

  /** What `for x in v` (and tuple unpacking) walks through; `None` where
      Python raises "object is not iterable". */
  function Elements(v: Val): (r: Option<seq<Val>>)
    ensures r.Some? <==> Len(v).Some?
    ensures r.Some? ==> |r.value| == Len(v).value
  {
    match v
    case VList(xs) => Some(xs)
    case VTuple(xs) => Some(xs)
    case VStr(s) => Some(Chars(s))
    case VOther => None
  }
}
