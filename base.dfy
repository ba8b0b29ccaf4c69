/** Values shared by every part of the reindexer model. */
module Base {

  datatype Option<+T> = None | Some(value: T)

  /** Ok carries a value; Err stands for a Go `panic`, which ends the whole process. */
  datatype Result<+T, +E> = Ok(value: T) | Err(error: E)

  /** Modulus of Go's uint64 arithmetic. */
  const U64: nat := 0x1_0000_0000_0000_0000

  /** Go's int32 and uint32, for the record fields declared with those widths. */
  type Int32 = x: int | -0x8000_0000 <= x < 0x8000_0000
  type Uint32 = x: nat | x < 0x1_0000_0000

  /** A float32 or float64 kept as its bit pattern: no arithmetic and no printing is modelled. */
  datatype Float = Float(bits: bv64)

  const FloatZero: Float := Float(0)

  /**
   * The JSON-like values that travel to the search engine and to SQL.
   * JLatLon is the text "lat,lon" that strconv.FormatFloat(_, 'f', -1, 64) prints;
   * JDecoded is what json.Unmarshal makes of a text (errors are swallowed at the call site).
   */
  datatype Json =
    | JNull
    | JBool(b: bool)
    | JNum(n: int)
    | JFloat(f: Float)
    | JStr(s: string)
    | JList(items: seq<Json>)
    | JObject(fields: map<string, Json>)
    | JLatLon(lat: Float, lon: Float)
    | JDecoded(text: string)

  function Last<T>(s: seq<T>): T
    requires |s| > 0
  {
    s[|s| - 1]
  }

  function Init<T>(s: seq<T>): seq<T>
    requires |s| > 0
  {
    s[..|s| - 1]
  }

  lemma AppendAssoc<T>(a: seq<T>, b: seq<T>, c: seq<T>)
    ensures a + b + c == a + (b + c)
  {
  }

  /** Concatenation of a sequence of sequences. */
  function Flatten<T>(ss: seq<seq<T>>): seq<T>
  {
    if ss == [] then [] else ss[0] + Flatten(ss[1..])
  }

  lemma FlattenAppend<T>(a: seq<seq<T>>, b: seq<seq<T>>)
    ensures Flatten(a + b) == Flatten(a) + Flatten(b)
  {
    if a == [] {
      assert a + b == b;
    } else {
      assert (a + b)[1..] == a[1..] + b;
      FlattenAppend(a[1..], b);
    }
  }

  lemma FlattenSnoc<T>(a: seq<seq<T>>, x: seq<T>)
    ensures Flatten(a + [x]) == Flatten(a) + x
  {
    FlattenAppend(a, [x]);
    assert Flatten([x]) == x + Flatten([x][1..]);
  }
}
