/** Shared building blocks: optional values, results that stand for the .NET
    exceptions the services catch, 32/64-bit integer conversions and the
    "first match" search that every LINQ `First`/`FirstOrDefault` lookup uses. */
module Basics {

  datatype Option<+T> = None | Some(value: T)

  /** The exceptions the modelled code can raise (and mostly catches). */
  datatype Failure =
    | NullReference      // a member read through a null reference
    | DivideByZero       // decimal division by a zero ask price
    | InvalidCast        // an unboxing or JSON token cast of the wrong kind
    | FormatError        // int.Parse / DateTime.Parse on malformed text
    | Overflow           // int.Parse of a number outside 32 bits
    | KeyNotFound        // a dictionary read of a missing key
    | InvalidOperation   // a keyed read on a JSON token that has no children
    | Argument           // a keyed read on a JSON array
    | Deserialization    // JsonConvert could not bind the payload
    | Network            // the HTTP fetch of the external feed failed

  datatype Result<+T> = Ok(value: T) | Err(error: Failure)

  const Int32Min: int := -0x8000_0000
  const Int32Max: int := 0x7FFF_FFFF
  const Int64Min: int := -0x8000_0000_0000_0000
  const Int64Max: int := 0x7FFF_FFFF_FFFF_FFFF

  predicate InInt32(x: int) { Int32Min <= x <= Int32Max }
  predicate InInt64(x: int) { Int64Min <= x <= Int64Max }

  /** C#'s unchecked `(int)` cast of a `long`: the low 32 bits read as a
      two's-complement number. */
  function ToInt32(x: int): (r: int)
    ensures InInt32(r)
    ensures (x - r) % 0x1_0000_0000 == 0
    ensures InInt32(x) ==> r == x
  {
    var m := x % 0x1_0000_0000;
    if m <= Int32Max then m else m - 0x1_0000_0000
  }

  /** C#'s unchecked `(sbyte)` cast of an `int`. */
  function ToInt8(x: int): (r: int)
    ensures -128 <= r <= 127
    ensures (x - r) % 256 == 0
    ensures -128 <= x <= 127 ==> r == x
  {
    var m := x % 256;
    if m <= 127 then m else m - 256
  }

  /** Index of the first element satisfying `p`, if any. */
  function FirstIndex<T>(s: seq<T>, p: T -> bool): (r: Option<nat>)
    ensures r.Some? ==> r.value < |s| && p(s[r.value])
    ensures r.Some? ==> forall j :: 0 <= j < r.value ==> !p(s[j])
    ensures r.None? ==> forall j :: 0 <= j < |s| ==> !p(s[j])
  {
    if |s| == 0 then None
    else if p(s[0]) then Some(0)
    else match FirstIndex(s[1..], p)
      case None => None
      case Some(k) => Some(k + 1)
  }

  /** The first element satisfying `p` (LINQ `FirstOrDefault`, null as None). */
  function FirstWhere<T>(s: seq<T>, p: T -> bool): (r: Option<T>)
    ensures r.Some? <==> exists j :: 0 <= j < |s| && p(s[j])
    ensures r.Some? ==> r.value in s && p(r.value)
  {
    match FirstIndex(s, p)
    case None => None
    case Some(k) => Some(s[k])
  }

  /** What `FirstWhere` finds is the first element satisfying `p`. */
  lemma FirstWhereIsFirst<T>(s: seq<T>, p: T -> bool)
    ensures FirstWhere(s, p).Some? ==>
              exists k :: 0 <= k < |s| && s[k] == FirstWhere(s, p).value && forall j :: 0 <= j < k ==> !p(s[j])
  {
    match FirstIndex(s, p)
    case None =>
    case Some(k) =>
      assert s[k] == FirstWhere(s, p).value;
  }
}
