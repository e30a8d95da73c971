/** The `Vector` class: a fixed-length sequence of integer coordinates with
    Python's indexing, elementwise arithmetic, comparison and rendering.
    Each operator method becomes a pure function; the in-place coordinate
    write returns the updated vector. */
module Vectors {
  import opened Results
  import Pointwise
  import Lexicographic
  import Rendering

  datatype Vector = Vector(coords: seq<int>)

  /** What the constructor is given: an int dimension, an iterable of numbers,
      or a value that cannot be iterated. */
  datatype Source = Dim(d: int) | Items(items: seq<int>) | NotIterable

  /** The other operand of a binary operator: another vector, a plain list of
      numbers, a number, or a value with neither a length nor a numeric type.
      For `*` a string also counts as `Other`: the type assertion rejects it
      before its length could matter. */
  datatype Operand = Vec(v: Vector) | List(items: seq<int>) | Scalar(k: int) | Other
  {
    /** Whether `len` and indexing work on the operand. */
    predicate HasLength()
    {
      Vec? || List?
    }

    function Elements(): seq<int>
      requires HasLength()
    {
      if Vec? then v.coords else items
    }
  }

  /** The dimension of the vector. */
  function Len(v: Vector): nat
  {
    |v.coords|
  }

  /** `[0] * d`: a negative count gives the empty list. */
  function Zeros(d: int): (v: Vector)
    ensures Len(v) == if d < 0 then 0 else d
    ensures forall j :: 0 <= j < Len(v) ==> v.coords[j] == 0
  {
    Vector(seq(if d < 0 then 0 else d, _ => 0))
  }

  /** The constructor: an int gives the zero vector of that dimension, an
      iterable is copied in order, anything else is rejected. */
  function New(src: Source): (r: Result<Vector>)
    ensures r.Err? <==> src.NotIterable?
    ensures r.Err? ==> r.error == InvalidParameterType
    ensures src.Dim? ==> r.Ok? && Len(r.value) == (if src.d < 0 then 0 else src.d)
    ensures src.Dim? && src.d >= 0 ==>
      r.Ok? && Len(r.value) == src.d && forall j :: 0 <= j < src.d ==> r.value.coords[j] == 0
    ensures src.Items? ==>
      r.Ok? && Len(r.value) == |src.items| &&
      forall j :: 0 <= j < |src.items| ==> r.value.coords[j] == src.items[j]
  {
    match src
    case Dim(d) => Ok(Zeros(d))
    case Items(s) => Ok(Vector(s))
    case NotIterable => Err(InvalidParameterType)
  }

  /** The position a Python list index `j` addresses in a list of length `n`. */
  function Position(n: nat, j: int): (r: Result<nat>)
    ensures r.Ok? <==> -(n as int) <= j < n
    ensures r.Ok? ==> r.value < n && (j >= 0 ==> r.value == j) && (j < 0 ==> r.value == n + j)
    ensures r.Err? ==> r.error == IndexOutOfRange
  {
    var p := if j < 0 then n + j else j;
    if 0 <= p < n then Ok(p) else Err(IndexOutOfRange)
  }

  /** `v[j]`. */
  function GetItem(v: Vector, j: int): (r: Result<int>)
    ensures r.Ok? <==> -(Len(v) as int) <= j < Len(v)
    ensures r.Ok? ==> r.value == v.coords[if j >= 0 then j else Len(v) + j]
    ensures r.Err? ==> r.error == IndexOutOfRange
  {
    match Position(Len(v), j)
    case Ok(p) => Ok(v.coords[p])
    case Err(e) => Err(e)
  }

  /** `v[j] = x`: the vector after the write. */
  function SetItem(v: Vector, j: int, x: int): (r: Result<Vector>)
    ensures r.Ok? <==> -(Len(v) as int) <= j < Len(v)
    ensures r.Err? ==> r.error == IndexOutOfRange
    ensures r.Ok? ==> Len(r.value) == Len(v) && GetItem(r.value, j) == Ok(x)
    ensures r.Ok? ==> forall k :: 0 <= k < Len(v) && k != (if j >= 0 then j else Len(v) + j) ==>
      r.value.coords[k] == v.coords[k]
  {
    match Position(Len(v), j)
    case Ok(p) => Ok(Vector(v.coords[p := x]))
    case Err(e) => Err(e)
  }

  /** `a + other`: lengths must agree, then coordinates are summed. */
  function Add(a: Vector, other: Operand): (r: Result<Vector>)
    ensures !other.HasLength() ==> r == Err(NoLength)
    ensures other.HasLength() && |other.Elements()| != Len(a) ==> r == Err(DimensionsMustAgree)
    ensures other.HasLength() && |other.Elements()| == Len(a) ==>
      r.Ok? && Len(r.value) == Len(a) &&
      forall j :: 0 <= j < Len(a) ==> r.value.coords[j] == a.coords[j] + other.Elements()[j]
  {
    if !other.HasLength() then Err(NoLength)
    else if Len(a) != |other.Elements()| then Err(DimensionsMustAgree)
    else Ok(Vector(Pointwise.ZipWith(a.coords, other.Elements(), (x, y) => x + y)))
  }

  /** `other + a` when `other` is not a vector: the sum with the operands
      swapped, so coordinate `j` is `other[j] + a[j]`. */
  function RAdd(a: Vector, other: Operand): (r: Result<Vector>)
    ensures !other.HasLength() ==> r == Err(NoLength)
    ensures other.HasLength() && |other.Elements()| != Len(a) ==> r == Err(DimensionsMustAgree)
    ensures other.HasLength() && |other.Elements()| == Len(a) ==>
      r.Ok? && Len(r.value) == Len(a) &&
      forall j :: 0 <= j < Len(a) ==> r.value.coords[j] == other.Elements()[j] + a.coords[j]
  {
    Add(a, other)
  }

  /** `a - other`: lengths must agree, then coordinates are subtracted. */
  function Sub(a: Vector, other: Operand): (r: Result<Vector>)
    ensures !other.HasLength() ==> r == Err(NoLength)
    ensures other.HasLength() && |other.Elements()| != Len(a) ==> r == Err(DimensionsMustAgree)
    ensures other.HasLength() && |other.Elements()| == Len(a) ==>
      r.Ok? && Len(r.value) == Len(a) &&
      forall j :: 0 <= j < Len(a) ==> r.value.coords[j] == a.coords[j] - other.Elements()[j]
  {
    if !other.HasLength() then Err(NoLength)
    else if Len(a) != |other.Elements()| then Err(DimensionsMustAgree)
    else Ok(Vector(Pointwise.ZipWith(a.coords, other.Elements(), (x, y) => x - y)))
  }

  /** `a * other`: with a vector, the product of paired coordinates up to the
      shorter length (no length check); with a number, every coordinate
      scaled; anything else fails the type assertion. */
  function Mul(a: Vector, other: Operand): (r: Result<Vector>)
    ensures other.Vec? ==>
      r.Ok? && Len(r.value) == (if Len(a) <= Len(other.v) then Len(a) else Len(other.v)) &&
      forall j :: 0 <= j < Len(r.value) ==> r.value.coords[j] == a.coords[j] * other.v.coords[j]
    ensures other.Scalar? ==>
      r.Ok? && Len(r.value) == Len(a) &&
      forall j :: 0 <= j < Len(a) ==> r.value.coords[j] == a.coords[j] * other.k
    ensures other.List? || other.Other? ==> r == Err(CannotMultiply)
  {
    match other
    case Vec(b) => Ok(Vector(Pointwise.ZipWith(a.coords, b.coords, (x, y) => x * y)))
    case Scalar(k) => Ok(Vector(Pointwise.Map(a.coords, e => e * k)))
    case _ => Err(CannotMultiply)
  }

  /** `other * a`: delegates to `a * other`, so a number `k` gives
      coordinates `k * a[j]` and a vector `b` gives `b[j] * a[j]`. */
  function RMul(a: Vector, other: Operand): (r: Result<Vector>)
    ensures other.Vec? ==>
      r.Ok? && Len(r.value) == (if Len(a) <= Len(other.v) then Len(a) else Len(other.v)) &&
      forall j :: 0 <= j < Len(r.value) ==> r.value.coords[j] == other.v.coords[j] * a.coords[j]
    ensures other.Scalar? ==>
      r.Ok? && Len(r.value) == Len(a) &&
      forall j :: 0 <= j < Len(a) ==> r.value.coords[j] == other.k * a.coords[j]
    ensures other.List? || other.Other? ==> r == Err(CannotMultiply)
  {
    Mul(a, other)
  }

  /** `-v`: a new vector with every coordinate negated. */
  function Neg(v: Vector): (r: Vector)
    ensures Len(r) == Len(v)
    ensures forall j :: 0 <= j < Len(v) ==> r.coords[j] == -v.coords[j]
  {
    Vector(Pointwise.Map(v.coords, e => -e))
  }

  /** `a == other`: compares coordinate lists; an operand without one fails. */
  function Eq(a: Vector, other: Operand): (r: Result<bool>)
    ensures other.Vec? ==> r.Ok?
    ensures other.Vec? ==> (r.value <==>
      Len(a) == Len(other.v) && forall j :: 0 <= j < Len(a) ==> a.coords[j] == other.v.coords[j])
    ensures !other.Vec? ==> r == Err(NoCoordinates)
  {
    match other
    case Vec(b) => Ok(a.coords == b.coords)
    case _ => Err(NoCoordinates)
  }

  /** `a != other`: the negation of `==`, failing where `==` fails. */
  function Ne(a: Vector, other: Operand): (r: Result<bool>)
    ensures other.Vec? ==> r.Ok?
    ensures other.Vec? ==> (r.value <==>
      Len(a) != Len(other.v) || exists j :: 0 <= j < Len(a) && a.coords[j] != other.v.coords[j])
    ensures !other.Vec? ==> r == Err(NoCoordinates)
  {
    match Eq(a, other)
    case Ok(e) => Ok(!e)
    case Err(x) => Err(x)
  }

  /** The checks `<` and `<=` make before comparing: the length test, then the
      other operand's coordinate list. */
  function ComparisonOperand(a: Vector, other: Operand): (r: Result<seq<int>>)
    ensures !other.HasLength() ==> r == Err(NoLength)
    ensures other.HasLength() && |other.Elements()| != Len(a) ==> r == Err(DimensionsMustAgree)
    ensures other.List? && |other.items| == Len(a) ==> r == Err(NoCoordinates)
    ensures other.Vec? && Len(other.v) == Len(a) ==> r == Ok(other.v.coords)
  {
    if !other.HasLength() then Err(NoLength)
    else if Len(a) != |other.Elements()| then Err(DimensionsMustAgree)
    else if other.List? then Err(NoCoordinates)
    else Ok(other.v.coords)
  }

  /** `a < other`: lexicographic order on equal-length coordinate lists. */
  function Lt(a: Vector, other: Operand): (r: Result<bool>)
    ensures r.Err? <==> ComparisonOperand(a, other).Err?
    ensures r.Err? ==> r.error == ComparisonOperand(a, other).error
    ensures other.Vec? && Len(other.v) == Len(a) ==>
      r.Ok? && (r.value <==> Lexicographic.LexLess(a.coords, other.v.coords))
  {
    match ComparisonOperand(a, other)
    case Err(e) => Err(e)
    case Ok(b) =>
      Ok(Lexicographic.Less(a.coords, b))
  }

  /** `a <= other`: `<` or equal, on equal-length coordinate lists. */
  function Le(a: Vector, other: Operand): (r: Result<bool>)
    ensures r.Err? <==> ComparisonOperand(a, other).Err?
    ensures r.Err? ==> r.error == ComparisonOperand(a, other).error
    ensures other.Vec? && Len(other.v) == Len(a) ==>
      r.Ok? && (r.value <==> Lexicographic.LexLess(a.coords, other.v.coords) || a == other.v)
  {
    match ComparisonOperand(a, other)
    case Err(e) => Err(e)
    case Ok(b) =>
      Ok(Lexicographic.LessEq(a.coords, b))
  }

  /** `str(v)`: the coordinates between angle brackets, separated by ", ". */
  function Str(v: Vector): (s: string)
    ensures |s| >= 2 && s[0] == '<' && s[|s| - 1] == '>'
    ensures s[1..|s| - 1] == Rendering.Join(v.coords)
  {
    "<" + Rendering.Join(v.coords) + ">"
  }

  /** The text between the brackets reads back as the coordinates. */
  lemma StrParsesBack(v: Vector)
    ensures var s := Str(v); Rendering.ParseList(s[1..|s| - 1]) == Some(v.coords)
  {
    Rendering.ParseListJoin(v.coords);
  }
}
