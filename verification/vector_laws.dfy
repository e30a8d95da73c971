/** Laws the vector operations obey, relating operations to each other:
    inverses, identities, commutativity, and the order properties of `<`. */
module VectorLaws {
  import opened Results
  import opened Vectors
  import Lexicographic
  import Rendering

  /** Building a vector from another vector's coordinates gives an equal vector. */
  lemma CopyIsEqual(v: Vector)
    ensures New(Items(v.coords)) == Ok(v)
    ensures Eq(New(Items(v.coords)).value, Vec(v)) == Ok(true)
  {
  }

  /** A negative index `j - n` reads the same coordinate as `j`. */
  lemma NegativeIndexSamePosition(v: Vector, j: int)
    requires 0 <= j < Len(v)
    ensures GetItem(v, j - Len(v)) == GetItem(v, j)
  {
  }

  /** After `v[j] = x`, reading any index gives `x` at the written position and
      the old coordinate everywhere else. */
  lemma GetAfterSet(v: Vector, j: int, x: int, i: int)
    requires SetItem(v, j, x).Ok?
    ensures GetItem(SetItem(v, j, x).value, i) ==
      if Position(Len(v), i) == Position(Len(v), j) then Ok(x) else GetItem(v, i)
  {
  }

  /** `a + b == b + a`. */
  lemma AddCommutes(a: Vector, b: Vector)
    ensures Add(a, Vec(b)) == Add(b, Vec(a))
  {
    if Len(a) == Len(b) {
      assert Add(a, Vec(b)).value.coords == Add(b, Vec(a)).value.coords;
    }
  }

  /** `s + v` for a plain list `s` is the sum of `s`, taken as a vector, and `v`. */
  lemma RAddSwapsOperands(v: Vector, s: seq<int>)
    ensures RAdd(v, List(s)) == Add(Vector(s), Vec(v))
  {
    if |s| == Len(v) {
      assert RAdd(v, List(s)).value.coords == Add(Vector(s), Vec(v)).value.coords;
    }
  }

  /** `(a - b) + b == a`. */
  lemma SubThenAdd(a: Vector, b: Vector)
    requires Len(a) == Len(b)
    ensures Sub(a, Vec(b)).Ok?
    ensures Add(Sub(a, Vec(b)).value, Vec(b)) == Ok(a)
  {
    var d := Sub(a, Vec(b)).value;
    assert Add(d, Vec(b)).value.coords == a.coords;
  }

  /** `-(-v) == v`. */
  lemma NegInvolutive(v: Vector)
    ensures Neg(Neg(v)) == v
  {
  }

  /** `v + (-v)` is the zero vector of the same dimension. */
  lemma AddNegIsZero(v: Vector)
    ensures Add(v, Vec(Neg(v))) == Ok(Zeros(Len(v)))
  {
    assert Add(v, Vec(Neg(v))).value.coords == Zeros(Len(v)).coords;
  }

  /** The zero vector is the identity for `+`. */
  lemma AddZerosIsIdentity(v: Vector)
    ensures Add(v, Vec(Zeros(Len(v)))) == Ok(v)
  {
    assert Add(v, Vec(Zeros(Len(v)))).value.coords == v.coords;
  }

  /** `k * v == v * k` for a number `k`. */
  lemma ScalarMulCommutes(v: Vector, k: int)
    ensures RMul(v, Scalar(k)) == Mul(v, Scalar(k))
  {
  }

  /** The elementwise product does not depend on the order of the operands. */
  lemma MulVectorsCommutes(a: Vector, b: Vector)
    ensures Mul(a, Vec(b)) == Mul(b, Vec(a))
  {
    assert Mul(a, Vec(b)).value.coords == Mul(b, Vec(a)).value.coords;
  }

  /** Vectors of different dimensions: `+` and `-` reject them, `*` truncates
      to the shorter one. */
  lemma MulTruncatesWhereAddRejects(a: Vector, b: Vector)
    requires Len(a) != Len(b)
    ensures Add(a, Vec(b)) == Err(DimensionsMustAgree)
    ensures Sub(a, Vec(b)) == Err(DimensionsMustAgree)
    ensures Mul(a, Vec(b)).Ok?
    ensures Len(Mul(a, Vec(b)).value) < if Len(a) < Len(b) then Len(b) else Len(a)
  {
  }

  /** `==` on vectors is equality of the values. */
  lemma EqIsValueEquality(a: Vector, b: Vector)
    ensures Eq(a, Vec(b)) == Ok(a == b)
  {
  }

  /** `!=` fails exactly where `==` fails and otherwise gives the opposite answer. */
  lemma NeIsNotEq(a: Vector, other: Operand)
    ensures Ne(a, other).Ok? <==> Eq(a, other).Ok?
    ensures Ne(a, other).Ok? ==> Ne(a, other).value == !Eq(a, other).value
  {
  }

  /** On vectors of equal dimension, `a <= b` is `a < b or a == b`. */
  lemma LeIsLtOrEq(a: Vector, b: Vector)
    requires Len(a) == Len(b)
    ensures Lt(a, Vec(b)).Ok? && Le(a, Vec(b)).Ok?
    ensures Le(a, Vec(b)).value <==> Lt(a, Vec(b)).value || a == b
  {
  }

  /** `<` and `<=` raise the same error on the same operands. */
  lemma LtLeFailTogether(a: Vector, other: Operand)
    ensures Lt(a, other).Err? <==> Le(a, other).Err?
    ensures Lt(a, other).Err? ==> Lt(a, other).error == Le(a, other).error
  {
  }

  /** No vector is smaller than itself. */
  lemma LtIrreflexive(a: Vector)
    ensures Lt(a, Vec(a)) == Ok(false)
  {
  }

  /** `<` is transitive. */
  lemma LtTransitive(a: Vector, b: Vector, c: Vector)
    requires Lt(a, Vec(b)) == Ok(true) && Lt(b, Vec(c)) == Ok(true)
    ensures Lt(a, Vec(c)) == Ok(true)
  {
    Lexicographic.LessTransitive(a.coords, b.coords, c.coords);
  }

  /** Two vectors of equal dimension are ordered one way, the other, or equal. */
  lemma LtTotal(a: Vector, b: Vector)
    requires Len(a) == Len(b)
    ensures Lt(a, Vec(b)) == Ok(true) || a == b || Lt(b, Vec(a)) == Ok(true)
  {
    Lexicographic.LessTrichotomy(a.coords, b.coords);
  }

  /** Different vectors render differently. */
  lemma StrInjective(a: Vector, b: Vector)
    requires Str(a) == Str(b)
    ensures a == b
  {
    StrParsesBack(a);
    StrParsesBack(b);
  }

  /** The usage example, first part: `Vector(5)`, then writes through a
      positive and a negative index, then a read. */
  lemma UsageWrites()
    ensures New(Dim(5)) == Ok(Zeros(5))
    ensures SetItem(New(Dim(5)).value, 1, 23).Ok?
    ensures SetItem(SetItem(New(Dim(5)).value, 1, 23).value, -1, 45) == Ok(Vector([0, 23, 0, 0, 45]))
    ensures GetItem(Vector([0, 23, 0, 0, 45]), 4) == Ok(45)
  {
    var w := SetItem(SetItem(New(Dim(5)).value, 1, 23).value, -1, 45).value;
    assert w.coords == [0, 23, 0, 0, 45];
  }

  /** The numerals of the usage example's coordinates. */
  lemma NumeralsWritten()
    ensures Rendering.IntToString(0) == "0"
    ensures Rendering.IntToString(23) == "23"
    ensures Rendering.IntToString(45) == "45"
    ensures Rendering.IntToString(46) == "46"
    ensures Rendering.IntToString(90) == "90"
  {
    assert Rendering.NatToString(23) == Rendering.NatToString(2) + [Rendering.DigitChar(3)];
    assert Rendering.NatToString(45) == Rendering.NatToString(4) + [Rendering.DigitChar(5)];
    assert Rendering.NatToString(46) == Rendering.NatToString(4) + [Rendering.DigitChar(6)];
    assert Rendering.NatToString(90) == Rendering.NatToString(9) + [Rendering.DigitChar(0)];
  }

  /** The coordinates of the usage example's vector, joined. */
  lemma JoinWritten()
    ensures Rendering.Join([0, 23, 0, 0, 45]) == "0, 23, 0, 0, 45"
  {
    NumeralsWritten();
    assert Rendering.Join([45]) == "45";
    assert Rendering.Join([0, 45]) == "0, 45";
    assert Rendering.Join([0, 0, 45]) == "0, 0, 45";
    assert Rendering.Join([23, 0, 0, 45]) == "23, 0, 0, 45";
  }

  /** The coordinates of the usage example's sum, joined. */
  lemma JoinDoubled()
    ensures Rendering.Join([0, 46, 0, 0, 90]) == "0, 46, 0, 0, 90"
  {
    NumeralsWritten();
    assert Rendering.Join([90]) == "90";
    assert Rendering.Join([0, 90]) == "0, 90";
    assert Rendering.Join([0, 0, 90]) == "0, 0, 90";
    assert Rendering.Join([46, 0, 0, 90]) == "46, 0, 0, 90";
  }

  /** The usage example: the vector after the writes renders as `<0, 23, 0, 0, 45>`. */
  lemma UsageRenderWritten()
    ensures Str(Vector([0, 23, 0, 0, 45])) == "<0, 23, 0, 0, 45>"
  {
    JoinWritten();
    assert Str(Vector([0, 23, 0, 0, 45])) == "<" + Rendering.Join([0, 23, 0, 0, 45]) + ">";
  }

  /** The usage example: `v + v` doubles every coordinate and renders as
      `<0, 46, 0, 0, 90>`. */
  lemma UsageSum()
    ensures Add(Vector([0, 23, 0, 0, 45]), Vec(Vector([0, 23, 0, 0, 45]))) == Ok(Vector([0, 46, 0, 0, 90]))
    ensures Str(Vector([0, 46, 0, 0, 90])) == "<0, 46, 0, 0, 90>"
  {
    var v := Vector([0, 23, 0, 0, 45]);
    assert Add(v, Vec(v)).value.coords == [0, 46, 0, 0, 90];
    JoinDoubled();
    assert Str(Vector([0, 46, 0, 0, 90])) == "<" + Rendering.Join([0, 46, 0, 0, 90]) + ">";
  }

  /** The usage example's failure: after `u[3] = 69`, a product of `u` with
      a string. */
  lemma UsageMulError()
    ensures SetItem(Vector([0, 46, 0, 0, 90]), 3, 69) == Ok(Vector([0, 46, 0, 69, 90]))
    ensures RMul(Vector([0, 46, 0, 69, 90]), Other) == Err(CannotMultiply)
  {
    assert SetItem(Vector([0, 46, 0, 0, 90]), 3, 69).value.coords == [0, 46, 0, 69, 90];
  }

  /** Indices just outside a vector of length 3, on either side, are rejected
      for reading and writing. */
  lemma IndexBoundsExamples()
    ensures GetItem(Vector([1, 2, 3]), 5) == Err(IndexOutOfRange)
    ensures GetItem(Vector([1, 2, 3]), -4) == Err(IndexOutOfRange)
    ensures SetItem(Vector([1, 2, 3]), -4, 0) == Err(IndexOutOfRange)
    ensures SetItem(Vector([1, 2, 3]), 5, 0) == Err(IndexOutOfRange)
    ensures GetItem(Vector([1, 2, 3]), -3) == Ok(1)
  {
  }
}
