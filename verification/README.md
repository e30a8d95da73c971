# Vector — a Dafny model

This project models the `Vector` class of `C02ObjectOrientedProgramming/Reinforcement/r14.py`.
The class is a fixed-length sequence of numeric coordinates. It supports:

- construction as a zero vector or as a copy of an iterable;
- indexed read and write with Python's negative indices;
- elementwise `+` and `-` with a strict length check;
- `*` by a vector (truncated to the shorter length by `zip`) or by a number;
- negation, `==` and `!=`;
- lexicographic `<` and `<=` with a length check;
- rendering as `<a, b, c>`.

Coordinates are integers. A vector is the value `Vector(coords: seq<int>)`. Every operator
method is a pure function. Each exception the class can raise is a `Results.Error` value
returned in `Err`.

Files:

- `results.dfy` (`Results`): the error kinds, `Result` and `Option`.
- `pointwise.dfy` (`Pointwise`): `ZipWith` (Python's `zip`) and `Map`, the generator
  expressions the class passes to its constructor.
- `lexicographic.dfy` (`Lexicographic`): Python's list `<` and `<=`, a reference definition of
  lexicographic order, and the order laws.
- `rendering.dfy` (`Rendering`): decimal rendering of ints, the `", "` join, and a parser
  proved to invert the join.
- `vector.dfy` (`Vectors`): the vector and its operations.
- `vector_laws.dfy` (`VectorLaws`): laws relating the operations, plus the usage example as
  concrete lemmas.

The other operand of a binary operator is an `Operand`: `Vec(v)` (another vector),
`List(items)` (a plain list of numbers), `Scalar(k)` (a number) or `Other` (a value with no
length that is not a number). The operators fail as the code does:

- `+`, `-`, `<` and `<=` call `len(other)`. An operand without a length fails with `NoLength`.
- `<`, `<=`, `==` and `!=` read `other._coords`. A plain list fails there with `NoCoordinates`.
- `*` asserts the operand is a number or a vector. Anything else fails with `CannotMultiply`.

Three behaviours of the code that are easy to miss:

- `Vector(d)` with a negative int `d` evaluates `[0] * d`, which is the empty vector. It is
  not an error.
- `*` with an unsupported operand fails its `assert`. That is not a dedicated type error.
- `==` and `!=` against something that is not a vector fail, because it has no coordinate
  list.

## Model

| member | source | states |
|---|---|---|
| Vectors.New | C02ObjectOrientedProgramming/Reinforcement/r14.py:28-35 | an int `d` gives `max(d, 0)` coordinates, which are zero when `d >= 0`; an iterable is copied element by element in order; a non-iterable fails with `InvalidParameterType`, and only it fails |
| Vectors.Zeros | C02ObjectOrientedProgramming/Reinforcement/r14.py:29-30 | `[0] * d` has `max(d, 0)` coordinates, all zero |
| VectorLaws.CopyIsEqual | C02ObjectOrientedProgramming/Reinforcement/r14.py:32-33 | a vector built from another vector's coordinates is equal to it, both as a value and under `==` |
| Vectors.Position | C02ObjectOrientedProgramming/Reinforcement/r14.py:41-47 | an index `j` is valid for length `n` exactly when `-n <= j < n`; it addresses `j` when non-negative and `n + j` otherwise; any other index is `IndexOutOfRange` |
| Vectors.GetItem | C02ObjectOrientedProgramming/Reinforcement/r14.py:41-43 | reading succeeds exactly for `-n <= j < n` and yields the addressed coordinate; otherwise `IndexOutOfRange` |
| Vectors.SetItem | C02ObjectOrientedProgramming/Reinforcement/r14.py:45-47 | a write succeeds exactly for `-n <= j < n`; it keeps the length, makes `v[j]` read back the written value, and leaves every other coordinate unchanged |
| VectorLaws.NegativeIndexSamePosition | C02ObjectOrientedProgramming/Reinforcement/r14.py:41-43 | for `0 <= j < n`, index `j - n` reads the same result as index `j` |
| VectorLaws.GetAfterSet | C02ObjectOrientedProgramming/Reinforcement/r14.py:45-47 | after a write at `j`, a read at any `i` gives the written value when `i` and `j` address the same position, and the old read result otherwise |
| Pointwise.ZipWith | C02ObjectOrientedProgramming/Reinforcement/r14.py:75 | `zip` pairs coordinates up to the shorter input: the result has the shorter length, and entry `j` combines entry `j` of each input |
| Pointwise.Map | C02ObjectOrientedProgramming/Reinforcement/r14.py:77 | the generator over `self` keeps the length, and entry `j` is the function applied to coordinate `j` |
| Vectors.Add | C02ObjectOrientedProgramming/Reinforcement/r14.py:49-56 | an operand without a length fails with `NoLength`; unequal lengths fail with `DimensionsMustAgree`; otherwise the result has length `n` and coordinate `j` is `a[j] + other[j]` |
| Vectors.RAdd | C02ObjectOrientedProgramming/Reinforcement/r14.py:58-60 | `other + a` fails exactly as `a + other` does; otherwise coordinate `j` is `other[j] + a[j]` |
| VectorLaws.AddCommutes | C02ObjectOrientedProgramming/Reinforcement/r14.py:49-56 | `a + b == b + a` for all vectors, including the error outcome |
| VectorLaws.RAddSwapsOperands | C02ObjectOrientedProgramming/Reinforcement/r14.py:58-60 | `list + v` equals the sum of the list, taken as a vector, and `v` |
| VectorLaws.AddZerosIsIdentity | C02ObjectOrientedProgramming/Reinforcement/r14.py:49-56 | adding the zero vector of the same dimension gives back the vector |
| Vectors.Sub | C02ObjectOrientedProgramming/Reinforcement/r14.py:62-69 | the same failures as `+`; otherwise the result has length `n` and coordinate `j` is `a[j] - other[j]` |
| VectorLaws.SubThenAdd | C02ObjectOrientedProgramming/Reinforcement/r14.py:49-69 | for equal dimensions `a - b` succeeds and `(a - b) + b == a` |
| Vectors.Mul | C02ObjectOrientedProgramming/Reinforcement/r14.py:71-77 | a vector operand gives the product of paired coordinates with length `min(|a|, |b|)` and no length check; a number `k` gives `a[j] * k` with the same length; a list or other value fails with `CannotMultiply` |
| Vectors.RMul | C02ObjectOrientedProgramming/Reinforcement/r14.py:79-81 | `k * a` has coordinates `k * a[j]`; a vector `b` gives `b[j] * a[j]` up to the shorter length; anything else fails with `CannotMultiply` |
| VectorLaws.ScalarMulCommutes | C02ObjectOrientedProgramming/Reinforcement/r14.py:79-81 | `k * v == v * k` for every number `k` |
| VectorLaws.MulVectorsCommutes | C02ObjectOrientedProgramming/Reinforcement/r14.py:74-75 | `a * b == b * a` for vectors, including when their lengths differ |
| VectorLaws.MulTruncatesWhereAddRejects | C02ObjectOrientedProgramming/Reinforcement/r14.py:49-77 | for different dimensions `+` and `-` fail with `DimensionsMustAgree`, while `*` succeeds with a result shorter than the longer operand |
| Vectors.Neg | C02ObjectOrientedProgramming/Reinforcement/r14.py:95-97 | `-v` has the same length and coordinate `j` is `-v[j]` |
| VectorLaws.NegInvolutive | C02ObjectOrientedProgramming/Reinforcement/r14.py:95-97 | `-(-v) == v` |
| VectorLaws.AddNegIsZero | C02ObjectOrientedProgramming/Reinforcement/r14.py:95-97 | `v + (-v)` is the zero vector of `v`'s dimension |
| Vectors.Eq | C02ObjectOrientedProgramming/Reinforcement/r14.py:83-85 | for a vector operand, `==` holds exactly when the lengths agree and every coordinate agrees; any other operand fails with `NoCoordinates` |
| VectorLaws.EqIsValueEquality | C02ObjectOrientedProgramming/Reinforcement/r14.py:83-85 | `==` on two vectors is equality of the vectors |
| Vectors.Ne | C02ObjectOrientedProgramming/Reinforcement/r14.py:87-89 | for a vector operand, `!=` holds exactly when the lengths differ or some coordinate differs; any other operand fails like `==` |
| VectorLaws.NeIsNotEq | C02ObjectOrientedProgramming/Reinforcement/r14.py:87-89 | `!=` fails exactly when `==` fails, and otherwise is its negation |
| Vectors.ComparisonOperand | C02ObjectOrientedProgramming/Reinforcement/r14.py:99-109 | the checks before comparing: no length gives `NoLength`, a length mismatch gives `DimensionsMustAgree`, a same-length list gives `NoCoordinates`, a same-length vector is compared |
| Vectors.Lt | C02ObjectOrientedProgramming/Reinforcement/r14.py:99-103 | fails exactly as those checks fail; on equal-length vectors it holds exactly when `a` is lexicographically smaller |
| Vectors.Le | C02ObjectOrientedProgramming/Reinforcement/r14.py:105-109 | fails exactly as those checks fail; on equal-length vectors it holds exactly when `a` is lexicographically smaller or equal |
| VectorLaws.LeIsLtOrEq | C02ObjectOrientedProgramming/Reinforcement/r14.py:99-109 | on equal dimensions `a <= b` holds exactly when `a < b` or `a == b` |
| VectorLaws.LtLeFailTogether | C02ObjectOrientedProgramming/Reinforcement/r14.py:99-109 | `<` and `<=` fail on the same operands with the same error |
| VectorLaws.LtIrreflexive | C02ObjectOrientedProgramming/Reinforcement/r14.py:99-103 | `v < v` is false |
| VectorLaws.LtTransitive | C02ObjectOrientedProgramming/Reinforcement/r14.py:99-103 | `a < b` and `b < c` give `a < c` |
| VectorLaws.LtTotal | C02ObjectOrientedProgramming/Reinforcement/r14.py:99-103 | two vectors of equal dimension satisfy `a < b`, `a == b` or `b < a` |
| Lexicographic.Less | C02ObjectOrientedProgramming/Reinforcement/r14.py:103 | list `<` holds exactly when `a` is lexicographically smaller: at the first position where the lists differ `a` has the smaller element, or `a` is a proper prefix of `b` |
| Lexicographic.LessEq | C02ObjectOrientedProgramming/Reinforcement/r14.py:109 | list `<=` holds exactly when `a` is lexicographically smaller or the lists are equal |
| Lexicographic.LexLessAfterHead | C02ObjectOrientedProgramming/Reinforcement/r14.py:103 | when the first elements agree, the order of the lists is the order of their remainders |
| Lexicographic.LessEqIsLessOrEqual | C02ObjectOrientedProgramming/Reinforcement/r14.py:109 | list `<=` holds exactly when list `<` holds or the lists are equal |
| Lexicographic.LessIrreflexive | C02ObjectOrientedProgramming/Reinforcement/r14.py:103 | no list is smaller than itself |
| Lexicographic.LessTransitive | C02ObjectOrientedProgramming/Reinforcement/r14.py:103 | list `<` is transitive |
| Lexicographic.LessTrichotomy | C02ObjectOrientedProgramming/Reinforcement/r14.py:103 | any two lists satisfy `<` one way, `<` the other way, or equality |
| Lexicographic.LessAsymmetric | C02ObjectOrientedProgramming/Reinforcement/r14.py:103 | list `<` never holds in both directions |
| Vectors.Str | C02ObjectOrientedProgramming/Reinforcement/r14.py:91-93 | the text starts with `<` and ends with `>`, and between them are the coordinates joined by `", "` |
| Rendering.NatToString | C02ObjectOrientedProgramming/Reinforcement/r14.py:93 | the decimal numeral of a natural number is a non-empty run of digits with no leading zero |
| Rendering.IntToString | C02ObjectOrientedProgramming/Reinforcement/r14.py:93 | the rendering of an int is non-empty and comma-free, starts with `-` exactly when the int is negative, and otherwise is a decimal numeral without leading zeros |
| Rendering.Join | C02ObjectOrientedProgramming/Reinforcement/r14.py:93 | the joined numerals are empty exactly when there are no coordinates |
| Rendering.JoinCommaCount | C02ObjectOrientedProgramming/Reinforcement/r14.py:93 | the joined text of `n > 0` coordinates holds exactly `n - 1` commas |
| Rendering.JoinCommaSpace | C02ObjectOrientedProgramming/Reinforcement/r14.py:93 | every comma in the joined text is followed by a space |
| Vectors.StrParsesBack | C02ObjectOrientedProgramming/Reinforcement/r14.py:91-93 | the text between the brackets parses back to exactly the coordinates |
| VectorLaws.StrInjective | C02ObjectOrientedProgramming/Reinforcement/r14.py:91-93 | different vectors render to different texts |
| Rendering.NatRoundTrip | C02ObjectOrientedProgramming/Reinforcement/r14.py:93 | the decimal digits of a natural number read back as that number |
| Rendering.IntRoundTrip | C02ObjectOrientedProgramming/Reinforcement/r14.py:93 | the rendering of an int, with a minus sign when negative, parses back to that int |
| Rendering.ParseListJoin | C02ObjectOrientedProgramming/Reinforcement/r14.py:93 | the `", "`-joined numerals parse back to the list of ints |
| Rendering.JoinInjective | C02ObjectOrientedProgramming/Reinforcement/r14.py:93 | different int lists join to different texts |
| VectorLaws.UsageWrites | C02ObjectOrientedProgramming/Reinforcement/r14.py:114-117 | `Vector(5)` is the zero vector of dimension 5; writing 23 at index 1 and 45 at index -1 of `Vector(5)` gives `<0, 23, 0, 0, 45>`, and index 4 then reads 45 |
| VectorLaws.UsageRenderWritten | C02ObjectOrientedProgramming/Reinforcement/r14.py:114-116 | that vector renders as `<0, 23, 0, 0, 45>` |
| VectorLaws.UsageSum | C02ObjectOrientedProgramming/Reinforcement/r14.py:118-119 | `v + v` is `<0, 46, 0, 0, 90>` and renders so |
| VectorLaws.UsageMulError | C02ObjectOrientedProgramming/Reinforcement/r14.py:123-145 | writing 69 at index 3 of the sum gives `<0, 46, 0, 69, 90>`, and multiplying that vector by a string fails with `CannotMultiply` |
| VectorLaws.IndexBoundsExamples | C02ObjectOrientedProgramming/Reinforcement/r14.py:41-47 | on a length-3 vector, indices 5 and -4 are out of range for reading and writing, and -3 reads the first coordinate |

## Left out

- Floating-point coordinates and scalars (`3.5 * u`): coordinates are `int`. Floating-point sums are not commutative or invertible exactly, so the laws would not hold.
- The usage script's printing. Its scenarios appear only as the `Usage…` lemmas.
- Mutation in place and aliasing: `__setitem__` is modelled as `SetItem`, which returns the updated vector. Every vector is a value, so a copy never shares state with its source.
- Python's iteration protocol: an iterable is modelled as its sequence of ints. Iterables of non-numbers, and strings as operands of `+`, `-`, `<` and `<=`, are not modelled. `Other` stands for a value with no length that is not a number; `*` also treats a string as `Other`, because its assertion rejects the string before its length matters.
- `bool` counting as `int`, and index types other than `int` (slices, floats): not modelled.
- `>` and `>=`: the class does not define them. Python's fallback to the reflected `<` / `<=` is outside the class and not modelled.
- Exception classes and messages: each raised exception is one `Error` constructor. The message text is not modelled.
- `Vectors.Len` (`__len__`) carries no contract of its own. It is the length of the coordinate list and appears in the other contracts.
- Python's operator dispatch, which chooses `__radd__` / `__rmul__` when the left operand does not handle the operator: `RAdd` and `RMul` model those methods once they are called.
- `Vectors.Mul`: models `*` with assertions enabled. Under `python -O` the assertion is removed, so `v * [1, 2]` builds a vector of lists, and `v * None` raises `TypeError('invalid parameter type')` from the constructor's `try`, or succeeds when `v` is empty. None of this is modelled, because those values are not integer vectors.
- `Vectors.Str`: renders ints of any size. CPython 3.11 and later refuse `str()` of an int with more than 4300 digits and raise `ValueError`. This interpreter limit is not modelled.
- `Rendering.Join`: its own contract states only that the text is empty exactly for no coordinates. The separator structure is stated by the lemmas `JoinCommaCount` and `JoinCommaSpace`, and the numerals in order by `ParseListJoin`. Putting those clauses in the contract makes every concrete rendering too costly to verify.
