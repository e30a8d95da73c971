/** Coordinate-by-coordinate combinators: the generator expressions the vector
    class feeds to its constructor (`e * other for e in self`,
    `a * b for a, b in zip(self, other)`, `-e for e in self`). */
module Pointwise {

  /** Python's `zip`: pairs coordinates up to the shorter of the two inputs. */
  function ZipWith(a: seq<int>, b: seq<int>, f: (int, int) -> int): (r: seq<int>)
    ensures |r| == if |a| <= |b| then |a| else |b|
    ensures forall j :: 0 <= j < |r| ==> r[j] == f(a[j], b[j])
  {
    if |a| == 0 || |b| == 0 then []
    else [f(a[0], b[0])] + ZipWith(a[1..], b[1..], f)
  }

  /** Applies `f` to every coordinate, in order. */
  function Map(s: seq<int>, f: int -> int): (r: seq<int>)
    ensures |r| == |s|
    ensures forall j :: 0 <= j < |r| ==> r[j] == f(s[j])
  {
    if |s| == 0 then []
    else [f(s[0])] + Map(s[1..], f)
  }
}
