/** Ordering of coordinate lists as Python compares two lists with `<` and `<=`:
    the first position where the lists differ decides; when one list is a
    prefix of the other, the shorter one is smaller. */
module Lexicographic {

  /** Reference definition of lexicographic order: a common prefix followed by a
      smaller element, or `a` a proper prefix of `b`. */
  ghost predicate LexLess(a: seq<int>, b: seq<int>)
  {
    || (exists k :: 0 <= k < |a| && k < |b| && a[..k] == b[..k] && a[k] < b[k])
    || (|a| < |b| && a == b[..|a|])
  }

  /** List `<`: walk both lists while the elements agree. The walk decides
      exactly the reference order. */
  function Less(a: seq<int>, b: seq<int>): (r: bool)
    ensures r <==> LexLess(a, b)
  {
    if |a| == 0 || |b| == 0 then
      LexLessWhenEmpty(a, b);
      |a| < |b|
    else if a[0] != b[0] then
      LexLessAtHead(a, b);
      a[0] < b[0]
    else
      LexLessAfterHead(a, b);
      Less(a[1..], b[1..])
  }

  /** List `<=`: the same walk, with the length test relaxed at the end. It
      holds exactly when `a` is smaller in the reference order or equal. */
  function LessEq(a: seq<int>, b: seq<int>): (r: bool)
    ensures r <==> LexLess(a, b) || a == b
  {
    if |a| == 0 || |b| == 0 then
      LexLessWhenEmpty(a, b);
      |a| <= |b|
    else if a[0] != b[0] then
      LexLessAtHead(a, b);
      a[0] < b[0]
    else
      LexLessAfterHead(a, b);
      assert a == [a[0]] + a[1..];
      assert b == [b[0]] + b[1..];
      LessEq(a[1..], b[1..])
  }

  /** With an empty list only the prefix case applies. */
  lemma LexLessWhenEmpty(a: seq<int>, b: seq<int>)
    requires |a| == 0 || |b| == 0
    ensures LexLess(a, b) <==> |a| < |b|
  {
    if |a| < |b| {
      assert a == b[..|a|];
    }
  }

  /** When the first elements differ, they decide. */
  lemma LexLessAtHead(a: seq<int>, b: seq<int>)
    requires |a| > 0 && |b| > 0 && a[0] != b[0]
    ensures LexLess(a, b) <==> a[0] < b[0]
  {
    if a[0] < b[0] {
      assert a[..0] == b[..0];
    }
    forall k | 0 < k <= |a| && k <= |b|
      ensures a[..k] != b[..k]
    {
      assert a[..k][0] == a[0];
      assert b[..k][0] == b[0];
    }
    assert a[..|a|] == a;
  }

  /** When the first elements agree, the rest of the lists decide. */
  lemma LexLessAfterHead(a: seq<int>, b: seq<int>)
    requires |a| > 0 && |b| > 0 && a[0] == b[0]
    ensures LexLess(a, b) <==> LexLess(a[1..], b[1..])
  {
    var a', b' := a[1..], b[1..];
    if LexLess(a', b') {
      if exists k :: 0 <= k < |a'| && k < |b'| && a'[..k] == b'[..k] && a'[k] < b'[k] {
        var k :| 0 <= k < |a'| && k < |b'| && a'[..k] == b'[..k] && a'[k] < b'[k];
        assert a[..k + 1] == [a[0]] + a'[..k];
        assert b[..k + 1] == [b[0]] + b'[..k];
        assert a[k + 1] == a'[k];
      } else {
        assert a == [a[0]] + a';
        assert b[..|a|] == [b[0]] + b'[..|a'|];
      }
    }
    if LexLess(a, b) {
      if exists k :: 0 <= k < |a| && k < |b| && a[..k] == b[..k] && a[k] < b[k] {
        var k :| 0 <= k < |a| && k < |b| && a[..k] == b[..k] && a[k] < b[k];
        assert k != 0;
        assert a'[..k - 1] == a[..k][1..];
        assert b'[..k - 1] == b[..k][1..];
        assert a'[k - 1] == a[k];
      } else {
        assert a' == b[..|a|][1..];
        assert b'[..|a'|] == b[..|a|][1..];
      }
    }
  }

  /** `<=` is `<` or equality. */
  lemma LessEqIsLessOrEqual(a: seq<int>, b: seq<int>)
    ensures LessEq(a, b) <==> Less(a, b) || a == b
  {
  }

  /** No list is smaller than itself. */
  lemma {:induction false} LessIrreflexive(a: seq<int>)
    ensures !Less(a, a)
  {
    if |a| > 0 {
      LessIrreflexive(a[1..]);
    }
  }

  /** `<` is transitive. */
  lemma {:induction false} LessTransitive(a: seq<int>, b: seq<int>, c: seq<int>)
    requires Less(a, b) && Less(b, c)
    ensures Less(a, c)
  {
    if |a| > 0 && |b| > 0 && |c| > 0 && a[0] == b[0] && b[0] == c[0] {
      LessTransitive(a[1..], b[1..], c[1..]);
    }
  }

  /** Any two lists are related one way, the other way, or equal. */
  lemma {:induction false} LessTrichotomy(a: seq<int>, b: seq<int>)
    ensures Less(a, b) || a == b || Less(b, a)
  {
    if |a| > 0 && |b| > 0 && a[0] == b[0] {
      LessTrichotomy(a[1..], b[1..]);
      if a[1..] == b[1..] {
        assert a == [a[0]] + a[1..];
        assert b == [b[0]] + b[1..];
      }
    }
  }

  /** `<` never holds in both directions. */
  lemma LessAsymmetric(a: seq<int>, b: seq<int>)
    ensures !(Less(a, b) && Less(b, a))
  {
  }
}
