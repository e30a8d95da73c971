/** Text form of a coordinate list: Python's `str` of a list of ints with the
    square brackets dropped, that is the decimal numerals joined by ", ".
    `ParseList` reads such text back and is proved to invert `Join`. */
module Rendering {
  import opened Results

  predicate IsDigit(c: char)
  {
    '0' <= c <= '9'
  }

  /** A non-empty run of decimal digits. */
  predicate IsNumeral(s: string)
  {
    |s| > 0 && forall k :: 0 <= k < |s| ==> IsDigit(s[k])
  }

  function DigitChar(d: nat): (c: char)
    requires d < 10
    ensures IsDigit(c)
  {
    (48 + d) as char
  }

  function DigitValue(c: char): (d: nat)
    requires IsDigit(c)
    ensures d < 10
  {
    c as int - 48
  }

  /** Decimal numeral of a natural number, most significant digit first. */
  function NatToString(n: nat): (s: string)
    ensures IsNumeral(s)
    ensures |s| > 1 ==> s[0] != '0'
  {
    if n < 10 then [DigitChar(n)]
    else NatToString(n / 10) + [DigitChar(n % 10)]
  }

  /** Value of a string of decimal digits. */
  function DigitsValue(s: string): nat
    requires forall k :: 0 <= k < |s| ==> IsDigit(s[k])
  {
    if |s| == 0 then 0
    else DigitsValue(s[..|s| - 1]) * 10 + DigitValue(s[|s| - 1])
  }

  /** Python's `repr` of an int: a minus sign for negative numbers, then the
      decimal numeral without leading zeros. */
  function IntToString(i: int): (s: string)
    ensures |s| > 0
    ensures forall k :: 0 <= k < |s| ==> s[k] != ','
    ensures (s[0] == '-') <==> i < 0
    ensures var digits := if i < 0 then s[1..] else s;
      IsNumeral(digits) && (|digits| > 1 ==> digits[0] != '0')
  {
    if i < 0 then "-" + NatToString(-i) else NatToString(i)
  }

  /** Reads an optionally signed decimal numeral; anything else is `None`. */
  function ParseInt(s: string): Option<int>
  {
    if |s| > 0 && s[0] == '-' then
      if IsNumeral(s[1..]) then Some(-(DigitsValue(s[1..]) as int)) else None
    else if IsNumeral(s) then Some(DigitsValue(s))
    else None
  }

  /** Reading back a numeral gives the number it was written from. */
  lemma {:induction false} NatRoundTrip(n: nat)
    ensures DigitsValue(NatToString(n)) == n
  {
    var s := NatToString(n);
    if n < 10 {
      assert s[..|s| - 1] == [];
    } else {
      assert s[..|s| - 1] == NatToString(n / 10);
      NatRoundTrip(n / 10);
    }
  }

  /** Reading back a rendered int gives the int. */
  lemma IntRoundTrip(i: int)
    ensures ParseInt(IntToString(i)) == Some(i)
  {
    var s := IntToString(i);
    if i < 0 {
      assert s[1..] == NatToString(-i);
      NatRoundTrip(-i);
    } else {
      assert !IsDigit('-');
      NatRoundTrip(i);
    }
  }

  /** The coordinates rendered in order and separated by ", "; empty exactly
      for no coordinates. */
  function Join(xs: seq<int>): (s: string)
    ensures s == "" <==> |xs| == 0
  {
    if |xs| == 0 then ""
    else if |xs| == 1 then IntToString(xs[0])
    else IntToString(xs[0]) + ", " + Join(xs[1..])
  }

  /** The joined text has one comma fewer than there are coordinates. */
  lemma {:induction false} JoinCommaCount(xs: seq<int>)
    requires |xs| > 0
    ensures multiset(Join(xs))[','] == |xs| - 1
  {
    var a := IntToString(xs[0]);
    assert ',' !in multiset(a);
    if |xs| > 1 {
      JoinCommaCount(xs[1..]);
      var rest := Join(xs[1..]);
      assert Join(xs) == a + ", " + rest;
      assert multiset(a + ", " + rest) == multiset(a) + multiset(", ") + multiset(rest);
      assert multiset(", ")[','] == 1;
    }
  }

  /** Every comma in the joined text is followed by a space. */
  lemma {:induction false} JoinCommaSpace(xs: seq<int>)
    ensures forall k :: 0 <= k < |Join(xs)| && Join(xs)[k] == ',' ==>
      k + 1 < |Join(xs)| && Join(xs)[k + 1] == ' '
  {
    if |xs| > 1 {
      var a := IntToString(xs[0]);
      var rest := Join(xs[1..]);
      JoinCommaSpace(xs[1..]);
      var s := a + ", " + rest;
      assert Join(xs) == s;
      forall k | 0 <= k < |s| && s[k] == ','
        ensures k + 1 < |s| && s[k + 1] == ' '
      {
        if k > |a| + 1 {
          assert s[k] == rest[k - |a| - 2];
          assert s[k + 1] == rest[k + 1 - |a| - 2];
        }
      }
    }
  }

  /** Position of the first comma in `s`, or `|s|` when there is none. */
  function CommaIndex(s: string): (i: nat)
    ensures i <= |s|
    ensures i < |s| ==> s[i] == ','
    ensures forall k :: 0 <= k < i ==> s[k] != ','
  {
    if |s| == 0 then 0
    else if s[0] == ',' then 0
    else 1 + CommaIndex(s[1..])
  }

  /** Reads a non-empty ", "-separated list of ints. */
  function ParseItems(s: string): Option<seq<int>>
    decreases |s|
  {
    var i := CommaIndex(s);
    match ParseInt(s[..i])
    case None => None
    case Some(x) =>
      if i == |s| then Some([x])
      else if i + 1 < |s| && s[i + 1] == ' ' then
        match ParseItems(s[i + 2..])
        case None => None
        case Some(rest) => Some([x] + rest)
      else None
  }

  /** Reads what `Join` writes: the empty text is the empty list. */
  function ParseList(s: string): Option<seq<int>>
  {
    if |s| == 0 then Some([]) else ParseItems(s)
  }

  /** A comma that follows comma-free text is the first comma. */
  lemma {:induction false} CommaAfterPrefix(a: string, t: string)
    requires forall k :: 0 <= k < |a| ==> a[k] != ','
    requires |t| == 0 || t[0] == ','
    ensures CommaIndex(a + t) == |a|
  {
    if |a| == 0 {
      assert a + t == t;
    } else {
      CommaAfterPrefix(a[1..], t);
      assert (a + t)[1..] == a[1..] + t;
    }
  }

  /** One numeral with no separator after it reads as a one-element list. */
  lemma ParseItemsLast(a: string, x: int)
    requires forall k :: 0 <= k < |a| ==> a[k] != ','
    requires ParseInt(a) == Some(x)
    ensures ParseItems(a) == Some([x])
  {
    CommaAfterPrefix(a, "");
    assert a + "" == a;
    assert a[..|a|] == a;
  }

  /** A numeral followed by ", " reads as that number in front of the rest. */
  lemma ParseItemsCons(a: string, x: int, u: string)
    requires forall k :: 0 <= k < |a| ==> a[k] != ','
    requires ParseInt(a) == Some(x)
    requires ParseItems(u).Some?
    ensures ParseItems(a + ", " + u) == Some([x] + ParseItems(u).value)
  {
    var t := ", " + u;
    var s := a + t;
    assert a + ", " + u == s;
    CommaAfterPrefix(a, t);
    assert s[..|a|] == a;
    assert s[|a| + 1] == ' ';
    assert s[|a| + 2..] == u;
  }

  lemma {:induction false} ParseItemsJoin(xs: seq<int>)
    requires |xs| > 0
    ensures ParseItems(Join(xs)) == Some(xs)
  {
    var a := IntToString(xs[0]);
    IntRoundTrip(xs[0]);
    if |xs| == 1 {
      ParseItemsLast(a, xs[0]);
      assert [xs[0]] == xs;
    } else {
      ParseItemsJoin(xs[1..]);
      ParseItemsCons(a, xs[0], Join(xs[1..]));
      assert [xs[0]] + xs[1..] == xs;
    }
  }

  /** Parsing the joined text recovers the coordinates. */
  lemma ParseListJoin(xs: seq<int>)
    ensures ParseList(Join(xs)) == Some(xs)
  {
    if |xs| > 0 {
      ParseItemsJoin(xs);
    }
  }

  /** Distinct coordinate lists render to distinct texts. */
  lemma JoinInjective(xs: seq<int>, ys: seq<int>)
    requires Join(xs) == Join(ys)
    ensures xs == ys
  {
    ParseListJoin(xs);
    ParseListJoin(ys);
  }
}
