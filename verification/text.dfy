/** String helpers with the meaning Python gives them: `str.lower` restricted
    to ASCII and Latin-1, the `in` substring test, `str(int)`, `str.join` and
    `str.split`. Strings are sequences of Unicode scalar values; unlike a
    Python `str`, they cannot hold a lone surrogate code point. */
module Text {

  /** An upper-case letter of ASCII or of the Latin-1 supplement
      (U+00C0..U+00DE, except the multiplication sign U+00D7). */
  predicate IsUpperChar(c: char) {
    ('A' <= c <= 'Z') || ('À' <= c <= 'Þ' && c != '×')
  }

  /** Python's `str.lower` on one character of ASCII or Latin-1; every other
      character is left as it is. */
  function LowerChar(c: char): (d: char)
    ensures !IsUpperChar(d)
    ensures d == c <==> !IsUpperChar(c)
  {
    if IsUpperChar(c) then (c as int + 32) as char else c
  }

  predicate IsLowerCase(s: string) {
    forall i :: 0 <= i < |s| ==> !IsUpperChar(s[i])
  }

  /** Python's `str.lower` on a whole string, character by character. */
  function Lower(s: string): (r: string)
    ensures |r| == |s|
    ensures forall i :: 0 <= i < |s| ==> r[i] == LowerChar(s[i])
    ensures IsLowerCase(r)
  {
    seq(|s|, i requires 0 <= i < |s| => LowerChar(s[i]))
  }

  /** Lowering leaves lower-case text alone, so it is idempotent. */
  lemma LowerOfLowerCase(s: string)
    requires IsLowerCase(s)
    ensures Lower(s) == s
  {
  }

  lemma LowerIdempotent(s: string)
    ensures Lower(Lower(s)) == Lower(s)
  {
    LowerOfLowerCase(Lower(s));
  }

  /** Lowering commutes with taking a slice. */
  lemma LowerSlice(s: string, i: nat, j: nat)
    requires i <= j <= |s|
    ensures Lower(s)[i..j] == Lower(s[i..j])
  {
  }

  predicate IsPrefix(p: string, s: string) {
    |p| <= |s| && s[..|p|] == p
  }

  /** Python's `t in s` for strings: `t` occurs somewhere in `s` as a
      contiguous run (the empty string occurs everywhere). */
  predicate Contains(s: string, t: string)
    ensures |t| == 0 ==> Contains(s, t)
    decreases |s|
  {
    IsPrefix(t, s) || (|s| > 0 && Contains(s[1..], t))
  }

  /** `t` occurs in `s` starting at position `i`. */
  ghost predicate OccursAt(s: string, t: string, i: int) {
    0 <= i && i + |t| <= |s| && s[i..i + |t|] == t
  }

  /** The scanning definition of `Contains` agrees with the positional one:
      `t` is in `s` exactly when it occurs at some position of `s`. */
  lemma {:induction false} ContainsIffOccurs(s: string, t: string)
    ensures Contains(s, t) <==> exists i :: OccursAt(s, t, i)
    decreases |s|
  {
    if IsPrefix(t, s) {
      assert OccursAt(s, t, 0);
    } else if |s| == 0 {
    } else {
      ContainsIffOccurs(s[1..], t);
      if Contains(s[1..], t) {
        var i :| OccursAt(s[1..], t, i);
        assert s[1..][i..i + |t|] == s[i + 1..i + 1 + |t|];
        assert OccursAt(s, t, i + 1);
      }
      forall i | OccursAt(s, t, i)
        ensures Contains(s[1..], t)
      {
        assert i != 0;
        assert s[1..][i - 1..i - 1 + |t|] == s[i..i + |t|];
        assert OccursAt(s[1..], t, i - 1);
      }
    }
  }

  /** A string is found in a text only if it fits in it. */
  lemma {:induction false} ContainsFits(s: string, t: string)
    requires Contains(s, t)
    ensures |t| <= |s|
    decreases |s|
  {
    if !IsPrefix(t, s) {
      ContainsFits(s[1..], t);
    }
  }

  /** Containment is transitive. */
  lemma ContainsTransitive(s: string, t: string, u: string)
    requires Contains(s, t) && Contains(t, u)
    ensures Contains(s, u)
  {
    ContainsIffOccurs(s, t);
    ContainsIffOccurs(t, u);
    var i :| OccursAt(s, t, i);
    var j :| OccursAt(t, u, j);
    forall k | 0 <= k < |u|
      ensures s[i + j + k] == u[k]
    {
      assert s[i..i + |t|][j + k] == t[j + k];
      assert t[j..j + |u|][k] == u[k];
    }
    assert s[i + j..i + j + |u|] == u;
    assert OccursAt(s, u, i + j);
    ContainsIffOccurs(s, u);
  }

  /** A string contains whatever is written in its middle. */
  lemma ContainsInfix(p: string, t: string, q: string)
    ensures Contains(p + t + q, t)
  {
    var s := p + t + q;
    assert s[|p|..|p| + |t|] == t;
    assert OccursAt(s, t, |p|);
    ContainsIffOccurs(s, t);
  }

  /** A string contains its prefixes and whatever they contain. */
  lemma PrefixContains(p: string, s: string, t: string)
    requires IsPrefix(p, s) && Contains(p, t)
    ensures Contains(s, t)
  {
    assert s == [] + p + s[|p|..];
    ContainsInfix([], p, s[|p|..]);
    ContainsTransitive(s, p, t);
  }

  /** Two strings that agree outside a middle part agree on it. */
  lemma MiddleDetermined(p: string, a: string, b: string, q: string)
    requires p + a + q == p + b + q
    ensures a == b
  {
    var s := p + a + q;
    assert a == s[|p|..|s| - |q|];
    assert b == (p + b + q)[|p|..|s| - |q|];
  }

  /** Lower-case text is found in a string whenever it is found, in any
      capitalisation, before lowering. */
  lemma ContainsLower(s: string, t: string)
    requires Contains(s, t)
    ensures Contains(Lower(s), Lower(t))
  {
    ContainsIffOccurs(s, t);
    var i :| OccursAt(s, t, i);
    LowerSlice(s, i, i + |t|);
    assert OccursAt(Lower(s), Lower(t), i);
    ContainsIffOccurs(Lower(s), Lower(t));
  }

  // ---------------------------------------------------------------------
  // Decimal rendering of natural numbers, as Python's f"{n}" for n >= 0.

  predicate IsDigit(c: char) {
    '0' <= c <= '9'
  }

  function DigitChar(d: nat): (c: char)
    requires d < 10
    ensures IsDigit(c)
  {
    ('0' as int + d) as char
  }

  /** Decimal digits of `n`, most significant first, with no leading zero. */
  function ShowNat(n: nat): (r: string)
    ensures 1 <= |r|
    ensures forall i :: 0 <= i < |r| ==> IsDigit(r[i])
    ensures |r| > 1 ==> r[0] != '0'
    ensures n == 0 <==> r == "0"
  {
    if n < 10 then [DigitChar(n)] else ShowNat(n / 10) + [DigitChar(n % 10)]
  }

  /** The value of a string of decimal digits. */
  function DigitsValue(s: string): nat
    requires forall i :: 0 <= i < |s| ==> IsDigit(s[i])
  {
    if |s| == 0 then 0
    else
      assert IsDigit(s[|s| - 1]);
      10 * DigitsValue(s[..|s| - 1]) + (s[|s| - 1] as int - '0' as int)
  }

  lemma ShowNat429()
    ensures ShowNat(429) == "429"
  {
    assert ShowNat(4) == [DigitChar(4)] == "4";
    assert ShowNat(42) == ShowNat(4) + [DigitChar(2)] == "42";
    assert ShowNat(429) == ShowNat(42) + [DigitChar(9)] == "429";
  }

  /** Reading the rendered digits back gives the number: `ShowNat` loses
      nothing. */
  lemma {:induction false} ShowNatRoundTrip(n: nat)
    ensures DigitsValue(ShowNat(n)) == n
  {
    if n >= 10 {
      var s := ShowNat(n);
      assert s[..|s| - 1] == ShowNat(n / 10);
      ShowNatRoundTrip(n / 10);
    }
  }

  lemma ShowNatInjective(m: nat, n: nat)
    requires ShowNat(m) == ShowNat(n)
    ensures m == n
  {
    ShowNatRoundTrip(m);
    ShowNatRoundTrip(n);
  }

  // ---------------------------------------------------------------------
  // Python's `sep.join(xs)` and `s.split(sep)`.

  function Join(xs: seq<string>, sep: string): (r: string)
    ensures |xs| > 0 ==> IsPrefix(xs[0], r)
  {
    if |xs| == 0 then ""
    else if |xs| == 1 then xs[0]
    else xs[0] + sep + Join(xs[1..], sep)
  }

  /** Every joined element occurs in the result. */
  lemma {:induction false} JoinContains(xs: seq<string>, sep: string)
    ensures forall i :: 0 <= i < |xs| ==> Contains(Join(xs, sep), xs[i])
  {
    if |xs| == 1 {
      ContainsIffOccurs(xs[0], xs[0]);
      assert OccursAt(xs[0], xs[0], 0);
    } else if |xs| >= 2 {
      var rest := Join(xs[1..], sep);
      var r := xs[0] + sep + rest;
      assert Join(xs, sep) == r;
      JoinContains(xs[1..], sep);
      ContainsIffOccurs(r, xs[0]);
      assert OccursAt(r, xs[0], 0);
      forall i | 1 <= i < |xs|
        ensures Contains(r, xs[i])
      {
        assert xs[i] == xs[1..][i - 1];
        ContainsIffOccurs(rest, xs[i]);
        var k :| OccursAt(rest, xs[i], k);
        var off := |xs[0] + sep|;
        assert r[off + k..off + k + |xs[i]|] == rest[k..k + |xs[i]|];
        ContainsIffOccurs(r, xs[i]);
        assert OccursAt(r, xs[i], off + k);
      }
    }
  }

  /** One step of `Join`: the first element, the separator, the rest joined. */
  lemma JoinCons(x: string, ys: seq<string>, sep: string, rest: string)
    requires |ys| > 0 && Join(ys, sep) == rest
    ensures Join([x] + ys, sep) == x + (sep + rest)
  {
    assert ([x] + ys)[1..] == ys;
  }

  lemma JoinSix(a: string, b: string, c: string, d: string, e: string, f: string, sep: string)
    ensures Join([a, b, c, d, e, f], sep)
         == a + (sep + (b + (sep + (c + (sep + (d + (sep + (e + (sep + f)))))))))
  {
    JoinCons(e, [f], sep, f);
    assert [e] + [f] == [e, f];
    JoinCons(d, [e, f], sep, e + (sep + f));
    assert [d] + [e, f] == [d, e, f];
    JoinCons(c, [d, e, f], sep, d + (sep + (e + (sep + f))));
    assert [c] + [d, e, f] == [c, d, e, f];
    JoinCons(b, [c, d, e, f], sep, c + (sep + (d + (sep + (e + (sep + f))))));
    assert [b] + [c, d, e, f] == [b, c, d, e, f];
    JoinCons(a, [b, c, d, e, f], sep, b + (sep + (c + (sep + (d + (sep + (e + (sep + f))))))));
    assert [a] + [b, c, d, e, f] == [a, b, c, d, e, f];
  }

  /** Python's `s.split(sep)` for a non-empty separator: the pieces between
      successive left-most occurrences of `sep`. */
  function Split(s: string, sep: string): (r: seq<string>)
    requires |sep| > 0
    ensures |r| >= 1
    decreases |s|
  {
    if |s| == 0 then [""]
    else if IsPrefix(sep, s) then [""] + Split(s[|sep|..], sep)
    else
      var rest := Split(s[1..], sep);
      [[s[0]] + rest[0]] + rest[1..]
  }

  /** A text in which the separator cannot start is glued onto the first piece. */
  lemma {:induction false} SplitGlue(x: string, t: string, sep: string)
    requires |sep| > 0
    requires sep[0] !in x
    ensures Split(x + t, sep) == [x + Split(t, sep)[0]] + Split(t, sep)[1..]
    decreases |x|
  {
    if |x| > 0 {
      var s := x + t;
      assert s[0] == x[0];
      assert !IsPrefix(sep, s);
      assert s[1..] == x[1..] + t;
      SplitGlue(x[1..], t, sep);
      assert [s[0]] + (x[1..] + Split(t, sep)[0]) == x + Split(t, sep)[0];
    } else {
      assert x + t == t;
      var r := Split(t, sep);
      assert x + r[0] == r[0];
      assert r == [r[0]] + r[1..];
    }
  }

  /** Splitting undoes joining when no piece contains the separator's first
      character. */
  lemma {:induction false} SplitJoin(xs: seq<string>, sep: string)
    requires |xs| >= 1 && |sep| > 0
    requires forall i :: 0 <= i < |xs| ==> sep[0] !in xs[i]
    ensures Split(Join(xs, sep), sep) == xs
    decreases |xs|
  {
    if |xs| == 1 {
      SplitGlue(xs[0], "", sep);
      assert xs[0] + "" == xs[0];
    } else {
      var rest := Join(xs[1..], sep);
      assert Join(xs, sep) == xs[0] + (sep + rest);
      SplitGlue(xs[0], sep + rest, sep);
      assert IsPrefix(sep, sep + rest);
      assert (sep + rest)[|sep|..] == rest;
      assert Split(sep + rest, sep) == [""] + Split(rest, sep);
      SplitJoin(xs[1..], sep);
      assert xs[0] + "" == xs[0];
      assert xs == [xs[0]] + xs[1..];
    }
  }
}
