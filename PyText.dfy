/**
 * The few Python string built-ins the core relies on: str.strip() with no
 * argument, str.split(sep, 1) and str() of a non-negative int.
 */
module PyText {

  /** Python's str.isspace(): ASCII whitespace (9-13), the information separators (28-31), the space, and the Unicode spaces. */
  predicate IsSpace(c: char) {
    var n := c as int;
    9 <= n <= 13 || 28 <= n <= 32 || n == 0x85 || n == 0xA0 || n == 0x1680 || 0x2000 <= n <= 0x200A
    || n == 0x2028 || n == 0x2029 || n == 0x202F || n == 0x205F || n == 0x3000
  }

  // The trimming functions take the class of characters to remove as a parameter, as
  // str.strip(chars) does; str.strip() with no argument is StripChars(IsSpace, _).

  predicate AllIn(ws: char -> bool, s: string) {
    forall i :: 0 <= i < |s| ==> ws(s[i])
  }

  /** True when `s` has no character of `ws` at either end, which is what stripping leaves. */
  predicate TrimmedOf(ws: char -> bool, s: string) {
    s == [] || (!ws(s[0]) && !ws(s[|s| - 1]))
  }

  lemma AllInConcat(ws: char -> bool, x: string, y: string)
    ensures AllIn(ws, x + y) <==> AllIn(ws, x) && AllIn(ws, y)
  {
    if AllIn(ws, x) && AllIn(ws, y) {
      forall i | 0 <= i < |x + y| ensures ws((x + y)[i]) {
        if i >= |x| { assert (x + y)[i] == y[i - |x|]; } else { assert (x + y)[i] == x[i]; }
      }
    }
    if AllIn(ws, x + y) {
      forall i | 0 <= i < |x| ensures ws(x[i]) {
        assert (x + y)[i] == x[i];
      }
      forall i | 0 <= i < |y| ensures ws(y[i]) {
        assert (x + y)[|x| + i] == y[i];
      }
    }
  }

  /** str.lstrip(chars): drops the leading characters of `ws`. */
  function TrimStart(ws: char -> bool, s: string): (r: string)
    ensures |r| <= |s|
  {
    if s != [] && ws(s[0]) then TrimStart(ws, s[1..]) else s
  }

  /** lstrip removes a prefix made only of `ws` characters and stops at the first other one. */
  lemma {:induction false} TrimStartSpec(ws: char -> bool, s: string)
    ensures var r := TrimStart(ws, s);
      && s == s[..|s| - |r|] + r
      && AllIn(ws, s[..|s| - |r|])
      && (r == [] || !ws(r[0]))
    decreases |s|
  {
    if s != [] && ws(s[0]) {
      TrimStartSpec(ws, s[1..]);
      var r := TrimStart(ws, s);
      var n := |s| - |r|;
      assert s[..n] == [s[0]] + s[1..][..n - 1];
      AllInConcat(ws, [s[0]], s[1..][..n - 1]);
    }
  }

  /** str.rstrip(chars): drops the trailing characters of `ws`. */
  function TrimEnd(ws: char -> bool, s: string): (r: string)
    ensures |r| <= |s|
  {
    if s != [] && ws(s[|s| - 1]) then TrimEnd(ws, s[..|s| - 1]) else s
  }

  /** rstrip removes a suffix made only of `ws` characters and stops at the last other one. */
  lemma {:induction false} TrimEndSpec(ws: char -> bool, s: string)
    ensures var r := TrimEnd(ws, s);
      && s == r + s[|r|..]
      && AllIn(ws, s[|r|..])
      && (r == [] || !ws(r[|r| - 1]))
    decreases |s|
  {
    if s != [] && ws(s[|s| - 1]) {
      var s' := s[..|s| - 1];
      TrimEndSpec(ws, s');
      var r := TrimEnd(ws, s);
      assert s[|r|..] == s'[|r|..] + [s[|s| - 1]];
      AllInConcat(ws, s'[|r|..], [s[|s| - 1]]);
    }
  }

  /** str.strip(chars): characters of `ws` removed from both ends. */
  function StripChars(ws: char -> bool, s: string): string {
    TrimEnd(ws, TrimStart(ws, s))
  }

  /** str.strip() with no argument. */
  function Strip(s: string): (r: string)
    ensures TrimmedOf(IsSpace, r)
    ensures r == [] <==> AllIn(IsSpace, s)
  {
    StripCharsSpec(IsSpace, s);
    StripChars(IsSpace, s)
  }

  /** The stripped string has no `ws` character at either end, and is empty exactly when `s` is all `ws`. */
  lemma StripCharsSpec(ws: char -> bool, s: string)
    ensures TrimmedOf(ws, StripChars(ws, s))
    ensures StripChars(ws, s) == [] <==> AllIn(ws, s)
  {
    var a := TrimStart(ws, s);
    var r := TrimEnd(ws, a);
    TrimStartSpec(ws, s);
    TrimEndSpec(ws, a);
    AllInConcat(ws, s[..|s| - |a|], a);
    AllInConcat(ws, r, a[|r|..]);
    if r != [] {
      assert r[0] == a[0];
    }
  }

  lemma {:induction false} TrimStartPadded(ws: char -> bool, p: string, u: string)
    requires AllIn(ws, p)
    requires u == [] || !ws(u[0])
    ensures TrimStart(ws, p + u) == u
    decreases |p|
  {
    if p == [] {
      assert p + u == u;
    } else {
      assert (p + u)[0] == p[0];
      assert (p + u)[1..] == p[1..] + u;
      TrimStartPadded(ws, p[1..], u);
    }
  }

  lemma {:induction false} TrimEndPadded(ws: char -> bool, u: string, q: string)
    requires AllIn(ws, q)
    requires u == [] || !ws(u[|u| - 1])
    ensures TrimEnd(ws, u + q) == u
    decreases |q|
  {
    if q == [] {
      assert u + q == u;
    } else {
      assert (u + q)[|u + q| - 1] == q[|q| - 1];
      assert (u + q)[..|u + q| - 1] == u + q[..|q| - 1];
      TrimEndPadded(ws, u, q[..|q| - 1]);
    }
  }

  /** Stripping removes exactly the padding around a trimmed core: the core is what remains. */
  lemma StripPadded(ws: char -> bool, p: string, t: string, q: string)
    requires AllIn(ws, p) && AllIn(ws, q) && TrimmedOf(ws, t)
    ensures StripChars(ws, p + t + q) == t
  {
    if t == [] {
      assert p + t + q == p + q;
      AllInConcat(ws, p, q);
      StripCharsSpec(ws, p + q);
    } else {
      assert p + t + q == p + (t + q);
      TrimStartPadded(ws, p, t + q);
      TrimEndPadded(ws, t, q);
    }
  }

  /** Every string is its stripped form with `ws` padding on each side. */
  lemma StripSplit(ws: char -> bool, s: string) returns (p: string, q: string)
    ensures AllIn(ws, p) && AllIn(ws, q)
    ensures s == p + StripChars(ws, s) + q
  {
    var a := TrimStart(ws, s);
    TrimStartSpec(ws, s);
    p := s[..|s| - |a|];
    var b := TrimEnd(ws, a);
    TrimEndSpec(ws, a);
    q := a[|b|..];
  }

  lemma StripOfTrimStart(ws: char -> bool, s: string)
    ensures StripChars(ws, TrimStart(ws, s)) == StripChars(ws, s)
  {
    var p, q := StripSplit(ws, s);
    var t := StripChars(ws, s);
    StripCharsSpec(ws, s);
    if t == [] {
      TrimStartSpec(ws, s);
      AllInConcat(ws, s[..|s| - |TrimStart(ws, s)|], TrimStart(ws, s));
      StripCharsSpec(ws, TrimStart(ws, s));
    } else {
      assert s == p + (t + q);
      TrimStartPadded(ws, p, t + q);
      StripPadded(ws, [], t, q);
      assert [] + t + q == t + q;
    }
  }

  lemma StripOfTrimEnd(ws: char -> bool, s: string)
    ensures StripChars(ws, TrimEnd(ws, s)) == StripChars(ws, s)
  {
    var p, q := StripSplit(ws, s);
    var t := StripChars(ws, s);
    StripCharsSpec(ws, s);
    if t == [] {
      TrimEndSpec(ws, s);
      AllInConcat(ws, TrimEnd(ws, s), s[|TrimEnd(ws, s)|..]);
      StripCharsSpec(ws, TrimEnd(ws, s));
    } else {
      TrimEndPadded(ws, p + t, q);
      StripPadded(ws, p, t, []);
      assert p + t + [] == p + t;
    }
  }

  /** The leading padding of `a` is all lstrip sees when `b` starts with a character outside `ws`. */
  lemma TrimStartAppend(ws: char -> bool, a: string, b: string)
    requires b != [] && !ws(b[0])
    ensures TrimStart(ws, a + b) == TrimStart(ws, a) + b
  {
    var r := TrimStart(ws, a);
    TrimStartSpec(ws, a);
    var n := |a| - |r|;
    var p := a[..n];
    calc {
      a + b;
      (p + r) + b;
      p + (r + b);
    }
    if r == [] {
      assert r + b == b;
    } else {
      assert (r + b)[0] == r[0];
    }
    TrimStartPadded(ws, p, r + b);
  }

  lemma TrimEndPrepend(ws: char -> bool, a: string, b: string)
    requires a != [] && !ws(a[|a| - 1])
    ensures TrimEnd(ws, a + b) == a + TrimEnd(ws, b)
  {
    var r := TrimEnd(ws, b);
    TrimEndSpec(ws, b);
    assert a + b == (a + r) + b[|r|..];
    TrimEndPadded(ws, a + r, b[|r|..]);
  }

  /** Stripping `a + [c] + b` around a non-`ws` character `c` only trims the outer ends. */
  lemma StripAround(ws: char -> bool, a: string, c: char, b: string)
    requires !ws(c)
    ensures StripChars(ws, a + [c] + b) == TrimStart(ws, a) + [c] + TrimEnd(ws, b)
  {
    var a' := TrimStart(ws, a);
    TrimStartAppend(ws, a, [c] + b);
    assert a + [c] + b == a + ([c] + b);
    TrimEndPrepend(ws, a' + [c], b);
    assert a' + ([c] + b) == (a' + [c]) + b;
  }

  /** str.split(c, 1) on a string containing `c`: the part before the first `c` and everything after it. */
  function SplitAtFirst(s: string, c: char): (r: (string, string))
    requires c in s
    ensures s == r.0 + [c] + r.1
    ensures c !in r.0
  {
    if s[0] == c then ([], s[1..])
    else
      var rest := SplitAtFirst(s[1..], c);
      assert s == [s[0]] + s[1..];
      ([s[0]] + rest.0, rest.1)
  }

  /** The split is determined by the first `c`: later occurrences stay in the second part. */
  lemma {:induction false} SplitAtFirstUnique(a: string, b: string, c: char)
    requires c !in a
    ensures SplitAtFirst(a + [c] + b, c) == (a, b)
    decreases |a|
  {
    if a == [] {
      assert a + [c] + b == [c] + b;
    } else {
      assert (a + [c] + b)[0] == a[0];
      assert (a + [c] + b)[1..] == a[1..] + [c] + b;
      SplitAtFirstUnique(a[1..], b, c);
      assert a == [a[0]] + a[1..];
    }
  }

  predicate IsDigit(c: char) {
    '0' as int <= c as int <= '9' as int
  }

  function DigitChar(d: nat): (c: char)
    requires d < 10
    ensures IsDigit(c)
  {
    ('0' as int + d) as char
  }

  /** str(n) for a non-negative int: its decimal digits, without leading zeros. */
  function NatToString(n: nat): (r: string)
    ensures r != []
    ensures forall i :: 0 <= i < |r| ==> IsDigit(r[i])
    ensures r[0] == '0' ==> n == 0
    decreases n
  {
    if n < 10 then [DigitChar(n)] else NatToString(n / 10) + [DigitChar(n % 10)]
  }

  /** The value of a string of decimal digits, as Python's int() reads it. */
  function DigitsValue(s: string): nat
    requires forall i :: 0 <= i < |s| ==> IsDigit(s[i])
  {
    if s == [] then 0
    else
      assert IsDigit(s[|s| - 1]);
      DigitsValue(s[..|s| - 1]) * 10 + (s[|s| - 1] as int - '0' as int)
  }

  /** int(str(n)) == n. */
  lemma {:induction false} NatToStringRoundTrip(n: nat)
    ensures DigitsValue(NatToString(n)) == n
    decreases n
  {
    if n >= 10 {
      var s := NatToString(n);
      assert s[..|s| - 1] == NatToString(n / 10);
      NatToStringRoundTrip(n / 10);
    }
  }

  /** Distinct numbers get distinct strings. */
  lemma NatToStringInjective(m: nat, n: nat)
    requires m != n
    ensures NatToString(m) != NatToString(n)
  {
    NatToStringRoundTrip(m);
    NatToStringRoundTrip(n);
  }
}
