/** Decimal text of numbers, and when a joined string can be split back into its parts. */
module Text {
  function Digit(n: nat): char
    requires n < 10
  {
    '0' + n as char
  }

  predicate IsDigit(c: char) {
    '0' <= c <= '9'
  }

  function Value(c: char): nat
    requires IsDigit(c)
  {
    (c - '0') as nat
  }

  predicate AllDigits(s: string) {
    forall i | 0 <= i < |s| :: IsDigit(s[i])
  }

  /** `str(n)` for n >= 0. */
  function Str(n: nat): (s: string)
    ensures AllDigits(s) && |s| > 0
  {
    if n < 10 then [Digit(n)] else Str(n / 10) + [Digit(n % 10)]
  }

  /** `int(s)` on a string of digits. */
  function ParseNat(s: string): nat
    requires AllDigits(s)
  {
    if s == [] then 0 else 10 * ParseNat(s[..|s| - 1]) + Value(s[|s| - 1])
  }

  /** `f"{n:0{width}d}"`. */
  function Pad(n: nat, width: nat): (s: string)
    ensures AllDigits(s) && |s| >= width
  {
    Zeros(width - |Str(n)|) + Str(n)
  }

  function Zeros(k: int): (s: string)
    ensures AllDigits(s) && |s| == if k <= 0 then 0 else k
    ensures forall c | c in s :: c == '0'
  {
    if k <= 0 then "" else "0" + Zeros(k - 1)
  }

  lemma {:induction false} ParseStr(n: nat)
    ensures ParseNat(Str(n)) == n
  {
    if n >= 10 {
      ParseStr(n / 10);
      assert Str(n)[..|Str(n)| - 1] == Str(n / 10);
    }
  }

  /** Decimal text: one digit for a number below ten, and another one for each further decimal place. */
  lemma {:induction false} StrMeans(n: nat, d: nat)
    requires d < 10
    ensures Str(d) == ["0123456789"[d]]
    ensures n > 0 ==> Str(10 * n + d) == Str(n) + ["0123456789"[d]]
  {
    DigitMeans(d);
    if n > 0 {
      assert (10 * n + d) / 10 == n && (10 * n + d) % 10 == d;
    }
  }

  lemma {:induction false} DigitMeans(d: nat)
    requires d < 10
    ensures Digit(d) == "0123456789"[d]
  {
  }

  lemma {:induction false} ParsePad(n: nat, width: nat)
    ensures ParseNat(Pad(n, width)) == n
  {
    ParseZeros(Zeros(width - |Str(n)|), Str(n));
    ParseStr(n);
  }

  lemma {:induction false} PadWidth(n: nat)
    ensures n < 100 ==> |Pad(n, 2)| == 2
    ensures n < 10000 ==> |Pad(n, 4)| == 4
  {
    if n < 10000 {
      assert n / 10 < 1000 && n / 100 < 100 && n / 1000 < 10;
      assert |Str(n / 1000)| == 1;
      assert n / 100 / 10 == n / 1000 && n / 10 / 10 == n / 100;
      assert |Str(n / 100)| <= 2;
      assert |Str(n / 10)| <= 3;
    }
  }

  lemma {:induction false} StrInjective(m: nat, n: nat)
    requires Str(m) == Str(n)
    ensures m == n
  {
    ParseStr(m);
    ParseStr(n);
  }

  lemma {:induction false} ParseZeros(z: string, s: string)
    requires AllDigits(s) && forall c | c in z :: c == '0'
    requires AllDigits(z + s)
    ensures ParseNat(z + s) == ParseNat(s)
  {
    if s == [] {
      if z != [] {
        var y := z[..|z| - 1];
        assert z + s == y + [z[|z| - 1]] && z[|z| - 1] in z;
        assert forall c | c in y :: c in z;
        assert (z + s)[..|z + s| - 1] == y + s;
        assert forall i | 0 <= i < |y| :: y[i] == (z + s)[i];
        assert AllDigits(y + s);
        ParseZeros(y, s);
      } else {
        assert z + s == s;
      }
    } else {
      var t := s[..|s| - 1];
      assert (z + s)[..|z + s| - 1] == z + t;
      assert forall i | 0 <= i < |z + t| :: (z + t)[i] == (z + s)[i];
      ParseZeros(z, t);
    }
  }

  lemma {:induction false} PadInjective(m: nat, n: nat, width: nat)
    requires Pad(m, width) == Pad(n, width)
    ensures m == n
  {
    ParsePad(m, width);
    ParsePad(n, width);
  }

  /** The first occurrence of a separator splits a string in one way. */
  lemma {:induction false} SplitFirst(a: string, b: string, a': string, b': string, sep: char)
    requires sep !in a && sep !in a'
    requires a + [sep] + b == a' + [sep] + b'
    ensures a == a' && b == b'
  {
    var s, s' := a + [sep] + b, a' + [sep] + b';
    assert s[|a|] == sep && s'[|a'|] == sep;
    assert forall i | 0 <= i < |a| :: s[i] == a[i] && a[i] in a;
    assert forall i | 0 <= i < |a'| :: s'[i] == a'[i] && a'[i] in a';
    assert |a| == |a'|;
    assert a == s[..|a|] && a' == s'[..|a'|];
    assert b == s[|a| + 1..] && b' == s'[|a'| + 1..];
  }

  /** So does the last one. */
  lemma {:induction false} SplitLast(a: string, b: string, a': string, b': string, sep: char)
    requires sep !in b && sep !in b'
    requires a + [sep] + b == a' + [sep] + b'
    ensures a == a' && b == b'
  {
    var s, s' := a + [sep] + b, a' + [sep] + b';
    assert s[|a|] == sep && s'[|a'|] == sep;
    assert forall i | |a| < i < |s| :: s[i] == b[i - |a| - 1] && b[i - |a| - 1] in b;
    assert forall i | |a'| < i < |s'| :: s'[i] == b'[i - |a'| - 1] && b'[i - |a'| - 1] in b';
    assert |a| == |a'|;
    assert a == s[..|a|] && a' == s'[..|a'|];
    assert b == s[|a| + 1..] && b' == s'[|a'| + 1..];
  }

  lemma {:induction false} DigitsAvoid(s: string, c: char)
    requires AllDigits(s) && !IsDigit(c)
    ensures c !in s
  {
  }
}
