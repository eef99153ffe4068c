/** Canonical community identifiers. The plugin accepts a string when it parses as a
    positive 64-bit unsigned number and prints back identically; the database guard accepts
    it by a digit pattern, a length and a text comparison. They accept the same strings. */
module CommunityId {
  import opened Basics

  const MAX_UINT64: nat := 0xFFFF_FFFF_FFFF_FFFF
  const MAX_TEXT: string := "18446744073709551615"

  predicate IsDigit(c: char) { '0' <= c <= '9' }

  function DigitOf(c: char): (d: nat)
    requires IsDigit(c)
    ensures d <= 9
  {
    c as int - '0' as int
  }

  function CharOf(d: nat): (c: char)
    requires d <= 9
    ensures IsDigit(c) && DigitOf(c) == d
  {
    ('0' as int + d) as char
  }

  predicate AllDigits(s: string) { forall c | c in s :: IsDigit(c) }

  /** The number a digit string denotes. */
  function Val(s: string): nat
    requires AllDigits(s)
  {
    if s == "" then 0 else 10 * Val(s[..|s| - 1]) + DigitOf(s[|s| - 1])
  }

  function ParseUint(s: string): Option<nat> {
    if s == "" || !AllDigits(s) || Val(s) > MAX_UINT64 then None else Some(Val(s))
  }

  function FormatUint(n: nat): (s: string)
    ensures s != "" && AllDigits(s)
  {
    if n < 10 then [CharOf(n)] else FormatUint(n / 10) + [CharOf(n % 10)]
  }

  /** `canonicalCommunityID`. */
  predicate Canonical(s: string) {
    match ParseUint(s)
    case None => false
    case Some(id) => id > 0 && FormatUint(id) == s
  }

  predicate MatchesPattern(s: string) { s != "" && AllDigits(s) && s[0] != '0' }

  /** Text order: the first difference decides, and a proper prefix is smaller. */
  predicate TextGreater(a: string, b: string) {
    if a == "" then false
    else if b == "" then true
    else if a[0] != b[0] then a[0] > b[0]
    else TextGreater(a[1..], b[1..])
  }

  /** The guard's test: pattern, length 20, and the text bound at length 20. */
  predicate GuardAccepts(s: string) {
    !(!MatchesPattern(s) || |s| > 20 || (|s| == 20 && TextGreater(s, MAX_TEXT)))
  }

  function Pow10(n: nat): (r: nat)
    ensures r > 0
  {
    if n == 0 then 1 else 10 * Pow10(n - 1)
  }

  lemma {:induction false} ValHead(s: string)
    requires AllDigits(s) && s != ""
    ensures Val(s) == DigitOf(s[0]) * Pow10(|s| - 1) + Val(s[1..])
  {
    var n := |s| - 1;
    if n == 0 {
      assert s[..0] == "" && s[1..] == "";
      assert Val(s) == 10 * Val("") + DigitOf(s[0]);
    } else {
      ValHead(s[..n]);
      var tail := s[1..];
      assert s[..n][1..] == tail[..n - 1] && tail[n - 1] == s[n] && s[..n][0] == s[0];
      assert Val(tail) == 10 * Val(tail[..n - 1]) + DigitOf(s[n]);
      var d, p := DigitOf(s[0]), Pow10(n - 1);
      assert Val(s[..n]) == d * p + Val(tail[..n - 1]);
      TimesTen(d, p);
    }
  }

  lemma {:induction false} ValBounds(s: string)
    requires AllDigits(s)
    ensures Val(s) < Pow10(|s|)
    ensures s != "" && s[0] != '0' ==> Pow10(|s| - 1) <= Val(s)
  {
    if s != "" {
      var n := |s| - 1;
      ValBounds(s[..n]);
      if n > 0 { assert s[..n][0] == s[0]; }
    }
  }

  /** Digit strings of the same length compare as text exactly as their numbers do. */
  lemma {:induction false} TextOrderIsNumberOrder(a: string, b: string)
    requires |a| == |b| && AllDigits(a) && AllDigits(b)
    ensures TextGreater(a, b) <==> Val(a) > Val(b)
  {
    if a != "" {
      ValHead(a);
      ValHead(b);
      ValBounds(a[1..]);
      ValBounds(b[1..]);
      var p := Pow10(|a| - 1);
      var x, y := DigitOf(a[0]), DigitOf(b[0]);
      if a[0] == b[0] {
        TextOrderIsNumberOrder(a[1..], b[1..]);
      } else if x > y {
        ScaleGap(x, y, p);
      } else {
        ScaleGap(y, x, p);
      }
    }
  }

  lemma {:induction false} ScaleGap(x: nat, y: nat, p: nat)
    requires x > y
    ensures x * p >= y * p + p
    decreases x
  {
    OneMore(x - 1, p);
    if x > y + 1 { ScaleGap(x - 1, y, p); }
  }

  lemma OneMore(x: nat, p: nat)
    ensures (x + 1) * p == x * p + p
  {
  }

  lemma LastDigit(v: nat, d: nat)
    requires d <= 9
    ensures (10 * v + d) / 10 == v && (10 * v + d) % 10 == d
  {
  }

  lemma {:induction false} FormatOfVal(s: string)
    requires MatchesPattern(s)
    ensures Val(s) > 0 && FormatUint(Val(s)) == s
  {
    var n := |s| - 1;
    if n == 0 {
      assert s[..0] == "";
      assert s == [s[0]];
      assert CharOf(DigitOf(s[0])) == s[0];
    } else {
      assert s[..n][0] == s[0];
      FormatOfVal(s[..n]);
      LastDigit(Val(s[..n]), DigitOf(s[n]));
      var v := Val(s[..n]);
      assert Val(s) == 10 * v + DigitOf(s[n]) && Val(s) >= 10;
      assert CharOf(DigitOf(s[n])) == s[n];
      assert FormatUint(Val(s)) == FormatUint(v) + [s[n]];
      assert s == s[..n] + [s[n]];
    }
  }

  lemma {:induction false} FormatShape(n: nat)
    ensures Val(FormatUint(n)) == n
    ensures n > 0 ==> MatchesPattern(FormatUint(n))
  {
    var s := FormatUint(n);
    if n < 10 {
      assert s[..0] == "";
    } else {
      FormatShape(n / 10);
      assert s[..|s| - 1] == FormatUint(n / 10);
      assert s[0] == FormatUint(n / 10)[0];
    }
  }

  lemma PowersOfTen()
    ensures Pow10(19) == 10000000000000000000 && Pow10(20) == 100000000000000000000
  {
    assert Pow10(5) == 100000;
    assert Pow10(10) == 10000000000 by { assert Pow10(8) == 100000000; }
    assert Pow10(13) == 10000000000000;
    assert Pow10(16) == 10000000000000000;
    assert Pow10(19) == 10000000000000000000;
  }

  lemma TimesTen(x: nat, p: nat)
    ensures x * (10 * p) == 10 * (x * p)
  {
  }

  lemma {:induction false} ValConcat(a: string, b: string)
    requires AllDigits(a) && AllDigits(b)
    ensures AllDigits(a + b) && Val(a + b) == Val(a) * Pow10(|b|) + Val(b)
  {
    if b == "" {
      assert a + b == a;
    } else {
      var n := |b| - 1;
      ValConcat(a, b[..n]);
      assert (a + b)[..|a + b| - 1] == a + b[..n];
      assert Val(a + b) == 10 * Val(a + b[..n]) + DigitOf(b[n]);
      TimesTen(Val(a), Pow10(n));
    }
  }

  lemma AppendFour(a: string, b: string, va: nat, vb: nat)
    requires AllDigits(a) && Val(a) == va && |b| == 4 && AllDigits(b)
    requires vb == 1000 * DigitOf(b[0]) + 100 * DigitOf(b[1]) + 10 * DigitOf(b[2]) + DigitOf(b[3])
    ensures AllDigits(a + b) && Val(a + b) == va * 10000 + vb
  {
    Four(b);
    ValConcat(a, b);
    assert Pow10(4) == 10000;
  }

  lemma MaxTextIsMaxUint64()
    ensures AllDigits(MAX_TEXT) && |MAX_TEXT| == 20 && Val(MAX_TEXT) == MAX_UINT64
  {
    FirstTwelve();
    AppendFour("184467440737", "0955", 184467440737, 955);
    assert "184467440737" + "0955" == "1844674407370955";
    AppendFour("1844674407370955", "1615", 1844674407370955, 1615);
    assert "1844674407370955" + "1615" == MAX_TEXT;
  }

  lemma FirstTwelve()
    ensures AllDigits("184467440737") && Val("184467440737") == 184467440737
  {
    Four("1844");
    AppendFour("1844", "6744", 1844, 6744);
    assert "1844" + "6744" == "18446744";
    AppendFour("18446744", "0737", 18446744, 737);
    assert "18446744" + "0737" == "184467440737";
  }

  lemma Four(s: string)
    requires |s| == 4 && AllDigits(s)
    ensures Val(s) == 1000 * DigitOf(s[0]) + 100 * DigitOf(s[1]) + 10 * DigitOf(s[2]) + DigitOf(s[3])
  {
    assert s[..3][..2] == s[..2] && s[..2][..1] == s[..1] && s[..1][..0] == "";
    assert Val(s[..1]) == DigitOf(s[0]);
    assert Val(s[..2]) == 10 * Val(s[..1]) + DigitOf(s[1]);
    assert Val(s[..3]) == 10 * Val(s[..2]) + DigitOf(s[2]);
  }

  /** The database test and the Go test accept exactly the same strings. */
  lemma GuardAcceptsExactlyCanonical(s: string)
    ensures GuardAccepts(s) <==> Canonical(s)
  {
    if AllDigits(s) && s != "" {
      FormatShape(Val(s));
      if MatchesPattern(s) {
        FormatOfVal(s);
        LengthDecides(s);
      }
    }
  }

  lemma LengthDecides(s: string)
    requires MatchesPattern(s)
    ensures (|s| > 20 || (|s| == 20 && TextGreater(s, MAX_TEXT))) <==> Val(s) > MAX_UINT64
  {
    PowersOfTen();
    ValBounds(s);
    if |s| == 20 {
      MaxTextIsMaxUint64();
      TextOrderIsNumberOrder(s, MAX_TEXT);
    } else if |s| > 20 {
      PowGrows(20, |s| - 1);
    } else {
      PowGrows(|s|, 19);
    }
  }

  lemma {:induction false} PowGrows(a: nat, b: nat)
    requires a <= b
    ensures Pow10(a) <= Pow10(b)
  {
    if a < b { PowGrows(a, b - 1); }
  }
}
