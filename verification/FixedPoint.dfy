/** Fixed-point amounts: the parser and printer of the period form, and the rational figures
    shown beside a reward pool. Numbers are unbounded as in the source's BigInt arithmetic;
    texts are already trimmed. */
module FixedPoint {
  import opened Basics
  import opened CommunityId

  const MAX_SAFE: nat := 9007199254740991

  // ---- texts ----------------------------------------------------------------------------------

  function Zeros(n: nat): (s: string)
    ensures |s| == n && AllDigits(s) && forall c | c in s :: c == '0'
  {
    if n == 0 then "" else Zeros(n - 1) + "0"
  }

  function PadStart(s: string, n: nat): string { if |s| < n then Zeros(n - |s|) + s else s }
  function PadEnd(s: string, n: nat): string { if |s| < n then s + Zeros(n - |s|) else s }

  function DropZeros(s: string): string {
    if s != "" && s[|s| - 1] == '0' then DropZeros(s[..|s| - 1]) else s
  }

  /** `replace(/\.?0+$/, "")`. */
  function StripTail(s: string): string {
    var u := DropZeros(s);
    if u != s && u != "" && u[|u| - 1] == '.' then u[..|u| - 1] else u
  }

  /** `0|[1-9][0-9]*` */
  predicate Numeral(s: string) { s == "0" || MatchesPattern(s) }

  function Point(s: string): (i: nat)
    ensures i <= |s| && (forall k | 0 <= k < i :: s[k] != '.') && (i < |s| ==> s[i] == '.')
  {
    if s == "" || s[0] == '.' then 0 else 1 + Point(s[1..])
  }

  function Whole(s: string): string { s[..Point(s)] }
  function Fraction(s: string): string { if Point(s) < |s| then s[Point(s) + 1..] else "" }

  /** `^(0|[1-9][0-9]*)(\.[0-9]{1,digits})?$` */
  predicate WellFormed(s: string, digits: nat) {
    && Numeral(Whole(s)) && AllDigits(Fraction(s)) && |Fraction(s)| <= digits
    && (Point(s) < |s| ==> Fraction(s) != "")
  }

  /** The number a well-formed text denotes, in units of the last digit. */
  function Reading(s: string, digits: nat): nat
    requires WellFormed(s, digits)
  {
    DigitsAfter(Fraction(s), digits);
    Val(Whole(s)) * Pow10(digits) + Val(PadEnd(Fraction(s), digits))
  }

  lemma DigitsAfter(s: string, n: nat)
    requires AllDigits(s)
    ensures AllDigits(PadEnd(s, n)) && AllDigits(PadStart(s, n))
  {
  }

  function Fixed(s: string, digits: nat, max: nat): Option<nat> {
    if !WellFormed(s, digits) then None
    else if !(0 < Reading(s, digits) <= max) then None
    else Some(Reading(s, digits))
  }

  function Format(v: nat, digits: nat): string {
    if v > MAX_SAFE then "—"
    else Pointed(PadStart(FormatUint(v), digits + 1), digits)
  }

  /** A point before the last `digits` digits, and the tail stripped. */
  function Pointed(s: string, digits: nat): string
    requires |s| > digits
  {
    StripTail(s[..|s| - digits] + "." + s[|s| - digits..])
  }

  function Spelled(whole: string, fraction: string): string {
    if fraction == "" then whole else whole + "." + fraction
  }

  /** A text without the zeros that carry nothing, nor a bare point. */
  function Shortest(s: string): string { if Point(s) < |s| then StripTail(s) else s }

  // ---- digits and numbers -----------------------------------------------------------------------

  lemma {:induction false} SameDigits(a: string, b: string)
    requires |a| == |b| && AllDigits(a) && AllDigits(b) && Val(a) == Val(b)
    ensures a == b
  {
    if a != "" {
      var n := |a| - 1;
      LastDigit(Val(a[..n]), DigitOf(a[n]));
      LastDigit(Val(b[..n]), DigitOf(b[n]));
      SameDigits(a[..n], b[..n]);
      assert a == a[..n] + [a[n]] && b == b[..n] + [b[n]];
    }
  }

  lemma {:induction false} ZerosDenoteNothing(n: nat)
    ensures Val(Zeros(n)) == 0
  {
    if n > 0 {
      ZerosDenoteNothing(n - 1);
      assert Zeros(n)[..n - 1] == Zeros(n - 1);
    }
  }

  lemma PaddingKeepsValue(s: string, n: nat)
    requires AllDigits(s)
    ensures AllDigits(PadStart(s, n)) && Val(PadStart(s, n)) == Val(s)
  {
    if |s| < n {
      ZerosDenoteNothing(n - |s|);
      ValConcat(Zeros(n - |s|), s);
    }
  }

  /** The padded digits of a number are any numeral and tail that denote it. */
  lemma PaddedIsUnique(v: nat, digits: nat, whole: string, tail: string)
    requires Numeral(whole) && AllDigits(tail) && |tail| == digits
    requires Val(whole) * Pow10(digits) + Val(tail) == v
    ensures PadStart(FormatUint(v), digits + 1) == whole + tail
  {
    ValConcat(whole, tail);
    if whole == "0" {
      ValBounds(tail);
      assert Val("0") == 0 by { assert "0"[..0] == ""; }
      FormatFits(v, digits);
      PaddingKeepsValue(FormatUint(v), digits + 1);
      FormatShape(v);
      SameDigits(PadStart(FormatUint(v), digits + 1), whole + tail);
    } else {
      FormatOfVal(whole + tail);
    }
  }

  lemma FormatFits(v: nat, digits: nat)
    requires v < Pow10(digits)
    ensures |FormatUint(v)| <= if digits == 0 then 1 else digits
  {
    FormatShape(v);
    if v > 0 {
      ValBounds(FormatUint(v));
      PowOrder(|FormatUint(v)| - 1, digits);
    }
  }

  lemma PowOrder(a: nat, b: nat)
    ensures Pow10(a) < Pow10(b) ==> a < b
  {
    if a >= b { PowGrows(b, a); }
  }

  /** Conversely the padded digits split into a numeral and a tail that denote the number. */
  lemma PaddedSplits(v: nat, digits: nat) returns (whole: string, tail: string)
    ensures whole + tail == PadStart(FormatUint(v), digits + 1)
    ensures Numeral(whole) && AllDigits(tail) && |tail| == digits
    ensures Val(whole) * Pow10(digits) + Val(tail) == v
  {
    var f := FormatUint(v);
    var s := PadStart(f, digits + 1);
    FormatShape(v);
    PaddingKeepsValue(f, digits + 1);
    whole, tail := s[..|s| - digits], s[|s| - digits..];
    SplitDigits(s, |s| - digits);
    ValConcat(whole, tail);
    SplitNumeral(f, digits, v);
  }

  lemma SplitDigits(s: string, i: nat)
    requires AllDigits(s) && i <= |s|
    ensures AllDigits(s[..i]) && AllDigits(s[i..]) && s == s[..i] + s[i..]
  {
  }

  lemma SplitNumeral(f: string, digits: nat, v: nat)
    requires f == FormatUint(v) && (v > 0 ==> MatchesPattern(f))
    ensures var s := PadStart(f, digits + 1); Numeral(s[..|s| - digits])
  {
    var s := PadStart(f, digits + 1);
    var whole := s[..|s| - digits];
    if |f| >= digits + 1 {
      assert whole[0] == f[0];
      assert v == 0 ==> f == "0";
      assert forall c | c in whole :: c in f;
    } else {
      var pad := Zeros(digits + 1 - |f|);
      assert pad[0] in pad;
      assert |whole| == 1 && whole[0] == pad[0];
      assert whole == "0";
    }
  }

  // ---- trailing zeros ---------------------------------------------------------------------------

  lemma {:induction false} DropZerosShape(s: string)
    ensures |DropZeros(s)| <= |s| && s == DropZeros(s) + Zeros(|s| - |DropZeros(s)|)
    ensures DropZeros(s) != "" ==> DropZeros(s)[|DropZeros(s)| - 1] != '0'
  {
    if s != "" && s[|s| - 1] == '0' {
      var n := |s| - 1;
      var u := DropZeros(s[..n]);
      DropZerosShape(s[..n]);
      LastApart(s);
      Regroup(u, Zeros(n - |u|), "0");
    } else {
      PadOfPrefix(s, |s|);
    }
  }

  lemma LastApart(s: string)
    requires s != ""
    ensures s == s[..|s| - 1] + [s[|s| - 1]]
  {
  }

  lemma {:induction false} DropZerosAfter(a: string, k: nat)
    ensures DropZeros(a + Zeros(k)) == DropZeros(a)
  {
    if k == 0 {
      assert a + Zeros(0) == a;
    } else {
      var s := a + Zeros(k);
      assert s[..|s| - 1] == a + Zeros(k - 1) && s[|s| - 1] == '0';
      DropZerosAfter(a, k - 1);
    }
  }

  lemma Regroup(a: string, b: string, c: string)
    ensures a + (b + c) == (a + b) + c
  {
  }

  lemma DropZerosBefore(a: string, b: string)
    requires a != "" && a[|a| - 1] != '0'
    ensures DropZeros(a + b) == a + DropZeros(b)
  {
    DropZerosShape(b);
    var u := DropZeros(b);
    var k := |b| - |u|;
    Regroup(a, u, Zeros(k));
    DropZerosAfter(a + u, k);
  }

  /** Stripping after the point. */
  lemma StripPointed(whole: string, tail: string)
    requires AllDigits(tail) && tail != ""
    ensures StripTail(whole + "." + tail) == Spelled(whole, DropZeros(tail))
  {
    var u := DropZeros(tail);
    DropZerosShape(tail);
    if u != "" { LastIsDigit(tail, u, |tail| - |u|); }
    StripAfterPoint(whole, tail, u);
  }

  lemma StripAfterPoint(whole: string, tail: string, u: string)
    requires tail != "" && u == DropZeros(tail) && (u != "" ==> u[|u| - 1] != '.')
    ensures StripTail(whole + "." + tail) == Spelled(whole, u)
  {
    var a := whole + ".";
    LastOf(whole, ".");
    DropZerosBefore(a, tail);
    LastOf(a, u);
    if u == "" { PointGoes(whole, a + tail); } else { PointStays(a + tail, a + u); }
  }

  lemma PointGoes(whole: string, s: string)
    requires DropZeros(s) == whole + "." && |s| > |whole| + 1
    ensures StripTail(s) == whole
  {
    assert (whole + ".")[..|whole|] == whole;
  }

  lemma PointStays(s: string, t: string)
    requires DropZeros(s) == t && t != "" && t[|t| - 1] != '.'
    ensures StripTail(s) == t
  {
  }

  lemma LastIsDigit(tail: string, u: string, k: nat)
    requires AllDigits(tail) && tail == u + Zeros(k) && u != ""
    ensures u[|u| - 1] != '.'
  {
    assert tail[|u| - 1] == u[|u| - 1];
    assert tail[|u| - 1] in tail;
  }

  lemma LastOf(a: string, u: string)
    ensures u != "" ==> (a + u)[|a + u| - 1] == u[|u| - 1]
    ensures u == "" ==> a + u == a
  {
  }

  // ---- round trips -------------------------------------------------------------------------------

  /** A numeral with or without a fraction, taken apart again. */
  lemma PartsOf(whole: string, fraction: string)
    requires Numeral(whole) && AllDigits(fraction)
    ensures Whole(whole) == whole && Fraction(whole) == ""
    ensures Whole(whole + "." + fraction) == whole && Fraction(whole + "." + fraction) == fraction
  {
    forall i | 0 <= i < |whole| ensures whole[i] != '.' { assert whole[i] in whole; }
    var s := whole + "." + fraction;
    assert s[|whole|] == '.';
    assert forall i | 0 <= i < |whole| :: s[i] == whole[i];
    assert Point(s) == |whole| && Point(whole) == |whole|;
    assert s[..|whole|] == whole && s[|whole| + 1..] == fraction;
  }

  /** The canonical text of a numeral and a full tail reads back as their number. */
  lemma StrippedReads(whole: string, tail: string, digits: nat)
    requires Numeral(whole) && AllDigits(tail) && |tail| == digits >= 1
    ensures var s := StripTail(whole + "." + tail);
            WellFormed(s, digits) && Reading(s, digits) == Val(whole) * Pow10(digits) + Val(tail)
  {
    StripPointed(whole, tail);
    SpelledReads(whole, DropZeros(tail), tail, digits);
  }

  lemma SpelledReads(whole: string, u: string, tail: string, digits: nat)
    requires Numeral(whole) && AllDigits(tail) && |tail| == digits && u == DropZeros(tail)
    ensures var s := Spelled(whole, u);
            WellFormed(s, digits) && Reading(s, digits) == Val(whole) * Pow10(digits) + Val(tail)
  {
    DropZerosShape(tail);
    PrefixDigits(u, Zeros(|tail| - |u|));
    PartsOf(whole, u);
    PadOfPrefix(u, digits);
    ReadsAs(Spelled(whole, u), whole, u, digits);
  }

  lemma PadOfPrefix(u: string, n: nat)
    requires |u| <= n
    ensures PadEnd(u, n) == u + Zeros(n - |u|)
  {
    if |u| == n { assert u + Zeros(0) == u; }
  }

  lemma ReadsAs(s: string, whole: string, fraction: string, digits: nat)
    requires Whole(s) == whole && Fraction(s) == fraction && (Point(s) < |s| ==> fraction != "")
    requires Numeral(whole) && AllDigits(fraction) && |fraction| <= digits && AllDigits(PadEnd(fraction, digits))
    ensures WellFormed(s, digits)
    ensures Reading(s, digits) == Val(whole) * Pow10(digits) + Val(PadEnd(fraction, digits))
  {
  }

  lemma PrefixDigits(a: string, b: string)
    requires AllDigits(a + b)
    ensures AllDigits(a)
  {
    forall i | 0 <= i < |a| ensures IsDigit(a[i]) { assert (a + b)[i] == a[i]; }
  }

  /** What `format` prints always reads back as the number. */
  lemma FormatReads(v: nat, digits: nat)
    requires digits >= 1 && v <= MAX_SAFE
    ensures WellFormed(Format(v, digits), digits) && Reading(Format(v, digits), digits) == v
  {
    var whole, tail := PaddedSplits(v, digits);
    PointedSplit(whole, tail, digits);
    StrippedReads(whole, tail, digits);
  }

  lemma PointedSplit(whole: string, tail: string, digits: nat)
    requires |tail| == digits && whole != ""
    ensures Pointed(whole + tail, digits) == StripTail(whole + "." + tail)
  {
    var s := whole + tail;
    assert s[..|s| - digits] == whole && s[|s| - digits..] == tail;
  }

  lemma FixedOfFormat(v: nat, digits: nat)
    requires digits >= 1
    ensures 0 < v <= MAX_SAFE ==> Fixed(Format(v, digits), digits, MAX_SAFE) == Some(v)
    ensures v == 0 || v > MAX_SAFE ==> Fixed(Format(v, digits), digits, MAX_SAFE) == None
  {
    if v <= MAX_SAFE {
      FormatReads(v, digits);
    } else {
      var s := "—";
      assert Point(s) == 1;
      assert s[0] in Whole(s) && !IsDigit(s[0]);
    }
  }

  /** And `format` of an accepted text is that text without idle zeros. */
  lemma FormatOfFixed(s: string, digits: nat)
    requires digits >= 1 && Fixed(s, digits, MAX_SAFE).Some?
    ensures Format(Fixed(s, digits, MAX_SAFE).value, digits) == Shortest(s)
  {
    DigitsAfter(Fraction(s), digits);
    PadKeepsStripped(Fraction(s), digits);
    FormatOfParts(Whole(s), Fraction(s), PadEnd(Fraction(s), digits), Reading(s, digits), digits);
    Rejoined(s);
    if Point(s) < |s| { StripPointed(Whole(s), Fraction(s)); }
  }

  lemma Rejoined(s: string)
    ensures s == if Point(s) < |s| then Whole(s) + "." + Fraction(s) else Whole(s)
  {
    if Point(s) < |s| { CutAt(s, Point(s)); }
  }

  lemma CutAt(s: string, i: nat)
    requires i < |s|
    ensures s == s[..i] + [s[i]] + s[i + 1..]
  {
  }

  lemma PadKeepsStripped(fraction: string, digits: nat)
    ensures DropZeros(PadEnd(fraction, digits)) == DropZeros(fraction)
  {
    if |fraction| < digits { DropZerosAfter(fraction, digits - |fraction|); }
  }

  lemma FormatOfParts(whole: string, fraction: string, tail: string, v: nat, digits: nat)
    requires Numeral(whole) && AllDigits(tail) && |tail| == digits >= 1 && DropZeros(tail) == DropZeros(fraction)
    requires v == Val(whole) * Pow10(digits) + Val(tail) && v <= MAX_SAFE
    ensures Format(v, digits) == Spelled(whole, DropZeros(fraction))
  {
    PaddedIsUnique(v, digits, whole, tail);
    PointedSplit(whole, tail, digits);
    StripPointed(whole, tail);
  }

  /** So two accepted texts denote the same amount exactly when they differ in idle zeros. */
  lemma SameAmount(a: string, b: string, digits: nat)
    requires digits >= 1 && Fixed(a, digits, MAX_SAFE).Some? && Fixed(b, digits, MAX_SAFE).Some?
    ensures Fixed(a, digits, MAX_SAFE) == Fixed(b, digits, MAX_SAFE) <==> Shortest(a) == Shortest(b)
  {
    FormatOfFixed(a, digits);
    FormatOfFixed(b, digits);
    FixedOfFormat(Fixed(a, digits, MAX_SAFE).value, digits);
    FixedOfFormat(Fixed(b, digits, MAX_SAFE).value, digits);
  }

  // ---- what is accepted ---------------------------------------------------------------------------

  /** A lone zero, or digits that do not begin with one. */
  predicate IsNumeral(s: string) {
    |s| >= 1 && (forall i | 0 <= i < |s| :: '0' <= s[i] <= '9') && (s[0] == '0' ==> |s| == 1)
  }

  predicate IsFraction(s: string, digits: nat) {
    1 <= |s| <= digits && forall i | 0 <= i < |s| :: '0' <= s[i] <= '9'
  }

  lemma NumeralIs(s: string)
    ensures Numeral(s) <==> IsNumeral(s)
  {
    forall i | 0 <= i < |s| ensures s[i] in s {}
    if |s| == 1 && s[0] == '0' { assert s == "0"; }
  }

  lemma PaddedValue(fraction: string, digits: nat)
    requires AllDigits(fraction) && |fraction| <= digits
    ensures AllDigits(PadEnd(fraction, digits))
    ensures Val(PadEnd(fraction, digits)) == Val(fraction) * Pow10(digits - |fraction|)
  {
    PadOfPrefix(fraction, digits);
    ZerosDenoteNothing(digits - |fraction|);
    ValConcat(fraction, Zeros(digits - |fraction|));
  }

  /** A numeral is accepted for its number of whole units, if that is positive and not too large. */
  lemma WholeAccepted(whole: string, digits: nat, max: nat)
    requires IsNumeral(whole)
    ensures AllDigits(whole)
    ensures Fixed(whole, digits, max) ==
            var v := Val(whole) * Pow10(digits); if 0 < v <= max then Some(v) else None
  {
    NumeralIs(whole);
    WholeReads(whole, digits);
  }

  lemma WholeReads(whole: string, digits: nat)
    requires Numeral(whole)
    ensures WellFormed(whole, digits) && Reading(whole, digits) == Val(whole) * Pow10(digits)
  {
    PartsOf(whole, "");
    NoTail(whole);
    NothingPadded(digits);
    ReadsAs(whole, whole, "", digits);
  }

  lemma NothingPadded(digits: nat)
    ensures AllDigits(PadEnd("", digits)) && Val(PadEnd("", digits)) == 0
  {
    PaddedValue("", digits);
  }

  lemma NoTail(whole: string)
    requires Whole(whole) == whole
    ensures Point(whole) == |whole|
  {
  }

  /** A numeral, a point and one to `digits` digits are accepted for the units and the parts. */
  lemma PointAccepted(whole: string, fraction: string, digits: nat, max: nat)
    requires IsNumeral(whole) && IsFraction(fraction, digits)
    ensures AllDigits(whole) && AllDigits(fraction)
    ensures Fixed(whole + "." + fraction, digits, max) ==
            var v := Val(whole) * Pow10(digits) + Val(fraction) * Pow10(digits - |fraction|);
            if 0 < v <= max then Some(v) else None
  {
    NumeralIs(whole);
    PartsOf(whole, fraction);
    PaddedValue(fraction, digits);
    ReadsAs(whole + "." + fraction, whole, fraction, digits);
  }

  /** And nothing else is accepted. */
  lemma NothingElseAccepted(s: string, digits: nat, max: nat)
    requires Fixed(s, digits, max).Some?
    ensures IsNumeral(s)
            || exists whole, fraction :: IsNumeral(whole) && IsFraction(fraction, digits) && s == whole + "." + fraction
  {
    Rejoined(s);
    NumeralIs(Whole(s));
    forall i | 0 <= i < |Fraction(s)| ensures Fraction(s)[i] in Fraction(s) {}
    if Point(s) < |s| { assert IsFraction(Fraction(s), digits); }
  }
}
