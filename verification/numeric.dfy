/**
 * The number handling of the quotation form: every amount is kept as text and
 * read back with `parseFloat(s) || 0`, and quote numbers are six-digit
 * integers printed with `toString()`.
 */
module Numeric {
  import opened Optional

  predicate IsDigit(c: char) {
    '0' <= c <= '9'
  }

  /** The white space `parseFloat` skips before the number (ASCII subset). */
  predicate IsSpace(c: char) {
    c == ' ' || c == '\t' || c == '\n' || c == '\r' || c == '\U{0B}' || c == '\U{0C}'
  }

  predicate AllDigits(s: string) {
    forall i :: 0 <= i < |s| ==> IsDigit(s[i])
  }

  function DigitValue(c: char): (d: nat)
    requires IsDigit(c)
    ensures d < 10
  {
    c as int - '0' as int
  }

  function DigitChar(d: nat): (c: char)
    requires d < 10
    ensures IsDigit(c) && DigitValue(c) == d
  {
    ('0' as int + d) as char
  }

  function Pow10(n: nat): (p: nat)
    ensures p >= 1
  {
    if n == 0 then 1 else 10 * Pow10(n - 1)
  }

  /** Digits read most significant first onto `acc`: "42" onto 1 is 142. */
  function DigitsFrom(acc: nat, s: string): nat
    requires AllDigits(s)
    decreases |s|
  {
    if s == [] then acc else DigitsFrom(acc * 10 + DigitValue(s[0]), s[1..])
  }

  /** The value of a string of decimal digits. */
  function DigitsValue(s: string): nat
    requires AllDigits(s)
  {
    DigitsFrom(0, s)
  }

  /** One more digit at the end shifts the value left and adds the digit. */
  lemma {:induction false} DigitsFromSnoc(acc: nat, s: string, c: char)
    requires AllDigits(s) && IsDigit(c)
    ensures AllDigits(s + [c])
    ensures DigitsFrom(acc, s + [c]) == DigitsFrom(acc, s) * 10 + DigitValue(c)
    decreases |s|
  {
    assert forall i :: 0 <= i < |s| ==> (s + [c])[i] == s[i];
    if s != [] {
      assert (s + [c])[1..] == s[1..] + [c];
      DigitsFromSnoc(acc * 10 + DigitValue(s[0]), s[1..], c);
    }
  }

  /**
   * Where the left-to-right reading of a number stands: still in the leading
   * white space, in the whole digits after an optional sign, or in the digits
   * after the decimal point. `seen` records whether any digit has been read;
   * the fraction read so far is `digits / 10^count`.
   */
  datatype Stage =
    | Leading
    | Whole(negative: bool, whole: nat, seen: bool)
    | Fraction(negative: bool, whole: nat, digits: nat, count: nat, seen: bool)

  function StageRank(st: Stage): nat {
    match st
    case Leading => 2
    case Whole(_, _, _) => 1
    case Fraction(_, _, _, _, _) => 0
  }

  function Signed(negative: bool, v: real): real {
    if negative then -v else v
  }

  /** `v` moved `count` decimal places to the right of the point. */
  function Shift(v: real, count: nat): real {
    if count == 0 then v else Shift(v, count - 1) / 10.0
  }

  lemma {:induction false} ShiftIsDivision(v: real, count: nat)
    ensures Shift(v, count) == v / Pow10(count) as real
  {
    if count > 0 {
      ShiftIsDivision(v, count - 1);
      var p := Pow10(count - 1) as real;
      assert v / p / 10.0 == v / (10.0 * p);
    }
  }

  /** The number read when the text stops fitting the grammar: none unless a digit was read. */
  function Finish(st: Stage): Option<real> {
    match st
    case Leading => None
    case Whole(negative, whole, seen) =>
      if seen then Some(Signed(negative, whole as real)) else None
    case Fraction(negative, whole, digits, count, seen) =>
      if seen then Some(Signed(negative, whole as real + Shift(digits as real, count))) else None
  }

  /** The reading of `s` from stage `st` on, one character at a time. */
  function ParseFrom(s: string, st: Stage): Option<real>
    decreases |s|, StageRank(st)
  {
    match st
    case Leading =>
      if s == [] then None
      else if IsSpace(s[0]) then ParseFrom(s[1..], Leading)
      else if s[0] == '-' then ParseFrom(s[1..], Whole(true, 0, false))
      else if s[0] == '+' then ParseFrom(s[1..], Whole(false, 0, false))
      else ParseFrom(s, Whole(false, 0, false))
    case Whole(negative, whole, seen) =>
      if s != [] && IsDigit(s[0]) then ParseFrom(s[1..], Whole(negative, whole * 10 + DigitValue(s[0]), true))
      else if s != [] && s[0] == '.' then ParseFrom(s[1..], Fraction(negative, whole, 0, 0, seen))
      else Finish(st)
    case Fraction(negative, whole, digits, count, seen) =>
      if s != [] && IsDigit(s[0]) then
        ParseFrom(s[1..], Fraction(negative, whole, digits * 10 + DigitValue(s[0]), count + 1, true))
      else Finish(st)
  }

  /**
   * The decimal reading of `parseFloat`: after leading white space, an optional
   * sign, digits, and optionally a point and more digits. Like `parseFloat` it
   * reads the longest such prefix and ignores what follows; without a single
   * digit there is no number (`NaN` in the source, `None` here).
   */
  function Parse(s: string): Option<real> {
    ParseFrom(s, Leading)
  }

  /** `parseFloat(s) || 0`: the parsed value, or zero when `s` holds no number. */
  function Num(s: string): real {
    match Parse(s)
    case Some(v) => v
    case None => 0.0
  }

  /** `Number.prototype.toString()` for a non-negative integer. */
  function NatToString(n: nat): (s: string)
    ensures |s| >= 1 && AllDigits(s)
    ensures s[0] == '0' ==> n == 0
  {
    if n < 10 then [DigitChar(n)]
    else
      var s := NatToString(n / 10) + [DigitChar(n % 10)];
      assert s[..|s| - 1] == NatToString(n / 10);
      s
  }

  lemma {:induction false} DigitsValueOfNatToString(n: nat)
    ensures DigitsValue(NatToString(n)) == n
  {
    if n < 10 {
      var s := NatToString(n);
      assert s[1..] == [];
      assert DigitsFrom(0, s) == DigitsFrom(DigitValue(s[0]), []);
    } else {
      var s := NatToString(n);
      var front := NatToString(n / 10);
      assert s == front + [DigitChar(n % 10)];
      DigitsFromSnoc(0, front, DigitChar(n % 10));
      DigitsValueOfNatToString(n / 10);
    }
  }

  /** Whole digits read on from `whole` leave the reading at their value. */
  lemma {:induction false} ParseWholeDigits(s: string, negative: bool, whole: nat, seen: bool)
    requires AllDigits(s)
    ensures ParseFrom(s, Whole(negative, whole, seen)) == Finish(Whole(negative, DigitsFrom(whole, s), seen || s != []))
    decreases |s|
  {
    if s != [] {
      var rest := s[1..];
      assert forall i :: 0 <= i < |rest| ==> rest[i] == s[i + 1];
      ParseWholeDigits(rest, negative, whole * 10 + DigitValue(s[0]), true);
    }
  }

  lemma ParseDigits(s: string)
    requires |s| >= 1 && AllDigits(s)
    ensures Parse(s) == Some(DigitsValue(s) as real)
  {
    assert !IsSpace(s[0]) && s[0] != '-' && s[0] != '+';
    ParseWholeDigits(s, false, 0, false);
  }

  /** Printing a count and parsing it back gives the count. */
  lemma ParseNatToString(n: nat)
    ensures Parse(NatToString(n)) == Some(n as real)
    ensures Num(NatToString(n)) == n as real
  {
    ParseDigits(NatToString(n));
    DigitsValueOfNatToString(n);
  }

  /** The empty field parses to nothing, so it counts as zero. */
  lemma ParseEmpty()
    ensures Parse("") == None
    ensures Num("") == 0.0
  {
  }

  /** From a stage where no digit has been read, text without digits reads as nothing. */
  lemma {:induction false} ParseFromNoDigits(s: string, st: Stage)
    requires forall i :: 0 <= i < |s| ==> !IsDigit(s[i])
    requires !st.Leading? ==> !st.seen
    ensures ParseFrom(s, st) == None
    decreases |s|, StageRank(st)
  {
    if s != [] {
      var rest := s[1..];
      assert forall i :: 0 <= i < |rest| ==> rest[i] == s[i + 1];
      match st
      case Leading =>
        if IsSpace(s[0]) {
          ParseFromNoDigits(rest, Leading);
        } else if s[0] == '-' {
          ParseFromNoDigits(rest, Whole(true, 0, false));
        } else if s[0] == '+' {
          ParseFromNoDigits(rest, Whole(false, 0, false));
        } else {
          ParseFromNoDigits(s, Whole(false, 0, false));
        }
      case Whole(negative, whole, _) =>
        if s[0] == '.' {
          ParseFromNoDigits(rest, Fraction(negative, whole, 0, 0, false));
        }
      case Fraction(_, _, _, _, _) =>
    }
  }

  /** Text without a single digit (for instance "abc") counts as zero. */
  lemma ParseNoDigits(s: string)
    requires forall i :: 0 <= i < |s| ==> !IsDigit(s[i])
    ensures Parse(s) == None
    ensures Num(s) == 0.0
  {
    ParseFromNoDigits(s, Leading);
  }

  /** Whole digits followed by any text: the digits are read and the reading goes on with the text. */
  lemma {:induction false} ParseWholeThen(w: string, t: string, negative: bool, whole: nat, seen: bool)
    requires AllDigits(w)
    ensures ParseFrom(w + t, Whole(negative, whole, seen))
         == ParseFrom(t, Whole(negative, DigitsFrom(whole, w), seen || w != []))
    decreases |w|
  {
    if w == [] {
      assert w + t == t;
    } else {
      var rest := w[1..];
      assert forall i :: 0 <= i < |rest| ==> rest[i] == w[i + 1];
      assert (w + t)[0] == w[0] && (w + t)[1..] == rest + t;
      ParseWholeThen(rest, t, negative, whole * 10 + DigitValue(w[0]), true);
    }
  }

  /** Fraction digits followed by any text: each digit is one more decimal place. */
  lemma {:induction false} ParseFractionThen(f: string, t: string, negative: bool, whole: nat, digits: nat, count: nat, seen: bool)
    requires AllDigits(f)
    ensures ParseFrom(f + t, Fraction(negative, whole, digits, count, seen))
         == ParseFrom(t, Fraction(negative, whole, DigitsFrom(digits, f), count + |f|, seen || f != []))
    decreases |f|
  {
    if f == [] {
      assert f + t == t;
    } else {
      var rest := f[1..];
      assert forall i :: 0 <= i < |rest| ==> rest[i] == f[i + 1];
      assert (f + t)[0] == f[0] && (f + t)[1..] == rest + t;
      ParseFractionThen(rest, t, negative, whole, digits * 10 + DigitValue(f[0]), count + 1, true);
    }
  }

  /** Leading white space is skipped: it never changes the number read. */
  lemma {:induction false} ParseSkipsSpace(sp: string, t: string)
    requires forall i :: 0 <= i < |sp| ==> IsSpace(sp[i])
    ensures Parse(sp + t) == Parse(t)
    decreases |sp|
  {
    if sp == [] {
      assert sp + t == t;
    } else {
      var rest := sp[1..];
      assert forall i :: 0 <= i < |rest| ==> rest[i] == sp[i + 1];
      assert (sp + t)[0] == sp[0] && (sp + t)[1..] == rest + t;
      ParseSkipsSpace(rest, t);
    }
  }

  /** The reading with its sign flipped; no number stays no number. */
  function Negate(r: Option<real>): Option<real> {
    match r
    case None => None
    case Some(v) => Some(-v)
  }

  /** After the sign, a negative reading is the positive reading negated. */
  lemma {:induction false} ParseFromNegative(s: string, st: Stage)
    requires !st.Leading?
    ensures ParseFrom(s, st.(negative := true)) == Negate(ParseFrom(s, st.(negative := false)))
    decreases |s|, StageRank(st)
  {
    match st
    case Whole(_, whole, seen) =>
      if s != [] && IsDigit(s[0]) {
        ParseFromNegative(s[1..], Whole(false, whole * 10 + DigitValue(s[0]), true));
      } else if s != [] && s[0] == '.' {
        ParseFromNegative(s[1..], Fraction(false, whole, 0, 0, seen));
      }
    case Fraction(_, whole, digits, count, seen) =>
      if s != [] && IsDigit(s[0]) {
        ParseFromNegative(s[1..], Fraction(false, whole, digits * 10 + DigitValue(s[0]), count + 1, true));
      }
  }

  /** A leading '-' negates the number that follows and a leading '+' leaves it as it is. */
  lemma ParseSign(t: string)
    requires t == [] || !(IsSpace(t[0]) || t[0] == '-' || t[0] == '+')
    ensures Parse("-" + t) == Negate(Parse(t))
    ensures Parse("+" + t) == Parse(t)
  {
    assert ("-" + t)[0] == '-' && ("-" + t)[1..] == t;
    assert ("+" + t)[0] == '+' && ("+" + t)[1..] == t;
    ParseFromNegative(t, Whole(false, 0, false));
  }

  /** A second sign after the first leaves no number ("+-5", "--1"). */
  lemma ParseSecondSign(a: char, b: char, t: string)
    requires (a == '-' || a == '+') && (b == '-' || b == '+')
    ensures Parse([a, b] + t) == None
  {
    var s := [a, b] + t;
    var rest := s[1..];
    assert s[0] == a && rest[0] == b;
    assert ParseFrom(rest, Whole(a == '-', 0, false)) == None;
  }

  /** Text that opens with a digit or the point is read from the whole-number stage, unsigned. */
  lemma ParseStartsWhole(s: string)
    requires s != [] && (IsDigit(s[0]) || s[0] == '.')
    ensures Parse(s) == ParseFrom(s, Whole(false, 0, false))
  {
    assert !IsSpace(s[0]) && s[0] != '-' && s[0] != '+';
  }

  /** No number opens at the start of `t`: neither a digit nor a point followed by a digit. */
  predicate NoNumberAhead(t: string) {
    t == [] || (!IsDigit(t[0]) && (t[0] != '.' || |t| == 1 || !IsDigit(t[1])))
  }

  /** Past the sign, text that does not open a number gives none, whatever digits come later. */
  lemma ParseNoNumberAfterSign(t: string, negative: bool)
    requires NoNumberAhead(t)
    ensures ParseFrom(t, Whole(negative, 0, false)) == None
  {
    if t != [] && t[0] == '.' {
      assert ParseFrom(t, Whole(negative, 0, false)) == ParseFrom(t[1..], Fraction(negative, 0, 0, 0, false));
    }
  }

  /** Text opening with any other character ("$500", "x1") gives no number. */
  lemma ParseBadStart(c: char, t: string)
    requires !IsDigit(c) && c != '.' && !IsSpace(c) && c != '-' && c != '+'
    ensures Parse([c] + t) == None
  {
    assert ([c] + t)[0] == c;
    ParseNoNumberAfterSign([c] + t, false);
  }

  /** A sign not followed by a number gives no number ("- 5", "-x", "+.e"). */
  lemma ParseSignNoNumber(c: char, t: string)
    requires c == '-' || c == '+'
    requires NoNumberAhead(t)
    ensures Parse([c] + t) == None
  {
    assert ([c] + t)[0] == c && ([c] + t)[1..] == t;
    ParseNoNumberAfterSign(t, c == '-');
  }

  /** A point not followed by a digit gives no number (".", ".x5"). */
  lemma ParsePointNoDigit(t: string)
    requires t == [] || !IsDigit(t[0])
    ensures Parse(['.'] + t) == None
  {
    var s := ['.'] + t;
    assert s[0] == '.' && s[1..] == t;
    ParseStartsWhole(s);
    ParseNoNumberAfterSign(s, false);
  }

  /** Digits that do not open the text are never read: "$500", "- 5" and ".x5" count as 0. */
  lemma ParseNoNumberExamples()
    ensures Parse("$500") == None && Num("$500") == 0.0
    ensures Parse("- 5") == None && Num("- 5") == 0.0
    ensures Parse(".x5") == None && Num(".x5") == 0.0
  {
    ParseBadStart('$', "500");
    assert "$500" == ['$'] + "500";
    ParseSignNoNumber('-', " 5");
    assert "- 5" == ['-'] + " 5";
    ParsePointNoDigit("x5");
    assert ".x5" == ['.'] + "x5";
  }

  /** Whole digits end the number at the first character that is neither a digit nor a point ("12abc" is 12). */
  lemma ParseInteger(w: string, t: string)
    requires |w| >= 1 && AllDigits(w)
    requires t == [] || (!IsDigit(t[0]) && t[0] != '.')
    ensures Parse(w + t) == Some(DigitsValue(w) as real)
  {
    assert (w + t)[0] == w[0];
    ParseStartsWhole(w + t);
    ParseWholeThen(w, t, false, 0, false);
  }

  /** The fraction ends at the first character that is not a digit, with the digits read so far. */
  lemma ParseFractionEnd(t: string, negative: bool, whole: nat, digits: nat, count: nat, seen: bool)
    requires t == [] || !IsDigit(t[0])
    ensures ParseFrom(t, Fraction(negative, whole, digits, count, seen)) == Finish(Fraction(negative, whole, digits, count, seen))
  {
  }

  /** From the point on: the fraction digits, then any text that does not start with a digit. */
  lemma ParsePointThen(f: string, t: string, negative: bool, whole: nat, seen: bool)
    requires AllDigits(f) && (seen || f != [])
    requires t == [] || !IsDigit(t[0])
    ensures ParseFrom(['.'] + (f + t), Whole(negative, whole, seen))
         == Finish(Fraction(negative, whole, DigitsValue(f), |f|, true))
  {
    var point := ['.'] + (f + t);
    assert point[0] == '.' && point[1..] == f + t;
    assert ParseFrom(point, Whole(negative, whole, seen)) == ParseFrom(f + t, Fraction(negative, whole, 0, 0, seen));
    ParseFractionThen(f, t, negative, whole, 0, 0, seen);
    ParseFractionEnd(t, negative, whole, DigitsValue(f), |f|, seen || f != []);
  }

  /** Whole digits, the point, fraction digits and a tail that does not start with a digit. */
  lemma ParseWholeThenPoint(w: string, f: string, t: string, negative: bool, whole: nat, seen: bool)
    requires AllDigits(w) && AllDigits(f) && (seen || |w| + |f| >= 1)
    requires t == [] || !IsDigit(t[0])
    ensures ParseFrom(w + (['.'] + (f + t)), Whole(negative, whole, seen))
         == Finish(Fraction(negative, DigitsFrom(whole, w), DigitsValue(f), |f|, true))
  {
    ParseWholeThen(w, ['.'] + (f + t), negative, whole, seen);
    ParsePointThen(f, t, negative, DigitsFrom(whole, w), seen || w != []);
  }

  /** A decimal read stage by stage: it ends in the fraction stage with both digit runs read. */
  lemma ParseDecimalStages(w: string, f: string, t: string)
    requires AllDigits(w) && AllDigits(f) && |w| + |f| >= 1
    requires t == [] || !IsDigit(t[0])
    ensures Parse(w + "." + f + t) == Finish(Fraction(false, DigitsValue(w), DigitsValue(f), |f|, true))
  {
    var s := w + (['.'] + (f + t));
    assert w + "." + f + t == s by {
      assert w + "." + f == w + (['.'] + f);
    }
    assert s[0] == if w == [] then '.' else w[0];
    ParseStartsWhole(s);
    ParseWholeThenPoint(w, f, t, false, 0, false);
  }

  /**
   * A decimal "w.f" with at least one digit on either side of the point, and
   * any text after it that does not start with a digit: whole part plus the
   * fraction digits over their power of ten ("12.50", "5.", ".5", "2.5kg").
   */
  lemma ParseDecimal(w: string, f: string, t: string)
    requires AllDigits(w) && AllDigits(f) && |w| + |f| >= 1
    requires t == [] || !IsDigit(t[0])
    ensures Parse(w + "." + f + t) == Some(DigitsValue(w) as real + DigitsValue(f) as real / Pow10(|f|) as real)
  {
    ParseDecimalStages(w, f, t);
    assert Finish(Fraction(false, DigitsValue(w), DigitsValue(f), |f|, true))
        == Some(DigitsValue(w) as real + Shift(DigitsValue(f) as real, |f|));
    ShiftIsDivision(DigitsValue(f) as real, |f|);
  }

  /** A price as it is typed: "12.50" is 12.5. */
  lemma ParsePriceExample()
    ensures Parse("12.50") == Some(12.5)
  {
    ParseDecimal("12", "50", "");
    assert "12.50" == "12" + "." + "50" + "";
  }

  /** A unit after the number is ignored: "3.25x" is 3.25. */
  lemma ParseUnitExample()
    ensures Parse("3.25x") == Some(3.25)
  {
    ParseDecimal("3", "25", "x");
    assert "3" + "." + "25" + "x" == "3.25x";
  }

  /** Leading white space and a sign before it: " -3.25x" is -3.25. */
  lemma ParseSignedExample()
    ensures Parse(" -3.25x") == Some(-3.25)
  {
    ParseUnitExample();
    ParseStartsWhole("3.25x");
    assert Parse(" -3.25x") == ParseFrom("3.25x", Whole(true, 0, false));
    ParseFromNegative("3.25x", Whole(false, 0, false));
  }

  /** Only the numeric prefix counts: "12abc" is 12, and "+-5" is no number, so 0. */
  lemma ParsePrefixExamples()
    ensures Parse("12abc") == Some(12.0)
    ensures Parse("+-5") == None && Num("+-5") == 0.0
  {
    ParseInteger("12", "abc");
    assert "12abc" == "12" + "abc";
    ParseSecondSign('+', '-', "5");
    assert "+-5" == ['+', '-'] + "5";
  }

  /** `Math.floor(100000 + r * 900000)` for `r` in [0, 1): a six-digit integer. */
  function QuoteSerial(r: real): (n: nat)
    requires 0.0 <= r < 1.0
    ensures 100000 <= n <= 999999
  {
    (100000.0 + r * 900000.0).Floor
  }

  lemma {:induction false} NatToStringLength(n: nat, k: nat)
    requires k >= 1 && Pow10(k - 1) <= n < Pow10(k)
    ensures |NatToString(n)| == k
  {
    if k > 1 {
      NatToStringLength(n / 10, k - 1);
    }
  }

  /**
   * A fresh quote number: the text of a random six-digit serial. It has exactly
   * six digits, no leading zero, and reads back as a number in [100000, 999999].
   */
  function FreshQuoteNumber(r: real): (q: string)
    requires 0.0 <= r < 1.0
    ensures |q| == 6 && AllDigits(q) && q[0] != '0'
    ensures Parse(q).Some? && 100000.0 <= Parse(q).value <= 999999.0
  {
    var n := QuoteSerial(r);
    assert Pow10(5) == 100000 && Pow10(6) == 1000000 by {
      assert Pow10(1) == 10 && Pow10(2) == 100 && Pow10(3) == 1000 && Pow10(4) == 10000;
    }
    NatToStringLength(n, 6);
    ParseNatToString(n);
    NatToString(n)
  }
}
