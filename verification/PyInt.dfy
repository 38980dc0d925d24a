/** Python's str(n) and int(text), for numbers written with the digits 0 to 9. */
module PyInt {
  import opened Wrappers
  import opened PyText

  predicate IsDigit(c: char) {
    '0' <= c <= '9'
  }

  function DigitValue(c: char): (d: nat)
    requires IsDigit(c)
  {
    (c - '0') as nat
  }

  function Str(n: nat): (s: string)
    ensures s != ""
  {
    var last := ['0' + (n % 10) as char];
    if n < 10 then last else Str(n / 10) + last
  }

  // Digits, with single underscores allowed between them.
  function ParseDigits(s: string): Option<nat> {
    if s == "" || !IsDigit(s[|s| - 1]) then None
    else if |s| == 1 then Some(DigitValue(s[0]))
    else
      var front := if |s| > 2 && s[|s| - 2] == '_' then s[..|s| - 2] else s[..|s| - 1];
      match ParseDigits(front)
      case None => None
      case Some(n) => Some(n * 10 + DigitValue(s[|s| - 1]))
  }

  function ParseSigned(s: string): Option<int> {
    var signed := s != "" && s[0] in {'+', '-'};
    match ParseDigits(if signed then s[1..] else s)
    case None => None
    case Some(n) => var value: int := n; Some(if signed && s[0] == '-' then -value else value)
  }

  // None is ValueError.
  function ParseInt(text: string): Option<int> {
    ParseSigned(Strip(text))
  }

  lemma {:induction false} DigitsReadBack(n: nat)
    ensures forall i | 0 <= i < |Str(n)| :: IsDigit(Str(n)[i])
    ensures ParseDigits(Str(n)) == Some(n)
  {
    var s := Str(n);
    if n >= 10 {
      DigitsReadBack(n / 10);
      assert s[..|s| - 1] == Str(n / 10);
    }
  }

  lemma {:induction false} NoLeadingZero(n: nat)
    requires n > 0
    ensures Str(n)[0] != '0'
  {
    if n >= 10 { NoLeadingZero(n / 10); }
  }

  lemma NumberReadsBack(n: nat)
    ensures ParseInt(Str(n)) == Some(n)
    ensures Strip(Str(n)) == Str(n) && ',' !in Str(n) && '\n' !in Str(n)
    ensures (forall i | 0 <= i < |Str(n)| :: IsDigit(Str(n)[i])) && (n > 0 ==> Str(n)[0] != '0') && (n == 0 ==> Str(n) == "0")
  {
    DigitsReadBack(n);
    if n > 0 { NoLeadingZero(n); }
    StripKeeps(Str(n));
  }

  // ---------- What int reads ----------

  // Digits, with underscores between two of them only.
  predicate IsNumeral(s: string) {
    && s != "" && IsDigit(s[0]) && IsDigit(s[|s| - 1])
    && forall i | 0 <= i < |s| :: IsDigit(s[i]) || (s[i] == '_' && 0 < i < |s| - 1 && IsDigit(s[i - 1]) && IsDigit(s[i + 1]))
  }

  // Read from the left, n being what was read before.
  function ValueFrom(n: nat, s: string): nat
    decreases |s|
  {
    if s == "" then n
    else if IsDigit(s[0]) then ValueFrom(10 * n + DigitValue(s[0]), s[1..])
    else ValueFrom(n, s[1..])
  }

  lemma {:induction false} ValueFromMore(n: nat, s: string, last: string)
    ensures ValueFrom(n, s + last) == ValueFrom(ValueFrom(n, s), last)
    decreases |s|
  {
    if s == "" {
      assert s + last == last;
    } else {
      assert (s + last)[0] == s[0] && (s + last)[1..] == s[1..] + last;
      ValueFromMore(if IsDigit(s[0]) then 10 * n + DigitValue(s[0]) else n, s[1..], last);
    }
  }

  lemma ValueOfLast(front: string, gap: string, digit: char)
    requires gap in {"", "_"} && IsDigit(digit)
    ensures ValueFrom(0, front + gap + [digit]) == 10 * ValueFrom(0, front) + DigitValue(digit)
  {
    var n := ValueFrom(0, front);
    assert front + gap + [digit] == front + (gap + [digit]);
    ValueFromMore(0, front, gap + [digit]);
    var one := [digit];
    assert one[1..] == "" && ValueFrom(n, one) == 10 * n + DigitValue(digit);
    if gap == "_" {
      assert (gap + one)[0] == '_' && (gap + one)[1..] == one;
    } else {
      assert gap + one == one;
    }
  }

  // What comes before the last digit and the underscore in front of it, if any.
  function FrontOf(s: string): string
    requires |s| > 1
  {
    if |s| > 2 && s[|s| - 2] == '_' then s[..|s| - 2] else s[..|s| - 1]
  }

  lemma NumeralFront(s: string)
    requires |s| > 1
    ensures IsNumeral(s) <==> IsDigit(s[|s| - 1]) && IsNumeral(FrontOf(s))
  {
    var front := FrontOf(s);
    assert forall i | 0 <= i < |front| :: front[i] == s[i];
    if IsDigit(s[|s| - 1]) && IsNumeral(front) {
      forall i | 0 <= i < |s|
        ensures IsDigit(s[i]) || (s[i] == '_' && 0 < i < |s| - 1 && IsDigit(s[i - 1]) && IsDigit(s[i + 1]))
      {
        if i < |front| { assert front[i] == s[i]; }
      }
    }
    if IsNumeral(s) {
      forall i | 0 <= i < |front|
        ensures IsDigit(front[i]) || (front[i] == '_' && 0 < i < |front| - 1 && IsDigit(front[i - 1]) && IsDigit(front[i + 1]))
      {
        assert s[i] == front[i];
      }
    }
  }

  lemma OneDigit(s: string)
    requires |s| == 1
    ensures ParseDigits(s) == if IsNumeral(s) then Some(ValueFrom(0, s)) else None
  {
    assert s[1..] == "";
    if IsDigit(s[0]) { assert ValueFrom(0, s) == DigitValue(s[0]); }
  }

  lemma LastDigit(s: string)
    requires |s| > 1 && IsDigit(s[|s| - 1])
    ensures ValueFrom(0, s) == 10 * ValueFrom(0, FrontOf(s)) + DigitValue(s[|s| - 1])
  {
    var front, gap := FrontOf(s), if |s| > 2 && s[|s| - 2] == '_' then "_" else "";
    assert s == front + gap + [s[|s| - 1]];
    ValueOfLast(front, gap, s[|s| - 1]);
  }

  lemma {:induction false} DigitsReadNumerals(s: string)
    ensures ParseDigits(s) == if IsNumeral(s) then Some(ValueFrom(0, s)) else None
    decreases |s|
  {
    if |s| == 1 {
      OneDigit(s);
    } else if |s| > 1 {
      NumeralFront(s);
      DigitsReadNumerals(FrontOf(s));
      if IsDigit(s[|s| - 1]) { LastDigit(s); }
    }
  }

  function Signed(sign: string, n: nat): int {
    if sign == "-" then 0 - n else n
  }

  // Blanks, a sign or none, a numeral, blanks.
  predicate SpellsInt(text: string, value: int, a: string, sign: string, numeral: string, b: string) {
    && text == a + (sign + numeral) + b && Blank(a) && Blank(b)
    && sign in {"", "+", "-"} && IsNumeral(numeral)
    && value == Signed(sign, ValueFrom(0, numeral))
  }

  lemma SignInFront(sign: string, numeral: string)
    requires sign in {"", "+", "-"} && IsNumeral(numeral)
    ensures var s := sign + numeral;
            && Tight(s) && s != ""
            && (sign == "" ==> s == numeral && s[0] !in {'+', '-'})
            && (sign != "" ==> s[1..] == numeral && s[0] == sign[0])
  {
    var s := sign + numeral;
    assert s[|s| - 1] == numeral[|numeral| - 1] && s[0] == if sign == "" then numeral[0] else sign[0];
  }

  lemma ParseOfSigned(sign: string, numeral: string)
    requires sign in {"", "+", "-"} && IsNumeral(numeral)
    ensures ParseSigned(sign + numeral) == Some(Signed(sign, ValueFrom(0, numeral)))
  {
    SignInFront(sign, numeral);
    DigitsReadNumerals(numeral);
  }

  lemma SpelledIntIsRead(text: string, value: int, a: string, sign: string, numeral: string, b: string)
    requires SpellsInt(text, value, a, sign, numeral, b)
    ensures ParseInt(text) == Some(value)
  {
    SignInFront(sign, numeral);
    StripOf(a, sign + numeral, b);
    ParseOfSigned(sign, numeral);
  }

  lemma ReadIntIsSpelled(text: string, value: int) returns (a: string, sign: string, numeral: string, b: string)
    requires ParseInt(text) == Some(value)
    ensures SpellsInt(text, value, a, sign, numeral, b)
  {
    var s := Strip(text);
    a, b := StripDrops(text);
    if s != "" && s[0] in {'+', '-'} {
      sign, numeral := [s[0]], s[1..];
    } else {
      sign, numeral := "", s;
    }
    assert s == sign + numeral;
    DigitsReadNumerals(numeral);
  }

  // int(text) is the number that text spells, and fails for any other text.
  lemma IntReadsWhatIsSpelled(text: string, value: int)
    ensures ParseInt(text) == Some(value) <==> exists a, sign, numeral, b :: SpellsInt(text, value, a, sign, numeral, b)
  {
    if ParseInt(text) == Some(value) {
      var a, sign, numeral, b := ReadIntIsSpelled(text, value);
    }
    if a, sign, numeral, b :| SpellsInt(text, value, a, sign, numeral, b) {
      SpelledIntIsRead(text, value, a, sign, numeral, b);
    }
  }
}
