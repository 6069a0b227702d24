/**
 Which texts are loop counts: strconv.Atoi after strings.TrimSpace, told by decimal
 numerals that are printed independently of how they are read.
 */
module Numerals {
  import opened Prelude
  import opened Blueprints

  // The decimal numeral of n: its last digit is n mod 10, the rest is the numeral of n / 10.
  function Numeral(n: nat): (s: string)
    ensures s != ""
  {
    (if n < 10 then "" else Numeral(n / 10)) + ["0123456789"[n % 10]]
  }

  predicate IsDigit(ch: char) {
    ch in "0123456789"
  }

  predicate Blank(s: string) {
    forall i :: 0 <= i < |s| ==> IsSpace(s[i])
  }

  lemma DigitRange(ch: char)
    ensures IsDigit(ch) <==> '0' <= ch <= '9'
    ensures IsDigit(ch) ==> !IsSpace(ch)
  {
    if '0' <= ch <= '9' {
      var i := ch as int - '0' as int;
      assert "0123456789"[i] as int == '0' as int + i;
      assert "0123456789"[i] == ch;
    }
  }

  lemma DigitAt(d: int)
    requires 0 <= d < 10
    ensures "0123456789"[d] as int - '0' as int == d && IsDigit("0123456789"[d])
  {
  }

  lemma {:induction false} NumeralDigits(n: nat)
    ensures forall i :: 0 <= i < |Numeral(n)| ==> IsDigit(Numeral(n)[i])
  {
    DigitAt(n % 10);
    if n >= 10 {
      NumeralDigits(n / 10);
    }
  }

  lemma {:induction false} DigitsNumeral(n: nat)
    ensures Digits(Numeral(n)) == Some(n)
  {
    hide Digits, IsDigit;
    if n < 10 {
      DigitsAppend("", 0, n);
      assert "" + ["0123456789"[n]] == Numeral(n);
    } else {
      DigitsNumeral(n / 10);
      DigitsAppend(Numeral(n / 10), n / 10, n % 10);
    }
  }

  // One more digit: ten times what was read, and the digit.
  lemma DigitsAppend(s: string, n: nat, d: nat)
    requires d < 10 && (if s == "" then n == 0 else Digits(s) == Some(n))
    ensures Digits(s + ["0123456789"[d]]) == Some(10 * n + d)
  {
    hide IsDigit;
    DigitAt(d);
    DigitRange("0123456789"[d]);
    var t := s + ["0123456789"[d]];
    assert t[..|t| - 1] == s && t[|t| - 1] == "0123456789"[d];
  }

  lemma {:induction false} DigitsRefuse(s: string, i: nat)
    requires i < |s| && !IsDigit(s[i])
    ensures Digits(s) == None
  {
    hide IsDigit;
    DigitRange(s[|s| - 1]);
    if i < |s| - 1 {
      DigitsRefuse(s[..|s| - 1], i);
    }
  }

  // ---- Trimming ------------------------------------------------------------------------------

  lemma {:induction false} TrimLeftBlank(left: string, s: string)
    requires Blank(left) && s != "" && !IsSpace(s[0])
    ensures TrimLeft(left + s) == s
  {
    hide IsSpace;
    if left == "" {
      assert left + s == s;
    } else {
      assert (left + s)[1..] == left[1..] + s;
      TrimLeftBlank(left[1..], s);
    }
  }

  lemma {:induction false} TrimRightBlank(s: string, right: string)
    requires Blank(right) && s != "" && !IsSpace(s[|s| - 1])
    ensures TrimRight(s + right) == s
  {
    hide IsSpace;
    if right == "" {
      assert s + right == s;
    } else {
      assert (s + right)[..|s + right| - 1] == s + right[..|right| - 1];
      TrimRightBlank(s, right[..|right| - 1]);
    }
  }

  // Surrounding white space does not count.
  lemma Trimmed(left: string, s: string, right: string)
    requires Blank(left) && Blank(right) && s != "" && !IsSpace(s[0]) && !IsSpace(s[|s| - 1])
    ensures TrimRight(TrimLeft(left + s + right)) == s
  {
    hide IsSpace;
    assert left + s + right == left + (s + right);
    TrimLeftBlank(left, s + right);
    TrimRightBlank(s, right);
  }

  // ---- Loop counts ------------------------------------------------------------------------------

  // The numeral of an int64, with an optional sign, surrounded by white space, is that
  // many iterations.
  lemma CountRead(n: Node, left: string, sign: string, v: nat, right: string)
    requires n.pattern == left + (sign + Numeral(v)) + right && Blank(left) && Blank(right)
    requires sign in {"", "+", "-"}
    ensures RuleOf(n) ==
      if sign == "-" then (if v <= 0x8000_0000_0000_0000 then Fixed(-(v as int)) else Conditional)
      else if v <= 0x7FFF_FFFF_FFFF_FFFF then Fixed(v) else Conditional
  {
    hide IsSpace;
    var text := sign + Numeral(v);
    NumeralDigits(v);
    DigitRange(Numeral(v)[0]);
    DigitRange(Numeral(v)[|Numeral(v)| - 1]);
    NotSpace();
    assert text[0] == if sign == "" then Numeral(v)[0] else sign[0];
    assert text[|text| - 1] == Numeral(v)[|Numeral(v)| - 1];
    Trimmed(left, text, right);
    DigitsNumeral(v);
    AtoiSigned(sign, Numeral(v));
  }

  lemma NotSpace()
    ensures !IsSpace('+') && !IsSpace('-')
  {
  }

  lemma AtoiSigned(sign: string, digits: string)
    requires sign in {"", "+", "-"} && digits != "" && IsDigit(digits[0])
    ensures Atoi(sign + digits) ==
      match Digits(digits)
      case None => None
      case Some(d) =>
        if sign == "-" then (if d <= 0x8000_0000_0000_0000 then Some(-(d as int)) else None)
        else if d <= 0x7FFF_FFFF_FFFF_FFFF then Some(d) else None
  {
    DigitRange(digits[0]);
    if sign == "" {
      assert sign + digits == digits;
    } else {
      assert (sign + digits)[1..] == digits;
    }
  }

  // Any other text is a condition.
  lemma ConditionRead(n: Node, left: string, text: string, right: string, i: nat)
    requires n.pattern == left + text + right && Blank(left) && Blank(right)
    requires i < |text| && !IsSpace(text[0]) && !IsSpace(text[|text| - 1])
    requires !IsDigit(text[i]) && (i == 0 ==> text[0] !in "+-" || |text| == 1)
    ensures RuleOf(n) == Conditional
  {
    hide IsSpace;
    Trimmed(left, text, right);
    if text[0] in "+-" {
      if |text| > 1 {
        assert text[1..][i - 1] == text[i];
        DigitsRefuse(text[1..], i - 1);
      }
    } else {
      DigitsRefuse(text, i);
    }
  }

  lemma {:induction false} BlankTrims(s: string)
    requires Blank(s)
    ensures TrimLeft(s) == ""
  {
    if s != "" {
      BlankTrims(s[1..]);
    }
  }

  // ... the empty one too.
  lemma NothingRead(n: Node)
    requires Blank(n.pattern)
    ensures RuleOf(n) == Conditional
  {
    BlankTrims(n.pattern);
  }
}
