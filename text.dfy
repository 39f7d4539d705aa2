/** The few Python string built-ins the model needs: `int(s)` for the plain
    decimal forms, `str(i)` for integers, case folding for case-insensitive
    comparison, and the code-point order strings are sorted by. */
module Text {
  import opened Common

  predicate IsDigit(c: char) {
    '0' <= c <= '9'
  }

  predicate AllDigits(s: string) {
    forall i :: 0 <= i < |s| ==> IsDigit(s[i])
  }

  function DigitValue(c: char): nat
    requires IsDigit(c)
  {
    c as int - '0' as int
  }

  function DigitChar(d: nat): (c: char)
    requires d < 10
    ensures IsDigit(c) && DigitValue(c) == d
  {
    (d + '0' as int) as char
  }

  /** The value of a string of decimal digits, most significant digit first. */
  function DigitsValue(s: string): nat
    requires AllDigits(s)
  {
    if |s| == 0 then 0 else DigitsValue(s[..|s| - 1]) * 10 + DigitValue(s[|s| - 1])
  }

  /** `str(n)` for a natural number: its decimal digits without leading zeros. */
  function NatToDecimal(n: nat): (s: string)
    ensures |s| >= 1 && AllDigits(s)
  {
    if n < 10 then [DigitChar(n)] else NatToDecimal(n / 10) + [DigitChar(n % 10)]
  }

  /** `str(i)` for an integer. */
  function IntToDecimal(i: int): string
  {
    if i < 0 then "-" + NatToDecimal(-i) else NatToDecimal(i)
  }

  /** `int(s)`: an optional sign followed by one or more ASCII digits; anything
      else is the `ValueError` case, here `None`. */
  function ParseInt(s: string): (r: Option<int>)
    ensures r.Some? ==> |s| >= 1 && forall i :: 0 < i < |s| ==> IsDigit(s[i])
    ensures r.Some? && !IsDigit(s[0]) ==> |s| >= 2 && (s[0] == '+' || s[0] == '-')
    ensures r.Some? <==>
      || (|s| > 0 && AllDigits(s))
      || (|s| > 1 && (s[0] == '+' || s[0] == '-') && AllDigits(s[1..]))
    ensures |s| > 0 && AllDigits(s) ==> r == Some(DigitsValue(s))
    ensures |s| > 1 && s[0] == '+' && AllDigits(s[1..]) ==> r == Some(DigitsValue(s[1..]))
    ensures |s| > 1 && s[0] == '-' && AllDigits(s[1..]) ==> r == Some(0 - DigitsValue(s[1..]))
  {
    if |s| > 0 && (s[0] == '+' || s[0] == '-') then
      var body := s[1..];
      if |body| > 0 && AllDigits(body) then
        var magnitude: int := DigitsValue(body);
        Some(if s[0] == '-' then -magnitude else magnitude)
      else None
    else if |s| > 0 && AllDigits(s) then Some(DigitsValue(s))
    else None
  }

  lemma {:induction false} DigitsOfNat(n: nat)
    ensures DigitsValue(NatToDecimal(n)) == n
  {
    var s := NatToDecimal(n);
    if n >= 10 {
      assert s[..|s| - 1] == NatToDecimal(n / 10);
      DigitsOfNat(n / 10);
    }
  }

  /** `str(n)` is canonical: a number of two or more digits does not start with 0. */
  lemma {:induction false} NoLeadingZero(n: nat)
    ensures |NatToDecimal(n)| > 1 ==> NatToDecimal(n)[0] != '0'
  {
    if n >= 10 {
      NoLeadingZero(n / 10);
      assert NatToDecimal(n)[0] == NatToDecimal(n / 10)[0];
      if n / 10 < 10 {
        assert NatToDecimal(n / 10) == [DigitChar(n / 10)];
      }
    }
  }

  /** A leading zero does not change the value of a digit string. */
  lemma {:induction false} LeadingZeroIgnored(s: string)
    requires AllDigits(s)
    ensures AllDigits("0" + s) && DigitsValue("0" + s) == DigitsValue(s)
  {
    assert AllDigits("0" + s) by {
      forall i | 0 <= i < |"0" + s|
        ensures IsDigit(("0" + s)[i])
      {
        if i > 0 {
          assert ("0" + s)[i] == s[i - 1];
        }
      }
    }
    if |s| > 0 {
      var t := "0" + s;
      assert t[..|t| - 1] == "0" + s[..|s| - 1];
      assert t[|t| - 1] == s[|s| - 1];
      LeadingZeroIgnored(s[..|s| - 1]);
    }
  }

  /** So `int("007") == 7`, and a zero-padded id still reads as that id. */
  lemma ZeroPaddedId()
    ensures ParseInt("007") == Some(7)
  {
    LeadingZeroIgnored("7");
    LeadingZeroIgnored("07");
    assert "0" + "07" == "007" && "0" + "7" == "07";
  }

  /** Reading back the text of an integer gives that integer: `int(str(i)) == i`. */
  lemma ParseIntOfDecimal(i: int)
    ensures ParseInt(IntToDecimal(i)) == Some(i)
  {
    if i < 0 {
      var s := IntToDecimal(i);
      assert s[1..] == NatToDecimal(-i);
      DigitsOfNat(-i);
    } else {
      DigitsOfNat(i);
    }
  }

  function LowerChar(c: char): char {
    if 'A' <= c <= 'Z' then (c as int + 32) as char else c
  }

  /** ASCII lower-casing, the folding a case-insensitive match compares under. */
  function Lower(s: string): (r: string)
    ensures |r| == |s|
    ensures forall i :: 0 <= i < |s| ==> r[i] == LowerChar(s[i])
  {
    if |s| == 0 then [] else [LowerChar(s[0])] + Lower(s[1..])
  }

  /** Equality up to ASCII case (an `__iexact` lookup). */
  predicate EqualsIgnoreCase(a: string, b: string) {
    Lower(a) == Lower(b)
  }

  /** Lexicographic order on code points; a prefix comes first. */
  predicate LexLe(a: string, b: string) {
    if |a| == 0 then true
    else if |b| == 0 then false
    else if a[0] != b[0] then a[0] < b[0]
    else LexLe(a[1..], b[1..])
  }

  lemma {:induction false} LexLeTotal(a: string, b: string)
    ensures LexLe(a, b) || LexLe(b, a)
  {
    if |a| > 0 && |b| > 0 && a[0] == b[0] {
      LexLeTotal(a[1..], b[1..]);
    }
  }

  lemma {:induction false} LexLeTransitive(a: string, b: string, c: string)
    requires LexLe(a, b) && LexLe(b, c)
    ensures LexLe(a, c)
  {
    if |a| > 0 && |b| > 0 && |c| > 0 && a[0] == b[0] && b[0] == c[0] {
      LexLeTransitive(a[1..], b[1..], c[1..]);
    }
  }
}
