/** Digits and numerals, in bases 8, 10 and 16. */
module Digits {
  predicate IsDigit(c: char) { '0' <= c <= '9' }

  predicate IsHex(c: char) { IsDigit(c) || 'a' <= c <= 'f' || 'A' <= c <= 'F' }

  /** parseInt of one character. */
  function DigitValue(c: char): (d: nat)
    requires IsHex(c)
    ensures d < 16
    ensures IsDigit(c) ==> d < 10
  {
    if IsDigit(c) then c as int - '0' as int
    else if 'a' <= c <= 'f' then c as int - 'a' as int + 10
    else c as int - 'A' as int + 10
  }

  predicate AllHex(s: string) { forall i :: 0 <= i < |s| ==> IsHex(s[i]) }

  predicate AllDigits(s: string) { forall i :: 0 <= i < |s| ==> IsDigit(s[i]) }

  /** What a numeral stands for. */
  function Value(s: string, base: nat): nat
    requires AllHex(s)
  {
    if s == [] then 0 else Value(s[..|s| - 1], base) * base + DigitValue(s[|s| - 1])
  }

  function Digit(d: nat): (c: char)
    requires d < 16
    ensures IsHex(c) && DigitValue(c) == d && (d < 10 ==> IsDigit(c))
  {
    "0123456789abcdef"[d]
  }

  /** toString(base), and String(n) for base 10. */
  function Render(n: nat, base: nat): (s: string)
    requires 2 <= base <= 16
    ensures |s| > 0 && AllHex(s)
  {
    if n < base then [Digit(n)] else Render(n / base, base) + [Digit(n % base)]
  }

  lemma DivMod(n: nat, base: nat)
    requires base >= 2
    ensures n == n / base * base + n % base && n % base < base
    ensures n >= base ==> 0 < n / base < n
  {}

  lemma RenderUnfolds(n: nat, base: nat)
    requires 2 <= base <= 16
    ensures n < base ==> Render(n, base) == "" + [Digit(n)]
    ensures n >= base ==> Render(n, base) == Render(n / base, base) + [Digit(n % base)]
  {}

  lemma {:induction false} RenderValue(n: nat, base: nat)
    requires 2 <= base <= 16
    ensures Value(Render(n, base), base) == n
  {
    assert Value("", base) == 0;
    RenderUnfolds(n, base);
    hide Value, Render, Digit, AllHex, IsHex, DigitValue;
    if n < base {
      ValueAppend("", Digit(n), base);
    } else {
      DivMod(n, base);
      RenderValue(n / base, base);
      ValueAppend(Render(n / base, base), Digit(n % base), base);
    }
  }

  /** No leading zero, unless the numeral is a single digit. */
  lemma {:induction false} RenderIsShortest(n: nat, base: nat)
    requires 2 <= base <= 16
    ensures Render(n, base)[0] == '0' ==> n == 0 && Render(n, base) == "0"
    ensures base <= 10 ==> AllDigits(Render(n, base))
  {
    if n >= base {
      DivMod(n, base);
      RenderIsShortest(n / base, base);
    } else {
      assert Digit(n) == '0' ==> n == 0;
    }
  }

  lemma {:induction false} HexLength(n: nat, k: nat)
    requires 0 < k <= 4 && n < (match k case 1 => 0x10 case 2 => 0x100 case 3 => 0x1000 case _ => 0x1_0000)
    ensures |Render(n, 16)| <= k
  {
    if n >= 16 { HexLength(n / 16, k - 1); }
  }

  lemma {:induction false} DecimalLength(n: nat, k: nat)
    requires 0 < k <= 3 && n < (match k case 1 => 10 case 2 => 100 case _ => 1000)
    ensures |Render(n, 10)| <= k
  {
    if n >= 10 { DecimalLength(n / 10, k - 1); }
  }

  /** Reading one more digit. */
  lemma ValueAppend(s: string, c: char, base: nat)
    requires AllHex(s) && IsHex(c)
    ensures AllHex(s + [c]) && Value(s + [c], base) == Value(s, base) * base + DigitValue(c)
  {
    assert (s + [c])[..|s|] == s;
  }

  // ---- letters ---------------------------------------------------------------------------

  lemma DigitIs(d: nat)
    requires d < 16
    ensures Digit(d) == if d < 10 then ('0' as int + d) as char else ('a' as int + (d - 10)) as char
  {}

  /** Digits below the base, and letters in lower case. */
  predicate IsLowerNumeral(s: string, base: nat) {
    forall i :: 0 <= i < |s| ==> (IsDigit(s[i]) || 'a' <= s[i] <= 'f') && DigitValue(s[i]) < base
  }

  lemma {:induction false} RenderIsLower(n: nat, base: nat)
    requires 2 <= base <= 16
    ensures IsLowerNumeral(Render(n, base), base)
  {
    RenderUnfolds(n, base);
    if n < base {
      DigitIs(n);
    } else {
      DivMod(n, base);
      RenderIsLower(n / base, base);
      DigitIs(n % base);
    }
  }

  /** The same but for the case of letters. */
  predicate SameButForCase(s: string, t: string) {
    |s| == |t| && forall i :: 0 <= i < |s| ==> s[i] == t[i] || ('a' <= s[i] <= 'f' && t[i] as int == s[i] as int - 32)
  }

  /** The case of letters does not matter. */
  lemma {:induction false} CaseIsIgnored(s: string, t: string, base: nat)
    requires AllHex(s) && AllHex(t) && SameButForCase(s, t)
    ensures Value(s, base) == Value(t, base)
  {
    if s != "" {
      var n := |s| - 1;
      CaseIsIgnored(s[..n], t[..n], base);
      assert DigitValue(s[n]) == DigitValue(t[n]);
    }
  }
}
