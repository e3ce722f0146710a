/** Decimal printing (`ostringstream << n`) and parsing (`boost::lexical_cast<long>`). */
module Decimal {
  import opened Prelude

  function Digit(d: nat): char
    requires d < 10
  {
    (48 + d) as char
  }

  predicate IsDigit(c: char) {
    '0' <= c <= '9'
  }

  predicate AllDigits(s: string) {
    forall i :: 0 <= i < |s| ==> IsDigit(s[i])
  }

  function PrintNat(n: nat): (s: string)
    ensures |s| > 0 && AllDigits(s)
  {
    if n < 10 then [Digit(n)] else PrintNat(n / 10) + [Digit(n % 10)]
  }

  function PrintInt(n: int): string {
    if n < 0 then "-" + PrintNat(-n) else PrintNat(n)
  }

  function ParseNat(s: string): nat
    requires AllDigits(s)
  {
    if s == "" then 0
    else ParseNat(s[..|s| - 1]) * 10 + (s[|s| - 1] as int - 48)
  }

  /** An optional sign and at least one digit; anything else is a bad cast. */
  function LexicalCast(s: string): Option<int> {
    var signed := s != "" && (s[0] == '-' || s[0] == '+');
    var digits := if signed then s[1..] else s;
    if digits == "" || !AllDigits(digits) then None
    else if signed && s[0] == '-' then Some(-(ParseNat(digits) as int))
    else Some(ParseNat(digits))
  }

  lemma {:induction false} ParsePrintNat(n: nat)
    ensures ParseNat(PrintNat(n)) == n
  {
    if n >= 10 {
      ParsePrintNat(n / 10);
      assert PrintNat(n)[..|PrintNat(n)| - 1] == PrintNat(n / 10);
    }
  }

  /** Printing then parsing an integer gives it back. */
  lemma CastOfPrint(n: int)
    ensures LexicalCast(PrintInt(n)) == Some(n)
  {
    var digits := PrintNat(if n < 0 then -n else n);
    ParsePrintNat(if n < 0 then -n else n);
    if n < 0 {
      assert PrintInt(n)[1..] == digits;
    } else {
      assert IsDigit(digits[0]);
    }
  }

  // ------------------------------------------------------------------------------- decimal notation

  function Pow10(k: nat): nat {
    if k == 0 then 1 else 10 * Pow10(k - 1)
  }

  /** The value of a numeral in decimal notation: the first digit counts most. */
  function Weighted(s: string): int {
    if s == "" then 0 else (s[0] as int - '0' as int) * Pow10(|s| - 1) + Weighted(s[1..])
  }

  lemma {:induction false} WeightedNext(s: string, c: char)
    ensures Weighted(s + [c]) == 10 * Weighted(s) + (c as int - '0' as int)
  {
    if s != "" {
      assert (s + [c])[1..] == s[1..] + [c];
      WeightedNext(s[1..], c);
    }
  }

  /** What is printed is the decimal notation of the number, without leading zeros. */
  lemma {:induction false} PrintIsDecimal(n: nat)
    ensures Weighted(PrintNat(n)) == n
    ensures forall i :: 0 <= i < |PrintNat(n)| ==> '0' <= PrintNat(n)[i] <= '9'
    ensures PrintNat(n)[0] == '0' <==> n == 0
    ensures PrintInt(n) == PrintNat(n) && (n > 0 ==> PrintInt(-(n as int)) == "-" + PrintNat(n))
  {
    if n < 10 {
      assert PrintNat(n)[1..] == "";
    } else {
      PrintIsDecimal(n / 10);
      WeightedNext(PrintNat(n / 10), Digit(n % 10));
    }
  }

  lemma {:induction false} ParseIsWeighted(s: string)
    requires AllDigits(s)
    ensures ParseNat(s) == Weighted(s)
  {
    if s != "" {
      ParseIsWeighted(s[..|s| - 1]);
      WeightedNext(s[..|s| - 1], s[|s| - 1]);
      assert s[..|s| - 1] + [s[|s| - 1]] == s;
    }
  }

  predicate Numeral(s: string) {
    s != "" && forall i :: 0 <= i < |s| ==> '0' <= s[i] <= '9'
  }

  /** The cast takes exactly a numeral, or one behind a sign, and gives its decimal value. */
  lemma CastMeans(s: string)
    ensures Numeral(s) ==> LexicalCast(s) == Some(Weighted(s))
    ensures s != "" && s[0] == '+' && Numeral(s[1..]) ==> LexicalCast(s) == Some(Weighted(s[1..]))
    ensures s != "" && s[0] == '-' && Numeral(s[1..]) ==> LexicalCast(s) == Some(-Weighted(s[1..]))
    ensures LexicalCast(s).Some? <==> Numeral(s) || (s != "" && (s[0] == '+' || s[0] == '-') && Numeral(s[1..]))
  {
    if Numeral(s) {
      assert s[0] != '+' && s[0] != '-';
      ParseIsWeighted(s);
    } else if s != "" && Numeral(s[1..]) {
      ParseIsWeighted(s[1..]);
    }
  }
}
