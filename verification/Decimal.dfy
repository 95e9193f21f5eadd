/** Decimal integers as `std::to_string` prints them and `std::atoi` reads them back. */
module Decimal {

  predicate IsDigit(c: char) { '0' <= c <= '9' }

  function DigitChar(d: nat): (c: char)
    requires d < 10
    ensures IsDigit(c) && c as int - '0' as int == d
  {
    "0123456789"[d]
  }

  function Digits(n: nat): (s: string)
    ensures s != [] && forall i :: 0 <= i < |s| ==> IsDigit(s[i])
  {
    if n < 10 then [DigitChar(n)] else Digits(n / 10) + [DigitChar(n % 10)]
  }

  function Print(n: int): (s: string)
    ensures s != [] && forall i :: 0 <= i < |s| ==> IsDigit(s[i]) || s[i] == '-'
  {
    if n < 0 then "-" + Digits(-n) else Digits(n)
  }

  function ReadDigits(s: string, acc: nat): int {
    if s == [] || !IsDigit(s[0]) then acc
    else ReadDigits(s[1..], acc * 10 + (s[0] as int - '0' as int))
  }

  predicate IsSpace(c: char) { c == ' ' || 9 <= c as int <= 13 }

  /** `std::atoi`: blanks, an optional sign, then digits up to the first other byte. */
  function Atoi(s: string): int {
    if s == [] then 0
    else if IsSpace(s[0]) then Atoi(s[1..])
    else if s[0] == '-' then 0 - ReadDigits(s[1..], 0)
    else if s[0] == '+' then ReadDigits(s[1..], 0)
    else ReadDigits(s, 0)
  }

  lemma {:induction false} ReadDigitsLast(s: string, d: nat, acc: nat)
    requires d < 10 && forall i :: 0 <= i < |s| ==> IsDigit(s[i])
    ensures ReadDigits(s + [DigitChar(d)], acc) == ReadDigits(s, acc) * 10 + d
  {
    var t := s + [DigitChar(d)];
    if s == [] {
      assert t[1..] == [];
    } else {
      assert t[1..] == s[1..] + [DigitChar(d)];
      ReadDigitsLast(s[1..], d, acc * 10 + (s[0] as int - '0' as int));
    }
  }

  lemma {:induction false} ReadsDigits(n: nat)
    ensures ReadDigits(Digits(n), 0) == n
  {
    if n < 10 {
      assert Digits(n)[1..] == [];
    } else {
      ReadsDigits(n / 10);
      ReadDigitsLast(Digits(n / 10), n % 10, 0);
    }
  }

  /** Reading back what was printed. */
  lemma AtoiPrint(n: int)
    ensures Atoi(Print(n)) == n
  {
    ReadsDigits(if n < 0 then -n else n);
    if n < 0 { assert Print(n)[1..] == Digits(-n); }
  }

  /** Reading stops at the first byte that is no digit, and passes blanks and a plus sign before the number. */
  lemma {:induction false} AtoiReadsThrough(blanks: string, n: nat, rest: string)
    requires forall i :: 0 <= i < |blanks| ==>
               blanks[i] == ' ' || blanks[i] == '\t' || blanks[i] == '\n' || blanks[i] == '\r'
    requires rest != "" ==> !('0' <= rest[0] <= '9')
    ensures Atoi(blanks + (Digits(n) + rest)) == n
    ensures Atoi(blanks + ("+" + (Digits(n) + rest))) == n
    ensures Atoi(blanks + ("-" + (Digits(n) + rest))) + n == 0
  {
    var d := Digits(n) + rest;
    if blanks == "" {
      ReadsUpTo(Digits(n), rest, 0);
      ReadsDigits(n);
      assert blanks + d == d && blanks + ("+" + d) == "+" + d && blanks + ("-" + d) == "-" + d;
      assert ("+" + d)[1..] == d && ("-" + d)[1..] == d;
    } else {
      AtoiReadsThrough(blanks[1..], n, rest);
      AtoiSkips(blanks, d);
      AtoiSkips(blanks, "+" + d);
      AtoiSkips(blanks, "-" + d);
    }
  }

  lemma AtoiSkips(blanks: string, t: string)
    requires blanks != "" && IsSpace(blanks[0])
    ensures Atoi(blanks + t) == Atoi(blanks[1..] + t)
  {
    assert (blanks + t)[1..] == blanks[1..] + t;
  }

  lemma {:induction false} ReadsUpTo(s: string, rest: string, acc: nat)
    requires (forall i :: 0 <= i < |s| ==> IsDigit(s[i])) && (rest != "" ==> !IsDigit(rest[0]))
    ensures ReadDigits(s + rest, acc) == ReadDigits(s, acc)
  {
    if s == "" {
      assert s + rest == rest;
    } else {
      assert (s + rest)[1..] == s[1..] + rest;
      assert IsDigit(s[0]);
      ReadsUpTo(s[1..], rest, acc * 10 + (s[0] as int - '0' as int));
    }
  }

  /** What is no number reads as zero. */
  lemma AtoiOfNoNumber(t: string)
    requires t == "" || t[0] in {'a', 'x', '.', ','}
    ensures Atoi(t) == 0
  {
  }
}
