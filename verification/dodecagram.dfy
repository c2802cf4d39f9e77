/**
 * `to_base12` of dodecagram.py: the digits of a number collected least
 * significant first by repeated division, then reversed.
 */
module Dodecagram {
  import opened Base12
  import opened Common
  import CompilerCodec

  /** `''.join(reversed(digits))`. */
  function Reversed(s: string): (r: string)
    ensures |r| == |s|
  {
    if s == [] then [] else Reversed(s[1..]) + [s[0]]
  }

  lemma {:induction false} ReversedSnoc(s: string, c: char)
    ensures Reversed(s + [c]) == [c] + Reversed(s)
  {
    if s != [] {
      ReversedSnoc(s[1..], c);
      assert (s + [c])[1..] == s[1..] + [c];
    }
  }

  /** One round of the loop: the last digit moves from the number to the collected digits. */
  lemma DigitStep(m: nat, digits: string)
    requires m > 0
    ensures Spell(m) + Reversed(digits)
      == (if m / 12 > 0 then Spell(m / 12) else []) + Reversed(digits + [Alphabet[m % 12]])
  {
    SpellLast(m);
    ReversedSnoc(digits, Alphabet[m % 12]);
    ConcatAssoc(if m / 12 > 0 then Spell(m / 12) else [], [Alphabet[m % 12]], Reversed(digits));
  }

  /** The last digit of a spelling is the number modulo 12, after the spelling of the quotient. */
  lemma SpellLast(m: nat)
    requires m > 0
    ensures Spell(m) == (if m / 12 > 0 then Spell(m / 12) else []) + [Alphabet[m % 12]]
  {
  }

  /**
   * `to_base12(n)` for the numbers on which its loop ends: zero is "0", and
   * any other number is spelt canonically, with no leading zero.
   */
  method ToBase12(n: int) returns (s: string)
    requires n >= 0
    ensures s == Spell(n)
    ensures Canonical(s) && AllDigits12(s) && Value(s) == n
  {
    SpellValue(n);
    if n == 0 {
      return "0";
    }
    var digits: string := [];
    var m := n;
    while m != 0
      invariant 0 <= m <= n
      invariant Spell(n) == (if m > 0 then Spell(m) else []) + Reversed(digits)
      decreases m
    {
      DigitStep(m, digits);
      digits := digits + [Alphabet[m % 12]];
      m := m / 12;
    }
    s := Reversed(digits);
  }

  /**
   * The loop state after `k` rounds of `n //= 12`. Python's `//` floors;
   * with the positive divisor 12 that is Dafny's `/` as well.
   */
  function AfterRounds(n: int, k: nat): int {
    if k == 0 then n else AfterRounds(n, k - 1) / 12
  }

  /**
   * A negative number never reaches zero under `n //= 12` (it stops at -1,
   * and -1 // 12 is -1), so `while n:` does not end and `to_base12` does
   * not return for negative input.
   */
  lemma {:induction false} NegativeNeverEnds(n: int, k: nat)
    requires n < 0
    ensures AfterRounds(n, k) < 0
  {
    if k > 0 {
      NegativeNeverEnds(n, k - 1);
    }
  }

  /** On the numbers it handles, this spelling is the compiler's unpadded one. */
  lemma AgreesWithCompiler(n: nat)
    ensures CompilerCodec.ToBase12(n, 0) == Spell(n)
  {
    CompilerCodec.UnpaddedIsCanonical(n);
  }

  /**
   * `to_base12` as it is evidently meant for every integer: a negative
   * number is its magnitude's digits behind a `-`, as compiler.py spells it.
   */
  function SignedToBase12(n: int): (r: string)
    ensures r != [] && (n < 0 <==> r[0] == '-')
    ensures n >= 0 ==> r == Spell(n)
  {
    if n < 0 then "-" + Spell(-n) else Spell(n)
  }

  /** The signed spelling is the compiler's unpadded one, for every integer. */
  lemma SignedAgreesWithCompiler(n: int)
    ensures SignedToBase12(n) == CompilerCodec.ToBase12(n, 0)
  {
    var r := CompilerCodec.ToBase12(n, 0);
    if n < 0 {
      assert r == [r[0]] + CompilerCodec.Magnitude(r);
    } else {
      AgreesWithCompiler(n);
    }
  }

  /** The compiler's reader gives back every integer from its signed spelling. */
  lemma SignedRoundTrip(n: int)
    ensures CompilerCodec.FromBase12(SignedToBase12(n)) == Ok(n)
  {
    SignedAgreesWithCompiler(n);
    CompilerCodec.RoundTrip(n, 0);
  }
}
