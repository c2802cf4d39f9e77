/**
 * Base-12 ("dodecagram") arithmetic shared by the three codecs: the digit
 * alphabet `0-9ab`, the value of a digit string, the canonical spelling of
 * a natural number, and big-endian byte strings.
 */
module Base12 {
  import opened Common

  /** The digit alphabet, digit `d` at index `d`. */
  const Alphabet: string := "0123456789ab"

  /** A character every codec reads as a digit: `0-9`, `a`/`A` (ten) and `b`/`B` (eleven). */
  predicate IsDigit12(c: char) {
    ('0' <= c <= '9') || c == 'a' || c == 'A' || c == 'b' || c == 'B'
  }

  /** A character of the alphabet as the codecs write it (lower case). */
  predicate IsOutputDigit(c: char) {
    ('0' <= c <= '9') || c == 'a' || c == 'b'
  }

  function DigitValue(c: char): (d: nat)
    requires IsDigit12(c)
    ensures d < 12
    ensures IsOutputDigit(c) ==> Alphabet[d] == c
  {
    if '0' <= c <= '9' then c as int - '0' as int
    else if c == 'a' || c == 'A' then 10
    else 11
  }

  function DigitChar(d: nat): (c: char)
    requires d < 12
    ensures IsOutputDigit(c) && DigitValue(c) == d
  {
    Alphabet[d]
  }

  predicate AllDigits12(s: string) {
    forall i :: 0 <= i < |s| ==> IsDigit12(s[i])
  }

  /** The number a digit string denotes, read left to right as `value = value * 12 + d`. */
  function Value(s: string): nat
    requires AllDigits12(s)
  {
    if s == [] then 0 else Value(s[..|s| - 1]) * 12 + DigitValue(s[|s| - 1])
  }

  /**
   * The canonical spelling of `n`: "0" for zero, otherwise the digits of `n`
   * most significant first, the digit loop `digits.append(DIGITS[n % 12]);
   * n //= 12` read in reverse.
   */
  function Spell(n: nat): (r: string)
    ensures r != [] && forall i :: 0 <= i < |r| ==> IsOutputDigit(r[i])
    ensures n == 0 <==> r == "0"
    ensures n > 0 ==> r[0] != '0'
    decreases n
  {
    if n < 12 then [DigitChar(n)] else Spell(n / 12) + [DigitChar(n % 12)]
  }

  /** A digit string every codec writes: digits only, no leading zero unless it is "0". */
  predicate Canonical(s: string) {
    s != [] && (forall i :: 0 <= i < |s| ==> IsOutputDigit(s[i])) && (s[0] == '0' ==> s == "0")
  }

  /** The spelling denotes the number. */
  lemma {:induction false} SpellValue(n: nat)
    ensures AllDigits12(Spell(n)) && Value(Spell(n)) == n
    decreases n
  {
    if n >= 12 {
      SpellValue(n / 12);
      var s := Spell(n);
      assert s[..|s| - 1] == Spell(n / 12);
    }
  }

  /** Spelling and reading are inverse on canonical strings as well: each number has one spelling. */
  lemma {:induction false} SpellOfValue(s: string)
    requires Canonical(s)
    ensures AllDigits12(s) && Spell(Value(s)) == s
    decreases |s|
  {
    if |s| > 1 {
      var init := s[..|s| - 1];
      SpellOfValue(init);
      PositiveValue(init);
      assert Value(s) / 12 == Value(init) && Value(s) % 12 == DigitValue(s[|s| - 1]);
      assert s == init + [s[|s| - 1]];
    }
  }

  /** A canonical string other than "0" has a non-zero value. */
  lemma {:induction false} PositiveValue(s: string)
    requires Canonical(s) && s != "0"
    ensures Value(s) > 0
    decreases |s|
  {
    if |s| > 1 {
      var init := s[..|s| - 1];
      assert init[0] == s[0];
      PositiveValue(init);
    }
  }

  /** Leading zeros do not change the value. */
  lemma {:induction false} LeadingZeros(k: nat, s: string)
    requires AllDigits12(s)
    ensures AllDigits12(Repeat('0', k) + s) && Value(Repeat('0', k) + s) == Value(s)
    decreases |s|
  {
    var z := Repeat('0', k);
    if s == [] {
      assert z + s == z;
      AllZeros(k);
    } else {
      LeadingZeros(k, s[..|s| - 1]);
      assert (z + s)[..|z + s| - 1] == z + s[..|s| - 1];
    }
  }

  lemma {:induction false} AllZeros(k: nat)
    ensures AllDigits12(Repeat('0', k)) && Value(Repeat('0', k)) == 0
    decreases k
  {
    if k > 0 {
      AllZeros(k - 1);
      assert Repeat('0', k)[..k - 1] == Repeat('0', k - 1);
    }
  }

  /** 256 to the power `k`: the number of values `k` bytes can hold. */
  function Pow256(k: nat): (r: nat)
    ensures r > 0
  {
    if k == 0 then 1 else 256 * Pow256(k - 1)
  }

  // ---------------------------------------------------------------------
  // Big-endian byte strings

  newtype byte = x: int | 0 <= x < 256

  /** `int.from_bytes(b, "big", signed=False)`. */
  function BytesValue(b: seq<byte>): (r: nat)
    ensures r < Pow256(|b|)
  {
    if b == [] then 0
    else
      var init := b[..|b| - 1];
      var v := BytesValue(init);
      assert v * 256 + 255 < Pow256(|init|) * 256;
      v * 256 + b[|b| - 1] as nat
  }

  /**
   * `(n.bit_length() + 7) // 8`: the number of bytes `n` needs, counted
   * here as its number of base-256 digits (the two agree for every `n`,
   * both being 0 for zero).
   */
  function ByteLen(n: nat): (r: nat)
    ensures n < Pow256(r)
    ensures n > 0 ==> r > 0 && Pow256(r - 1) <= n
    ensures n == 0 ==> r == 0
    decreases n
  {
    if n == 0 then 0 else 1 + ByteLen(n / 256)
  }

  /** `n.to_bytes(len, "big")`, which fits by the precondition. */
  function ToBytes(n: nat, len: nat): (r: seq<byte>)
    requires n < Pow256(len)
    ensures |r| == len && BytesValue(r) == n
    decreases len
  {
    if len == 0 then []
    else
      var r := ToBytes(n / 256, len - 1) + [(n % 256) as byte];
      assert r[..len - 1] == ToBytes(n / 256, len - 1);
      r
  }

  /** Bytes come back from their value at their own length, leading zero bytes included. */
  lemma {:induction false} BytesRoundTrip(b: seq<byte>)
    ensures ToBytes(BytesValue(b), |b|) == b
    decreases |b|
  {
    if b != [] {
      var init := b[..|b| - 1];
      BytesRoundTrip(init);
      assert b == init + [b[|b| - 1]];
    }
  }

  /** The minimal length of a value whose first byte is not zero is its own length. */
  lemma {:induction false} LeadingByteLen(b: seq<byte>)
    requires b != [] && b[0] != 0
    ensures ByteLen(BytesValue(b)) == |b|
  {
    LeadingByteBound(b);
    MinimalLength(BytesValue(b), |b|);
  }

  /** A first byte that is not zero puts the value at or above 256^(len-1). */
  lemma {:induction false} LeadingByteBound(b: seq<byte>)
    requires b != [] && b[0] != 0
    ensures Pow256(|b| - 1) <= BytesValue(b)
    decreases |b|
  {
    if |b| > 1 {
      var init := b[..|b| - 1];
      assert init[0] == b[0];
      LeadingByteBound(init);
    }
  }

  /** `ByteLen(n)` is the one length whose range holds `n`. */
  lemma {:induction false} MinimalLength(n: nat, len: nat)
    requires n < Pow256(len) && len > 0 && Pow256(len - 1) <= n
    ensures ByteLen(n) == len
    decreases len
  {
    if len > 1 {
      MinimalLength(n / 256, len - 1);
    }
  }

  /** A value that fits in `len` bytes needs at most `len` of them. */
  lemma {:induction false} ByteLenAtMost(n: nat, len: nat)
    requires n < Pow256(len)
    ensures ByteLen(n) <= len
    decreases len
  {
    if n > 0 {
      assert len > 0;
      ByteLenAtMost(n / 256, len - 1);
    }
  }

  /** Bytes whose value is zero are all zero bytes. */
  lemma {:induction false} ZeroBytes(b: seq<byte>)
    requires BytesValue(b) == 0
    ensures b == seq(|b|, _ => 0 as byte)
  {
    BytesRoundTrip(b);
    ZeroToBytes(|b|);
  }

  lemma {:induction false} ZeroToBytes(len: nat)
    ensures ToBytes(0, len) == seq(len, _ => 0 as byte)
    decreases len
  {
    if len > 0 {
      ZeroToBytes(len - 1);
    }
  }
}
