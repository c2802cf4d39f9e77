/**
 * The base-12 codec of compiler.py: signed integers to and from base-12
 * text with optional zero padding, a validity test, and big-endian bytes
 * to and from base-12 text.
 */
module CompilerCodec {
  import opened Common
  import opened Base12

  /** Python's `ValueError`, with its message. */
  datatype ValueError = ValueError(message: string)

  function Abs(n: int): nat {
    if n < 0 then -n else n
  }

  /** `s.rjust(w, "0")`: left-padded with zeros to width `w`, never cut. */
  function ZeroPad(s: string, w: int): (r: string)
    ensures |r| == if |s| < w then w else |s|
    ensures r == Repeat('0', |r| - |s|) + s
  {
    if |s| < w then Repeat('0', w - |s|) + s else s
  }

  /** The digits of a signed spelling, the `-` dropped. */
  function Magnitude(r: string): string {
    if r != [] && r[0] == '-' then r[1..] else r
  }

  /**
   * `to_base12(n, min_width)`: the canonical digits of |n|, zero-padded to
   * `min_width`, then the sign. Zero is "0" padded the same way.
   */
  function ToBase12(n: int, minWidth: int): (r: string)
    ensures r != [] && (n < 0 <==> r[0] == '-')
    ensures |Magnitude(r)| == if |Spell(Abs(n))| < minWidth then minWidth else |Spell(Abs(n))|
    ensures Magnitude(r) == Repeat('0', |Magnitude(r)| - |Spell(Abs(n))|) + Spell(Abs(n))
  {
    var s := ZeroPad(Spell(Abs(n)), minWidth);
    if n < 0 then "-" + s else s
  }

  /** Zero is "0", or `min_width` zeros when that is wider. */
  lemma ZeroSpelling(minWidth: int)
    ensures var r := ToBase12(0, minWidth);
      |r| == (if minWidth <= 1 then 1 else minWidth) && forall i :: 0 <= i < |r| ==> r[i] == '0'
  {
    assert Spell(0) == "0";
  }

  /** Without padding, a number is written canonically, with no leading zero. */
  lemma UnpaddedIsCanonical(n: int)
    ensures Canonical(Magnitude(ToBase12(n, 0)))
    ensures Magnitude(ToBase12(n, 0)) == Spell(Abs(n))
  {
  }

  /** `s.replace("_", "").replace(" ", "")`. */
  function RemoveSeparators(s: string): (r: string)
    ensures forall i :: 0 <= i < |r| ==> r[i] != '_' && r[i] != ' '
  {
    if s == [] then []
    else (if s[0] == '_' || s[0] == ' ' then [] else [s[0]]) + RemoveSeparators(s[1..])
  }

  /** The index of the first character that is not a digit, if any. */
  function FirstInvalid(s: string): (r: Option<nat>)
    ensures r.None? <==> AllDigits12(s)
    ensures r.Some? ==> r.value < |s| && !IsDigit12(s[r.value])
    ensures r.Some? ==> forall j :: 0 <= j < r.value ==> IsDigit12(s[j])
  {
    if s == [] then None
    else if !IsDigit12(s[0]) then Some(0)
    else match FirstInvalid(s[1..])
      case None => None
      case Some(i) =>
        Some(i + 1)
  }

  predicate IsSign(c: char) { c == '+' || c == '-' }

  /** The text after the trimmed input's sign (and the blanks after it), or the whole trimmed input. */
  function AfterSign(t: string): string {
    if t != [] && IsSign(t[0]) then LStrip(t[1..]) else t
  }

  /** The loop of `from_base12` over the text after the sign, separators dropped. */
  function ReadDigits(negative: bool, body: string): (r: Result<int, ValueError>)
    ensures RemoveSeparators(body) == [] ==> r == Err(ValueError("no digits after sign/separators"))
    ensures r.Ok? <==> RemoveSeparators(body) != [] && AllDigits12(RemoveSeparators(body))
  {
    var digits := RemoveSeparators(body);
    if digits == [] then Err(ValueError("no digits after sign/separators"))
    else match FirstInvalid(digits)
      case Some(i) => Err(ValueError("invalid base-12 digit: " + [digits[i]]))
      case None => Ok(if negative then -(Value(digits) as int) else Value(digits))
  }

  /**
   * `from_base12(s)`: trim; an empty text is an error; one leading sign is
   * taken, with blanks after it; `_` and spaces are dropped; nothing left is
   * an error; the first character that is no digit (either case) is an
   * error naming it; otherwise the signed value.
   */
  function FromBase12(s: string): (r: Result<int, ValueError>)
    ensures Strip(s) == [] ==> r == Err(ValueError("empty string"))
    ensures Strip(s) != [] ==> r == ReadDigits(Strip(s)[0] == '-', AfterSign(Strip(s)))
  {
    var t := Strip(s);
    if t == [] then Err(ValueError("empty string"))
    else ReadDigits(t[0] == '-', AfterSign(t))
  }

  /** `is_valid_dodecagram(s)`: whether `from_base12` accepts `s`. */
  predicate IsValidDodecagram(s: string) {
    FromBase12(s).Ok?
  }

  predicate DigitOrSeparator(c: char) {
    IsDigit12(c) || c == '_' || c == ' '
  }

  predicate HasDigit(b: string) {
    exists i :: 0 <= i < |b| && IsDigit12(b[i])
  }

  /** A body of digits, `_` and spaces with at least one digit. */
  predicate DigitBody(b: string) {
    (forall i :: 0 <= i < |b| ==> DigitOrSeparator(b[i])) && HasDigit(b)
  }

  /**
   * The texts `is_valid_dodecagram` accepts: after trimming, an optional
   * sign and blanks, then digits of either case, `_` and spaces, with at
   * least one digit.
   */
  lemma ValidIff(s: string)
    ensures IsValidDodecagram(s) <==> Strip(s) != [] && DigitBody(AfterSign(Strip(s)))
  {
    var t := Strip(s);
    if t != [] {
      SeparatorsRemoved(AfterSign(t));
    }
  }

  /** The quantified facts about `b` split into its first character and the rest. */
  lemma FirstAndRest(b: string)
    requires b != []
    ensures (forall i :: 0 <= i < |b| ==> DigitOrSeparator(b[i]))
      <==> DigitOrSeparator(b[0]) && forall i :: 0 <= i < |b[1..]| ==> DigitOrSeparator(b[1..][i])
    ensures HasDigit(b) <==> IsDigit12(b[0]) || HasDigit(b[1..])
  {
    if HasDigit(b) && !IsDigit12(b[0]) {
      var i :| 0 <= i < |b| && IsDigit12(b[i]);
      assert IsDigit12(b[1..][i - 1]);
    }
    if HasDigit(b[1..]) {
      var i :| 0 <= i < |b[1..]| && IsDigit12(b[1..][i]);
      assert IsDigit12(b[i + 1]);
    }
    if DigitOrSeparator(b[0]) && forall i :: 0 <= i < |b[1..]| ==> DigitOrSeparator(b[1..][i]) {
      forall i | 0 <= i < |b|
        ensures DigitOrSeparator(b[i])
      {
        if i > 0 {
          assert b[i] == b[1..][i - 1];
        }
      }
    }
  }

  lemma AllDigitsCons(c: string, r: string)
    requires |c| <= 1
    ensures AllDigits12(c + r) <==> AllDigits12(c) && AllDigits12(r)
  {
    if AllDigits12(c) && AllDigits12(r) {
      forall i | 0 <= i < |c + r|
        ensures IsDigit12((c + r)[i])
      {
        if i >= |c| {
          assert (c + r)[i] == r[i - |c|];
        }
      }
    }
    if AllDigits12(c + r) {
      forall i | 0 <= i < |c|
        ensures IsDigit12(c[i])
      {
        assert c[i] == (c + r)[i];
      }
      forall i | 0 <= i < |r|
        ensures IsDigit12(r[i])
      {
        assert r[i] == (c + r)[i + |c|];
      }
    }
  }

  /** Dropping separators keeps exactly the other characters: digits stay digits, and some digit survives. */
  lemma {:induction false} SeparatorsRemoved(b: string)
    ensures (forall i :: 0 <= i < |b| ==> DigitOrSeparator(b[i])) <==> AllDigits12(RemoveSeparators(b))
    ensures AllDigits12(RemoveSeparators(b)) ==> (RemoveSeparators(b) != [] <==> HasDigit(b))
  {
    if b != [] {
      SeparatorsRemoved(b[1..]);
      FirstAndRest(b);
      var c := if b[0] == '_' || b[0] == ' ' then [] else [b[0]];
      AllDigitsCons(c, RemoveSeparators(b[1..]));
    }
  }

  /** A lone sign is rejected: no digits follow it. */
  lemma LoneSignRejected(c: char)
    requires IsSign(c)
    ensures FromBase12([c]) == Err(ValueError("no digits after sign/separators"))
  {
    StripKeeps([c]);
    assert [c][1..] == [];
  }

  /** Text without separators or surrounding blanks, a digit first and last. */
  lemma PlainDigits(d: string)
    requires d != [] && forall i :: 0 <= i < |d| ==> IsOutputDigit(d[i])
    ensures Strip(d) == d && LStrip(d) == d && RemoveSeparators(d) == d
  {
    assert !IsSpace(d[0]) && !IsSpace(d[|d| - 1]);
    assert RStrip(d) == d;
    assert LStrip(d) == d;
    NoSeparators(d);
  }

  lemma {:induction false} NoSeparators(d: string)
    requires forall i :: 0 <= i < |d| ==> d[i] != '_' && d[i] != ' '
    ensures RemoveSeparators(d) == d
  {
    if d != [] {
      NoSeparators(d[1..]);
    }
  }

  /** The digits of a spelling are output digits denoting |n|. */
  lemma MagnitudeDigits(n: int, minWidth: int)
    ensures var d := Magnitude(ToBase12(n, minWidth));
      d != [] && (forall i :: 0 <= i < |d| ==> IsOutputDigit(d[i])) && AllDigits12(d) && Value(d) == Abs(n)
  {
    var sp := Spell(Abs(n));
    var d := Magnitude(ToBase12(n, minWidth));
    var k := |d| - |sp|;
    assert d == Repeat('0', k) + sp;
    SpellValue(Abs(n));
    LeadingZeros(k, sp);
    ZerosThenDigits(k, sp);
  }

  /** Zero padding keeps a text of output digits one. */
  lemma ZerosThenDigits(k: nat, sp: string)
    requires forall i :: 0 <= i < |sp| ==> IsOutputDigit(sp[i])
    ensures forall i :: 0 <= i < |Repeat('0', k) + sp| ==> IsOutputDigit((Repeat('0', k) + sp)[i])
  {
    var d := Repeat('0', k) + sp;
    forall i | 0 <= i < |d|
      ensures IsOutputDigit(d[i])
    {
      if i >= k {
        assert d[i] == sp[i - k];
      }
    }
  }

  /** Output digits with no separators read as their value, negated or not. */
  lemma ReadPlain(negative: bool, d: string)
    requires d != [] && AllDigits12(d) && RemoveSeparators(d) == d
    ensures ReadDigits(negative, d) == Ok(if negative then -(Value(d) as int) else Value(d))
  {
    assert FirstInvalid(d) == None;
  }

  /** Unsigned digits read back as their value. */
  lemma ReadUnsigned(d: string)
    requires d != [] && (forall i :: 0 <= i < |d| ==> IsOutputDigit(d[i])) && AllDigits12(d)
    ensures FromBase12(d) == Ok(Value(d))
  {
    PlainDigits(d);
    ReadPlain(false, d);
    UnsignedAfterSign(d);
  }

  lemma UnsignedAfterSign(d: string)
    requires d != [] && IsOutputDigit(d[0])
    ensures d[0] != '-' && AfterSign(d) == d
  {
  }

  /** Digits after `-` read back as the negated value. */
  lemma ReadNegative(d: string)
    requires d != [] && (forall i :: 0 <= i < |d| ==> IsOutputDigit(d[i])) && AllDigits12(d)
    ensures FromBase12("-" + d) == Ok(-(Value(d) as int))
  {
    PlainDigits(d);
    ReadPlain(true, d);
    NegativeStrip(d);
    assert FromBase12("-" + d) == ReadDigits(true, d);
  }

  /** A `-` before digits is kept by trimming and taken as the sign. */
  lemma NegativeStrip(d: string)
    requires d != [] && !IsSpace(d[|d| - 1]) && LStrip(d) == d
    ensures Strip("-" + d) == "-" + d && AfterSign("-" + d) == d
  {
    var r := "-" + d;
    assert r[0] == '-' && r[|r| - 1] == d[|d| - 1];
    assert RStrip(r) == r;
    assert LStrip(r) == r;
    assert r[1..] == d;
    assert IsSign(r[0]);
    assert AfterSign(r) == LStrip(d);
  }

  /** Every number, at every width, reads back as itself. */
  lemma RoundTrip(n: int, minWidth: int)
    ensures FromBase12(ToBase12(n, minWidth)) == Ok(n)
  {
    MagnitudeDigits(n, minWidth);
    var d := Magnitude(ToBase12(n, minWidth));
    if n < 0 {
      ReadNegative(d);
    } else {
      ReadUnsigned(d);
    }
  }

  // ---------------------------------------------------------------------
  // Bytes

  /**
   * `bytes_to_base12(b)`: the bytes as a big-endian unsigned number, in
   * canonical base 12; empty bytes, like zero bytes, give "0".
   */
  function BytesToBase12(b: seq<byte>): (r: string)
    ensures r == ToBase12(BytesValue(b), 0)
    ensures Canonical(r) && AllDigits12(r) && Value(r) == BytesValue(b)
  {
    SpellValue(BytesValue(b));
    if b == [] then "0" else ToBase12(BytesValue(b), 0)
  }

  function ZeroBytesOf(len: int): (r: seq<byte>)
    ensures |r| == (if len < 0 then 0 else len) && forall i :: 0 <= i < |r| ==> r[i] == 0
  {
    if len <= 0 then [] else [0] + ZeroBytesOf(len - 1)
  }

  lemma {:induction false} PowGrows(len: nat, more: nat)
    requires len <= more
    ensures Pow256(len) <= Pow256(more)
    decreases more
  {
    if len < more {
      PowGrows(len, more - 1);
    }
  }

  /**
   * `base12_to_bytes(s, length)`: the parsed value as big-endian bytes, of
   * the minimal length or of `length`. A negative value, or a `length` below
   * the minimal one, is an error; zero gives no bytes, or `length` zero bytes.
   */
  function Base12ToBytes(s: string, length: Option<int>): (r: Result<seq<byte>, ValueError>)
    ensures FromBase12(s).Err? ==> r == Err(FromBase12(s).error)
    ensures FromBase12(s).Ok? && FromBase12(s).value < 0
      ==> r == Err(ValueError("cannot convert negative base-12 value to bytes"))
    ensures r.Ok? ==> FromBase12(s).Ok? && BytesValue(r.value) == FromBase12(s).value
    ensures r.Ok? && length.Some? ==> |r.value| == if length.value < 0 then 0 else length.value
    ensures r.Ok? && length.None? ==> |r.value| == ByteLen(BytesValue(r.value))
    ensures FromBase12(s).Ok? && FromBase12(s).value >= 0
      && (FromBase12(s).value == 0 || length.None? || length.value >= ByteLen(FromBase12(s).value))
      ==> r.Ok?
    ensures FromBase12(s).Ok? && FromBase12(s).value > 0 && length.Some? && length.value < ByteLen(FromBase12(s).value)
      ==> r == Err(ValueError("provided length " + IntToString(length.value) + " too small to hold value (needs "
        + IntToString(ByteLen(FromBase12(s).value)) + ")"))
  {
    var n :- FromBase12(s);
    if n < 0 then Err(ValueError("cannot convert negative base-12 value to bytes"))
    else if n == 0 then
      var zeros := if length.None? then [] else ZeroBytesOf(length.value);
      ZeroValue(zeros);
      Ok(zeros)
    else
      var minLen := ByteLen(n);
      var len := if length.None? then minLen else length.value;
      if len < minLen then
        Err(ValueError("provided length " + IntToString(len) + " too small to hold value (needs "
          + IntToString(minLen) + ")"))
      else
        PowGrows(minLen, len);
        Ok(ToBytes(n, len))
  }

  lemma {:induction false} ZeroValue(b: seq<byte>)
    requires forall i :: 0 <= i < |b| ==> b[i] == 0
    ensures BytesValue(b) == 0
    decreases |b|
  {
    if b != [] {
      ZeroValue(b[..|b| - 1]);
    }
  }

  /** Empty bytes and bytes with a non-zero first byte come back without a length. */
  lemma BytesRoundTripMinimal(b: seq<byte>)
    requires b == [] || b[0] != 0
    ensures Base12ToBytes(BytesToBase12(b), None) == Ok(b)
  {
    var n := BytesValue(b);
    RoundTrip(n, 0);
    if b != [] {
      LeadingByteLen(b);
      BytesRoundTrip(b);
    }
  }

  /** Any bytes, leading zero bytes included, come back when their length is given. */
  lemma BytesRoundTripWithLength(b: seq<byte>)
    ensures Base12ToBytes(BytesToBase12(b), Some(|b|)) == Ok(b)
  {
    var n := BytesValue(b);
    RoundTrip(n, 0);
    if n == 0 {
      ZeroBytes(b);
      assert ZeroBytesOf(|b|) == b;
    } else {
      BytesRoundTrip(b);
      FitsOwnLength(b);
    }
  }

  /** The minimal length of the bytes' value is at most their own length. */
  lemma FitsOwnLength(b: seq<byte>)
    ensures ByteLen(BytesValue(b)) <= |b|
  {
    ByteLenAtMost(BytesValue(b), |b|);
  }

  /** A zero value gives no bytes unless a length asks for zero bytes. */
  lemma ZeroGivesNoBytes()
    ensures Base12ToBytes("0", None) == Ok([])
  {
    PlainDigits("0");
  }
}
