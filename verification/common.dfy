/**
 * Shared vocabulary: Option and Result for the Python code's `None` returns
 * and exceptions, and the handful of Python string operations the modelled
 * code leans on (`str.isspace`, `strip`, `rstrip`, `split()`, `join`, `lower`,
 * `str(int)`), written out over `seq<char>`.
 */
module Common {

  datatype Option<T> = None | Some(value: T)

  datatype Result<T, E> = Ok(value: T) | Err(error: E) {
    predicate IsFailure() { Err? }

    function PropagateFailure<U>(): Result<U, E>
      requires Err?
    {
      Err(error)
    }

    function Extract(): T
      requires Ok?
    {
      value
    }
  }

  /** Python's `str.isspace()` for one character (also what `\s` matches in a `str` regex). */
  predicate IsSpace(c: char) {
    var n := c as int;
    (9 <= n <= 13) || (28 <= n <= 32) || n == 0x85 || n == 0xA0 || n == 0x1680
    || (0x2000 <= n <= 0x200A) || n == 0x2028 || n == 0x2029 || n == 0x202F
    || n == 0x205F || n == 0x3000
  }

  /** ASCII classes; the modelled scanners are read over ASCII text. */
  predicate IsDigit(c: char) { '0' <= c <= '9' }

  predicate IsAlpha(c: char) { ('a' <= c <= 'z') || ('A' <= c <= 'Z') }

  predicate IsAlnum(c: char) { IsDigit(c) || IsAlpha(c) }

  /** A regex "word" character (`\w` restricted to ASCII). */
  predicate IsWordChar(c: char) { IsAlnum(c) || c == '_' }

  function LowerChar(c: char): char {
    if 'A' <= c <= 'Z' then (c as int + 32) as char else c
  }

  function Lower(s: string): (r: string)
    ensures |r| == |s|
    ensures forall i :: 0 <= i < |s| ==> r[i] == LowerChar(s[i])
  {
    if s == [] then [] else [LowerChar(s[0])] + Lower(s[1..])
  }

  /** Python `s.lstrip()`: leading whitespace removed. */
  function LStrip(s: string): (r: string)
    ensures |r| <= |s| && r == s[|s| - |r|..]
    ensures r == [] || !IsSpace(r[0])
    ensures forall i :: 0 <= i < |s| - |r| ==> IsSpace(s[i])
  {
    if |s| > 0 && IsSpace(s[0]) then
      var r := LStrip(s[1..]);
      assert forall i :: 1 <= i < |s| - |r| ==> s[i] == s[1..][i - 1];
      r
    else s
  }

  /** Python `s.rstrip()`: trailing whitespace removed. */
  function RStrip(s: string): (r: string)
    ensures |r| <= |s| && r == s[..|r|]
    ensures r == [] || !IsSpace(r[|r| - 1])
    ensures forall i :: |r| <= i < |s| ==> IsSpace(s[i])
  {
    if |s| > 0 && IsSpace(s[|s| - 1]) then RStrip(s[..|s| - 1]) else s
  }

  /** Python `s.strip()`. */
  function Strip(s: string): string { LStrip(RStrip(s)) }

  /** Strip leaves alone a text that neither starts nor ends with whitespace. */
  lemma StripKeeps(s: string)
    requires s == [] || (!IsSpace(s[0]) && !IsSpace(s[|s| - 1]))
    ensures Strip(s) == s
  {
  }

  /** Strip drops one leading space before a text that has no other whitespace at its ends. */
  lemma StripOneLeading(s: string)
    requires |s| >= 2 && IsSpace(s[0]) && !IsSpace(s[1]) && !IsSpace(s[|s| - 1])
    ensures Strip(s) == s[1..]
  {
    var r := RStrip(s);
    assert |r| == |s|;
  }

  /** A text with a non-space character does not strip to nothing. */
  lemma StripNonBlank(s: string, i: nat)
    requires i < |s| && !IsSpace(s[i])
    ensures Strip(s) != []
  {
    var r := RStrip(s);
    assert i < |r|;
    assert LStrip(r) != [] by {
      assert r[i] == s[i];
    }
  }

  /** The longest prefix of `s` without whitespace. */
  function Word(s: string): (r: string)
    ensures r <= s
    ensures forall c :: c in r ==> !IsSpace(c)
    ensures |r| < |s| ==> IsSpace(s[|r|])
  {
    if s == [] || IsSpace(s[0]) then [] else [s[0]] + Word(s[1..])
  }

  /** Python `s.split()`: the maximal runs of non-whitespace characters, in order. */
  function SplitWS(s: string): (r: seq<string>)
    ensures forall i :: 0 <= i < |r| ==> r[i] != [] && forall c :: c in r[i] ==> !IsSpace(c)
    decreases |s|
  {
    var t := LStrip(s);
    if t == [] then [] else
      var w := Word(t);
      assert w != [] by {
        assert !IsSpace(t[0]);
      }
      var rest := SplitWS(t[|w|..]);
      PrependWord(w, rest);
      [w] + rest
  }

  lemma PrependWord(w: string, rest: seq<string>)
    requires w != [] && forall c :: c in w ==> !IsSpace(c)
    requires forall i :: 0 <= i < |rest| ==> rest[i] != [] && forall c :: c in rest[i] ==> !IsSpace(c)
    ensures forall i :: 0 <= i < |rest| + 1 ==> ([w] + rest)[i] != [] && forall c :: c in ([w] + rest)[i] ==> !IsSpace(c)
  {
    forall i | 0 <= i < |rest| + 1
      ensures ([w] + rest)[i] != [] && forall c :: c in ([w] + rest)[i] ==> !IsSpace(c)
    {
      if i > 0 {
        assert ([w] + rest)[i] == rest[i - 1];
      }
    }
  }

  /** Python `sep.join(parts)`. */
  function Join(parts: seq<string>, sep: string): string {
    if parts == [] then []
    else if |parts| == 1 then parts[0]
    else parts[0] + sep + Join(parts[1..], sep)
  }

  /** The index of the first occurrence of `c` in `s` (Python `s.find(c)` when found). */
  function Find(s: string, c: char): (r: Option<nat>)
    ensures r.Some? ==> r.value < |s| && s[r.value] == c && c !in s[..(r.value)]
    ensures r.None? ==> c !in s
  {
    if s == [] then None
    else if s[0] == c then Some(0)
    else match Find(s[1..], c)
      case None => None
      case Some(k) => Some(k + 1)
  }

  /** Concatenation regroups freely. */
  lemma ConcatAssoc<T>(a: seq<T>, b: seq<T>, c: seq<T>)
    ensures a + b + c == a + (b + c)
  {
  }

  /** The first occurrence is the one `Find` reports. */
  lemma FindFirst(s: string, c: char, i: nat)
    requires i < |s| && s[i] == c && c !in s[..i]
    ensures Find(s, c) == Some(i)
  {
  }

  function DigitChar(d: nat): (r: char)
    requires d < 10
    ensures IsDigit(r) && r as int - '0' as int == d
  {
    "0123456789"[d]
  }

  /** Python `str(n)` for a non-negative int. */
  function NatToString(n: nat): (r: string)
    ensures r != [] && AllDigits(r)
    decreases n
  {
    if n < 10 then [DigitChar(n)] else NatToString(n / 10) + [DigitChar(n % 10)]
  }

  /** Python `str(n)` for an int. */
  function IntToString(n: int): string {
    if n < 0 then "-" + NatToString(-n) else NatToString(n)
  }

  predicate AllDigits(s: string) { forall i :: 0 <= i < |s| ==> IsDigit(s[i]) }

  /** The value of a run of decimal digits (Python `int(s)` on such a run). */
  function DecimalValue(s: string): nat
    requires AllDigits(s)
  {
    if s == [] then 0 else DecimalValue(s[..|s| - 1]) * 10 + (s[|s| - 1] as int - '0' as int)
  }

  /** `int(str(n)) == n`: the decimal spelling of a non-negative int reads back as it. */
  lemma {:induction false} NatToStringRoundTrip(n: nat)
    ensures DecimalValue(NatToString(n)) == n
    decreases n
  {
    if n >= 10 {
      var s := NatToString(n);
      assert s[..|s| - 1] == NatToString(n / 10);
      NatToStringRoundTrip(n / 10);
    }
  }

  /** `c * n` for a one-character string. */
  function Repeat(c: char, n: nat): (r: string)
    ensures |r| == n && forall i :: 0 <= i < n ==> r[i] == c
  {
    if n == 0 then [] else [c] + Repeat(c, n - 1)
  }

  /** A sequence without repetitions has as many distinct elements as entries. */
  lemma {:induction false} DistinctCard<T>(ws: seq<T>)
    requires forall i, j :: 0 <= i < j < |ws| ==> ws[i] != ws[j]
    ensures |set w | w in ws| == |ws|
  {
    if ws != [] {
      DistinctCard(ws[1..]);
      assert (set w | w in ws) == {ws[0]} + set w | w in ws[1..];
      assert ws[0] !in ws[1..];
    }
  }
}
