/**
 * The base-12 helpers of trion_runtime.py: signed integers to and from
 * base-12 text, bytes to base-12 text (optionally with a fixed number of
 * fraction digits), and base-12 text with an optional fraction back to
 * bytes and a scale. Failures set the runtime's last-error text and return
 * `None`; here they are `Err` with that text.
 */
module RuntimeCodec {
  import opened Common
  import opened Base12
  import CompilerCodec

  // ---------------------------------------------------------------------
  // Integers

  /** The texts the helpers leave as the runtime's last error, and the names that prefix them. */
  const ToArgsError := "tr_to_base12_u64: invalid args"
  const FromName := "tr_from_base12_u64"
  const FromArgsError := FromName + ": invalid args"
  const ScaleName := "base12_to_bytes_with_scale"
  const ScaleArgsError := ScaleName + ": invalid args"
  const NegativeScaleError := "bytes_to_base12_scaled: negative scale"

  /**
   * `tr_to_base12_u64(n)`: `None` is rejected; otherwise the digits of |n|
   * with a `-` for negative `n`, which is exactly the compiler's unpadded
   * spelling.
   */
  function ToBase12U64(n: Option<int>): (r: Result<string, string>)
    ensures r.Err? <==> n.None?
    ensures r.Err? ==> r.error == ToArgsError
    ensures n.Some? ==> r == Ok(CompilerCodec.ToBase12(n.value, 0))
  {
    if n.None? then Err(ToArgsError)
    else if n.value == 0 then Ok("0")
    else
      var s := Spell(CompilerCodec.Abs(n.value));
      Ok(if n.value < 0 then "-" + s else s)
  }

  /**
   * The digit loop shared by `tr_from_base12_u64` and
   * `base12_to_bytes_with_scale`: `_` and spaces are skipped, digits of
   * either case accumulate as `val * 12 + d`, and the first other character
   * stops the loop with an error naming it.
   */
  function ReadLoop(who: string, body: string, val: nat): (r: Result<nat, string>)
    ensures r.Ok? <==> forall i :: 0 <= i < |body| ==> CompilerCodec.DigitOrSeparator(body[i])
    decreases |body|
  {
    if body == [] then Ok(val)
    else
      CompilerCodec.FirstAndRest(body);
      if body[0] == '_' || body[0] == ' ' then ReadLoop(who, body[1..], val)
      else if IsDigit12(body[0]) then ReadLoop(who, body[1..], val * 12 + DigitValue(body[0]))
      else Err(who + ": invalid digit '" + [body[0]] + "'")
  }

  /**
   * What the loop computes: started on the value of the digits already read,
   * it ends on the value of those digits followed by the body's digits.
   */
  lemma {:induction false} ReadLoopValue(who: string, read: string, body: string)
    requires AllDigits12(read)
    requires forall i :: 0 <= i < |body| ==> CompilerCodec.DigitOrSeparator(body[i])
    ensures AllDigits12(read + CompilerCodec.RemoveSeparators(body))
    ensures ReadLoop(who, body, Value(read)) == Ok(Value(read + CompilerCodec.RemoveSeparators(body)))
    decreases |body|
  {
    if body == [] {
      assert read + [] == read;
    } else {
      CompilerCodec.FirstAndRest(body);
      var rest := CompilerCodec.RemoveSeparators(body[1..]);
      if body[0] == '_' || body[0] == ' ' {
        assert CompilerCodec.RemoveSeparators(body) == rest;
        ReadLoopValue(who, read, body[1..]);
      } else {
        ValueSnoc(read, body[0]);
        ReadLoopValue(who, read + [body[0]], body[1..]);
        DigitKept(read, body);
      }
    }
  }

  /** A leading digit survives separator removal, in front of the rest. */
  lemma DigitKept(read: string, body: string)
    requires body != [] && body[0] != '_' && body[0] != ' '
    ensures read + CompilerCodec.RemoveSeparators(body) == (read + [body[0]]) + CompilerCodec.RemoveSeparators(body[1..])
  {
    ConcatAssoc(read, [body[0]], CompilerCodec.RemoveSeparators(body[1..]));
  }

  /** One more digit at the end multiplies the value by 12 and adds the digit. */
  lemma ValueSnoc(read: string, c: char)
    requires AllDigits12(read) && IsDigit12(c)
    ensures AllDigits12(read + [c]) && Value(read + [c]) == Value(read) * 12 + DigitValue(c)
  {
    var more := read + [c];
    assert more[..|more| - 1] == read;
  }

  /** Digits with no separator read as their value. */
  lemma ReadsDigits(who: string, d: string)
    requires forall i :: 0 <= i < |d| ==> IsOutputDigit(d[i])
    ensures AllDigits12(d) && ReadLoop(who, d, 0) == Ok(Value(d))
  {
    CompilerCodec.NoSeparators(d);
    ReadLoopValue(who, [], d);
    assert [] + d == d;
  }

  /** The text after a leading sign, or the whole text. Unlike the compiler, no blanks are dropped after the sign. */
  function Unsigned(t: string): string {
    if t != [] && CompilerCodec.IsSign(t[0]) then t[1..] else t
  }

  /**
   * `tr_from_base12_u64(s)`: `None` or a text that strips to nothing is
   * rejected; otherwise one sign is taken and the rest read by the digit
   * loop, so a lone sign reads as 0.
   */
  function FromBase12U64(s: Option<string>): (r: Result<int, string>)
    ensures s.None? || Strip(s.value) == [] ==> r == Err(FromArgsError)
    ensures r.Ok? <==> (s.Some? && Strip(s.value) != [] &&
      forall i :: 0 <= i < |Unsigned(Strip(s.value))| ==> CompilerCodec.DigitOrSeparator(Unsigned(Strip(s.value))[i]))
  {
    if s.None? then Err(FromArgsError) else FromStripped(Strip(s.value))
  }

  /** `tr_from_base12_u64` after the text is stripped. */
  function FromStripped(t: string): (r: Result<int, string>)
    ensures t == [] ==> r == Err(FromArgsError)
    ensures r.Ok? <==> t != [] && forall i :: 0 <= i < |Unsigned(t)| ==> CompilerCodec.DigitOrSeparator(Unsigned(t)[i])
  {
    if t == [] then Err(FromArgsError)
    else
      var v :- ReadLoop(FromName, Unsigned(t), 0);
      Ok(if t[0] == '-' then -(v as int) else v)
  }

  /** A successful read is the signed value of the digits after the sign, separators dropped. */
  lemma FromBase12Value(s: string)
    requires FromBase12U64(Some(s)).Ok?
    ensures var t := Strip(s);
      var d := CompilerCodec.RemoveSeparators(Unsigned(t));
      AllDigits12(d) && FromBase12U64(Some(s)).value == if t[0] == '-' then -(Value(d) as int) else Value(d)
  {
    var t := Strip(s);
    ReadLoopValue(FromName, [], Unsigned(t));
    assert [] + CompilerCodec.RemoveSeparators(Unsigned(t)) == CompilerCodec.RemoveSeparators(Unsigned(t));
  }

  /** A lone sign reads as 0 here, where the compiler's `from_base12` rejects it. */
  lemma LoneSignIsZero(c: char)
    requires CompilerCodec.IsSign(c)
    ensures FromBase12U64(Some([c])) == Ok(0)
    ensures CompilerCodec.FromBase12([c]).Err?
  {
    StripKeeps([c]);
    CompilerCodec.LoneSignRejected(c);
  }

  /** Every spelling the compiler writes, zero-padded or not, reads back as its number. */
  lemma ReadsCompilerSpelling(n: int, minWidth: int)
    ensures FromBase12U64(Some(CompilerCodec.ToBase12(n, minWidth))) == Ok(n)
  {
    CompilerCodec.MagnitudeDigits(n, minWidth);
    ReadsSpelling(CompilerCodec.ToBase12(n, minWidth), CompilerCodec.Abs(n));
  }

  /** A spelling in the compiler's shape, an optional `-` and plain digits, reads as its signed value. */
  lemma ReadsSpelling(r: string, v: nat)
    requires r != [] && (r[0] != '-' ==> r == CompilerCodec.Magnitude(r))
    requires var d := CompilerCodec.Magnitude(r);
      d != [] && (forall i :: 0 <= i < |d| ==> IsOutputDigit(d[i])) && AllDigits12(d) && v == Value(d)
    ensures FromBase12U64(Some(r)) == Ok(if r[0] == '-' then -(v as int) else v)
  {
    var d := CompilerCodec.Magnitude(r);
    CompilerCodec.PlainDigits(d);
    if r[0] == '-' {
      SignThenMagnitude(r);
      CompilerCodec.NegativeStrip(d);
      assert r[1..] == d;
    }
    ReadsSigned(r, d, v);
  }

  lemma SignThenMagnitude(r: string)
    requires r != [] && r[0] == '-'
    ensures r == "-" + CompilerCodec.Magnitude(r)
  {
  }

  /** A trimmed text whose part after the sign is plain digits reads as their signed value. */
  lemma ReadsSigned(t: string, d: string, v: nat)
    requires t != [] && Strip(t) == t && Unsigned(t) == d
    requires (forall i :: 0 <= i < |d| ==> IsOutputDigit(d[i])) && AllDigits12(d) && v == Value(d)
    ensures FromBase12U64(Some(t)) == Ok(if t[0] == '-' then -(v as int) else v)
  {
    StrippedSigned(t, d, v);
  }

  lemma StrippedSigned(t: string, d: string, v: nat)
    requires t != [] && Unsigned(t) == d
    requires (forall i :: 0 <= i < |d| ==> IsOutputDigit(d[i])) && AllDigits12(d) && v == Value(d)
    ensures FromStripped(t) == Ok(if t[0] == '-' then -(v as int) else v)
  {
    ReadsDigits(FromName, d);
  }

  /** The runtime's two integer helpers are inverse: every number comes back. */
  lemma RoundTrip(n: int)
    ensures FromBase12U64(Some(ToBase12U64(Some(n)).value)) == Ok(n)
  {
    ReadsCompilerSpelling(n, 0);
  }

  /** Only spaces can lead a text of digits and separators, and the separator removal drops them anyway. */
  lemma {:induction false} LeadingBlanksDropped(x: string)
    requires forall i :: 0 <= i < |x| ==> CompilerCodec.DigitOrSeparator(x[i])
    ensures CompilerCodec.RemoveSeparators(LStrip(x)) == CompilerCodec.RemoveSeparators(x)
    decreases |x|
  {
    if x != [] && IsSpace(x[0]) {
      assert x[0] == ' ' by { CompilerCodec.FirstAndRest(x); }
      assert LStrip(x) == LStrip(x[1..]);
      assert CompilerCodec.RemoveSeparators(x) == CompilerCodec.RemoveSeparators(x[1..]);
      LeadingBlanksDropped(x[1..]);
    }
  }

  /**
   * Where both readers accept a text they agree on its value: the compiler
   * also drops blanks after the sign, but a text the runtime accepts has
   * only spaces there, which both drop.
   */
  lemma AgreesWithCompiler(s: string)
    requires FromBase12U64(Some(s)).Ok? && CompilerCodec.FromBase12(s).Ok?
    ensures FromBase12U64(Some(s)).value == CompilerCodec.FromBase12(s).value
  {
    var t := Strip(s);
    FromBase12Value(s);
    if CompilerCodec.IsSign(t[0]) {
      LeadingBlanksDropped(t[1..]);
    }
  }

  // ---------------------------------------------------------------------
  // Bytes

  /** `bytes_to_base12(b)`: empty bytes give "0"; otherwise the spelling of their big-endian value. */
  function BytesToBase12(b: seq<byte>): (r: string)
    ensures r == CompilerCodec.BytesToBase12(b)
    ensures Canonical(r) && AllDigits12(r) && Value(r) == BytesValue(b)
  {
    if b == [] then "0" else ToBase12U64(Some(BytesValue(b))).value
  }

  /**
   * `bytes_to_base12_scaled(b, scale)` as written: a short spelling is
   * padded with `scale + 1 - len` zeros after "0.", one more than the
   * `scale` fraction digits the function is asked for.
   */
  function ScaledAsWritten(b: seq<byte>, scale: int): (r: Result<string, string>)
    ensures r.Err? <==> scale < 0
  {
    var s := BytesToBase12(b);
    if scale < 0 then Err(NegativeScaleError)
    else if scale == 0 then Ok(s)
    else if |s| <= scale then Ok("0." + (Repeat('0', scale + 1 - |s|) + s))
    else Ok(s[..|s| - scale] + "." + s[|s| - scale..])
  }

  /**
   * `bytes_to_base12_scaled(b, scale)` corrected: the spelling with its
   * last `scale` digits after a point, a short one padded to exactly
   * `scale` fraction digits behind "0.".
   */
  function Scaled(b: seq<byte>, scale: int): (r: Result<string, string>)
    ensures r.Err? <==> scale < 0
    ensures r.Err? ==> r.error == NegativeScaleError
  {
    var s := BytesToBase12(b);
    if scale < 0 then Err(NegativeScaleError)
    else if scale == 0 then Ok(s)
    else if |s| <= scale then Ok("0." + (Repeat('0', scale - |s|) + s))
    else Ok(s[..|s| - scale] + "." + s[|s| - scale..])
  }

  /** The text before the first `.` and the text after it (empty when there is none). */
  function SplitPoint(body: string): (r: (string, string))
    ensures '.' !in r.0
    ensures '.' in body ==> body == r.0 + "." + r.1
    ensures '.' !in body ==> r == (body, "")
  {
    match Find(body, '.')
    case Some(i) =>
      assert body == body[..i] + "." + body[i + 1..];
      (body[..i], body[i + 1..])
    case None => (body, "")
  }

  /** `val.to_bytes` at the minimal length, with zero as the single byte 0. */
  function MinimalBytes(v: nat): (r: seq<byte>)
    ensures BytesValue(r) == v && r != []
    ensures v == 0 <==> r == [0]
    ensures v > 0 ==> |r| == ByteLen(v) && r[0] != 0
  {
    if v == 0 then
      assert BytesValue([0]) == BytesValue([]) * 256 + 0;
      [0]
    else
      MinimalLeads(v);
      ToBytes(v, ByteLen(v))
  }

  /** At the minimal length the first byte is not zero. */
  lemma MinimalLeads(v: nat)
    requires v > 0
    ensures ToBytes(v, ByteLen(v))[0] != 0
  {
    LeadingZeroSmall(ToBytes(v, ByteLen(v)));
  }

  /** A leading zero byte keeps the value below what the other bytes can hold. */
  lemma LeadingZeroSmall(r: seq<byte>)
    requires r != []
    ensures r[0] == 0 ==> BytesValue(r) < Pow256(|r| - 1)
  {
    if r[0] == 0 {
      DropLeadingZero(r);
    }
  }

  /** A leading zero byte adds nothing to the value. */
  lemma {:induction false} DropLeadingZero(r: seq<byte>)
    requires r != [] && r[0] == 0
    ensures BytesValue(r) == BytesValue(r[1..]) && BytesValue(r[1..]) < Pow256(|r| - 1)
    decreases |r|
  {
    if |r| > 1 {
      var init := r[..|r| - 1];
      assert init[0] == 0;
      DropLeadingZero(init);
      assert r[1..][..|r[1..]| - 1] == init[1..];
    } else {
      assert r == [0];
    }
  }

  /**
   * `base12_to_bytes_with_scale(s)`: `None` or a blank text is rejected; a
   * sign is skipped and not kept; the text splits at its first `.`; the
   * digits of both parts are read as one number, given as minimal
   * big-endian bytes (zero as one zero byte), with the length of the
   * fraction text as the scale.
   */
  function WithScale(s: Option<string>): (r: Result<(seq<byte>, nat), string>)
    ensures s.None? || Strip(s.value) == [] ==> r == Err(ScaleArgsError)
    ensures r.Ok? ==> var parts := SplitPoint(Unsigned(Strip(s.value)));
      r.value.1 == |parts.1| && r.value.0 != [] && (r.value.0[0] == 0 ==> r.value.0 == [0])
  {
    if s.None? then Err(ScaleArgsError) else ScaleStripped(Strip(s.value))
  }

  /** `base12_to_bytes_with_scale` after the text is stripped. */
  function ScaleStripped(t: string): (r: Result<(seq<byte>, nat), string>)
    ensures t == [] ==> r == Err(ScaleArgsError)
    ensures r.Ok? ==> r.value.1 == |SplitPoint(Unsigned(t)).1| && r.value.0 != [] && (r.value.0[0] == 0 ==> r.value.0 == [0])
  {
    if t == [] then Err(ScaleArgsError)
    else
      var parts := SplitPoint(Unsigned(t));
      var v :- ReadLoop(ScaleName, parts.0 + parts.1, 0);
      Ok((MinimalBytes(v), |parts.1|))
  }

  /**
   * What `base12_to_bytes_with_scale` reads, for every text: it succeeds
   * exactly when the text is not blank and, after the sign, holds only
   * digits of either case, `_` and spaces around its first `.`; then the
   * bytes hold the value of all those digits, the separators dropped.
   */
  lemma WithScaleValue(s: string)
    ensures var parts := SplitPoint(Unsigned(Strip(s)));
      WithScale(Some(s)).Ok? <==>
        Strip(s) != [] && forall i :: 0 <= i < |parts.0 + parts.1| ==> CompilerCodec.DigitOrSeparator((parts.0 + parts.1)[i])
    ensures var parts := SplitPoint(Unsigned(Strip(s)));
      WithScale(Some(s)).Ok? ==>
        AllDigits12(CompilerCodec.RemoveSeparators(parts.0 + parts.1))
        && BytesValue(WithScale(Some(s)).value.0) == Value(CompilerCodec.RemoveSeparators(parts.0 + parts.1))
  {
    if Strip(s) != [] {
      var parts := SplitPoint(Unsigned(Strip(s)));
      ScaleBodyValue(parts.0, parts.1);
    }
  }

  /** The digit loop over both parts of a split text: the value of all their digits, separators dropped. */
  lemma ScaleBodyValue(ip: string, fp: string)
    ensures var body := ip + fp;
      (ReadLoop(ScaleName, body, 0).Ok? <==> forall i :: 0 <= i < |body| ==> CompilerCodec.DigitOrSeparator(body[i]))
      && (ReadLoop(ScaleName, body, 0).Ok? ==>
        AllDigits12(CompilerCodec.RemoveSeparators(body))
        && BytesValue(MinimalBytes(ReadLoop(ScaleName, body, 0).value)) == Value(CompilerCodec.RemoveSeparators(body)))
  {
    var body := ip + fp;
    if forall i :: 0 <= i < |body| ==> CompilerCodec.DigitOrSeparator(body[i]) {
      ReadLoopValue(ScaleName, [], body);
      assert [] + CompilerCodec.RemoveSeparators(body) == CompilerCodec.RemoveSeparators(body);
    }
  }

  /** `base12_to_bytes(s)`: the bytes of `base12_to_bytes_with_scale`, the scale dropped. */
  function Base12ToBytes(s: Option<string>): (r: Result<seq<byte>, string>)
    ensures r.Ok? <==> WithScale(s).Ok?
    ensures r.Ok? ==> r.value == WithScale(s).value.0
  {
    var (out, _) :- WithScale(s);
    Ok(out)
  }

  /**
   * A text of plain digits with one point reads as the value of all its
   * digits, at the scale of the digits after the point.
   */
  lemma ReadsPointed(t: string, ip: string, fp: string)
    requires t == ip + "." + fp
    requires ip != [] && forall i :: 0 <= i < |ip| ==> IsOutputDigit(ip[i])
    requires forall i :: 0 <= i < |fp| ==> IsOutputDigit(fp[i])
    ensures AllDigits12(ip + fp)
    ensures WithScale(Some(t)) == Ok((MinimalBytes(Value(ip + fp)), |fp|))
  {
    assert t[0] == ip[0];
    assert t[|t| - 1] == if fp == [] then '.' else fp[|fp| - 1];
    StripKeeps(t);
    PointAt(ip, fp);
    var d := ip + fp;
    assert forall i :: 0 <= i < |d| ==> IsOutputDigit(d[i]);
    ReadsParts(t, ip, fp);
  }

  /** A trimmed, unsigned text whose parts are plain digits reads as the value of those digits. */
  lemma ReadsParts(t: string, ip: string, fp: string)
    requires t != [] && Strip(t) == t && !CompilerCodec.IsSign(t[0]) && SplitPoint(t) == (ip, fp)
    requires forall i :: 0 <= i < |ip + fp| ==> IsOutputDigit((ip + fp)[i])
    ensures AllDigits12(ip + fp) && WithScale(Some(t)) == Ok((MinimalBytes(Value(ip + fp)), |fp|))
  {
    ReadsDigits(ScaleName, ip + fp);
  }

  lemma PointAt(ip: string, fp: string)
    requires forall i :: 0 <= i < |ip| ==> IsOutputDigit(ip[i])
    ensures SplitPoint(ip + "." + fp) == (ip, fp)
  {
    var t := ip + "." + fp;
    assert t[..|ip|] == ip;
    FindFirst(t, '.', |ip|);
    assert t[|ip| + 1..] == fp;
  }

  /** A plain spelling with no point reads as its value at scale 0. */
  lemma ReadsPlain(d: string)
    requires d != [] && forall i :: 0 <= i < |d| ==> IsOutputDigit(d[i])
    ensures AllDigits12(d) && WithScale(Some(d)) == Ok((MinimalBytes(Value(d)), 0))
  {
    CompilerCodec.PlainDigits(d);
    NoPoint(d);
    ReadsParts(d, d, []);
    assert d + [] == d;
  }

  lemma NoPoint(d: string)
    requires forall i :: 0 <= i < |d| ==> IsOutputDigit(d[i])
    ensures SplitPoint(d) == (d, [])
  {
    assert '.' !in d;
  }

  /** Zeros and then output digits are output digits with the same value. */
  lemma PaddedDigits(k: nat, s: string)
    requires Canonical(s)
    ensures var p := Repeat('0', k) + s;
      (forall i :: 0 <= i < |p| ==> IsOutputDigit(p[i])) && AllDigits12(p) && Value(p) == Value(s)
  {
    CompilerCodec.ZerosThenDigits(k, s);
    assert AllDigits12(s);
    LeadingZeros(k, s);
  }

  /** "0." and then padding zeros before a canonical spelling reads as the spelling's value, at the scale of everything after the point. */
  lemma ReadsPadded(t: string, k: nat, s: string, v: nat, n: nat)
    requires t == "0." + (Repeat('0', k) + s) && Canonical(s) && v == Value(s) && n == k + |s|
    ensures WithScale(Some(t)) == Ok((MinimalBytes(v), n))
  {
    PaddedShape(k, s);
    ReadsZeroPointed(t, Repeat('0', k) + s, v, n);
  }

  /** Padding zeros and the spelling are output digits which, behind one more zero, are worth the spelling. */
  lemma PaddedShape(k: nat, s: string)
    requires Canonical(s)
    ensures var fp := Repeat('0', k) + s;
      |fp| == k + |s| && (forall i :: 0 <= i < |fp| ==> IsOutputDigit(fp[i]))
      && AllDigits12("0" + fp) && Value("0" + fp) == Value(s)
  {
    PaddedDigits(k, s);
    ZeroPointValue(k, s);
  }

  /** "0." and digits worth `v` read as the bytes of `v`. */
  lemma ReadsZeroPointed(t: string, fp: string, v: nat, n: nat)
    requires t == "0." + fp && forall i :: 0 <= i < |fp| ==> IsOutputDigit(fp[i])
    requires AllDigits12("0" + fp) && Value("0" + fp) == v && |fp| == n
    ensures WithScale(Some(t)) == Ok((MinimalBytes(v), n))
  {
    PointAfterZero(fp);
    ZeroIsDigit();
    ReadsPointed(t, "0", fp);
  }

  lemma ZeroIsDigit()
    ensures "0" != [] && forall i :: 0 <= i < |"0"| ==> IsOutputDigit("0"[i])
  {
  }

  /** The zero before the point is one more leading zero of the digits read. */
  lemma ZeroPointValue(k: nat, s: string)
    requires Canonical(s)
    ensures AllDigits12("0" + (Repeat('0', k) + s)) && Value("0" + (Repeat('0', k) + s)) == Value(s)
  {
    PaddedDigits(k + 1, s);
    OneMoreZero(k, s);
  }

  lemma PointAfterZero(fp: string)
    ensures "0." + fp == "0" + "." + fp
  {
    assert "0." == "0" + ".";
  }

  lemma OneMoreZero(k: nat, s: string)
    ensures "0" + (Repeat('0', k) + s) == Repeat('0', k + 1) + s
  {
    ConcatAssoc("0", Repeat('0', k), s);
  }

  lemma CutJoin(s: string, j: nat)
    requires j <= |s|
    ensures s[..j] + s[j..] == s
  {
  }

  /**
   * The corrected scaled spelling reads back as the bytes' value at the
   * requested scale: the scale survives the round trip.
   */
  lemma ScaledRoundTrip(b: seq<byte>, scale: nat, v: nat)
    requires v == BytesValue(b)
    ensures WithScale(Some(Scaled(b, scale).value)) == Ok((MinimalBytes(v), scale))
  {
    var s := BytesToBase12(b);
    var t := Scaled(b, scale).value;
    if scale == 0 {
      ReadsPlainValue(t, s, v);
    } else if |s| <= scale {
      ReadsPadded(t, scale - |s|, s, v, scale);
    } else {
      var j := |s| - scale;
      CutDigits(s, j);
      ReadsCut(t, s[..j], s[j..], s, v, scale);
    }
  }

  /** A canonical spelling with no point reads as its value at scale 0. */
  lemma ReadsPlainValue(t: string, s: string, v: nat)
    requires t == s && Canonical(s) && v == Value(s)
    ensures WithScale(Some(t)) == Ok((MinimalBytes(v), 0))
  {
    ReadsPlain(s);
  }

  /** Digits split anywhere, with a point between the parts, read as the value of the whole at the scale of the second part. */
  lemma ReadsCut(t: string, ip: string, fp: string, s: string, v: nat, n: nat)
    requires t == ip + "." + fp && ip != [] && ip + fp == s && n == |fp|
    requires (forall i :: 0 <= i < |ip| ==> IsOutputDigit(ip[i])) && forall i :: 0 <= i < |fp| ==> IsOutputDigit(fp[i])
    requires AllDigits12(s) && v == Value(s)
    ensures WithScale(Some(t)) == Ok((MinimalBytes(v), n))
  {
    ReadsPointed(t, ip, fp);
  }

  /** Both parts of a canonical spelling cut inside it are output digits, and they join back to it. */
  lemma CutDigits(s: string, j: nat)
    requires Canonical(s) && 0 < j <= |s|
    ensures s[..j] != [] && s[..j] + s[j..] == s && AllDigits12(s)
    ensures forall i :: 0 <= i < |s[..j]| ==> IsOutputDigit(s[..j][i])
    ensures forall i :: 0 <= i < |s[j..]| ==> IsOutputDigit(s[j..][i])
  {
    assert forall i :: 0 <= i < |s[j..]| ==> s[j..][i] == s[j + i];
  }

  /** Bytes without a leading zero byte come back unchanged from the corrected scaled spelling. */
  lemma ScaledRoundTripBytes(b: seq<byte>, scale: nat)
    requires b != [] && b[0] != 0
    ensures WithScale(Some(Scaled(b, scale).value)) == Ok((b, scale))
  {
    ScaledRoundTrip(b, scale, BytesValue(b));
    MinimalOfLeading(b, BytesValue(b));
  }

  /** The minimal bytes of a value are the bytes it came from when they do not start with a zero byte. */
  lemma MinimalOfLeading(b: seq<byte>, v: nat)
    requires b != [] && b[0] != 0 && v == BytesValue(b)
    ensures MinimalBytes(v) == b
  {
    LeadingByteLen(b);
    BytesRoundTrip(b);
  }

  /**
   * As written, a spelling no longer than the scale reads back with one
   * fraction digit too many: the scale is not preserved.
   */
  lemma AsWrittenScaleOff(b: seq<byte>, scale: nat, v: nat)
    requires 0 < scale && |BytesToBase12(b)| <= scale && v == BytesValue(b)
    ensures WithScale(Some(ScaledAsWritten(b, scale).value)) == Ok((MinimalBytes(v), scale + 1))
  {
    AsWrittenOneScaleUp(b, scale);
    ScaledRoundTrip(b, scale + 1, v);
  }

  /** As written, a spelling no longer than the scale is the corrected spelling at one scale more. */
  lemma AsWrittenOneScaleUp(b: seq<byte>, scale: nat)
    requires 0 < scale && |BytesToBase12(b)| <= scale
    ensures ScaledAsWritten(b, scale) == Scaled(b, scale + 1)
  {
  }

  /** The smallest case: one byte 1 at scale 1 is written "0.01" ... */
  lemma AsWrittenExampleText()
    ensures ScaledAsWritten([1], 1) == Ok("0." + ("0" + "1"))
  {
    OneByteText();
    assert Repeat('0', 1) == "0";
  }

  lemma OneByteText()
    ensures BytesToBase12([1]) == "1"
  {
    assert BytesValue([1]) == 1;
  }

  /** ... which reads back at scale 2. */
  lemma AsWrittenExampleRead()
    ensures WithScale(Some("0." + ("0" + "1"))) == Ok(([1], 2))
  {
    OneDigitOne();
    ReadsPadded("0." + ("0" + "1"), 1, "1", 1, 2);
  }

  lemma OneDigitOne()
    ensures Repeat('0', 1) == "0" && Canonical("1") && Value("1") == 1 && MinimalBytes(1) == [1]
  {
    assert Repeat('0', 1) == "0";
    assert Value("1") == 1;
    assert ToBytes(1, 1) == [1];
  }

  /** Where the spelling is longer than the scale, the written and corrected versions agree. */
  lemma AsWrittenAgreesWhenLong(b: seq<byte>, scale: int)
    requires scale <= 0 || |BytesToBase12(b)| > scale
    ensures ScaledAsWritten(b, scale) == Scaled(b, scale)
  {
  }

  /** Zero reads as one zero byte here, where the compiler's `base12_to_bytes` gives no bytes. */
  lemma ZeroIsOneByte()
    ensures Base12ToBytes(Some("0")) == Ok([0])
    ensures CompilerCodec.Base12ToBytes("0", None) == Ok([])
  {
    ReadsPlain("0");
    CompilerCodec.ZeroGivesNoBytes();
  }

  /** The sign is read past and dropped: `-d` gives the bytes and scale of `d`. */
  lemma SignDropped(d: string)
    requires d != [] && forall i :: 0 <= i < |d| ==> IsOutputDigit(d[i])
    ensures WithScale(Some("-" + d)) == WithScale(Some(d))
  {
    CompilerCodec.PlainDigits(d);
    CompilerCodec.NegativeStrip(d);
    SignedUnsigned(d);
    SameUnsigned("-" + d, d);
  }

  lemma SignedUnsigned(d: string)
    requires d != [] && IsOutputDigit(d[0])
    ensures Unsigned("-" + d) == d && Unsigned(d) == d && "-" + d != []
  {
    assert ("-" + d)[1..] == d;
  }

  /** Two trimmed texts with the same part after their sign read alike. */
  lemma SameUnsigned(t: string, u: string)
    requires t != [] && u != [] && Strip(t) == t && Strip(u) == u && Unsigned(t) == Unsigned(u)
    ensures WithScale(Some(t)) == WithScale(Some(u))
  {
  }
}
