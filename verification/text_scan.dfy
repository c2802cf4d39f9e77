/**
 * A scanner's position in a source text together with the line and column
 * that position has reached, as both lexers keep them: `advance` moves to
 * column 1 of the next line after a newline and one column right otherwise.
 */
module TextScan {
  import opened Common

  datatype Cursor = Cursor(pos: nat, line: int, column: int)

  const Start := Cursor(0, 1, 1)

  /** The line on which the text following `s` starts: one more than the newlines in `s`. */
  function LineOf(s: string): int
    decreases |s|
  {
    if s == [] then 1 else LineOf(s[..|s| - 1]) + (if s[|s| - 1] == '\n' then 1 else 0)
  }

  /** The line of position `n` in `text`: one more than the newlines before it. */
  function LineAt(text: string, n: nat): int
    requires n <= |text|
  {
    if n == 0 then 1 else LineAt(text, n - 1) + (if text[n - 1] == '\n' then 1 else 0)
  }

  /** Counting up to a position is counting in the text before it. */
  lemma {:induction false} LineAtPrefix(text: string, n: nat)
    requires n <= |text|
    ensures LineAt(text, n) == LineOf(text[..n])
  {
    if n > 0 {
      LineAtPrefix(text, n - 1);
      assert text[..n][..n - 1] == text[..n - 1];
    }
  }

  /** A line number never goes down as the position moves right. */
  lemma {:induction false} LineAtMono(text: string, a: nat, b: nat)
    requires a <= b <= |text|
    ensures LineAt(text, a) <= LineAt(text, b)
    decreases b - a
  {
    if a < b {
      LineAtMono(text, a, b - 1);
    }
  }

  /** The column at which the text following `s` starts. */
  function ColumnOf(s: string): int
    decreases |s|
  {
    if s == [] then 1 else if s[|s| - 1] == '\n' then 1 else ColumnOf(s[..|s| - 1]) + 1
  }

  /** The cursor's line and column are those of its position in `src`. */
  predicate Tracks(src: string, c: Cursor) {
    c.pos <= |src| && c.line == LineOf(src[..c.pos]) && c.column == ColumnOf(src[..c.pos])
  }

  /** `advance`: a newline moves to column 1 of the next line, anything else one column right. */
  function Advance(src: string, c: Cursor): (r: Cursor)
    requires c.pos <= |src|
    ensures c.pos < |src| ==> r.pos == c.pos + 1
    ensures c.pos < |src| && src[c.pos] == '\n' ==> r.line == c.line + 1 && r.column == 1
    ensures c.pos < |src| && src[c.pos] != '\n' ==> r.line == c.line && r.column == c.column + 1
    ensures c.pos == |src| ==> r == c
    ensures Tracks(src, c) ==> Tracks(src, r)
  {
    if c.pos >= |src| then c
    else
      assert src[..c.pos + 1][..c.pos] == src[..c.pos];
      if src[c.pos] == '\n' then Cursor(c.pos + 1, c.line + 1, 1)
      else Cursor(c.pos + 1, c.line, c.column + 1)
  }

  predicate IsBlank(ch: char) { ch == ' ' || ch == '\t' || ch == '\r' }

  /** `skip_whitespace`: drops spaces, tabs and carriage returns, but not newlines. */
  function SkipWhitespace(src: string, c: Cursor): (r: Cursor)
    requires c.pos <= |src|
    ensures c.pos <= r.pos <= |src|
    ensures r.pos == |src| || !IsBlank(src[r.pos])
    ensures forall i :: c.pos <= i < r.pos ==> IsBlank(src[i])
    ensures r.line == c.line
    ensures Tracks(src, c) ==> Tracks(src, r)
    decreases |src| - c.pos
  {
    if c.pos < |src| && IsBlank(src[c.pos]) then SkipWhitespace(src, Advance(src, c)) else c
  }

  function Digits(src: string, c: Cursor): (r: Cursor)
    requires c.pos <= |src|
    ensures c.pos <= r.pos <= |src|
    ensures forall i :: c.pos <= i < r.pos ==> IsDigit(src[i])
    ensures r.pos == |src| || !IsDigit(src[r.pos])
    ensures r.line == c.line
    ensures Tracks(src, c) ==> Tracks(src, r)
    decreases |src| - c.pos
  {
    if c.pos < |src| && IsDigit(src[c.pos]) then Digits(src, Advance(src, c)) else c
  }

  /** The exponent: the `e` or `E`, an optional sign, then digits. */
  function ExponentEnd(src: string, c: Cursor): (r: Cursor)
    requires c.pos < |src|
    ensures c.pos < r.pos <= |src|
    ensures forall i :: c.pos < i < r.pos ==> IsDigit(src[i]) || (i == c.pos + 1 && src[i] in "+-")
    ensures Tracks(src, c) ==> Tracks(src, r)
  {
    var c1 := Advance(src, c);
    var c2 := if c1.pos < |src| && src[c1.pos] in "+-" then Advance(src, c1) else c1;
    Digits(src, c2)
  }

  /** `read_identifier`: the maximal run of letters, digits and underscores. */
  function ReadIdentifier(src: string, c: Cursor): (r: Cursor)
    requires c.pos <= |src|
    ensures c.pos <= r.pos <= |src|
    ensures forall i :: c.pos <= i < r.pos ==> IsWordChar(src[i])
    ensures r.pos == |src| || !IsWordChar(src[r.pos])
    ensures r.line == c.line
    ensures Tracks(src, c) ==> Tracks(src, r)
    decreases |src| - c.pos
  {
    if c.pos < |src| && IsWordChar(src[c.pos]) then ReadIdentifier(src, Advance(src, c)) else c
  }
}
