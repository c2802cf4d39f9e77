/**
 * The Trion lexer (trion/lexer.py): a total, error-recovering scanner over
 * the source text. The scanner state is a cursor holding the position and
 * the line and column the position has reached.
 */
module TrionLexer {
  import opened Common
  import opened TrionTokens
  import opened TrionErrors
  import opened TextScan

  predicate AtComment(src: string, p: nat) {
    p + 1 < |src| && src[p] == '/' && src[p + 1] == '/'
  }

  function SkipToNewline(src: string, c: Cursor): (r: Cursor)
    requires c.pos <= |src|
    ensures c.pos <= r.pos <= |src|
    ensures r.pos == |src| || src[r.pos] == '\n'
    ensures forall i :: c.pos <= i < r.pos ==> src[i] != '\n'
    ensures Tracks(src, c) ==> Tracks(src, r)
    decreases |src| - c.pos
  {
    if c.pos < |src| && src[c.pos] != '\n' then SkipToNewline(src, Advance(src, c)) else c
  }

  /** `skip_comment`: from `//` up to, not including, the end of the line. */
  function SkipComment(src: string, c: Cursor): (r: Cursor)
    requires c.pos <= |src|
    ensures r.pos <= |src|
    ensures AtComment(src, c.pos) ==> r.pos >= c.pos + 2 && (r.pos == |src| || src[r.pos] == '\n')
    ensures !AtComment(src, c.pos) ==> r == c
    ensures Tracks(src, c) ==> Tracks(src, r)
  {
    if AtComment(src, c.pos) then SkipToNewline(src, c) else c
  }

  /** The text an escape `\x` stands for inside a string opened by `quote`. */
  function Escape(x: char, quote: char): string {
    if x == 'n' then "\n"
    else if x == 't' then "\t"
    else if x == 'r' then "\r"
    else if x == '\\' then "\\"
    else if x == quote then [quote]
    else if x == '0' then [0 as char]
    else ['\\', x]
  }

  datatype StringScan = StringScan(value: string, next: Cursor, closed: bool)

  /** The loop of `read_string`, with the text decoded so far in `acc`. */
  function StringBody(src: string, c: Cursor, quote: char, acc: string): (r: StringScan)
    requires c.pos <= |src|
    ensures c.pos <= r.next.pos <= |src|
    ensures r.closed ==> r.next.pos > c.pos && src[r.next.pos - 1] == quote
    ensures !r.closed ==> r.next.pos == |src|
    ensures acc <= r.value
    ensures Tracks(src, c) ==> Tracks(src, r.next)
    decreases |src| - c.pos
  {
    if c.pos >= |src| then StringScan(acc, c, false)
    else if src[c.pos] == quote then StringScan(acc, Advance(src, c), true)
    else if src[c.pos] == '\\' then
      var c1 := Advance(src, c);
      if c1.pos >= |src| then StringBody(src, c1, quote, acc + "\\")
      else StringBody(src, Advance(src, c1), quote, acc + Escape(src[c1.pos], quote))
    else StringBody(src, Advance(src, c), quote, acc + [src[c.pos]])
  }

  /** Without backslashes the decoded text is the raw text up to the closing quote. */
  lemma {:induction false} StringBodyRaw(src: string, c: Cursor, quote: char, acc: string)
    requires c.pos <= |src|
    requires forall i :: c.pos <= i < |src| ==> src[i] != '\\'
    ensures var r := StringBody(src, c, quote, acc);
      r.value == acc + src[c.pos..(if r.closed then r.next.pos - 1 else r.next.pos)]
    decreases |src| - c.pos
  {
    if c.pos < |src| && src[c.pos] != quote {
      var c1 := Advance(src, c);
      var a1 := acc + [src[c.pos]];
      assert StringBody(src, c, quote, acc) == StringBody(src, c1, quote, a1);
      StringBodyRaw(src, c1, quote, a1);
      var r := StringBody(src, c1, quote, a1);
      var e := if r.closed then r.next.pos - 1 else r.next.pos;
      assert src[c.pos..e] == [src[c.pos]] + src[c1.pos..e];
      assert a1 + src[c1.pos..e] == acc + src[c.pos..e];
    }
  }

  datatype StringRead = StringRead(value: string, next: Cursor, error: Option<TrionError>)

  /**
   * `read_string`: decodes up to the matching quote; without one it records
   * "Unterminated string literal" at the end of the input and keeps the text.
   */
  function ReadString(src: string, c: Cursor, fname: Option<string>): (r: StringRead)
    requires c.pos < |src| && src[c.pos] in "\"'"
    ensures c.pos < r.next.pos <= |src|
    ensures r.error.None? ==> src[r.next.pos - 1] == src[c.pos] && r.next.pos >= c.pos + 2
    ensures r.error.Some? ==> r.next.pos == |src|
    ensures r.error.Some? ==>
      r.error.value == TrionError(BaseError, "Unterminated string literal",
                                  Some(r.next.line), Some(r.next.column), fname)
    ensures Tracks(src, c) ==> Tracks(src, r.next)
  {
    var s := StringBody(src, Advance(src, c), src[c.pos], "");
    if s.closed then StringRead(s.value, s.next, None)
    else StringRead(s.value, s.next,
                    Some(TrionError(BaseError, "Unterminated string literal",
                                    Some(s.next.line), Some(s.next.column), fname)))
  }

  datatype NumberScan = NumberScan(isFloat: bool, value: string, next: Cursor)

  /** Where the digits-and-one-dot loop stops, and whether it took a dot. */
  datatype MantissaEnd = MantissaEnd(isFloat: bool, next: Cursor)

  /**
   * The digits-and-one-dot loop of `read_number`; the text it appends to
   * the value is the source between `c` and where it stops.
   */
  function Mantissa(src: string, c: Cursor, hasDot: bool): (r: MantissaEnd)
    requires c.pos <= |src|
    ensures c.pos <= r.next.pos <= |src|
    ensures r.isFloat <==> hasDot || '.' in src[c.pos..(r.next.pos)]
    ensures forall i :: c.pos <= i < r.next.pos ==> IsDigit(src[i]) || src[i] == '.'
    ensures r.next.pos == |src| || !(IsDigit(src[r.next.pos]) || src[r.next.pos] == '.')
            || (src[r.next.pos] == '.' && r.isFloat)
    ensures Tracks(src, c) ==> Tracks(src, r.next)
    decreases |src| - c.pos
  {
    if c.pos < |src| && (IsDigit(src[c.pos]) || src[c.pos] == '.') && !(src[c.pos] == '.' && hasDot) then
      var c1 := Advance(src, c);
      var r := Mantissa(src, c1, hasDot || src[c.pos] == '.');
      assert src[c.pos..r.next.pos] == [src[c.pos]] + src[c1.pos..r.next.pos];
      r
    else MantissaEnd(hasDot, c)
  }

  /**
   * `read_number`: digits with at most one `.`, then an optional exponent
   * (`e`/`E`, an optional sign, digits). The value is the consumed text.
   */
  function ReadNumber(src: string, c: Cursor): (r: NumberScan)
    requires c.pos < |src| && IsDigit(src[c.pos])
    ensures c.pos < r.next.pos <= |src|
    ensures r.value == src[c.pos..(r.next.pos)]
    ensures r.isFloat <==> '.' in r.value || 'e' in r.value || 'E' in r.value
    ensures Tracks(src, c) ==> Tracks(src, r.next)
  {
    var m := Mantissa(src, c, false);
    if m.next.pos < |src| && LowerChar(src[m.next.pos]) == 'e' then
      var c3 := ExponentEnd(src, m.next);
      var v := src[c.pos..c3.pos];
      assert v[m.next.pos - c.pos] == src[m.next.pos];
      assert 'e' in v || 'E' in v;
      NumberScan(true, v, c3)
    else
      var v := src[c.pos..m.next.pos];
      assert 'e' !in v && 'E' !in v by {
        forall i | 0 <= i < |v|
          ensures v[i] != 'e' && v[i] != 'E'
        {
          assert v[i] == src[c.pos + i];
        }
      }
      NumberScan(m.isFloat, v, m.next)
  }

  /** The two-character operators, tried before any single character. */
  function TwoCharOperator(a: char, b: char): Option<TokenType> {
    if b == '=' then
      if a == '+' then Some(PLUS_ASSIGN)
      else if a == '-' then Some(MINUS_ASSIGN)
      else if a == '*' then Some(MULTIPLY_ASSIGN)
      else if a == '/' then Some(DIVIDE_ASSIGN)
      else if a == '=' then Some(EQUAL)
      else if a == '!' then Some(NOT_EQUAL)
      else if a == '<' then Some(LESS_EQUAL)
      else if a == '>' then Some(GREATER_EQUAL)
      else None
    else if a == '-' && b == '>' then Some(ARROW)
    else if a == '*' && b == '*' then Some(POWER)
    else None
  }

  function SingleCharToken(a: char): Option<TokenType> {
    match a
    case '+' => Some(PLUS)
    case '-' => Some(MINUS)
    case '*' => Some(MULTIPLY)
    case '/' => Some(DIVIDE)
    case '%' => Some(MODULO)
    case '=' => Some(ASSIGN)
    case '<' => Some(LESS_THAN)
    case '>' => Some(GREATER_THAN)
    case '(' => Some(LEFT_PAREN)
    case ')' => Some(RIGHT_PAREN)
    case '{' => Some(LEFT_BRACE)
    case '}' => Some(RIGHT_BRACE)
    case '[' => Some(LEFT_BRACKET)
    case ']' => Some(RIGHT_BRACKET)
    case ';' => Some(SEMICOLON)
    case ',' => Some(COMMA)
    case '.' => Some(DOT)
    case ':' => Some(COLON)
    case _ => None
  }

  datatype Step =
    | Done(at: Cursor)
    | Skipped(next: Cursor)
    | Emitted(tok: Token, error: Option<TrionError>, next: Cursor)
  {
    function After(): Cursor {
      match this
      case Done(at) => at
      case Skipped(next) => next
      case Emitted(_, _, next) => next
    }
  }

  /** `t` carries the line and column of position `p`, and `p` holds its first character. */
  predicate TokenStartsAt(src: string, t: Token, p: nat) {
    p < |src| && t.line == LineOf(src[..p]) && t.column == ColumnOf(src[..p])
    && (if t.kind == STRING then src[p] in "\"'" else t.value != [] && t.value[0] == src[p])
  }

  ghost predicate StartsInSource(src: string, t: Token) {
    exists p :: TokenStartsAt(src, t, p)
  }

  /**
   * What every branch of `TokenAt` promises: one token, at the cursor's line
   * and column, with the cursor moved past it.
   */
  predicate EmitsAt(src: string, c: Cursor, fname: Option<string>, r: Step)
    requires c.pos < |src|
  {
    r.Emitted? && c.pos < r.next.pos <= |src|
    && r.tok.kind != EOF && r.tok.line == c.line && r.tok.column == c.column
    && r.tok.filename == fname
    && (Tracks(src, c) ==> Tracks(src, r.next) && TokenStartsAt(src, r.tok, c.pos))
  }

  /** The token that starts at `c`, which holds neither a blank nor a comment. */
  function TokenAt(src: string, c: Cursor, fname: Option<string>): (r: Step)
    requires c.pos < |src| && !IsBlank(src[c.pos]) && !AtComment(src, c.pos)
    ensures r.Emitted? && r.next.pos > c.pos && r.next.pos <= |src|
    ensures r.tok.kind != EOF && r.tok.line == c.line && r.tok.column == c.column
    ensures r.tok.filename == fname
    ensures Tracks(src, c) ==> Tracks(src, r.next) && TokenStartsAt(src, r.tok, c.pos)
  {
    var ch := src[c.pos];
    if ch in "\"'" then StringToken(src, c, fname)
    else if IsDigit(ch) then NumberToken(src, c, fname)
    else if IsAlpha(ch) || ch == '_' then WordToken(src, c, fname)
    else SymbolToken(src, c, fname)
  }

  /** `_read_string`: a STRING token; an unterminated literal also reports an error. */
  function StringToken(src: string, c: Cursor, fname: Option<string>): (r: Step)
    requires c.pos < |src| && src[c.pos] in "\"'"
    ensures EmitsAt(src, c, fname, r)
  {
    var s := ReadString(src, c, fname);
    Emitted(Token(STRING, s.value, c.line, c.column, fname), s.error, s.next)
  }

  /** `_read_number`: a FLOAT when the spelling has a dot or an exponent, else an INTEGER. */
  function NumberToken(src: string, c: Cursor, fname: Option<string>): (r: Step)
    requires c.pos < |src| && IsDigit(src[c.pos])
    ensures EmitsAt(src, c, fname, r)
  {
    var n := ReadNumber(src, c);
    Emitted(Token(if n.isFloat then FLOAT else INTEGER, n.value, c.line, c.column, fname), None, n.next)
  }

  /** `_read_identifier`: a keyword kind when the word is in the table, else IDENTIFIER. */
  function WordToken(src: string, c: Cursor, fname: Option<string>): (r: Step)
    requires c.pos < |src| && (IsAlpha(src[c.pos]) || src[c.pos] == '_')
    ensures EmitsAt(src, c, fname, r)
  {
    var e := ReadIdentifier(src, c);
    var word := src[c.pos..e.pos];
    var kind := if word in Keywords then Keywords[word] else IDENTIFIER;
    KeywordsLowerCase();
    Emitted(Token(kind, word, c.line, c.column, fname), None, e)
  }

  /**
   * A newline, a two-character operator, a one-character token, or else an
   * INVALID token with an "Unexpected character" error.
   */
  function SymbolToken(src: string, c: Cursor, fname: Option<string>): (r: Step)
    requires c.pos < |src|
    ensures EmitsAt(src, c, fname, r)
  {
    var ch := src[c.pos];
    var nx := if c.pos + 1 < |src| then Some(src[c.pos + 1]) else None;
    if ch == '\n' then
      Emitted(Token(NEWLINE, "\n", c.line, c.column, fname), None, Advance(src, c))
    else if nx.Some? && TwoCharOperator(ch, nx.value).Some? then
      Emitted(Token(TwoCharOperator(ch, nx.value).value, [ch, nx.value], c.line, c.column, fname),
              None, Advance(src, Advance(src, c)))
    else if SingleCharToken(ch).Some? then
      Emitted(Token(SingleCharToken(ch).value, [ch], c.line, c.column, fname), None, Advance(src, c))
    else
      Emitted(Token(INVALID, [ch], c.line, c.column, fname),
              Some(TrionError(BaseError, "Unexpected character: '" + [ch] + "'",
                              Some(c.line), Some(c.column), fname)),
              Advance(src, c))
  }

  /** One iteration of the `tokenize` loop: skip blanks, then stop, skip a comment, or emit a token. */
  function ScanStep(src: string, c: Cursor, fname: Option<string>): (r: Step)
    requires c.pos < |src|
    ensures r.Done? ==> r.at.pos == |src|
    ensures !r.Done? ==> c.pos < r.After().pos <= |src|
    ensures r.Emitted? ==> r.tok.kind != EOF
    ensures Tracks(src, c) ==> Tracks(src, r.After())
    ensures r.Emitted? && Tracks(src, c) ==> StartsInSource(src, r.tok)
  {
    var s := SkipWhitespace(src, c);
    if s.pos >= |src| then Done(s)
    else if AtComment(src, s.pos) then Skipped(SkipComment(src, s))
    else TokenAt(src, s, fname)
  }

  /** The tokens and errors of the loop from `c` on, and the cursor at the end of the input. */
  function ScanFrom(src: string, c: Cursor, fname: Option<string>): (r: (seq<Token>, seq<TrionError>, Cursor))
    requires c.pos <= |src|
    ensures r.2.pos == |src|
    ensures forall i :: 0 <= i < |r.0| ==> r.0[i].kind != EOF
    ensures Tracks(src, c) ==> Tracks(src, r.2)
    decreases |src| - c.pos
  {
    if c.pos >= |src| then ([], [], c)
    else match ScanStep(src, c, fname)
      case Done(at) => ([], [], at)
      case Skipped(n) => ScanFrom(src, n, fname)
      case Emitted(tok, err, n) =>
        var rest := ScanFrom(src, n, fname);
        ([tok] + rest.0, (if err.Some? then [err.value] else []) + rest.1, rest.2)
  }

  datatype LexOutput = LexOutput(tokens: seq<Token>, reporter: Reporter)

  /**
   * `tokenize`: never aborts; its list ends in exactly one EOF token, placed at
   * the line and column where the input ends. Problems go to the reporter.
   */
  function Tokenize(src: string, fname: Option<string>): (r: LexOutput)
    ensures |r.tokens| > 0 && r.tokens[|r.tokens| - 1].kind == EOF
    ensures forall i :: 0 <= i < |r.tokens| - 1 ==> r.tokens[i].kind != EOF
    ensures r.tokens[|r.tokens| - 1].line == LineOf(src)
    ensures r.tokens[|r.tokens| - 1].column == ColumnOf(src)
    ensures r.reporter.warnings == []
  {
    var s := ScanFrom(src, Start, fname);
    assert src[..|src|] == src;
    LexOutput(s.0 + [Token(EOF, "", s.2.line, s.2.column, fname)], Reporter(s.1, []))
  }

  /**
   * Every token the scan emits carries the line and column of a character of the
   * input that starts it: the opening quote of a string, else its first character.
   */
  lemma {:induction false} TokensCarryTheirStart(src: string, c: Cursor, fname: Option<string>)
    requires Tracks(src, c)
    ensures var toks := ScanFrom(src, c, fname).0;
      forall i :: 0 <= i < |toks| ==> StartsInSource(src, toks[i])
    decreases |src| - c.pos
  {
    if c.pos < |src| {
      match ScanStep(src, c, fname)
      case Done(_) =>
      case Skipped(n) =>
        assert ScanFrom(src, c, fname) == ScanFrom(src, n, fname);
        TokensCarryTheirStart(src, n, fname);
        var toks := ScanFrom(src, c, fname).0;
        assert toks == ScanFrom(src, n, fname).0;
        assert forall i :: 0 <= i < |toks| ==> StartsInSource(src, toks[i]);
      case Emitted(tok, err, n) =>
        TokensCarryTheirStart(src, n, fname);
        assert ScanFrom(src, c, fname).0 == [tok] + ScanFrom(src, n, fname).0;
        assert StartsInSource(src, tok);
        assert forall i :: 0 <= i < |ScanFrom(src, n, fname).0| ==> StartsInSource(src, ScanFrom(src, n, fname).0[i]);
        AllStartConsed(src, tok, ScanFrom(src, n, fname).0);
    }
  }

  lemma AllStartConsed(src: string, tok: Token, rest: seq<Token>)
    requires StartsInSource(src, tok)
    requires forall i :: 0 <= i < |rest| ==> StartsInSource(src, rest[i])
    ensures forall i :: 0 <= i < |[tok] + rest| ==> StartsInSource(src, ([tok] + rest)[i])
  {
    forall i | 0 <= i < |[tok] + rest|
      ensures StartsInSource(src, ([tok] + rest)[i])
    {
      if i > 0 {
        assert ([tok] + rest)[i] == rest[i - 1];
      }
    }
  }

  /** A character no rule recognises: one error, one INVALID token, exactly one character consumed. */
  lemma UnknownCharacter(src: string, c: Cursor, fname: Option<string>)
    requires c.pos < |src|
    requires var ch := src[c.pos];
      !IsBlank(ch) && ch != '\n' && ch !in "\"'" && !IsDigit(ch) && !IsAlpha(ch) && ch != '_'
      && SingleCharToken(ch).None? && !(ch == '!' && c.pos + 1 < |src| && src[c.pos + 1] == '=')
    ensures ScanStep(src, c, fname)
      == Emitted(Token(INVALID, [src[c.pos]], c.line, c.column, fname),
                 Some(TrionError(BaseError, "Unexpected character: '" + [src[c.pos]] + "'",
                                 Some(c.line), Some(c.column), fname)),
                 Advance(src, c))
  {
    assert SkipWhitespace(src, c) == c;
  }

  /** A comment yields no token, a newline yields NEWLINE, and blanks are skipped first. */
  lemma CommentsNewlinesBlanks(src: string, c: Cursor, fname: Option<string>)
    requires c.pos < |src|
    ensures var s := SkipWhitespace(src, c);
      s.pos < |src| && AtComment(src, s.pos) ==> ScanStep(src, c, fname) == Skipped(SkipComment(src, s))
    ensures var s := SkipWhitespace(src, c);
      s.pos < |src| && src[s.pos] == '\n' ==>
        ScanStep(src, c, fname) == Emitted(Token(NEWLINE, "\n", s.line, s.column, fname), None, Advance(src, s))
    ensures var s := SkipWhitespace(src, c);
      s.pos == |src| ==> ScanStep(src, c, fname) == Done(s)
  {
  }

  /** A two-character operator wins over its first character alone. */
  lemma TwoCharacterOperatorsFirst(src: string, c: Cursor, fname: Option<string>)
    requires c.pos + 1 < |src| && !IsBlank(src[c.pos])
    requires TwoCharOperator(src[c.pos], src[c.pos + 1]).Some?
    ensures ScanStep(src, c, fname).Emitted?
    ensures ScanStep(src, c, fname).tok.kind == TwoCharOperator(src[c.pos], src[c.pos + 1]).value
    ensures ScanStep(src, c, fname).next.pos == c.pos + 2
  {
    assert SkipWhitespace(src, c) == c;
    OperatorStart(src[c.pos], src[c.pos + 1]);
    assert ScanStep(src, c, fname) == TokenAt(src, c, fname);
    TwoCharTokenAt(src, c, fname);
  }

  /** A two-character operator starts with an operator character, and a slash in one is not followed by a slash. */
  lemma OperatorStart(a: char, b: char)
    requires TwoCharOperator(a, b).Some?
    ensures a in "+-*/=!<>" && !(a == '/' && b == '/')
  {
  }

  lemma TwoCharTokenAt(src: string, c: Cursor, fname: Option<string>)
    requires c.pos + 1 < |src| && TwoCharOperator(src[c.pos], src[c.pos + 1]).Some?
    requires !IsBlank(src[c.pos]) && !AtComment(src, c.pos)
    ensures TokenAt(src, c, fname).tok.kind == TwoCharOperator(src[c.pos], src[c.pos + 1]).value
    ensures TokenAt(src, c, fname).next.pos == c.pos + 2
  {
    var ch := src[c.pos];
    OperatorStart(ch, src[c.pos + 1]);
    assert ch != '\n' && ch !in "\"'" && !IsDigit(ch) && !IsAlpha(ch) && ch != '_';
    assert TokenAt(src, c, fname) == SymbolToken(src, c, fname);
  }

  /** Plain digits are an INTEGER. */
  lemma IntegerExample()
    ensures ReadNumber("42", Start).value == "42" && !ReadNumber("42", Start).isFloat
  {
    var r := ReadNumber("42", Start);
    assert r.next.pos == 2;
  }

  /** Strings: a known escape is decoded ... */
  lemma KnownEscapeExample()
    ensures ReadString("\"\\n\"", Start, None).value == "\n"
  {
  }

  /** ... an unknown escape keeps its backslash ... */
  lemma UnknownEscapeExample()
    ensures ReadString("\"\\q\"", Start, None).value == "\\q"
  {
  }

  /** ... and a missing closing quote keeps the text read and records an error. */
  lemma UnterminatedExample()
    ensures ReadString("\"ab", Start, None).value == "ab" && ReadString("\"ab", Start, None).error.Some?
  {
    var src := "\"ab";
    assert StringBody(src, Cursor(1, 1, 2), '"', "") == StringBody(src, Cursor(2, 1, 3), '"', "a");
  }
}
