/**
 * The Rust-flavoured lexer of the `src/` front end (src/lexer/lexer.py).
 * Unlike the Trion lexer it stops at the first problem: an unterminated
 * string or block comment, or an unknown character, raises `LexerError`,
 * modelled as an `Err` result. A token carries the start column and the line
 * the scanner has reached once the token is read.
 */
module SrcLexer {
  import opened Common
  import opened TextScan

  datatype TokenType =
    // literals
    | INTEGER | FLOAT | STRING | CHAR | BOOLEAN
    | IDENTIFIER
    // keywords
    | FN | LET | MUT | IF | ELSE | MATCH | FOR | WHILE | LOOP | BREAK | CONTINUE | RETURN
    | TRUE | FALSE | STRUCT | ENUM | IMPL | TRAIT | MOD | USE | PUB | EXTERN | ASYNC | AWAIT
    // operators
    | PLUS | MINUS | MULTIPLY | DIVIDE | MODULO | POWER
    | ASSIGN | PLUS_ASSIGN | MINUS_ASSIGN | MULTIPLY_ASSIGN | DIVIDE_ASSIGN
    // comparison
    | EQUAL | NOT_EQUAL | LESS | LESS_EQUAL | GREATER | GREATER_EQUAL
    // logical
    | AND | OR | NOT
    // bitwise
    | BIT_AND | BIT_OR | BIT_XOR | BIT_NOT | LEFT_SHIFT | RIGHT_SHIFT
    // delimiters
    | LPAREN | RPAREN | LBRACE | RBRACE | LBRACKET | RBRACKET
    | SEMICOLON | COMMA | DOT | COLON | DOUBLE_COLON | ARROW | FAT_ARROW | QUESTION
    // special
    | NEWLINE | EOF | COMMENT | ERROR

  /** The `KEYWORDS` table. */
  const Keywords: map<string, TokenType> := map[
    "fn" := FN, "let" := LET, "mut" := MUT, "if" := IF, "else" := ELSE, "match" := MATCH,
    "for" := FOR, "while" := WHILE, "loop" := LOOP, "break" := BREAK, "continue" := CONTINUE,
    "return" := RETURN, "true" := TRUE, "false" := FALSE, "struct" := STRUCT, "enum" := ENUM,
    "impl" := IMPL, "trait" := TRAIT, "mod" := MOD, "use" := USE, "pub" := PUB,
    "extern" := EXTERN, "async" := ASYNC, "await" := AWAIT
  ]

  /** The table's keys in declaration order. */
  const KeywordWords: seq<string> := [
    "fn", "let", "mut", "if", "else", "match", "for", "while", "loop", "break", "continue",
    "return", "true", "false", "struct", "enum", "impl", "trait", "mod", "use", "pub",
    "extern", "async", "await"
  ]

  datatype Token = Token(kind: TokenType, value: string, line: int, column: int)

  /** `LexerError`: what went wrong and where. */
  datatype LexError = LexError(message: string, line: int, column: int)

  /** `str()` of a `LexerError`. */
  function ErrorText(e: LexError): string {
    "Lexer error at " + IntToString(e.line) + ":" + IntToString(e.column) + ": " + e.message
  }

  /** The word that spells a keyword kind: the inverse of the table. */
  function KeywordSpelling(t: TokenType): Option<string> {
    match t
    case FN => Some("fn")
    case LET => Some("let")
    case MUT => Some("mut")
    case IF => Some("if")
    case ELSE => Some("else")
    case MATCH => Some("match")
    case FOR => Some("for")
    case WHILE => Some("while")
    case LOOP => Some("loop")
    case BREAK => Some("break")
    case CONTINUE => Some("continue")
    case RETURN => Some("return")
    case TRUE => Some("true")
    case FALSE => Some("false")
    case STRUCT => Some("struct")
    case ENUM => Some("enum")
    case IMPL => Some("impl")
    case TRAIT => Some("trait")
    case MOD => Some("mod")
    case USE => Some("use")
    case PUB => Some("pub")
    case EXTERN => Some("extern")
    case ASYNC => Some("async")
    case AWAIT => Some("await")
    case _ => None
  }

  /** The table holds 24 distinct words. */
  lemma KeywordCount()
    ensures |Keywords| == 24
  {
    assert Keywords.Keys == set w | w in KeywordWords;
    DistinctCard(KeywordWords);
  }

  /** Each word maps to the kind it spells ... */
  lemma SpellingOfKeyword(w: string)
    requires w in Keywords
    ensures KeywordSpelling(Keywords[w]) == Some(w)
  {
    if w == "fn" || w == "let" || w == "mut" || w == "if" {
      BindingSpellings(w);
    } else if w == "else" || w == "match" || w == "for" || w == "while" {
      BranchingSpellings(w);
    } else if w == "loop" || w == "break" || w == "continue" || w == "return" {
      LoopingSpellings(w);
    } else if w == "true" || w == "false" || w == "struct" || w == "enum" {
      LiteralSpellings(w);
    } else if w == "impl" || w == "trait" || w == "mod" || w == "use" {
      TypingSpellings(w);
    } else {
      ModuleSpellings(w);
    }
  }

  /** The table's words checked a handful at a time. */
  lemma BindingSpellings(w: string)
    requires w == "fn" || w == "let" || w == "mut" || w == "if"
    ensures KeywordSpelling(Keywords[w]) == Some(w)
  {
    if w == "fn" {
      assert Keywords["fn"] == FN;
    } else if w == "let" {
      assert Keywords["let"] == LET;
    } else if w == "mut" {
      assert Keywords["mut"] == MUT;
    } else if w == "if" {
      assert Keywords["if"] == IF;
    }
  }

  lemma BranchingSpellings(w: string)
    requires w == "else" || w == "match" || w == "for" || w == "while"
    ensures KeywordSpelling(Keywords[w]) == Some(w)
  {
    if w == "else" {
      assert Keywords["else"] == ELSE;
    } else if w == "match" {
      assert Keywords["match"] == MATCH;
    } else if w == "for" {
      assert Keywords["for"] == FOR;
    } else if w == "while" {
      assert Keywords["while"] == WHILE;
    }
  }

  lemma LoopingSpellings(w: string)
    requires w == "loop" || w == "break" || w == "continue" || w == "return"
    ensures KeywordSpelling(Keywords[w]) == Some(w)
  {
    if w == "loop" {
      assert Keywords["loop"] == LOOP;
    } else if w == "break" {
      assert Keywords["break"] == BREAK;
    } else if w == "continue" {
      assert Keywords["continue"] == CONTINUE;
    } else if w == "return" {
      assert Keywords["return"] == RETURN;
    }
  }

  lemma LiteralSpellings(w: string)
    requires w == "true" || w == "false" || w == "struct" || w == "enum"
    ensures KeywordSpelling(Keywords[w]) == Some(w)
  {
    if w == "true" {
      assert Keywords["true"] == TRUE;
    } else if w == "false" {
      assert Keywords["false"] == FALSE;
    } else if w == "struct" {
      assert Keywords["struct"] == STRUCT;
    } else if w == "enum" {
      assert Keywords["enum"] == ENUM;
    }
  }

  lemma TypingSpellings(w: string)
    requires w == "impl" || w == "trait" || w == "mod" || w == "use"
    ensures KeywordSpelling(Keywords[w]) == Some(w)
  {
    if w == "impl" {
      assert Keywords["impl"] == IMPL;
    } else if w == "trait" {
      assert Keywords["trait"] == TRAIT;
    } else if w == "mod" {
      assert Keywords["mod"] == MOD;
    } else if w == "use" {
      assert Keywords["use"] == USE;
    }
  }

  lemma ModuleSpellings(w: string)
    requires w == "pub" || w == "extern" || w == "async" || w == "await"
    ensures KeywordSpelling(Keywords[w]) == Some(w)
  {
    if w == "pub" {
      assert Keywords["pub"] == PUB;
    } else if w == "extern" {
      assert Keywords["extern"] == EXTERN;
    } else if w == "async" {
      assert Keywords["async"] == ASYNC;
    } else if w == "await" {
      assert Keywords["await"] == AWAIT;
    }
  }

  /** ... so no two words share a kind. */
  lemma KeywordsInjective(a: string, b: string)
    requires a in Keywords && b in Keywords && a != b
    ensures Keywords[a] != Keywords[b]
  {
    SpellingOfKeyword(a);
    SpellingOfKeyword(b);
  }

  /** Keywords are lower-case words ... */
  lemma KeywordsLowerCase()
    ensures forall w :: w in Keywords ==> forall ch :: ch in w ==> 'a' <= ch <= 'z'
  {
  }

  /** ... looked up exactly: `FN` and `Let` are identifiers, and so are `and`, `or` and `not`. */
  lemma KeywordLookupIsExact()
    ensures "FN" !in Keywords && "Let" !in Keywords && "True" !in Keywords
    ensures "and" !in Keywords && "or" !in Keywords && "not" !in Keywords
  {
  }

  // ---------------------------------------------------------------- numbers

  datatype NumberRead = NumberRead(kind: TokenType, value: string, next: Cursor)

  /** The fraction: a `.` joins the number only when a digit follows it. */
  function Fraction(src: string, c: Cursor): (r: Cursor)
    requires c.pos <= |src|
    ensures c.pos <= r.pos <= |src|
    ensures r.pos == c.pos <==> !(c.pos + 1 < |src| && src[c.pos] == '.' && IsDigit(src[c.pos + 1]))
    ensures r.pos > c.pos ==> r.pos >= c.pos + 2 && src[c.pos] == '.'
                              && forall i :: c.pos < i < r.pos ==> IsDigit(src[i])
    ensures Tracks(src, c) ==> Tracks(src, r)
  {
    if c.pos + 1 < |src| && src[c.pos] == '.' && IsDigit(src[c.pos + 1]) then Digits(src, Advance(src, c))
    else c
  }

  /** The exponent, when an `e` or `E` follows. */
  function Exponent(src: string, c: Cursor): (r: Cursor)
    requires c.pos <= |src|
    ensures c.pos <= r.pos <= |src|
    ensures r.pos == c.pos <==> !(c.pos < |src| && LowerChar(src[c.pos]) == 'e')
    ensures forall i :: c.pos < i < r.pos ==> IsDigit(src[i]) || (i == c.pos + 1 && src[i] in "+-")
    ensures Tracks(src, c) ==> Tracks(src, r)
  {
    if c.pos < |src| && LowerChar(src[c.pos]) == 'e' then ExponentEnd(src, c) else c
  }

  /**
   * `read_number`: digits, a fraction, an exponent and an `f`/`F` suffix,
   * the suffix consumed but left out of the value.
   */
  function ReadNumber(src: string, c: Cursor): (r: NumberRead)
    requires c.pos < |src| && IsDigit(src[c.pos])
    ensures c.pos + |r.value| <= |src| && r.value == src[c.pos..c.pos + |r.value|] && r.value != []
    ensures var end := c.pos + |r.value|;
      r.next.pos == end || (r.next.pos == end + 1 && end < |src| && LowerChar(src[end]) == 'f')
    ensures r.kind == INTEGER || r.kind == FLOAT
    ensures Tracks(src, c) ==> Tracks(src, r.next)
  {
    var d := Digits(src, c);
    var f := Fraction(src, d);
    var e := Exponent(src, f);
    var value := src[c.pos..e.pos];
    assert c.pos + |value| == e.pos && value != [];
    var suffix := e.pos < |src| && LowerChar(src[e.pos]) == 'f';
    var next := if suffix then Advance(src, e) else e;
    assert next.pos == e.pos || (next.pos == e.pos + 1 && suffix);
    NumberRead(if suffix || f.pos > d.pos || e.pos > f.pos then FLOAT else INTEGER, value, next)
  }

  /**
   * A number laid out in the source: digits in [lo, d), then, when f > d, a
   * `.` at d with digits up to f, then, when e > f, an exponent marker at f
   * followed by an optional sign and digits up to e.
   */
  predicate NumberLayout(src: string, lo: nat, d: nat, f: nat, e: nat) {
    lo <= d <= f <= e <= |src|
    && (forall i :: lo <= i < d ==> IsDigit(src[i]))
    && (f > d ==> src[d] == '.' && d + 2 <= f && forall i :: d < i < f ==> IsDigit(src[i]))
    && (f == d ==> d == e || src[d] != '.')
    && (e > f ==> (src[f] == 'e' || src[f] == 'E')
                  && forall i :: f < i < e ==> IsDigit(src[i]) || (i == f + 1 && (src[i] == '+' || src[i] == '-')))
  }

  /** Where the digits, the fraction and the exponent of a number token lie in the source. */
  lemma NumberParts(src: string, c: Cursor) returns (d: nat, f: nat, e: nat)
    requires c.pos < |src| && IsDigit(src[c.pos])
    ensures NumberLayout(src, c.pos, d, f, e) && c.pos < d
    ensures ReadNumber(src, c).value == src[c.pos..(e)]
    ensures ReadNumber(src, c).kind == FLOAT <==> f > d || e > f || ReadNumber(src, c).next.pos > e
  {
    var dc := Digits(src, c);
    var fc := Fraction(src, dc);
    var ec := Exponent(src, fc);
    d, f, e := dc.pos, fc.pos, ec.pos;
    if e > f {
      assert LowerChar(src[f]) == 'e';
    }
  }

  /** One character of a number laid out as digits in [lo, d), a fraction in [d, f) and an exponent in [f, e). */
  lemma NumberCharAt(src: string, lo: nat, d: nat, f: nat, e: nat, p: nat)
    requires NumberLayout(src, lo, d, f, e) && lo <= p < e
    ensures (src[p] == '.' <==> p == d && f > d)
    ensures (src[p] == 'e' || src[p] == 'E' <==> p == f && e > f)
    ensures src[p] != 'f' && src[p] != 'F'
  {
  }

  /** Example: a dot with no digit after it is not part of the number. */
  lemma DotWithoutDigitExample()
    ensures ReadNumber("1.x", Start) == NumberRead(INTEGER, "1", Cursor(1, 1, 2))
  {
    var src := "1.x";
    assert Digits(src, Start) == Cursor(1, 1, 2);
    assert Fraction(src, Cursor(1, 1, 2)) == Cursor(1, 1, 2);
  }

  /** Example: plain digits are an INTEGER. */
  lemma IntegerExample()
    ensures ReadNumber("42", Start) == NumberRead(INTEGER, "42", Cursor(2, 1, 3))
  {
    var src := "42";
    assert Digits(src, Cursor(2, 1, 3)) == Cursor(2, 1, 3);
    assert Digits(src, Cursor(1, 1, 2)) == Cursor(2, 1, 3);
    assert Digits(src, Start) == Cursor(2, 1, 3);
    assert Fraction(src, Cursor(2, 1, 3)) == Cursor(2, 1, 3);
    assert Exponent(src, Cursor(2, 1, 3)) == Cursor(2, 1, 3);
  }

  // ---------------------------------------------------------------- strings

  datatype TextRead = TextRead(value: string, next: Cursor)

  /** A token read, or the error raised while reading it, and where the scan goes on. */
  datatype Lexed = Lexed(tok: Result<Token, LexError>, next: Cursor)

  /** The character an escape `\x` stands for: `\n`, `\t`, `\r` are decoded; any other `x` stands for itself. */
  function Unescape(x: char): char {
    if x == 'n' then '\n' else if x == 't' then '\t' else if x == 'r' then '\r' else x
  }

  const Unterminated := "Unterminated string literal"

  /** The loop of `read_string`, after the opening quote, with the text decoded so far in `acc`. */
  function StringBody(src: string, c: Cursor, quote: char, column: int, acc: string): (r: Result<TextRead, LexError>)
    requires c.pos <= |src|
    ensures r.Ok? ==> c.pos < r.value.next.pos <= |src| && src[r.value.next.pos - 1] == quote
    ensures r.Ok? ==> |acc| <= |r.value.value| && r.value.value[..|acc|] == acc
    ensures r.Err? ==> r.error.message == Unterminated
    ensures r.Ok? && Tracks(src, c) ==> Tracks(src, r.value.next)
    decreases |src| - c.pos
  {
    if c.pos >= |src| then Err(LexError(Unterminated, c.line, column))
    else if src[c.pos] == quote then Ok(TextRead(acc, Advance(src, c)))
    else if src[c.pos] == '\\' then
      var c1 := Advance(src, c);
      if c1.pos >= |src| then Err(LexError(Unterminated, c1.line, c1.column))
      else StringBody(src, Advance(src, c1), quote, column, acc + [Unescape(src[c1.pos])])
    else StringBody(src, Advance(src, c), quote, column, acc + [src[c.pos]])
  }

  /**
   * `read_string`: a one-character literal in single quotes is a CHAR, any
   * other literal a STRING; a missing closing quote raises.
   */
  function ReadString(src: string, c: Cursor): (r: Lexed)
    requires c.pos < |src| && src[c.pos] in "\"'"
    ensures r.tok.Ok? ==> c.pos + 2 <= r.next.pos <= |src| && src[r.next.pos - 1] == src[c.pos]
    ensures r.tok.Ok? ==> r.tok.value.column == c.column && r.tok.value.line == r.next.line
    ensures r.tok.Ok? ==> (r.tok.value.kind == CHAR <==> src[c.pos] == '\'' && |r.tok.value.value| == 1)
    ensures r.tok.Ok? ==> r.tok.value.kind in {CHAR, STRING}
    ensures r.tok.Err? ==> r.tok.error.message == Unterminated
    ensures Tracks(src, c) ==> Tracks(src, r.next)
  {
    var quote := src[c.pos];
    match StringBody(src, Advance(src, c), quote, c.column, "")
    case Err(e) => Lexed(Err(e), c)
    case Ok(TextRead(v, n)) =>
      Lexed(Ok(Token(if quote == '\'' && |v| == 1 then CHAR else STRING, v, n.line, c.column)), n)
  }

  /** Without backslashes, a string is unterminated exactly when no matching quote follows. */
  lemma {:induction false} StringBodyRawUnterminated(src: string, c: Cursor, quote: char, column: int, acc: string)
    requires c.pos <= |src|
    requires forall i :: c.pos <= i < |src| ==> src[i] != '\\'
    ensures StringBody(src, c, quote, column, acc).Err? <==> quote !in src[c.pos..]
    decreases |src| - c.pos
  {
    if c.pos < |src| && src[c.pos] != quote {
      var c1 := Advance(src, c);
      assert StringBody(src, c, quote, column, acc) == StringBody(src, c1, quote, column, acc + [src[c.pos]]);
      StringBodyRawUnterminated(src, c1, quote, column, acc + [src[c.pos]]);
      assert src[c.pos..] == [src[c.pos]] + src[c1.pos..];
    }
  }

  /** Without backslashes, a string is the raw text up to the first matching quote. */
  lemma {:induction false} StringBodyRaw(src: string, c: Cursor, quote: char, column: int, acc: string)
    requires c.pos <= |src|
    requires forall i :: c.pos <= i < |src| ==> src[i] != '\\'
    ensures StringBody(src, c, quote, column, acc).Ok? ==>
      var n := StringBody(src, c, quote, column, acc).value.next.pos;
      StringBody(src, c, quote, column, acc).value.value == acc + src[c.pos..n - 1]
      && quote !in src[c.pos..n - 1]
    decreases |src| - c.pos
  {
    if c.pos < |src| && src[c.pos] != quote {
      var c1 := Advance(src, c);
      var a1 := acc + [src[c.pos]];
      assert StringBody(src, c, quote, column, acc) == StringBody(src, c1, quote, column, a1);
      StringBodyRaw(src, c1, quote, column, a1);
      var r := StringBody(src, c1, quote, column, a1);
      if r.Ok? {
        var n := r.value.next.pos;
        assert src[c.pos..n - 1] == [src[c.pos]] + src[c1.pos..n - 1];
        assert a1 + src[c1.pos..n - 1] == acc + src[c.pos..n - 1];
      }
    }
  }

  /** Example: a one-character literal in single quotes is a CHAR. */
  lemma CharExample()
    ensures ReadString("'a'", Start).tok == Ok(Token(CHAR, "a", 1, 1))
  {
  }

  /** Example: the same character in double quotes is a STRING. */
  lemma QuotedCharExample()
    ensures ReadString("\"a\"", Start).tok == Ok(Token(STRING, "a", 1, 1))
  {
  }

  /** Example: an escaped newline in single quotes is one CHAR. */
  lemma EscapedCharExample()
    ensures ReadString("'\\n'", Start).tok == Ok(Token(CHAR, "\n", 1, 1))
  {
  }

  /** Example: two characters in single quotes are a STRING. */
  lemma TwoCharQuotedExample()
    ensures ReadString("'ab'", Start).tok == Ok(Token(STRING, "ab", 1, 1))
  {
    var src := "'ab'";
    assert StringBody(src, Cursor(3, 1, 4), '\'', 1, "ab") == Ok(TextRead("ab", Cursor(4, 1, 5)));
    assert "a" + [src[2]] == "ab";
    assert StringBody(src, Cursor(2, 1, 3), '\'', 1, "a") == Ok(TextRead("ab", Cursor(4, 1, 5)));
    assert "" + [src[1]] == "a";
    assert StringBody(src, Cursor(1, 1, 2), '\'', 1, "") == Ok(TextRead("ab", Cursor(4, 1, 5)));
  }

  /** Example: an unknown escape keeps only its character. */
  lemma UnknownEscapeExample()
    ensures ReadString("\"a\\qb\"", Start).tok == Ok(Token(STRING, "aqb", 1, 1))
  {
    var src := "\"a\\qb\"";
    assert StringBody(src, Cursor(5, 1, 6), '"', 1, "aqb") == Ok(TextRead("aqb", Cursor(6, 1, 7)));
    assert "aq" + [src[4]] == "aqb";
    assert StringBody(src, Cursor(4, 1, 5), '"', 1, "aq") == Ok(TextRead("aqb", Cursor(6, 1, 7)));
    assert "a" + [Unescape(src[3])] == "aq";
    assert StringBody(src, Cursor(2, 1, 3), '"', 1, "a") == Ok(TextRead("aqb", Cursor(6, 1, 7)));
    assert "" + [src[1]] == "a";
    assert StringBody(src, Cursor(1, 1, 2), '"', 1, "") == Ok(TextRead("aqb", Cursor(6, 1, 7)));
  }

  /** Examples: a missing closing quote raises, at the opening column or after a final backslash. */
  lemma EscapeAndUnterminatedExamples()
    ensures ReadString("\"ab", Start).tok == Err(LexError(Unterminated, 1, 1))
    ensures ReadString("\"a\\", Start).tok == Err(LexError(Unterminated, 1, 4))
  {
  }

  // ---------------------------------------------------------------- comments

  const UnterminatedComment := "Unterminated multi-line comment"

  /** The text of a `//` comment: everything up to, not including, the end of the line. */
  function LineComment(src: string, c: Cursor): (r: Cursor)
    requires c.pos <= |src|
    ensures c.pos <= r.pos <= |src|
    ensures '\n' !in src[c.pos..(r.pos)]
    ensures r.pos == |src| || src[r.pos] == '\n'
    ensures Tracks(src, c) ==> Tracks(src, r)
    decreases |src| - c.pos
  {
    if c.pos < |src| && src[c.pos] != '\n' then
      var r := LineComment(src, Advance(src, c));
      assert src[c.pos..r.pos] == [src[c.pos]] + src[c.pos + 1..r.pos];
      r
    else c
  }

  /** A closing star-slash starts at position `i`. */
  predicate ClosesAt(src: string, i: nat) {
    i + 1 < |src| && src[i] == '*' && src[i + 1] == '/'
  }

  /** The loop of a block comment: its text up to the first closing star-slash, which is consumed. */
  function BlockComment(src: string, c: Cursor, column: int): (r: Result<TextRead, LexError>)
    requires c.pos <= |src|
    ensures r.Ok? ==> exists i :: c.pos <= i && ClosesAt(src, i)
    ensures r.Ok? ==> c.pos + 2 <= r.value.next.pos <= |src| && ClosesAt(src, r.value.next.pos - 2)
    ensures r.Ok? ==> r.value.value == src[c.pos..(r.value.next.pos - 2)]
    ensures r.Ok? ==> forall i :: c.pos <= i < r.value.next.pos - 2 ==> !ClosesAt(src, i)
    ensures r.Err? ==> forall i :: c.pos <= i ==> !ClosesAt(src, i)
    ensures r.Err? ==> r.error.message == UnterminatedComment && r.error.column == column
    ensures r.Ok? && Tracks(src, c) ==> Tracks(src, r.value.next)
    decreases |src| - c.pos
  {
    if c.pos + 1 >= |src| then Err(LexError(UnterminatedComment, c.line, column))
    else if ClosesAt(src, c.pos) then Ok(TextRead([], Advance(src, Advance(src, c))))
    else
      match BlockComment(src, Advance(src, c), column)
      case Err(e) => Err(e)
      case Ok(TextRead(v, n)) =>
        assert src[c.pos..n.pos - 2] == [src[c.pos]] + src[c.pos + 1..n.pos - 2];
        Ok(TextRead([src[c.pos]] + v, n))
  }

  predicate AtComment(src: string, p: nat) {
    p + 1 < |src| && src[p] == '/' && (src[p + 1] == '/' || src[p + 1] == '*')
  }

  /**
   * `read_comment`: a COMMENT token holding the text between the markers;
   * an unclosed block comment raises at the opening column.
   */
  function ReadComment(src: string, c: Cursor): (r: Lexed)
    requires c.pos <= |src| && AtComment(src, c.pos)
    ensures r.tok.Ok? ==> c.pos + 2 <= r.next.pos <= |src|
    ensures r.tok.Ok? ==> r.tok.value.kind == COMMENT && r.tok.value.column == c.column && r.tok.value.line == r.next.line
    ensures r.tok.Ok? && src[c.pos + 1] == '/' ==>
      r.tok.value.value == src[c.pos + 2..(r.next.pos)]
      && (r.next.pos == |src| || src[r.next.pos] == '\n') && '\n' !in r.tok.value.value
    ensures r.tok.Ok? && src[c.pos + 1] == '*' ==>
      c.pos + 4 <= r.next.pos && r.tok.value.value == src[c.pos + 2..(r.next.pos - 2)]
      && ClosesAt(src, r.next.pos - 2)
    ensures r.tok.Err? <==> src[c.pos + 1] == '*' && forall i :: c.pos + 2 <= i ==> !ClosesAt(src, i)
    ensures r.tok.Err? ==> r.tok.error == LexError(UnterminatedComment, r.tok.error.line, c.column)
    ensures Tracks(src, c) ==> Tracks(src, r.next)
  {
    var open := Advance(src, Advance(src, c));
    if src[c.pos + 1] == '/' then
      var e := LineComment(src, open);
      Lexed(Ok(Token(COMMENT, src[open.pos..e.pos], e.line, c.column)), e)
    else
      match BlockComment(src, open, c.column)
      case Err(err) => Lexed(Err(err), c)
      case Ok(TextRead(v, n)) => Lexed(Ok(Token(COMMENT, v, n.line, c.column)), n)
  }

  // ---------------------------------------------------------------- operators

  /** The two-character operators, tried before the single characters. */
  function TwoCharOperator(a: char, b: char): Option<TokenType> {
    if a == '=' && b == '=' then Some(EQUAL)
    else if a == '!' && b == '=' then Some(NOT_EQUAL)
    else if a == '<' && b == '=' then Some(LESS_EQUAL)
    else if a == '>' && b == '=' then Some(GREATER_EQUAL)
    else if a == '&' && b == '&' then Some(AND)
    else if a == '|' && b == '|' then Some(OR)
    else if a == '-' && b == '>' then Some(ARROW)
    else if a == '=' && b == '>' then Some(FAT_ARROW)
    else if a == ':' && b == ':' then Some(DOUBLE_COLON)
    else None
  }

  /** The `single_char_tokens` table, including the newline. */
  function SingleCharToken(a: char): Option<TokenType> {
    match a
    case '+' => Some(PLUS)
    case '-' => Some(MINUS)
    case '*' => Some(MULTIPLY)
    case '/' => Some(DIVIDE)
    case '%' => Some(MODULO)
    case '=' => Some(ASSIGN)
    case '<' => Some(LESS)
    case '>' => Some(GREATER)
    case '!' => Some(NOT)
    case '&' => Some(BIT_AND)
    case '|' => Some(BIT_OR)
    case '^' => Some(BIT_XOR)
    case '~' => Some(BIT_NOT)
    case '(' => Some(LPAREN)
    case ')' => Some(RPAREN)
    case '{' => Some(LBRACE)
    case '}' => Some(RBRACE)
    case '[' => Some(LBRACKET)
    case ']' => Some(RBRACKET)
    case ';' => Some(SEMICOLON)
    case ',' => Some(COMMA)
    case '.' => Some(DOT)
    case ':' => Some(COLON)
    case '?' => Some(QUESTION)
    case '\n' => Some(NEWLINE)
    case _ => None
  }

  /** A number token, from `read_number`. */
  function NumberToken(src: string, c: Cursor): (r: Lexed)
    requires c.pos < |src| && IsDigit(src[c.pos])
    ensures r.tok.Ok? && c.pos < r.next.pos <= |src|
    ensures r.tok.value.kind in {INTEGER, FLOAT} && r.tok.value.line == c.line && r.tok.value.column == c.column
    ensures Tracks(src, c) ==> Tracks(src, r.next)
  {
    var n := ReadNumber(src, c);
    NumberLine(src, c);
    Lexed(Ok(Token(n.kind, n.value, n.next.line, c.column)), n.next)
  }

  /** A number never spans lines. */
  lemma NumberLine(src: string, c: Cursor)
    requires c.pos < |src| && IsDigit(src[c.pos])
    ensures ReadNumber(src, c).next.line == c.line
  {
    var d := Digits(src, c);
    var f := Fraction(src, d);
    var e := Exponent(src, f);
    if e.pos > f.pos {
      var c1 := Advance(src, f);
      var c2 := if c1.pos < |src| && src[c1.pos] in "+-" then Advance(src, c1) else c1;
      assert c2.line == c.line;
    }
  }

  /** `read_identifier`: a keyword when the table holds the word, an identifier otherwise. */
  function WordToken(src: string, c: Cursor): (r: Lexed)
    requires c.pos < |src| && (IsAlpha(src[c.pos]) || src[c.pos] == '_')
    ensures r.tok.Ok? && c.pos < r.next.pos <= |src| && r.next.line == c.line
    ensures r.tok.value.value == src[c.pos..(r.next.pos)]
    ensures forall i :: c.pos <= i < r.next.pos ==> IsWordChar(src[i])
    ensures r.next.pos == |src| || !IsWordChar(src[r.next.pos])
    ensures r.tok.value.kind == IDENTIFIER <==> r.tok.value.value !in Keywords
    ensures r.tok.value.value in Keywords ==> r.tok.value.kind == Keywords[r.tok.value.value]
    ensures r.tok.value.line == c.line && r.tok.value.column == c.column
    ensures Tracks(src, c) ==> Tracks(src, r.next)
  {
    var e := ReadIdentifier(src, c);
    var word := src[c.pos..e.pos];
    if word in Keywords then SpellingOfKeyword(word); Lexed(Ok(Token(Keywords[word], word, e.line, c.column)), e)
    else Lexed(Ok(Token(IDENTIFIER, word, e.line, c.column)), e)
  }

  /**
   * The operators and delimiters: a two-character operator when the next
   * two characters form one, else a single-character token, else ERROR.
   */
  function OperatorToken(src: string, c: Cursor): (r: Lexed)
    requires c.pos < |src|
    ensures r.tok.Ok? && r.tok.value.kind != EOF && r.tok.value.column == c.column
    ensures var two := c.pos + 1 < |src| && TwoCharOperator(src[c.pos], src[c.pos + 1]).Some?;
      two ==> r.tok.value.kind == TwoCharOperator(src[c.pos], src[c.pos + 1]).value
              && r.next.pos == c.pos + 2 && r.tok.value.value == src[c.pos..c.pos + 2]
    ensures var two := c.pos + 1 < |src| && TwoCharOperator(src[c.pos], src[c.pos + 1]).Some?;
      !two ==> r.next.pos == c.pos + 1 && r.tok.value.value == [src[c.pos]]
               && (r.tok.value.kind == ERROR <==> SingleCharToken(src[c.pos]).None?)
               && (SingleCharToken(src[c.pos]).Some? ==> r.tok.value.kind == SingleCharToken(src[c.pos]).value)
    ensures r.tok.value.line == r.next.line
    ensures Tracks(src, c) ==> Tracks(src, r.next)
  {
    var ch := src[c.pos];
    if c.pos + 1 < |src| && TwoCharOperator(ch, src[c.pos + 1]).Some? then
      var n := Advance(src, Advance(src, c));
      Lexed(Ok(Token(TwoCharOperator(ch, src[c.pos + 1]).value, src[c.pos..c.pos + 2], n.line, c.column)), n)
    else
      var n := Advance(src, c);
      Lexed(Ok(Token(if SingleCharToken(ch).Some? then SingleCharToken(ch).value else ERROR, [ch], n.line, c.column)), n)
  }

  /** The token starting at a character that is not blank, by the order of `next_token`'s tests. */
  function TokenAt(src: string, c: Cursor): (r: Lexed)
    requires c.pos < |src|
    ensures r.tok.Ok? ==> r.tok.value.kind != EOF && c.pos < r.next.pos <= |src| && r.tok.value.column == c.column
    ensures Tracks(src, c) ==> Tracks(src, r.next)
  {
    var ch := src[c.pos];
    if IsDigit(ch) then NumberToken(src, c)
    else if ch in "\"'" then ReadString(src, c)
    else if IsAlpha(ch) || ch == '_' then WordToken(src, c)
    else if AtComment(src, c.pos) then ReadComment(src, c)
    else OperatorToken(src, c)
  }

  /**
   * `next_token`: skips blanks, then returns EOF at the end of the input or
   * the token starting at the next character.
   */
  function NextToken(src: string, c: Cursor): (r: Lexed)
    requires c.pos <= |src|
    ensures r.tok.Ok? && r.tok.value.kind == EOF ==> r.next.pos == |src| && r.tok.value.value == ""
    ensures r.tok.Ok? && r.tok.value.kind != EOF ==> c.pos < r.next.pos <= |src|
    ensures Tracks(src, c) ==> Tracks(src, r.next)
  {
    var s := SkipWhitespace(src, c);
    if s.pos >= |src| then Lexed(Ok(Token(EOF, "", s.line, s.column)), s)
    else TokenAt(src, s)
  }

  function Unexpected(t: Token): LexError {
    LexError("Unexpected character: '" + t.value + "'", t.line, t.column)
  }

  /** A finished token list: one EOF, at the end, and no ERROR token. */
  predicate Complete(ts: seq<Token>) {
    |ts| > 0 && ts[|ts| - 1].kind == EOF
    && forall i :: 0 <= i < |ts| ==> ts[i].kind != ERROR && (i < |ts| - 1 ==> ts[i].kind != EOF)
  }

  lemma CompleteCons(t: Token, ts: seq<Token>)
    requires Complete(ts) && t.kind != EOF && t.kind != ERROR
    ensures Complete([t] + ts)
  {
    assert forall i :: 1 <= i < 1 + |ts| ==> ([t] + ts)[i] == ts[i - 1];
  }

  /** The `tokenize` loop from `c` on. */
  function ScanFrom(src: string, c: Cursor): (r: Result<seq<Token>, LexError>)
    requires c.pos <= |src|
    ensures r.Ok? ==> Complete(r.value)
    decreases |src| - c.pos
  {
    var l := NextToken(src, c);
    if l.tok.Err? then Err(l.tok.error)
    else if l.tok.value.kind == EOF then Ok([l.tok.value])
    else if l.tok.value.kind == ERROR then Err(Unexpected(l.tok.value))
    else
      var rest := ScanFrom(src, l.next);
      if rest.Err? then rest
      else
        CompleteCons(l.tok.value, rest.value);
        Ok([l.tok.value] + rest.value)
  }

  /** `tokenize`: the whole token list ending in EOF, or the first error. */
  function Tokenize(src: string): (r: Result<seq<Token>, LexError>)
    ensures r.Ok? ==> |r.value| > 0 && r.value[|r.value| - 1].kind == EOF
    ensures r.Ok? ==> forall i :: 0 <= i < |r.value| ==>
      r.value[i].kind != ERROR && (i < |r.value| - 1 ==> r.value[i].kind != EOF)
  {
    ScanFrom(src, Start)
  }

  /**
   * The scan is the sequence of `next_token` results up to EOF: it raises
   * at the first error a token read raises, and right after the first ERROR
   * token with "Unexpected character", and otherwise continues after the token.
   */
  lemma ScanSteps(src: string, c: Cursor)
    requires c.pos <= |src|
    ensures NextToken(src, c).tok.Err? ==> ScanFrom(src, c) == Err(NextToken(src, c).tok.error)
    ensures NextToken(src, c).tok.Ok? && NextToken(src, c).tok.value.kind == ERROR ==>
      ScanFrom(src, c) == Err(Unexpected(NextToken(src, c).tok.value))
    ensures var l := NextToken(src, c); var t, n := l.tok, l.next;
      t.Ok? && t.value.kind !in {EOF, ERROR} && ScanFrom(src, n).Ok? ==>
        ScanFrom(src, c) == Ok([t.value] + ScanFrom(src, n).value)
    ensures var l := NextToken(src, c); var t, n := l.tok, l.next;
      t.Ok? && t.value.kind !in {EOF, ERROR} && ScanFrom(src, n).Err? ==> ScanFrom(src, c) == ScanFrom(src, n)
  {
  }

  /** Blanks before a token are skipped: the token is the one at the first other character. */
  lemma BlanksAreSkipped(src: string, c: Cursor)
    requires c.pos < |src| && IsBlank(src[c.pos])
    ensures NextToken(src, c) == NextToken(src, SkipWhitespace(src, c))
  {
    var s := SkipWhitespace(src, c);
    assert SkipWhitespace(src, s) == s;
  }

  /** A two-character operator is preferred to its first character. */
  lemma TwoCharacterOperatorsFirst(src: string, c: Cursor)
    requires c.pos + 1 < |src| && TwoCharOperator(src[c.pos], src[c.pos + 1]).Some?
    ensures NextToken(src, c).tok
      == Ok(Token(TwoCharOperator(src[c.pos], src[c.pos + 1]).value, src[c.pos..c.pos + 2], c.line, c.column))
    ensures NextToken(src, c).next.pos == c.pos + 2
  {
    var ch := src[c.pos];
    assert !IsBlank(ch) && !IsDigit(ch) && ch !in "\"'" && !IsAlpha(ch) && ch != '_' && ch != '/';
    assert SkipWhitespace(src, c) == c;
    assert TokenAt(src, c) == OperatorToken(src, c);
  }

  /** `&&` and `||` are the logical AND and OR. */
  lemma LogicalOperators(src: string, c: Cursor)
    requires c.pos + 1 < |src|
    ensures src[c.pos] == '&' && src[c.pos + 1] == '&' ==> NextToken(src, c).tok.Ok? && NextToken(src, c).tok.value.kind == AND
    ensures src[c.pos] == '|' && src[c.pos + 1] == '|' ==> NextToken(src, c).tok.Ok? && NextToken(src, c).tok.value.kind == OR
  {
    if TwoCharOperator(src[c.pos], src[c.pos + 1]).Some? {
      TwoCharacterOperatorsFirst(src, c);
    }
  }

  /** A newline is a NEWLINE token, which carries the line it moves to. */
  lemma NewlineIsAToken(src: string, c: Cursor)
    requires c.pos < |src| && src[c.pos] == '\n'
    ensures NextToken(src, c) == Lexed(Ok(Token(NEWLINE, "\n", c.line + 1, c.column)), Cursor(c.pos + 1, c.line + 1, 1))
  {
    assert SkipWhitespace(src, c) == c;
    assert TokenAt(src, c) == OperatorToken(src, c);
  }

  /** A word is looked up in the table exactly as written. */
  lemma WordsAreLookedUp(src: string, c: Cursor)
    requires c.pos < |src| && (IsAlpha(src[c.pos]) || src[c.pos] == '_')
    ensures NextToken(src, c) == WordToken(src, c)
  {
    assert SkipWhitespace(src, c) == c;
  }

  /** A character outside every rule becomes an ERROR token, so the scan raises there. */
  lemma UnknownCharacterRaises(src: string, c: Cursor)
    requires c.pos < |src|
    requires var ch := src[c.pos];
      !IsBlank(ch) && !IsDigit(ch) && ch !in "\"'" && !IsAlpha(ch) && ch != '_' && SingleCharToken(ch).None?
    ensures ScanFrom(src, c) == Err(LexError("Unexpected character: '" + [src[c.pos]] + "'", c.line, c.column))
  {
    var ch := src[c.pos];
    var tok := Token(ERROR, [ch], c.line, c.column);
    UnknownCharacterToken(src, c);
    assert ScanFrom(src, c) == Err(Unexpected(tok));
  }

  /** The token `next_token` makes of a character outside every rule. */
  lemma UnknownCharacterToken(src: string, c: Cursor)
    requires c.pos < |src|
    requires var ch := src[c.pos];
      !IsBlank(ch) && !IsDigit(ch) && ch !in "\"'" && !IsAlpha(ch) && ch != '_' && SingleCharToken(ch).None?
    ensures NextToken(src, c) == Lexed(Ok(Token(ERROR, [src[c.pos]], c.line, c.column)), Advance(src, c))
  {
    var ch := src[c.pos];
    assert SkipWhitespace(src, c) == c;
    NotAnOperator(src, c);
    assert TokenAt(src, c) == OperatorToken(src, c);
    var n := Advance(src, c);
    assert ch != '\n' && n.line == c.line;
    assert OperatorToken(src, c) == Lexed(Ok(Token(ERROR, [ch], n.line, c.column)), n);
  }

  /** A character without a one-character token starts no comment and no two-character operator. */
  lemma NotAnOperator(src: string, c: Cursor)
    requires c.pos < |src| && SingleCharToken(src[c.pos]).None?
    ensures !AtComment(src, c.pos)
    ensures c.pos + 1 < |src| ==> TwoCharOperator(src[c.pos], src[c.pos + 1]).None?
  {
  }
}
