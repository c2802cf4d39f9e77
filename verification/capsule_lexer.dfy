/**
 * The Capsule dialect tokenizer (lexer.py, duplicated in compiler.py):
 * at each position the token specs are tried in a fixed order and the
 * first regex that matches wins; blanks, `--` comments and newlines are
 * consumed but not returned. Each spec's regex is written out as the
 * character classes it matches, with `\b`, `\w` and `\d` taken over ASCII.
 */
module CapsuleLexer {
  import opened Common

  /** The names of `TOKEN_SPECS`, in the order they are tried. */
  datatype Spec = SKIP | COMMENT | NEWLINE | KEYWORD | IDENT | NUMBER | STRING | OP | MISMATCH

  /** A `(type, value)` tuple. */
  datatype Token = Token(kind: Spec, text: string)

  /** The alternatives of the KEYWORD regex. */
  const Keywords: seq<string> := [
    "Main", "Capsule", "If", "Then", "Else", "Elseif", "While", "For", "EndCapsule",
    "Print", "Isolate", "Try", "Execute", "Fail", "True", "False"
  ]

  // The characters of the OP class: plus, minus, star, slash, less, greater, equals, comma, colon.
  const Operators: string := "+-*/<>=,:"

  /** The specs whose matches `tokenize` drops. */
  const Skipped: set<Spec> := {SKIP, COMMENT, NEWLINE}

  predicate IsBlank(c: char) { c == ' ' || c == '\t' || c == '\r' }

  predicate NotNewline(c: char) { c != '\n' }

  /** The end of the longest run from `i` whose characters satisfy `p`. */
  function RunEnd(code: string, i: nat, p: char -> bool): (r: nat)
    requires i <= |code|
    ensures i <= r <= |code|
    ensures forall k :: i <= k < r ==> p(code[k])
    ensures r < |code| ==> !p(code[r])
    decreases |code| - i
  {
    if i < |code| && p(code[i]) then RunEnd(code, i + 1, p) else i
  }

  /** A leading `\b` before a word character: the previous character is not one. */
  predicate WordStart(code: string, i: nat)
    requires i <= |code|
  {
    i == 0 || !IsWordChar(code[i - 1])
  }

  /** The word at `i`: the longest run of word characters. */
  function WordAt(code: string, i: nat): string
    requires i <= |code|
  {
    code[i..RunEnd(code, i, IsWordChar)]
  }

  /**
   * The end of a string literal whose opening quote is just before `i`:
   * `\` takes the next character unless it is a newline, anything else but
   * `"` is taken, and the first free `"` closes it. None when it is not closed.
   */
  function StringEnd(code: string, i: nat): (r: Option<nat>)
    requires i <= |code|
    ensures r.Some? ==> i < r.value <= |code| && code[r.value - 1] == '"'
    decreases |code| - i
  {
    if i >= |code| then None
    else if code[i] == '"' then Some(i + 1)
    else if code[i] == '\\' then
      if i + 1 < |code| && code[i + 1] != '\n' then StringEnd(code, i + 2) else None
    else StringEnd(code, i + 1)
  }

  /** The spec that matched and the end of its match. */
  datatype Step = Step(kind: Spec, end: nat)

  /**
   * The `for typ, regex in _TOKEN_REGEXES` pass at `pos`: the first spec
   * whose regex matches there. MISMATCH takes any character other than a
   * newline, and NEWLINE comes earlier, so some spec always matches.
   */
  function Match(code: string, pos: nat): (r: Step)
    requires pos < |code|
    ensures pos < r.end <= |code|
    ensures r.kind in {NEWLINE, OP, MISMATCH} ==> r.end == pos + 1
  {
    var c := code[pos];
    if IsBlank(c) then Step(SKIP, RunEnd(code, pos, IsBlank))
    else if c == '-' && pos + 1 < |code| && code[pos + 1] == '-' then Step(COMMENT, RunEnd(code, pos, NotNewline))
    else if c == '\n' then Step(NEWLINE, pos + 1)
    else if IsWordChar(c) && WordStart(code, pos) && WordAt(code, pos) in Keywords then
      Step(KEYWORD, RunEnd(code, pos, IsWordChar))
    else if IsAlpha(c) || c == '_' then Step(IDENT, RunEnd(code, pos, IsWordChar))
    else if IsDigit(c) && WordStart(code, pos)
            && (RunEnd(code, pos, IsDigit) == |code| || !IsWordChar(code[RunEnd(code, pos, IsDigit)])) then
      Step(NUMBER, RunEnd(code, pos, IsDigit))
    else if c == '"' && StringEnd(code, pos + 1).Some? then Step(STRING, StringEnd(code, pos + 1).value)
    else if c in Operators then Step(OP, pos + 1)
    else Step(MISMATCH, pos + 1)
  }

  /** Every match from `pos` on, the dropped ones included. */
  function Pieces(code: string, pos: nat): (r: seq<Token>)
    requires pos <= |code|
    ensures forall i :: 0 <= i < |r| ==> r[i].text != []
    decreases |code| - pos
  {
    if pos >= |code| then []
    else
      var m := Match(code, pos);
      [Token(m.kind, code[pos..m.end])] + Pieces(code, m.end)
  }

  /** The `tokenize` loop from `pos` on. */
  function Scan(code: string, pos: nat): (r: seq<Token>)
    requires pos <= |code|
    ensures forall i :: 0 <= i < |r| ==> r[i].kind !in Skipped && r[i].text != []
    decreases |code| - pos
  {
    if pos >= |code| then []
    else
      var m := Match(code, pos);
      var rest := Scan(code, m.end);
      if m.kind in Skipped then rest else [Token(m.kind, code[pos..m.end])] + rest
  }

  /** `tokenize`: the kept `(type, value)` tuples, in source order. */
  function Tokenize(code: string): (r: seq<Token>)
    ensures forall i :: 0 <= i < |r| ==> r[i].kind !in Skipped && r[i].text != []
  {
    Scan(code, 0)
  }

  /** The texts of a token list, concatenated. */
  function Texts(ts: seq<Token>): string {
    if ts == [] then [] else ts[0].text + Texts(ts[1..])
  }

  /** The tokens whose spec `tokenize` keeps. */
  function Kept(ts: seq<Token>): (r: seq<Token>)
    ensures forall i :: 0 <= i < |r| ==> r[i].kind !in Skipped && r[i] in ts
  {
    if ts == [] then []
    else if ts[0].kind in Skipped then Kept(ts[1..])
    else [ts[0]] + Kept(ts[1..])
  }

  /** The matches tile the input: their texts, in order, are exactly the text scanned. */
  lemma {:induction false} PiecesTileInput(code: string, pos: nat)
    requires pos <= |code|
    ensures Texts(Pieces(code, pos)) == code[pos..]
    decreases |code| - pos
  {
    if pos < |code| {
      var m := Match(code, pos);
      PiecesTileInput(code, m.end);
      assert Pieces(code, pos)[1..] == Pieces(code, m.end);
      assert code[pos..m.end] + code[m.end..] == code[pos..];
    }
  }

  /** `tokenize` returns exactly the matches whose spec is not SKIP, COMMENT or NEWLINE. */
  lemma {:induction false} ScanKeepsPieces(code: string, pos: nat)
    requires pos <= |code|
    ensures Scan(code, pos) == Kept(Pieces(code, pos))
    decreases |code| - pos
  {
    if pos < |code| {
      var m := Match(code, pos);
      ScanKeepsPieces(code, m.end);
      assert Pieces(code, pos)[1..] == Pieces(code, m.end);
    }
  }

  /**
   * KEYWORD beats IDENT, but only as a whole word: it matches exactly when
   * the word at `pos` starts after a non-word character and is one of the
   * keywords; otherwise a word starting with a letter or `_` is an IDENT.
   */
  lemma KeywordsAreWholeWords(code: string, pos: nat)
    requires pos < |code| && (IsAlpha(code[pos]) || code[pos] == '_')
    ensures Match(code, pos).end == RunEnd(code, pos, IsWordChar)
    ensures Match(code, pos).kind == KEYWORD <==> WordStart(code, pos) && WordAt(code, pos) in Keywords
    ensures Match(code, pos).kind != KEYWORD ==> Match(code, pos).kind == IDENT
  {
  }

  /** `--` starts a comment running to the end of the line; a lone `-` is an operator. */
  lemma CommentOrMinus(code: string, pos: nat)
    requires pos < |code| && code[pos] == '-'
    ensures pos + 1 < |code| && code[pos + 1] == '-' ==>
      Match(code, pos) == Step(COMMENT, RunEnd(code, pos, NotNewline))
    ensures !(pos + 1 < |code| && code[pos + 1] == '-') ==> Match(code, pos) == Step(OP, pos + 1)
  {
  }

  /** Example: a keyword alone. */
  lemma KeywordExample()
    ensures Tokenize("Main") == [Token(KEYWORD, "Main")]
  {
    var s := "Main";
    assert RunEnd(s, 4, IsWordChar) == 4;
    assert RunEnd(s, 0, IsWordChar) == 4;
    assert WordAt(s, 0) == Keywords[0];
    assert Match(s, 0) == Step(KEYWORD, 4);
    assert Scan(s, 4) == [];
  }

  /** Example: a keyword followed by more word characters is one identifier. */
  lemma LongerWordExample()
    ensures Tokenize("Mainly") == [Token(IDENT, "Mainly")]
  {
    var s := "Mainly";
    assert RunEnd(s, 6, IsWordChar) == 6;
    assert RunEnd(s, 0, IsWordChar) == 6;
    assert forall k :: 0 <= k < |Keywords| ==> |Keywords[k]| != 6 || Keywords[k][5] != 'y';
    assert WordAt(s, 0) !in Keywords;
    assert Match(s, 0) == Step(IDENT, 6);
    assert Scan(s, 6) == [];
    assert s[0..6] == s;
  }

  /** Example: of the alternatives `Else` and `Elseif`, the whole word decides. */
  lemma ElseifExample()
    ensures Tokenize("Elseif") == [Token(KEYWORD, "Elseif")]
  {
    var s := "Elseif";
    assert RunEnd(s, 6, IsWordChar) == 6;
    assert RunEnd(s, 0, IsWordChar) == 6;
    assert WordAt(s, 0) == Keywords[5];
    assert Match(s, 0) == Step(KEYWORD, 6);
    assert Scan(s, 6) == [];
  }

  /** Example: blanks vanish and a lone `-` is an operator. */
  lemma MinusExample()
    ensures Tokenize("a - b") == [Token(IDENT, "a"), Token(OP, "-"), Token(IDENT, "b")]
  {
    var s := "a - b";
    MinusSteps();
    assert s[0..1] == "a" && s[2..3] == "-" && s[4..5] == "b";
    assert Scan(s, 5) == [];
    assert Scan(s, 4) == [Token(IDENT, "b")];
    assert Scan(s, 3) == [Token(IDENT, "b")];
    assert Scan(s, 2) == [Token(OP, "-"), Token(IDENT, "b")];
    assert Scan(s, 1) == [Token(OP, "-"), Token(IDENT, "b")];
  }

  lemma MinusSteps()
    ensures var s := "a - b";
      Match(s, 0) == Step(IDENT, 1) && Match(s, 1) == Step(SKIP, 2) && Match(s, 2) == Step(OP, 3)
      && Match(s, 3) == Step(SKIP, 4) && Match(s, 4) == Step(IDENT, 5)
  {
    var s := "a - b";
    assert RunEnd(s, 1, IsWordChar) == 1 && WordAt(s, 0) == "a" && Match(s, 0) == Step(IDENT, 1);
    assert Match(s, 2) == Step(OP, 3);
    BlankAndWordSteps();
  }

  lemma BlankAndWordSteps()
    ensures var s := "a - b";
      Match(s, 1) == Step(SKIP, 2) && Match(s, 3) == Step(SKIP, 4) && Match(s, 4) == Step(IDENT, 5)
  {
    var s := "a - b";
    assert RunEnd(s, 2, IsBlank) == 2 && Match(s, 1) == Step(SKIP, 2);
    assert RunEnd(s, 4, IsBlank) == 4 && Match(s, 3) == Step(SKIP, 4);
    assert RunEnd(s, 5, IsWordChar) == 5 && WordAt(s, 4) == "b" && Match(s, 4) == Step(IDENT, 5);
  }

  /** Example: `--` comments out the rest of the line. */
  lemma CommentExample()
    ensures Tokenize("a -- b") == [Token(IDENT, "a")]
  {
    var t := "a -- b";
    assert RunEnd(t, 1, IsWordChar) == 1 && WordAt(t, 0) == "a" && Match(t, 0) == Step(IDENT, 1);
    assert RunEnd(t, 2, IsBlank) == 2 && Match(t, 1) == Step(SKIP, 2);
    assert RunEnd(t, 2, NotNewline) == 6 && Match(t, 2) == Step(COMMENT, 6);
    assert Scan(t, 6) == [];
    assert Scan(t, 2) == [];
    assert Scan(t, 1) == [];
  }

  /**
   * Example of the `\b` anchors: digits glued to a word are no NUMBER (the
   * digit becomes a MISMATCH), and the word after it, having no boundary
   * before it, is no KEYWORD either.
   */
  lemma GluedDigitExample()
    ensures Tokenize("1Main") == [Token(MISMATCH, "1"), Token(IDENT, "Main")]
  {
    var s := "1Main";
    GluedDigitSteps();
    assert s[0..1] == "1" && s[1..5] == "Main";
    assert Scan(s, 5) == [];
    assert Scan(s, 1) == [Token(IDENT, "Main")];
  }

  lemma GluedDigitSteps()
    ensures Match("1Main", 0) == Step(MISMATCH, 1) && Match("1Main", 1) == Step(IDENT, 5)
  {
    var s := "1Main";
    assert RunEnd(s, 1, IsDigit) == 1;
    assert Match(s, 0) == Step(MISMATCH, 1);
    assert RunEnd(s, 5, IsWordChar) == 5 && RunEnd(s, 1, IsWordChar) == 5;
    assert !WordStart(s, 1);
  }

  /** Example: a quote that is never closed is a MISMATCH, and scanning goes on after it. */
  lemma UnclosedQuoteExample()
    ensures Tokenize("\"ab") == [Token(MISMATCH, "\""), Token(IDENT, "ab")]
  {
    var t := "\"ab";
    assert StringEnd(t, 3) == None && StringEnd(t, 2) == None && StringEnd(t, 1) == None;
    assert Match(t, 0) == Step(MISMATCH, 1);
    assert RunEnd(t, 3, IsWordChar) == 3 && RunEnd(t, 1, IsWordChar) == 3;
    assert WordAt(t, 1) == "ab";
    assert Match(t, 1) == Step(IDENT, 3);
    assert t[0..1] == "\"" && t[1..3] == "ab";
    assert Scan(t, 3) == [];
    assert Scan(t, 1) == [Token(IDENT, "ab")];
  }
}
