/**
 * Token kinds of the Trion language, the keyword table and the token
 * classifiers (trion/token_types.py, trion/token.py).
 */
module TrionTokens {
  import opened Common

  datatype TokenType =
    // literals
    | INTEGER | FLOAT | STRING | BOOLEAN | NULL
    | IDENTIFIER
    // keywords
    | IF | ELSE | ELIF | WHILE | FOR | FUNCTION | RETURN | CLASS | IMPORT | FROM
    | TRY | CATCH | FINALLY | THROW | TRUE | FALSE | NULL_KW | LET | CONST
    // arithmetic and assignment operators
    | PLUS | MINUS | MULTIPLY | DIVIDE | MODULO | POWER
    | ASSIGN | PLUS_ASSIGN | MINUS_ASSIGN | MULTIPLY_ASSIGN | DIVIDE_ASSIGN
    // comparison
    | EQUAL | NOT_EQUAL | LESS_THAN | LESS_EQUAL | GREATER_THAN | GREATER_EQUAL
    // logical
    | AND | OR | NOT
    // punctuation
    | LEFT_PAREN | RIGHT_PAREN | LEFT_BRACE | RIGHT_BRACE | LEFT_BRACKET | RIGHT_BRACKET
    | SEMICOLON | COMMA | DOT | COLON | ARROW
    // special
    | NEWLINE | EOF | INVALID

  /** The KEYWORDS dictionary. */
  const Keywords: map<string, TokenType> := map[
    "if" := IF, "else" := ELSE, "elif" := ELIF, "while" := WHILE, "for" := FOR,
    "function" := FUNCTION, "return" := RETURN, "class" := CLASS, "import" := IMPORT,
    "from" := FROM, "try" := TRY, "catch" := CATCH, "finally" := FINALLY,
    "throw" := THROW, "true" := TRUE, "false" := FALSE, "null" := NULL_KW,
    "let" := LET, "const" := CONST, "and" := AND, "or" := OR, "not" := NOT
  ]

  /** The dictionary's keys in declaration order. */
  const KeywordWords: seq<string> := [
    "if", "else", "elif", "while", "for", "function", "return", "class", "import",
    "from", "try", "catch", "finally", "throw", "true", "false", "null", "let",
    "const", "and", "or", "not"
  ]

  /** A lexical token; `line` and `column` default to 1 and the file name to None. */
  datatype Token = Token(kind: TokenType, value: string, line: int, column: int, filename: Option<string>)

  predicate IsType(tok: Token, t: TokenType) { tok.kind == t }

  predicate IsLiteral(tok: Token) {
    tok.kind in {INTEGER, FLOAT, STRING, TRUE, FALSE, NULL_KW}
  }

  predicate IsOperator(tok: Token) {
    tok.kind in {PLUS, MINUS, MULTIPLY, DIVIDE, MODULO, POWER, ASSIGN, PLUS_ASSIGN,
                 MINUS_ASSIGN, MULTIPLY_ASSIGN, DIVIDE_ASSIGN, EQUAL, NOT_EQUAL,
                 LESS_THAN, LESS_EQUAL, GREATER_THAN, GREATER_EQUAL, AND, OR, NOT}
  }

  predicate IsKeyword(tok: Token) {
    tok.kind in {IF, ELSE, ELIF, WHILE, FOR, FUNCTION, RETURN, CLASS, IMPORT, FROM,
                 TRY, CATCH, FINALLY, THROW, TRUE, FALSE, NULL_KW, LET, CONST,
                 AND, OR, NOT}
  }

  predicate IsLowerWord(w: string) {
    w != [] && forall c :: c in w ==> 'a' <= c <= 'z'
  }

  /** The dictionary holds exactly 22 words. */
  lemma KeywordsCount()
    ensures |Keywords| == 22
  {
    assert Keywords.Keys == set w | w in KeywordWords;
    DistinctCard(KeywordWords);
  }

  /** Every keyword is a lower-case word. */
  lemma KeywordsLowerCase()
    ensures forall w :: w in Keywords ==> IsLowerWord(w)
  {
  }

  /** The word that spells a keyword kind, if any: the inverse of the dictionary. */
  function KeywordSpelling(t: TokenType): Option<string> {
    match t
    case IF => Some("if")
    case ELSE => Some("else")
    case ELIF => Some("elif")
    case WHILE => Some("while")
    case FOR => Some("for")
    case FUNCTION => Some("function")
    case RETURN => Some("return")
    case CLASS => Some("class")
    case IMPORT => Some("import")
    case FROM => Some("from")
    case TRY => Some("try")
    case CATCH => Some("catch")
    case FINALLY => Some("finally")
    case THROW => Some("throw")
    case TRUE => Some("true")
    case FALSE => Some("false")
    case NULL_KW => Some("null")
    case LET => Some("let")
    case CONST => Some("const")
    case AND => Some("and")
    case OR => Some("or")
    case NOT => Some("not")
    case _ => None
  }

  /** Spelling inverts the dictionary ... */
  lemma SpellingOfKeyword(w: string)
    requires w in Keywords
    ensures KeywordSpelling(Keywords[w]) == Some(w)
  {
    if w == "if" || w == "else" || w == "elif" {
      BranchingSpellings(w);
    } else if w == "while" || w == "for" || w == "function" {
      LoopingSpellings(w);
    } else if w == "return" || w == "class" || w == "import" || w == "from" || w == "try" {
      DeclaringSpellings(w);
    } else if w == "catch" || w == "finally" || w == "throw" || w == "true" || w == "false" || w == "null" {
      HandlingSpellings(w);
    } else {
      BindingSpellings(w);
    }
  }

  /** The dictionary's words checked a handful at a time. */
  lemma BranchingSpellings(w: string)
    requires w == "if" || w == "else" || w == "elif"
    ensures KeywordSpelling(Keywords[w]) == Some(w)
  {
    if w == "if" {
      assert Keywords["if"] == IF;
    } else if w == "else" {
      assert Keywords["else"] == ELSE;
    } else if w == "elif" {
      assert Keywords["elif"] == ELIF;
    }
  }

  lemma LoopingSpellings(w: string)
    requires w == "while" || w == "for" || w == "function"
    ensures KeywordSpelling(Keywords[w]) == Some(w)
  {
    if w == "while" {
      assert Keywords["while"] == WHILE;
    } else if w == "for" {
      assert Keywords["for"] == FOR;
    } else if w == "function" {
      assert Keywords["function"] == FUNCTION;
    }
  }

  lemma DeclaringSpellings(w: string)
    requires w == "return" || w == "class" || w == "import" || w == "from" || w == "try"
    ensures KeywordSpelling(Keywords[w]) == Some(w)
  {
    if w == "return" {
      assert Keywords["return"] == RETURN;
    } else if w == "class" {
      assert Keywords["class"] == CLASS;
    } else if w == "import" {
      assert Keywords["import"] == IMPORT;
    } else if w == "from" {
      assert Keywords["from"] == FROM;
    } else if w == "try" {
      assert Keywords["try"] == TRY;
    }
  }

  lemma HandlingSpellings(w: string)
    requires w == "catch" || w == "finally" || w == "throw" || w == "true" || w == "false" || w == "null"
    ensures KeywordSpelling(Keywords[w]) == Some(w)
  {
    if w == "catch" {
      assert Keywords["catch"] == CATCH;
    } else if w == "finally" {
      assert Keywords["finally"] == FINALLY;
    } else if w == "throw" {
      assert Keywords["throw"] == THROW;
    } else if w == "true" {
      assert Keywords["true"] == TRUE;
    } else if w == "false" {
      assert Keywords["false"] == FALSE;
    } else if w == "null" {
      assert Keywords["null"] == NULL_KW;
    }
  }

  lemma BindingSpellings(w: string)
    requires w == "let" || w == "const" || w == "and" || w == "or" || w == "not"
    ensures KeywordSpelling(Keywords[w]) == Some(w)
  {
    if w == "let" {
      assert Keywords["let"] == LET;
    } else if w == "const" {
      assert Keywords["const"] == CONST;
    } else if w == "and" {
      assert Keywords["and"] == AND;
    } else if w == "or" {
      assert Keywords["or"] == OR;
    } else if w == "not" {
      assert Keywords["not"] == NOT;
    }
  }

  /** ... and the dictionary inverts spelling. */
  lemma KeywordOfSpelling(w: string, t: TokenType)
    requires KeywordSpelling(t) == Some(w)
    ensures w in Keywords && Keywords[w] == t
  {
    if t.IF? || t.ELSE? || t.ELIF? || t.WHILE? || t.FOR? || t.FUNCTION? {
      ConditionalKeywords(w, t);
    } else if t.RETURN? || t.CLASS? || t.IMPORT? || t.FROM? || t.TRY? {
      DeclaringKeywords(w, t);
    } else if t.CATCH? || t.FINALLY? || t.THROW? || t.TRUE? || t.FALSE? || t.NULL_KW? {
      HandlingKeywords(w, t);
    } else {
      BindingKeywords(w, t);
    }
  }

  /** The dictionary lookups checked a handful of kinds at a time. */
  lemma ConditionalKeywords(w: string, t: TokenType)
    requires KeywordSpelling(t) == Some(w) && (t.IF? || t.ELSE? || t.ELIF? || t.WHILE? || t.FOR? || t.FUNCTION?)
    ensures w in Keywords && Keywords[w] == t
  {
    match t
    case IF => assert Keywords["if"] == IF;
    case ELSE => assert Keywords["else"] == ELSE;
    case ELIF => assert Keywords["elif"] == ELIF;
    case WHILE => assert Keywords["while"] == WHILE;
    case FOR => assert Keywords["for"] == FOR;
    case FUNCTION => assert Keywords["function"] == FUNCTION;
  }

  lemma DeclaringKeywords(w: string, t: TokenType)
    requires KeywordSpelling(t) == Some(w) && (t.RETURN? || t.CLASS? || t.IMPORT? || t.FROM? || t.TRY?)
    ensures w in Keywords && Keywords[w] == t
  {
    match t
    case RETURN => assert Keywords["return"] == RETURN;
    case CLASS => assert Keywords["class"] == CLASS;
    case IMPORT => assert Keywords["import"] == IMPORT;
    case FROM => assert Keywords["from"] == FROM;
    case TRY => assert Keywords["try"] == TRY;
  }

  lemma HandlingKeywords(w: string, t: TokenType)
    requires KeywordSpelling(t) == Some(w) && (t.CATCH? || t.FINALLY? || t.THROW? || t.TRUE? || t.FALSE? || t.NULL_KW?)
    ensures w in Keywords && Keywords[w] == t
  {
    match t
    case CATCH => assert Keywords["catch"] == CATCH;
    case FINALLY => assert Keywords["finally"] == FINALLY;
    case THROW => assert Keywords["throw"] == THROW;
    case TRUE => assert Keywords["true"] == TRUE;
    case FALSE => assert Keywords["false"] == FALSE;
    case NULL_KW => assert Keywords["null"] == NULL_KW;
  }

  lemma BindingKeywords(w: string, t: TokenType)
    requires KeywordSpelling(t) == Some(w) && (t.LET? || t.CONST? || t.AND? || t.OR? || t.NOT?)
    ensures w in Keywords && Keywords[w] == t
  {
    match t
    case LET => assert Keywords["let"] == LET;
    case CONST => assert Keywords["const"] == CONST;
    case AND => assert Keywords["and"] == AND;
    case OR => assert Keywords["or"] == OR;
    case NOT => assert Keywords["not"] == NOT;
  }

  /** Hence the dictionary is injective: no two words share a kind. */
  lemma KeywordsInjective(a: string, b: string)
    requires a in Keywords && b in Keywords && a != b
    ensures Keywords[a] != Keywords[b]
  {
    SpellingOfKeyword(a);
    SpellingOfKeyword(b);
  }

  /** The words the language does and does not reserve; the lookup is case-sensitive. */
  lemma KeywordSpellings()
    ensures "function" in Keywords && Keywords["function"] == FUNCTION
    ensures "fn" !in Keywords && "in" !in Keywords && "as" !in Keywords
    ensures Keywords["and"] == AND && Keywords["or"] == OR && Keywords["not"] == NOT
    ensures Keywords["null"] == NULL_KW
    ensures "If" !in Keywords && "NULL" !in Keywords
  {
  }

  /** No keyword maps to a literal-carrying or structural kind. */
  lemma KeywordKindsAreReserved()
    ensures forall w :: w in Keywords ==>
      Keywords[w] !in {INTEGER, FLOAT, STRING, IDENTIFIER, NEWLINE, EOF, INVALID, NULL}
  {
  }

  /** `is_keyword` holds exactly for the kinds in the range of the keyword table. */
  lemma IsKeywordIsTableRange(tok: Token)
    ensures IsKeyword(tok) <==> tok.kind in Keywords.Values
  {
    if IsKeyword(tok) {
      var w := KeywordSpelling(tok.kind).value;
      KeywordOfSpelling(w, tok.kind);
    }
  }

  /** The overlaps and gaps between the three classifiers. */
  lemma ClassifierOverlaps(tok: Token)
    ensures tok.kind in {TRUE, FALSE, NULL_KW} ==> IsLiteral(tok) && IsKeyword(tok) && !IsOperator(tok)
    ensures tok.kind in {AND, OR, NOT} ==> IsOperator(tok) && IsKeyword(tok) && !IsLiteral(tok)
    ensures tok.kind in {IDENTIFIER, NEWLINE, EOF, INVALID, LEFT_PAREN, RIGHT_PAREN, LEFT_BRACE,
                         RIGHT_BRACE, LEFT_BRACKET, RIGHT_BRACKET, SEMICOLON, COMMA, DOT,
                         COLON, ARROW}
            ==> !IsLiteral(tok) && !IsOperator(tok) && !IsKeyword(tok)
  {
  }
}
