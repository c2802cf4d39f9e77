/**
 * The Capsule dialect parsers: the tolerant `Parser` of compiler.py, which
 * collects `Main` blocks and `Capsule` declarations as raw statement
 * strings, the statement classifier that turns those strings into
 * structured statements, and the minimal parser of parser.py.
 *
 * The node classes come from an `ast` module that is not part of this
 * model; they are written here as plain datatypes with the fields the
 * parsers set.
 */
module CapsuleParser {
  import opened Common
  import opened CapsuleLexer

  /** A body entry: a raw statement string, or one of the structured statements. */
  datatype Item = Text(text: string) | PrintStmt(content: string) | RuleStmt(rule: string) | RawStmt(raw: string)

  datatype Node = MainBlock(body: seq<Item>) | Capsule(name: string, body: seq<Item>)

  // ---------------------------------------------------------------------
  // Statement classification

  predicate Quoted(t: string) {
    |t| >= 2 && ((t[0] == '"' && t[|t| - 1] == '"') || (t[0] == '\'' && t[|t| - 1] == '\''))
  }

  /** `_strip_surrounding_quotes`: trim, then drop one pair of matching quotes. */
  function StripQuotes(s: string): (r: string)
    ensures Quoted(Strip(s)) ==> r == Strip(s)[1..|Strip(s)| - 1]
    ensures !Quoted(Strip(s)) ==> r == Strip(s)
  {
    var t := Strip(s);
    if Quoted(t) then t[1..|t| - 1] else t
  }

  /** The text `print` content comes from: after the first `:`, else after the first word, else nothing. */
  function PrintContent(t: string): string {
    match Find(t, ':')
    case Some(i) => Strip(t[i + 1..])
    case None => if |Word(t)| < |t| then Strip(t[|Word(t)|..]) else ""
  }

  /** Whether a (trimmed) statement text starts with `prefix`, ignoring case. */
  predicate Starts(t: string, prefix: string) {
    prefix <= Lower(t)
  }

  /**
   * `_parse_statement_to_node`: the text is trimmed; empty text is an empty
   * RawStmt, a `print` prefix (any case) makes a PrintStmt, a `rule` prefix
   * a RuleStmt of the trimmed text, and anything else a RawStmt of it.
   */
  function ParseStatement(s: string): (r: Item)
    ensures !r.Text?
    ensures r.PrintStmt? <==> Starts(Strip(s), "print")
    ensures r.RuleStmt? <==> Starts(Strip(s), "rule")
    ensures r.RuleStmt? ==> r.rule == Strip(s)
    ensures r.RawStmt? ==> r.raw == Strip(s)
  {
    var t := Strip(s);
    if t == "" then RawStmt("")
    else if Starts(t, "print") then PrintStmt(StripQuotes(PrintContent(t)))
    else if Starts(t, "rule") then RuleStmt(t)
    else RawStmt(t)
  }

  /** One body entry after `to_structured`: raw strings are classified, structured entries kept. */
  function StructureItem(item: Item): (r: Item)
    ensures !r.Text?
    ensures !item.Text? ==> r == item
  {
    if item.Text? then ParseStatement(item.text) else item
  }

  /** `to_structured` on a body, entry by entry. */
  function Structured(body: seq<Item>): (r: seq<Item>)
    ensures |r| == |body|
    ensures forall i :: 0 <= i < |body| ==> r[i] == StructureItem(body[i])
  {
    if body == [] then [] else [StructureItem(body[0])] + Structured(body[1..])
  }

  /** `MainBlock.to_structured` and `Capsule.to_structured`: a new node, the name kept. */
  function ToStructured(n: Node): (r: Node)
    ensures r.MainBlock? == n.MainBlock? && (n.Capsule? ==> r.name == n.name)
    ensures |r.body| == |n.body|
    ensures forall i :: 0 <= i < |r.body| ==> !r.body[i].Text?
  {
    match n
    case MainBlock(body) => MainBlock(Structured(body))
    case Capsule(name, body) => Capsule(name, Structured(body))
  }

  /** Structuring twice changes nothing more: no raw string is left after the first pass. */
  lemma StructuredIdempotent(n: Node)
    ensures ToStructured(ToStructured(n)) == ToStructured(n)
  {
    var b := ToStructured(n).body;
    assert Structured(b) == b;
  }

  /** An entry `find_rules` reports: a raw string whose trimmed text starts with `rule`, or a RuleStmt. */
  predicate RuleLike(item: Item) {
    (item.Text? && Starts(Strip(item.text), "rule")) || item.RuleStmt?
  }

  /** A reported rule: its index in the body and the RuleStmt. */
  datatype Found = Found(index: nat, stmt: Item)

  /** The RuleStmt `find_rules` reports for a rule-like entry. */
  function AsRule(item: Item): (r: Item)
    requires RuleLike(item)
    ensures r.RuleStmt?
  {
    if item.RuleStmt? then item else RuleStmt(Strip(item.text))
  }

  /** Reporting entry `i` ahead of later reports keeps them sound and in order. */
  lemma ConsFound(body: seq<Item>, i: nat, stmt: Item, rest: seq<Found>)
    requires i < |body| && RuleLike(body[i]) && stmt.RuleStmt?
    requires forall k :: 0 <= k < |rest| ==> i + 1 <= rest[k].index < |body| && RuleLike(body[rest[k].index]) && rest[k].stmt.RuleStmt?
    requires forall k, l :: 0 <= k < l < |rest| ==> rest[k].index < rest[l].index
    ensures var r := [Found(i, stmt)] + rest;
      (forall k :: 0 <= k < |r| ==> i <= r[k].index < |body| && RuleLike(body[r[k].index]) && r[k].stmt.RuleStmt?)
      && forall k, l :: 0 <= k < l < |r| ==> r[k].index < r[l].index
  {
    var r := [Found(i, stmt)] + rest;
    assert forall k :: 1 <= k < |r| ==> r[k] == rest[k - 1];
  }

  /** `find_rules` from index `i` on. */
  function RulesFrom(body: seq<Item>, i: nat): (r: seq<Found>)
    requires i <= |body|
    ensures forall k :: 0 <= k < |r| ==> i <= r[k].index < |body| && RuleLike(body[r[k].index]) && r[k].stmt.RuleStmt?
    ensures forall k, l :: 0 <= k < l < |r| ==> r[k].index < r[l].index
    decreases |body| - i
  {
    if i == |body| then []
    else
      var rest := RulesFrom(body, i + 1);
      if RuleLike(body[i]) then
        ConsFound(body, i, AsRule(body[i]), rest);
        [Found(i, AsRule(body[i]))] + rest
      else rest
  }

  /**
   * `find_rules`: the index and the RuleStmt of every rule-like entry, in
   * order, and of no other; the capsule itself is not changed.
   */
  function FindRules(body: seq<Item>): (r: seq<Found>)
    ensures forall k :: 0 <= k < |r| ==> r[k].index < |body| && RuleLike(body[r[k].index]) && r[k].stmt.RuleStmt?
    ensures forall k, l :: 0 <= k < l < |r| ==> r[k].index < r[l].index
  {
    RulesFrom(body, 0)
  }

  /** No rule-like entry is missed: each is reported, with its index, as the RuleStmt it reads as. */
  lemma {:induction false} RulesComplete(body: seq<Item>, i: nat, j: nat)
    requires i <= j < |body| && RuleLike(body[j])
    ensures Found(j, AsRule(body[j])) in RulesFrom(body, i)
    decreases j - i
  {
    if i < j {
      RulesComplete(body, i + 1, j);
    }
  }

  /** The RuleStmt entries of a structured body, with their indices. */
  function RuleEntries(body: seq<Item>, i: nat): seq<Found>
    requires i <= |body|
    decreases |body| - i
  {
    if i == |body| then []
    else if body[i].RuleStmt? then [Found(i, body[i])] + RuleEntries(body, i + 1)
    else RuleEntries(body, i + 1)
  }

  /** A text starting with `rule` cannot start with `print`. */
  lemma RuleIsNotPrint(t: string)
    requires Starts(t, "rule")
    ensures !Starts(t, "print")
  {
    assert Lower(t)[0] == 'r';
  }

  /**
   * `find_rules` agrees with `to_structured`: the rules it reports are
   * exactly the RuleStmt entries of the structured body, at the same indices.
   */
  lemma {:induction false} FindRulesAgreesWithStructured(body: seq<Item>, i: nat)
    requires i <= |body|
    ensures RulesFrom(body, i) == RuleEntries(Structured(body), i)
    decreases |body| - i
  {
    if i < |body| {
      FindRulesAgreesWithStructured(body, i + 1);
      RulesFromStep(body, i);
      RuleEntriesStep(Structured(body), i);
      StepHeadsAgree(body, i);
      ConcatAgree(RulesFrom(body, i), RuleEntries(Structured(body), i),
        if RuleLike(body[i]) then [Found(i, AsRule(body[i]))] else [],
        if Structured(body)[i].RuleStmt? then [Found(i, Structured(body)[i])] else [],
        RulesFrom(body, i + 1), RuleEntries(Structured(body), i + 1));
    }
  }

  /** Entry `i` is reported by `find_rules` exactly as it appears among the structured RuleStmt entries. */
  lemma StepHeadsAgree(body: seq<Item>, i: nat)
    requires i < |body|
    ensures (if RuleLike(body[i]) then [Found(i, AsRule(body[i]))] else [])
      == (if Structured(body)[i].RuleStmt? then [Found(i, Structured(body)[i])] else [])
  {
    assert Structured(body)[i] == StructureItem(body[i]);
    StructuredRuleLike(body[i]);
  }

  lemma ConcatAgree(a: seq<Found>, b: seq<Found>, x: seq<Found>, y: seq<Found>, aRest: seq<Found>, bRest: seq<Found>)
    requires a == x + aRest && b == y + bRest && x == y && aRest == bRest
    ensures a == b
  {
  }

  lemma RulesFromStep(body: seq<Item>, i: nat)
    requires i < |body|
    ensures RulesFrom(body, i)
      == (if RuleLike(body[i]) then [Found(i, AsRule(body[i]))] else []) + RulesFrom(body, i + 1)
  {
  }

  lemma RuleEntriesStep(body: seq<Item>, i: nat)
    requires i < |body|
    ensures RuleEntries(body, i)
      == (if body[i].RuleStmt? then [Found(i, body[i])] else []) + RuleEntries(body, i + 1)
  {
  }

  /** An entry is rule-like exactly when it structures to a RuleStmt, and that RuleStmt is the one reported. */
  lemma StructuredRuleLike(item: Item)
    ensures RuleLike(item) <==> StructureItem(item).RuleStmt?
    ensures RuleLike(item) ==> AsRule(item) == StructureItem(item)
  {
    if item.Text? && Starts(Strip(item.text), "rule") {
      RuleIsNotPrint(Strip(item.text));
    }
  }

  /** Finding the rules of the structured capsule gives the same answer as of the raw one. */
  lemma FindRulesAfterStructuring(body: seq<Item>)
    ensures FindRules(Structured(body)) == FindRules(body)
  {
    FindRulesAgreesWithStructured(body, 0);
    StructuredRulesAreEntries(Structured(body), 0);
  }

  /** On a body without raw strings, `find_rules` reports exactly its RuleStmt entries. */
  lemma {:induction false} StructuredRulesAreEntries(body: seq<Item>, i: nat)
    requires i <= |body| && forall j :: 0 <= j < |body| ==> !body[j].Text?
    ensures RulesFrom(body, i) == RuleEntries(body, i)
    decreases |body| - i
  {
    if i < |body| {
      StructuredRulesAreEntries(body, i + 1);
    }
  }

  /** A `print` statement's content is read from its trimmed text. */
  lemma PrintIs(s: string)
    requires Starts(Strip(s), "print")
    ensures ParseStatement(s) == PrintStmt(StripQuotes(PrintContent(Strip(s))))
  {
  }

  /** `print`, or `Print` spelt with a capital as the examples write it, starts a `print` statement. */
  lemma PrintPrefix(t: string)
    requires |t| >= 5 && (t[0] == 'P' || t[0] == 'p') && t[1] == 'r' && t[2] == 'i' && t[3] == 'n' && t[4] == 't'
    ensures Starts(t, "print")
  {
    assert Lower(t)[..5] == "print";
  }

  lemma PrintColonAt(q: string)
    ensures Find("Print : \"" + q + "\"", ':') == Some(6)
  {
    var t := "Print : \"" + q + "\"";
    assert t[..6] == "Print ";
    FindFirst(t, ':', 6);
  }

  lemma PrintColonContent(q: string)
    ensures PrintContent("Print : \"" + q + "\"") == "\"" + q + "\""
  {
    var t := "Print : \"" + q + "\"";
    PrintColonAt(q);
    assert t[7..] == " \"" + q + "\"";
    StripOneLeading(t[7..]);
  }

  /**
   * The colon form of `print` gives back exactly the quoted text, whatever
   * it holds (colons and quotes included).
   */
  lemma PrintColonForm(q: string)
    ensures ParseStatement("Print : \"" + q + "\"") == PrintStmt(q)
  {
    var t := "Print : \"" + q + "\"";
    assert t[0] == 'P' && t[|t| - 1] == '"';
    StripKeeps(t);
    PrintPrefix(t);
    PrintIs(t);
    PrintColonContent(q);
    var u := "\"" + q + "\"";
    StripKeeps(u);
    assert Quoted(u) && u[1..|u| - 1] == q;
  }

  lemma PrintWordContent(w: string)
    requires w != [] && !IsSpace(w[0]) && !IsSpace(w[|w| - 1]) && ':' !in w
    ensures PrintContent("print " + w) == w
  {
    var t := "print " + w;
    assert ':' !in t by {
      assert forall i :: 6 <= i < |t| ==> t[i] == w[i - 6];
    }
    assert Word(t) == "print" by {
      assert t[..5] == "print" && IsSpace(t[5]);
    }
    assert t[5..] == " " + w;
    StripOneLeading(t[5..]);
  }

  /**
   * The word form: `print` followed by whitespace and a text that has no
   * colon, no surrounding whitespace and no surrounding quotes gives that text.
   */
  lemma PrintWordForm(w: string)
    requires w != [] && !IsSpace(w[0]) && !IsSpace(w[|w| - 1]) && ':' !in w && !Quoted(w)
    ensures ParseStatement("print " + w) == PrintStmt(w)
  {
    var t := "print " + w;
    assert t[0] == 'p' && t[|t| - 1] == w[|w| - 1];
    StripKeeps(t);
    PrintPrefix(t);
    PrintIs(t);
    PrintWordContent(w);
    StripKeeps(w);
  }

  // ---------------------------------------------------------------------
  // The tolerant parser of compiler.py

  predicate IsKeyword(t: Token, w: string) {
    t.kind == KEYWORD && t.text == w
  }

  /** The keywords that end a `Main` block. */
  predicate TopLevel(t: Token) {
    t.kind == KEYWORD && (t.text == "Main" || t.text == "Capsule" || t.text == "EndCapsule")
  }

  /** The end of the run of non-KEYWORD tokens from `pos`. */
  function NonKeywordRun(toks: seq<Token>, pos: nat): (r: nat)
    requires pos <= |toks|
    ensures pos <= r <= |toks| && (r < |toks| ==> toks[r].kind == KEYWORD)
    ensures forall k :: pos <= k < r ==> toks[k].kind != KEYWORD
    decreases |toks| - pos
  {
    if pos < |toks| && toks[pos].kind != KEYWORD then NonKeywordRun(toks, pos + 1) else pos
  }

  function TextsOf(ts: seq<Token>): (r: seq<string>)
    ensures |r| == |ts| && forall i :: 0 <= i < |ts| ==> r[i] == ts[i].text
  {
    if ts == [] then [] else [ts[0].text] + TextsOf(ts[1..])
  }

  /** A statement or fragment: the texts of `toks[lo..hi]` joined by single spaces, trimmed. */
  function Fragment(toks: seq<Token>, lo: nat, hi: nat): string
    requires lo <= hi <= |toks|
  {
    Strip(Join(TextsOf(toks[lo..hi]), " "))
  }

  datatype Collected = Collected(body: seq<string>, pos: nat)

  /**
   * One iteration of the `_parse_main` loop as written: the inner loop takes
   * only non-KEYWORD tokens, so on any other keyword it takes nothing.
   */
  function MainStepAsWritten(toks: seq<Token>, pos: nat): (r: nat)
    requires pos < |toks| && !TopLevel(toks[pos])
    ensures pos <= r
  {
    NonKeywordRun(toks, pos)
  }

  /**
   * On a keyword that does not end the block (`Print`, say) the loop as
   * written makes no progress, and its condition still holds: `_parse_main`
   * never returns.
   */
  lemma MainStallsOnOtherKeyword(toks: seq<Token>, pos: nat)
    requires pos < |toks| && toks[pos].kind == KEYWORD && !TopLevel(toks[pos])
    ensures MainStepAsWritten(toks, pos) == pos
    ensures pos < |toks| && !TopLevel(toks[pos])
  {
  }

  /** Example: `Main Print : "hi"` is such an input. */
  lemma MainStallExample()
    ensures var toks := [Token(KEYWORD, "Main"), Token(KEYWORD, "Print"), Token(OP, ":"), Token(STRING, "\"hi\"")];
      IsKeyword(toks[0], "Main") && MainStepAsWritten(toks, 1) == 1 && !TopLevel(toks[1])
  {
  }

  /**
   * `_parse_main` with the stall corrected: a fragment starts at any token
   * that is not a top-level keyword, so a keyword such as `Print` begins a
   * fragment and is followed by the non-KEYWORD tokens after it. Non-blank
   * fragments are kept, in order; collection stops at `Main`, `Capsule`,
   * `EndCapsule` or the end.
   */
  function MainLoop(toks: seq<Token>, pos: nat, body: seq<string>): (r: Collected)
    requires pos <= |toks|
    ensures pos <= r.pos <= |toks| && (r.pos < |toks| ==> TopLevel(toks[r.pos]))
    ensures forall k :: pos <= k < r.pos ==> !TopLevel(toks[k])
    ensures body <= r.body
    decreases |toks| - pos
  {
    if pos >= |toks| || TopLevel(toks[pos]) then Collected(body, pos)
    else
      var step := MainStep(toks, pos, body);
      MainLoop(toks, step.pos, step.body)
  }

  /** One iteration of the corrected loop: the fragment that starts at `pos`, kept when it is not blank. */
  function MainStep(toks: seq<Token>, pos: nat, body: seq<string>): (r: Collected)
    requires pos < |toks| && !TopLevel(toks[pos])
    ensures pos < r.pos <= |toks| && body <= r.body
    ensures forall k :: pos <= k < r.pos ==> !TopLevel(toks[k])
  {
    var e := NonKeywordRun(toks, pos + 1);
    Collected(Keep(body, Fragment(toks, pos, e)), e)
  }

  /** `if frag: body.append(frag)`. */
  function Keep(body: seq<string>, frag: string): (r: seq<string>)
    ensures body <= r
  {
    if frag != "" then body + [frag] else body
  }

  /**
   * Where the written loop does progress, at a non-KEYWORD token, the
   * corrected step is the same: it ends where the written one does.
   */
  lemma MainStepAgrees(toks: seq<Token>, pos: nat)
    requires pos < |toks| && toks[pos].kind != KEYWORD
    ensures MainStepAsWritten(toks, pos) == NonKeywordRun(toks, pos + 1)
  {
  }

  /** `_parse_main`, entered just after `Main`. */
  function ParseMainCorrected(toks: seq<Token>, pos: nat): (r: (Node, nat))
    requires pos <= |toks|
    ensures r.0.MainBlock? && pos <= r.1 <= |toks|
    ensures forall i :: 0 <= i < |r.0.body| ==> r.0.body[i].Text?
  {
    var c := MainLoop(toks, pos, []);
    (MainBlock(Texts(c.body)), c.pos)
  }

  function Texts(ss: seq<string>): (r: seq<Item>)
    ensures |r| == |ss| && forall i :: 0 <= i < |ss| ==> r[i] == Text(ss[i])
  {
    if ss == [] then [] else [Text(ss[0])] + Texts(ss[1..])
  }

  /** How many KEYWORD tokens `toks[lo..hi]` holds. */
  function KeywordCount(toks: seq<Token>, lo: nat, hi: nat): nat
    requires lo <= hi <= |toks|
    decreases hi - lo
  {
    if lo == hi then 0 else (if toks[lo].kind == KEYWORD then 1 else 0) + KeywordCount(toks, lo + 1, hi)
  }

  /** Stray text appended to the last entry with a space, or made the first entry. */
  function AppendStray(body: seq<string>, frag: string): (r: seq<string>)
    ensures |r| == if body == [] then 1 else |body|
    ensures body != [] ==> r[..|r| - 1] == body[..|body| - 1] && r[|r| - 1] == body[|body| - 1] + " " + frag
  {
    if body == [] then [frag] else body[..|body| - 1] + [body[|body| - 1] + " " + frag]
  }

  /**
   * The statement loop of `_parse_capsule`: a KEYWORD starts a statement
   * that takes the following non-KEYWORD tokens; a stray token is appended
   * to the last entry. It stops at the first `EndCapsule` or the end.
   */
  function CapsuleLoop(toks: seq<Token>, pos: nat, body: seq<string>): (r: Collected)
    requires pos <= |toks|
    ensures pos <= r.pos <= |toks| && (r.pos < |toks| ==> IsKeyword(toks[r.pos], "EndCapsule"))
    ensures forall k :: pos <= k < r.pos ==> !IsKeyword(toks[k], "EndCapsule")
    decreases |toks| - pos
  {
    if pos >= |toks| || IsKeyword(toks[pos], "EndCapsule") then Collected(body, pos)
    else if toks[pos].kind == KEYWORD then
      var e := NonKeywordRun(toks, pos + 1);
      var stmt := Fragment(toks, pos, e);
      CapsuleLoop(toks, e, if stmt != "" then body + [stmt] else body)
    else CapsuleLoop(toks, pos + 1, AppendStray(body, toks[pos].text))
  }

  /** A statement begun by a keyword is never blank: the keyword's first character is no space. */
  lemma StatementNotBlank(toks: seq<Token>, pos: nat, e: nat)
    requires pos < e <= |toks| && toks[pos].text != [] && !IsSpace(toks[pos].text[0])
    ensures Fragment(toks, pos, e) != []
  {
    var ts := TextsOf(toks[pos..e]);
    assert ts[0] == toks[pos].text;
    var j := Join(ts, " ");
    assert j[0] == toks[pos].text[0];
    StripNonBlank(j, 0);
  }

  /** Keyword tokens as the lexer makes them: spelled with letters. */
  predicate Lexed(toks: seq<Token>) {
    forall i :: 0 <= i < |toks| ==> toks[i].text != [] && (toks[i].kind == KEYWORD ==> IsAlpha(toks[i].text[0]))
  }

  /**
   * One entry per statement keyword, plus one for stray tokens met before
   * the first statement when the body was still empty.
   */
  lemma {:induction false} OneEntryPerStatement(toks: seq<Token>, pos: nat, body: seq<string>)
    requires pos <= |toks| && Lexed(toks)
    ensures var r := CapsuleLoop(toks, pos, body);
      |r.body| == |body| + KeywordCount(toks, pos, r.pos)
        + (if body == [] && pos < r.pos && toks[pos].kind != KEYWORD then 1 else 0)
    decreases |toks| - pos
  {
    var r := CapsuleLoop(toks, pos, body);
    if pos >= |toks| || IsKeyword(toks[pos], "EndCapsule") {
    } else if toks[pos].kind == KEYWORD {
      var e := NonKeywordRun(toks, pos + 1);
      StatementNotBlank(toks, pos, e);
      OneEntryPerStatement(toks, e, body + [Fragment(toks, pos, e)]);
      NoKeywordsInRun(toks, pos + 1, e);
      KeywordCountSplit(toks, pos + 1, e, r.pos);
    } else {
      OneEntryPerStatement(toks, pos + 1, AppendStray(body, toks[pos].text));
    }
  }

  lemma {:induction false} NoKeywordsInRun(toks: seq<Token>, lo: nat, hi: nat)
    requires lo <= hi <= |toks| && forall k :: lo <= k < hi ==> toks[k].kind != KEYWORD
    ensures KeywordCount(toks, lo, hi) == 0
    decreases hi - lo
  {
    if lo < hi {
      NoKeywordsInRun(toks, lo + 1, hi);
    }
  }

  lemma {:induction false} KeywordCountSplit(toks: seq<Token>, lo: nat, mid: nat, hi: nat)
    requires lo <= mid <= hi <= |toks|
    ensures KeywordCount(toks, lo, hi) == KeywordCount(toks, lo, mid) + KeywordCount(toks, mid, hi)
    decreases mid - lo
  {
    if lo < mid {
      KeywordCountSplit(toks, lo + 1, mid, hi);
    }
  }

  /**
   * `_parse_capsule`, entered just after `Capsule`: the name is the next
   * IDENT, or "<anonymous>" (nothing consumed); a closing `EndCapsule` is consumed.
   */
  function ParseCapsule(toks: seq<Token>, pos: nat): (r: (Node, nat))
    requires pos <= |toks|
    ensures r.0.Capsule? && pos <= r.1 <= |toks|
    ensures pos < |toks| && toks[pos].kind == IDENT ==> r.0.name == toks[pos].text
    ensures !(pos < |toks| && toks[pos].kind == IDENT) ==> r.0.name == "<anonymous>"
    ensures forall i :: 0 <= i < |r.0.body| ==> r.0.body[i].Text?
  {
    var named := pos < |toks| && toks[pos].kind == IDENT;
    var name := if named then toks[pos].text else "<anonymous>";
    var c := CapsuleLoop(toks, if named then pos + 1 else pos, []);
    var end := if c.pos < |toks| && IsKeyword(toks[c.pos], "EndCapsule") then c.pos + 1 else c.pos;
    (Capsule(name, Texts(c.body)), end)
  }

  /**
   * `Parser.parse` from `pos` with the `_parse_main` stall corrected:
   * `Main` and `Capsule` start nodes; any other token is skipped.
   */
  function ParseLoopCorrected(toks: seq<Token>, pos: nat, nodes: seq<Node>): (r: seq<Node>)
    requires pos <= |toks|
    ensures nodes <= r
    ensures |r| - |nodes| <= |toks| - pos
    decreases |toks| - pos
  {
    if pos >= |toks| then nodes
    else if IsKeyword(toks[pos], "Main") then
      var (n, p) := ParseMainCorrected(toks, pos + 1);
      ParseLoopCorrected(toks, p, nodes + [n])
    else if IsKeyword(toks[pos], "Capsule") then
      var (n, p) := ParseCapsule(toks, pos + 1);
      ParseLoopCorrected(toks, p, nodes + [n])
    else ParseLoopCorrected(toks, pos + 1, nodes)
  }

  function ParseCorrected(toks: seq<Token>): (r: seq<Node>)
    ensures |r| <= |toks|
  {
    ParseLoopCorrected(toks, 0, [])
  }

  /**
   * The `_parse_main` loop as written, from `pos`: `None` when it reaches a
   * keyword that does not end the block, where an iteration consumes nothing
   * and leaves the state as it was, so the loop never returns.
   */
  function MainLoopAsWritten(toks: seq<Token>, pos: nat, body: seq<string>): (r: Option<Collected>)
    requires pos <= |toks|
    ensures r.Some? ==> pos <= r.value.pos <= |toks| && (r.value.pos < |toks| ==> TopLevel(toks[r.value.pos]))
    decreases |toks| - pos
  {
    if pos >= |toks| || TopLevel(toks[pos]) then Some(Collected(body, pos))
    else
      var e := MainStepAsWritten(toks, pos);
      if e == pos then None
      else MainLoopAsWritten(toks, e, Keep(body, Fragment(toks, pos, e)))
  }

  /**
   * The written loop returns exactly when no keyword other than `Main`,
   * `Capsule` or `EndCapsule` lies in the stretch the corrected loop
   * collects, and then it collects the same fragments and stops at the same
   * place.
   */
  lemma {:induction false} MainLoopAsWrittenAgrees(toks: seq<Token>, pos: nat, body: seq<string>)
    requires pos <= |toks|
    ensures var c := MainLoop(toks, pos, body);
      MainLoopAsWritten(toks, pos, body).Some? <==> forall k :: pos <= k < c.pos ==> toks[k].kind != KEYWORD
    ensures MainLoopAsWritten(toks, pos, body).Some? ==> MainLoopAsWritten(toks, pos, body).value == MainLoop(toks, pos, body)
    decreases |toks| - pos
  {
    if pos >= |toks| || TopLevel(toks[pos]) {
    } else if toks[pos].kind == KEYWORD {
      MainStallsOnOtherKeyword(toks, pos);
      var step := MainStep(toks, pos, body);
      assert pos < step.pos <= MainLoop(toks, pos, body).pos;
    } else {
      var e := MainStepAsWritten(toks, pos);
      MainStepAgrees(toks, pos);
      assert MainStep(toks, pos, body) == Collected(Keep(body, Fragment(toks, pos, e)), e);
      MainLoopAsWrittenAgrees(toks, e, Keep(body, Fragment(toks, pos, e)));
    }
  }

  /** `_parse_main` as written, entered just after `Main`; `None` when it never returns. */
  function ParseMain(toks: seq<Token>, pos: nat): (r: Option<(Node, nat)>)
    requires pos <= |toks|
    ensures r.Some? ==> r.value.0.MainBlock? && pos <= r.value.1 <= |toks|
    ensures r.Some? ==> r.value == ParseMainCorrected(toks, pos)
  {
    MainLoopAsWrittenAgrees(toks, pos, []);
    match MainLoopAsWritten(toks, pos, [])
    case None => None
    case Some(c) => Some((MainBlock(Texts(c.body)), c.pos))
  }

  /** `Parser.parse` as written, from `pos`; `None` when a `Main` block in it never returns. */
  function ParseLoop(toks: seq<Token>, pos: nat, nodes: seq<Node>): (r: Option<seq<Node>>)
    requires pos <= |toks|
    decreases |toks| - pos
  {
    if pos >= |toks| then Some(nodes)
    else if IsKeyword(toks[pos], "Main") then
      match ParseMain(toks, pos + 1)
      case None => None
      case Some((n, p)) => ParseLoop(toks, p, nodes + [n])
    else if IsKeyword(toks[pos], "Capsule") then
      var (n, p) := ParseCapsule(toks, pos + 1);
      ParseLoop(toks, p, nodes + [n])
    else ParseLoop(toks, pos + 1, nodes)
  }

  /** `Parser.parse` as written: `None` when it never returns. */
  function Parse(toks: seq<Token>): (r: Option<seq<Node>>)
    ensures r.Some? ==> r.value == ParseCorrected(toks)
  {
    ParseLoopAgrees(toks, 0, []);
    ParseLoop(toks, 0, [])
  }

  /** Whenever the written parser returns, the corrected one returns the same nodes. */
  lemma {:induction false} ParseLoopAgrees(toks: seq<Token>, pos: nat, nodes: seq<Node>)
    requires pos <= |toks|
    ensures ParseLoop(toks, pos, nodes).Some? ==> ParseLoop(toks, pos, nodes).value == ParseLoopCorrected(toks, pos, nodes)
    decreases |toks| - pos
  {
    if pos >= |toks| {
    } else if IsKeyword(toks[pos], "Main") {
      var m := ParseMain(toks, pos + 1);
      if m.Some? {
        ParseLoopAgrees(toks, m.value.1, nodes + [m.value.0]);
      }
    } else if IsKeyword(toks[pos], "Capsule") {
      var (n, p) := ParseCapsule(toks, pos + 1);
      ParseLoopAgrees(toks, p, nodes + [n]);
    } else {
      ParseLoopAgrees(toks, pos + 1, nodes);
    }
  }

  /** Every keyword is `Main`, `Capsule` or `EndCapsule`. */
  predicate OnlyTopLevelKeywords(toks: seq<Token>) {
    forall k :: 0 <= k < |toks| && toks[k].kind == KEYWORD ==> TopLevel(toks[k])
  }

  /** Without any other keyword the written parser always returns. */
  lemma {:induction false} ParseLoopReturns(toks: seq<Token>, pos: nat, nodes: seq<Node>)
    requires pos <= |toks| && OnlyTopLevelKeywords(toks)
    ensures ParseLoop(toks, pos, nodes).Some?
    decreases |toks| - pos
  {
    if pos >= |toks| {
    } else if IsKeyword(toks[pos], "Main") {
      MainLoopAsWrittenAgrees(toks, pos + 1, []);
      var m := ParseMain(toks, pos + 1);
      ParseLoopReturns(toks, m.value.1, nodes + [m.value.0]);
    } else if IsKeyword(toks[pos], "Capsule") {
      var (n, p) := ParseCapsule(toks, pos + 1);
      ParseLoopReturns(toks, p, nodes + [n]);
    } else {
      ParseLoopReturns(toks, pos + 1, nodes);
    }
  }

  /** `Main Print : "hi"`: the written parser never returns. */
  lemma ParseStallExample()
    ensures Parse(StallTokens()).None?
  {
    var toks := StallTokens();
    MainStallsOnOtherKeyword(toks, 1);
    assert MainLoopAsWritten(toks, 1, []).None?;
    assert ParseMain(toks, 1).None?;
  }

  /** The corrected parser reads `Main Print : "hi"` as a block holding the one fragment. */
  lemma CorrectedStallExample()
    ensures ParseCorrected(StallTokens()) == [MainBlock([Text("Print : \"hi\"")])]
  {
    var toks := StallTokens();
    StallFragment();
    assert MainStep(toks, 1, []) == Collected(["Print : \"hi\""], 4);
    assert MainLoop(toks, 1, []) == Collected(["Print : \"hi\""], 4);
    assert Texts(["Print : \"hi\""]) == [Text("Print : \"hi\"")];
    assert ParseMainCorrected(toks, 1) == (MainBlock([Text("Print : \"hi\"")]), 4);
  }

  /** The fragment that starts at `Print` runs to the end. */
  lemma StallFragment()
    ensures NonKeywordRun(StallTokens(), 2) == 4
    ensures Fragment(StallTokens(), 1, 4) == "Print : \"hi\""
  {
    StallRun();
    StallTexts();
    StallLine();
  }

  lemma StallRun()
    ensures NonKeywordRun(StallTokens(), 2) == 4
  {
    assert NonKeywordRun(StallTokens(), 4) == 4;
  }

  lemma StallLine()
    ensures Strip(Join(["Print", ":", "\"hi\""], " ")) == "Print : \"hi\""
  {
    JoinThree("Print", ":", "\"hi\"", " ");
    var line := "Print : \"hi\"";
    assert line[0] == 'P' && line[|line| - 1] == '"';
    StripKeeps(line);
  }

  lemma StallTexts()
    ensures TextsOf(StallTokens()[1..4]) == ["Print", ":", "\"hi\""]
  {
    assert StallTokens()[1..4] == [Token(KEYWORD, "Print"), Token(OP, ":"), Token(STRING, "\"hi\"")];
  }

  /** The tokens of `Main Print : "hi"`. */
  function StallTokens(): seq<Token> {
    [Token(KEYWORD, "Main"), Token(KEYWORD, "Print"), Token(OP, ":"), Token(STRING, "\"hi\"")]
  }

  /** The tokens of `Capsule <name> Print : "<q>" EndCapsule`. */
  function PrintCapsule(name: string, q: string): seq<Token> {
    [Token(KEYWORD, "Capsule"), Token(IDENT, name), Token(KEYWORD, "Print"), Token(OP, ":"),
     Token(STRING, "\"" + q + "\""), Token(KEYWORD, "EndCapsule")]
  }

  lemma JoinThree(a: string, b: string, c: string, sep: string)
    ensures Join([a, b, c], sep) == a + sep + b + sep + c
  {
    assert [a, b, c][1..] == [b, c];
    assert [b, c][1..] == [c];
    assert Join([b, c], sep) == b + sep + c;
    assert a + sep + (b + sep + c) == a + sep + b + sep + c;
  }

  /** The `Print` statement of such a capsule: its three tokens joined by spaces. */
  lemma PrintCapsuleFragment(name: string, q: string)
    ensures Fragment(PrintCapsule(name, q), 2, 5) == "Print : \"" + q + "\""
  {
    var toks := PrintCapsule(name, q);
    var quoted := "\"" + q + "\"";
    assert TextsOf(toks[2..5]) == ["Print", ":", quoted];
    JoinThree("Print", ":", quoted, " ");
    var stmt := "Print" + " " + ":" + " " + quoted;
    assert stmt == "Print : \"" + q + "\"";
    assert stmt[0] == 'P' && stmt[|stmt| - 1] == '"';
    StripKeeps(stmt);
  }

  /** The body of such a capsule: one statement, stopped at `EndCapsule`. */
  lemma PrintCapsuleBody(name: string, q: string)
    ensures CapsuleLoop(PrintCapsule(name, q), 2, []) == Collected(["Print : \"" + q + "\""], 5)
  {
    var toks := PrintCapsule(name, q);
    var stmt := "Print : \"" + q + "\"";
    assert NonKeywordRun(toks, 5) == 5;
    assert NonKeywordRun(toks, 3) == 5;
    PrintCapsuleFragment(name, q);
    assert CapsuleLoop(toks, 5, [stmt]) == Collected([stmt], 5);
  }

  lemma PrintCapsuleNode(name: string, q: string)
    ensures ParseCapsule(PrintCapsule(name, q), 1) == (Capsule(name, [Text("Print : \"" + q + "\"")]), 6)
  {
    var toks := PrintCapsule(name, q);
    var stmt := "Print : \"" + q + "\"";
    assert 1 < |toks| && toks[1].kind == IDENT && toks[1].text == name;
    PrintCapsuleBody(name, q);
    var c := CapsuleLoop(toks, 2, []);
    assert c.body == [stmt] && c.pos == 5;
    assert IsKeyword(toks[5], "EndCapsule");
    assert Texts(c.body) == [Text(stmt)];
  }

  /**
   * Such a capsule parses to one capsule of that name holding the
   * statement's raw text; the written parser returns it too, as no `Main`
   * block is involved.
   */
  lemma PrintCapsuleParses(name: string, q: string)
    ensures ParseCorrected(PrintCapsule(name, q)) == [Capsule(name, [Text("Print : \"" + q + "\"")])]
    ensures Parse(PrintCapsule(name, q)) == Some([Capsule(name, [Text("Print : \"" + q + "\"")])])
  {
    var toks := PrintCapsule(name, q);
    var stmt := "Print : \"" + q + "\"";
    PrintCapsuleNode(name, q);
    assert !IsKeyword(toks[0], "Main") && IsKeyword(toks[0], "Capsule");
    assert ParseLoopCorrected(toks, 0, []) == ParseLoopCorrected(toks, 6, [Capsule(name, [Text(stmt)])]);
    assert ParseLoop(toks, 0, []) == ParseLoop(toks, 6, [Capsule(name, [Text(stmt)])]);
  }

  /**
   * Parsing and structuring a capsule holding one `Print : "<q>"` statement
   * gives back exactly the printed text `q`.
   */
  lemma PrintCapsuleRoundTrip(name: string, q: string)
    ensures ToStructured(ParseCorrected(PrintCapsule(name, q))[0]) == Capsule(name, [PrintStmt(q)])
  {
    var stmt := "Print : \"" + q + "\"";
    PrintCapsuleParses(name, q);
    PrintColonForm(q);
    assert Structured([Text(stmt)]) == [PrintStmt(q)];
  }

  // ---------------------------------------------------------------------
  // The minimal parser of parser.py

  /** `self.tokens[self.pos]` past the end. */
  datatype Crash = IndexError

  /**
   * `Parser.parse` of parser.py: `Main` gives an empty main block,
   * `Capsule` a capsule named by the next token's text whatever its kind,
   * and any other token is skipped. A `Capsule` as the last token indexes
   * past the end.
   */
  function MinimalLoop(toks: seq<Token>, pos: nat, nodes: seq<Node>): (r: Result<seq<Node>, Crash>)
    requires pos <= |toks| + 1
    ensures r.Ok? ==> nodes <= r.value && forall i :: |nodes| <= i < |r.value| ==> r.value[i].body == []
    decreases |toks| + 1 - pos
  {
    if pos >= |toks| then Ok(nodes)
    else if IsKeyword(toks[pos], "Main") then MinimalLoop(toks, pos + 1, nodes + [MainBlock([])])
    else if IsKeyword(toks[pos], "Capsule") then
      if pos + 1 >= |toks| then Err(IndexError)
      else MinimalLoop(toks, pos + 2, nodes + [Capsule(toks[pos + 1].text, [])])
    else MinimalLoop(toks, pos + 1, nodes)
  }

  function MinimalParse(toks: seq<Token>): Result<seq<Node>, Crash> {
    MinimalLoop(toks, 0, [])
  }

  /** How many `Main` keywords `toks[pos..]` holds. */
  function MainCount(toks: seq<Token>, pos: nat): nat
    requires pos <= |toks|
    decreases |toks| - pos
  {
    if pos == |toks| then 0 else (if IsKeyword(toks[pos], "Main") then 1 else 0) + MainCount(toks, pos + 1)
  }

  predicate NoCapsule(toks: seq<Token>) {
    forall i :: 0 <= i < |toks| ==> !IsKeyword(toks[i], "Capsule")
  }

  /** `n` empty main blocks. */
  function Mains(n: nat): (r: seq<Node>)
    ensures |r| == n && forall i :: 0 <= i < n ==> r[i] == MainBlock([])
  {
    if n == 0 then [] else [MainBlock([])] + Mains(n - 1)
  }

  /** Without a `Capsule` keyword the minimal parser emits one empty main block per `Main`, and never fails. */
  lemma {:induction false} MinimalMainsOnly(toks: seq<Token>, pos: nat, nodes: seq<Node>)
    requires pos <= |toks| && NoCapsule(toks)
    ensures MinimalLoop(toks, pos, nodes) == Ok(nodes + Mains(MainCount(toks, pos)))
    decreases |toks| - pos
  {
    if pos == |toks| {
      assert nodes + Mains(0) == nodes;
    } else {
      assert !IsKeyword(toks[pos], "Capsule");
      if IsKeyword(toks[pos], "Main") {
        MinimalMainsOnly(toks, pos + 1, nodes + [MainBlock([])]);
        assert nodes + [MainBlock([])] + Mains(MainCount(toks, pos + 1)) == nodes + Mains(MainCount(toks, pos));
      } else {
        MinimalMainsOnly(toks, pos + 1, nodes);
      }
    }
  }

  /** Example: a trailing `Capsule` crashes, and a capsule swallows a keyword as its name. */
  lemma MinimalExamples()
    ensures MinimalParse([Token(KEYWORD, "Main"), Token(KEYWORD, "Capsule")]) == Err(IndexError)
    ensures MinimalParse([Token(KEYWORD, "Capsule"), Token(KEYWORD, "Main")]) == Ok([Capsule("Main", [])])
  {
    var toks := [Token(KEYWORD, "Capsule"), Token(KEYWORD, "Main")];
    assert !IsKeyword(toks[0], "Main") && IsKeyword(toks[0], "Capsule");
    assert MinimalLoop(toks, 2, [Capsule("Main", [])]) == Ok([Capsule("Main", [])]);
    assert MinimalLoop(toks, 0, []) == MinimalLoop(toks, 2, [] + [Capsule(toks[1].text, [])]);
    assert [] + [Capsule(toks[1].text, [])] == [Capsule("Main", [])];
    assert MinimalParse(toks) == Ok([Capsule("Main", [])]);
  }

  /** The kind of each node, main or capsule. */
  function Kinds(ns: seq<Node>): (r: seq<bool>)
    ensures |r| == |ns| && forall i :: 0 <= i < |ns| ==> r[i] == ns[i].MainBlock?
  {
    if ns == [] then [] else [ns[0].MainBlock?] + Kinds(ns[1..])
  }

  predicate OnlyMainKeywords(toks: seq<Token>) {
    forall i :: 0 <= i < |toks| ==> toks[i].kind == KEYWORD ==> toks[i].text == "Main"
  }

  /**
   * The two parsers agree on the nodes of any token list whose only
   * keyword is `Main`: one main block per `Main`, in order (the tolerant
   * parser also collects fragments into them).
   */
  lemma {:induction false} ParsersAgreeOnMains(toks: seq<Token>, pos: nat, nodes: seq<Node>)
    requires pos <= |toks| && OnlyMainKeywords(toks)
    ensures MinimalLoop(toks, pos, nodes).Ok?
    ensures |ParseLoopCorrected(toks, pos, nodes)| == |MinimalLoop(toks, pos, nodes).value|
    ensures forall i :: |nodes| <= i < |ParseLoopCorrected(toks, pos, nodes)| ==> ParseLoopCorrected(toks, pos, nodes)[i].MainBlock?
    decreases |toks| - pos
  {
    MinimalMainsOnly(toks, pos, nodes);
    ParseMainsOnly(toks, pos, nodes);
  }

  lemma {:induction false} ParseMainsOnly(toks: seq<Token>, pos: nat, nodes: seq<Node>)
    requires pos <= |toks| && OnlyMainKeywords(toks)
    ensures |ParseLoopCorrected(toks, pos, nodes)| == |nodes| + MainCount(toks, pos)
    ensures forall i :: |nodes| <= i < |ParseLoopCorrected(toks, pos, nodes)| ==> ParseLoopCorrected(toks, pos, nodes)[i].MainBlock?
    decreases |toks| - pos
  {
    if pos < |toks| {
      if IsKeyword(toks[pos], "Main") {
        var (n, p) := ParseMainCorrected(toks, pos + 1);
        MainCountSkip(toks, pos + 1, p);
        ParseMainsOnly(toks, p, nodes + [n]);
      } else {
        ParseMainsOnly(toks, pos + 1, nodes);
      }
    }
  }

  /** A main block ends at the next `Main` here, so the tokens it takes hold none. */
  lemma {:induction false} MainCountSkip(toks: seq<Token>, lo: nat, hi: nat)
    requires lo <= hi <= |toks| && forall k :: lo <= k < hi ==> !TopLevel(toks[k])
    ensures MainCount(toks, lo) == MainCount(toks, hi)
    decreases hi - lo
  {
    if lo < hi {
      MainCountSkip(toks, lo + 1, hi);
    }
  }
}
