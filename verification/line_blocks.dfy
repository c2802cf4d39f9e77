/**
 * What nasm_embed.py and html_embed.py share: line endings normalised and
 * lines numbered from 1, the `--<name>-start` and `--<name>-end` marker
 * lines, the `key=value` and flag options of a start marker, and the
 * line-by-line marker pass that collects the lines between the markers.
 */
module LineBlocks {
  import opened Common

  // ---------------------------------------------------------------------
  // Lines

  /** `s.replace('\r\n', '\n')`, scanning left to right. */
  function ReplaceCrLf(s: string): (r: string)
    ensures |r| <= |s|
    ensures '\r' !in s ==> r == s
  {
    if s == [] then []
    else if s[0] == '\r' && |s| > 1 && s[1] == '\n' then "\n" + ReplaceCrLf(s[2..])
    else [s[0]] + ReplaceCrLf(s[1..])
  }

  /** `s.replace('\r', '\n')`. */
  function ReplaceCr(s: string): (r: string)
    ensures |r| == |s| && '\r' !in r
    ensures forall i :: 0 <= i < |s| && s[i] != '\r' ==> r[i] == s[i]
  {
    if s == [] then [] else [if s[0] == '\r' then '\n' else s[0]] + ReplaceCr(s[1..])
  }

  /** Both line-ending replacements, in the order the extractors apply them. */
  function Normalize(code: string): (r: string)
    ensures '\r' !in r
  {
    ReplaceCr(ReplaceCrLf(code))
  }

  /** `s.split('\n')`: the pieces between newlines, in order. */
  function SplitLines(s: string): (r: seq<string>)
    ensures |r| >= 1
    ensures forall i :: 0 <= i < |r| ==> '\n' !in r[i]
    decreases |s|
  {
    match Find(s, '\n')
    case None => [s]
    case Some(k) => [s[..k]] + SplitLines(s[k + 1..])
  }

  /** Splitting at the newlines and joining with newlines gives the text back. */
  lemma {:induction false} JoinSplit(s: string)
    ensures Join(SplitLines(s), "\n") == s
    decreases |s|
  {
    match Find(s, '\n')
    case None =>
    case Some(k) =>
      var rest := SplitLines(s[k + 1..]);
      assert SplitLines(s) == [s[..k]] + rest;
      JoinSplit(s[k + 1..]);
      JoinCons(s[..k], rest, "\n");
      assert s == s[..k] + "\n" + s[k + 1..];
  }

  /** Joining one more part in front puts it and the separator ahead of the rest. */
  lemma JoinCons(x: string, rest: seq<string>, sep: string)
    requires rest != []
    ensures Join([x] + rest, sep) == x + sep + Join(rest, sep)
  {
    assert ([x] + rest)[1..] == rest;
  }

  /** A character the text does not hold is in none of its lines. */
  lemma {:induction false} SplitKeepsOut(s: string, c: char)
    requires c !in s
    ensures forall i :: 0 <= i < |SplitLines(s)| ==> c !in SplitLines(s)[i]
    decreases |s|
  {
    match Find(s, '\n')
    case None =>
    case Some(k) =>
      assert s == s[..k] + "\n" + s[k + 1..];
      SplitKeepsOut(s[k + 1..], c);
  }

  /** The numbered lines of the source: line `n` is `Lines(code)[n - 1]`. */
  function Lines(code: string): (r: seq<string>)
    ensures |r| >= 1
  {
    SplitLines(Normalize(code))
  }

  /** No line keeps a carriage return or a newline, and the lines join back to the normalised text. */
  lemma LinesClean(code: string)
    ensures forall i :: 0 <= i < |Lines(code)| ==> '\r' !in Lines(code)[i] && '\n' !in Lines(code)[i]
    ensures Join(Lines(code), "\n") == Normalize(code)
  {
    SplitKeepsOut(Normalize(code), '\r');
    JoinSplit(Normalize(code));
  }

  // ---------------------------------------------------------------------
  // Marker lines

  /** The first index at or after `i` that is not whitespace: where `\s*` stops. */
  function SkipSpaces(s: string, i: nat): (j: nat)
    requires i <= |s|
    ensures i <= j <= |s| && (j < |s| ==> !IsSpace(s[j]))
    ensures forall k :: i <= k < j ==> IsSpace(s[k])
    decreases |s| - i
  {
    if i < |s| && IsSpace(s[i]) then SkipSpaces(s, i + 1) else i
  }

  /**
   * Where `--\s*<word>` matches at `p`, if it does: the position after
   * `word`. The `\s*` cannot give anything back, since `word` starts with a
   * letter.
   */
  function HeadAt(word: string, line: string, p: nat): (r: Option<nat>)
    requires p <= |line|
    ensures r.Some? ==> p + 2 + |word| <= r.value <= |line| && line[r.value - |word|..(r.value)] == word
  {
    if p + 2 <= |line| && line[p] == '-' && line[p + 1] == '-' then
      var j := SkipSpaces(line, p + 2);
      if j + |word| <= |line| && line[j..j + |word|] == word then Some(j + |word|) else None
    else None
  }

  /** The whole pattern at `p`: the head, and for an end marker the `\b` after it. */
  predicate MatchAt(word: string, boundary: bool, line: string, p: nat)
    requires p <= |line|
  {
    match HeadAt(word, line, p)
    case None => false
    case Some(e) => !boundary || e == |line| || !IsWordChar(line[e])
  }

  /** `re.search`: the leftmost position at or after `p` where the pattern matches. */
  function Search(word: string, boundary: bool, line: string, p: nat): (r: Option<nat>)
    requires p <= |line|
    ensures r.Some? ==>
      p <= r.value <= |line| && MatchAt(word, boundary, line, r.value)
      && forall q :: p <= q < r.value ==> !MatchAt(word, boundary, line, q)
    ensures r.None? ==> forall q :: p <= q <= |line| ==> !MatchAt(word, boundary, line, q)
    decreases |line| - p
  {
    if MatchAt(word, boundary, line, p) then Some(p)
    else if p == |line| then None
    else Search(word, boundary, line, p + 1)
  }

  /**
   * `--\s*<name>-start(?::|\s+)?(.*)$` searched in a line: group 1 of the
   * leftmost match, the text after one `:` or after the blanks that follow
   * the marker word.
   */
  function StartMatch(name: string, line: string): (r: Option<string>)
    ensures r.Some? <==> exists p :: 0 <= p <= |line| && MatchAt(name + "-start", false, line, p)
  {
    match Search(name + "-start", false, line, 0)
    case None => None
    case Some(p) =>
      var e := HeadAt(name + "-start", line, p).value;
      if e < |line| && line[e] == ':' then Some(line[e + 1..]) else Some(line[SkipSpaces(line, e)..])
  }

  /** `--\s*<name>-end\b` searched in a line. */
  predicate EndMatch(name: string, line: string) {
    Search(name + "-end", true, line, 0).Some?
  }

  /** A line that opens a block. */
  predicate IsStart(name: string, line: string) {
    StartMatch(name, line).Some?
  }

  /** A line that closes a block: it matches the end marker and not the start marker, which is tested first. */
  predicate Closes(name: string, line: string) {
    !IsStart(name, line) && EndMatch(name, line)
  }

  /** The options of a marker written `--<name>-start:` and then the options. */
  lemma ColonForm(name: string, opts: string)
    requires name != [] && IsAlpha(name[0])
    ensures StartMatch(name, "--" + name + "-start:" + opts) == Some(opts)
  {
    var line := "--" + name + "-start:" + opts;
    var w := name + "-start";
    assert line == "--" + w + ":" + opts;
    assert line[2..2 + |w|] == w;
    assert HeadAt(w, line, 0) == Some(2 + |w|);
    assert line[2 + |w| + 1..] == opts;
  }

  /** The options of a marker written `--<name>-start`, one blank, and options not starting with a blank. */
  lemma BlankForm(name: string, opts: string)
    requires name != [] && IsAlpha(name[0])
    requires opts == [] || !IsSpace(opts[0])
    ensures StartMatch(name, "--" + name + "-start " + opts) == Some(opts)
  {
    var line := "--" + name + "-start " + opts;
    var w := name + "-start";
    assert line == "--" + w + " " + opts;
    assert line[2..2 + |w|] == w;
    assert HeadAt(w, line, 0) == Some(2 + |w|);
    assert SkipSpaces(line, 3 + |w|) == 3 + |w|;
    assert line[3 + |w|..] == opts;
  }

  // ---------------------------------------------------------------------
  // Options of a start marker

  /** An option's value: `True` for a bare flag, or the text after `=`. */
  datatype MetaValue = Flag | Text(text: string)

  /** A Python dict of options: keys in first-insertion order, each once. */
  type Meta = seq<(string, MetaValue)>

  function Get(m: Meta, k: string): Option<MetaValue> {
    if m == [] then None else if m[0].0 == k then Some(m[0].1) else Get(m[1..], k)
  }

  function Keys(m: Meta): seq<string> {
    if m == [] then [] else [m[0].0] + Keys(m[1..])
  }

  /** `meta[k] = v`: an existing key keeps its place and takes the new value; a new key goes last. */
  function Put(m: Meta, k: string, v: MetaValue): (r: Meta)
    ensures Get(r, k) == Some(v)
    ensures forall k' :: k' != k ==> Get(r, k') == Get(m, k')
    ensures Keys(r) == if k in Keys(m) then Keys(m) else Keys(m) + [k]
  {
    if m == [] then [(k, v)]
    else if m[0].0 == k then [(k, v)] + m[1..]
    else [m[0]] + Put(m[1..], k, v)
  }

  /** `s.rstrip(c)` for one character. */
  function RStripChar(s: string, c: char): (r: string)
    ensures r <= s && (r == [] || r[|r| - 1] != c)
    ensures forall k :: |r| <= k < |s| ==> s[k] == c
  {
    if s != [] && s[|s| - 1] == c then RStripChar(s[..|s| - 1], c) else s
  }

  /** `s.lstrip(c)` for one character. */
  function LStripChar(s: string, c: char): (r: string)
    ensures |r| <= |s| && r == s[|s| - |r|..] && (r == [] || r[0] != c)
    ensures forall k :: 0 <= k < |s| - |r| ==> s[k] == c
  {
    if s != [] && s[0] == c then LStripChar(s[1..], c) else s
  }

  /** `s.strip(c)` for one character. */
  function StripChar(s: string, c: char): string {
    LStripChar(RStripChar(s, c), c)
  }

  /** The key a token sets: the text before its first `=`, or the whole token. */
  function TokenKey(tok: string): string {
    match Find(tok, '=')
    case None => tok
    case Some(i) => Strip(tok[..i])
  }

  /** The value a token sets; `unquote` also strips `"` from the ends, as the HTML version does. */
  function TokenValue(tok: string, unquote: bool): MetaValue {
    match Find(tok, '=')
    case None => Flag
    case Some(i) => Text(if unquote then StripChar(Strip(tok[i + 1..]), '"') else Strip(tok[i + 1..]))
  }

  /** The tokens set one after another into the dict. */
  function PutTokens(m: Meta, toks: seq<string>, unquote: bool): Meta
    decreases |toks|
  {
    if toks == [] then m else PutTokens(Put(m, TokenKey(toks[0]), TokenValue(toks[0], unquote)), toks[1..], unquote)
  }

  /** `_parse_meta(meta_str)`: the whitespace-separated tokens of the options, in order. */
  function ParseMeta(metaText: string, unquote: bool): Meta {
    if metaText == [] then [] else PutTokens([], SplitWS(Strip(metaText)), unquote)
  }

  /** The value the last token with key `k` sets, if any token has that key. */
  function LastFor(toks: seq<string>, k: string, unquote: bool): Option<MetaValue>
    decreases |toks|
  {
    if toks == [] then None
    else
      match LastFor(toks[1..], k, unquote)
      case Some(v) => Some(v)
      case None => if TokenKey(toks[0]) == k then Some(TokenValue(toks[0], unquote)) else None
  }

  /** A later token overwrites an earlier one with the same key; keys no token sets keep their value. */
  lemma {:induction false} PutTokensGet(m: Meta, toks: seq<string>, k: string, unquote: bool)
    ensures Get(PutTokens(m, toks, unquote), k) == match LastFor(toks, k, unquote) case Some(v) => Some(v) case None => Get(m, k)
    decreases |toks|
  {
    if toks != [] {
      PutTokensGet(Put(m, TokenKey(toks[0]), TokenValue(toks[0], unquote)), toks[1..], k, unquote);
    }
  }

  /** Each option of a marker is the value of the last token naming it. */
  lemma ParseMetaGet(metaText: string, k: string, unquote: bool)
    requires metaText != []
    ensures Get(ParseMeta(metaText, unquote), k) == LastFor(SplitWS(Strip(metaText)), k, unquote)
  {
    PutTokensGet([], SplitWS(Strip(metaText)), k, unquote);
  }

  /** Setting keys never repeats one. */
  lemma {:induction false} PutTokensDistinct(m: Meta, toks: seq<string>, unquote: bool)
    requires Distinct(Keys(m))
    ensures Distinct(Keys(PutTokens(m, toks, unquote)))
    decreases |toks|
  {
    if toks != [] {
      var k := TokenKey(toks[0]);
      var m' := Put(m, k, TokenValue(toks[0], unquote));
      if k !in Keys(m) {
        assert forall i :: 0 <= i < |Keys(m)| ==> (Keys(m) + [k])[i] == Keys(m)[i];
      }
      PutTokensDistinct(m', toks[1..], unquote);
    }
  }

  predicate Distinct(ks: seq<string>) {
    forall i, j :: 0 <= i < j < |ks| ==> ks[i] != ks[j]
  }

  // ---------------------------------------------------------------------
  // The marker pass

  /** How the loop treats a line: the start test comes first, then the end test. */
  datatype LineKind = Opens(meta: string) | Ends | Plain

  function Classify(name: string, line: string): (k: LineKind)
    ensures k.Opens? <==> IsStart(name, line)
    ensures k.Opens? ==> StartMatch(name, line) == Some(k.meta)
    ensures k == Ends <==> Closes(name, line)
  {
    match StartMatch(name, line)
    case Some(meta) => Opens(meta)
    case None => if EndMatch(name, line) then Ends else Plain
  }

  /** The kind of every line, in order. */
  function Classes(name: string, lines: seq<string>): (ks: seq<LineKind>)
    ensures |ks| == |lines| && forall i :: 0 <= i < |lines| ==> ks[i] == Classify(name, lines[i])
  {
    seq(|lines|, i requires 0 <= i < |lines| => Classify(name, lines[i]))
  }

  function NestedError(name: string, line: nat): string {
    "Nested --" + name + "-start at line " + NatToString(line)
  }

  function UnclosedError(name: string): string {
    "Unclosed --" + name + "-start: missing --" + name + "-end before end of file"
  }

  /**
   * A block found between markers: the start marker's option text, the
   * first and last line numbers of its content (the marker lines plus and
   * minus one), and the lines in between.
   */
  datatype Span = Span(meta: string, first: nat, last: nat, body: seq<string>)

  /** Outside any block, or inside one whose content starts on line `first`. */
  datatype State = Outside | Inside(meta: string, first: nat, body: seq<string>)

  /**
   * The loop over numbered lines, from index `i` (line `i + 1`), with `ks`
   * the kinds of the lines: a start line inside a block is an error, an end
   * line outside one is ignored, and running out of lines inside a block is
   * an error.
   */
  function MarkerPass(name: string, ks: seq<LineKind>, lines: seq<string>, i: nat, st: State, acc: seq<Span>)
    : Result<seq<Span>, string>
    requires |ks| == |lines| && i <= |lines|
    decreases |lines| - i
  {
    if i == |lines| then
      if st.Inside? then Err(UnclosedError(name)) else Ok(acc)
    else
      match ks[i]
      case Opens(meta) =>
        if st.Inside? then Err(NestedError(name, i + 1))
        else MarkerPass(name, ks, lines, i + 1, Inside(meta, i + 2, []), acc)
      case Ends =>
        if st.Outside? then MarkerPass(name, ks, lines, i + 1, st, acc)
        else MarkerPass(name, ks, lines, i + 1, Outside, acc + [Span(st.meta, st.first, i, st.body)])
      case Plain =>
        if st.Inside? then MarkerPass(name, ks, lines, i + 1, st.(body := st.body + [lines[i]]), acc)
        else MarkerPass(name, ks, lines, i + 1, st, acc)
  }

  /** The blocks of a whole text's lines. */
  function FindSpans(name: string, lines: seq<string>): Result<seq<Span>, string> {
    MarkerPass(name, Classes(name, lines), lines, 0, Outside, [])
  }

  // ---------------------------------------------------------------------
  // When the pass fails

  /** The start line at index `k` has a closing line after it before any other start line. */
  predicate ClosedAfter(ks: seq<LineKind>, k: nat) {
    exists j :: k < j < |ks| && ks[j] == Ends && NoStartBetween(ks, k, j)
  }

  predicate NoStartBetween(ks: seq<LineKind>, k: nat, j: nat)
    requires j <= |ks|
  {
    forall m :: k < m < j ==> !ks[m].Opens?
  }

  /** Every start line from index `i` on is closed before the next start line. */
  predicate AllClosed(ks: seq<LineKind>, i: nat) {
    forall k :: i <= k < |ks| && ks[k].Opens? ==> ClosedAfter(ks, k)
  }

  /** Outside a block, the pass succeeds exactly when every later start line is closed. */
  lemma {:induction false} OutsideOk(name: string, ks: seq<LineKind>, lines: seq<string>, i: nat, acc: seq<Span>)
    requires |ks| == |lines| && i <= |lines|
    ensures MarkerPass(name, ks, lines, i, Outside, acc).Ok? <==> AllClosed(ks, i)
    decreases |lines| - i, 0
  {
    if i < |lines| {
      AllClosedStep(ks, i);
      match ks[i]
      case Opens(meta) =>
        InsideOk(name, ks, lines, i + 1, i, Inside(meta, i + 2, []), acc);
      case Ends =>
        OutsideOk(name, ks, lines, i + 1, acc);
      case Plain =>
        OutsideOk(name, ks, lines, i + 1, acc);
    }
  }

  /**
   * Inside the block opened at index `s`, with no marker line since, the
   * pass succeeds exactly when that block is closed and so is every later
   * start line.
   */
  lemma {:induction false} InsideOk(name: string, ks: seq<LineKind>, lines: seq<string>, i: nat, s: nat, st: State, acc: seq<Span>)
    requires |ks| == |lines| && s < i <= |lines| && st.Inside? && ks[s].Opens?
    requires forall m :: s < m < i ==> ks[m] == Plain
    ensures MarkerPass(name, ks, lines, i, st, acc).Ok? <==> ClosedAfter(ks, s) && AllClosed(ks, i)
    decreases |lines| - i, 1
  {
    if i == |lines| {
      NotClosedYet(ks, i, s);
    } else {
      AllClosedStep(ks, i);
      match ks[i]
      case Opens(_) =>
        NotClosedYet(ks, i, s);
      case Ends =>
        assert NoStartBetween(ks, s, i);
        OutsideOk(name, ks, lines, i + 1, acc + [Span(st.meta, st.first, i, st.body)]);
      case Plain =>
        InsideOk(name, ks, lines, i + 1, s, st.(body := st.body + [lines[i]]), acc);
    }
  }

  /** From index `i` on, the start lines to close are that of index `i`, if it is one, and those after it. */
  lemma AllClosedStep(ks: seq<LineKind>, i: nat)
    requires i < |ks|
    ensures AllClosed(ks, i) <==> (ks[i].Opens? ==> ClosedAfter(ks, i)) && AllClosed(ks, i + 1)
  {
  }

  /**
   * A block opened at `s` with only plain lines up to `i` is not closed when
   * the lines run out at `i` or line `i` opens another block.
   */
  lemma NotClosedYet(ks: seq<LineKind>, i: nat, s: nat)
    requires s < i <= |ks|
    requires forall m :: s < m < i ==> ks[m] == Plain
    requires i == |ks| || ks[i].Opens?
    ensures !ClosedAfter(ks, s)
  {
    forall j | s < j < |ks| && ks[j] == Ends
      ensures !NoStartBetween(ks, s, j)
    {
      assert i < j && ks[i].Opens?;
    }
  }

  /** The pass over a whole text fails exactly when some start line is not closed before the next one. */
  lemma SpansOkIff(name: string, lines: seq<string>)
    ensures FindSpans(name, lines).Ok? <==> AllClosed(Classes(name, lines), 0)
  {
    OutsideOk(name, Classes(name, lines), lines, 0, []);
  }

  /** A failing pass reports a nested start line or an unclosed block. */
  lemma {:induction false} PassErrors(name: string, ks: seq<LineKind>, lines: seq<string>, i: nat, st: State, acc: seq<Span>)
    requires |ks| == |lines| && i <= |lines|
    ensures var r := MarkerPass(name, ks, lines, i, st, acc);
      r.Err? ==>
        r.error == UnclosedError(name)
        || exists k :: i <= k < |lines| && ks[k].Opens? && r.error == NestedError(name, k + 1)
    decreases |lines| - i
  {
    if i < |lines| {
      match ks[i]
      case Opens(meta) =>
        if st.Outside? {
          PassErrors(name, ks, lines, i + 1, Inside(meta, i + 2, []), acc);
        }
      case Ends =>
        PassErrors(name, ks, lines, i + 1, if st.Outside? then st else Outside,
          if st.Outside? then acc else acc + [Span(st.meta, st.first, i, st.body)]);
      case Plain =>
        PassErrors(name, ks, lines, i + 1, if st.Inside? then st.(body := st.body + [lines[i]]) else st, acc);
    }
  }

  // ---------------------------------------------------------------------
  // What the pass finds

  /**
   * A block sits where its markers are: the start line just before its
   * content gives its options, the line just after closes it, its content is
   * exactly the lines in between, and those are all plain lines.
   */
  predicate Placed(ks: seq<LineKind>, lines: seq<string>, b: Span)
    requires |ks| == |lines|
  {
    2 <= b.first <= b.last + 1 && b.last < |lines|
    && ks[b.first - 2] == Opens(b.meta) && ks[b.last] == Ends
    && b.body == lines[b.first - 1..b.last]
    && forall m :: b.first - 1 <= m < b.last ==> ks[m] == Plain
  }

  /** Blocks in source order, each one's closing line before the next one's start line. */
  predicate Ordered(bs: seq<Span>) {
    forall i :: 0 <= i < |bs| - 1 ==> bs[i].last < bs[i + 1].first - 2
  }

  predicate AllPlaced(ks: seq<LineKind>, lines: seq<string>, bs: seq<Span>)
    requires |ks| == |lines|
  {
    forall i :: 0 <= i < |bs| ==> Placed(ks, lines, bs[i])
  }

  /** What holds of the found blocks and the open one at index `i`. */
  predicate PassInv(ks: seq<LineKind>, lines: seq<string>, i: nat, st: State, acc: seq<Span>) {
    |ks| == |lines| && i <= |lines| && AllPlaced(ks, lines, acc) && Ordered(acc)
    && match st
       case Outside => acc == [] || acc[|acc| - 1].last < i
       case Inside(meta, first, body) =>
         2 <= first <= i + 1 && ks[first - 2] == Opens(meta)
         && body == lines[first - 1..i]
         && (forall m :: first - 1 <= m < i ==> ks[m] == Plain)
         && (acc == [] || acc[|acc| - 1].last < first - 2)
  }

  /** The blocks the pass returns are placed at their markers and in order, after those already found. */
  lemma {:induction false} PassPlaced(name: string, ks: seq<LineKind>, lines: seq<string>, i: nat, st: State, acc: seq<Span>)
    requires PassInv(ks, lines, i, st, acc)
    ensures var r := MarkerPass(name, ks, lines, i, st, acc);
      r.Ok? ==> AllPlaced(ks, lines, r.value) && Ordered(r.value) && acc <= r.value
    decreases |lines| - i
  {
    if i < |lines| {
      match ks[i]
      case Opens(meta) =>
        if st.Outside? {
          OpenStep(ks, lines, i, meta, acc);
          PassPlaced(name, ks, lines, i + 1, Inside(meta, i + 2, []), acc);
        }
      case Ends =>
        if st.Inside? {
          var b := Span(st.meta, st.first, i, st.body);
          CloseStep(ks, lines, i, st, acc);
          PassPlaced(name, ks, lines, i + 1, Outside, acc + [b]);
          PrefixTrans(acc, acc + [b], MarkerPass(name, ks, lines, i + 1, Outside, acc + [b]));
        } else {
          PassPlaced(name, ks, lines, i + 1, st, acc);
        }
      case Plain =>
        if st.Inside? {
          BodyStep(ks, lines, i, st, acc);
          PassPlaced(name, ks, lines, i + 1, st.(body := st.body + [lines[i]]), acc);
        } else {
          PassPlaced(name, ks, lines, i + 1, st, acc);
        }
    }
  }

  lemma PrefixTrans(a: seq<Span>, b: seq<Span>, r: Result<seq<Span>, string>)
    requires a <= b && (r.Ok? ==> b <= r.value)
    ensures r.Ok? ==> a <= r.value
  {
  }

  /** A start line outside a block opens one. */
  lemma OpenStep(ks: seq<LineKind>, lines: seq<string>, i: nat, meta: string, acc: seq<Span>)
    requires PassInv(ks, lines, i, Outside, acc) && i < |lines| && ks[i] == Opens(meta)
    ensures PassInv(ks, lines, i + 1, Inside(meta, i + 2, []), acc)
  {
  }

  /** Closing the open block at a closing line keeps the invariant. */
  lemma CloseStep(ks: seq<LineKind>, lines: seq<string>, i: nat, st: State, acc: seq<Span>)
    requires PassInv(ks, lines, i, st, acc) && i < |lines| && st.Inside? && ks[i] == Ends
    ensures PassInv(ks, lines, i + 1, Outside, acc + [Span(st.meta, st.first, i, st.body)])
  {
    var b := Span(st.meta, st.first, i, st.body);
    assert Placed(ks, lines, b);
    AppendPlaced(ks, lines, acc, b);
    AppendOrdered(acc, b);
  }

  lemma AppendPlaced(ks: seq<LineKind>, lines: seq<string>, acc: seq<Span>, b: Span)
    requires |ks| == |lines| && AllPlaced(ks, lines, acc) && Placed(ks, lines, b)
    ensures AllPlaced(ks, lines, acc + [b])
  {
    assert forall k :: 0 <= k < |acc| ==> (acc + [b])[k] == acc[k];
  }

  lemma AppendOrdered(acc: seq<Span>, b: Span)
    requires Ordered(acc) && (acc == [] || acc[|acc| - 1].last < b.first - 2)
    ensures Ordered(acc + [b])
  {
    assert forall k :: 0 <= k < |acc| ==> (acc + [b])[k] == acc[k];
  }

  /** A plain line inside a block joins its content. */
  lemma BodyStep(ks: seq<LineKind>, lines: seq<string>, i: nat, st: State, acc: seq<Span>)
    requires PassInv(ks, lines, i, st, acc) && i < |lines| && st.Inside? && ks[i] == Plain
    ensures PassInv(ks, lines, i + 1, st.(body := st.body + [lines[i]]), acc)
  {
    assert st.body + [lines[i]] == lines[st.first - 1..i + 1];
  }

  /** The first lines of the blocks' contents. */
  function Firsts(bs: seq<Span>): (r: seq<nat>)
    ensures |r| == |bs| && forall i :: 0 <= i < |bs| ==> r[i] == bs[i].first
  {
    if bs == [] then [] else [bs[0].first] + Firsts(bs[1..])
  }

  /** Every start line from index `i` on opens one of the blocks the pass returns. */
  lemma {:induction false} PassComplete(name: string, ks: seq<LineKind>, lines: seq<string>, i: nat, st: State, acc: seq<Span>)
    requires |ks| == |lines| && i <= |lines|
    ensures var r := MarkerPass(name, ks, lines, i, st, acc);
      r.Ok? ==>
        acc <= r.value && forall k :: i <= k < |lines| && ks[k].Opens? ==> k + 2 in Firsts(r.value)
    decreases |lines| - i
  {
    if i < |lines| {
      match ks[i]
      case Opens(meta) =>
        if st.Outside? {
          var st' := Inside(meta, i + 2, []);
          PassComplete(name, ks, lines, i + 1, st', acc);
          OpenedAppears(name, ks, lines, i + 1, st', acc);
        }
      case Ends =>
        var acc' := if st.Outside? then acc else acc + [Span(st.meta, st.first, i, st.body)];
        PassComplete(name, ks, lines, i + 1, Outside, acc');
        PrefixTrans(acc, acc', MarkerPass(name, ks, lines, i + 1, Outside, acc'));
      case Plain =>
        PassComplete(name, ks, lines, i + 1, if st.Inside? then st.(body := st.body + [lines[i]]) else st, acc);
    }
  }

  /** The block open at index `i`, once the pass succeeds, is among the blocks it returns. */
  lemma {:induction false} OpenedAppears(name: string, ks: seq<LineKind>, lines: seq<string>, i: nat, st: State, acc: seq<Span>)
    requires |ks| == |lines| && i <= |lines| && st.Inside?
    ensures var r := MarkerPass(name, ks, lines, i, st, acc);
      r.Ok? ==> st.first in Firsts(r.value)
    decreases |lines| - i
  {
    if i < |lines| {
      match ks[i]
      case Opens(_) =>
      case Ends =>
        var acc' := acc + [Span(st.meta, st.first, i, st.body)];
        PassComplete(name, ks, lines, i + 1, Outside, acc');
        PrefixFirsts(acc', MarkerPass(name, ks, lines, i + 1, Outside, acc'));
      case Plain =>
        OpenedAppears(name, ks, lines, i + 1, st.(body := st.body + [lines[i]]), acc);
    }
  }

  /** The last block of a prefix of the result is in the result. */
  lemma PrefixFirsts(acc: seq<Span>, r: Result<seq<Span>, string>)
    requires acc != [] && (r.Ok? ==> acc <= r.value)
    ensures r.Ok? ==> acc[|acc| - 1].first in Firsts(r.value)
  {
    if r.Ok? {
      assert r.value[|acc| - 1] == acc[|acc| - 1];
    }
  }

  /** Over a whole text: the blocks are placed, ordered, and one opens at every start line. */
  lemma SpansFound(name: string, lines: seq<string>)
    ensures var ks := Classes(name, lines);
      var r := FindSpans(name, lines);
      r.Ok? ==>
        AllPlaced(ks, lines, r.value) && Ordered(r.value)
        && forall k :: 0 <= k < |lines| && ks[k].Opens? ==> k + 2 in Firsts(r.value)
  {
    var ks := Classes(name, lines);
    PassPlaced(name, ks, lines, 0, Outside, []);
    PassComplete(name, ks, lines, 0, Outside, []);
  }

  /** Over a whole text: a failure is an unclosed block or a start line inside a block. */
  lemma SpanErrors(name: string, lines: seq<string>)
    ensures var r := FindSpans(name, lines);
      r.Err? ==>
        r.error == UnclosedError(name)
        || exists k :: 0 <= k < |lines| && IsStart(name, lines[k]) && r.error == NestedError(name, k + 1)
  {
    PassErrors(name, Classes(name, lines), lines, 0, Outside, []);
  }
}
