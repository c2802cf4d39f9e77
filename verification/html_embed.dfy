/**
 * html_embed.py: the inline HTML blocks of a Trion source. A first pass
 * collects the blocks between `--html-start [options]` and `--html-end`
 * lines, exactly as the NASM extractor does but with option values
 * unquoted; an unclosed or nested marker block is an error. A second pass
 * scans the whole text for `<html ...>...</html>` elements, in any letter
 * case, and keeps each one whose line range overlaps no block kept so far.
 *
 * `textwrap.dedent` is a parameter: the model says which text is dedented,
 * not how the common indentation is computed.
 */
module HtmlEmbed {
  import opened Common
  import opened LineBlocks
  import opened TextScan

  const Name := "html"

  datatype Kind = Marker | Tag

  /** One extracted block: `raw`, `content`, `start_line`, `end_line`, `meta` and `type`. */
  datatype HtmlBlock = HtmlBlock(raw: string, content: string, startLine: int, endLine: int, meta: Meta, kind: Kind)

  // ---------------------------------------------------------------------
  // Marker blocks

  /**
   * The block of a span: its raw text runs from the start marker line to
   * the end marker line, and its content is the lines between, dedented.
   */
  function MarkerBlock(lines: seq<string>, s: Span, dedent: string -> string): HtmlBlock
    requires 2 <= s.first <= s.last + 1 && s.last < |lines|
  {
    HtmlBlock(Join(lines[s.first - 2..s.last + 1], "\n"), RStripChar(dedent(Join(s.body, "\n")), '\n'),
      s.first, s.last, ParseMeta(s.meta, true), Marker)
  }

  function MarkerBlocks(lines: seq<string>, spans: seq<Span>, dedent: string -> string): (bs: seq<HtmlBlock>)
    requires forall i :: 0 <= i < |spans| ==> 2 <= spans[i].first <= spans[i].last + 1 && spans[i].last < |lines|
    ensures |bs| == |spans| && forall i :: 0 <= i < |spans| ==> bs[i] == MarkerBlock(lines, spans[i], dedent)
  {
    seq(|spans|, i requires 0 <= i < |spans| => MarkerBlock(lines, spans[i], dedent))
  }

  // ---------------------------------------------------------------------
  // Tag attributes

  /** The characters that may start an attribute name, and those that may follow. */
  predicate NameStart(c: char) { IsAlpha(c) || c == '_' || c == ':' }

  predicate NameChar(c: char) { NameStart(c) || IsDigit(c) || c == '-' || c == '.' }

  /** The end of the run of name characters from `i`. */
  function NameEnd(s: string, i: nat): (j: nat)
    requires i <= |s|
    ensures i <= j <= |s| && (j < |s| ==> !NameChar(s[j]))
    ensures forall k :: i <= k < j ==> NameChar(s[k])
    decreases |s| - i
  {
    if i < |s| && NameChar(s[i]) then NameEnd(s, i + 1) else i
  }

  /** Where the lazy `"(.*?)"` closes: the first `"` from `i`, unless a newline comes first. */
  function QuoteEnd(s: string, i: nat): (r: Option<nat>)
    requires i <= |s|
    ensures r.Some? ==> i <= r.value < |s| && s[r.value] == '"'
    ensures r.Some? ==> forall k :: i <= k < r.value ==> s[k] != '"' && s[k] != '\n'
    ensures r.None? ==> forall k :: i <= k < |s| && s[k] == '"' ==> '\n' in s[i..k]
    decreases |s| - i
  {
    if i == |s| then None
    else if s[i] == '"' then Some(i)
    else if s[i] == '\n' then None
    else
      var r := QuoteEnd(s, i + 1);
      assert r.None? ==> forall k :: i + 1 <= k < |s| && s[k] == '"' ==> s[i + 1..k] <= s[i..k][1..];
      r
  }

  /** A character an unquoted value may hold: `[^\s">]`. */
  predicate BareChar(c: char) { !IsSpace(c) && c != '"' && c != '>' }

  /** The end of the run of unquoted-value characters from `i`. */
  function BareEnd(s: string, i: nat): (j: nat)
    requires i <= |s|
    ensures i <= j <= |s| && (j < |s| ==> !BareChar(s[j]))
    ensures forall k :: i <= k < j ==> BareChar(s[k])
    decreases |s| - i
  {
    if i < |s| && BareChar(s[i]) then BareEnd(s, i + 1) else i
  }

  /**
   * An attribute matched at the start of `s`: its name, its value and the
   * length of the match. The quoted form is tried first; a value starting
   * with `"` that the quoted form cannot close matches neither form.
   */
  function AttrAt(s: string): (r: Option<(string, string, nat)>)
    ensures r.Some? ==> 0 < r.value.2 <= |s|
    ensures r.Some? ==> r.value.0 != [] && NameStart(r.value.0[0]) && forall k :: 0 <= k < |r.value.0| ==> NameChar(r.value.0[k])
  {
    if s != [] && NameStart(s[0]) then
      var n := NameEnd(s, 1);
      var a := SkipSpaces(s, n);
      if a < |s| && s[a] == '=' then
        var v := SkipSpaces(s, a + 1);
        if v < |s| && s[v] == '"' then
          match QuoteEnd(s, v + 1)
          case Some(c) => Some((s[..n], s[v + 1..c], c + 1))
          case None => None
        else
          var w := BareEnd(s, v);
          if w > v then Some((s[..n], s[v..w], w)) else None
      else None
    else None
  }

  /** `finditer`: each match is stored, and the scan goes on after it; elsewhere it moves one character on. */
  function AttrScan(s: string, m: Meta): Meta
    decreases |s|
  {
    if s == [] then m
    else
      match AttrAt(s)
      case Some((k, v, e)) => AttrScan(s[e..], Put(m, k, Text(v)))
      case None => AttrScan(s[1..], m)
  }

  /** `_parse_tag_attrs(attr_text)`. */
  function ParseTagAttrs(attrText: string): Meta {
    if attrText == [] then [] else AttrScan(attrText, [])
  }

  /** Options that all come from `name=value` attributes: no bare flags, every key a name. */
  ghost predicate NamedTexts(m: Meta) {
    forall k :: Get(m, k).Some? ==> Get(m, k).value.Text? && k != [] && NameStart(k[0])
  }

  lemma {:induction false} AttrScanNamedTexts(s: string, m: Meta)
    requires NamedTexts(m)
    ensures NamedTexts(AttrScan(s, m))
    decreases |s|
  {
    if s != [] {
      match AttrAt(s)
      case Some((k, v, e)) => AttrScanNamedTexts(s[e..], Put(m, k, Text(v)));
      case None => AttrScanNamedTexts(s[1..], m);
    }
  }

  /**
   * Unlike a marker's options, a tag's attributes are never flags: every
   * option `_parse_tag_attrs` keeps has a text value and a key that starts
   * like an attribute name.
   */
  lemma TagAttrsAreNamedTexts(attrText: string)
    ensures NamedTexts(ParseTagAttrs(attrText))
  {
    if attrText != [] {
      AttrScanNamedTexts(attrText, []);
    }
  }

  /** One step of `finditer` past an unquoted `k=v` match of one character each. */
  lemma BareScanStep(s: string, k: char, v: char, rest: string, m: Meta)
    requires NameStart(k) && BareChar(v) && (rest == [] || IsSpace(rest[0]))
    requires s == [k, '=', v] + rest
    ensures AttrScan(s, m) == AttrScan(rest, Put(m, [k], Text([v])))
  {
    assert !NameChar(s[1]) && NameEnd(s, 1) == 1;
    assert !IsSpace(s[1]) && !IsSpace(s[2]);
    assert SkipSpaces(s, 1) == 1 && SkipSpaces(s, 2) == 2;
    assert BareEnd(s, 3) == 3 && BareEnd(s, 2) == 3;
    assert s[..1] == [k] && s[2..3] == [v] && s[3..] == rest;
  }

  /**
   * A quoted value is taken whole, blanks and `>` included, up to the next
   * `"` on the same line.
   */
  lemma QuotedAttrKeepsText(k: char, v: string)
    requires NameStart(k) && '"' !in v && '\n' !in v
    ensures ParseTagAttrs([k, '=', '"'] + v + ['"']) == [([k], Text(v))]
  {
    var s := [k, '=', '"'] + v + ['"'];
    assert !NameChar(s[1]) && NameEnd(s, 1) == 1;
    assert SkipSpaces(s, 1) == 1 && SkipSpaces(s, 2) == 2;
    assert s[3 + |v|] == '"' && s[3..3 + |v|] == v;
    assert s[..1] == [k] && s[3..3 + |v|] == v && s[4 + |v|..] == [];
    assert AttrAt(s) == Some(([k], v, 4 + |v|));
    assert AttrScan(s, []) == AttrScan([], Put([], [k], Text(v)));
  }

  /** A name given twice keeps its place and takes the later value. */
  lemma RepeatedAttrKeepsLast(k: char, v1: char, v2: char)
    requires NameStart(k) && BareChar(v1) && BareChar(v2)
    ensures ParseTagAttrs([k, '=', v1, ' ', k, '=', v2]) == [([k], Text([v2]))]
  {
    var m1 := [([k], Text([v1]))];
    BareScanStep([k, '=', v1, ' ', k, '=', v2], k, v1, [' ', k, '=', v2], []);
    assert !NameStart(' ') && [' ', k, '=', v2][1..] == [k, '=', v2];
    BareScanStep([k, '=', v2], k, v2, [], m1);
  }

  // ---------------------------------------------------------------------
  // Tag blocks

  /** `<html` at `p`, in any letter case. */
  predicate OpenWordAt(text: string, p: nat) {
    p + 5 <= |text|
    && text[p] == '<' && LowerChar(text[p + 1]) == 'h' && LowerChar(text[p + 2]) == 't'
    && LowerChar(text[p + 3]) == 'm' && LowerChar(text[p + 4]) == 'l'
  }

  /** `</html>` at `p`, in any letter case. */
  predicate CloseTagAt(text: string, p: nat) {
    p + 7 <= |text|
    && text[p] == '<' && text[p + 1] == '/' && LowerChar(text[p + 2]) == 'h' && LowerChar(text[p + 3]) == 't'
    && LowerChar(text[p + 4]) == 'm' && LowerChar(text[p + 5]) == 'l' && text[p + 6] == '>'
  }

  /** Where `<html\b([^>]*)>` matches at `p`: the position of its `>`. */
  function OpenTagAt(text: string, p: nat): (r: Option<nat>)
    ensures r.Some? ==> p + 5 <= r.value < |text| && text[r.value] == '>'
    ensures r.Some? ==> forall k :: p + 5 <= k < r.value ==> text[k] != '>'
  {
    if OpenWordAt(text, p) && (p + 5 == |text| || !IsWordChar(text[p + 5])) then GtSearch(text, p + 5)
    else None
  }

  /** The first `>` at or after `i`: where `[^>]*>` stops. */
  function GtSearch(text: string, i: nat): (r: Option<nat>)
    requires i <= |text|
    ensures r.Some? ==> i <= r.value < |text| && text[r.value] == '>'
    ensures r.Some? ==> forall k :: i <= k < r.value ==> text[k] != '>'
    ensures r.None? ==> forall k :: i <= k < |text| ==> text[k] != '>'
    decreases |text| - i
  {
    if i == |text| then None else if text[i] == '>' then Some(i) else GtSearch(text, i + 1)
  }

  /** The leftmost opening tag at or after `pos`: where it starts and where its `>` is. */
  function OpenSearch(text: string, pos: nat): (r: Option<(nat, nat)>)
    requires pos <= |text|
    ensures r.Some? ==>
      pos <= r.value.0 && OpenTagAt(text, r.value.0) == Some(r.value.1)
      && forall q :: pos <= q < r.value.0 ==> OpenTagAt(text, q).None?
    ensures r.None? ==> forall q :: pos <= q <= |text| ==> OpenTagAt(text, q).None?
    decreases |text| - pos
  {
    match OpenTagAt(text, pos)
    case Some(g) => Some((pos, g))
    case None => if pos == |text| then None else OpenSearch(text, pos + 1)
  }

  /** The leftmost `</html>`, in any case, at or after `pos`. */
  function CloseSearch(text: string, pos: nat): (r: Option<nat>)
    requires pos <= |text|
    ensures r.Some? ==>
      pos <= r.value && CloseTagAt(text, r.value)
      && forall q :: pos <= q < r.value ==> !CloseTagAt(text, q)
    ensures r.None? ==> forall q :: pos <= q <= |text| ==> !CloseTagAt(text, q)
    decreases |text| - pos
  {
    if CloseTagAt(text, pos) then Some(pos)
    else if pos == |text| then None
    else CloseSearch(text, pos + 1)
  }

  /**
   * Where an element is: its opening tag's `<`, that tag's `>` and its
   * closing tag's `<`, with the line of that `>` and the line of the
   * closing tag.
   */
  datatype Element = Element(open: nat, gt: nat, close: nat, first: int, last: int)

  /** The positions of an element lie in order inside the text. */
  predicate Fits(text: string, el: Element) {
    el.open + 5 <= el.gt < el.close && el.close + 7 <= |text|
  }

  /** An opening tag and the first closing tag after it. */
  predicate Spans(text: string, el: Element) {
    OpenTagAt(text, el.open) == Some(el.gt) && el.gt < el.close && CloseTagAt(text, el.close)
    && (forall x :: el.gt + 1 <= x < el.close ==> !CloseTagAt(text, x))
    && el.first == LineAt(text, el.gt + 1) && el.last == LineAt(text, el.close)
  }

  /**
   * The next element from `pos`: the leftmost opening tag, its `>`, and the
   * first closing tag after that; `None` when there is no opening tag or it
   * has no closing tag after it.
   */
  function NextElement(text: string, pos: nat): (r: Option<Element>)
    requires pos <= |text|
    ensures r.Some? ==> Spans(text, r.value) && Fits(text, r.value) && pos <= r.value.open
    ensures r.Some? ==> forall x :: pos <= x < r.value.open ==> OpenTagAt(text, x).None?
  {
    match OpenSearch(text, pos)
    case None => None
    case Some((p, g)) =>
      match CloseSearch(text, g + 1)
      case None => None
      case Some(q) => Some(Element(p, g, q, LineAt(text, g + 1), LineAt(text, q)))
  }

  /** A line range: first and last line. */
  type Range = (int, int)

  /** The source's overlap test of two line ranges. */
  predicate Overlap(a: Range, b: Range) {
    !(a.1 < b.0 || a.0 > b.1)
  }

  /** The range overlaps one of `used`. */
  predicate OverlapsAny(used: seq<Range>, r: Range) {
    exists i :: 0 <= i < |used| && Overlap(r, used[i])
  }

  /** The lines of an element: that of its opening tag's `>` and that of its closing tag. */
  function ElementLines(el: Element): Range {
    (el.first, el.last)
  }

  /**
   * The elements the scan meets from `pos`, in order: it stops at the first
   * opening tag without a closing tag after it and goes on after each
   * element's closing tag, whether or not the element is kept.
   */
  function Elements(text: string, pos: nat): (r: seq<Element>)
    requires pos <= |text|
    ensures forall i :: 0 <= i < |r| ==> Fits(text, r[i]) && pos <= r[i].open
    ensures forall i :: 0 <= i < |r| - 1 ==> r[i].close + 7 <= r[i + 1].open
    decreases |text| - pos
  {
    var n := NextElement(text, pos);
    if n.None? then [] else [n.value] + Elements(text, n.value.close + 7)
  }

  /** Each element the scan meets is an opening tag and the first closing tag after it. */
  lemma {:induction false} ElementsSpan(text: string, pos: nat, r: seq<Element>)
    requires pos <= |text| && r == Elements(text, pos)
    ensures forall i :: 0 <= i < |r| ==> Spans(text, r[i])
    decreases |text| - pos
  {
    var n := NextElement(text, pos);
    if n.Some? {
      var rest := Elements(text, n.value.close + 7);
      ElementsSpan(text, n.value.close + 7, rest);
      assert r == [n.value] + rest;
      forall i | 1 <= i < |r|
        ensures Spans(text, r[i])
      {
        assert r[i] == rest[i - 1];
      }
    }
  }

  /**
   * The elements kept, with `used` the line ranges of the blocks kept so
   * far: an element whose lines overlap a used range is skipped, and each
   * kept element's range becomes used.
   */
  function Keep(text: string, els: seq<Element>, used: seq<Range>): (r: seq<Element>)
    requires forall i :: 0 <= i < |els| ==> Fits(text, els[i])
    ensures forall i :: 0 <= i < |r| ==> r[i] in els
  {
    if els == [] then []
    else
      var lines := ElementLines(els[0]);
      if OverlapsAny(used, lines) then Keep(text, els[1..], used)
      else [els[0]] + Keep(text, els[1..], used + [lines])
  }

  /** The block of an element. */
  function TagBlock(text: string, el: Element, dedent: string -> string): HtmlBlock
    requires Fits(text, el)
  {
    var (p, g, q) := (el.open, el.gt, el.close);
    HtmlBlock(text[p..q + 7], RStripChar(dedent(text[g + 1..q]), '\n'), el.first, el.last,
      ParseTagAttrs(text[p + 5..g]), Tag)
  }

  function TagBlocks(text: string, els: seq<Element>, dedent: string -> string): (bs: seq<HtmlBlock>)
    requires forall i :: 0 <= i < |els| ==> Fits(text, els[i])
    ensures |bs| == |els| && forall i :: 0 <= i < |els| ==> bs[i] == TagBlock(text, els[i], dedent)
  {
    seq(|els|, i requires 0 <= i < |els| => TagBlock(text, els[i], dedent))
  }

  /** The line range of a block, as `used_ranges` holds it. */
  function RangeOf(b: HtmlBlock): Range {
    (b.startLine, b.endLine)
  }

  function Ranges(bs: seq<HtmlBlock>): (rs: seq<Range>)
    ensures |rs| == |bs| && forall i :: 0 <= i < |bs| ==> rs[i] == RangeOf(bs[i])
  {
    seq(|bs|, i requires 0 <= i < |bs| => RangeOf(bs[i]))
  }

  // ---------------------------------------------------------------------
  // The extractor

  /** `extract_html_blocks(code)`: the marker blocks, then the tag blocks, or the `ValueError` message. */
  function ExtractHtmlBlocks(code: string, dedent: string -> string): Result<seq<HtmlBlock>, string> {
    Extract(Lines(code), dedent)
  }

  /** The extraction over the numbered lines; the tag pass reads the lines joined again. */
  function Extract(lines: seq<string>, dedent: string -> string): Result<seq<HtmlBlock>, string> {
    var spans :- FindSpans(Name, lines);
    SpansFound(Name, lines);
    var markers := MarkerBlocks(lines, spans, dedent);
    var text := Join(lines, "\n");
    var els := Elements(text, 0);
    Ok(markers + TagBlocks(text, Keep(text, els, Ranges(markers)), dedent))
  }

  // ---------------------------------------------------------------------
  // Failures

  /** The extraction fails exactly when a marker block is left open or nested; elements never fail it. */
  lemma HtmlOkIff(code: string, dedent: string -> string)
    ensures ExtractHtmlBlocks(code, dedent).Ok? <==> AllClosed(Classes(Name, Lines(code)), 0)
  {
    SpansOkIff(Name, Lines(code));
  }

  /** The two error messages, the nested one naming a line that holds a start marker. */
  lemma HtmlErrors(code: string, dedent: string -> string)
    ensures var r := ExtractHtmlBlocks(code, dedent);
      var lines := Lines(code);
      r.Err? ==>
        r.error == UnclosedError(Name)
        || exists n :: 1 <= n <= |lines| && IsStart(Name, lines[n - 1]) && r.error == NestedError(Name, n)
  {
    LinesErrors(Lines(code), dedent);
  }

  lemma LinesErrors(lines: seq<string>, dedent: string -> string)
    ensures var r := Extract(lines, dedent);
      r.Err? ==>
        r.error == UnclosedError(Name)
        || exists n :: 1 <= n <= |lines| && IsStart(Name, lines[n - 1]) && r.error == NestedError(Name, n)
  {
    SpanErrors(Name, lines);
    var r := FindSpans(Name, lines);
    if r.Err? && r.error != UnclosedError(Name) {
      var k :| 0 <= k < |lines| && IsStart(Name, lines[k]) && r.error == NestedError(Name, k + 1);
      assert lines[k + 1 - 1] == lines[k];
    }
  }

  // ---------------------------------------------------------------------
  // What the tag pass finds

  /**
   * The raw text of an element whose opening tag's `>` is at `k`: it opens
   * with `<html` and a non-word character, the `>` at `k` is its first, and
   * it ends with the first `</html>` after that `>`.
   */
  predicate TagShape(raw: string, k: nat) {
    5 <= k && k + 8 <= |raw| && OpenWordAt(raw, 0) && !IsWordChar(raw[5])
    && raw[k] == '>' && (forall x :: 5 <= x < k ==> raw[x] != '>')
    && CloseTagAt(raw, |raw| - 7) && forall x :: k < x < |raw| - 7 ==> !CloseTagAt(raw, x)
  }

  /**
   * A tag block read back from its raw text, found at `p` in `text` with its
   * opening tag's `>` at `k` in the raw text: the options are the opening
   * tag's attributes, the content is the text between the tags dedented,
   * and the line numbers are those of the `>` and of the closing tag.
   */
  predicate TagIn(text: string, b: HtmlBlock, p: nat, k: nat, dedent: string -> string) {
    b.kind == Tag && TagShape(b.raw, k) && p + |b.raw| <= |text| && text[p..p + |b.raw|] == b.raw
    && b.meta == ParseTagAttrs(b.raw[5..k]) && b.content == RStripChar(dedent(b.raw[k + 1..|b.raw| - 7]), '\n')
    && b.startLine == LineAt(text, p + k + 1) && b.endLine == LineAt(text, p + |b.raw| - 7)
    && b.startLine <= b.endLine
  }

  ghost predicate TagFound(text: string, b: HtmlBlock, dedent: string -> string) {
    exists p: nat, k: nat :: TagIn(text, b, p, k, dedent)
  }

  /** The text from an opening tag through the first closing tag after it has the shape of an element. */
  lemma TagShapeOf(text: string, el: Element, raw: string)
    requires Spans(text, el) && raw == text[el.open..el.close + 7]
    ensures TagShape(raw, el.gt - el.open)
  {
    var (p, g, q) := (el.open, el.gt, el.close);
    var k := g - p;
    assert OpenWordAt(text, p) && !IsWordChar(text[p + 5]);
    assert GtSearch(text, p + 5) == Some(g);
    forall x | 0 <= x < |raw|
      ensures raw[x] == text[p + x]
    {
    }
    forall x | k < x < |raw| - 7
      ensures !CloseTagAt(raw, x)
    {
      assert !CloseTagAt(text, p + x);
    }
  }

  /** Slicing the raw text is slicing the text at the raw text's offset. */
  lemma SubSlice(text: string, p: nat, e: nat, raw: string, a: nat, b: nat)
    requires p <= e <= |text| && raw == text[p..e] && a <= b <= |raw|
    ensures raw[a..b] == text[p + a..p + b]
  {
    assert forall i :: 0 <= i < b - a ==> raw[a..b][i] == text[p + a..p + b][i];
  }

  /** The block made of an opening tag and the first closing tag after it reads back as such. */
  lemma TagBlockIn(text: string, el: Element, dedent: string -> string, b: HtmlBlock)
    requires Spans(text, el) && Fits(text, el) && b == TagBlock(text, el, dedent)
    ensures TagIn(text, b, el.open, el.gt - el.open, dedent)
    ensures RangeOf(b) == ElementLines(el)
  {
    SpanShape(text, el);
    TagFields(text, el, dedent, b);
    FieldsIn(text, el, dedent, b);
  }

  /** The raw text of an element has the shape of one, and its lines are in order. */
  lemma SpanShape(text: string, el: Element)
    requires Spans(text, el) && Fits(text, el)
    ensures TagShape(text[el.open..el.close + 7], el.gt - el.open)
    ensures el.first <= el.last
  {
    TagShapeOf(text, el, text[el.open..el.close + 7]);
    LineAtMono(text, el.gt + 1, el.close);
  }

  /** A block whose fields are the element's slices and lines reads back as that element. */
  lemma FieldsIn(text: string, el: Element, dedent: string -> string, b: HtmlBlock)
    requires Fits(text, el) && TagShape(text[el.open..el.close + 7], el.gt - el.open)
    requires b.raw == text[el.open..el.close + 7] && b.meta == ParseTagAttrs(text[el.open + 5..el.gt])
    requires b.content == RStripChar(dedent(text[el.gt + 1..el.close]), '\n')
    requires b.kind == Tag && b.startLine == el.first && b.endLine == el.last
    requires el.first == LineAt(text, el.gt + 1) && el.last == LineAt(text, el.close) && el.first <= el.last
    ensures TagIn(text, b, el.open, el.gt - el.open, dedent)
  {
    RawParts(text, el, b.raw, b.meta, b.content, dedent);
    assert el.open + (el.gt - el.open) + 1 == el.gt + 1 && el.open + |b.raw| - 7 == el.close;
  }

  /** The fields of a tag block, as slices of the whole text. */
  lemma TagFields(text: string, el: Element, dedent: string -> string, b: HtmlBlock)
    requires Fits(text, el) && b == TagBlock(text, el, dedent)
    ensures b.raw == text[el.open..el.close + 7]
    ensures b.meta == ParseTagAttrs(text[el.open + 5..el.gt])
    ensures b.content == RStripChar(dedent(text[el.gt + 1..el.close]), '\n')
    ensures b.kind == Tag && b.startLine == el.first && b.endLine == el.last
  {
  }

  /** Options and content read from the whole text are those read from the raw text of the element. */
  lemma RawParts(text: string, el: Element, raw: string, m: Meta, c: string, dedent: string -> string)
    requires Fits(text, el) && raw == text[el.open..el.close + 7]
    requires m == ParseTagAttrs(text[el.open + 5..el.gt]) && c == RStripChar(dedent(text[el.gt + 1..el.close]), '\n')
    ensures |raw| == el.close + 7 - el.open && text[el.open..el.open + |raw|] == raw
    ensures m == ParseTagAttrs(raw[5..el.gt - el.open]) && c == RStripChar(dedent(raw[el.gt - el.open + 1..|raw| - 7]), '\n')
  {
    TagSlices(text, el, raw);
  }

  /** The attribute text and the content of an element's raw text are the same slices of the whole text. */
  lemma TagSlices(text: string, el: Element, raw: string)
    requires Fits(text, el) && raw == text[el.open..el.close + 7]
    ensures |raw| == el.close + 7 - el.open && text[el.open..el.open + |raw|] == raw
    ensures raw[5..el.gt - el.open] == text[el.open + 5..el.gt] && raw[el.gt - el.open + 1..|raw| - 7] == text[el.gt + 1..el.close]
  {
    SubSlice(text, el.open, el.close + 7, raw, 5, el.gt - el.open);
    SubSlice(text, el.open, el.close + 7, raw, el.gt - el.open + 1, |raw| - 7);
  }

  /** The `j`th element of `r` overlaps no range of `used` and no element before it. */
  predicate FreshAt(text: string, used: seq<Range>, r: seq<Element>, j: nat)
    requires j < |r| && forall i :: 0 <= i < |r| ==> Fits(text, r[i])
  {
    !OverlapsAny(used, ElementLines(r[j]))
    && forall i :: 0 <= i < j ==> !Overlap(ElementLines(r[j]), ElementLines(r[i]))
  }

  /** The elements kept overlap no used range and no element kept before them. */
  lemma {:induction false} KeepFresh(text: string, els: seq<Element>, used: seq<Range>, r: seq<Element>)
    requires forall i :: 0 <= i < |els| ==> Fits(text, els[i])
    requires r == Keep(text, els, used)
    ensures forall i :: 0 <= i < |r| ==> Fits(text, r[i])
    ensures forall j :: 0 <= j < |r| ==> FreshAt(text, used, r, j)
  {
    if els != [] {
      var lines := ElementLines(els[0]);
      if OverlapsAny(used, lines) {
        KeepFresh(text, els[1..], used, r);
      } else {
        var u := used + [lines];
        var rest := Keep(text, els[1..], u);
        KeepFresh(text, els[1..], u, rest);
        assert r == [els[0]] + rest;
        forall j | 1 <= j < |r|
          ensures FreshAt(text, used, r, j)
        {
          assert FreshAt(text, u, rest, j - 1);
          KeepStep(text, used, lines, r, rest, j);
        }
      }
    }
  }

  /** An element kept after the first: the first one's range was used when it was kept. */
  lemma KeepStep(text: string, used: seq<Range>, lines: Range, r: seq<Element>, rest: seq<Element>, j: nat)
    requires 1 <= j < |r| && r[1..] == rest && forall i :: 0 <= i < |r| ==> Fits(text, r[i])
    requires lines == ElementLines(r[0]) && FreshAt(text, used + [lines], rest, j - 1)
    ensures FreshAt(text, used, r, j)
  {
    var u := used + [lines];
    var x := ElementLines(r[j]);
    assert r[j] == rest[j - 1];
    forall i | 0 <= i < |used|
      ensures !Overlap(x, used[i])
    {
      assert u[i] == used[i];
    }
    forall i | 0 <= i < j
      ensures !Overlap(x, ElementLines(r[i]))
    {
      if i == 0 {
        assert u[|used|] == lines;
      } else {
        assert r[i] == rest[i - 1];
      }
    }
  }

  /** An element is kept, or its lines overlap a used range or a kept element. */
  predicate Covered(text: string, used: seq<Range>, r: seq<Element>, e: Element)
    requires Fits(text, e) && forall i :: 0 <= i < |r| ==> Fits(text, r[i])
  {
    e in r || OverlapsAny(used, ElementLines(e))
    || exists i :: 0 <= i < |r| && Overlap(ElementLines(e), ElementLines(r[i]))
  }

  /** No element is dropped without an overlap to account for it. */
  lemma {:induction false} KeepComplete(text: string, els: seq<Element>, used: seq<Range>, r: seq<Element>)
    requires forall i :: 0 <= i < |els| ==> Fits(text, els[i])
    requires r == Keep(text, els, used)
    ensures forall i :: 0 <= i < |r| ==> Fits(text, r[i])
    ensures forall n :: 0 <= n < |els| ==> Covered(text, used, r, els[n])
  {
    KeepFresh(text, els, used, r);
    if els != [] {
      var lines := ElementLines(els[0]);
      if OverlapsAny(used, lines) {
        KeepComplete(text, els[1..], used, r);
        forall n | 1 <= n < |els|
          ensures Covered(text, used, r, els[n])
        {
          assert els[n] == els[1..][n - 1];
        }
      } else {
        var u := used + [lines];
        var rest := Keep(text, els[1..], u);
        KeepComplete(text, els[1..], u, rest);
        assert r == [els[0]] + rest;
        forall n | 1 <= n < |els|
          ensures Covered(text, used, r, els[n])
        {
          assert els[n] == els[1..][n - 1];
          CoverStep(text, used, lines, r, rest, els[n]);
        }
      }
    }
  }

  /** An element accounted for after the first element was kept is accounted for before. */
  lemma CoverStep(text: string, used: seq<Range>, lines: Range, r: seq<Element>, rest: seq<Element>, e: Element)
    requires 1 <= |r| && r[1..] == rest && Fits(text, e) && forall i :: 0 <= i < |r| ==> Fits(text, r[i])
    requires lines == ElementLines(r[0]) && Covered(text, used + [lines], rest, e)
    ensures Covered(text, used, r, e)
  {
    var u := used + [lines];
    var x := ElementLines(e);
    if e in rest {
      assert e in r;
    } else if OverlapsAny(u, x) {
      var i :| 0 <= i < |u| && Overlap(x, u[i]);
      if i < |used| {
        assert u[i] == used[i];
      } else {
        assert Overlap(x, ElementLines(r[0]));
      }
    } else {
      var i :| 0 <= i < |rest| && Overlap(x, ElementLines(rest[i]));
      assert rest[i] == r[i + 1];
    }
  }

  // ---------------------------------------------------------------------
  // What the extraction finds

  /**
   * A marker block read back from the lines, with `ks` their kinds: its start
   * line opens a block with the options it carries, the line after its
   * last content line closes it, the lines between are plain; its raw text
   * is the lines from start marker to end marker and its content the lines
   * between, dedented.
   */
  predicate MarkerFrom(ks: seq<LineKind>, lines: seq<string>, b: HtmlBlock, dedent: string -> string)
    requires |ks| == |lines|
  {
    b.kind == Marker && 2 <= b.startLine <= b.endLine + 1 && b.endLine < |lines|
    && ks[b.startLine - 2].Opens? && b.meta == ParseMeta(ks[b.startLine - 2].meta, true)
    && ks[b.endLine] == Ends
    && (forall m :: b.startLine - 1 <= m < b.endLine ==> ks[m] == Plain)
    && b.raw == Join(lines[b.startLine - 2..b.endLine + 1], "\n")
    && b.content == RStripChar(dedent(Join(lines[b.startLine - 1..b.endLine], "\n")), '\n')
  }

  /** Blocks in order, each one's end marker before the next one's start marker. */
  lemma {:induction false} OrderedAll(spans: seq<Span>, i: nat, j: nat)
    requires Ordered(spans) && i < j < |spans|
    requires forall n :: 0 <= n < |spans| ==> spans[n].first <= spans[n].last + 1
    ensures spans[i].last < spans[j].first - 2
    decreases j - i
  {
    if i + 1 < j {
      OrderedAll(spans, i + 1, j);
    }
  }

  /** The block of a span placed at its markers reads back from the lines. */
  lemma MarkerOne(ks: seq<LineKind>, lines: seq<string>, s: Span, dedent: string -> string)
    requires |ks| == |lines| && Placed(ks, lines, s)
    ensures MarkerFrom(ks, lines, MarkerBlock(lines, s, dedent), dedent)
  {
  }

  /** The marker blocks of the spans the marker pass finds. */
  lemma MarkerFacts(ks: seq<LineKind>, lines: seq<string>, spans: seq<Span>, ms: seq<HtmlBlock>, dedent: string -> string)
    requires |ks| == |lines| && AllPlaced(ks, lines, spans) && Ordered(spans)
    requires forall k :: 0 <= k < |lines| && ks[k].Opens? ==> k + 2 in Firsts(spans)
    requires ms == MarkerBlocks(lines, spans, dedent)
    ensures forall i :: 0 <= i < |ms| ==> MarkerFrom(ks, lines, ms[i], dedent)
    ensures forall i, j :: 0 <= i < j < |ms| ==> ms[i].endLine < ms[j].startLine - 2
    ensures forall k :: 0 <= k < |lines| && ks[k].Opens? ==> exists i :: 0 <= i < |ms| && ms[i].startLine == k + 2
  {
    forall i | 0 <= i < |ms|
      ensures MarkerFrom(ks, lines, ms[i], dedent)
    {
      MarkerOne(ks, lines, spans[i], dedent);
    }
    MarkersOrdered(ks, lines, spans, ms, dedent);
    MarkersCover(ks, lines, spans, ms, dedent);
  }

  lemma MarkersOrdered(ks: seq<LineKind>, lines: seq<string>, spans: seq<Span>, ms: seq<HtmlBlock>, dedent: string -> string)
    requires |ks| == |lines| && AllPlaced(ks, lines, spans) && Ordered(spans)
    requires ms == MarkerBlocks(lines, spans, dedent)
    ensures forall i, j :: 0 <= i < j < |ms| ==> ms[i].endLine < ms[j].startLine - 2
  {
    forall i, j | 0 <= i < j < |ms|
      ensures ms[i].endLine < ms[j].startLine - 2
    {
      OrderedAll(spans, i, j);
    }
  }

  lemma MarkersCover(ks: seq<LineKind>, lines: seq<string>, spans: seq<Span>, ms: seq<HtmlBlock>, dedent: string -> string)
    requires |ks| == |lines| && AllPlaced(ks, lines, spans)
    requires forall k :: 0 <= k < |lines| && ks[k].Opens? ==> k + 2 in Firsts(spans)
    requires ms == MarkerBlocks(lines, spans, dedent)
    ensures forall k :: 0 <= k < |lines| && ks[k].Opens? ==> exists i :: 0 <= i < |ms| && ms[i].startLine == k + 2
  {
    forall k | 0 <= k < |lines| && ks[k].Opens?
      ensures exists i :: 0 <= i < |ms| && ms[i].startLine == k + 2
    {
      var i :| 0 <= i < |spans| && Firsts(spans)[i] == k + 2;
      assert ms[i].startLine == k + 2;
    }
  }

  // ---------------------------------------------------------------------
  // The whole extraction

  /** Marker blocks come first, then tag blocks. */
  predicate MarkersFirst(bs: seq<HtmlBlock>) {
    forall i, j :: 0 <= i < j < |bs| && bs[j].kind == Marker ==> bs[i].kind == Marker
  }

  /** Each block reads back from the lines (a marker block) or from the text (a tag block). */
  ghost predicate FromSource(ks: seq<LineKind>, lines: seq<string>, text: string, bs: seq<HtmlBlock>, dedent: string -> string)
    requires |ks| == |lines|
  {
    forall i :: 0 <= i < |bs| ==>
      (bs[i].kind == Marker ==> MarkerFrom(ks, lines, bs[i], dedent))
      && (bs[i].kind == Tag ==> TagFound(text, bs[i], dedent))
  }

  /** Each marker block's start marker comes after the end marker of every block before it. */
  predicate MarkersApart(bs: seq<HtmlBlock>) {
    forall i, j :: 0 <= i < j < |bs| && bs[j].kind == Marker ==> bs[i].endLine < bs[j].startLine - 2
  }

  /** Every start line opens a marker block. */
  predicate EveryStart(ks: seq<LineKind>, bs: seq<HtmlBlock>) {
    forall k :: 0 <= k < |ks| && ks[k].Opens? ==>
      exists i :: 0 <= i < |bs| && bs[i].kind == Marker && bs[i].startLine == k + 2
  }

  /** A tag block's lines overlap those of no block before it. */
  predicate TagsApart(bs: seq<HtmlBlock>) {
    forall i, j :: 0 <= i < j < |bs| && bs[j].kind == Tag ==> !Overlap(RangeOf(bs[j]), RangeOf(bs[i]))
  }

  /** The tag block of an element: its raw text is the element's, and its lines are the element's. */
  predicate BlockOf(text: string, e: Element, b: HtmlBlock)
    requires Fits(text, e)
  {
    b.kind == Tag && b.raw == text[e.open..e.close + 7] && RangeOf(b) == ElementLines(e)
  }

  /** An element gives a block, or overlaps the lines of a block. */
  predicate Accounted(text: string, e: Element, bs: seq<HtmlBlock>)
    requires Fits(text, e)
  {
    (exists i :: 0 <= i < |bs| && BlockOf(text, e, bs[i]))
    || exists i :: 0 <= i < |bs| && Overlap(ElementLines(e), RangeOf(bs[i]))
  }

  /** Every element the scan meets is accounted for. */
  predicate EveryElement(text: string, es: seq<Element>, bs: seq<HtmlBlock>, dedent: string -> string)
    requires forall n :: 0 <= n < |es| ==> Fits(text, es[n])
  {
    forall n :: 0 <= n < |es| ==> Accounted(text, es[n], bs)
  }

  /**
   * A successful extraction: the marker blocks, first and in order, are
   * those of the start lines; the tag blocks are elements of the normalised
   * text that overlap no block before them; and every element the scan
   * meets is kept or overlaps a block.
   */
  lemma HtmlBlocksFound(code: string, dedent: string -> string)
    ensures var r := ExtractHtmlBlocks(code, dedent);
      var lines := Lines(code);
      var ks := Classes(Name, lines);
      var text := Normalize(code);
      r.Ok? ==>
        MarkersFirst(r.value) && FromSource(ks, lines, text, r.value, dedent)
        && MarkersApart(r.value) && EveryStart(ks, r.value) && TagsApart(r.value)
        && EveryElement(text, Elements(text, 0), r.value, dedent)
  {
    var lines := Lines(code);
    LinesClean(code);
    LinesFound(Classes(Name, lines), lines, dedent);
  }

  lemma LinesFound(ks: seq<LineKind>, lines: seq<string>, dedent: string -> string)
    requires ks == Classes(Name, lines)
    ensures var r := Extract(lines, dedent);
      var text := Join(lines, "\n");
      r.Ok? ==>
        MarkersFirst(r.value) && FromSource(ks, lines, text, r.value, dedent)
        && MarkersApart(r.value) && EveryStart(ks, r.value) && TagsApart(r.value)
        && EveryElement(text, Elements(text, 0), r.value, dedent)
  {
    var r := FindSpans(Name, lines);
    SpansFound(Name, lines);
    if r.Ok? {
      var ms := MarkerBlocks(lines, r.value, dedent);
      MarkerFacts(ks, lines, r.value, ms, dedent);
      var text := Join(lines, "\n");
      var es := Elements(text, 0);
      ElementsSpan(text, 0, es);
      var kept := Keep(text, es, Ranges(ms));
      KeepFresh(text, es, Ranges(ms), kept);
      KeepComplete(text, es, Ranges(ms), kept);
      var ts := TagBlocks(text, kept, dedent);
      TagsFound(text, es, kept, ts, dedent);
      Joined(ks, lines, text, ms, es, kept, ts, dedent);
    }
  }

  /** The blocks of the elements kept: tag blocks read back from the text, at the elements' lines. */
  lemma TagsFound(text: string, es: seq<Element>, kept: seq<Element>, ts: seq<HtmlBlock>, dedent: string -> string)
    requires forall n :: 0 <= n < |es| ==> Fits(text, es[n]) && Spans(text, es[n])
    requires forall i :: 0 <= i < |kept| ==> kept[i] in es
    requires forall i :: 0 <= i < |kept| ==> Fits(text, kept[i])
    requires ts == TagBlocks(text, kept, dedent)
    ensures forall i :: 0 <= i < |ts| ==> ts[i].kind == Tag && TagFound(text, ts[i], dedent)
    ensures forall i :: 0 <= i < |ts| ==> RangeOf(ts[i]) == ElementLines(kept[i])
  {
    forall i | 0 <= i < |ts|
      ensures ts[i].kind == Tag && TagFound(text, ts[i], dedent)
      ensures RangeOf(ts[i]) == ElementLines(kept[i])
    {
      var n :| 0 <= n < |es| && es[n] == kept[i];
      assert Spans(text, kept[i]);
      KeptTagFound(text, kept[i], dedent, ts[i]);
    }
  }

  /** The block of one element is a tag block read back from the text, at the element's lines. */
  lemma KeptTagFound(text: string, el: Element, dedent: string -> string, b: HtmlBlock)
    requires Spans(text, el) && Fits(text, el) && b == TagBlock(text, el, dedent)
    ensures b.kind == Tag && TagFound(text, b, dedent)
    ensures RangeOf(b) == ElementLines(el)
  {
    TagBlockIn(text, el, dedent, b);
    FoundOf(text, b, el.open, el.gt - el.open, dedent);
  }

  /** A block read back from the text at some place is found there. */
  lemma FoundOf(text: string, b: HtmlBlock, p: nat, k: nat, dedent: string -> string)
    requires TagIn(text, b, p, k, dedent)
    ensures TagFound(text, b, dedent)
  {
  }

  /** Marker blocks followed by the blocks of the elements kept. */
  lemma Joined(ks: seq<LineKind>, lines: seq<string>, text: string, ms: seq<HtmlBlock>, es: seq<Element>,
               kept: seq<Element>, ts: seq<HtmlBlock>, dedent: string -> string)
    requires |ks| == |lines|
    requires forall i :: 0 <= i < |ms| ==> MarkerFrom(ks, lines, ms[i], dedent)
    requires forall i, j :: 0 <= i < j < |ms| ==> ms[i].endLine < ms[j].startLine - 2
    requires forall k :: 0 <= k < |lines| && ks[k].Opens? ==> exists i :: 0 <= i < |ms| && ms[i].startLine == k + 2
    requires forall n :: 0 <= n < |es| ==> Fits(text, es[n])
    requires forall i :: 0 <= i < |kept| ==> Fits(text, kept[i])
    requires forall j :: 0 <= j < |kept| ==> FreshAt(text, Ranges(ms), kept, j)
    requires forall n :: 0 <= n < |es| ==> Covered(text, Ranges(ms), kept, es[n])
    requires ts == TagBlocks(text, kept, dedent)
    requires forall i :: 0 <= i < |ts| ==> ts[i].kind == Tag && TagFound(text, ts[i], dedent)
    requires forall i :: 0 <= i < |ts| ==> RangeOf(ts[i]) == ElementLines(kept[i])
    ensures var bs := ms + ts;
      MarkersFirst(bs) && FromSource(ks, lines, text, bs, dedent)
      && MarkersApart(bs) && EveryStart(ks, bs) && TagsApart(bs)
      && EveryElement(text, es, bs, dedent)
  {
    var bs := ms + ts;
    JoinedMarkers(ks, lines, text, ms, ts, bs, dedent);
    JoinedApart(text, ms, kept, ts, bs);
    JoinedElements(text, ms, es, kept, ts, bs, dedent);
  }

  lemma JoinedMarkers(ks: seq<LineKind>, lines: seq<string>, text: string, ms: seq<HtmlBlock>, ts: seq<HtmlBlock>,
                      bs: seq<HtmlBlock>, dedent: string -> string)
    requires |ks| == |lines| && bs == ms + ts
    requires forall i :: 0 <= i < |ms| ==> MarkerFrom(ks, lines, ms[i], dedent)
    requires forall i, j :: 0 <= i < j < |ms| ==> ms[i].endLine < ms[j].startLine - 2
    requires forall k :: 0 <= k < |lines| && ks[k].Opens? ==> exists i :: 0 <= i < |ms| && ms[i].startLine == k + 2
    requires forall i :: 0 <= i < |ts| ==> ts[i].kind == Tag && TagFound(text, ts[i], dedent)
    ensures MarkersFirst(bs) && FromSource(ks, lines, text, bs, dedent) && MarkersApart(bs) && EveryStart(ks, bs)
  {
    JoinedSource(ks, lines, text, ms, ts, bs, dedent);
    JoinedOrder(ks, ms, ts, bs);
  }

  lemma JoinedSource(ks: seq<LineKind>, lines: seq<string>, text: string, ms: seq<HtmlBlock>, ts: seq<HtmlBlock>,
                     bs: seq<HtmlBlock>, dedent: string -> string)
    requires |ks| == |lines| && bs == ms + ts
    requires forall i :: 0 <= i < |ms| ==> MarkerFrom(ks, lines, ms[i], dedent)
    requires forall i :: 0 <= i < |ts| ==> ts[i].kind == Tag && TagFound(text, ts[i], dedent)
    ensures FromSource(ks, lines, text, bs, dedent)
  {
    forall i | 0 <= i < |bs|
      ensures bs[i].kind == Marker ==> MarkerFrom(ks, lines, bs[i], dedent)
      ensures bs[i].kind == Tag ==> TagFound(text, bs[i], dedent)
    {
      if i < |ms| {
        assert bs[i] == ms[i];
      } else {
        assert bs[i] == ts[i - |ms|];
      }
    }
  }

  lemma JoinedOrder(ks: seq<LineKind>, ms: seq<HtmlBlock>, ts: seq<HtmlBlock>, bs: seq<HtmlBlock>)
    requires bs == ms + ts
    requires forall i :: 0 <= i < |ms| ==> ms[i].kind == Marker
    requires forall i, j :: 0 <= i < j < |ms| ==> ms[i].endLine < ms[j].startLine - 2
    requires forall k :: 0 <= k < |ks| && ks[k].Opens? ==> exists i :: 0 <= i < |ms| && ms[i].startLine == k + 2
    requires forall i :: 0 <= i < |ts| ==> ts[i].kind == Tag
    ensures MarkersFirst(bs) && MarkersApart(bs) && EveryStart(ks, bs)
  {
    var m := |ms|;
    forall i, j | 0 <= i < j < |bs| && bs[j].kind == Marker
      ensures bs[i].kind == Marker && bs[i].endLine < bs[j].startLine - 2
    {
      assert bs[j] == ms[j] && bs[i] == ms[i];
    }
    forall k | 0 <= k < |ks| && ks[k].Opens?
      ensures exists i :: 0 <= i < |bs| && bs[i].kind == Marker && bs[i].startLine == k + 2
    {
      var i :| 0 <= i < |ms| && ms[i].startLine == k + 2;
      assert bs[i] == ms[i];
    }
  }

  lemma JoinedApart(text: string, ms: seq<HtmlBlock>, kept: seq<Element>, ts: seq<HtmlBlock>, bs: seq<HtmlBlock>)
    requires bs == ms + ts && |ts| == |kept|
    requires forall i :: 0 <= i < |kept| ==> Fits(text, kept[i])
    requires forall j :: 0 <= j < |kept| ==> FreshAt(text, Ranges(ms), kept, j)
    requires forall i :: 0 <= i < |ts| ==> ts[i].kind == Tag
    requires forall i :: 0 <= i < |ts| ==> RangeOf(ts[i]) == ElementLines(kept[i])
    requires forall i :: 0 <= i < |ms| ==> ms[i].kind == Marker
    ensures TagsApart(bs)
  {
    var m := |ms|;
    forall i, j | 0 <= i < j < |bs| && bs[j].kind == Tag
      ensures !Overlap(RangeOf(bs[j]), RangeOf(bs[i]))
    {
      assert bs[j] == ts[j - m];
      assert FreshAt(text, Ranges(ms), kept, j - m);
      if i < m {
        assert bs[i] == ms[i];
        assert Ranges(ms)[i] == RangeOf(bs[i]);
      } else {
        assert bs[i] == ts[i - m];
      }
    }
  }

  lemma JoinedElements(text: string, ms: seq<HtmlBlock>, es: seq<Element>, kept: seq<Element>, ts: seq<HtmlBlock>,
                       bs: seq<HtmlBlock>, dedent: string -> string)
    requires bs == ms + ts
    requires forall n :: 0 <= n < |es| ==> Fits(text, es[n])
    requires forall i :: 0 <= i < |kept| ==> Fits(text, kept[i])
    requires forall n :: 0 <= n < |es| ==> Covered(text, Ranges(ms), kept, es[n])
    requires ts == TagBlocks(text, kept, dedent)
    requires forall i :: 0 <= i < |ts| ==> RangeOf(ts[i]) == ElementLines(kept[i])
    ensures EveryElement(text, es, bs, dedent)
  {
    KeptAccounted(text, ms, kept, ts, bs, dedent);
    forall n | 0 <= n < |es|
      ensures Accounted(text, es[n], bs)
    {
      if es[n] in kept {
        var i :| 0 <= i < |kept| && kept[i] == es[n];
      } else {
        OneAccounted(text, ms, kept, ts, bs, es[n]);
      }
    }
  }

  lemma KeptAccounted(text: string, ms: seq<HtmlBlock>, kept: seq<Element>, ts: seq<HtmlBlock>,
                      bs: seq<HtmlBlock>, dedent: string -> string)
    requires bs == ms + ts
    requires forall i :: 0 <= i < |kept| ==> Fits(text, kept[i])
    requires ts == TagBlocks(text, kept, dedent)
    ensures forall i :: 0 <= i < |kept| ==> Accounted(text, kept[i], bs)
  {
    forall i | 0 <= i < |kept|
      ensures Accounted(text, kept[i], bs)
    {
      AccountedKept(text, ms, ts, bs, |ms| + i, kept[i], dedent);
    }
  }

  lemma OneAccounted(text: string, ms: seq<HtmlBlock>, kept: seq<Element>, ts: seq<HtmlBlock>,
                     bs: seq<HtmlBlock>, e: Element)
    requires bs == ms + ts && Fits(text, e) && |ts| == |kept|
    requires forall i :: 0 <= i < |kept| ==> Fits(text, kept[i])
    requires Covered(text, Ranges(ms), kept, e) && e !in kept
    requires forall i :: 0 <= i < |ts| ==> RangeOf(ts[i]) == ElementLines(kept[i])
    ensures Accounted(text, e, bs)
  {
    var m := |ms|;
    var x := ElementLines(e);
    if OverlapsAny(Ranges(ms), x) {
      var i :| 0 <= i < |ms| && Overlap(x, Ranges(ms)[i]);
      assert bs[i] == ms[i];
      AccountedOverlap(text, bs, i, e);
    } else {
      var i :| 0 <= i < |kept| && Overlap(x, ElementLines(kept[i]));
      assert bs[m + i] == ts[i];
      AccountedOverlap(text, bs, m + i, e);
    }
  }

  lemma AccountedKept(text: string, ms: seq<HtmlBlock>, ts: seq<HtmlBlock>, bs: seq<HtmlBlock>, j: nat, e: Element,
                      dedent: string -> string)
    requires bs == ms + ts && |ms| <= j < |bs| && Fits(text, e) && ts[j - |ms|] == TagBlock(text, e, dedent)
    ensures Accounted(text, e, bs)
  {
    assert bs[j] == ts[j - |ms|];
    assert BlockOf(text, e, bs[j]);
  }

  lemma AccountedOverlap(text: string, bs: seq<HtmlBlock>, j: nat, e: Element)
    requires j < |bs| && Fits(text, e) && Overlap(ElementLines(e), RangeOf(bs[j]))
    ensures Accounted(text, e, bs)
  {
  }
}
