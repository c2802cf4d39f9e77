/**
 * nasm_embed.py: the inline NASM blocks of a Trion source, written between
 * a `--nasm-start [options]` line and a `--nasm-end` line. Each block keeps
 * its dedented content, the line numbers its content spans and the options
 * of its start line. A start line inside a block, or a block still open at
 * the end of the text, is an error.
 *
 * `textwrap.dedent` is a parameter: the model says which text is dedented,
 * not how the common indentation is computed.
 */
module NasmEmbed {
  import opened Common
  import opened LineBlocks

  const Name := "nasm"

  /** One extracted block: `content`, `start_line`, `end_line` and `meta`. */
  datatype Block = Block(content: string, startLine: nat, endLine: nat, meta: Meta)

  /** The block a span of marker-delimited lines gives; options are not unquoted. */
  function ToBlock(s: Span, dedent: string -> string): Block {
    Block(RStripChar(dedent(Join(s.body, "\n")), '\n'), s.first, s.last, ParseMeta(s.meta, false))
  }

  function ToBlocks(spans: seq<Span>, dedent: string -> string): (bs: seq<Block>)
    ensures |bs| == |spans| && forall i :: 0 <= i < |spans| ==> bs[i] == ToBlock(spans[i], dedent)
  {
    seq(|spans|, i requires 0 <= i < |spans| => ToBlock(spans[i], dedent))
  }

  /** `extract_nasm_blocks(code)`: the blocks in source order, or the `ValueError` message. */
  function ExtractNasmBlocks(code: string, dedent: string -> string): Result<seq<Block>, string> {
    Extract(Lines(code), dedent)
  }

  /** The extraction over the numbered lines of the source. */
  function Extract(lines: seq<string>, dedent: string -> string): Result<seq<Block>, string> {
    var spans :- FindSpans(Name, lines);
    Ok(ToBlocks(spans, dedent))
  }

  // ---------------------------------------------------------------------
  // Properties

  /** The extraction fails exactly when some start line has no end line after it before the next start line. */
  lemma NasmOkIff(code: string, dedent: string -> string)
    ensures ExtractNasmBlocks(code, dedent).Ok? <==> AllClosed(Classes(Name, Lines(code)), 0)
  {
    SpansOkIff(Name, Lines(code));
  }

  /** The two error messages, the nested one naming a line that holds a start marker. */
  lemma NasmErrors(code: string, dedent: string -> string)
    ensures var r := ExtractNasmBlocks(code, dedent);
      var lines := Lines(code);
      r.Err? ==>
        r.error == UnclosedError(Name)
        || exists n :: 1 <= n <= |lines| && IsStart(Name, lines[n - 1]) && r.error == NestedError(Name, n)
  {
    LinesErrors(Lines(code), dedent);
  }

  lemma LinesErrors(lines: seq<string>, dedent: string -> string)
    ensures var r := Extract(lines, dedent);
      r.Err? ==>
        r.error == UnclosedError(Name)
        || exists n :: 1 <= n <= |lines| && IsStart(Name, lines[n - 1]) && r.error == NestedError(Name, n)
  {
    SpanErrors(Name, lines);
    var r := FindSpans(Name, lines);
    if r.Err? && r.error != UnclosedError(Name) {
      var k :| 0 <= k < |lines| && IsStart(Name, lines[k]) && r.error == NestedError(Name, k + 1);
      assert lines[k + 1 - 1] == lines[k];
    }
  }

  /**
   * Where a block comes from, with `ks` the kinds of the lines: its start
   * line opens a block with the options it carries, the line after its last
   * content line closes it, the lines between are plain, and its content is
   * those lines joined and dedented.
   */
  predicate FromLines(ks: seq<LineKind>, lines: seq<string>, b: Block, dedent: string -> string)
    requires |ks| == |lines|
  {
    2 <= b.startLine <= b.endLine + 1 && b.endLine < |lines|
    && ks[b.startLine - 2].Opens? && b.meta == ParseMeta(ks[b.startLine - 2].meta, false)
    && ks[b.endLine] == Ends
    && (forall m :: b.startLine - 1 <= m < b.endLine ==> ks[m] == Plain)
    && b.content == RStripChar(dedent(Join(lines[b.startLine - 1..b.endLine], "\n")), '\n')
  }

  /**
   * A successful extraction gives blocks that come from the lines, in source
   * order without sharing a line, and one block for every start line.
   */
  lemma NasmBlocksFound(code: string, dedent: string -> string)
    ensures var r := ExtractNasmBlocks(code, dedent);
      var lines := Lines(code);
      var ks := Classes(Name, lines);
      r.Ok? ==>
        (forall i :: 0 <= i < |r.value| ==> FromLines(ks, lines, r.value[i], dedent))
        && (forall i :: 0 <= i < |r.value| - 1 ==> r.value[i].endLine < r.value[i + 1].startLine - 2)
        && forall k :: 0 <= k < |lines| && ks[k].Opens? ==>
             exists i :: 0 <= i < |r.value| && r.value[i].startLine == k + 2
  {
    var lines := Lines(code);
    LinesFound(Classes(Name, lines), lines, dedent);
  }

  lemma LinesFound(ks: seq<LineKind>, lines: seq<string>, dedent: string -> string)
    requires ks == Classes(Name, lines)
    ensures var r := Extract(lines, dedent);
      r.Ok? ==>
        (forall i :: 0 <= i < |r.value| ==> FromLines(ks, lines, r.value[i], dedent))
        && (forall i :: 0 <= i < |r.value| - 1 ==> r.value[i].endLine < r.value[i + 1].startLine - 2)
        && forall k :: 0 <= k < |lines| && ks[k].Opens? ==>
             exists i :: 0 <= i < |r.value| && r.value[i].startLine == k + 2
  {
    var r := FindSpans(Name, lines);
    SpansFound(Name, lines);
    if r.Ok? {
      var bs := ToBlocks(r.value, dedent);
      assert Extract(lines, dedent) == Ok(bs);
      SpanBlocksFromLines(ks, lines, r.value, bs, dedent);
      SpanBlocksOrdered(r.value, bs, dedent);
      SpanBlocksCover(ks, lines, r.value, bs, dedent);
    }
  }

  /** The block of every placed span comes from the lines. */
  lemma SpanBlocksFromLines(ks: seq<LineKind>, lines: seq<string>, spans: seq<Span>, bs: seq<Block>, dedent: string -> string)
    requires |ks| == |lines| && AllPlaced(ks, lines, spans) && bs == ToBlocks(spans, dedent)
    ensures forall i :: 0 <= i < |bs| ==> FromLines(ks, lines, bs[i], dedent)
  {
    forall i | 0 <= i < |bs|
      ensures FromLines(ks, lines, bs[i], dedent)
    {
      assert Placed(ks, lines, spans[i]);
    }
  }

  /** The blocks of ordered spans are in source order, without sharing a line. */
  lemma SpanBlocksOrdered(spans: seq<Span>, bs: seq<Block>, dedent: string -> string)
    requires Ordered(spans) && bs == ToBlocks(spans, dedent)
    ensures forall i :: 0 <= i < |bs| - 1 ==> bs[i].endLine < bs[i + 1].startLine - 2
  {
  }

  /** Every start line the spans cover begins one of their blocks. */
  lemma SpanBlocksCover(ks: seq<LineKind>, lines: seq<string>, spans: seq<Span>, bs: seq<Block>, dedent: string -> string)
    requires |ks| == |lines| && bs == ToBlocks(spans, dedent)
    requires forall k :: 0 <= k < |lines| && ks[k].Opens? ==> k + 2 in Firsts(spans)
    ensures forall k :: 0 <= k < |lines| && ks[k].Opens? ==>
      exists i :: 0 <= i < |bs| && bs[i].startLine == k + 2
  {
    forall k | 0 <= k < |lines| && ks[k].Opens?
      ensures exists i :: 0 <= i < |bs| && bs[i].startLine == k + 2
    {
      var i :| 0 <= i < |spans| && Firsts(spans)[i] == k + 2;
      assert bs[i].startLine == k + 2;
    }
  }
}
