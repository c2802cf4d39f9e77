# Trion in Dafny

A Dafny model of the core of the Trion toolchain, with proofs about that model. It covers these parts:

- **The Trion pipeline** (`trion/`):
  - the keyword table and the token classifiers;
  - the error reporter;
  - the lexer;
  - the recursive-descent parser;
  - the tree-walking interpreter with its scope chain;
  - `run_trion`, which chains the three.
- **The second front end** (`src/`):
  - its lexer;
  - its parser, which raises `ParseError` and recovers from it;
  - the `ASTPrinter` that turns a syntax tree back into text.
- **The base-12 ("dodecagram") codecs**, in three versions:
  - the `to_base12` of `dodecagram.py`;
  - the codec section of `compiler.py`: integers, text validation, and bytes with and without a length;
  - the runtime helpers of `trion_runtime.py`: 64-bit-style integers, and bytes with a base-12 "scale" (a count of fraction digits).
- **The Capsule pipeline**:
  - the regular-expression tokenizer of `lexer.py`;
  - the minimal parser of `parser.py`;
  - the `Main`/`Capsule` parser of `compiler.py`, with its statement classifier, `to_structured` and `find_rules`.
- **The runtime `Quarantine`**: buffers and strings held until they are freed, and sealing.
- **The embedded-block extractors**:
  - `nasm_embed.py` for `--nasm-start`/`--nasm-end` marker blocks;
  - `html_embed.py` for marker blocks and `<html ...>...</html>` elements, with their options.

Every Python exception that these parts raise or catch is part of a result type (`Result`, `Option`, or an outcome datatype). It is not a precondition. Nothing in the model performs input or output.

Some properties are proved over all inputs:

- Round trips of every codec, including the runtime's scaled spelling.
- Operator precedence and associativity in both parsers.
- Scope-chain lookup and assignment.
- Function calls, `return`, and `try`/`catch`/`finally`.
- The Quarantine's invariant over any run of calls.
- For both extractors, exactly when extraction fails and what the blocks it returns are.

## Files

| file | module | models |
|---|---|---|
| common.dfy | Common | `Option`/`Result`, Python's `strip`, `split()`, `find`, `str(int)` |
| text_scan.dfy | TextScan | the cursor and the character loops both lexers share |
| trion_tokens.dfy | TrionTokens | `token_types.py` and `token.py` |
| trion_errors.dfy | TrionErrors | `errors.py` |
| trion_lexer.dfy | TrionLexer | `trion/lexer.py` |
| trion_ast.dfy | TrionAst | `trion/ast_nodes.py` (data only) |
| trion_parser.dfy, trion_parser_facts.dfy | TrionParser, TrionParserFacts | `trion/parser.py` |
| trion_env.dfy | TrionEnv | `Environment` |
| trion_ops.dfy | TrionOps | the operator bodies of the interpreter |
| trion_interp.dfy, trion_interp_facts.dfy | TrionInterp, TrionInterpFacts | `trion/interpreter.py` |
| trion_run.dfy | TrionRun | `run_trion` |
| src_lexer.dfy | SrcLexer | `src/lexer/lexer.py` |
| src_tree.dfy | SrcTree | `src/syntax_tree/syntax_tree.py` and its `ASTPrinter` |
| src_parser.dfy, src_parser_facts.dfy | SrcParser, SrcParserFacts | `src/parser/parser.py` |
| base12.dfy | Base12 | the digits, spelling and reading that all three codecs share |
| dodecagram.dfy | Dodecagram | `dodecagram.py` |
| compiler_codec.dfy | CompilerCodec | `compiler.py` 682-784 |
| runtime_codec.dfy | RuntimeCodec | `trion_runtime.py` 216-341 |
| capsule_lexer.dfy | CapsuleLexer | `lexer.py` |
| capsule_parser.dfy | CapsuleParser | `parser.py` and `compiler.py` 99-370 |
| quarantine.dfy | RuntimeQuarantine | `trion_runtime.py` 72-114 |
| line_blocks.dfy | LineBlocks | what both extractors share: line splitting, the marker regexes, `_parse_meta`, the marker pass |
| nasm_embed.dfy | NasmEmbed | `nasm_embed.py` |
| html_embed.dfy | HtmlEmbed | `html_embed.py` |

## Model

| member | source | states |
|---|---|---|
| Dodecagram.ToBase12 | dodecagram.py:5-12 | for a non-negative `n`, the result is the canonical base-12 spelling: "0" for zero, no leading zero otherwise, and it reads back as `n` |
| Dodecagram.NegativeNeverEnds | dodecagram.py:9-11 | for a negative `n`, floor division by 12 never reaches zero after any number of rounds, so `while n:` never ends |
| Dodecagram.AgreesWithCompiler | dodecagram.py:5-12 | on the numbers it handles, this spelling is exactly the compiler's unpadded `to_base12` |
| Dodecagram.SignedToBase12 | dodecagram.py:5-12 | the corrected spelling starts with `-` exactly for a negative number, and is the loop's digits for any other |
| Dodecagram.SignedAgreesWithCompiler | compiler.py:694-712 | the corrected spelling is the compiler's unpadded `to_base12`, for every integer |
| Dodecagram.SignedRoundTrip | compiler.py:715-741 | the compiler's `from_base12` reads every integer back from its corrected spelling |
| Base12.Spell | compiler.py:701-709 | the spelling is made of the output digits `0-9ab`; it is "0" exactly for zero, and it has no leading zero otherwise |
| Base12.SpellValue | compiler.py:706-709 | the spelling of `n` reads back, digit by digit, as `n` |
| Base12.SpellOfValue | compiler.py:735-740 | every canonical digit string is the spelling of its own value, so each number has exactly one spelling |
| Base12.LeadingZeros | compiler.py:710-711 | zeros added on the left by padding do not change the value of a digit string |
| Base12.BytesValue | compiler.py:763 | the big-endian unsigned value of `k` bytes is below 256^k |
| Base12.ByteLen | compiler.py:779 | `(n.bit_length() + 7) // 8` is the least number of bytes that can hold `n`: 0 for zero; otherwise `n` is at least 256^(len-1) and below 256^len |
| Base12.ToBytes | compiler.py:784 | `n.to_bytes(len, "big")` gives exactly `len` bytes whose big-endian value is `n` |
| Base12.BytesRoundTrip | compiler.py:763 | bytes come back from their value at their own length, leading zero bytes included |
| Base12.MinimalLength | compiler.py:779 | the minimal byte length is the only length whose range holds the value |
| CompilerCodec.ZeroPad | compiler.py:702 | `rjust(w, "0")` adds exactly `w - len` zeros on the left when the text is shorter than `w`, and never cuts it |
| CompilerCodec.ToBase12 | compiler.py:694-712 | the result starts with `-` exactly for negative `n`; after the sign come the canonical digits of abs(n), left-padded with zeros to `min_width` |
| CompilerCodec.ZeroSpelling | compiler.py:701-702 | zero is "0", or `min_width` zeros when that is wider |
| CompilerCodec.UnpaddedIsCanonical | compiler.py:703-712 | with `min_width` 0, the magnitude is the canonical spelling of abs(n), with no leading zero |
| CompilerCodec.ReadDigits | compiler.py:732-741 | after the separators are removed: nothing left is the error "no digits after sign/separators", and the read succeeds exactly when what is left is all base-12 digits |
| CompilerCodec.FromBase12 | compiler.py:715-741 | blank text is the error "empty string"; otherwise the stripped text's sign is taken, and the rest is read by the digit loop |
| CompilerCodec.ValidIff | compiler.py:744-750 | `is_valid_dodecagram` holds exactly when the text is not blank and, after an optional sign and blanks, has only digits of either case, `_` and spaces, with at least one digit |
| CompilerCodec.SeparatorsRemoved | compiler.py:732-740 | removing `_` and spaces leaves all digits exactly when the text held only digits and separators, and leaves something exactly when a digit was present |
| CompilerCodec.LoneSignRejected | compiler.py:727-734 | a lone `+` or `-` is rejected with "no digits after sign/separators" |
| CompilerCodec.ReadNegative | compiler.py:726-741 | `-` followed by digits reads as the negated value of the digits |
| CompilerCodec.RoundTrip | compiler.py:694-741 | `from_base12(to_base12(n, w)) == n` for every integer `n` and every width `w` |
| CompilerCodec.BytesToBase12 | compiler.py:753-764 | the result is the canonical spelling of the bytes' big-endian value; empty bytes, like all-zero bytes, give "0" |
| CompilerCodec.Base12ToBytes | compiler.py:767-784 | a parse error passes through unchanged, and a negative value is an error; a non-negative value succeeds exactly when it is zero, no length is given, or the length is at least its minimal byte length, and otherwise fails with "provided length l too small to hold value (needs m)"; on success, the bytes' value is the parsed value, at the given length or at the minimal length |
| CompilerCodec.BytesRoundTripMinimal | compiler.py:753-784 | bytes that are empty or have a non-zero first byte come back from their spelling when no length is given |
| CompilerCodec.BytesRoundTripWithLength | compiler.py:753-784 | any bytes, leading zero bytes included, come back from their spelling when their length is given |
| CompilerCodec.ZeroGivesNoBytes | compiler.py:776-778 | "0" with no length decodes to no bytes at all |
| RuntimeCodec.ToBase12U64 | trion_runtime.py:220-234 | `None` is rejected with "invalid args"; any other integer gets the compiler's unpadded spelling, with `-` for a negative number |
| RuntimeCodec.ReadLoop | trion_runtime.py:249-263 | the digit loop succeeds exactly when every character is a digit of either case, `_` or a space |
| RuntimeCodec.ReadLoopValue | trion_runtime.py:249-263 | started on the value of the digits already read, the loop ends on the value of those digits followed by the body's digits, with separators dropped |
| RuntimeCodec.FromBase12U64 | trion_runtime.py:236-264 | `None` and blank text are rejected with "invalid args"; otherwise the read succeeds exactly when, after the sign, there are only digits and separators |
| RuntimeCodec.FromBase12Value | trion_runtime.py:244-264 | a successful read is the value of the digits after the sign, with separators dropped, negated after `-` |
| RuntimeCodec.LoneSignIsZero | trion_runtime.py:245-264 | a lone sign reads as 0 here, where the compiler's `from_base12` rejects it |
| RuntimeCodec.ReadsCompilerSpelling | trion_runtime.py:236-264 | every spelling the compiler writes, padded or not, reads back as its number |
| RuntimeCodec.RoundTrip | trion_runtime.py:220-264 | `tr_from_base12_u64(tr_to_base12_u64(n)) == n` for every integer `n` |
| RuntimeCodec.AgreesWithCompiler | trion_runtime.py:236-264 | where both the runtime reader and the compiler's reader accept a text, they give the same value |
| RuntimeCodec.BytesToBase12 | trion_runtime.py:270-274 | the result is the canonical spelling of the bytes' big-endian value, the same as the compiler's |
| RuntimeCodec.ScaledAsWritten | trion_runtime.py:276-290 | a negative scale is rejected, and only a negative scale |
| RuntimeCodec.Scaled | trion_runtime.py:276-290 | the corrected scaled spelling: a negative scale is rejected with "negative scale", and only a negative scale |
| RuntimeCodec.MinimalBytes | trion_runtime.py:327-332 | the bytes hold the value; zero is the single byte 0; any other value has minimal length and a non-zero first byte |
| RuntimeCodec.WithScale | trion_runtime.py:292-334 | `None` and blank text are rejected with "invalid args"; on success, the scale is the length of the text after the first `.`, and the bytes are minimal and not empty |
| RuntimeCodec.WithScaleValue | trion_runtime.py:300-332 | the read succeeds exactly when the text is not blank and, after the sign and outside the point, holds only digits and separators; the bytes' value is the value of those digits with separators dropped |
| RuntimeCodec.Base12ToBytes | trion_runtime.py:336-341 | succeeds exactly when the scaled read succeeds, and returns its bytes |
| RuntimeCodec.ScaledRoundTrip | trion_runtime.py:276-334 | the corrected scaled spelling reads back as the minimal bytes of the value, at exactly the requested scale |
| RuntimeCodec.ScaledRoundTripBytes | trion_runtime.py:276-334 | bytes with a non-zero first byte come back unchanged, with their scale, from the corrected scaled spelling |
| RuntimeCodec.AsWrittenScaleOff | trion_runtime.py:283-286 | as written, a spelling no longer than the scale reads back with one fraction digit too many: scale + 1 instead of scale |
| RuntimeCodec.AsWrittenOneScaleUp | trion_runtime.py:283-286 | as written, a short spelling equals the corrected spelling at one scale more |
| RuntimeCodec.AsWrittenExampleText | trion_runtime.py:283-286 | the one byte 1 at scale 1 is written "0.01" |
| RuntimeCodec.AsWrittenExampleRead | trion_runtime.py:304-334 | "0.01" reads back as the byte 1 at scale 2 |
| RuntimeCodec.AsWrittenAgreesWhenLong | trion_runtime.py:281-290 | where the spelling is longer than the scale, or the scale is not positive, the code as written and the corrected code agree |
| RuntimeCodec.ZeroIsOneByte | trion_runtime.py:328-329 | "0" decodes to the single byte 0 here, where the compiler's `base12_to_bytes` gives no bytes |
| RuntimeCodec.SignDropped | trion_runtime.py:300-303 | the sign is read past and dropped: `-d` gives the same bytes and scale as `d` |
| RuntimeQuarantine.Alloc | trion_runtime.py:78-88 | a size of zero or less is rejected first with "invalid args", and then a sealed quarantine refuses with "quarantined sealed"; otherwise the result is a new zero-filled buffer, held as the last item, under an identity that was not in use |
| RuntimeQuarantine.Write | trion_runtime.py:78-88 | `buf[k] = v` on the caller's buffer, which is the same buffer the quarantine holds: Python index rules, negative indices included; an out-of-range index is an `IndexError`; nothing else changes |
| RuntimeQuarantine.FirstMatch | trion_runtime.py:95 | the position `list.remove` finds: the first held item equal to the object, with buffers compared by contents |
| RuntimeQuarantine.Free | trion_runtime.py:90-101 | `None` is rejected with "invalid args"; the result is 0 exactly when some held item equals the object, and then the first such item is removed; otherwise -1 with "pointer not found"; buffer contents never change |
| RuntimeQuarantine.Seal | trion_runtime.py:103-105 | the quarantine becomes sealed and keeps everything it holds |
| RuntimeQuarantine.Destroy | trion_runtime.py:107-109 | everything held is forgotten; the sealed flag and the buffers' contents stay |
| RuntimeQuarantine.Strdup | trion_runtime.py:111-114 | the string is held as the last item and returned, sealed or not |
| RuntimeQuarantine.AllocThenFree | trion_runtime.py:78-101 | a buffer just allocated can be freed; this leaves as many items held as before, and the item dropped is a zero-filled buffer |
| RuntimeQuarantine.StrdupThenFree | trion_runtime.py:90-114 | a string just duplicated can be freed, and the same items are held as before |
| RuntimeQuarantine.DestroyThenFree | trion_runtime.py:90-109 | after `destroy`, every `free` fails with "pointer not found" or "invalid args" |
| RuntimeQuarantine.WriteThroughAlias | trion_runtime.py:85-97 | the returned buffer is the held buffer: after `buf[0] = 7`, freeing `buf` succeeds, a fresh `bytearray(4)` no longer matches, and a copy holding the new contents does |
| RuntimeQuarantine.FreeTakesTwin | trion_runtime.py:95 | `list.remove` compares by value, so freeing the second of two equal buffers removes the first one |
| RuntimeQuarantine.SealedStaysSealed | trion_runtime.py:103-105 | no sequence of calls unseals a sealed quarantine |
| RuntimeQuarantine.SealedRefusesAlloc | trion_runtime.py:82-84 | once sealed, every later `alloc` is refused |
| RuntimeQuarantine.StepKeepsTracked | trion_runtime.py:78-114 | every call keeps each held buffer live in the store and held once, with all identities below the next one to be issued |
| RuntimeQuarantine.RunKeepsTracked | trion_runtime.py:72-114 | any sequence of calls keeps the quarantine tracked in the same sense |
| RuntimeQuarantine.RunGrowsByAtMostOne | trion_runtime.py:78-114 | each call adds at most one item, so a run holds at most one more item per call |
| LineBlocks.Normalize | nasm_embed.py:67 | after `replace('\r\n', '\n').replace('\r', '\n')` no carriage return is left |
| LineBlocks.SplitLines | nasm_embed.py:67 | `split('\n')` gives at least one piece, and no piece holds a newline |
| LineBlocks.JoinSplit | nasm_embed.py:67 | joining the pieces with newlines gives the text back |
| LineBlocks.LinesClean | html_embed.py:73 | no line keeps a carriage return or a newline, and the lines joined with newlines are the normalised text (the `text` of html_embed.py:123) |
| LineBlocks.HeadAt | nasm_embed.py:28 | where `--\s*<word>` matches at `p`, the match ends just after `word`, at least two dashes and the length of `word` further on |
| LineBlocks.Search | nasm_embed.py:70 | `re.search` gives the leftmost position where the pattern matches, and no match means no position matches |
| LineBlocks.StartMatch | nasm_embed.py:28 | a start marker is found exactly when `--\s*<name>-start` matches somewhere in the line |
| LineBlocks.ColonForm | nasm_embed.py:28 | for a marker written `--<name>-start:opts`, group 1 is exactly `opts` |
| LineBlocks.BlankForm | nasm_embed.py:28 | for a marker written `--<name>-start opts`, with `opts` not starting with a blank, group 1 is exactly `opts` |
| LineBlocks.Put | nasm_embed.py:44-46 | `meta[k] = v`: the key reads as `v`; every other key is unchanged; an existing key keeps its place and a new key goes last |
| LineBlocks.RStripChar | html_embed.py:49 | `rstrip(c)` removes exactly the trailing run of `c` |
| LineBlocks.LStripChar | html_embed.py:49 | `lstrip(c)` removes exactly the leading run of `c` |
| LineBlocks.PutTokensGet | nasm_embed.py:41-46 | after the token loop, a key has the value of the last token that names it, or its earlier value when no token does |
| LineBlocks.ParseMetaGet | nasm_embed.py:37-47 | each option of a marker is the value of the last whitespace-separated token that names it: `key=value` or a bare flag |
| LineBlocks.ParseMeta | nasm_embed.py:32-47 | `_parse_meta`; ParseMetaGet states the value each option name receives |
| LineBlocks.PutTokensDistinct | nasm_embed.py:41-46 | the meta dictionary never holds a key twice |
| LineBlocks.Classify | nasm_embed.py:70-81 | a line opens a block exactly when the start marker matches, and then its options are group 1; otherwise it closes a block exactly when the end marker matches |
| LineBlocks.SpansOkIff | nasm_embed.py:68-107 | the marker pass fails exactly when some start line is not closed by an end line before the next start line or the end of the text |
| LineBlocks.PassErrors | nasm_embed.py:72-73 | a failing pass reports either the unclosed-block error or a nested-start error naming a line that holds a start marker |
| LineBlocks.PassPlaced | nasm_embed.py:68-104 | the blocks the pass returns sit at their markers and in source order, after the blocks already found |
| LineBlocks.PassComplete | nasm_embed.py:71-77 | every start line from the current index on opens one of the blocks the pass returns |
| LineBlocks.SpansFound | nasm_embed.py:68-109 | over a whole text, the blocks are placed at their markers, in order, and one block opens at every start line |
| LineBlocks.SpanErrors | nasm_embed.py:72-107 | over a whole text, a failure is an unclosed block or a start line inside a block |
| LineBlocks.FindSpans | nasm_embed.py:68-107 | the marker pass over the lines of a text; SpansOkIff states when it fails and SpanErrors which failures it reports |
| NasmEmbed.ToBlocks | nasm_embed.py:86-96 | one block per span, in order, each built from its span's lines and options |
| NasmEmbed.NasmOkIff | nasm_embed.py:50-109 | `extract_nasm_blocks` fails exactly when some start line has no end line after it before the next start line |
| NasmEmbed.NasmErrors | nasm_embed.py:70-107 | the only errors are "Unclosed --nasm-start: ..." and "Nested --nasm-start at line n", where line n holds a start marker |
| NasmEmbed.NasmBlocksFound | nasm_embed.py:50-109 | on success, every block comes from the lines between its markers, with its options and line numbers; the blocks are in source order and share no line; every start line opens a block |
| NasmEmbed.ExtractNasmBlocks | nasm_embed.py:50-109 | `extract_nasm_blocks`; NasmOkIff states when it fails, NasmErrors which messages a failure carries, and NasmBlocksFound what each block holds and in which order the blocks come |
| NasmEmbed.SpanBlocksFromLines | nasm_embed.py:86-96 | the block built from each placed span holds exactly the dedented lines between its start and end markers, with the metadata of its start line |
| NasmEmbed.SpanBlocksCover | nasm_embed.py:86-96 | every start-marker line begins one of the built blocks |
| HtmlEmbed.MarkerBlocks | html_embed.py:96-107 | one marker block per span, in order; its raw text runs from the start marker line to the end marker line |
| HtmlEmbed.QuoteEnd | html_embed.py:35 | the lazy `"(.*?)"` closes at the first `"`, unless a newline comes first |
| HtmlEmbed.AttrAt | html_embed.py:35 | a matched attribute has a non-empty name of name characters and a positive match length |
| HtmlEmbed.ParseTagAttrs | html_embed.py:54-63 | `_parse_tag_attrs`; TagAttrsAreNamedTexts, QuotedAttrKeepsText and RepeatedAttrKeepsLast state what it keeps, and AttrAt and QuoteEnd how one attribute is matched |
| HtmlEmbed.TagAttrsAreNamedTexts | html_embed.py:54-63 | unlike a marker's options, a tag's attributes are never flags: every option kept has a text value and a key that starts with a letter, `_` or `:` |
| HtmlEmbed.QuotedAttrKeepsText | html_embed.py:35-63 | `k="v"`, where `v` holds no quote and no newline, gives exactly the option `k` with the text `v`, blanks and `>` included |
| HtmlEmbed.RepeatedAttrKeepsLast | html_embed.py:54-63 | `k=x k=y` gives the one option `k`, with the later value `y` |
| HtmlEmbed.OpenTagAt | html_embed.py:33 | where `<html\b([^>]*)>` matches at `p`, its `>` is the first `>` after `<html` |
| HtmlEmbed.GtSearch | html_embed.py:33 | `[^>]*>` stops at the first `>`, and no `>` means no match |
| HtmlEmbed.OpenSearch | html_embed.py:126 | the leftmost opening tag at or after `pos`; none means no opening tag matches at any later position |
| HtmlEmbed.CloseSearch | html_embed.py:133 | the leftmost `</html>`, in any case, at or after `pos`; none means there is none |
| HtmlEmbed.NextElement | html_embed.py:125-137 | an element is the leftmost opening tag and the first closing tag after its `>`; no opening tag comes before it |
| HtmlEmbed.Elements | html_embed.py:125-164 | the elements the scan meets lie in the text, in order; each starts after the previous element's closing tag |
| HtmlEmbed.ElementsSpan | html_embed.py:126-137 | each element met is an opening tag and the first closing tag after it |
| HtmlEmbed.Keep | html_embed.py:145-163 | only elements the scan met are kept |
| HtmlEmbed.KeepFresh | html_embed.py:145-163 | a kept element overlaps no marker block and no element kept before it |
| HtmlEmbed.KeepComplete | html_embed.py:145-163 | an element is dropped only when it overlaps a marker block or an element kept before it |
| HtmlEmbed.TagBlocks | html_embed.py:151-162 | one tag block per kept element, in order |
| HtmlEmbed.TagBlockIn | html_embed.py:139-162 | a tag block's raw text runs from its opening tag through its closing tag, and its lines are those of its `>` and of its closing tag |
| HtmlEmbed.HtmlOkIff | html_embed.py:65-166 | `extract_html_blocks` fails exactly when a marker block is left open or nested; elements never make it fail |
| HtmlEmbed.HtmlErrors | html_embed.py:83-117 | the only errors are "Unclosed --html-start: ..." and "Nested --html-start at line n", where line n holds a start marker |
| HtmlEmbed.MarkerFacts | html_embed.py:76-117 | the marker blocks come from the lines, in order and apart, and one opens at every start line |
| HtmlEmbed.HtmlBlocksFound | html_embed.py:65-166 | on success: the marker blocks come first, in order, one per start line; the tag blocks are elements of the normalised text that overlap no earlier block; every element the scan meets is either kept or overlaps an earlier block |
| HtmlEmbed.ExtractHtmlBlocks | html_embed.py:65-166 | `extract_html_blocks`; HtmlOkIff states when it fails, HtmlErrors which messages a failure carries, and HtmlBlocksFound which marker and tag blocks it returns and in which order |
| TrionTokens.KeywordsCount | trion/token_types.py:87-109 | the keyword dictionary holds exactly 22 words |
| TrionTokens.KeywordsLowerCase | trion/token_types.py:87-109 | every keyword is a lower-case word |
| TrionTokens.SpellingOfKeyword | trion/token_types.py:87-109 | every keyword maps to the kind whose spelling it is |
| TrionTokens.KeywordOfSpelling | trion/token_types.py:87-109 | every keyword kind's spelling is in the dictionary and maps back to that kind |
| TrionTokens.KeywordsInjective | trion/token_types.py:87-109 | no two words map to the same kind |
| TrionTokens.KeywordSpellings | trion/token_types.py:87-109 | lookup is case-sensitive (`If` and `NULL` are not keywords), and `fn`, `in` and `as` are not reserved |
| TrionTokens.KeywordKindsAreReserved | trion/token_types.py:87-109 | no keyword maps to a literal-carrying or structural kind |
| TrionTokens.IsKeywordIsTableRange | trion/token.py:64-88 | `is_keyword` holds exactly for the kinds the keyword dictionary maps to |
| TrionTokens.ClassifierOverlaps | trion/token.py:28-88 | `true`/`false`/`null` are both literals and keywords; `and`/`or`/`not` are both operators and keywords; identifiers and punctuation are none of the three |
| TrionErrors.RenderShortFormIffNoLocation | trion/errors.py:16-28 | the short form "Class: message" is produced exactly when there is no file, line or column |
| TrionErrors.RenderFrame | trion/errors.py:16-28 | whatever the location, the text starts with the class name and ends with the message |
| TrionErrors.Render | trion/errors.py:16-28 | `str(error)`; RenderShortFormIffNoLocation states when the short form is used and RenderFrame how every form starts and ends |
| TrionErrors.Report | trion/errors.py:72-94 | `error`, `syntax_error`, `type_error` and `runtime_error` append exactly one error of their class and return it; warnings are untouched |
| TrionErrors.Warn | trion/errors.py:96-100 | `warning` appends a base-class error to the warnings only |
| TrionErrors.Clear | trion/errors.py:110-113 | after `clear` there are neither errors nor warnings |
| TrionErrors.ReportingAndQueries | trion/errors.py:72-108 | after any report `has_errors` holds and `has_warnings` is unchanged; a warning sets `has_warnings` and leaves `has_errors` unchanged |
| TrionLexer.SkipComment | trion/lexer.py:62-66 | at `//` the cursor moves to the end of the line, not past its newline; anywhere else it does not move; line and column stay in step |
| TrionLexer.StringBody | trion/lexer.py:73-100 | the loop stops just after the matching quote, or at the end of the input when there is none |
| TrionLexer.StringBodyRaw | trion/lexer.py:73-100 | without backslashes, the decoded text is the raw text up to the closing quote |
| TrionLexer.ReadString | trion/lexer.py:68-110 | a closed string ends on its own quote; an unclosed one runs to the end of the input and records "Unterminated string literal" at the end position |
| TrionLexer.Mantissa | trion/lexer.py:117-126 | the digits-and-dots loop consumes only digits and dots, stops at a second dot, and makes a float exactly when it saw a dot |
| TrionLexer.ReadNumber | trion/lexer.py:112-143 | the value is exactly the consumed source text, and the token is a FLOAT exactly when that text holds a `.`, `e` or `E` |
| TrionLexer.TokenAt | trion/lexer.py:179-308 | a token is always emitted at the current line and column; it consumes at least one character; it is never EOF |
| TrionLexer.ScanStep | trion/lexer.py:167-308 | one turn of the loop either ends at the end of the input or makes progress, and an emitted token starts in the source |
| TrionLexer.ScanFrom | trion/lexer.py:167-308 | the loop reads the whole input and emits no EOF token |
| TrionLexer.Tokenize | trion/lexer.py:160-313 | the token list ends in exactly one EOF token, at the line and column where the input ends; the lexer never records warnings |
| TrionLexer.TokensCarryTheirStart | trion/lexer.py:179-308 | every token carries the line and column of the source character that starts it |
| TrionLexer.UnknownCharacter | trion/lexer.py:302-308 | a character no rule recognises gives one "Unexpected character" error and one INVALID token, and consumes exactly one character |
| TrionLexer.CommentsNewlinesBlanks | trion/lexer.py:168-185 | blanks are skipped first; a comment gives no token; a newline gives a NEWLINE token; the end of the input stops the loop |
| TrionLexer.TwoCharacterOperatorsFirst | trion/lexer.py:203-243 | a two-character operator wins over its first character alone and consumes two characters |
| TrionLexer.KnownEscapeExample | trion/lexer.py:81-82 | `"\n"` in the source decodes to a newline |
| TrionLexer.UnknownEscapeExample | trion/lexer.py:93-95 | an unknown escape keeps both its backslash and its character |
| TrionLexer.Escape | trion/lexer.py:76-95 | the text one escape stands for; KnownEscapeExample and UnknownEscapeExample state a decoded escape and an unknown one that keeps its backslash |
| TrionLexer.UnterminatedExample | trion/lexer.py:102-108 | a missing closing quote keeps the text read and records an error |
| TrionEnv.NewFrame | trion/interpreter.py:14-17 | `Environment(enclosing)` is a new, empty frame under an id that was not in use, with the given parent |
| TrionEnv.Chain | trion/interpreter.py:25-47 | the frames a lookup visits are all in the store, starting at the frame itself |
| TrionEnv.Get | trion/interpreter.py:25-33 | the only failure is NameError "Undefined variable" for the name |
| TrionEnv.Assign | trion/interpreter.py:35-47 | fails only with "Undefined variable" or "Cannot assign to constant"; on success no frame, name, constant or parent is added or removed, and frames newer than the starting one are unchanged |
| TrionEnv.Define | trion/interpreter.py:19-23 | binds the name in the given frame alone and marks it constant when asked; every other frame is unchanged |
| TrionEnv.GetFindsInnermost | trion/interpreter.py:25-33 | `get` returns the binding of the innermost frame that binds the name, and fails exactly when no frame in the chain binds it |
| TrionEnv.AssignUpdatesInnermost | trion/interpreter.py:35-47 | a successful `assign` changes exactly the innermost binding of the name, and that binding was not constant |
| TrionEnv.AssignUndefinedIffUnbound | trion/interpreter.py:43-47 | `assign` raises NameError exactly when no frame in the chain binds the name |
| TrionEnv.AssignConstantIffInnermostConstant | trion/interpreter.py:37-39 | `assign` raises "Cannot assign to constant" exactly when the innermost binding is constant |
| TrionEnv.DefineShadows | trion/interpreter.py:19-33 | after `define`, `get` from the same frame returns the new value; a constant stays constant, and `assign` to it is refused |
| TrionEnv.AssignThenGet | trion/interpreter.py:25-47 | after a successful `assign`, `get` from the same frame returns the assigned value |
| TrionOps.RepeatStr | trion/interpreter.py:174-175 | `s * n` is empty for `n <= 0`; otherwise it starts with `s` |
| TrionOps.PyMod | trion/interpreter.py:183 | Python's integer `%` takes the sign of the divisor |
| TrionOps.BinOp | trion/interpreter.py:164-205 | a binary operation never produces a `return` signal |
| TrionOps.RepeatStrAppends | trion/interpreter.py:174-175 | `s * n` is `s * (n - 1)` followed by one more `s`, and its length is `n` times that of `s` |
| TrionOps.AndOrReturnAnOperand | trion/interpreter.py:198-201 | `and` and `or` return one of their operands, with the truthiness of the logical connective; `0 or 5` is 5 |
| TrionOps.DivisionByZeroFaults | trion/interpreter.py:176-205 | dividing by zero or `false` is a RuntimeError "ValueError: Division by zero" at the node, whatever the left operand |
| TrionOps.NegativePowerOfZeroFaults | trion/interpreter.py:184-205 | a negative power of zero or `false` is Python's own ZeroDivisionError "0.0 cannot be raised to a negative power", which the handler for Trion's errors does not catch; a negative power of any other number is a float, outside the model |
| TrionOps.ModuloByZeroFaults | trion/interpreter.py:180-205 | a remainder by zero or `false` is a RuntimeError "ValueError: Modulo by zero" at the node |
| TrionOps.EqualityLaws | trion/interpreter.py:186-189 | `!=` is the negation of `==`; `==` is reflexive and symmetric, except between exception objects |
| TrionOps.PyModIsFloorRemainder | trion/interpreter.py:183 | Python's `%` is the remainder of floor division: `a == q * b + a % b`, with `7 % -2 == -1` and `-7 % 2 == 1` |
| TrionOps.StrLessStrictTotal | trion/interpreter.py:190-191 | string `<` is irreflexive and total on distinct strings |
| TrionOps.StringIndexWraps | trion/interpreter.py:250-258 | `s[n]` counts from the end for negative `n`, and an out-of-range index is a RuntimeError "string index out of range" |
| TrionOps.UnaryLaws | trion/interpreter.py:207-219 | `not` negates truthiness; `-` negates numbers, booleans counting as 0 and 1 |
| TrionOps.IsTruthy | trion/interpreter.py:413-425 | `is_truthy`; StrAgreesWithTruth ties it to the `str()` text of a value, AndOrReturnAnOperand and UnaryLaws to `and`, `or` and `not`, and WhileFalseSkipsBody to `while` |
| TrionOps.PyEq | trion/interpreter.py:186-189 | Python's `==` on two values; EqualityLaws states that `!=` negates it and that it is reflexive and symmetric except between exception objects |
| TrionOps.PyStr | trion/interpreter.py:113-114 | `str()` of a value; StrAgreesWithTruth states its text for each kind of value, and ThrowCarriesText that a thrown string keeps its text |
| TrionOps.StrAgreesWithTruth | trion/interpreter.py:413-425 | `str()` fails only on functions; `None` is falsy and prints `None`; a boolean prints `True` exactly when truthy; a string is its own text and is truthy exactly when non-empty; an int prints in decimal, `-` first exactly when negative, reads back as itself, and is truthy exactly when its text is not `0` |
| Common.NatToStringRoundTrip | trion/interpreter.py:113-120 | `int(str(n)) == n`: the decimal text of a non-negative int reads back as that int |
| TrionInterp.BindParams | trion/interpreter.py:66-68 | the parameter loop binds exactly the parameters in the call frame and changes no other frame |
| TrionInterp.BindParamsBinds | trion/interpreter.py:66-68 | each parameter is bound to its argument, the last occurrence winning when a name repeats; other names keep their binding |
| TrionInterp.CallFrame | trion/interpreter.py:64-68 | the call frame is new and every existing frame is unchanged |
| TrionInterp.EvalExpr | trion/interpreter.py:153-258 | evaluating an expression never removes a frame or a binding, never changes a constant, and never yields a `return` signal |
| TrionInterp.CallValue | trion/interpreter.py:240-248 | calling a value keeps every existing frame's bindings and never lets a `return` signal out |
| TrionInterp.ExecList | trion/interpreter.py:278-291 | a block keeps every frame except the one it runs in, where it may only add bindings |
| TrionInterp.Exec | trion/interpreter.py:270-411 | a statement keeps every frame except the current one, where it may only add bindings |
| TrionInterp.CatchScope | trion/interpreter.py:389-392 | the catch frame is new, sits under the current frame, and binds only the exception |
| TrionInterp.Globals | trion/interpreter.py:91-134 | the globals frame holds exactly the six builtins, none of them constant, and each name reads as its builtin |
| TrionInterp.Reported | trion/interpreter.py:139-143 | an escaping exception becomes a RuntimeError without a location |
| TrionInterp.Interpret | trion/interpreter.py:135-151 | a run reports at most one error, and when it reports one the result is `None` and the error is a RuntimeError |
| TrionInterpFacts.IdentifierReadsInnermost | trion/interpreter.py:157-162 | an identifier is the binding of the innermost frame that binds it; with no binding it is a NameError at the identifier's position |
| TrionInterpFacts.AssignmentSteps | trion/interpreter.py:221-230 | the value is computed first; then the assignment either succeeds and yields the value, or fails as a RuntimeError at the node with the store left as it was |
| TrionInterpFacts.AssigningConstantFails | trion/interpreter.py:37-39 | assignment fails with "Cannot assign to constant" exactly when the innermost binding is constant |
| TrionInterpFacts.AssigningUnboundFails | trion/interpreter.py:43-47 | assignment fails with the NameError text exactly when no frame binds the name |
| TrionInterpFacts.AssignmentReadsBack | trion/interpreter.py:221-230 | a successful assignment yields the value, and reading the name afterwards gives it back |
| TrionInterpFacts.DeclarationBindsHere | trion/interpreter.py:293-300 | a declaration binds the name in the current frame, `null` without an initialiser; `const` makes it constant, and a constant stays constant |
| TrionInterpFacts.BlockDoesNotLeak | trion/interpreter.py:274-291 | a block runs in a frame of its own: no existing frame gains a name or a constant |
| TrionInterpFacts.DeclaredFunctionClosesOverFrame | trion/interpreter.py:358-362 | a function declaration binds the name, in the current frame, to a function whose closure is that frame |
| TrionInterpFacts.CallChecksArity | trion/interpreter.py:59-61 | a wrong number of arguments raises "Expected n arguments but got m.", rewrapped at the call, before anything is bound |
| TrionInterpFacts.CallingNonFunction | trion/interpreter.py:245-248 | calling a value that is neither a function nor a builtin raises "object is not callable", rewrapped at the call |
| TrionInterpFacts.CallFrameBindsParameters | trion/interpreter.py:63-68 | the call frame's parent is the closure; it binds exactly the parameters, each to its argument, and none of them as a constant |
| TrionInterpFacts.CallReturnsBodyValue | trion/interpreter.py:70-75 | `return v` in the body makes the call's value `v`; falling off the end makes it `None`; an exception is rewrapped at the call |
| TrionInterpFacts.ReturnPassesThroughTry | trion/interpreter.py:380-384 | a `return` inside a try block passes through the catch clauses, and a finally block that completes normally keeps it |
| TrionInterpFacts.CatchBindsException | trion/interpreter.py:385-392 | an exception runs the first catch clause; when that clause names a variable, its body runs in a new frame that binds the variable to the exception |
| TrionInterpFacts.TryRunsFirstCatch | trion/interpreter.py:385-395 | only the first catch clause runs |
| TrionInterpFacts.UncaughtIsSwallowed | trion/interpreter.py:385-400 | without catch clauses the exception is dropped and the statement's value is `None` |
| TrionInterpFacts.FinallyOverrides | trion/interpreter.py:396-398 | a finally block that raises or returns overrides what the try and catch parts produced |
| TrionInterpFacts.ThrowCarriesText | trion/interpreter.py:402-405 | `throw` of a string raises a RuntimeError carrying that text |
| TrionInterpFacts.WhileFalseSkipsBody | trion/interpreter.py:320-325 | a loop whose condition is false at once runs no iteration and yields `None` |
| TrionInterpFacts.ForNeedsString | trion/interpreter.py:327-348 | a value that is not a string raises Python's own TypeError, which the handler for Trion's TypeError does not catch |
| TrionInterpFacts.InterpretReports | trion/interpreter.py:135-151 | a normal run reports nothing and returns the last value; a Trion runtime, name, type or value error is reported by its text; any other exception is reported as "Unexpected error: ..." |
| TrionRun.TokensAreParsable | trion/__init__.py:46-55 | the lexer's tokens always meet what the parser relies on |
| TrionRun.RunTrion | trion/__init__.py:34-72 | whenever errors are printed, the answer is `None` |
| TrionRun.LexErrorsStop | trion/__init__.py:49-51 | lexer errors are printed alone and stop the run with `None` |
| TrionRun.ParseErrorsStop | trion/__init__.py:57-59 | after a clean lex, parser errors are printed alone and stop the run with `None` |
| TrionRun.InterpreterAnswers | trion/__init__.py:61-72 | when neither the lexer nor the parser reports anything, there is a program, and the answer is the interpreter's, or `None` when it reported an error |
| TrionRun.ErrorsMeanNone | trion/__init__.py:64-72 | any printed error means `None`, and the interpreter prints at most one error |
| TrionParser.Advance | trion/parser.py:37-41 | the cursor moves one token, but never past the EOF token, and records nothing |
| TrionParser.Consume | trion/parser.py:57-69 | a matching token is taken; otherwise exactly one syntax error with the message is recorded at the current token, and the cursor does not move |
| TrionParser.Synchronize | trion/parser.py:71-92 | skips at least one token unless at EOF, then stops at the first position after a `;`, before a statement keyword, or at EOF, and not earlier |
| TrionParser.Expression | trion/parser.py:315-317 | an expression always consumes at least one token and stays within the token list |
| TrionParser.BinRest | trion/parser.py:336-407 | a level's loop leaves the left operand and the cursor alone when no operator of that level follows |
| TrionParser.FinishCall | trion/parser.py:451-461 | a parsed call has the expression before `(` as its callee |
| TrionParser.Primary | trion/parser.py:463-501 | `primary` always consumes at least one token |
| TrionParser.Declaration | trion/parser.py:117-130 | `declaration` always consumes at least one token, so the parse loop ends |
| TrionParser.FunctionDecl | trion/parser.py:132-150 | a parsed function declaration has a block as its body |
| TrionParser.FunctionHeader | trion/parser.py:132-146 | the cursor never moves back and errors are only appended; FunctionHeaderTwoParams states what it reads from a well-formed header |
| TrionParserFacts.FunctionHeaderTwoParams | trion/parser.py:132-146 | `f(a, b) {` gives the name `f` and the parameters `a` and `b` in order, records no error, and leaves the cursor on the first token of the body |
| TrionParser.VariableDecl | trion/parser.py:176-186 | the declaration is constant exactly when the keyword just consumed was `const` |
| TrionParser.CatchHeader | trion/parser.py:262-272 | without `(` the clause has neither a type nor a binding; with `(` it always has a type |
| TrionParser.CatchClause | trion/parser.py:260-273 | the cursor never moves back and errors are only appended; CatchHeader and CatchSingleNameIsType state what its header holds |
| TrionParser.BlockStmt | trion/parser.py:298-308 | a block parses to a block statement |
| TrionParser.BlockLoop | trion/parser.py:298-305 | the block loop stops only at `}` or at EOF |
| TrionParser.ParseLoop | trion/parser.py:94-108 | the top-level loop runs to EOF |
| TrionParser.Parse | trion/parser.py:94-115 | `parse` gives no program exactly when some syntax error was recorded |
| TrionParserFacts.TighterOperatorGroupsRight | trion/parser.py:336-407 | when the second operator binds tighter, `a op1 b op2 c` groups as `a op1 (b op2 c)` |
| TrionParserFacts.LooserOperatorGroupsLeft | trion/parser.py:336-407 | when the second operator binds no tighter, `a op1 b op2 c` groups as `(a op1 b) op2 c` |
| TrionParserFacts.PowerGroupsRight | trion/parser.py:409-419 | `a ** b ** c` groups as `a ** (b ** c)` |
| TrionParserFacts.PrefixBindsTighterThanPower | trion/parser.py:409-429 | `-a ** b` is `(-a) ** b` |
| TrionParserFacts.ExpressionAtom | trion/parser.py:315-334 | an operand followed by nothing that continues an expression is a whole expression |
| TrionParserFacts.CompoundAssignmentIsPlain | trion/parser.py:319-334 | `x = v` and `x += v` (and `-=`, `*=`, `/=`) build the same node: the compound operator is lost |
| TrionParserFacts.InvalidTargetKeepsLeftSide | trion/parser.py:319-334 | a target that is not a bare name records "Invalid assignment target." at the operator; the value is still parsed, and the left side is the result |
| TrionParserFacts.PrimaryUnexpected | trion/parser.py:497-501 | `primary` on a token it cannot use records one error, skips the token and gives a null literal |
| TrionParserFacts.DeclarationUnexpected | trion/parser.py:117-130 | a declaration that starts with a token no rule claims records "Unexpected token" for it before anything else |
| TrionParserFacts.StatementUnexpected | trion/parser.py:188-207 | `statement` passes such a token to the expression parser, which records the error |
| TrionParserFacts.StatementFallsToExpression | trion/parser.py:188-207 | a token that starts no keyword rule leaves `statement` to the expression statement |
| TrionParserFacts.SemicolonIsUnexpected | trion/parser.py:176-186 | declarations and expression statements leave a `;` behind, so the next declaration reports it |
| TrionParserFacts.ConversionFailureDropsDeclaration | trion/parser.py:117-130 | a number that `int()`/`float()` rejects makes the enclosing declaration `None`, and the parser resynchronises |
| TrionParserFacts.DanglingExponentIsUnconvertible | trion/lexer.py:129-141 | `1e`, which the lexer reads as a FLOAT, is rejected by `float()` |
| TrionParserFacts.ForAcceptsAnyWord | trion/parser.py:237-245 | in `for x <word> e { }`, the word where `in` belongs is never checked |
| TrionParserFacts.ForVariable | trion/parser.py:237-245 | the loop variable is the first identifier, whatever the second one is |
| TrionParserFacts.CatchSingleNameIsType | trion/parser.py:262-272 | `catch (X)` names the exception type `X` and binds nothing |
| SrcLexer.KeywordCount | src/lexer/lexer.py:130-155 | the keyword table has exactly 24 entries |
| SrcLexer.SpellingOfKeyword | src/lexer/lexer.py:130-155 | every keyword's token type maps back to the word that produced it |
| SrcLexer.KeywordsInjective | src/lexer/lexer.py:130-155 | no two keywords share a token type |
| SrcLexer.KeywordsLowerCase | src/lexer/lexer.py:130-155 | every keyword is spelled in lower-case ASCII letters |
| SrcLexer.KeywordLookupIsExact | src/lexer/lexer.py:130-155 | the lookup is case-sensitive (`FN`, `Let`, `True` are identifiers) and `and`, `or`, `not` are not keywords |
| SrcLexer.ReadNumber | src/lexer/lexer.py:198-236 | the token text is a non-empty slice of the source starting at the cursor; the cursor moves past it and past at most one `f`/`F` suffix, which is not part of the text |
| SrcLexer.NumberParts | src/lexer/lexer.py:198-236 | a number is digits, then optionally `.` with digits, then optionally `e` with an optional sign and digits; it is a FLOAT exactly when it has a fraction, an exponent or the suffix |
| SrcLexer.NumberToken | src/lexer/lexer.py:198-236 | a number always lexes: the token is an INTEGER or a FLOAT at the position of its first digit, and it consumes at least one character; NumberParts states its shape |
| SrcLexer.DotWithoutDigitExample | src/lexer/lexer.py:209 | a `.` not followed by a digit ends an INTEGER (`1.x` reads `1`) |
| SrcLexer.ReadString | src/lexer/lexer.py:238-277 | a string token ends at the first unescaped matching quote; it is a CHAR exactly when single-quoted with one character; otherwise the error is "Unterminated string literal" |
| SrcLexer.StringBodyRaw | src/lexer/lexer.py:238-277 | without backslashes the value is exactly the text up to the closing quote, which does not contain the quote |
| SrcLexer.StringBodyRawUnterminated | src/lexer/lexer.py:238-277 | without backslashes the string is unterminated exactly when the quote never occurs again |
| SrcLexer.TwoCharQuotedExample | src/lexer/lexer.py:276 | `'ab'` is a STRING token, not a CHAR |
| SrcLexer.UnknownEscapeExample | src/lexer/lexer.py:251-265 | an unknown escape `\q` keeps only the `q` |
| SrcLexer.Unescape | src/lexer/lexer.py:251-265 | the character one escape stands for; EscapedCharExample states that `'\n'` reads as a newline and UnknownEscapeExample that `\q` keeps only the `q` |
| SrcLexer.EscapeAndUnterminatedExamples | src/lexer/lexer.py:238-277 | a string with no closing quote, or one ending in a backslash, is "Unterminated string literal" |
| SrcLexer.ReadComment | src/lexer/lexer.py:297-324 | a `//` comment runs to the newline, which it leaves; a `/*` comment runs to the first `*/`; it fails exactly when `/*` is never closed |
| SrcLexer.OperatorToken | src/lexer/lexer.py:352-433 | a two-character operator wins whenever its pair is present; otherwise one character is taken, as its single-character type, or as ERROR exactly when it has none |
| SrcLexer.WordToken | src/lexer/lexer.py:279-295 | a word is the longest run of word characters, and is an IDENTIFIER exactly when it is not in the keyword table |
| SrcLexer.NextToken | src/lexer/lexer.py:326-433 | EOF, with empty text, only at the end of the source; any other token moves the cursor forward |
| SrcLexer.Tokenize | src/lexer/lexer.py:435-450 | a successful token list ends with exactly one EOF and holds no ERROR token |
| SrcLexer.ScanSteps | src/lexer/lexer.py:435-450 | the token loop stops at the first lexing error, turns an ERROR token into "Unexpected character", and otherwise is the next token followed by the rest |
| SrcLexer.BlanksAreSkipped | src/lexer/lexer.py:193-196 | spaces, tabs and carriage returns before a token do not change the token |
| SrcLexer.TwoCharacterOperatorsFirst | src/lexer/lexer.py:352-396 | a two-character operator is one token of two characters |
| SrcLexer.LogicalOperators | src/lexer/lexer.py:373-381 | `&&` is AND and `\|\|` is OR |
| SrcLexer.NewlineIsAToken | src/lexer/lexer.py:424-429 | a newline is a NEWLINE token, reported on the following line |
| SrcLexer.WordsAreLookedUp | src/lexer/lexer.py:344-346 | a letter or `_` starts a word token |
| SrcLexer.UnknownCharacterRaises | src/lexer/lexer.py:431-448 | a character no rule accepts stops tokenising with "Unexpected character" at its position |
| SrcTree.TypeText | src/syntax_tree/syntax_tree.py:292-296 | a type prints as its name, followed by `<...>` exactly when it has generic arguments |
| SrcTree.TypeTextExample | src/syntax_tree/syntax_tree.py:292-296 | `Vec<T>` and `Map<K, V>` print with `, ` between the arguments |
| SrcTree.ParameterRenderings | src/syntax_tree/syntax_tree.py:305-308 | `str(parameter)` and the printer's own `name: type` agree exactly when there is an annotation; without one the printer writes `x: None` |
| SrcTree.BinaryOperatorText | src/syntax_tree/syntax_tree.py:570-584 | eight operators print as their symbol; every other one prints as `BinaryOperator.<NAME>` |
| SrcTree.BinaryOperatorTextRoundTrip | src/syntax_tree/syntax_tree.py:54-80 | the printed form of an operator identifies it: reading it back gives the same operator |
| SrcTree.BinaryOperatorTextsDistinct | src/syntax_tree/syntax_tree.py:54-80 | two operators print the same exactly when they are the same operator |
| SrcTree.UnaryOperatorText | src/syntax_tree/syntax_tree.py:586-594 | `-`, `+` and `!` print as one character, and bitwise not prints as `UnaryOperator.BITWISE_NOT` |
| SrcTree.ParenthesesCountGroupings | src/syntax_tree/syntax_tree.py:552-614 | with plain leaves, the printed expression has exactly one `(` and one `)` per binary expression and call |
| SrcTree.LiteralExamples | src/syntax_tree/syntax_tree.py:552-565 | booleans print as `true`/`false`, strings in double quotes with no escaping, chars in single quotes, integers in decimal |
| SrcTree.ModuloExample | src/syntax_tree/syntax_tree.py:570-584 | `a % b` prints as `(a BinaryOperator.MODULO b)` |
| SrcTree.SymbolExample | src/syntax_tree/syntax_tree.py:570-594 | `a < !b` prints as `(a < !b)` |
| SrcTree.ExprText | src/syntax_tree/syntax_tree.py:552-614 | the printer's text for an expression, with no indentation; ParenthesesCountGroupings states that each binary expression and each call adds exactly one pair of parentheses, and LiteralExamples, ModuloExample and SymbolExample give the spellings of literals and operators |
| SrcTree.StmtText | src/syntax_tree/syntax_tree.py:616-708 | every statement but a block starts with its indentation; a block never ends in whitespace; every statement other than a bare block, an `if` or a `while` prints visibly (ends in a non-blank character); an `if` or a `while` does when its last branch (the `else` branch, else the `then` branch, of an `if`; the body of a `while`) is a block, even an empty one, or is again a statement that prints visibly by this rule |
| SrcTree.ProgramText | src/syntax_tree/syntax_tree.py:710-713 | the printed program never ends in whitespace, and the empty program prints as nothing |
| SrcTree.BlockJoinsLines | src/syntax_tree/syntax_tree.py:642-646 | a block is its statements' texts joined by newlines, once the trailing whitespace is stripped |
| SrcTree.ProgramJoinsWithBlankLines | src/syntax_tree/syntax_tree.py:710-713 | a program is its statements' texts joined by blank lines |
| SrcTree.DeeperOnlyIndents | src/syntax_tree/syntax_tree.py:546-550 | one more level of depth adds exactly `indent_size` spaces in front of a one-line statement |
| SrcTree.VariableDeclarationExample | src/syntax_tree/syntax_tree.py:620-624 | `let mut x: i32 = 42;` prints back as itself |
| SrcTree.BareDeclarationExample | src/syntax_tree/syntax_tree.py:620-624 | a declaration without type or value at depth 1 prints as `  let y;` |
| SrcTree.FunctionExample | src/syntax_tree/syntax_tree.py:626-640 | an unannotated parameter prints as `x: None`, and an empty body leaves a blank line between the braces |
| SrcParser.Advance | src/parser/parser.py:51-55 | the cursor moves by one token except at EOF, where it stays |
| SrcParser.Consume | src/parser/parser.py:71-77 | the expected token is taken exactly when it is next; otherwise a ParseError with the message is raised at the current token and nothing moves |
| SrcParser.Synchronize | src/parser/parser.py:79-93 | skips at least one token unless at EOF, then stops after a `;`, before a statement keyword, or at EOF, at the first such place |
| SrcParser.SkipNewlines | src/parser/parser.py:95-98 | skips exactly the run of NEWLINE tokens |
| SrcParser.Assignment | src/parser/parser.py:302-313 | an expression consumes at least one token |
| SrcParser.BinRest | src/parser/parser.py:315-403 | a precedence level leaves its left operand and the cursor alone when none of its operators follows |
| SrcParser.Unary | src/parser/parser.py:405-419 | a unary expression consumes at least one token |
| SrcParser.FinishCall | src/parser/parser.py:444-459 | a call has the expression before `(` as callee and at most 255 arguments |
| SrcParser.ArgumentLoop | src/parser/parser.py:444-459 | arguments are only appended, and never more than 255 |
| SrcParser.Primary | src/parser/parser.py:461-503 | a primary expression consumes at least one token |
| SrcParser.Declaration | src/parser/parser.py:122-133 | a ParseError is caught and only a number conversion error escapes; a declaration that is kept ends on `;` or `}`; a non-empty rest always moves |
| SrcParser.TypeAnn | src/parser/parser.py:174-177 | a type annotation is a single identifier with no generic arguments |
| SrcParser.ParamLoop | src/parser/parser.py:135-162 | parameters are only appended, and never more than 255 |
| SrcParser.FunctionDecl | src/parser/parser.py:135-162 | a function declaration is never async, has a block body and at most 255 parameters, and ends on `}` |
| SrcParser.VariableDecl | src/parser/parser.py:179-197 | a variable declaration ends on `;` |
| SrcParser.Statement | src/parser/parser.py:199-214 | a statement consumes at least one token and ends on `;` or `}` |
| SrcParser.IfStmt | src/parser/parser.py:216-229 | an `if` is located at its keyword and ends on `;` or `}` |
| SrcParser.WhileStmt | src/parser/parser.py:231-239 | a `while` is located at its keyword and ends on `;` or `}` |
| SrcParser.ReturnStmt | src/parser/parser.py:241-252 | a `return` is located at its keyword and ends on `;` |
| SrcParser.JumpStmt | src/parser/parser.py:254-268 | `break` and `continue` succeed exactly when `;` follows, and are located at the keyword |
| SrcParser.BlockStmt | src/parser/parser.py:270-288 | a block ends on `}` and is located at its `{` |
| SrcParser.BlockLoop | src/parser/parser.py:270-288 | a block's statements are only appended, and the loop stops at `}` or EOF |
| SrcParser.ExpressionStmt | src/parser/parser.py:290-296 | an expression statement ends on `;` and is located where its expression is |
| SrcParser.ParseLoop | src/parser/parser.py:104-120 | statements are only appended; only a number conversion error stops the parse |
| SrcParser.Parse | src/parser/parser.py:104-120 | the program is located at its first statement, or at 1:1 when it has none; only a number conversion error escapes |
| SrcParserFacts.Level | src/parser/parser.py:315-403 | each binary operator token belongs to exactly one precedence level, from `\|\|` (loosest) to `*`, `/`, `%` (tightest) |
| SrcParserFacts.TighterOperatorGroupsRight | src/parser/parser.py:315-403 | when the second operator binds tighter, `a op1 b op2 c` groups as `a op1 (b op2 c)` |
| SrcParserFacts.LooserOperatorGroupsLeft | src/parser/parser.py:315-403 | when the second operator binds no tighter, `a op1 b op2 c` groups as `(a op1 b) op2 c` |
| SrcParserFacts.PrefixBindsTighter | src/parser/parser.py:405-419 | `!a op b`, `-a op b` and `+a op b` apply the prefix to `a` alone |
| SrcParserFacts.AssignmentGroupsRight | src/parser/parser.py:302-313 | `a = b = c` is `a = (b = c)` |
| SrcParserFacts.ExpressionAtom | src/parser/parser.py:298-313 | an operand followed by nothing that continues an expression is a whole expression |
| SrcParserFacts.MissingSemicolonDropsStatement | src/parser/parser.py:122-133 | an expression without `;` raises "Expected ';' after expression", and the declaration is dropped while the parser resynchronises |
| SrcParserFacts.UnparsedOperators | src/parser/parser.py:298-403 | the bitwise and, or, xor and not kinds, which the lexer emits for single `&`, bar, `^` and `~` characters, have no grammar rule, so after an operand one ends the expression and the statement is dropped for its missing `;`; the power, compound-assignment and shift kinds, which the lexer never produces, are dropped the same way in a token list that holds one |
| SrcParserFacts.JumpWithoutSemicolonDropped | src/parser/parser.py:254-268 | `break` or `continue` without `;` is dropped |
| SrcParserFacts.JumpStatements | src/parser/parser.py:254-268 | `break;` and `continue;` parse to their statements, located at the keyword |
| SrcParserFacts.DeclarationRecovers | src/parser/parser.py:122-133 | any ParseError from a statement yields no declaration and resumes at the synchronised position, which is further on unless at EOF |
| SrcParserFacts.ArgumentLimit | src/parser/parser.py:444-459 | a 256th argument raises "Can't have more than 255 arguments" |
| SrcParserFacts.ParameterLimit | src/parser/parser.py:135-162 | a 256th parameter raises "Can't have more than 255 parameters" |
| SrcParserFacts.ConversionFailureEscapes | src/parser/parser.py:470-483 | a number token that `int()` or `float()` rejects raises a ValueError that the declaration does not catch |
| SrcParserFacts.LexedIntegersConvert | src/parser/parser.py:470-478 | every INTEGER the lexer produces is accepted by `int()` |
| SrcParserFacts.ExponentWithoutDigits | src/lexer/lexer.py:217-235 | `1e` lexes as a FLOAT that `float()` rejects |
| SrcParserFacts.FloatSpellings | src/parser/parser.py:479-483 | `3.14`, `2E5`, `1e-3` and `1.` are float syntax; `.`, `1e+` and the empty text are not |
| SrcParserFacts.EmptyProgram | src/parser/parser.py:104-120 | a source of only newlines parses to the empty program at 1:1 |
| SrcParserFacts.ConversionFailureEndsParse | src/parser/parser.py:104-120 | a program starting with an unconvertible number fails the whole parse with a ValueError |
| CapsuleLexer.Match | lexer.py:14-24 | the first pattern that matches always consumes at least one character; a newline, an operator or a mismatch consumes exactly one |
| CapsuleLexer.Pieces | lexer.py:40-55 | every piece the scanner cuts has non-empty text |
| CapsuleLexer.Tokenize | lexer.py:30-57 | no blank, comment or newline token is returned, and no token is empty |
| CapsuleLexer.PiecesTileInput | lexer.py:40-55 | the pieces, including the skipped ones, put back together are exactly the input |
| CapsuleLexer.ScanKeepsPieces | lexer.py:47-51 | the tokens returned are the pieces minus the blank, comment and newline ones, in order |
| CapsuleLexer.KeywordsAreWholeWords | lexer.py:18-19 | a word is a KEYWORD exactly when it starts at a word boundary and the whole word is a keyword; otherwise it is an IDENT |
| CapsuleLexer.CommentOrMinus | lexer.py:16-22 | `--` starts a comment that runs to the end of the line; a single `-` is an operator |
| CapsuleLexer.KeywordExample | lexer.py:18 | `Main` is a keyword |
| CapsuleLexer.LongerWordExample | lexer.py:18-19 | `Mainly` is one identifier, not `Main` followed by `ly` |
| CapsuleLexer.ElseifExample | lexer.py:18 | `Elseif` is one keyword, although `Else` comes first in the alternation |
| CapsuleLexer.MinusExample | lexer.py:15-22 | `a - b` is an identifier, an operator and an identifier |
| CapsuleLexer.CommentExample | lexer.py:16 | everything after `--` is dropped |
| CapsuleLexer.GluedDigitExample | lexer.py:19-23 | in `1Main` the digit has no word boundary after it, so it is a MISMATCH, and `Main` is an identifier, not a keyword |
| CapsuleLexer.UnclosedQuoteExample | lexer.py:21-23 | an unclosed `"` is a MISMATCH and the text after it is lexed normally |
| CapsuleParser.StripQuotes | compiler.py:196-200 | the text is stripped, and one pair of matching surrounding quotes is removed exactly when it is there |
| CapsuleParser.ParseStatement | compiler.py:203-239 | a statement is a Print exactly when its stripped text starts with `print` in any case, a Rule exactly when it starts with `rule`, keeping the stripped text, and raw otherwise |
| CapsuleParser.PrintColonForm | compiler.py:222-231 | `Print : "q"` is a Print of `q` |
| CapsuleParser.PrintWordForm | compiler.py:227-231 | `print w` without a colon is a Print of `w` |
| CapsuleParser.Structured | compiler.py:129-136 | structuring maps every entry of the body in place, keeping its length |
| CapsuleParser.ToStructured | compiler.py:124-167 | structuring keeps the node's kind, name and body length, and leaves no raw text in the body |
| CapsuleParser.StructuredIdempotent | compiler.py:124-167 | structuring twice is the same as structuring once |
| CapsuleParser.FindRules | compiler.py:169-185 | every entry found is a rule-like entry of the body, with a rule statement, in increasing index order |
| CapsuleParser.RulesComplete | compiler.py:169-185 | every rule-like entry of the body is found, with its rule statement |
| CapsuleParser.FindRulesAfterStructuring | compiler.py:155-185 | `find_rules` gives the same entries before and after structuring |
| CapsuleParser.NonKeywordRun | compiler.py:305-310 | the inner loop stops at the first keyword or at the end, and everything it passes is not a keyword |
| CapsuleParser.MainStepAsWritten | compiler.py:297-313 | one pass of the outer `Main` loop as written never moves the cursor back |
| CapsuleParser.MainStallsOnOtherKeyword | compiler.py:297-313 | on a keyword other than `Main`, `Capsule` or `EndCapsule`, that pass consumes nothing, so the loop never ends |
| CapsuleParser.MainStallExample | compiler.py:291-315 | `Main Print : "hi"` reaches that stalling state right after `Main` |
| CapsuleParser.MainStepAgrees | compiler.py:305-313 | on a non-keyword token, the pass as written and the corrected one consume the same run |
| CapsuleParser.MainLoop | compiler.py:291-315 | the corrected `Main` body runs to the next top-level keyword or the end, and only adds entries |
| CapsuleParser.MainStep | compiler.py:297-313 | each corrected pass moves the cursor forward and stays before any top-level keyword |
| CapsuleParser.MainLoopAsWrittenAgrees | compiler.py:291-315 | the loop as written returns exactly when no keyword stands before the next top-level one, and then agrees with the corrected loop |
| CapsuleParser.ParseMain | compiler.py:291-315 | `_parse_main` as written, when it returns, gives a `Main` block equal to the corrected one |
| CapsuleParser.CapsuleLoop | compiler.py:334-364 | a capsule's body runs to `EndCapsule` or the end, and stops at the first `EndCapsule` |
| CapsuleParser.OneEntryPerStatement | compiler.py:334-364 | a capsule body has one entry per keyword it passes, plus one for stray text at the start when the body was empty |
| CapsuleParser.ParseCapsule | compiler.py:318-370 | a capsule takes its name from an identifier right after `Capsule`, is `<anonymous>` otherwise, and its body holds raw text only |
| CapsuleParser.ParseLoopCorrected | compiler.py:253-263 | nodes are only appended, at most one per token |
| CapsuleParser.Parse | compiler.py:253-263 | the parse as written, when it returns, gives the corrected node list |
| CapsuleParser.ParseLoopAgrees | compiler.py:253-263 | the top-level loop as written, when it returns, agrees with the corrected loop |
| CapsuleParser.ParseLoop | compiler.py:253-263 | `Parser.parse` as written; ParseLoopAgrees states that when it returns it agrees with the corrected loop, and ParseLoopReturns when it returns |
| CapsuleParser.ParseLoopReturns | compiler.py:253-315 | when the only keywords are `Main`, `Capsule` and `EndCapsule`, the parse as written always returns |
| CapsuleParser.ParseStallExample | compiler.py:291-315 | the parse as written never returns on `Main Print : "hi"` |
| CapsuleParser.CorrectedStallExample | compiler.py:291-315 | the corrected parse gives a `Main` block holding `Print : "hi"` for the same tokens |
| CapsuleParser.PrintCapsuleParses | compiler.py:318-370 | `Capsule n Print : "q" EndCapsule` parses, both as written and corrected, to capsule `n` with one entry `Print : "q"` |
| CapsuleParser.PrintCapsuleRoundTrip | compiler.py:124-370 | structuring that capsule gives the Print statement of `q` |
| CapsuleParser.MinimalLoop | parser.py:9-35 | the small parser only appends nodes, and they all have empty bodies |
| CapsuleParser.MinimalMainsOnly | parser.py:9-29 | without `Capsule`, the small parser gives one empty `Main` block per `Main` keyword |
| CapsuleParser.MinimalExamples | parser.py:31-35 | `Main Capsule` fails with an IndexError, and `Capsule Main` names the capsule `Main` |
| CapsuleParser.MinimalParse | parser.py:9-35 | the small parser; MinimalLoop states that its nodes have empty bodies, MinimalMainsOnly what it gives without `Capsule`, and MinimalExamples its IndexError and its naming of a capsule |
| CapsuleParser.ParsersAgreeOnMains | parser.py:9-29 | when the only keyword is `Main`, the small parser and the corrected compiler parser give the same number of nodes, all `Main` blocks |
| CapsuleParser.ParseMainsOnly | compiler.py:253-315 | when the only keyword is `Main`, the corrected parse gives one `Main` block per `Main` keyword |
| TrionParser.SyntaxErr | trion/errors.py:78-82 | a syntax error appends exactly one entry, located at the token, and leaves the cursor alone |
| TrionParser.AssignExpr | trion/parser.py:319-334 | assignment consumes at least one token, never moves back, and only appends errors |
| TrionParser.Power | trion/parser.py:409-419 | `power` consumes at least one token, never moves back, and only appends errors |
| TrionParser.Unary | trion/parser.py:421-429 | `unary` consumes at least one token, never moves back, and only appends errors |
| TrionParser.CallExpr | trion/parser.py:431-449 | `call` consumes at least one token, never moves back, and only appends errors |
| TrionParser.ArgsLoop | trion/parser.py:451-461 | arguments are only appended |
| TrionParser.ParamLoop | trion/parser.py:132-150 | parameters are only appended |
| TrionParser.ClassDecl | trion/parser.py:152-174 | a class declaration never moves the cursor back and only appends errors |
| TrionParser.Statement | trion/parser.py:188-207 | `statement` consumes at least one token, never moves back, and only appends errors |
| TrionParser.IfStmt | trion/parser.py:209-227 | an `if` never moves the cursor back and only appends errors |
| TrionParser.ElifLoop | trion/parser.py:215-222 | elif clauses are only appended, in source order |
| TrionParser.WhileStmt | trion/parser.py:229-235 | a `while` never moves the cursor back and only appends errors |
| TrionParser.ForStmt | trion/parser.py:237-245 | a `for` never moves the cursor back and only appends errors |
| TrionParser.ForHeader | trion/parser.py:237-241 | the token where `in` belongs is the one that was next, whatever it is |
| TrionParser.ReturnStmt | trion/parser.py:247-253 | a `return` never moves the cursor back and only appends errors |
| TrionParser.TryStmt | trion/parser.py:255-280 | a `try` never moves the cursor back and only appends errors |
| TrionParser.CatchLoop | trion/parser.py:260-273 | catch clauses are only appended, in source order |
| TrionParser.ImportStmt | trion/parser.py:287-296 | an `import` never moves the cursor back and only appends errors |
| TrionInterp.EvalPair | trion/interpreter.py:164-205 | an operator or index evaluation keeps every frame, its parent and its names, and never signals `return` |
| TrionInterp.EvalAssign | trion/interpreter.py:221-230 | an assignment adds no name to any frame and never signals `return` |
| TrionInterp.EvalCall | trion/interpreter.py:232-248 | a call adds no name to any existing frame and never signals `return` to its caller |
| TrionInterp.EvalArgs | trion/interpreter.py:232-248 | arguments evaluate left to right to one value each, or stop at the first fault |
| TrionInterp.ExecValued | trion/interpreter.py:293-300 | a declaration, `return` or `throw` adds names to the current frame only |
| TrionInterp.ElifChain | trion/interpreter.py:302-318 | the elif chain adds names to the current frame only |
| TrionInterp.WhileLoop | trion/interpreter.py:320-325 | a `while` adds names to the current frame only |
| TrionInterp.ExecFor | trion/interpreter.py:327-348 | a `for` adds names to the current frame only; each iteration's frame is new |
| TrionInterp.ForLoop | trion/interpreter.py:327-348 | the iterations over the characters add names to the current frame only |
| TrionInterp.ExecTry | trion/interpreter.py:375-400 | a `try` adds names to the current frame only |
| TrionInterp.RunCatch | trion/interpreter.py:381-393 | a catch clause adds names to the current frame only |
| TrionOps.UnOp | trion/interpreter.py:207-219 | a unary operator never signals `return` |
| TrionOps.IndexValue | trion/interpreter.py:250-258 | indexing never signals `return` |
| TrionLexer.SkipToNewline | trion/lexer.py:62-66 | a comment runs up to the next newline, which it leaves, or to the end |
| TrionLexer.StringToken | trion/lexer.py:68-110 | a string emits one non-EOF token at its first character and moves forward |
| TrionLexer.NumberToken | trion/lexer.py:112-143 | a number emits one non-EOF token at its first character and moves forward |
| TrionLexer.WordToken | trion/lexer.py:145-154 | a word emits one non-EOF token at its first character and moves forward |
| TrionLexer.SymbolToken | trion/lexer.py:203-308 | an operator or unknown character emits one non-EOF token at its first character and moves forward |
| TrionLexer.TwoCharTokenAt | trion/lexer.py:203-243 | a two-character operator is one token of two characters |
| SrcLexer.Fraction | src/lexer/lexer.py:208-215 | the fraction is taken exactly when `.` is followed by a digit, and it is `.` plus digits |
| SrcLexer.Exponent | src/lexer/lexer.py:217-228 | the exponent is taken exactly when an `e` or `E` follows; it is the letter, an optional sign and digits |
| SrcLexer.StringBody | src/lexer/lexer.py:244-272 | a closed string ends just after its quote; the only error is "Unterminated string literal" |
| SrcLexer.LineComment | src/lexer/lexer.py:302-308 | a `//` comment runs up to the next newline, which it leaves, or to the end |
| SrcLexer.BlockComment | src/lexer/lexer.py:310-322 | a `/*` comment ends at the first `*/` after it, and fails at the start column exactly when there is none |
| SrcLexer.TokenAt | src/lexer/lexer.py:336-433 | a token other than EOF starts at the cursor's column and moves forward |
| SrcLexer.ScanFrom | src/lexer/lexer.py:435-450 | a successful scan holds no ERROR token and exactly one EOF, at the end |
| SrcParser.Expression | src/parser/parser.py:298-300 | an expression consumes at least one token |
| SrcParser.Param | src/parser/parser.py:164-172 | a parameter never moves the cursor back |
| SrcParser.FunctionHeader | src/parser/parser.py:135-160 | the header names the function by the identifier after `fn`, has at most 255 parameters, and ends on `{` |
| SrcParser.OptionalType | src/parser/parser.py:166-170 | without `:` there is no annotation and nothing is consumed |
| CapsuleLexer.Scan | lexer.py:40-55 | no blank, comment or newline token is returned, and no token is empty |
| CapsuleParser.StructureItem | compiler.py:130-135 | raw text is classified; a statement that is already structured stays the same |
| CapsuleParser.ParseMainCorrected | compiler.py:291-315 | the corrected `Main` block holds raw text only |
| CapsuleParser.ParseCorrected | compiler.py:253-263 | the corrected parse gives at most one node per token |
| CapsuleParser.MainLoopAsWritten | compiler.py:297-315 | the `Main` loop as written, when it returns, stops at a top-level keyword or the end |
| CapsuleParser.AppendStray | compiler.py:352-364 | a stray token starts the body when it is empty, and otherwise is joined with a space to the last entry |

## Left out

- TrionInterp.Interpret: takes a `fuel` bound on call depth and loop rounds instead of running unboundedly, so Python's `RecursionError` and loops that never end become a `Halted(OutOfFuel)` result.
- TrionParser.Parse: the model parses input nested to any depth, while both recursive-descent parsers (`trion/parser.py`, `src/parser/parser.py`) and the tree printer (`src/syntax_tree/syntax_tree.py`) can raise Python's `RecursionError` on deeply nested input; SrcParser.Parse and SrcTree.StmtText are unbounded in the same way.
- TrionInterp.EvalExpr: a float literal, attribute access, a class declaration and `str()` of a function object end the run as `Halted(OutOfModel(..))`, because the model has no floats or classes.
- TrionOps.BinOp: true division of two numbers, and a negative power of a non-zero number, both yield floats in Python, so they end as `Halted(OutOfModel(..))`; so do printf-style `%` on a string and `==` between exception objects. A negative power of zero raises ZeroDivisionError and is modelled.
- TrionInterp.CallValue: the builtins (`print`, `len`, `type`, `str`, `int`, `float`) are a `host` parameter, so their replies are not modelled and printing is not modelled.
- SrcTree.ExprText: a float literal prints its token text, while the printer prints `str(float(t))`, so `1e5` is `1e5` here and `100000.0` in Python.
- NasmEmbed.ToBlock: `textwrap.dedent` is a parameter (of ToBlock and ToBlocks), so the model states which text is dedented but not how the indentation is removed.
- HtmlEmbed.MarkerBlock: `textwrap.dedent` is a parameter here too (of MarkerBlock and MarkerBlocks).
- HtmlEmbed.TagBlock: `textwrap.dedent` is a parameter here too (of TagBlock and TagBlocks).
- TrionLexer.TokenAt: `isdigit`, `isalpha` and `isalnum` are ASCII here, while Python's accept every Unicode digit and letter.
- SrcLexer.TokenAt: `isdigit`, `isalpha` and `isalnum` are ASCII here as well.
- CapsuleLexer.Match: the regex classes `\b`, `\d` and `\w` are ASCII here, while Python's `re` treats them as Unicode classes.
- LineBlocks.Search: the `\b` of the end-marker regexes is an ASCII word boundary, so a marker followed by a non-ASCII letter is treated differently than by Python.
- HtmlEmbed.OpenTagAt: `<html` followed by a non-ASCII letter counts as an opening tag here, while Python's `\b` rejects it, so `<htmlé>x</html>` is accepted by the model.
- RuntimeCodec.ReadLoop: a digit is an ASCII digit here, while the source's `isdigit` also accepts other Unicode digits, giving them the value `ord(c) - ord('0')`.
- RuntimeCodec.WithScale: the same ASCII restriction applies to the scaled reader's digits.
- RuntimeQuarantine.Alloc: the lock is left out, because the model is sequential; the runtime's global last-error text is returned beside the result instead of being stored.
- CompilerCodec.ToBase12: the `isinstance` checks that raise `TypeError` are left out, because the Dafny types already exclude those arguments.
- CompilerCodec.FromBase12: its `isinstance` check is left out for the same reason.
- CompilerCodec.BytesToBase12: its `isinstance` check is left out for the same reason.
- SrcParser.Primary: `int()` is modelled on digit runs only; Python's `int()` also takes a sign, `_` between digits and surrounding blanks, but the lexer's INTEGER tokens never hold those (SrcParserFacts.LexedIntegersConvert).
- CapsuleParser.MainLoop: the `t_type is None` branches are left out, because no token from the tokenizer has a missing type.
- TrionParser.IfStmt: its contract states only that the cursor does not move back and errors are only appended; what it builds is stated for `for` and `catch` by the parser lemmas, not for `if`.
- TrionParser.WhileStmt: its contract states only that the cursor does not move back and errors are only appended.
- TrionParser.ForStmt: its contract states only that the cursor does not move back and errors are only appended; `ForAcceptsAnyWord` and `ForVariable` state what it builds.
- TrionParser.ReturnStmt: its contract states only that the cursor does not move back and errors are only appended.
- TrionParser.TryStmt: its contract states only that the cursor does not move back and errors are only appended; `CatchSingleNameIsType` states what a clause holds.
- TrionParser.FunctionHeader: its contract states only that the cursor does not move back and errors are only appended; `FunctionHeaderTwoParams` states what a well-formed header yields.
- TrionParser.CatchClause: its contract states only that the cursor does not move back and errors are only appended; `CatchSingleNameIsType` states what a clause holds.
- TrionParser.ImportStmt: its contract states only that the cursor does not move back and errors are only appended.
- TrionParser.ClassDecl: its contract states only that the cursor does not move back and errors are only appended.
- TrionInterp.ExecTry: its contract states only which frames may gain names; the lemmas of TrionInterpFacts state what `try`, `catch` and `finally` do.
- TrionInterp.WhileLoop: its contract states only which frames may gain names; `WhileFalseSkipsBody` states the exit case.
- The command-line entry points (`trion_cli.py`, `trion.py`, the `main` functions of the extractors, both front ends and `lexer.py`), file reading and writing, and `print` are not part of this model, because they only do input and output.
- `ast.py`, `codegen.py`, `build.py`, `trion_runtime.c` and the rest of `compiler.py` and `trion_runtime.py` are not part of this model.
- The copy of the tokenizer in `compiler.py` (lines 14-57) is the same as `lexer.py`'s, so it is modelled once, by CapsuleLexer.

## Findings

| source | as written | input that shows it | evidently intended | confidence | as-written member | corrected member |
|---|---|---|---|---|---|---|
| compiler.py:297-315 | `_parse_main` breaks only on `Main`, `Capsule` or `EndCapsule`; on any other keyword its inner loop takes nothing, so the outer loop repeats forever | the tokens of `Main Print : "hi"` | a statement that starts with another keyword is collected, keyword included, as `_parse_capsule` does | not executed | CapsuleParser.ParseStallExample | CapsuleParser.CorrectedStallExample |
| trion_runtime.py:283-286 | `bytes_to_base12_scaled` pads a short spelling with `scale + 1 - len(s)` zeros after `0.`, which gives `scale + 1` fraction digits | `b"\x01"` with scale 1 gives `0.01`, which reads back with scale 2 | pad to exactly `scale` fraction digits (`0.1`), so that reading back gives the same scale | not executed | RuntimeCodec.AsWrittenScaleOff | RuntimeCodec.ScaledRoundTrip |
| dodecagram.py:9-11 | `while n:` with `n //= 12` never reaches zero for a negative `n`, since `-1 // 12` is `-1` | `to_base12(-1)` | a negative number is spelt with a sign, as `compiler.py`'s `to_base12` does | not executed | Dodecagram.NegativeNeverEnds | Dodecagram.SignedRoundTrip |
