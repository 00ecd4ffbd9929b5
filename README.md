# code-block: a Dafny model of the indentation normaliser

A Dafny model of the `<code-block>` custom element's text handling. The
element takes the source text nested inside it, normalises its indentation
with `reIndent`, and shows the result in a highlighted `<code>` element. The
model covers three things:

- `reIndent`, which is pure string processing;
- the JavaScript built-ins it relies on: `trim`, the `^\s*` match,
  `split('\n')` and `join('\n')`;
- the decisions `connectedCallback` takes before it writes anything:
  - which source text is used;
  - whether anything is rendered;
  - which `language-…` class the `<code>` element gets.

Files:

- `wrappers.dfy`: `Option`, for the source's `undefined` and `null` results.
- `js_strings.dfy` (module `JsStrings`): ECMAScript whitespace, the
  length of the leading-whitespace match, and `trim`.
- `lines.dfy` (module `Lines`): `split` and `join` on line feeds, proved
  to be inverse to each other.
- `code_block.dfy` (module `CodeBlock`): `reIndent`, its properties, and the
  `connectedCallback` decisions.
- `code_block_cases.dfy` (module `CodeBlockCases`): worked inputs that
  show what the first-line rule keeps and what it cuts.

What `reIndent` actually does (components/code-block.js:5-13):

- The empty string gives the empty string.
- Input without a line feed gives the input trimmed.
- If every line is blank, the result is empty.
- Otherwise the indent width is the length of the leading-whitespace run
  of the FIRST line that has content. No other line is looked at.
- Every line at least that long loses that many leading characters,
  whitespace or not. Shorter lines are kept whole.
- The lines are joined again and the whole text is trimmed.

The variable name `minIndent` (components/code-block.js:11) suggests a
minimum over all lines, that is, removing the leading whitespace common to
all non-blank lines. The code does something else, and this model follows
the code. `CodeBlockCases.CutsContent` shows the difference: on
`"    a\n  bcd"` the second line `"  bcd"` loses its first four characters
`"  bc"`, two of them visible, and becomes `"d"`.

Whitespace is one predicate, `JsStrings.IsWS`. It holds for the ECMAScript
WhiteSpace and LineTerminator code points, which are the set `trim` strips
and the set `\s` matches.

## Model

| member | source | states |
|---|---|---|
| `JsStrings.IsWS` | components/code-block.js:8-11 | the whitespace class shared by `trim` and `\s` (ECMAScript WhiteSpace and LineTerminator); every member is a single UTF-16 code unit, so counting them in code units or in characters gives the same indent width |
| `JsStrings.LeadingWSLength` | components/code-block.js:11 | the length of the `^\s*` match: every character before it is whitespace, and the character at it (if any) is not |
| `JsStrings.TrailingWSLength` | components/code-block.js:8 | the length of the longest whitespace suffix: every character in it is whitespace, and the one before it (if any) is not |
| `JsStrings.Trim` | components/code-block.js:8 | `trim` returns the part of the string between its whitespace prefix and its whitespace suffix; the result neither starts nor ends with whitespace; it is empty exactly when the input is all whitespace |
| `JsStrings.TrimTrimmed` | components/code-block.js:8 | `trim` leaves a string unchanged when it neither starts nor ends with whitespace |
| `JsStrings.TrimIdempotent` | components/code-block.js:8 | trimming twice is trimming once |
| `Lines.NewlineCount` | components/code-block.js:7 | counts line feeds; the count is zero exactly when there is no line feed |
| `Lines.Split` | components/code-block.js:7 | `split('\n')` returns one more piece than there are line feeds, and no piece contains a line feed |
| `Lines.Join` | components/code-block.js:12 | `join('\n')`: one line feed between each two pieces, so the result has at least as many characters as there are separators (one fewer than the pieces); `JoinSplit` and `SplitJoin` prove it inverse to `Split` |
| `Lines.FirstPieceStart` | components/code-block.js:7 | when the text does not start with a line feed, the first piece starts with the text's first character |
| `Lines.JoinSplit` | components/code-block.js:7-12 | `join('\n')` undoes `split('\n')` for every string |
| `Lines.SplitPrefix` | components/code-block.js:7 | putting a prefix without line feeds in front of a string only extends the string's first piece |
| `Lines.SplitJoin` | components/code-block.js:7-12 | `split('\n')` undoes `join('\n')` for every non-empty list of pieces that contain no line feed |
| `CodeBlock.HasContentIsTrimTest` | components/code-block.js:9 | a line has content (holds a non-whitespace character) exactly when `line.trim() !== ''` |
| `CodeBlock.FirstContentIndex` | components/code-block.js:9-10 | `find` returns the first line with content, every earlier line being blank; it finds nothing exactly when every line is blank |
| `CodeBlock.StripIndent` | components/code-block.js:12 | a line at least `width` long becomes its suffix exactly `width` characters shorter; a shorter line is unchanged |
| `CodeBlock.DedentLines` | components/code-block.js:12 | the `map` yields one line per input line, in order, each one the input line with `StripIndent` applied |
| `CodeBlock.ReIndent` | components/code-block.js:5-13 | the normalised text never starts or ends with whitespace |
| `CodeBlock.ReIndentOneLine` | components/code-block.js:6-8 | the empty input gives the empty string; input without a line feed gives exactly the trimmed input |
| `CodeBlock.ReIndentAllBlank` | components/code-block.js:9-10 | input of several lines that are all blank gives the empty string |
| `CodeBlock.ReIndentWidth` | components/code-block.js:7-12 | the width is the leading-whitespace length of the first line with content. Before the final trim the result has exactly the input's lines. Each line at least `width` long loses its first `width` characters, whatever they are; shorter lines are unchanged |
| `CodeBlock.AllWSJoin` | components/code-block.js:12 | text joined on line feeds is all whitespace exactly when every piece is |
| `CodeBlock.OwnIndentCut` | components/code-block.js:11-12 | a line with content, cut by the length of its own `^\s*` match, is non-empty and starts with a non-whitespace character |
| `CodeBlock.DedentedNotBlank` | components/code-block.js:11-12 | the first line with content keeps a non-whitespace character after its indent is cut, so the joined text is not blank |
| `CodeBlock.ReIndentEmptyIff` | components/code-block.js:6-12 | the result is empty exactly when the input is empty or all whitespace |
| `CodeBlock.ReIndentByLines` | components/code-block.js:7-12 | for any cut of the input into lines without line feeds, the result is the dedent of those lines by the first content line's indent, joined and trimmed |
| `CodeBlock.ReIndentFixpoint` | components/code-block.js:8-12 | text that neither starts nor ends with whitespace comes back unchanged: its first line has content and no indent, so the width is zero |
| `CodeBlock.ReIndentIdempotent` | components/code-block.js:5-13 | normalising twice is normalising once |
| `CodeBlock.SourceText` | components/code-block.js:15-22 | the template's text when a template exists, else the `<pre>` text, and nothing when there is neither; `Connect`'s first ensures states the rendering consequence |
| `CodeBlock.LanguageName` | components/code-block.js:39 | the language is the `language` attribute's value when it is present and not empty, and `plaintext` otherwise; it is never empty |
| `CodeBlock.Connect` | components/code-block.js:15-24 | something is rendered exactly when the preferred source (the template if it exists, else the `<pre>` text) exists and is not all whitespace. The rendered code is that source normalised; it is not empty and is trimmed. The class is `language-` followed by the language name |
| `CodeBlock.ConnectPrefersTemplate` | components/code-block.js:15-22 | when a template exists, the `<pre>` element does not affect the outcome |
| `CodeBlock.ConnectRenderedIsStable` | components/code-block.js:15-24 | feeding the rendered code back in as a template renders the same code with the same class |
| `CodeBlockCases.KeepsRelativeIndent` | components/code-block.js:5-13 | `"  a\n    b\n  c"` gives `"a\n  b\nc"`: indentation relative to the first line survives |
| `CodeBlockCases.CutsContent` | components/code-block.js:11-12 | `"    a\n  bcd"` gives `"a\nd"`: a less-indented later line loses visible characters |
| `CodeBlockCases.KeepsShortLine` | components/code-block.js:12 | `"    a\n  \n    b"` gives `"a\n  \nb"`: a line shorter than the width is kept whole |
| `CodeBlockCases.SkipsLeadingBlankLines` | components/code-block.js:9-12 | `"\n  a\n    b"` gives `"a\n  b"`: a leading blank line does not set the width, and the final trim removes it |

## Left out

- components/kinetic-background.js is not modelled. It covers WebGL scene construction, random float positions, float camera easing, time-based rotation, and the animation-frame and listener lifecycle. That is floating point, rendering and platform plumbing, with no discrete logic to state.
- The copy button (components/code-block.js:47-56) is not modelled. It is an asynchronous clipboard write, a 2000 ms timer and console logging.
- Shadow-root construction, the stylesheet and `hljs.highlightElement` (components/code-block.js:4, 26-45) are not modelled. They are DOM writes and a call into an external highlighter. `Connect` returns the code text and the class string that the markup template is built with.
- `customElements.define` (components/code-block.js:59) is not modelled. It is a global browser side effect.
- eslint.config.js is lint configuration and is not modelled.
- `CodeBlock.Connect`: `codeClass` is the string pasted into the markup at components/code-block.js:39, not the class the HTML parser produces from it. The source does not escape the attribute value, so a value holding `"` or a character reference yields a different class (and possibly extra markup) once assigned to `innerHTML` at components/code-block.js:26. HTML parsing and markup injection are outside the model.
- The host element's contents arrive as strings. `querySelector`, `innerHTML` markup serialisation and `textContent` are browser work. A template's raw markup and a `<pre>` element's decoded text are both taken as given.
- The input to `reIndent` is always a string. The `!codeString` test also catches `null` and `undefined`, which the callers in this file never pass.
- JavaScript lengths and `substring` count UTF-16 code units, but a Dafny `char` is a whole code point. A character outside the Basic Multilingual Plane counts as one here and two there. Every whitespace character is a single unit, so the width is the same in both. A later line whose first `width` units include such a character would be cut differently.
