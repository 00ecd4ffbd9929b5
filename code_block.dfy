/** The `<code-block>` element: its indentation normaliser `reIndent` and
    the decisions `connectedCallback` takes before it writes the shadow
    tree (where the text comes from, whether anything is rendered, which
    highlighting language class the `<code>` element gets).

    `reIndent` does not strip the indentation common to all lines. It
    measures the whitespace prefix of the FIRST line that has content and
    cuts that many characters off the front of every line at least that
    long, whatever those characters are; shorter lines are kept whole. */
module CodeBlock {

  import opened Wrappers
  import opened JsStrings
  import opened Lines

  /** A line with content holds a character that is not whitespace. */
  predicate HasContent(line: string) {
    !AllWS(line)
  }

  /** `HasContent` is the test `line.trim() !== ''` passed to `find`. */
  lemma HasContentIsTrimTest(line: string)
    ensures HasContent(line) <==> Trim(line) != ""
  {
  }

  /** `lines.find(line => line.trim() !== '')`, given as the index of the
      line found: the first line with content, or none when every line is
      blank. */
  function FirstContentIndex(lines: seq<string>): (r: Option<nat>)
    ensures r.Some? ==> r.value < |lines| && HasContent(lines[r.value])
    ensures r.Some? ==> forall j :: 0 <= j < r.value ==> !HasContent(lines[j])
    ensures r.None? <==> forall j :: 0 <= j < |lines| ==> !HasContent(lines[j])
    decreases |lines|
  {
    if lines == [] then None
    else if HasContent(lines[0]) then Some(0)
    else
      var tail := lines[1..];
      assert forall j :: 0 < j < |lines| ==> lines[j] == tail[j - 1];
      match FirstContentIndex(tail)
      case None => None
      case Some(k) => Some(k + 1)
  }

  /** `line.length >= width ? line.substring(width) : line`: a suffix of
      the line, exactly `width` characters shorter when the line is long
      enough, the whole line otherwise. */
  function StripIndent(line: string, width: nat): (r: string)
    ensures |r| <= |line| && r == line[|line| - |r|..]
    ensures |line| >= width ==> |r| == |line| - width
    ensures |line| < width ==> r == line
  {
    if |line| >= width then line[width..] else line
  }

  /** `lines.map(...)` with `StripIndent` applied to every line: one output
      line per input line, in order. */
  function DedentLines(lines: seq<string>, width: nat): (r: seq<string>)
    ensures |r| == |lines|
    ensures forall i :: 0 <= i < |lines| ==> r[i] == StripIndent(lines[i], width)
    decreases |lines|
  {
    if lines == [] then []
    else [StripIndent(lines[0], width)] + DedentLines(lines[1..], width)
  }

  /** `CodeBlock.reIndent`. Whatever the input, the result neither starts
      nor ends with whitespace. */
  function ReIndent(code: string): (r: string)
    ensures Trimmed(r)
  {
    if code == "" then ""
    else
      var lines := Split(code);
      if |lines| <= 1 then Trim(code)
      else match FirstContentIndex(lines)
        case None => ""
        case Some(k) =>
          var width := LeadingWSLength(lines[k]);
          Trim(Join(DedentLines(lines, width)))
  }

  /** The empty string and any other single-line input come back trimmed
      and otherwise unchanged. */
  lemma ReIndentOneLine(code: string)
    requires '\n' !in code
    ensures ReIndent(code) == Trim(code)
    ensures code == "" ==> ReIndent(code) == ""
  {
  }

  /** An input of several lines that are all blank gives the empty string. */
  lemma ReIndentAllBlank(code: string)
    requires '\n' in code
    requires forall i :: 0 <= i < |Split(code)| ==> !HasContent(Split(code)[i])
    ensures ReIndent(code) == ""
  {
  }

  /** The indent width comes from the first line with content, and from no
      other line: before the final trim the result has exactly the input's
      lines, each one that is at least `width` long without its first
      `width` characters and each shorter one unchanged. */
  lemma ReIndentWidth(code: string, k: nat)
    requires '\n' in code
    requires k < |Split(code)| && HasContent(Split(code)[k])
    requires forall j :: 0 <= j < k ==> !HasContent(Split(code)[j])
    ensures var lines := Split(code);
      var width := LeadingWSLength(lines[k]);
      var dedented := DedentLines(lines, width);
      |dedented| == |lines| &&
      (forall i :: 0 <= i < |lines| && |lines[i]| >= width ==> dedented[i] == lines[i][width..]) &&
      (forall i :: 0 <= i < |lines| && |lines[i]| < width ==> dedented[i] == lines[i]) &&
      ReIndent(code) == Trim(Join(dedented))
  {
    var lines := Split(code);
    var r := FirstContentIndex(lines);
    assert r == Some(k);
  }

  /** A string is all whitespace exactly when its pieces around `'\n'`
      are (the line feed is whitespace itself). */
  lemma {:induction false} AllWSJoin(lines: seq<string>)
    ensures AllWS(Join(lines)) <==> forall i :: 0 <= i < |lines| ==> AllWS(lines[i])
    decreases |lines|
  {
    if |lines| > 1 {
      var tail := lines[1..];
      AllWSJoin(tail);
      var s := Join(lines);
      assert s == lines[0] + ("\n" + Join(tail));
      if AllWS(s) {
        assert forall k :: 0 <= k < |lines[0]| ==> s[k] == lines[0][k];
        assert forall k :: 0 <= k < |Join(tail)| ==> s[|lines[0]| + 1 + k] == Join(tail)[k];
        assert AllWS(Join(tail));
        forall i | 0 <= i < |lines| ensures AllWS(lines[i]) {
          if i > 0 {
            assert lines[i] == tail[i - 1];
          }
        }
      }
      if forall i :: 0 <= i < |lines| ==> AllWS(lines[i]) {
        assert AllWS(lines[0]);
        assert forall i :: 0 <= i < |tail| ==> AllWS(tail[i]) by {
          forall i | 0 <= i < |tail| ensures AllWS(tail[i]) {
            assert tail[i] == lines[i + 1];
          }
        }
        forall k | 0 <= k < |s| ensures IsWS(s[k]) {
          if k < |lines[0]| {
            assert s[k] == lines[0][k];
          } else if k > |lines[0]| {
            assert s[k] == Join(tail)[k - |lines[0]| - 1];
          }
        }
      }
    }
  }

  /** A line with content, cut by its own indentation, starts with a
      character that is not whitespace. */
  lemma OwnIndentCut(line: string)
    requires HasContent(line)
    ensures var cut := StripIndent(line, LeadingWSLength(line));
      cut != [] && !IsWS(cut[0])
  {
    var width := LeadingWSLength(line);
    assert width < |line|;
    assert StripIndent(line, width)[0] == line[width];
  }

  /** The first line with content keeps a character that is not
      whitespace, so the text joined before the final trim is not blank. */
  lemma {:induction false} DedentedNotBlank(lines: seq<string>, k: nat)
    requires k < |lines| && HasContent(lines[k])
    ensures !AllWS(Join(DedentLines(lines, LeadingWSLength(lines[k]))))
  {
    var dedented := DedentLines(lines, LeadingWSLength(lines[k]));
    OwnIndentCut(lines[k]);
    assert !AllWS(dedented[k]);
    AllWSJoin(dedented);
  }

  /** `reIndent` gives the empty string, so that nothing is rendered,
      exactly when the input is empty or consists of whitespace only. */
  lemma ReIndentEmptyIff(code: string)
    ensures ReIndent(code) == "" <==> AllWS(code)
  {
    if '\n' in code {
      var lines := Split(code);
      JoinSplit(code);
      AllWSJoin(lines);
      var first := FirstContentIndex(lines);
      if first.None? {
        ReIndentAllBlank(code);
      } else {
        var k := first.value;
        ReIndentWidth(code, k);
        DedentedNotBlank(lines, k);
      }
    } else {
      ReIndentOneLine(code);
    }
  }

  /** An input that already neither starts nor ends with whitespace is left
      as it is: its first line has content and no indentation, so the
      width is zero and nothing is cut. */
  lemma ReIndentFixpoint(code: string)
    requires Trimmed(code)
    ensures ReIndent(code) == code
  {
    if code != "" {
      var lines := Split(code);
      if |lines| <= 1 {
        TrimTrimmed(code);
      } else {
        FirstPieceStart(code);
        assert !IsWS(lines[0][0]);
        assert HasContent(lines[0]) by {
          assert !AllWS(lines[0]);
        }
        assert FirstContentIndex(lines) == Some(0);
        assert LeadingWSLength(lines[0]) == 0;
        var dedented := DedentLines(lines, 0);
        assert dedented == lines by {
          forall i | 0 <= i < |lines| ensures dedented[i] == lines[i] {
            assert lines[i][0..] == lines[i];
          }
        }
        JoinSplit(code);
        TrimTrimmed(code);
      }
    }
  }

  /** Normalising twice is normalising once. */
  lemma ReIndentIdempotent(code: string)
    ensures ReIndent(ReIndent(code)) == ReIndent(code)
  {
    ReIndentFixpoint(ReIndent(code));
  }

  /** `reIndent` computed from any cutting of the input into line-feed-free
      lines: those lines are exactly what `split` gives back. */
  lemma ReIndentByLines(code: string, lines: seq<string>, k: nat, width: nat)
    requires |lines| > 1 && Join(lines) == code
    requires forall i :: 0 <= i < |lines| ==> '\n' !in lines[i]
    requires k < |lines| && HasContent(lines[k])
    requires forall j :: 0 <= j < k ==> !HasContent(lines[j])
    requires width == LeadingWSLength(lines[k])
    ensures ReIndent(code) == Trim(Join(DedentLines(lines, width)))
  {
    SplitJoin(lines);
    ReIndentWidth(code, k);
  }

  /** What `connectedCallback` finds inside the host element: the
      `innerHTML` of a `<script type="text/template">` child, the
      `textContent` of a `<pre>` child, and the `language` attribute, each
      absent when the element or attribute is missing. */
  datatype Host = Host(template: Option<string>, pre: Option<string>, language: Option<string>)

  /** The outcome of `connectedCallback`: nothing written to the shadow
      root, or the normalised code together with the class string pasted,
      unescaped, into the `<code>` element's markup. */
  datatype Rendering = Nothing | Rendered(code: string, codeClass: string)

  /** The text handed to `reIndent`: the template when there is one, the
      `<pre>` text otherwise, and none when there is neither. */
  function SourceText(host: Host): (src: Option<string>)
    ensures src.Some? <==> host.template.Some? || host.pre.Some?
    ensures host.template.Some? ==> src == host.template
    ensures host.template.None? ==> src == host.pre
  {
    if host.template.Some? then host.template else host.pre
  }

  /** `this.getAttribute('language') || 'plaintext'`: a missing or empty
      attribute falls back to `plaintext`. */
  function LanguageName(attr: Option<string>): (name: string)
    ensures name != ""
    ensures attr.Some? && attr.value != "" ==> name == attr.value
    ensures attr.None? || attr.value == "" ==> name == "plaintext"
  {
    match attr
    case Some(v) => if v != "" then v else "plaintext"
    case None => "plaintext"
  }

  /** The branch decisions of `connectedCallback`. Something is rendered
      exactly when the preferred source exists and holds a character that
      is not whitespace; what is rendered is that source normalised. */
  function Connect(host: Host): (r: Rendering)
    ensures r.Rendered? <==>
      if host.template.Some? then !AllWS(host.template.value)
      else host.pre.Some? && !AllWS(host.pre.value)
    ensures r.Rendered? ==>
      r.code != "" && Trimmed(r.code) &&
      r.code == ReIndent(if host.template.Some? then host.template.value else host.pre.value)
    ensures r.Rendered? ==> r.codeClass == "language-" + LanguageName(host.language)
  {
    match SourceText(host)
    case None => Nothing
    case Some(text) =>
      var code := ReIndent(text);
      ReIndentEmptyIff(text);
      if code == "" then Nothing
      else Rendered(code, "language-" + LanguageName(host.language))
  }

  /** When a template exists the `<pre>` element plays no part. */
  lemma ConnectPrefersTemplate(host: Host, pre: Option<string>)
    requires host.template.Some?
    ensures Connect(host) == Connect(host.(pre := pre))
  {
  }

  /** Feeding the rendered text back in as a template renders the same. */
  lemma ConnectRenderedIsStable(host: Host)
    requires Connect(host).Rendered?
    ensures Connect(Host(Some(Connect(host).code), None, host.language)) == Connect(host)
  {
    var code := Connect(host).code;
    ReIndentFixpoint(code);
  }

}
