/** Worked inputs for `reIndent`: what the first-line rule keeps and what
    it cuts. Each input is a parameter fixed by its `requires`, and each
    step on the literal lines is a lemma of its own, so that the verifier
    does not unfold the whole computation at once. */
module CodeBlockCases {

  import opened JsStrings
  import opened Lines
  import opened CodeBlock

  lemma TwoSpaceLine()
    ensures HasContent("  a") && LeadingWSLength("  a") == 2
  {
    var line := "  a";
    assert IsWS(line[0]) && IsWS(line[1]) && !IsWS(line[2]);
  }

  lemma FourSpaceLine()
    ensures HasContent("    a") && LeadingWSLength("    a") == 4
  {
    var line := "    a";
    assert IsWS(line[0]) && IsWS(line[1]) && IsWS(line[2]) && IsWS(line[3]) && !IsWS(line[4]);
  }

  lemma RelativeIndentLines()
    ensures Join(DedentLines(["  a", "    b", "  c"], 2)) == "a\n  b\nc"
  {
    assert DedentLines(["  a", "    b", "  c"], 2) == ["a", "  b", "c"];
  }

  lemma TrimmedOutputs()
    ensures Trim("a\n  b\nc") == "a\n  b\nc"
    ensures Trim("a\nd") == "a\nd"
    ensures Trim("a\n  \nb") == "a\n  \nb"
  {
    TrimTrimmed("a\n  b\nc");
    TrimTrimmed("a\nd");
    TrimTrimmed("a\n  \nb");
  }

  /** Relative indentation under the first line with content survives:
      the first line sets a width of two, which every line has. */
  lemma KeepsRelativeIndent(code: string)
    requires code == "  a\n    b\n  c"
    ensures ReIndent(code) == "a\n  b\nc"
  {
    var lines := ["  a", "    b", "  c"];
    TwoSpaceLine();
    assert Join(lines) == code;
    ReIndentByLines(code, lines, 0, 2);
    RelativeIndentLines();
    TrimmedOutputs();
  }

  lemma CutContentLines()
    ensures Join(DedentLines(["    a", "  bcd"], 4)) == "a\nd"
  {
    assert DedentLines(["    a", "  bcd"], 4) == ["a", "d"];
  }

  /** The width is not the smallest indentation: a later line indented by
      two under a first line indented by four loses two characters that
      are not whitespace. */
  lemma CutsContent(code: string)
    requires code == "    a\n  bcd"
    ensures ReIndent(code) == "a\nd"
  {
    var lines := ["    a", "  bcd"];
    FourSpaceLine();
    assert Join(lines) == code;
    ReIndentByLines(code, lines, 0, 4);
    CutContentLines();
    TrimmedOutputs();
  }

  lemma ShortLineLines()
    ensures Join(DedentLines(["    a", "  ", "    b"], 4)) == "a\n  \nb"
  {
    assert DedentLines(["    a", "  ", "    b"], 4) == ["a", "  ", "b"];
  }

  /** A line shorter than the width is kept whole, whitespace and all. */
  lemma KeepsShortLine(code: string)
    requires code == "    a\n  \n    b"
    ensures ReIndent(code) == "a\n  \nb"
  {
    var lines := ["    a", "  ", "    b"];
    FourSpaceLine();
    assert Join(lines) == code;
    ReIndentByLines(code, lines, 0, 4);
    ShortLineLines();
    TrimmedOutputs();
  }

  lemma LeadingBlankLines()
    ensures Join(DedentLines(["", "  a", "    b"], 2)) == "\na\n  b"
  {
    assert DedentLines(["", "  a", "    b"], 2) == ["", "a", "  b"];
  }

  lemma TrimLeadingLineFeed(s: string)
    requires s == "\na\n  b"
    ensures Trim(s) == "a\n  b"
  {
    assert LeadingWSLength(s) == 1 by {
      assert IsWS(s[0]) && !IsWS(s[1]);
    }
    var t := s[1..];
    assert t == "a\n  b";
    assert TrailingWSLength(t) == 0 by {
      assert !IsWS(t[|t| - 1]);
    }
  }

  /** Blank lines before the first line with content do not set the width,
      and the final trim removes them. */
  lemma SkipsLeadingBlankLines(code: string)
    requires code == "\n  a\n    b"
    ensures ReIndent(code) == "a\n  b"
  {
    var lines := ["", "  a", "    b"];
    TwoSpaceLine();
    assert !HasContent(lines[0]);
    assert Join(lines) == code;
    ReIndentByLines(code, lines, 1, 2);
    LeadingBlankLines();
    TrimLeadingLineFeed("\na\n  b");
  }

}
