/** `String.prototype.split('\n')` and `Array.prototype.join('\n')`: a
    string cut into the pieces between its line feeds, and the pieces glued
    back together. Splitting never loses a piece: `n` line feeds give
    `n + 1` pieces, empty ones included, so `Join` undoes `Split` and
    `Split` undoes `Join`. */
module Lines {

  /** Number of line feeds in `s`. */
  function NewlineCount(s: string): (n: nat)
    ensures n <= |s|
    ensures n == 0 <==> '\n' !in s
    decreases |s|
  {
    if s == [] then 0
    else
      var rest := NewlineCount(s[1..]);
      assert s == [s[0]] + s[1..];
      (if s[0] == '\n' then 1 else 0) + rest
  }

  /** `s.split('\n')`. */
  function Split(s: string): (lines: seq<string>)
    ensures |lines| == NewlineCount(s) + 1
    ensures forall i :: 0 <= i < |lines| ==> '\n' !in lines[i]
    decreases |s|
  {
    if s == [] then [""]
    else
      var rest := Split(s[1..]);
      if s[0] == '\n' then [""] + rest
      else [[s[0]] + rest[0]] + rest[1..]
  }

  /** `lines.join('\n')`: one line feed between each two pieces, so the
      result has at least as many characters as there are separators. */
  function Join(lines: seq<string>): (s: string)
    ensures |s| + 1 >= |lines|
    decreases |lines|
  {
    if lines == [] then ""
    else if |lines| == 1 then lines[0]
    else lines[0] + "\n" + Join(lines[1..])
  }

  /** The first piece of a string that does not start with a line feed
      starts with the string's first character. */
  lemma FirstPieceStart(s: string)
    requires s != [] && s[0] != '\n'
    ensures Split(s)[0] != [] && Split(s)[0][0] == s[0]
  {
  }

  /** `s.split('\n').join('\n') == s`. */
  lemma {:induction false} JoinSplit(s: string)
    ensures Join(Split(s)) == s
    decreases |s|
  {
    if s != [] {
      var rest := Split(s[1..]);
      JoinSplit(s[1..]);
      assert s == [s[0]] + s[1..];
      if s[0] != '\n' && |rest| > 1 {
        assert Join(rest) == rest[0] + "\n" + Join(rest[1..]);
      }
    }
  }

  /** Splitting a line-feed-free prefix `a` onto the front of `b` only
      extends the first piece of `b`. */
  lemma {:induction false} SplitPrefix(a: string, b: string)
    requires '\n' !in a
    ensures Split(a + b) == [a + Split(b)[0]] + Split(b)[1..]
    decreases |a|
  {
    if a != [] {
      assert (a + b)[1..] == a[1..] + b;
      assert (a + b)[0] == a[0];
      SplitPrefix(a[1..], b);
      assert [a[0]] + (a[1..] + Split(b)[0]) == a + Split(b)[0];
    } else {
      assert a + b == b && a + Split(b)[0] == Split(b)[0];
    }
  }

  /** Joining pieces that contain no line feed and splitting the result
      gives the pieces back. */
  lemma {:induction false} SplitJoin(lines: seq<string>)
    requires |lines| >= 1
    requires forall i :: 0 <= i < |lines| ==> '\n' !in lines[i]
    ensures Split(Join(lines)) == lines
    decreases |lines|
  {
    if |lines| == 1 {
      SplitPrefix(lines[0], "");
      assert lines[0] + "" == lines[0];
    } else {
      var tail := lines[1..];
      SplitJoin(tail);
      SplitPrefix(lines[0], "\n" + Join(tail));
      assert lines[0] + "\n" + Join(tail) == lines[0] + ("\n" + Join(tail));
      assert ("\n" + Join(tail))[1..] == Join(tail);
      assert lines[0] + "" == lines[0];
      assert lines == [lines[0]] + tail;
    }
  }

}
