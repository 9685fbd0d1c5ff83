/** Texts as lines: splitting and joining them, and rewriting the bodies of some of them. */
module TextLines {
  import opened Wrappers
  import opened Text

  // A line and what ends it; only the last line of a text may have no end.
  datatype Line = Line(body: string, end: string)

  // The end of a line that starts at the front of the text: a carriage return and a newline count as one.
  function EndLength(text: string): (n: nat)
    ensures n <= |text| && (n == 0 <==> text == "" || !IsBreak(text[0]))
  {
    if text == "" || !IsBreak(text[0]) then 0
    else if |text| > 1 && text[0] == '\r' && text[1] == '\n' then 2
    else 1
  }

  predicate NotBreak(c: char) {
    !IsBreak(c)
  }

  // str.splitlines(keepends=True)
  function SplitLines(text: string): seq<Line>
    decreases |text|
  {
    if text == "" then []
    else
      var (body, rest) := Span(NotBreak, text);
      assert |text| == |body| + |rest|;
      assert rest != text || EndLength(rest) > 0;
      [Line(body, rest[..EndLength(rest)])] + SplitLines(rest[EndLength(rest)..])
  }

  function Join(lines: seq<Line>): string {
    if lines == [] then "" else lines[0].body + (lines[0].end + Join(lines[1..]))
  }

  predicate IsEnd(end: string) {
    end == "\r\n" || (|end| == 1 && IsBreak(end[0]))
  }

  // What splitting a text gives: bodies without breaks, ends that do not run into the next line, and no end only on a
  // last line that is not empty.
  predicate WellSplit(lines: seq<Line>) {
    lines == [] || (FirstOk(lines) && WellSplit(lines[1..]))
  }

  predicate FirstOk(lines: seq<Line>)
    requires lines != []
  {
    && All(NotBreak, lines[0].body)
    && (IsEnd(lines[0].end) || (lines[0].end == "" && |lines| == 1 && lines[0].body != ""))
    && (|lines| > 1 && lines[0].end == "\r" ==> lines[1] != Line("", "\n"))
  }

  lemma {:induction false} JoinSplit(text: string)
    ensures Join(SplitLines(text)) == text
    decreases |text|
  {
    if text != "" {
      var (body, rest) := Span(NotBreak, text);
      var n := EndLength(rest);
      JoinSplit(rest[n..]);
      assert rest == rest[..n] + rest[n..];
      assert SplitLines(text)[1..] == SplitLines(rest[n..]);
    }
  }

  lemma SplitNotBreak(body: string, rest: string)
    requires All(NotBreak, body) && (rest != "" ==> IsBreak(rest[0])) && body + rest != ""
    ensures SplitLines(body + rest) == [Line(body, rest[..EndLength(rest)])] + SplitLines(rest[EndLength(rest)..])
  {
    SpanIs(NotBreak, body, rest);
  }

  // The end of the first line does not run into what follows.
  lemma EndOfFirst(lines: seq<Line>)
    requires WellSplit(lines) && lines != []
    ensures var rest := lines[0].end + Join(lines[1..]);
            && EndLength(rest) == |lines[0].end|
            && rest[..|lines[0].end|] == lines[0].end && rest[|lines[0].end|..] == Join(lines[1..])
  {
    var end, tail := lines[0].end, lines[1..];
    if end == "" {
      assert tail == [];
    } else if tail != [] {
      assert tail[0].body == "" && tail[0].end != "" ==> Join(tail)[0] == tail[0].end[0];
      assert FirstOk(tail);
    }
  }

  lemma {:induction false} SplitJoin(lines: seq<Line>)
    requires WellSplit(lines)
    ensures SplitLines(Join(lines)) == lines
  {
    if lines != [] {
      SplitJoin(lines[1..]);
      EndOfFirst(lines);
      SplitNotBreak(lines[0].body, lines[0].end + Join(lines[1..]));
    }
  }

  lemma {:induction false} SplitIsWellSplit(text: string)
    ensures WellSplit(SplitLines(text))
    decreases |text|
  {
    if text != "" {
      var (body, rest) := Span(NotBreak, text);
      var n := EndLength(rest);
      SplitIsWellSplit(rest[n..]);
      var lines, tail := SplitLines(text), SplitLines(rest[n..]);
      assert lines[1..] == tail;
      if n == 0 {
        assert rest[n..] == "";
      } else if tail != [] {
        JoinSplit(rest[n..]);
        assert tail[0].body == "" && tail[0].end != "" ==> rest[n..][0] == tail[0].end[0];
      }
    }
  }

  // --- Rewriting ---

  // The new body of a line, for those that get one.
  type Edit = string -> Option<string>

  // The replacement keeps a newline, and no other end.
  function KeptEnd(end: string): string {
    if end != "" && Last(end) == '\n' then "\n" else ""
  }

  function Patch(line: Line, body: string): Line {
    Line(body, KeptEnd(line.end))
  }

  function Rewrite(edit: Edit, line: Line): Line {
    if edit(line.body).Some? then Patch(line, edit(line.body).value) else line
  }

  function RewriteAll(edit: Edit, lines: seq<Line>): (r: seq<Line>)
    ensures |r| == |lines|
  {
    seq(|lines|, k requires 0 <= k < |lines| => Rewrite(edit, lines[k]))
  }

  // Every body that gets a new one replaced, and everything else, ends included, as it was.
  function Ideal(edit: Edit, lines: seq<Line>): (r: seq<Line>)
    ensures |r| == |lines|
  {
    seq(|lines|, k requires 0 <= k < |lines| =>
      if edit(lines[k].body).Some? then Line(edit(lines[k].body).value, lines[k].end) else lines[k])
  }

  predicate NewlineOrNone(end: string) {
    end == "\n" || end == ""
  }

  // No rewritten line ends in anything but a newline.
  predicate Clean(edit: Edit, lines: seq<Line>) {
    forall k :: 0 <= k < |lines| && edit(lines[k].body).Some? ==> NewlineOrNone(lines[k].end)
  }

  lemma KeptEndLength(end: string)
    ensures |KeptEnd(end)| <= |end|
    ensures |KeptEnd(end)| == |end| <==> NewlineOrNone(end)
    ensures NewlineOrNone(end) ==> KeptEnd(end) == end
  {
  }

  lemma {:induction false} EndsDropped(edit: Edit, lines: seq<Line>)
    ensures var actual, ideal := Join(RewriteAll(edit, lines)), Join(Ideal(edit, lines));
            && |actual| <= |ideal|
            && (Clean(edit, lines) ==> actual == ideal)
            && (|actual| == |ideal| ==> Clean(edit, lines))
  {
    if lines != [] {
      var tail := lines[1..];
      EndsDropped(edit, tail);
      assert RewriteAll(edit, lines)[1..] == RewriteAll(edit, tail);
      assert Ideal(edit, lines)[1..] == Ideal(edit, tail);
      CleanStep(edit, lines);
      KeptEndLength(lines[0].end);
    }
  }

  lemma CleanStep(edit: Edit, lines: seq<Line>)
    requires lines != []
    ensures Clean(edit, lines) <==>
        Clean(edit, lines[1..]) && (edit(lines[0].body).Some? ==> NewlineOrNone(lines[0].end))
  {
    assert forall k :: 0 <= k < |lines[1..]| ==> lines[1..][k] == lines[k + 1];
  }

  // Rewriting gives the ideal text exactly when no rewritten line ends in anything but a newline.
  lemma RewriteIsIdealIff(edit: Edit, lines: seq<Line>)
    ensures Join(RewriteAll(edit, lines)) == Join(Ideal(edit, lines)) <==> Clean(edit, lines)
  {
    EndsDropped(edit, lines);
  }

  // The edit turns a body without breaks into another one that is not empty.
  ghost predicate Tame(edit: Edit) {
    forall body :: edit(body).Some? && All(NotBreak, body) ==> All(NotBreak, edit(body).value) && edit(body).value != ""
  }

  lemma {:induction false} RewriteKeepsSplit(edit: Edit, lines: seq<Line>)
    requires Tame(edit) && WellSplit(lines) && Clean(edit, lines)
    ensures WellSplit(RewriteAll(edit, lines))
  {
    if lines != [] {
      var after := RewriteAll(edit, lines);
      CleanStep(edit, lines);
      RewriteKeepsSplit(edit, lines[1..]);
      assert after[1..] == RewriteAll(edit, lines[1..]);
      KeptEndLength(lines[0].end);
      assert after[0].end == lines[0].end;
      if |lines| > 1 {
        assert after[1] == Rewrite(edit, lines[1]) && FirstOk(lines[1..]);
      }
    }
  }

  // Then the rewritten text splits into the rewritten lines.
  lemma RewrittenLines(edit: Edit, text: string)
    requires Tame(edit) && Clean(edit, SplitLines(text))
    ensures SplitLines(Join(RewriteAll(edit, SplitLines(text)))) == RewriteAll(edit, SplitLines(text))
  {
    SplitIsWellSplit(text);
    RewriteKeepsSplit(edit, SplitLines(text));
    SplitJoin(RewriteAll(edit, SplitLines(text)));
  }

  lemma TwoLines(body: string, end: char, rest: string)
    requires All(NotBreak, body) && All(NotBreak, rest) && rest != "" && IsBreak(end)
    ensures SplitLines(body + ([end] + rest)) == [Line(body, [end]), Line(rest, "")]
  {
    var tail := [end] + rest;
    SplitNotBreak(body, tail);
    assert rest + "" == rest;
    SplitNotBreak(rest, "");
    assert tail[1] == rest[0] && !IsBreak(rest[0]);
    assert tail[..1] == [end] && tail[1..] == rest;
  }

  // The characters that end a line: newline, vertical tab, form feed, carriage return, the three separators, next line,
  // and the Unicode line and paragraph separators.
  lemma BreaksSplit(c: char)
    ensures |SplitLines("a" + ([c] + "b"))| == 2 <==>
            c in {'\n', '\U{0B}', '\U{0C}', '\r', '\U{1C}', '\U{1D}', '\U{1E}', '\U{85}', '\U{2028}', '\U{2029}'}
    ensures c !in {'\n', '\U{0B}', '\U{0C}', '\r', '\U{1C}', '\U{1D}', '\U{1E}', '\U{85}', '\U{2028}', '\U{2029}'} ==>
              SplitLines("a" + ([c] + "b")) == [Line("a" + ([c] + "b"), "")]
  {
    if IsBreak(c) {
      TwoLines("a", c, "b");
    } else {
      OneLine("a" + ([c] + "b"));
    }
  }

  lemma OneLine(body: string)
    requires All(NotBreak, body) && body != ""
    ensures SplitLines(body) == [Line(body, "")] && Join([Line(body, "")]) == body
  {
    assert body + "" == body;
    SplitNotBreak(body, "");
    JoinSplit(body);
  }

  // Any other end of a rewritten line is swallowed, and the next line is glued to it.
  lemma EndSwallowed(edit: Edit, body: string, end: char, rest: string)
    requires All(NotBreak, body) && All(NotBreak, rest) && rest != "" && IsBreak(end) && end != '\n'
    requires edit(body).Some? && All(NotBreak, edit(body).value) && edit(rest).None?
    ensures var text := body + ([end] + rest);
            && SplitLines(text) == [Line(body, [end]), Line(rest, "")]
            && SplitLines(Join(RewriteAll(edit, SplitLines(text)))) == [Line(edit(body).value + rest, "")]
  {
    TwoLines(body, end, rest);
    OneLine(rest);
    OneLine(edit(body).value + rest);
    var rewritten := RewriteAll(edit, SplitLines(body + ([end] + rest)));
    assert rewritten[0] == Line(edit(body).value, "") && rewritten[1..] == [Line(rest, "")];
    assert "" + rest == rest;
    assert Join(rewritten) == edit(body).value + rest;
  }
}
