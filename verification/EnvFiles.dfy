/** KEY=VALUE files: reading, writing, setting one assignment, and merging a template in. */
module EnvFiles {
  import opened Wrappers
  import opened Text
  import opened TextLines

  // A dictionary in the order its keys were first set.
  type Assignments = seq<(string, string)>

  predicate KeysDistinct(values: Assignments) {
    forall i, j :: 0 <= i < j < |values| ==> values[i].0 != values[j].0
  }

  predicate Has(values: Assignments, key: string) {
    exists i :: 0 <= i < |values| && values[i].0 == key
  }

  function Lookup(values: Assignments, key: string): (r: Option<string>)
    ensures r.Some? <==> Has(values, key)
    ensures r.Some? ==> (key, r.value) in values
  {
    if values == [] then None
    else if values[0].0 == key then Some(values[0].1)
    else
      assert forall i :: 0 < i < |values| ==> values[i] == values[1..][i - 1];
      Lookup(values[1..], key)
  }

  // values[key] = value
  function Put(values: Assignments, key: string, value: string): (r: Assignments)
    ensures |values| <= |r| <= |values| + 1 && (|r| == |values| <==> Has(values, key))
    ensures forall i :: 0 <= i < |values| ==> r[i] == if values[i].0 == key then (key, value) else values[i]
    ensures |r| > |values| ==> Last(r) == (key, value)
  {
    seq(|values|, i requires 0 <= i < |values| => if values[i].0 == key then (key, value) else values[i])
    + if Has(values, key) then [] else [(key, value)]
  }

  // --- Reading ---

  predicate NotEquals(c: char) {
    c != '='
  }

  // The assignment on a line, split at the first equals sign.
  function Assignment(body: string): Option<(string, string)> {
    var (key, tail) := Span(NotEquals, body);
    if body == "" || body[0] == '#' || tail == "" then None else Some((key, tail[1..]))
  }

  function ReadLines(lines: seq<Line>): Assignments {
    if lines == [] then []
    else
      var values, pair := ReadLines(Front(lines)), Assignment(Last(lines).body);
      if pair.Some? then Put(values, pair.value.0, pair.value.1) else values
  }

  // A file that is not there reads as empty.
  function Read(text: Option<string>): Assignments {
    if text.Some? then ReadLines(SplitLines(text.value)) else []
  }

  // --- What any text means ---

  // A line gives the pair around its first equals sign, unless it starts a comment.
  lemma AssignmentIff(body: string, key: string, value: string)
    ensures Assignment(body) == Some((key, value)) <==>
            body == key + ("=" + value) && '=' !in key && (key != "" ==> key[0] != '#')
  {
    if body == key + ("=" + value) && '=' !in key {
      SpanIs(NotEquals, key, "=" + value);
      assert ("=" + value)[1..] == value;
    }
  }

  predicate Assigns(line: Line, key: string) {
    Assignment(line.body).Some? && Assignment(line.body).value.0 == key
  }

  // The value of the last line that assigns the key, whether a newline ends that line or not.
  function LastAssigned(lines: seq<Line>, key: string): Option<string> {
    if lines == [] then None
    else if Assigns(Last(lines), key) then Some(Assignment(Last(lines).body).value.1)
    else LastAssigned(Front(lines), key)
  }

  lemma {:induction false} LastAssignmentCounts(lines: seq<Line>, key: string)
    ensures KeysDistinct(ReadLines(lines)) && Lookup(ReadLines(lines), key) == LastAssigned(lines, key)
  {
    if lines != [] {
      LastAssignmentCounts(Front(lines), key);
      var pair := Assignment(Last(lines).body);
      if pair.Some? {
        PutKeeps(ReadLines(Front(lines)), pair.value.0, pair.value.1);
        PutLookup(ReadLines(Front(lines)), pair.value.0, pair.value.1);
      }
    }
  }

  // The keys stand in the order of their first assignments.
  lemma {:induction false} FirstAssignmentsInOrder(lines: seq<Line>, i: nat, j: nat)
    requires i < j < |ReadLines(lines)|
    ensures exists n :: 0 <= n <= |lines| && LastAssigned(lines[..n], ReadLines(lines)[i].0).Some?
              && LastAssigned(lines[..n], ReadLines(lines)[j].0).None?
  {
    var values, before := ReadLines(lines), ReadLines(Front(lines));
    if j < |before| {
      FirstAssignmentsInOrder(Front(lines), i, j);
      var n :| 0 <= n <= |Front(lines)| && LastAssigned(Front(lines)[..n], before[i].0).Some?
               && LastAssigned(Front(lines)[..n], before[j].0).None?;
      assert Front(lines)[..n] == lines[..n] && before[i].0 == values[i].0 && before[j].0 == values[j].0;
    } else {
      LastAssignmentCounts(lines, values[j].0);
      LastAssignmentCounts(Front(lines), values[i].0);
      LastAssignmentCounts(Front(lines), values[j].0);
      assert before[i].0 == values[i].0 && lines[..|lines| - 1] == Front(lines);
    }
  }

  // --- Writing ---

  function PrintLines(values: Assignments): (r: seq<Line>)
    ensures |r| == |values|
  {
    seq(|values|, i requires 0 <= i < |values| => Line(values[i].0 + ("=" + values[i].1), "\n"))
  }

  function Write(values: Assignments): string {
    if values == [] then "\n" else Join(PrintLines(values))
  }

  // What a line can carry: a key without equals sign or break that does not start a comment, and a value without break.
  predicate Carries(key: string, value: string) {
    All(NotEquals, key) && All(NotBreak, key) && All(NotBreak, value) && (key != "" ==> key[0] != '#')
  }

  predicate AllCarry(values: Assignments) {
    forall i :: 0 <= i < |values| ==> Carries(values[i].0, values[i].1)
  }

  // --- Round trip ---

  lemma AssignmentOfPrinted(key: string, value: string)
    requires Carries(key, value)
    ensures Assignment(key + ("=" + value)) == Some((key, value))
    ensures All(NotBreak, key + ("=" + value))
  {
    SpanIs(NotEquals, key, "=" + value);
    assert ("=" + value)[1..] == value;
    var body := key + ("=" + value);
    assert forall i :: 0 <= i < |body| ==>
        body[i] == if i < |key| then key[i] else if i == |key| then '=' else value[i - |key| - 1];
  }

  lemma AssignmentCarries(body: string)
    requires All(NotBreak, body) && Assignment(body).Some?
    ensures Carries(Assignment(body).value.0, Assignment(body).value.1)
  {
    var (key, tail) := Span(NotEquals, body);
    assert body == key + tail;
    assert forall i :: 0 <= i < |key| ==> key[i] == body[i];
    assert forall i :: 0 <= i < |tail[1..]| ==> tail[1..][i] == body[|key| + 1 + i];
  }

  lemma PutKeeps(values: Assignments, key: string, value: string)
    requires KeysDistinct(values)
    ensures KeysDistinct(Put(values, key, value))
    ensures AllCarry(values) && Carries(key, value) ==> AllCarry(Put(values, key, value))
  {
    var after := Put(values, key, value);
    forall i, j | 0 <= i < j < |after| ensures after[i].0 != after[j].0 {
      assert j == |values| ==> values[i].0 != key;
    }
  }

  lemma {:induction false} ReadLinesCarries(lines: seq<Line>)
    requires forall k :: 0 <= k < |lines| ==> All(NotBreak, lines[k].body)
    ensures KeysDistinct(ReadLines(lines)) && AllCarry(ReadLines(lines))
  {
    if lines != [] {
      ReadLinesCarries(Front(lines));
      var pair := Assignment(Last(lines).body);
      if pair.Some? {
        AssignmentCarries(Last(lines).body);
        PutKeeps(ReadLines(Front(lines)), pair.value.0, pair.value.1);
      }
    }
  }

  lemma {:induction false} BodiesHaveNoBreak(lines: seq<Line>)
    requires WellSplit(lines)
    ensures forall k :: 0 <= k < |lines| ==> All(NotBreak, lines[k].body)
  {
    if lines != [] {
      BodiesHaveNoBreak(lines[1..]);
      assert forall k :: 0 < k < |lines| ==> lines[k] == lines[1..][k - 1];
    }
  }

  // Whatever was read can be written.
  lemma {:induction false} ReadCarries(text: Option<string>)
    ensures KeysDistinct(Read(text)) && AllCarry(Read(text))
  {
    if text.Some? {
      SplitIsWellSplit(text.value);
      BodiesHaveNoBreak(SplitLines(text.value));
      ReadLinesCarries(SplitLines(text.value));
    }
  }

  lemma {:induction false} PrintedIsWellSplit(values: Assignments)
    requires AllCarry(values)
    ensures WellSplit(PrintLines(values))
  {
    if values != [] {
      PrintedIsWellSplit(values[1..]);
      assert PrintLines(values)[1..] == PrintLines(values[1..]);
      AssignmentOfPrinted(values[0].0, values[0].1);
    }
  }

  lemma {:induction false} ReadPrinted(values: Assignments)
    requires KeysDistinct(values) && AllCarry(values)
    ensures ReadLines(PrintLines(values)) == values
  {
    if values != [] {
      ReadPrinted(Front(values));
      var pair := Last(values);
      AssignmentOfPrinted(pair.0, pair.1);
      assert Front(PrintLines(values)) == PrintLines(Front(values));
      assert !Has(Front(values), pair.0);
      assert Put(Front(values), pair.0, pair.1) == Front(values) + [pair] == values;
    }
  }

  // Writing a dictionary and reading it back gives the same dictionary exactly when every line can carry its pair.
  lemma {:induction false} RoundTripIff(values: Assignments)
    requires KeysDistinct(values)
    ensures Read(Some(Write(values))) == values <==> AllCarry(values)
  {
    ReadCarries(Some(Write(values)));
    if AllCarry(values) {
      if values == [] {
        SplitNotBreak("", "\n");
        assert "" + "\n" == "\n" && "\n"[..1] == "\n" && "\n"[1..] == "" && Front([Line("", "\n")]) == [];
      } else {
        PrintedIsWellSplit(values);
        SplitJoin(PrintLines(values));
        ReadPrinted(values);
      }
    }
  }

  lemma LookupInside(values: Assignments, key: string, value: string)
    requires KeysDistinct(values) && (key, value) in values
    ensures Lookup(values, key) == Some(value)
  {
    var i :| 0 <= i < |values| && values[i] == (key, value);
    var j :| 0 <= j < |values| && values[j] == (key, Lookup(values, key).value);
  }

  // --- Setting and merging ---

  // Setting an assignment reads back as that assignment and every other one as it was, in the same order, exactly when
  // a line can carry the new pair.
  lemma {:induction false} SetReadsBackIff(text: Option<string>, key: string, value: string)
    ensures var before := Read(text); var after := Read(Some(Write(Put(before, key, value))));
            && (after == Put(before, key, value) <==> Carries(key, value))
            && (Carries(key, value) ==> Lookup(after, key) == Some(value))
            && (Carries(key, value) ==> forall other :: other != key ==> Lookup(after, other) == Lookup(before, other))
  {
    var before := Read(text);
    ReadCarries(text);
    PutKeeps(before, key, value);
    var after := Put(before, key, value);
    RoundTripIff(after);
    PutLookup(before, key, value);
    assert (key, value) in after by {
      if Has(before, key) {
        var i :| 0 <= i < |before| && before[i].0 == key;
        assert after[i] == (key, value);
      } else {
        assert Last(after) == (key, value);
      }
    }
    assert AllCarry(after) ==> Carries(key, value) by {
      var i :| 0 <= i < |after| && after[i] == (key, value);
    }
  }

  lemma PutLookup(values: Assignments, key: string, value: string)
    requires KeysDistinct(values)
    ensures var after := Put(values, key, value);
            && Lookup(after, key) == Some(value)
            && forall other :: other != key ==> Lookup(after, other) == Lookup(values, other)
  {
    var after := Put(values, key, value);
    PutKeeps(values, key, value);
    if Has(values, key) {
      var i :| 0 <= i < |values| && values[i].0 == key;
      assert after[i] == (key, value);
    } else {
      assert Last(after) == (key, value);
    }
    LookupInside(after, key, value);
    forall other | other != key ensures Lookup(after, other) == Lookup(values, other) {
      if Has(values, other) {
        var i :| 0 <= i < |values| && values[i] == (other, Lookup(values, other).value);
        assert after[i] == values[i];
        LookupInside(after, other, Lookup(values, other).value);
      } else {
        assert !Has(after, other);
      }
    }
  }

  // The template's assignments whose keys the target lacks, in the template's order.
  function Missing(target: Assignments, template: Assignments): Assignments {
    if template == [] then []
    else Missing(target, Front(template)) + if Has(target, Last(template).0) then [] else [Last(template)]
  }

  function Keys(values: Assignments): (r: seq<string>)
    ensures |r| == |values|
  {
    seq(|values|, i requires 0 <= i < |values| => values[i].0)
  }

  lemma {:induction false} MissingIs(target: Assignments, template: Assignments)
    ensures forall pair :: pair in Missing(target, template) <==> pair in template && !Has(target, pair.0)
  {
    if template != [] {
      MissingIs(target, Front(template));
      assert template == Front(template) + [Last(template)];
    }
  }

  lemma {:induction false} MissingExtends(target: Assignments, template: Assignments)
    requires KeysDistinct(target) && AllCarry(target) && KeysDistinct(template) && AllCarry(template)
    ensures KeysDistinct(target + Missing(target, template)) && AllCarry(target + Missing(target, template))
    ensures forall key :: Has(target + Missing(target, template), key) <==> Has(target, key) || Has(template, key)
  {
    if template == [] {
      assert target + [] == target;
    } else {
      MissingExtends(target, Front(template));
      var pair := Last(template);
      var before, after := target + Missing(target, Front(template)), target + Missing(target, template);
      assert forall key :: Has(template, key) <==> Has(Front(template), key) || key == pair.0 by {
        assert template == Front(template) + [pair];
      }
      if !Has(target, pair.0) {
        assert after == before + [pair] && Last(after) == pair;
        assert !Has(before, pair.0);
        assert forall i :: 0 <= i < |before| ==> after[i] == before[i];
      } else {
        assert after == before;
      }
    }
  }

  lemma {:induction false} NothingMissing(target: Assignments, template: Assignments)
    requires forall i :: 0 <= i < |template| ==> Has(target, template[i].0)
    ensures Missing(target, template) == []
  {
    if template != [] {
      NothingMissing(target, Front(template));
    }
  }

  // The merged dictionary keeps every target value, adds exactly the keys the target lacks, with the template's values,
  // and reads back as it is; so merging a second time finds nothing missing.
  lemma {:induction false} MergeTwice(target: Option<string>, template: Option<string>)
    ensures var before, extra := Read(target), Read(template); var merged := before + Missing(before, extra);
            && Read(Some(Write(merged))) == merged
            && Missing(merged, extra) == []
            && (forall key :: Has(before, key) ==> Lookup(merged, key) == Lookup(before, key))
            && (forall key :: !Has(before, key) ==> Lookup(merged, key) == Lookup(extra, key))
  {
    ReadCarries(target);
    ReadCarries(template);
    var before, extra := Read(target), Read(template);
    var merged := before + Missing(before, extra);
    MissingExtends(before, extra);
    RoundTripIff(merged);
    MissingIs(before, extra);
    forall i | 0 <= i < |extra| ensures Has(merged, extra[i].0) {
      assert Has(extra, extra[i].0);
    }
    NothingMissing(merged, extra);
    forall key | Has(before, key) ensures Lookup(merged, key) == Lookup(before, key) {
      assert (key, Lookup(before, key).value) in merged;
      LookupInside(merged, key, Lookup(before, key).value);
    }
    forall key | !Has(before, key) ensures Lookup(merged, key) == Lookup(extra, key) {
      if Has(extra, key) {
        assert (key, Lookup(extra, key).value) in merged;
        LookupInside(merged, key, Lookup(extra, key).value);
      }
    }
  }

  lemma {:induction false} JoinAppend(lines: seq<Line>, line: Line)
    ensures Join(lines + [line]) == Join(lines) + (line.body + line.end)
  {
    if lines == [] {
      assert [line][1..] == [] && [] + [line] == [line] && line.end + "" == line.end;
    } else {
      JoinAppend(lines[1..], line);
      assert (lines + [line])[1..] == lines[1..] + [line];
    }
  }

  // A template key comes up only once, so what was merged before does not hide it.
  lemma NotYetMissing(target: Assignments, template: Assignments, n: nat)
    requires KeysDistinct(target) && AllCarry(target) && KeysDistinct(template) && AllCarry(template) && n < |template|
    ensures Has(target + Missing(target, template[..n]), template[n].0) <==> Has(target, template[n].0)
    ensures Missing(target, template[..n + 1]) ==
            Missing(target, template[..n]) + if Has(target, template[n].0) then [] else [template[n]]
  {
    MissingExtends(target, template[..n]);
    assert !Has(template[..n], template[n].0);
    assert Front(template[..n + 1]) == template[..n] && Last(template[..n + 1]) == template[n];
  }

  // The merge loop: adds each template assignment whose key is not there yet.
  method MergeMissing(target: Assignments, template: Assignments) returns (values: Assignments, merged: seq<string>)
    requires KeysDistinct(target) && AllCarry(target) && KeysDistinct(template) && AllCarry(template)
    ensures values == target + Missing(target, template) && merged == Keys(Missing(target, template))
    ensures merged == [] <==> Missing(target, template) == []
  {
    values, merged := target, [];
    for n := 0 to |template|
      invariant values == target + Missing(target, template[..n]) && merged == Keys(Missing(target, template[..n]))
    {
      NotYetMissing(target, template, n);
      if Has(values, template[n].0) {
        continue;
      }
      values := values + [template[n]];
      merged := merged + [template[n].0];
    }
    assert template[..|template|] == template;
    assert |merged| == |Missing(target, template)|;
  }

  // --- The file ---

  class EnvFile {
    var text: Option<string>

    constructor (text: Option<string>)
      ensures this.text == text
    {
      this.text := text;
    }

    method Load() returns (values: Assignments)
      ensures values == Read(text)
    {
      values := [];
      if text.None? {
        return;
      }
      var lines := SplitLines(text.value);
      for n := 0 to |lines|
        invariant values == ReadLines(lines[..n])
      {
        assert Front(lines[..n + 1]) == lines[..n] && Last(lines[..n + 1]) == lines[n];
        var body := lines[n].body;
        if body == "" || body[0] == '#' || Span(NotEquals, body).1 == "" {
          continue;
        }
        values := Put(values, Span(NotEquals, body).0, Span(NotEquals, body).1[1..]);
      }
      assert lines[..|lines|] == lines;
    }

    // "\n".join(lines) + "\n"
    method Store(values: Assignments)
      modifies this
      ensures text == Some(Write(values))
    {
      var joined := "";
      for n := 0 to |values|
        invariant joined == Join(PrintLines(values)[..n])
      {
        joined := joined + (values[n].0 + ("=" + values[n].1) + "\n");
        JoinAppend(PrintLines(values)[..n], PrintLines(values)[n]);
        assert PrintLines(values)[..n + 1] == PrintLines(values)[..n] + [PrintLines(values)[n]];
      }
      assert PrintLines(values)[..|values|] == PrintLines(values);
      if values == [] {
        joined := "\n";
      }
      text := Some(joined);
    }

    method SetAssignment(key: string, value: string)
      modifies this
      ensures text == Some(Write(Put(Read(old(text)), key, value)))
    {
      var values := Load();
      values := Put(values, key, value);
      Store(values);
    }

    // The template may be the target itself.
    method MergeTemplate(template: EnvFile) returns (values: Assignments, merged: seq<string>)
      modifies this
      ensures var before := Read(old(text)); var missing := Missing(before, Read(old(template.text)));
              && values == before + missing
              && merged == Keys(missing)
              && text == if missing == [] then old(text) else Some(Write(values))
    {
      var before := Load();
      var extra := template.Load();
      ReadCarries(text);
      ReadCarries(template.text);
      values, merged := MergeMissing(before, extra);
      if merged != [] {
        Store(values);
      }
    }
  }
}
