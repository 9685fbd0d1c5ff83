/** Refreshing pinned versions: every pin is judged against what is current, and lines that are behind are rewritten. */
module SupplyChain {
  import opened Wrappers
  import opened Text
  import opened TextLines
  import opened Pins

  // --- Verdicts on pins ---

  // The service asked for the current version of a name under a tag; nothing when it cannot tell.
  type Resolver = (string, string) -> Option<string>

  datatype Verdict = Keep | Skip | Fail | Update(version: string)

  // An action is asked for under the tag in its comment, and skipped without one; an image under its name alone.
  function Judge(kind: Kind, resolve: Resolver, pin: Pin): Verdict {
    var tag := if kind == Action then Tag(pin.suffix) else Some("");
    if tag.None? then Skip
    else
      var version := resolve(pin.name, tag.value);
      if version.None? then Fail else if version.value == pin.version then Keep else Update(version.value)
  }

  // What the service answers for a pin: asked for an action by name and stated tag, for an image by name alone.
  ghost predicate Answers(kind: Kind, resolve: Resolver, pin: Pin, answer: Option<string>) {
    match kind
    case Action => exists tag :: States(pin.suffix, tag) && resolve(pin.name, tag) == answer
    case Compose => resolve(pin.name, "") == answer
  }

  // A pin is updated exactly to an answer that differs from its version, kept exactly when the answer is its version,
  // skipped exactly when it is an action without a tag, and otherwise there was no answer.
  lemma VerdictIs(kind: Kind, resolve: Resolver, pin: Pin, version: string)
    ensures Judge(kind, resolve, pin) == Update(version) <==>
            version != pin.version && Answers(kind, resolve, pin, Some(version))
    ensures Judge(kind, resolve, pin) == Keep <==> Answers(kind, resolve, pin, Some(pin.version))
    ensures Judge(kind, resolve, pin) == Skip <==> kind == Action && forall tag :: !States(pin.suffix, tag)
    ensures Judge(kind, resolve, pin) == Fail <==> Answers(kind, resolve, pin, None)
  {
    forall tag ensures States(pin.suffix, tag) <==> Tag(pin.suffix) == Some(tag) {
      TagIff(pin.suffix, tag);
    }
  }

  // How lines are read as pins, and how pins are judged.
  datatype Tool = Tool(parse: string -> Option<Pin>, judge: Pin -> Verdict)

  function ToolOf(kind: Kind, resolve: Resolver): Tool {
    Tool(line => Parse(kind, line), pin => Judge(kind, resolve, pin))
  }

  // The line of a pin that is behind, with the current version.
  function Pending(tool: Tool): Edit {
    body =>
      var pin := tool.parse(body);
      if pin.Some? && tool.judge(pin.value).Update? then Some(Render(pin.value, tool.judge(pin.value).version))
        else None
  }

  function Refreshed(tool: Tool, text: string): string {
    Join(RewriteAll(Pending(tool), SplitLines(text)))
  }

  type Files = map<string, string>

  function RefreshedFiles(tool: Tool, files: Files, paths: seq<string>): Files {
    map path | path in files :: if path in paths then Refreshed(tool, files[path]) else files[path]
  }

  // --- Where the pins are ---

  // A pin and where it stands; lines are counted from one.
  datatype Located = Located(path: string, line: nat, pin: Pin)

  function Parses(tool: Tool, text: string): seq<Option<Pin>> {
    var lines := SplitLines(text);
    seq(|lines|, k requires 0 <= k < |lines| => tool.parse(lines[k].body))
  }

  predicate OnLine(path: string, parses: seq<Option<Pin>>, at: Located) {
    at.path == path && 1 <= at.line <= |parses| && parses[at.line - 1] == Some(at.pin)
  }

  predicate Listed(tool: Tool, files: Files, paths: seq<string>, at: Located) {
    at.path in paths && at.path in files && OnLine(at.path, Parses(tool, files[at.path]), at)
  }

  ghost predicate ByLine(pins: seq<Located>) {
    forall i, j :: 0 <= i < j < |pins| ==> pins[i].line < pins[j].line
  }

  ghost predicate Earlier(paths: seq<string>, a: string, b: string) {
    exists i, j :: 0 <= i < j < |paths| && paths[i] == a && paths[j] == b
  }

  // By path, and within a file by line.
  ghost predicate InOrder(paths: seq<string>, pins: seq<Located>) {
    forall i, j :: 0 <= i < j < |pins| ==>
      if pins[i].path == pins[j].path then pins[i].line < pins[j].line else Earlier(paths, pins[i].path, pins[j].path)
  }

  // Exactly the pins of one file, in order.
  method PinsOfFile(path: string, parses: seq<Option<Pin>>) returns (pins: seq<Located>)
    ensures forall at :: at in pins <==> OnLine(path, parses, at)
    ensures ByLine(pins)
  {
    pins := [];
    for n := 0 to |parses|
      invariant forall at :: at in pins <==> OnLine(path, parses, at) && at.line <= n
      invariant ByLine(pins)
    {
      if parses[n].Some? {
        assert forall k :: 0 <= k < |pins| ==> pins[k] in pins;
        pins := pins + [Located(path, n + 1, parses[n].value)];
      }
    }
  }

  lemma OrderConcat(paths: seq<string>, i: nat, pins: seq<Located>, found: seq<Located>)
    requires i < |paths| && InOrder(paths, pins) && ByLine(found)
    requires forall at :: at in pins ==> at.path in paths[..i] && at.path != paths[i]
    requires forall at :: at in found ==> at.path == paths[i]
    ensures InOrder(paths, pins + found)
  {
    forall j, k | 0 <= j < |pins| && 0 <= k < |found| ensures Earlier(paths, pins[j].path, found[k].path) {
      assert pins[j] in pins && found[k] in found;
      var a :| 0 <= a < i && paths[..i][a] == pins[j].path;
      assert paths[a] == pins[j].path && paths[i] == found[k].path;
    }
  }

  // --- What a refresh reports ---

  datatype Change = Change(path: string, line: nat, name: string, prior: string, next: string)
  datatype Report = Report(updated: seq<Change>, skipped: seq<(string, nat)>)

  function ReportOf(tool: Tool, pins: seq<Located>): Report {
    if pins == [] then Report([], [])
    else
      var report, at := ReportOf(tool, Front(pins)), Last(pins);
      match tool.judge(at.pin)
      case Update(version) =>
        report.(updated := report.updated + [Change(at.path, at.line, at.pin.name, at.pin.version, version)])
      case Skip => report.(skipped := report.skipped + [(at.path, at.line)])
      case _ => report
  }

  lemma {:induction false} ReportedIff(tool: Tool, pins: seq<Located>, change: Change, place: (string, nat))
    ensures change in ReportOf(tool, pins).updated <==>
            exists at :: && at in pins && tool.judge(at.pin) == Update(change.next) && change.path == at.path
                         && change.line == at.line && change.name == at.pin.name && change.prior == at.pin.version
    ensures place in ReportOf(tool, pins).skipped <==>
            exists at :: at in pins && tool.judge(at.pin) == Skip && place == (at.path, at.line)
  {
    if pins != [] {
      ReportedIff(tool, Front(pins), change, place);
      assert pins == Front(pins) + [Last(pins)];
    }
  }

  // Changes and skipped pins are reported in the order of the pins.
  lemma {:induction false} ReportsJoin(tool: Tool, a: seq<Located>, b: seq<Located>)
    ensures ReportOf(tool, a + b).updated == ReportOf(tool, a).updated + ReportOf(tool, b).updated
    ensures ReportOf(tool, a + b).skipped == ReportOf(tool, a).skipped + ReportOf(tool, b).skipped
  {
    if b == [] {
      assert a + b == a;
    } else {
      ReportsJoin(tool, a, Front(b));
      assert Front(a + b) == a + Front(b) && Last(a + b) == Last(b);
    }
  }

  // --- The files ---

  type Updates = map<string, map<nat, string>>

  // The updates collected from some pins are pending ones, and every pending one of these pins is there.
  ghost predicate Collected(tool: Tool, files: Files, paths: seq<string>, pins: seq<Located>, updates: Updates) {
    && (forall path :: path in updates ==> path in paths && path in files)
    && (forall path, n :: path in updates && n in updates[path] ==> PendingOn(tool, files[path], n, updates[path][n]))
    && (forall at :: at in pins && tool.judge(at.pin).Update? ==> at.path in updates && at.line in updates[at.path])
  }

  ghost predicate PendingOn(tool: Tool, text: string, n: nat, body: string) {
    1 <= n <= |SplitLines(text)| && Pending(tool)(SplitLines(text)[n - 1].body) == Some(body)
  }

  ghost predicate InRange(text: string, replacements: map<nat, string>) {
    forall n :: n in replacements ==> 1 <= n <= |SplitLines(text)|
  }

  function Updated(text: string, replacements: map<nat, string>): string {
    Join(Patched(SplitLines(text), replacements))
  }

  // Applying these replacements to the text is refreshing it.
  ghost predicate UpdatesText(tool: Tool, text: string, replacements: map<nat, string>) {
    InRange(text, replacements) && Updated(text, replacements) == Refreshed(tool, text)
  }

  function Patched(lines: seq<Line>, replacements: map<nat, string>): seq<Line> {
    seq(|lines|,
        k requires 0 <= k < |lines| => if k + 1 in replacements then Patch(lines[k], replacements[k + 1]) else lines[k])
  }

  // updates.setdefault(path, {})[line] = pin.render(version)
  function Collect(tool: Tool, files: Files, paths: seq<string>, pins: seq<Located>, updates: Updates, at: Located)
    : (r: Updates)
    requires Collected(tool, files, paths, pins, updates) && Listed(tool, files, paths, at)
    requires tool.judge(at.pin).Update?
    ensures Collected(tool, files, paths, pins + [at], r)
  {
    var lines := if at.path in updates then updates[at.path] else map[];
    assert PendingOn(tool, files[at.path], at.line, Render(at.pin, tool.judge(at.pin).version));
    updates[at.path := lines[at.line := Render(at.pin, tool.judge(at.pin).version)]]
  }

  // What is applied to a file, if anything is, is what refreshes it.
  lemma PatchedIsRefreshed(tool: Tool, files: Files, paths: seq<string>, pins: seq<Located>, updates: Updates,
                           path: string)
    requires forall at :: at in pins <==> Listed(tool, files, paths, at)
    requires Collected(tool, files, paths, pins, updates) && path in paths && path in files
    ensures path in updates ==> UpdatesText(tool, files[path], updates[path])
    ensures path !in updates ==> Refreshed(tool, files[path]) == files[path]
  {
    var lines := SplitLines(files[path]);
    forall k | 0 <= k < |lines|
      ensures path in updates ==>
          Rewrite(Pending(tool), lines[k]) == if k + 1 in updates[path] then Patch(lines[k], updates[path][k + 1])
            else lines[k]
      ensures path !in updates ==> Rewrite(Pending(tool), lines[k]) == lines[k]
    {
      if path in updates && k + 1 in updates[path] {
        assert PendingOn(tool, files[path], k + 1, updates[path][k + 1]);
      } else if Pending(tool)(lines[k].body).Some? {
        var at := Located(path, k + 1, tool.parse(lines[k].body).value);
        assert Listed(tool, files, paths, at);
      }
    }
    if path in updates {
      assert RewriteAll(Pending(tool), lines) == Patched(lines, updates[path]);
      forall n | n in updates[path] ensures 1 <= n <= |lines| {
        assert PendingOn(tool, files[path], n, updates[path][n]);
      }
    } else {
      assert RewriteAll(Pending(tool), lines) == lines;
      JoinSplit(files[path]);
    }
  }

  class Repository {
    var files: Files

    constructor (start: Files)
      ensures files == start
    {
      files := start;
    }

    method ApplyLineUpdates(path: string, replacements: map<nat, string>)
      requires path in files && InRange(files[path], replacements)
      modifies this
      ensures files == old(files)[path := Updated(old(files)[path], replacements)]
    {
      var lines := SplitLines(files[path]);
      ghost var before := lines;
      var rest := replacements.Keys;
      while rest != {}
        invariant rest <= replacements.Keys && |lines| == |before|
        invariant forall k :: 0 <= k < |lines| ==>
            lines[k] == if k + 1 in replacements && k + 1 !in rest then Patch(before[k], replacements[k + 1])
              else before[k]
        decreases rest
      {
        var n :| n in rest;
        rest := rest - {n};
        var end := if lines[n - 1].end != "" && Last(lines[n - 1].end) == '\n' then "\n" else "";
        lines := lines[n - 1 := Line(replacements[n], end)];
      }
      assert lines == Patched(before, replacements);
      files := files[path := Join(lines)];
    }

    method ListPins(tool: Tool, paths: seq<string>) returns (pins: seq<Located>)
      requires forall path :: path in paths ==> path in files
      requires forall i, j :: 0 <= i < j < |paths| ==> paths[i] != paths[j]
      ensures forall at :: at in pins <==> Listed(tool, files, paths, at)
      ensures InOrder(paths, pins)
    {
      pins := [];
      for i := 0 to |paths|
        invariant forall at :: at in pins <==> Listed(tool, files, paths[..i], at)
        invariant InOrder(paths, pins)
      {
        assert forall path :: path in paths[..i + 1] <==> path in paths[..i] || path == paths[i];
        var found := PinsOfFile(paths[i], Parses(tool, files[paths[i]]));
        OrderConcat(paths, i, pins, found);
        pins := pins + found;
      }
      assert paths[..|paths|] == paths;
    }

    // Every pin is judged before anything is written, so a pin that cannot be resolved leaves all files alone.
    method Refresh(tool: Tool, paths: seq<string>, apply: bool) returns (r: Option<Report>, ghost pins: seq<Located>)
      requires forall path :: path in paths ==> path in files
      requires forall i, j :: 0 <= i < j < |paths| ==> paths[i] != paths[j]
      modifies this
      ensures (forall at :: at in pins <==> Listed(tool, old(files), paths, at)) && InOrder(paths, pins)
      ensures r == if exists at :: at in pins && tool.judge(at.pin).Fail? then None else Some(ReportOf(tool, pins))
      ensures files == if r.Some? && apply then RefreshedFiles(tool, old(files), paths) else old(files)
    {
      var found := ListPins(tool, paths);
      pins := found;
      var updates: Updates := map[];
      var report := Report([], []);
      for i := 0 to |found|
        invariant forall j :: 0 <= j < i ==> !tool.judge(found[j].pin).Fail?
        invariant report == ReportOf(tool, found[..i])
        invariant Collected(tool, files, paths, found[..i], updates)
      {
        var at := found[i];
        assert at in found && Listed(tool, files, paths, at);
        assert Front(found[..i + 1]) == found[..i] && Last(found[..i + 1]) == at;
        match tool.judge(at.pin) {
          case Fail => return None, pins;
          case Skip => report := report.(skipped := report.skipped + [(at.path, at.line)]);
          case Keep =>
          case Update(version) =>
            updates := Collect(tool, files, paths, found[..i], updates, at);
            var change := Change(at.path, at.line, at.pin.name, at.pin.version, version);
            report := report.(updated := report.updated + [change]);
        }
      }
      assert found[..|found|] == found;
      if apply {
        forall path | path in paths
          ensures path in updates ==> UpdatesText(tool, files[path], updates[path])
          ensures path !in updates ==> Refreshed(tool, files[path]) == files[path]
        {
          PatchedIsRefreshed(tool, files, paths, found, updates, path);
        }
        ApplyAll(updates, RefreshedFiles(tool, files, paths));
      }
      return Some(report), pins;
    }

    // Writes the files one by one; each ends as `target` has it.
    method ApplyAll(updates: Updates, ghost target: Files)
      requires target.Keys == files.Keys
      requires forall path :: path in updates ==>
          path in files && InRange(files[path], updates[path]) && Updated(files[path], updates[path]) == target[path]
      requires forall path :: path in files && path !in updates ==> target[path] == files[path]
      modifies this
      ensures files == target
    {
      var rest := updates.Keys;
      while rest != {}
        invariant rest <= updates.Keys && files.Keys == target.Keys
        invariant forall path :: path in files && path !in rest ==> files[path] == target[path]
        invariant forall path :: path in rest ==> files[path] == old(files)[path]
        decreases rest
      {
        var path :| path in rest;
        rest := rest - {path};
        ApplyLineUpdates(path, updates[path]);
      }
    }
  }

  // --- Main results ---

  // Every version the service answers has the form of one. The source checks that a commit id is 40 characters long and
  // matches digests.
  ghost predicate WellFormed(kind: Kind, resolve: Resolver) {
    forall name, tag :: resolve(name, tag).Some? ==> IsVersion(kind, resolve(name, tag).value)
  }

  // A pending line is a pinned line; with its new version it is the same pin at that version, and up to date.
  lemma {:induction false} PendingLine(kind: Kind, resolve: Resolver, body: string)
    requires WellFormed(kind, resolve) && Pending(ToolOf(kind, resolve))(body).Some?
    ensures var after := Pending(ToolOf(kind, resolve))(body).value;
            && Pending(ToolOf(kind, resolve))(after).None?
            && DiffersInVersion(kind, body, after)
  {
    var pin := Parse(kind, body).value;
    var version := Judge(kind, resolve, pin).version;
    ParseSound(kind, body);
    Reparse(kind, body, version);
    assert Judge(kind, resolve, pin.(version := version)).Keep?;
  }

  // Both lines parse to pins that agree on everything but the version, and are those pins rendered.
  predicate DiffersInVersion(kind: Kind, before: string, after: string) {
    && Parse(kind, before).Some? && Parse(kind, after).Some?
    && var pin, version := Parse(kind, before).value, Parse(kind, after).value.version;
    && before == Render(pin, pin.version) && after == Render(pin, version) && IsVersion(kind, version)
    && Parse(kind, after).value == pin.(version := version)
  }

  lemma RenderHasNoBreak(pin: Pin, version: string)
    requires All(NotBreak, Render(pin, pin.version)) && All(NotBreak, version)
    ensures All(NotBreak, Render(pin, version))
  {
    RenderIs(pin);
    RenderIs(pin.(version := version));
    AllConcat(NotBreak, pin.prefix, pin.name + ("@" + (pin.version + pin.suffix)));
    AllConcat(NotBreak, pin.name, "@" + (pin.version + pin.suffix));
    AllConcat(NotBreak, "@", pin.version + pin.suffix);
    AllConcat(NotBreak, pin.version, pin.suffix);
    AllConcat(NotBreak, version, pin.suffix);
    AllConcat(NotBreak, "@", version + pin.suffix);
    AllConcat(NotBreak, pin.name, "@" + (version + pin.suffix));
    AllConcat(NotBreak, pin.prefix, pin.name + ("@" + (version + pin.suffix)));
  }

  lemma AllConcat(p: char -> bool, a: string, b: string)
    ensures All(p, a + b) <==> All(p, a) && All(p, b)
  {
    assert forall i :: 0 <= i < |a| ==> a[i] == (a + b)[i];
    assert forall i :: 0 <= i < |b| ==> b[i] == (a + b)[|a| + i];
    assert forall i :: 0 <= i < |a + b| ==> (a + b)[i] == if i < |a| then a[i] else b[i - |a|];
  }

  lemma VersionHasNoBreak(kind: Kind, version: string)
    requires IsVersion(kind, version)
    ensures All(NotBreak, version)
  {
    if kind == Compose {
      assert version == "sha256:" + version[7..];
    }
  }

  lemma {:induction false} PendingHasNoBreak(kind: Kind, resolve: Resolver, body: string)
    requires WellFormed(kind, resolve) && Pending(ToolOf(kind, resolve))(body).Some? && All(NotBreak, body)
    ensures var after := Pending(ToolOf(kind, resolve))(body).value; All(NotBreak, after) && after != ""
  {
    var pin := Parse(kind, body).value;
    var version := Judge(kind, resolve, pin).version;
    ParseSound(kind, body);
    VersionHasNoBreak(kind, version);
    RenderHasNoBreak(pin, version);
    assert |Render(pin, version)| == |pin.prefix| + |pin.name| + 1 + |version| + |pin.suffix|;
  }

  lemma {:induction false} PendingIsTame(kind: Kind, resolve: Resolver)
    requires WellFormed(kind, resolve)
    ensures Tame(Pending(ToolOf(kind, resolve)))
  {
    var edit := Pending(ToolOf(kind, resolve));
    forall body | edit(body).Some? && All(NotBreak, body)
      ensures All(NotBreak, edit(body).value) && edit(body).value != ""
    {
      PendingHasNoBreak(kind, resolve, body);
    }
  }

  // What a refresh makes of one line.
  predicate LineRefreshed(kind: Kind, resolve: Resolver, before: Line, after: Line) {
    var edit := Pending(ToolOf(kind, resolve));
    && after.end == before.end && edit(after.body).None?
    && if edit(before.body).None? then after == before else DiffersInVersion(kind, before.body, after.body)
  }

  lemma {:induction false} RewrittenIsRefreshed(kind: Kind, resolve: Resolver, line: Line)
    requires WellFormed(kind, resolve)
    requires Pending(ToolOf(kind, resolve))(line.body).Some? ==> NewlineOrNone(line.end)
    ensures LineRefreshed(kind, resolve, line, Rewrite(Pending(ToolOf(kind, resolve)), line))
  {
    if Pending(ToolOf(kind, resolve))(line.body).Some? {
      PendingLine(kind, resolve, line.body);
      KeptEndLength(line.end);
    }
  }

  // After an applied refresh the file has the same lines, each unchanged or differing in its pin's version only, and no
  // line is behind any more.
  lemma {:induction false} RefreshedLines(kind: Kind, resolve: Resolver, text: string)
    requires WellFormed(kind, resolve) && Clean(Pending(ToolOf(kind, resolve)), SplitLines(text))
    ensures var lines, after := SplitLines(text), SplitLines(Refreshed(ToolOf(kind, resolve), text));
            |after| == |lines| && forall k :: 0 <= k < |lines| ==> LineRefreshed(kind, resolve, lines[k], after[k])
  {
    PendingIsTame(kind, resolve);
    RewrittenLines(Pending(ToolOf(kind, resolve)), text);
    var lines := SplitLines(text);
    forall k | 0 <= k < |lines|
      ensures LineRefreshed(kind, resolve, lines[k], Rewrite(Pending(ToolOf(kind, resolve)), lines[k]))
    {
      RewrittenIsRefreshed(kind, resolve, lines[k]);
    }
  }

  lemma {:induction false} RefreshedTextIsUpToDate(kind: Kind, resolve: Resolver, text: string)
    requires WellFormed(kind, resolve) && Clean(Pending(ToolOf(kind, resolve)), SplitLines(text))
    ensures var tool := ToolOf(kind, resolve); var once := Refreshed(tool, text);
            && Refreshed(tool, once) == once
            && forall k :: 0 <= k < |SplitLines(once)| ==> Pending(tool)(SplitLines(once)[k].body).None?
  {
    var tool := ToolOf(kind, resolve);
    var once := Refreshed(tool, text);
    RefreshedLines(kind, resolve, text);
    var after := SplitLines(once);
    forall k | 0 <= k < |after| ensures Pending(tool)(after[k].body).None? {
      assert LineRefreshed(kind, resolve, SplitLines(text)[k], after[k]);
    }
    assert RewriteAll(Pending(tool), after) == after;
    JoinSplit(once);
  }

  // So a second refresh with the same answers reports no updates and changes no file.
  lemma {:induction false} SecondRefreshIsQuiet(kind: Kind, resolve: Resolver, files: Files, paths: seq<string>,
                                                pins: seq<Located>)
    requires WellFormed(kind, resolve)
    requires forall path :: path in paths ==>
        path in files && Clean(Pending(ToolOf(kind, resolve)), SplitLines(files[path]))
    requires forall at :: at in pins ==>
        Listed(ToolOf(kind, resolve), RefreshedFiles(ToolOf(kind, resolve), files, paths), paths, at)
    ensures ReportOf(ToolOf(kind, resolve), pins).updated == []
    ensures var tool := ToolOf(kind, resolve); var once := RefreshedFiles(tool, files, paths);
            RefreshedFiles(tool, once, paths) == once
  {
    var tool := ToolOf(kind, resolve);
    var once := RefreshedFiles(tool, files, paths);
    forall path | path in paths
      ensures Refreshed(tool, once[path]) == once[path]
      ensures forall k :: 0 <= k < |SplitLines(once[path])| ==> Pending(tool)(SplitLines(once[path])[k].body).None?
    {
      RefreshedTextIsUpToDate(kind, resolve, files[path]);
    }
    forall at | at in pins ensures !tool.judge(at.pin).Update? {
      assert Pending(tool)(SplitLines(once[at.path])[at.line - 1].body).None?;
    }
    NothingReported(tool, pins);
  }

  lemma {:induction false} NothingReported(tool: Tool, pins: seq<Located>)
    requires forall at :: at in pins ==> !tool.judge(at.pin).Update?
    ensures ReportOf(tool, pins).updated == []
  {
    if pins != [] {
      NothingReported(tool, Front(pins));
      assert Last(pins) in pins;
    }
  }

  // Without that the file is damaged: behind a pin that is updated, a line end such as a form feed is swallowed.
  lemma {:induction false} FormFeedSwallowed(kind: Kind, resolve: Resolver, pin: Pin, rest: string)
    requires WellFormed(kind, resolve) && IsPin(kind, pin) && Judge(kind, resolve, pin).Update?
    requires All(NotBreak, Render(pin, pin.version)) && All(NotBreak, rest) && rest != "" && Parse(kind, rest).None?
    ensures var text := Render(pin, pin.version) + ("\U{0C}" + rest);
            && |SplitLines(text)| == 2
            && SplitLines(Refreshed(ToolOf(kind, resolve), text)) ==
               [Line(Render(pin, Judge(kind, resolve, pin).version) + rest, "")]
  {
    PinIsPending(kind, resolve, pin);
    VersionHasNoBreak(kind, Judge(kind, resolve, pin).version);
    RenderHasNoBreak(pin, Judge(kind, resolve, pin).version);
    EndSwallowed(Pending(ToolOf(kind, resolve)), Render(pin, pin.version), '\U{0C}', rest);
  }

  lemma {:induction false} PinIsPending(kind: Kind, resolve: Resolver, pin: Pin)
    requires WellFormed(kind, resolve) && IsPin(kind, pin) && Judge(kind, resolve, pin).Update?
    ensures Pending(ToolOf(kind, resolve))(Render(pin, pin.version))
            == Some(Render(pin, Judge(kind, resolve, pin).version))
    ensures IsVersion(kind, Judge(kind, resolve, pin).version)
  {
    ParseComplete(kind, pin);
  }
}
