/** The lines that pin a version: what they look like, how they are parsed, and how they are rendered again. */
module Pins {
  import opened Wrappers
  import opened Text

  datatype Kind = Action | Compose

  // `version` is the ref of an action or the digest of an image.
  datatype Pin = Pin(prefix: string, name: string, version: string, suffix: string)

  function Render(pin: Pin, version: string): string {
    pin.prefix + pin.name + "@" + version + pin.suffix
  }

  // --- What a pinned line is ---

  predicate NameChar(c: char) {
    c != '@' && !IsSpace(c)
  }

  predicate RefChar(c: char) {
    c != '#' && !IsSpace(c)
  }

  predicate HexChar(c: char) {
    '0' <= c <= '9' || 'a' <= c <= 'f'
  }

  lemma HexIs(c: char)
    ensures HexChar(c) <==> c in "0123456789abcdef"
  {
    var digits := "0123456789abcdef";
    if HexChar(c) {
      assert digits[if c <= '9' then c as int - '0' as int else c as int - 'a' as int + 10] == c;
    }
  }

  predicate NotHash(c: char) {
    c != '#'
  }

  predicate NotSpace(c: char) {
    !IsSpace(c)
  }

  // White space, a literal and more white space.
  ghost predicate IsKeyword(literal: string, text: string) {
    exists a, c :: text == a + (literal + c) && c != "" && All(IsSpace, a) && All(IsSpace, c)
  }

  ghost predicate IsPrefix(kind: Kind, prefix: string) {
    match kind
    case Action => exists dash, uses ::
        prefix == dash + uses && IsKeyword("-", dash) && IsKeyword("uses:", uses) && !IsSpace(uses[0])
    case Compose => IsKeyword("image:", prefix)
  }

  predicate IsVersion(kind: Kind, version: string) {
    match kind
    case Action => version != "" && All(RefChar, version)
    case Compose => |version| > 7 && version[..7] == "sha256:" && All(HexChar, version[7..])
  }

  // White space, and for an action a comment after it.
  ghost predicate IsSuffix(kind: Kind, suffix: string) {
    All(IsSpace, suffix) || (kind == Action && exists a, b :: suffix == a + ("#" + b) && All(IsSpace, a))
  }

  ghost predicate IsPin(kind: Kind, pin: Pin) {
    && IsPrefix(kind, pin.prefix)
    && pin.name != "" && All(NameChar, pin.name)
    && IsVersion(kind, pin.version)
    && IsSuffix(kind, pin.suffix)
  }

  // --- Parsing ---

  // What follows a literal.
  function Behind(text: string, literal: string): Option<string> {
    if |literal| <= |text| && text[..|literal|] == literal then Some(text[|literal|..]) else None
  }

  lemma BehindIs(literal: string, rest: string)
    ensures Behind(literal + rest, literal) == Some(rest)
  {
  }

  lemma BehindSound(text: string, literal: string)
    requires Behind(text, literal).Some?
    ensures text == literal + Behind(text, literal).value
  {
  }

  function Keyword(text: string, literal: string): Option<(string, string)> {
    var (a, tail) := Span(IsSpace, text);
    var behind := Behind(tail, literal);
    if behind.None? then None
    else
      var (c, rest) := Span(IsSpace, behind.value);
      if c == "" then None else Some((a + (literal + c), rest))
  }

  function Prefix(kind: Kind, text: string): Option<(string, string)> {
    match kind
    case Compose => Keyword(text, "image:")
    case Action =>
      var dash := Keyword(text, "-");
      if dash.None? then None
      else
        var uses := Keyword(dash.value.1, "uses:");
        if uses.None? then None else Some((dash.value.0 + uses.value.0, uses.value.1))
  }

  function Version(kind: Kind, text: string): Option<(string, string)> {
    match kind
    case Action => var (v, rest) := Span(RefChar, text); if v == "" then None else Some((v, rest))
    case Compose =>
      var behind := Behind(text, "sha256:");
      if behind.None? then None
      else var (hex, rest) := Span(HexChar, behind.value); if hex == "" then None else Some(("sha256:" + hex, rest))
  }

  predicate SuffixOk(kind: Kind, text: string) {
    var (_, rest) := Span(IsSpace, text);
    rest == "" || (kind == Action && rest[0] == '#')
  }

  function Parse(kind: Kind, line: string): Option<Pin> {
    var prefix := Prefix(kind, line);
    if prefix.None? then None
    else
      var (name, tail) := Span(NameChar, prefix.value.1);
      if name == "" || Behind(tail, "@").None? then None
      else
        var version := Version(kind, Behind(tail, "@").value);
        if version.None? || !SuffixOk(kind, version.value.1) then None
        else Some(Pin(prefix.value.0, name, version.value.0, version.value.1))
  }

  // --- Sound and complete ---

  lemma Regroup(a: string, b: string, c: string)
    ensures a + b + c == a + (b + c)
  {
  }

  lemma KeywordSound(text: string, literal: string)
    requires Keyword(text, literal).Some?
    ensures var (keyword, rest) := Keyword(text, literal).value;
            text == keyword + rest && IsKeyword(literal, keyword) && (rest != "" ==> !IsSpace(rest[0]))
  {
    var (a, tail) := Span(IsSpace, text);
    BehindSound(tail, literal);
    var (c, rest) := Span(IsSpace, Behind(tail, literal).value);
    Regroup(literal, c, rest);
    Regroup(a, literal + c, rest);
  }

  lemma KeywordComplete(literal: string, keyword: string, rest: string)
    requires literal != "" && !IsSpace(literal[0]) && IsKeyword(literal, keyword) && rest != "" && !IsSpace(rest[0])
    ensures Keyword(keyword + rest, literal) == Some((keyword, rest))
  {
    var a, c :| keyword == a + (literal + c) && c != "" && All(IsSpace, a) && All(IsSpace, c);
    Regroup(a, literal + c, rest);
    Regroup(literal, c, rest);
    SpanIs(IsSpace, a, literal + (c + rest));
    BehindIs(literal, c + rest);
    SpanIs(IsSpace, c, rest);
  }

  lemma {:induction false} PrefixSound(kind: Kind, text: string)
    requires Prefix(kind, text).Some?
    ensures var (prefix, rest) := Prefix(kind, text).value; text == prefix + rest && IsPrefix(kind, prefix)
  {
    match kind {
      case Compose => KeywordSound(text, "image:");
      case Action =>
        KeywordSound(text, "-");
        var (dash, tail) := Keyword(text, "-").value;
        KeywordSound(tail, "uses:");
        var (uses, rest) := Keyword(tail, "uses:").value;
        Regroup(dash, uses, rest);
        assert uses != "" && tail[0] == uses[0];
    }
  }

  lemma {:induction false} PrefixComplete(kind: Kind, prefix: string, rest: string)
    requires IsPrefix(kind, prefix) && rest != "" && !IsSpace(rest[0])
    ensures Prefix(kind, prefix + rest) == Some((prefix, rest))
  {
    match kind {
      case Compose => KeywordComplete("image:", prefix, rest);
      case Action =>
        var dash, uses :| prefix == dash + uses && IsKeyword("-", dash) && IsKeyword("uses:", uses)
                          && !IsSpace(uses[0]);
        assert uses != "";
        Regroup(dash, uses, rest);
        assert (uses + rest)[0] == uses[0];
        KeywordComplete("-", dash, uses + rest);
        KeywordComplete("uses:", uses, rest);
    }
  }

  lemma VersionSound(kind: Kind, text: string)
    requires Version(kind, text).Some?
    ensures var (version, rest) := Version(kind, text).value; text == version + rest && IsVersion(kind, version)
  {
    if kind == Compose {
      BehindSound(text, "sha256:");
      var (hex, rest) := Span(HexChar, Behind(text, "sha256:").value);
      Regroup("sha256:", hex, rest);
      assert ("sha256:" + hex)[7..] == hex;
    }
  }

  lemma VersionComplete(kind: Kind, version: string, suffix: string)
    requires IsVersion(kind, version) && IsSuffix(kind, suffix)
    ensures Version(kind, version + suffix) == Some((version, suffix))
  {
    SuffixStarts(kind, suffix);
    match kind {
      case Action => SpanIs(RefChar, version, suffix);
      case Compose =>
        var hex := version[7..];
        assert version == "sha256:" + hex;
        Regroup("sha256:", hex, suffix);
        BehindIs("sha256:", hex + suffix);
        SpanIs(HexChar, hex, suffix);
    }
  }

  lemma SuffixStarts(kind: Kind, suffix: string)
    requires IsSuffix(kind, suffix)
    ensures suffix != "" ==> IsSpace(suffix[0]) || (kind == Action && suffix[0] == '#')
  {
    if suffix != "" && !All(IsSpace, suffix) {
      var a, b :| suffix == a + ("#" + b) && All(IsSpace, a);
      assert a == "" ==> suffix == "#" + b;
    }
  }

  lemma SuffixIs(kind: Kind, suffix: string)
    ensures SuffixOk(kind, suffix) <==> IsSuffix(kind, suffix)
  {
    var (a, rest) := Span(IsSpace, suffix);
    if SuffixOk(kind, suffix) && rest != "" {
      assert rest == "#" + rest[1..];
    }
    if All(IsSpace, suffix) {
      assert suffix + "" == suffix;
      SpanIs(IsSpace, suffix, "");
    } else if IsSuffix(kind, suffix) {
      var x, y :| suffix == x + ("#" + y) && All(IsSpace, x);
      SpanIs(IsSpace, x, "#" + y);
    }
  }

  lemma {:induction false} ParseSound(kind: Kind, line: string)
    requires Parse(kind, line).Some?
    ensures var pin := Parse(kind, line).value; IsPin(kind, pin) && line == Render(pin, pin.version)
  {
    PrefixSound(kind, line);
    var (prefix, body) := Prefix(kind, line).value;
    var (name, tail) := Span(NameChar, body);
    BehindSound(tail, "@");
    var text := Behind(tail, "@").value;
    VersionSound(kind, text);
    var (version, suffix) := Version(kind, text).value;
    SuffixIs(kind, suffix);
    RenderIs(Pin(prefix, name, version, suffix));
  }

  lemma RenderIs(pin: Pin)
    ensures Render(pin, pin.version) == pin.prefix + (pin.name + ("@" + (pin.version + pin.suffix)))
  {
    Regroup("@", pin.version, pin.suffix);
    Regroup(pin.name, "@" + pin.version, pin.suffix);
    Regroup(pin.name, "@", pin.version);
    Regroup(pin.prefix, pin.name + "@" + pin.version, pin.suffix);
    Regroup(pin.prefix, pin.name + "@", pin.version);
    Regroup(pin.prefix, pin.name, "@");
  }

  lemma {:induction false} ParseComplete(kind: Kind, pin: Pin)
    requires IsPin(kind, pin)
    ensures Parse(kind, Render(pin, pin.version)) == Some(pin)
  {
    RenderIs(pin);
    var behind := pin.version + pin.suffix;
    var tail := "@" + behind;
    assert (pin.name + tail)[0] == pin.name[0];
    PrefixComplete(kind, pin.prefix, pin.name + tail);
    SpanIs(NameChar, pin.name, tail);
    BehindIs("@", behind);
    VersionComplete(kind, pin.version, pin.suffix);
    SuffixIs(kind, pin.suffix);
  }

  // A line parses to a pin exactly when it is that pin rendered with its own version, so a line has at most one parse
  // and a pin line rendered with another version parses to the same pin with that version.
  lemma {:induction false} ParseIff(kind: Kind, line: string, pin: Pin)
    ensures Parse(kind, line) == Some(pin) <==> IsPin(kind, pin) && line == Render(pin, pin.version)
  {
    if Parse(kind, line) == Some(pin) {
      ParseSound(kind, line);
    }
    if IsPin(kind, pin) && line == Render(pin, pin.version) {
      ParseComplete(kind, pin);
    }
  }

  lemma {:induction false} Reparse(kind: Kind, line: string, version: string)
    requires Parse(kind, line).Some? && IsVersion(kind, version)
    ensures Parse(kind, Render(Parse(kind, line).value, version)) == Some(Parse(kind, line).value.(version := version))
  {
    ParseSound(kind, line);
    ParseComplete(kind, Parse(kind, line).value.(version := version));
  }

  // The tag an action's comment names.
  function Tag(suffix: string): Option<string> {
    var (_, hashed) := Span(NotHash, suffix);
    if hashed == "" then None
    else
      var (_, comment) := Span(IsSpace, hashed[1..]);
      var (tag, _) := Span(NotSpace, comment);
      if tag == "" then None else Some(tag)
  }

  // A comment states a tag: the first run of characters that are not white space behind the first hash.
  predicate StatesAt(suffix: string, tag: string, before: string, gap: string, behind: string) {
    && suffix == before + ("#" + (gap + (tag + behind)))
    && All(NotHash, before) && All(IsSpace, gap) && tag != "" && All(NotSpace, tag)
       && (behind != "" ==> IsSpace(behind[0]))
  }

  ghost predicate States(suffix: string, tag: string) {
    exists before, gap, behind :: StatesAt(suffix, tag, before, gap, behind)
  }

  lemma TagReadBack(suffix: string, tag: string, before: string, gap: string, behind: string)
    requires StatesAt(suffix, tag, before, gap, behind)
    ensures Tag(suffix) == Some(tag)
  {
    var comment := gap + (tag + behind);
    SpanIs(NotHash, before, "#" + comment);
    assert ("#" + comment)[1..] == comment;
    assert (tag + behind)[0] == tag[0];
    SpanIs(IsSpace, gap, tag + behind);
    SpanIs(NotSpace, tag, behind);
  }

  lemma TagStated(suffix: string, tag: string) returns (before: string, gap: string, behind: string)
    requires Tag(suffix) == Some(tag)
    ensures StatesAt(suffix, tag, before, gap, behind)
  {
    var hashed, comment, word;
    before, hashed := Span(NotHash, suffix).0, Span(NotHash, suffix).1;
    gap, comment := Span(IsSpace, hashed[1..]).0, Span(IsSpace, hashed[1..]).1;
    word, behind := Span(NotSpace, comment).0, Span(NotSpace, comment).1;
    assert hashed == "#" + hashed[1..];
  }

  lemma TagIff(suffix: string, tag: string)
    ensures Tag(suffix) == Some(tag) <==> States(suffix, tag)
  {
    if before, gap, behind :| StatesAt(suffix, tag, before, gap, behind) {
      TagReadBack(suffix, tag, before, gap, behind);
    } else if Tag(suffix) == Some(tag) {
      var before, gap, behind := TagStated(suffix, tag);
    }
  }
}
