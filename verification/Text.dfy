/** Python's view of text: white space, line breaks and the order of strings. */
module Text {

  // str.isspace on one character, which is also what \s matches.
  predicate IsSpace(c: char) {
    var n := c as int;
    9 <= n <= 13 || 28 <= n <= 32 || n == 0x85 || n == 0xA0 || n == 0x1680 || 0x2000 <= n <= 0x200A
    || n == 0x2028 || n == 0x2029 || n == 0x202F || n == 0x205F || n == 0x3000
  }

  // Where str.splitlines ends a line.
  predicate IsBreak(c: char) {
    var n := c as int;
    10 <= n <= 13 || 28 <= n <= 30 || n == 0x85 || n == 0x2028 || n == 0x2029
  }

  // `not text.strip()`
  predicate IsBlank(text: string) {
    forall i :: 0 <= i < |text| ==> IsSpace(text[i])
  }

  // Order of strings by code point.
  predicate Less(a: string, b: string) {
    b != "" && (a == "" || a[0] < b[0] || (a[0] == b[0] && Less(a[1..], b[1..])))
  }

  lemma {:induction false} LessTotal(a: string, b: string)
    ensures a == b || Less(a, b) || Less(b, a)
    ensures !(Less(a, b) && Less(b, a)) && !Less(a, a)
  {
    if a != "" && b != "" {
      LessTotal(a[1..], b[1..]);
      LessTotal(a[1..], a[1..]);
      if a[0] == b[0] && a[1..] == b[1..] {
        assert a == [a[0]] + a[1..] && b == [b[0]] + b[1..];
      }
    } else if a != "" {
      LessTotal(a[1..], a[1..]);
    }
  }

  lemma {:induction false} LessTransitive(a: string, b: string, c: string)
    requires Less(a, b) && Less(b, c)
    ensures Less(a, c)
  {
    if a != "" && a[0] == b[0] == c[0] {
      LessTransitive(a[1..], b[1..], c[1..]);
    }
  }

  // Sorted without repeats.
  predicate StrictlySorted(texts: seq<string>) {
    forall i, j :: 0 <= i < j < |texts| ==> Less(texts[i], texts[j])
  }

  lemma SortedWith(texts: seq<string>, k: nat, text: string)
    requires StrictlySorted(texts) && k <= |texts|
    requires forall i :: 0 <= i < k ==> Less(texts[i], text)
    requires forall i :: k <= i < |texts| ==> Less(text, texts[i])
    ensures StrictlySorted(texts[..k] + [text] + texts[k..])
  {
    var r := texts[..k] + [text] + texts[k..];
    assert forall i :: 0 <= i < |r| ==> r[i] == if i < k then texts[i] else if i == k then text else texts[i - 1];
  }

  // Puts a new text in its place.
  method Insert(texts: seq<string>, text: string) returns (r: seq<string>)
    requires StrictlySorted(texts) && text !in texts
    ensures StrictlySorted(r) && forall other :: other in r <==> other == text || other in texts
  {
    var k := 0;
    while k < |texts| && Less(texts[k], text)
      invariant 0 <= k <= |texts|
      invariant forall i :: 0 <= i < k ==> Less(texts[i], text)
    {
      k := k + 1;
    }
    r := texts[..k] + [text] + texts[k..];
    assert texts == texts[..k] + texts[k..];
    forall j | k <= j < |texts| ensures Less(text, texts[j]) {
      assert texts[j] in texts;
      LessTotal(texts[k], text);
      if j > k {
        LessTransitive(text, texts[k], texts[j]);
      }
    }
    SortedWith(texts, k, text);
  }

  // sorted(set)
  method Sorted(texts: set<string>) returns (r: seq<string>)
    ensures StrictlySorted(r)
    ensures forall text :: text in r <==> text in texts
  {
    r := [];
    var rest := texts;
    while rest != {}
      invariant rest <= texts && StrictlySorted(r)
      invariant forall text :: text in r <==> text in texts - rest
      decreases rest
    {
      var text :| text in rest;
      r := Insert(r, text);
      rest := rest - {text};
    }
  }

  // --- Classes of characters ---

  predicate All(p: char -> bool, text: string) {
    forall i :: 0 <= i < |text| ==> p(text[i])
  }

  // The longest head of one class of characters, and what follows it.
  function Span(p: char -> bool, text: string): (r: (string, string))
    ensures text == r.0 + r.1 && All(p, r.0) && (r.1 != "" ==> !p(r.1[0]))
  {
    if text != "" && p(text[0]) then
      var (head, rest) := Span(p, text[1..]);
      ([text[0]] + head, rest)
    else ("", text)
  }

  lemma {:induction false} SpanIs(p: char -> bool, head: string, rest: string)
    requires All(p, head) && (rest != "" ==> !p(rest[0]))
    ensures Span(p, head + rest) == (head, rest)
  {
    if head == "" {
      assert head + rest == rest;
    } else {
      assert (head + rest)[1..] == head[1..] + rest;
      SpanIs(p, head[1..], rest);
      assert head == [head[0]] + head[1..];
    }
  }
}
