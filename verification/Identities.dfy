/** Session and lock identities: five validated tokens joined by colons. */
module Identities {
  import opened Wrappers
  import opened Text

  datatype DescriptorError = EmptyToken | UnsupportedCharacters

  predicate IsTokenChar(c: char) {
    'A' <= c <= 'Z' || 'a' <= c <= 'z' || '0' <= c <= '9' || c in {'.', '_', '-'}
  }

  // By code point: a digit, an upper or a lower case letter, or one of three marks.
  lemma TokenCharIs(c: char)
    ensures var n := c as int;
            IsTokenChar(c) <==> 48 <= n <= 57 || 65 <= n <= 90 || 97 <= n <= 122 || c == '-' || c == '.' || c == '_'
  {
  }

  function ValidateToken(value: string): (r: Result<string, DescriptorError>)
    ensures r.Ok? <==> value != "" && forall i :: 0 <= i < |value| ==> IsTokenChar(value[i])
    ensures r.Ok? ==> r.value == value
  {
    if IsBlank(value) then
      assert value != "" ==> !IsTokenChar(value[0]);
      Err(EmptyToken)
    else if exists i :: 0 <= i < |value| && !IsTokenChar(value[i]) then Err(UnsupportedCharacters)
    else Ok(value)
  }

  function Join(parts: seq<string>): string
    requires parts != []
  {
    if |parts| == 1 then parts[0] else parts[0] + ":" + Join(parts[1..])
  }

  // Validate every part, in order, then join; the first bad part decides the error.
  function BuildIdentity(parts: seq<string>): Result<string, DescriptorError>
    requires parts != []
  {
    var head := ValidateToken(parts[0]);
    if head.Err? then Err(head.error)
    else if |parts| == 1 then Ok(head.value)
    else
      var rest := BuildIdentity(parts[1..]);
      if rest.Err? then rest else Ok(head.value + ":" + rest.value)
  }

  lemma {:induction false} BuiltIsJoined(parts: seq<string>)
    requires parts != []
    ensures BuildIdentity(parts).Ok? <==> forall i :: 0 <= i < |parts| ==> ValidateToken(parts[i]).Ok?
    ensures BuildIdentity(parts).Ok? ==> BuildIdentity(parts).value == Join(parts)
  {
    if |parts| > 1 {
      BuiltIsJoined(parts[1..]);
      assert forall i :: 0 < i < |parts| ==> parts[i] == parts[1..][i - 1];
    }
  }

  // The identity of five tokens is these tokens with colons between them.
  lemma JoinFive(a: string, b: string, c: string, d: string, e: string)
    ensures BuildIdentity([a, b, c, d, e]).Ok? ==>
              BuildIdentity([a, b, c, d, e]).value == a + ":" + b + ":" + c + ":" + d + ":" + e
  {
    BuiltIsJoined([a, b, c, d, e]);
    assert [a, b, c, d, e][1..] == [b, c, d, e] && [b, c, d, e][1..] == [c, d, e];
    assert [c, d, e][1..] == [d, e] && [d, e][1..] == [e] && Join([e]) == e;
    assert Join([d, e]) == d + ":" + e;
    assert Join([c, d, e]) == c + ":" + (d + ":" + e) == c + ":" + d + ":" + e;
    assert Join([b, c, d, e]) == b + ":" + (c + ":" + d + ":" + e) == b + ":" + c + ":" + d + ":" + e;
    assert a + ":" + (b + ":" + c + ":" + d + ":" + e) == a + ":" + b + ":" + c + ":" + d + ":" + e;
  }

  predicate ColonFree(text: string) {
    forall i :: 0 <= i < |text| ==> text[i] != ':'
  }

  // The text before the first colon is determined by the whole.
  lemma SplitAtColon(a: string, b: string, x: string, y: string)
    requires ColonFree(a) && ColonFree(b) && a + ":" + x == b + ":" + y
    ensures a == b && x == y
  {
    var whole := a + ":" + x;
    assert whole[|a|] == ':' && whole[|b|] == ':';
    assert forall i :: 0 <= i < |a| ==> whole[i] == a[i];
    assert forall i :: 0 <= i < |b| ==> whole[i] == b[i];
    assert |a| == |b|;
    assert a == whole[..|a|] && b == whole[..|b|];
    assert x == whole[|a| + 1..] && y == whole[|b| + 1..];
  }

  lemma {:induction false} JoinInjective(left: seq<string>, right: seq<string>)
    requires |left| == |right| > 0 && Join(left) == Join(right)
    requires forall i :: 0 <= i < |left| ==> ColonFree(left[i]) && ColonFree(right[i])
    ensures left == right
  {
    if |left| > 1 {
      SplitAtColon(left[0], right[0], Join(left[1..]), Join(right[1..]));
      JoinInjective(left[1..], right[1..]);
      assert left == [left[0]] + left[1..] && right == [right[0]] + right[1..];
    } else {
      assert left == [left[0]] && right == [right[0]];
    }
  }

  // Two accepted tuples of tokens have the same identity exactly when they agree field by field.
  lemma IdentityInjective(left: seq<string>, right: seq<string>)
    requires |left| == |right| > 0
    requires BuildIdentity(left).Ok? && BuildIdentity(right).Ok?
    ensures BuildIdentity(left) == BuildIdentity(right) <==> left == right
  {
    BuiltIsJoined(left);
    BuiltIsJoined(right);
    forall i | 0 <= i < |left| ensures ColonFree(left[i]) && ColonFree(right[i]) {
      assert ValidateToken(left[i]).Ok? && ValidateToken(right[i]).Ok?;
    }
    if BuildIdentity(left) == BuildIdentity(right) {
      JoinInjective(left, right);
    }
  }
}
