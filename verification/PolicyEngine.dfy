/** Policy evaluation: zone and target gates, ordered rules with early exits, approval matrix and review metadata. */
module PolicyEngine {
  import opened Wrappers
  import opened Documents
  import opened Text

  // The parts of Python this code leans on: fnmatch.fnmatch(name, pattern) and str() of anything that is not a string.
  datatype Host = Host(glob: (string, string) -> bool, str: Json -> string)

  type Members = map<string, Json>

  function TextOf(host: Host, value: Json): string {
    if value.Str? then value.text else host.str(value)
  }

  function Lookup(members: Members, key: string): Option<Json> {
    if key in members then Some(members[key]) else None
  }

  function MappingOrNone(value: Option<Json>): Option<Members> {
    if value.Some? && value.value.Obj? then Some(value.value.members) else None
  }

  function MappingOrEmpty(value: Option<Json>): Members {
    if value.Some? && value.value.Obj? then value.value.members else map[]
  }

  function StringMembers(value: Option<Json>): set<string> {
    if value.Some? && value.value.List? then set item | item in value.value.items && item.Str? :: item.text else {}
  }

  // --- Matching ---

  predicate Wild(text: string) {
    exists i :: 0 <= i < |text| && text[i] in "*?[]"
  }

  predicate LeafSatisfied(host: Host, expected: Json, actual: Json) {
    match expected
    case Obj(_) => actual.Obj?
    case List(items) => exists item :: item in items && Equal(actual, item)
    case _ => if expected.Str? && Wild(expected.text) then host.glob(TextOf(host, actual), expected.text)
      else Equal(actual, expected)
  }

  predicate Satisfied(host: Host, rule: Json, payload: Json)
    decreases rule
  {
    LeafSatisfied(host, rule, payload)
    && (rule.Obj? ==> forall k :: k in rule.members ==>
          k in payload.members && Satisfied(host, rule.members[k], payload.members[k]))
  }

  method MatchMapping(host: Host, rule: Members, payload: Members) returns (ok: bool)
    ensures ok == Satisfied(host, Obj(rule), Obj(payload))
    decreases Obj(rule)
  {
    var rest := rule.Keys;
    while rest != {}
      invariant rest <= rule.Keys
      invariant forall k :: k in rule && k !in rest ==> k in payload && Satisfied(host, rule[k], payload[k])
      decreases rest
    {
      var key :| key in rest;
      rest := rest - {key};
      if key !in payload {
        return false;
      }
      var expected, actual := rule[key], payload[key];
      if expected.Obj? {
        if !actual.Obj? {
          return false;
        }
        assert expected == Obj(expected.members) && actual == Obj(actual.members);
        var nested := MatchMapping(host, expected.members, actual.members);
        if !nested {
          return false;
        }
      } else if !LeafSatisfied(host, expected, actual) {
        return false;
      }
    }
    return true;
  }

  // What a value of a rule that is no mapping asks for: a member of a list by Python's equality, a match of a pattern
  // with any of the four wildcard characters, or the same value.
  lemma LeafIs(host: Host, expected: Json, actual: Json)
    ensures expected.Obj? ==> (LeafSatisfied(host, expected, actual) <==> actual.Obj?)
    ensures expected.List? ==>
              (LeafSatisfied(host, expected, actual) <==>
                 exists n :: 0 <= n < |expected.items| && Equal(actual, expected.items[n]))
    ensures expected.Str? && ('*' in expected.text || '?' in expected.text || '[' in expected.text
                              || ']' in expected.text) ==>
              (LeafSatisfied(host, expected, actual) <==>
                 host.glob(if actual.Str? then actual.text else host.str(actual), expected.text))
    ensures !expected.Obj? && !expected.List?
            && !(expected.Str? && ('*' in expected.text || '?' in expected.text || '[' in expected.text
                                   || ']' in expected.text)) ==>
              (LeafSatisfied(host, expected, actual) <==> Equal(actual, expected))
  {
    if expected.Str? {
      var text := expected.text;
      assert '*' in text ==> exists i :: 0 <= i < |text| && text[i] == '*';
      assert '?' in text ==> exists i :: 0 <= i < |text| && text[i] == '?';
      assert '[' in text ==> exists i :: 0 <= i < |text| && text[i] == '[';
      assert ']' in text ==> exists i :: 0 <= i < |text| && text[i] == ']';
    }
  }

  // The payload satisfies what the rule says at one path.
  predicate SatisfiedAt(host: Host, rule: Json, payload: Json, path: seq<string>) {
    Get(rule, path).Some? ==>
      Get(payload, path).Some? && LeafSatisfied(host, Get(rule, path).value, Get(payload, path).value)
  }

  // A rule matches exactly when the payload satisfies it at every path.
  lemma {:induction false} MatchesAtEveryPath(host: Host, rule: Json, payload: Json)
    ensures Satisfied(host, rule, payload) <==> forall path :: SatisfiedAt(host, rule, payload, path)
    decreases rule
  {
    assert SatisfiedAt(host, rule, payload, []) <==> LeafSatisfied(host, rule, payload);
    if rule.Obj? && payload.Obj? {
      forall k, rest | k in rule.members && k in payload.members
        ensures SatisfiedAt(host, rule, payload, [k] + rest)
                <==> SatisfiedAt(host, rule.members[k], payload.members[k], rest)
      {
        assert ([k] + rest)[1..] == rest;
      }
      forall k | k in rule.members && k in payload.members
        ensures Satisfied(host, rule.members[k], payload.members[k]) <==>
            forall rest :: SatisfiedAt(host, rule, payload, [k] + rest)
      {
        MatchesAtEveryPath(host, rule.members[k], payload.members[k]);
        if forall rest :: SatisfiedAt(host, rule, payload, [k] + rest) {
          assert forall rest :: SatisfiedAt(host, rule, payload, [k] + rest) ==>
              SatisfiedAt(host, rule.members[k], payload.members[k], rest);
        }
      }
      if Satisfied(host, rule, payload) {
        forall path ensures SatisfiedAt(host, rule, payload, path) {
          if path != [] && path[0] in rule.members {
            assert path == [path[0]] + path[1..];
          }
        }
      } else {
        var k :| k in rule.members && !(k in payload.members && Satisfied(host, rule.members[k], payload.members[k]));
        if k !in payload.members {
          assert [k][1..] == [] && Get(rule.members[k], []).Some?;
          assert Get(rule, [k]).Some? && Get(payload, [k]).None?;
          assert !SatisfiedAt(host, rule, payload, [k]);
        }
      }
    }
  }

  // --- Review metadata ---

  datatype Review = Review(mode: string, target: Option<string>, reason: string, policyId: string,
                           delegateTo: Option<string>)

  datatype Decision = Decision(decision: string, reasons: seq<string>, matchedRules: seq<string>,
                               review: Option<Review>)

  // str.strip()
  function Strip(text: string): string {
    if text != "" && IsSpace(text[0]) then Strip(text[1..])
    else if text != "" && IsSpace(Last(text)) then Strip(Front(text))
    else text
  }

  lemma {:induction false} StripTakesSpace(text: string) returns (before: string, behind: string)
    ensures IsBlank(before) && IsBlank(behind) && text == before + Strip(text) + behind
  {
    before, behind := "", "";
    if text != "" && IsSpace(text[0]) {
      before, behind := StripTakesSpace(text[1..]);
      before := [text[0]] + before;
    } else if text != "" && IsSpace(Last(text)) {
      before, behind := StripTakesSpace(Front(text));
      behind := behind + [Last(text)];
    }
  }

  lemma {:induction false} StripLeavesNoSpace(text: string)
    ensures Strip(text) != "" ==> !IsSpace(Strip(text)[0]) && !IsSpace(Last(Strip(text)))
  {
    if text != "" && IsSpace(text[0]) {
      StripLeavesNoSpace(text[1..]);
    } else if text != "" && IsSpace(Last(text)) {
      StripLeavesNoSpace(Front(text));
    }
  }

  // A string that is not blank, stripped.
  function Stated(value: Option<Json>): Option<string> {
    if value.Some? && value.value.Str? && Strip(value.value.text) != "" then Some(Strip(value.value.text)) else None
  }

  function Field(host: Host, payload: Members, key: string, default: string): string {
    if key in payload then TextOf(host, payload[key]) else default
  }

  // The three layers of the review block that apply to a payload.
  function ReviewLayer(policy: Members, layer: string): Members {
    MappingOrEmpty(Lookup(MappingOrEmpty(Lookup(policy, "review")), layer))
  }

  function CategoryLayer(host: Host, policy: Members, payload: Members): Members {
    MappingOrEmpty(Lookup(ReviewLayer(policy, "categories"), Field(host, payload, "category", "")))
  }

  function ActionLayer(host: Host, policy: Members, payload: Members): Members {
    MappingOrEmpty(Lookup(ReviewLayer(policy, "actions"), Field(host, payload, "action", "")))
  }

  function ReviewConfig(host: Host, policy: Members, payload: Members): Members {
    ReviewLayer(policy, "defaults") + CategoryLayer(host, policy, payload) + ActionLayer(host, policy, payload)
  }

  method ResolveReviewConfig(host: Host, policy: Members, payload: Members) returns (merged: Members)
    ensures merged == ReviewConfig(host, policy, payload)
  {
    var block := MappingOrNone(Lookup(policy, "review"));
    if block.None? {
      return map[];
    }
    merged := map[];
    var defaults := MappingOrNone(Lookup(block.value, "defaults"));
    if defaults.Some? {
      merged := merged + defaults.value;
    }
    assert merged == ReviewLayer(policy, "defaults");
    var categories := MappingOrNone(Lookup(block.value, "categories"));
    if categories.Some? {
      var config := MappingOrNone(Lookup(categories.value, Field(host, payload, "category", "")));
      if config.Some? {
        merged := merged + config.value;
      }
    }
    assert merged == ReviewLayer(policy, "defaults") + CategoryLayer(host, policy, payload);
    var actions := MappingOrNone(Lookup(block.value, "actions"));
    if actions.Some? {
      var config := MappingOrNone(Lookup(actions.value, Field(host, payload, "action", "")));
      if config.Some? {
        merged := merged + config.value;
      }
    }
  }

  // --- Reading policy and payload as documents ---

  // What the payload says under a key, as text.
  function Says(host: Host, payload: Members, key: string, default: string): string {
    var value := Get(Obj(payload), [key]);
    if value.Some? then TextOf(host, value.value) else default
  }

  // The document has a list at the path that holds the text, or any text at all.
  predicate Lists(doc: Json, path: seq<string>, text: string) {
    Get(doc, path).Some? && Get(doc, path).value.List? && Str(text) in Get(doc, path).value.items
  }

  predicate ListsTexts(doc: Json, path: seq<string>) {
    && Get(doc, path).Some? && Get(doc, path).value.List?
    && exists item :: item in Get(doc, path).value.items && item.Str?
  }

  lemma GetOne(doc: Json, key: string)
    ensures Get(doc, [key]) == if doc.Obj? && key in doc.members then Some(doc.members[key]) else None
  {
    assert [key][1..] == [];
  }

  lemma SaysIs(host: Host, payload: Members, key: string, default: string)
    ensures Field(host, payload, key, default) == Says(host, payload, key, default)
  {
    GetOne(Obj(payload), key);
  }

  // A list read by way of the mapping it is in.
  lemma ListAt(list: Option<Json>, doc: Json, path: seq<string>)
    requires Get(doc, path) == list
    ensures forall text :: text in StringMembers(list) <==> Lists(doc, path, text)
    ensures StringMembers(list) != {} <==> ListsTexts(doc, path)
  {
    if ListsTexts(doc, path) {
      var item :| item in Get(doc, path).value.items && item.Str?;
      assert item.text in StringMembers(list);
    }
    if StringMembers(list) != {} {
      var text :| text in StringMembers(list);
      assert Str(text) in Get(doc, path).value.items && Str(text).Str?;
    }
  }

  lemma At(members: Members, a: string, b: string)
    ensures Lookup(MappingOrEmpty(Lookup(members, a)), b) == Get(Obj(members), [a, b])
  {
    assert [a, b][1..] == [b];
    if a in members {
      GetOne(members[a], b);
    }
  }

  lemma Below(members: Members, a: string, b: string, c: string)
    ensures Lookup(MappingOrEmpty(Lookup(MappingOrEmpty(Lookup(members, a)), b)), c) == Get(Obj(members), [a, b, c])
  {
    assert [a, b, c][1..] == [b, c];
    At(MappingOrEmpty(Lookup(members, a)), b, c);
  }

  lemma BelowTwice(members: Members, a: string, b: string, c: string, d: string)
    ensures var inner := MappingOrEmpty(Lookup(MappingOrEmpty(Lookup(members, a)), b));
            Lookup(MappingOrEmpty(Lookup(inner, c)), d) == Get(Obj(members), [a, b, c, d])
  {
    assert [a, b, c, d][1..] == [b, c, d];
    Below(MappingOrEmpty(Lookup(members, a)), b, c, d);
  }

  // An action's override wins over the category's, and that over the default, key by key.
  lemma ReviewPrecedence(host: Host, policy: Members, payload: Members, key: string)
    ensures var action, category := Says(host, payload, "action", ""), Says(host, payload, "category", "");
            var byAction := Get(Obj(policy), ["review", "actions", action, key]);
            var byCategory := Get(Obj(policy), ["review", "categories", category, key]);
            Lookup(ReviewConfig(host, policy, payload), key) ==
            if byAction.Some? then byAction else if byCategory.Some? then byCategory
            else Get(Obj(policy), ["review", "defaults", key])
  {
    SaysIs(host, payload, "action", "");
    SaysIs(host, payload, "category", "");
    BelowTwice(policy, "review", "actions", Says(host, payload, "action", ""), key);
    BelowTwice(policy, "review", "categories", Says(host, payload, "category", ""), key);
    Below(policy, "review", "defaults", key);
  }

  function ReviewOf(host: Host, config: Members, policyId: string, fallback: string): Review {
    var mode := Strip(if "mode" in config then TextOf(host, config["mode"]) else "manual");
    var delegateTo := Stated(Lookup(config, "delegate_to"));
    var target := Stated(Lookup(config, if "review_target" in config then "review_target" else "target"));
    var reason := Stated(Lookup(config, "reason"));
    Review(if mode == "" then "manual" else mode, if target.Some? then target else delegateTo,
           if reason.Some? then reason.value else fallback, policyId, delegateTo)
  }

  function BuildDecision(host: Host, policy: Members, payload: Members, decision: string, reasons: seq<string>,
                         matched: seq<string>, policyId: string, fallback: string): Decision {
    Decision(decision, reasons, matched,
             if decision == REQUIRE_APPROVAL
               then Some(ReviewOf(host, ReviewConfig(host, policy, payload), policyId, fallback))
               else None)
  }

  // The text without the white space around it.
  ghost predicate Trimmed(text: string, stripped: string) {
    && (exists before, behind :: IsBlank(before) && IsBlank(behind) && text == before + stripped + behind)
    && (stripped != "" ==> !IsSpace(stripped[0]) && !IsSpace(Last(stripped)))
  }

  lemma StripIsTrimmed(text: string)
    ensures Trimmed(text, Strip(text)) && (Strip(text) != "" ==> !IsBlank(Strip(text)))
  {
    var before, behind := StripTakesSpace(text);
    StripLeavesNoSpace(text);
    if Strip(text) != "" {
      assert !IsSpace(Strip(text)[0]);
    }
  }

  // The key is configured with a text that is not blank.
  predicate States(config: Members, key: string) {
    key in config && config[key].Str? && !IsBlank(config[key].text)
  }

  lemma BlankIff(text: string)
    ensures IsBlank(text) <==> Strip(text) == ""
  {
    var before, behind := StripTakesSpace(text);
    StripLeavesNoSpace(text);
    if Strip(text) != "" {
      assert text[|before|] == Strip(text)[0];
    }
  }

  lemma StatedIff(config: Members, key: string)
    ensures Stated(Lookup(config, key)).Some? <==> States(config, key)
    ensures States(config, key) ==> Trimmed(config[key].text, Stated(Lookup(config, key)).value)
  {
    if key in config && config[key].Str? {
      StripIsTrimmed(config[key].text);
      BlankIff(config[key].text);
    }
  }

  // What review metadata states: the configured text without the white space around it where there is one that is not
  // blank, and otherwise the mode "manual", the delegate for the target, the given reason.
  lemma ReviewStated(host: Host, config: Members, policyId: string, fallback: string)
    ensures var review := ReviewOf(host, config, policyId, fallback);
            var target := if "review_target" in config then "review_target" else "target";
            && review.policyId == policyId
            && (if "mode" in config && !IsBlank(TextOf(host, config["mode"]))
                then Trimmed(TextOf(host, config["mode"]), review.mode) else review.mode == "manual")
            && (if States(config, "delegate_to")
                then review.delegateTo.Some? && Trimmed(config["delegate_to"].text, review.delegateTo.value)
                else review.delegateTo.None?)
            && (if States(config, target) then review.target.Some? && Trimmed(config[target].text, review.target.value)
                else review.target == review.delegateTo)
            && (if States(config, "reason") then Trimmed(config["reason"].text, review.reason)
                else review.reason == fallback)
  {
    StatedIff(config, "delegate_to");
    StatedIff(config, "review_target");
    StatedIff(config, "target");
    StatedIff(config, "reason");
    if "mode" in config {
      StripIsTrimmed(TextOf(host, config["mode"]));
      BlankIff(TextOf(host, config["mode"]));
    }
    ManualIsStripped();
  }

  lemma ManualIsStripped()
    ensures Strip("manual") == "manual" && !IsBlank("manual")
  {
    assert !IsSpace("manual"[0]) && !IsSpace(Last("manual"));
  }

  // --- Evaluation ---

  const ALLOW := "allow"
  const DENY := "deny"
  const REQUIRE_APPROVAL := "require_approval"

  function DefaultDecision(policy: Members): Json {
    var defaults := MappingOrEmpty(Lookup(policy, "defaults"));
    if "decision" in defaults then defaults["decision"] else Str(DENY)
  }

  function ZoneOf(host: Host, policy: Members, payload: Members): Members {
    MappingOrEmpty(Lookup(MappingOrEmpty(Lookup(policy, "zones")), Field(host, payload, "trust_zone", "unknown")))
  }

  // The action or category is in a pair of lists of a mapping.
  predicate Named(host: Host, payload: Members, lists: Members, actions: string, categories: string) {
    Field(host, payload, "action", "") in StringMembers(Lookup(lists, actions))
    || Field(host, payload, "category", "") in StringMembers(Lookup(lists, categories))
  }

  // The first gate that denies, by its reason.
  function Gate(host: Host, policy: Members, payload: Members): Option<string> {
    var zone, zoneName := ZoneOf(host, policy, payload), Field(host, payload, "trust_zone", "unknown");
    var kind := Field(host, payload, "target_kind", "");
    var targets := StringMembers(Lookup(MappingOrEmpty(Lookup(policy, "allowlists")), kind));
    if Named(host, payload, zone, "deny_actions", "deny_categories")
      then Some("zone:" + zoneName + ":action/category denied")
    else if StringMembers(Lookup(zone, "allow_actions")) + StringMembers(Lookup(zone, "allow_categories")) != {}
            && !Named(host, payload, zone, "allow_actions", "allow_categories")
    then Some("zone:" + zoneName + ":not in allowlist")
    else if kind != "" && targets != {} && Field(host, payload, "target", "") !in targets
    then Some("target:" + kind + ":not allowlisted")
    else None
  }

  function RulesOf(policy: Members): seq<Json> {
    var rules := Lookup(policy, "rules");
    if rules.Some? && rules.value.List? then rules.value.items else []
  }

  predicate Matches(host: Host, rule: Json, payload: Members) {
    && rule.Obj? && MappingOrNone(Lookup(rule.members, "when")).Some?
    && Satisfied(host, rule.members["when"], Obj(payload))
  }

  function Outcome(host: Host, rule: Json, default: Json): string
    requires rule.Obj?
  {
    TextOf(host, if "decision" in rule.members then rule.members["decision"] else default)
  }

  // The rule matches and ends the evaluation.
  predicate Stops(host: Host, rule: Json, payload: Members, default: Json) {
    Matches(host, rule, payload) && Outcome(host, rule, default) in {DENY, REQUIRE_APPROVAL}
  }

  datatype Walk = Walk(matched: seq<string>, reasons: seq<string>, stop: Option<string>)

  function RuleId(host: Host, rule: Json, matched: seq<string>): string
    requires rule.Obj?
  {
    if "id" in rule.members then TextOf(host, rule.members["id"]) else "rule-" + host.str(Int(|matched| + 1))
  }

  // The rules in order: each that matches is noted, and the first that stops ends the walk.
  function WalkRules(host: Host, rules: seq<Json>, payload: Members, default: Json, matched: seq<string>,
                     reasons: seq<string>): (walk: Walk)
    ensures walk.stop.Some? ==> walk.matched != [] && walk.reasons != [] && walk.stop.value in {DENY, REQUIRE_APPROVAL}
  {
    if rules == [] then Walk(matched, reasons, None)
    else if !Matches(host, rules[0], payload) then WalkRules(host, rules[1..], payload, default, matched, reasons)
    else
      var id := RuleId(host, rules[0], matched);
      var note := if "reason" in rules[0].members then TextOf(host, rules[0].members["reason"]) else id;
      if Stops(host, rules[0], payload, default)
      then Walk(matched + [id], reasons + [note], Some(Outcome(host, rules[0], default)))
      else WalkRules(host, rules[1..], payload, default, matched + [id], reasons + [note])
  }

  function ApprovalPolicyId(host: Host, policy: Members, payload: Members): Option<string> {
    var approval := MappingOrEmpty(Lookup(policy, "approval"));
    var action, category := Field(host, payload, "action", ""), Field(host, payload, "category", "");
    if action in StringMembers(Lookup(approval, "require_for_actions")) then Some("approval.actions." + action)
    else if category in StringMembers(Lookup(approval, "require_for_categories"))
      then Some("approval.categories." + category)
    else None
  }

  // After the rules: the approval matrix, then the default.
  function AfterRules(host: Host, policy: Members, payload: Members, walk: Walk): Decision {
    var approval := ApprovalPolicyId(host, policy, payload);
    if approval.Some? then
      BuildDecision(host, policy, payload, REQUIRE_APPROVAL, walk.reasons + ["approval required by approval matrix"],
                    walk.matched,
                    approval.value, "approval required by approval matrix")
    else
      BuildDecision(host, policy, payload, TextOf(host, DefaultDecision(policy)),
                    if walk.reasons == [] then ["default"] else walk.reasons, walk.matched, "defaults.decision",
                    if walk.reasons == [] then "default" else Last(walk.reasons))
  }

  function Evaluate(host: Host, policy: Members, payload: Members): Decision {
    var gate := Gate(host, policy, payload);
    if gate.Some? then Decision(DENY, [gate.value], [], None)
    else
      var walk := WalkRules(host, RulesOf(policy), payload, DefaultDecision(policy), [], []);
      if walk.stop == Some(DENY) then Decision(DENY, walk.reasons, walk.matched, None)
      else if walk.stop.Some? then
        BuildDecision(host, policy, payload, walk.stop.value, walk.reasons, walk.matched, Last(walk.matched),
                      Last(walk.reasons))
      else AfterRules(host, policy, payload, walk)
  }

  // The rule loop: both lists are filled in place, and the first rule that ends the evaluation leaves the loop.
  method NoteRules(host: Host, rules: seq<Json>, payload: Members, default: Json)
    returns (matched: seq<string>, reasons: seq<string>, stop: Option<string>)
    ensures Walk(matched, reasons, stop) == WalkRules(host, rules, payload, default, [], [])
  {
    matched, reasons, stop := [], [], None;
    for n := 0 to |rules|
      invariant WalkRules(host, rules[n..], payload, default, matched, reasons)
                == WalkRules(host, rules, payload, default, [], [])
    {
      assert rules[n..][0] == rules[n] && rules[n..][1..] == rules[n + 1..];
      var matches := RuleMatches(host, rules[n], payload);
      if matches {
        var rule := rules[n].members;
        var id := RuleId(host, rules[n], matched);
        matched := matched + [id];
        var outcome := TextOf(host, if "decision" in rule then rule["decision"] else default);
        reasons := reasons + [if "reason" in rule then TextOf(host, rule["reason"]) else id];
        if outcome == DENY || outcome == REQUIRE_APPROVAL {
          stop := Some(outcome);
          return;
        }
      }
    }
  }

  method RuleMatches(host: Host, rule: Json, payload: Members) returns (ok: bool)
    ensures ok == Matches(host, rule, payload)
  {
    if !rule.Obj? {
      return false;
    }
    var condition := MappingOrNone(Lookup(rule.members, "when"));
    if condition.None? {
      return false;
    }
    assert rule.members["when"] == Obj(condition.value);
    ok := MatchMapping(host, condition.value, payload);
  }

  method EvaluatePayload(host: Host, policy: Members, payload: Members) returns (r: Decision)
    ensures r == Evaluate(host, policy, payload)
  {
    var gate := Gate(host, policy, payload);
    if gate.Some? {
      return Decision(DENY, [gate.value], [], None);
    }
    var matched, reasons, stop := NoteRules(host, RulesOf(policy), payload, DefaultDecision(policy));
    if stop == Some(DENY) {
      return Decision(DENY, reasons, matched, None);
    }
    var config := ResolveReviewConfig(host, policy, payload);
    if stop.Some? {
      return Decision(stop.value, reasons, matched, Some(ReviewOf(host, config, Last(matched), Last(reasons))));
    }
    var approval := ApprovalPolicyId(host, policy, payload);
    if approval.Some? {
      reasons := reasons + ["approval required by approval matrix"];
      return Decision(REQUIRE_APPROVAL, reasons, matched, Some(ReviewOf(host, config, approval.value, Last(reasons))));
    }
    var decision := TextOf(host, DefaultDecision(policy));
    if reasons == [] {
      reasons := ["default"];
    }
    if decision != REQUIRE_APPROVAL {
      return Decision(decision, reasons, matched, None);
    }
    return Decision(decision, reasons, matched, Some(ReviewOf(host, config, "defaults.decision", Last(reasons))));
  }

  // --- Main results ---

  // The rules that end the evaluation of this payload, in order.
  function Stoppers(host: Host, rules: seq<Json>, payload: Members, default: Json): seq<Json> {
    if rules == [] then []
    else (if Stops(host, rules[0], payload, default) then [rules[0]] else [])
         + Stoppers(host, rules[1..], payload, default)
  }

  lemma {:induction false} StoppersStop(host: Host, rules: seq<Json>, payload: Members, default: Json,
                                        matched: seq<string>, reasons: seq<string>)
    ensures var stoppers := Stoppers(host, rules, payload, default);
            WalkRules(host, rules, payload, default, matched, reasons).stop ==
            if stoppers == [] then None else if stoppers[0].Obj? then Some(Outcome(host, stoppers[0], default))
              else None
  {
    if rules != [] && !Stops(host, rules[0], payload, default) {
      if Matches(host, rules[0], payload) {
        var id := RuleId(host, rules[0], matched);
        var note := if "reason" in rules[0].members then TextOf(host, rules[0].members["reason"]) else id;
        StoppersStop(host, rules[1..], payload, default, matched + [id], reasons + [note]);
      } else {
        StoppersStop(host, rules[1..], payload, default, matched, reasons);
      }
    }
  }

  // The first rule, in order, that matches and ends the evaluation.
  predicate FirstStop(host: Host, rules: seq<Json>, payload: Members, default: Json, k: int) {
    0 <= k < |rules| && Stops(host, rules[k], payload, default)
    && forall j :: 0 <= j < k ==> !Stops(host, rules[j], payload, default)
  }

  lemma {:induction false} StoppersFirst(host: Host, rules: seq<Json>, payload: Members, default: Json)
    ensures var stoppers := Stoppers(host, rules, payload, default);
            && (stoppers == [] <==> forall rule :: rule in rules ==> !Stops(host, rule, payload, default))
            && (stoppers != [] ==> exists k :: FirstStop(host, rules, payload, default, k) && stoppers[0] == rules[k])
  {
    if rules != [] {
      StoppersFirst(host, rules[1..], payload, default);
      if Stops(host, rules[0], payload, default) {
        assert FirstStop(host, rules, payload, default, 0);
      } else if Stoppers(host, rules, payload, default) != [] {
        var k :| FirstStop(host, rules[1..], payload, default, k)
                 && Stoppers(host, rules[1..], payload, default)[0] == rules[1..][k];
        assert forall j :: 0 < j < |rules| ==> rules[j] == rules[1..][j - 1];
        assert FirstStop(host, rules, payload, default, k + 1);
      }
    }
  }

  // The zone denies the action or the category; the zone allows some and neither of these; the kind of target has a
  // list without this target.
  predicate ZoneDenies(host: Host, policy: Members, payload: Members) {
    var zone := Says(host, payload, "trust_zone", "unknown");
    || Lists(Obj(policy), ["zones", zone, "deny_actions"], Says(host, payload, "action", ""))
    || Lists(Obj(policy), ["zones", zone, "deny_categories"], Says(host, payload, "category", ""))
  }

  predicate ZoneAllowsOthers(host: Host, policy: Members, payload: Members) {
    var zone := Says(host, payload, "trust_zone", "unknown");
    && (ListsTexts(Obj(policy), ["zones", zone, "allow_actions"])
        || ListsTexts(Obj(policy), ["zones", zone, "allow_categories"]))
    && !Lists(Obj(policy), ["zones", zone, "allow_actions"], Says(host, payload, "action", ""))
    && !Lists(Obj(policy), ["zones", zone, "allow_categories"], Says(host, payload, "category", ""))
  }

  predicate TargetMissing(host: Host, policy: Members, payload: Members) {
    var kind := Says(host, payload, "target_kind", "");
    && kind != "" && ListsTexts(Obj(policy), ["allowlists", kind])
    && !Lists(Obj(policy), ["allowlists", kind], Says(host, payload, "target", ""))
  }

  predicate Denied(host: Host, policy: Members, payload: Members) {
    ZoneDenies(host, policy, payload) || ZoneAllowsOthers(host, policy, payload) || TargetMissing(host, policy, payload)
  }

  lemma ZoneLists(host: Host, policy: Members, payload: Members, lists: string)
    ensures var zone := Says(host, payload, "trust_zone", "unknown");
            var list := Lookup(ZoneOf(host, policy, payload), lists);
            && (forall text :: text in StringMembers(list) <==> Lists(Obj(policy), ["zones", zone, lists], text))
            && (StringMembers(list) != {} <==> ListsTexts(Obj(policy), ["zones", zone, lists]))
  {
    var zone := Says(host, payload, "trust_zone", "unknown");
    SaysIs(host, payload, "trust_zone", "unknown");
    Below(policy, "zones", zone, lists);
    ListAt(Lookup(ZoneOf(host, policy, payload), lists), Obj(policy), ["zones", zone, lists]);
  }

  lemma ZoneNames(host: Host, policy: Members, payload: Members, actions: string, categories: string)
    ensures var zone := Says(host, payload, "trust_zone", "unknown");
            Named(host, payload, ZoneOf(host, policy, payload), actions, categories) <==>
            || Lists(Obj(policy), ["zones", zone, actions], Says(host, payload, "action", ""))
            || Lists(Obj(policy), ["zones", zone, categories], Says(host, payload, "category", ""))
  {
    SaysIs(host, payload, "action", "");
    SaysIs(host, payload, "category", "");
    ZoneLists(host, policy, payload, actions);
    ZoneLists(host, policy, payload, categories);
  }

  lemma ZoneAllowsSome(host: Host, policy: Members, payload: Members)
    ensures var zone, lists := Says(host, payload, "trust_zone", "unknown"), ZoneOf(host, policy, payload);
            StringMembers(Lookup(lists, "allow_actions")) + StringMembers(Lookup(lists, "allow_categories")) != {} <==>
            || ListsTexts(Obj(policy), ["zones", zone, "allow_actions"])
            || ListsTexts(Obj(policy), ["zones", zone, "allow_categories"])
  {
    ZoneLists(host, policy, payload, "allow_actions");
    ZoneLists(host, policy, payload, "allow_categories");
  }

  // The gate that denies is the first of the three, and its reason names the zone or the kind of target.
  lemma GateIs(host: Host, policy: Members, payload: Members)
    ensures var zone, kind := Says(host, payload, "trust_zone", "unknown"), Says(host, payload, "target_kind", "");
            Gate(host, policy, payload) ==
            if ZoneDenies(host, policy, payload) then Some("zone:" + zone + ":action/category denied")
            else if ZoneAllowsOthers(host, policy, payload) then Some("zone:" + zone + ":not in allowlist")
            else if TargetMissing(host, policy, payload) then Some("target:" + kind + ":not allowlisted")
            else None
  {
    SaysIs(host, payload, "trust_zone", "unknown");
    SaysIs(host, payload, "target_kind", "");
    SaysIs(host, payload, "target", "");
    ZoneNames(host, policy, payload, "deny_actions", "deny_categories");
    ZoneNames(host, policy, payload, "allow_actions", "allow_categories");
    ZoneAllowsSome(host, policy, payload);
    var kind := Says(host, payload, "target_kind", "");
    At(policy, "allowlists", kind);
    ListAt(Get(Obj(policy), ["allowlists", kind]), Obj(policy), ["allowlists", kind]);
  }

  // The approval matrix names the action or the category.
  predicate MatrixAsks(host: Host, policy: Members, payload: Members) {
    || Lists(Obj(policy), ["approval", "require_for_actions"], Says(host, payload, "action", ""))
    || Lists(Obj(policy), ["approval", "require_for_categories"], Says(host, payload, "category", ""))
  }

  lemma MatrixIs(host: Host, policy: Members, payload: Members)
    ensures ApprovalPolicyId(host, policy, payload) ==
            if Lists(Obj(policy), ["approval", "require_for_actions"], Says(host, payload, "action", ""))
            then Some("approval.actions." + Says(host, payload, "action", ""))
            else if MatrixAsks(host, policy, payload)
            then Some("approval.categories." + Says(host, payload, "category", "")) else None
  {
    SaysIs(host, payload, "action", "");
    SaysIs(host, payload, "category", "");
    At(policy, "approval", "require_for_actions");
    At(policy, "approval", "require_for_categories");
    ListAt(Get(Obj(policy), ["approval", "require_for_actions"]), Obj(policy), ["approval", "require_for_actions"]);
    ListAt(Get(Obj(policy), ["approval", "require_for_categories"]), Obj(policy),
           ["approval", "require_for_categories"]);
  }

  // The default decision of the policy, as text.
  function DefaultText(host: Host, policy: Members): string {
    var value := Get(Obj(policy), ["defaults", "decision"]);
    if value.Some? then TextOf(host, value.value) else "deny"
  }

  // What the rule says under a key, as text.
  function RuleSays(host: Host, rule: Json, key: string, default: string): string {
    if Get(rule, [key]).Some? then TextOf(host, Get(rule, [key]).value) else default
  }

  // The rule's condition is a mapping that the payload satisfies, and it denies or asks for approval.
  predicate Ends(host: Host, policy: Members, rule: Json, payload: Members) {
    && MappingAt(rule, ["when"]) && Satisfied(host, Get(rule, ["when"]).value, Obj(payload))
    && RuleSays(host, rule, "decision", DefaultText(host, policy)) in {"deny", "require_approval"}
  }

  lemma StopsIff(host: Host, policy: Members, rule: Json, payload: Members)
    ensures Stops(host, rule, payload, DefaultDecision(policy)) <==> Ends(host, policy, rule, payload)
    ensures rule.Obj? ==> Outcome(host, rule, DefaultDecision(policy))
                          == RuleSays(host, rule, "decision", DefaultText(host, policy))
    ensures TextOf(host, DefaultDecision(policy)) == DefaultText(host, policy)
  {
    At(policy, "defaults", "decision");
    GetOne(rule, "when");
    GetOne(rule, "decision");
  }

  lemma RulesAt(policy: Members)
    ensures RulesOf(policy) == (var rules := Get(Obj(policy), ["rules"]);
                                if rules.Some? && rules.value.List? then rules.value.items else [])
  {
    GetOne(Obj(policy), "rules");
  }

  // The first rule, in order, that the payload meets and that denies or asks for approval.
  predicate EndsFirst(host: Host, policy: Members, payload: Members, k: int) {
    var rules := Get(Obj(policy), ["rules"]);
    && rules.Some? && rules.value.List? && 0 <= k < |rules.value.items|
    && Ends(host, policy, rules.value.items[k], payload)
    && forall j :: 0 <= j < k ==> !Ends(host, policy, rules.value.items[j], payload)
  }

  lemma AllStopsIff(host: Host, policy: Members, payload: Members)
    ensures forall rule :: Stops(host, rule, payload, DefaultDecision(policy)) <==> Ends(host, policy, rule, payload)
  {
    forall rule ensures Stops(host, rule, payload, DefaultDecision(policy)) <==> Ends(host, policy, rule, payload) {
      StopsIff(host, policy, rule, payload);
    }
  }

  lemma FirstStopIff(host: Host, policy: Members, payload: Members, k: int)
    ensures FirstStop(host, RulesOf(policy), payload, DefaultDecision(policy), k)
            <==> EndsFirst(host, policy, payload, k)
  {
    RulesAt(policy);
    AllStopsIff(host, policy, payload);
  }

  // What the rules decide.
  lemma RulesDecide(host: Host, policy: Members, payload: Members)
    ensures var stop := WalkRules(host, RulesOf(policy), payload, DefaultDecision(policy), [], []).stop;
            if exists k :: EndsFirst(host, policy, payload, k)
            then exists k :: EndsFirst(host, policy, payload, k) && stop ==
                   Some(RuleSays(host, Get(Obj(policy), ["rules"]).value.items[k], "decision",
                                 DefaultText(host, policy)))
            else stop == None
  {
    var rules, default := RulesOf(policy), DefaultDecision(policy);
    RulesAt(policy);
    StoppersStop(host, rules, payload, default, [], []);
    StoppersFirst(host, rules, payload, default);
    if Stoppers(host, rules, payload, default) != [] {
      var k :| FirstStop(host, rules, payload, default, k) && Stoppers(host, rules, payload, default)[0] == rules[k];
      FirstStopIff(host, policy, payload, k);
      StopsIff(host, policy, rules[k], payload);
    } else if k :| EndsFirst(host, policy, payload, k) {
      FirstStopIff(host, policy, payload, k);
      assert false;
    }
  }

  // What is decided, read off the documents: deny at a gate, then by the first rule that ends the evaluation, then the
  // approval matrix, then the default.
  lemma {:induction false} DecisionIs(host: Host, policy: Members, payload: Members)
    ensures var decision := Evaluate(host, policy, payload).decision;
            if Denied(host, policy, payload) then decision == "deny"
            else if exists k :: EndsFirst(host, policy, payload, k)
            then exists k :: EndsFirst(host, policy, payload, k) && decision ==
                   RuleSays(host, Get(Obj(policy), ["rules"]).value.items[k], "decision", DefaultText(host, policy))
            else if MatrixAsks(host, policy, payload) then decision == "require_approval"
            else decision == DefaultText(host, policy)
  {
    GateIs(host, policy, payload);
    MatrixIs(host, policy, payload);
    StopsIff(host, policy, Null, payload);
    RulesDecide(host, policy, payload);
  }

  // Allow exactly when no gate denies, no rule that the payload meets denies or asks for approval, the approval matrix
  // names neither the action nor the category, and the default is allow.
  lemma {:induction false} AllowIff(host: Host, policy: Members, payload: Members)
    ensures Evaluate(host, policy, payload).decision == "allow" <==>
              && !Denied(host, policy, payload)
              && (forall rule :: rule in RulesOf(policy) ==> !Ends(host, policy, rule, payload))
              && !MatrixAsks(host, policy, payload)
              && DefaultText(host, policy) == "allow"
  {
    DecisionIs(host, policy, payload);
    StoppersFirst(host, RulesOf(policy), payload, DefaultDecision(policy));
    AllStopsIff(host, policy, payload);
    RulesAt(policy);
    if k :| EndsFirst(host, policy, payload, k) {
      assert RulesOf(policy)[k] in RulesOf(policy);
    } else if rule :| rule in RulesOf(policy) && Ends(host, policy, rule, payload) {
      var k :| FirstStop(host, RulesOf(policy), payload, DefaultDecision(policy), k);
      FirstStopIff(host, policy, payload, k);
      assert false;
    }
    assert "allow"[0] != "deny"[0] && "allow"[0] != "require_approval"[0];
  }

  function WithRules(policy: Members, rules: seq<Json>): Members {
    policy["rules" := List(rules)]
  }

  // Replacing the rules leaves everything else the evaluation looks at.
  lemma RulesAlone(host: Host, policy: Members, payload: Members, rules: seq<Json>)
    ensures var after := WithRules(policy, rules);
            && RulesOf(after) == rules
            && Gate(host, after, payload) == Gate(host, policy, payload)
            && DefaultDecision(after) == DefaultDecision(policy)
            && ApprovalPolicyId(host, after, payload) == ApprovalPolicyId(host, policy, payload)
            && Lookup(after, "approval") == Lookup(policy, "approval")
  {
    var after := WithRules(policy, rules);
    assert Lookup(after, "zones") == Lookup(policy, "zones") by { assert "rules"[0] != "zones"[0]; }
    assert Lookup(after, "defaults") == Lookup(policy, "defaults") by { assert "rules"[0] != "defaults"[0]; }
    assert Lookup(after, "allowlists") == Lookup(policy, "allowlists") by { assert "rules"[0] != "allowlists"[0]; }
    assert Lookup(after, "approval") == Lookup(policy, "approval") by { assert "rules"[0] != "approval"[0]; }
  }

  // The rules the payload meets, up to the first that ends the evaluation.
  function Noted(host: Host, policy: Members, payload: Members, rules: seq<Json>): seq<Json> {
    if rules == [] then []
    else if !MappingAt(rules[0], ["when"]) || !Satisfied(host, Get(rules[0], ["when"]).value, Obj(payload))
    then Noted(host, policy, payload, rules[1..])
    else [rules[0]] + if Ends(host, policy, rules[0], payload) then [] else Noted(host, policy, payload, rules[1..])
  }

  // The n-th rule noted is named by its id, or by its number among them; its reason is its own or its name.
  predicate NotedAs(host: Host, rule: Json, n: nat, id: string, reason: string) {
    id == RuleSays(host, rule, "id", "rule-" + host.str(Int(n))) && reason == RuleSays(host, rule, "reason", id)
  }

  lemma RuleNoted(host: Host, policy: Members, rule: Json, payload: Members, matched: seq<string>)
    requires Matches(host, rule, payload)
    ensures var id := RuleId(host, rule, matched);
            var note := if "reason" in rule.members then TextOf(host, rule.members["reason"]) else id;
            NotedAs(host, rule, |matched| + 1, id, note)
  {
    GetOne(rule, "id");
    GetOne(rule, "reason");
  }

  lemma MatchesIff(host: Host, rule: Json, payload: Members)
    ensures Matches(host, rule, payload) <==>
            MappingAt(rule, ["when"]) && Satisfied(host, Get(rule, ["when"]).value, Obj(payload))
  {
    GetOne(rule, "when");
  }

  // All of them, from the n-th on.
  predicate AllNoted(host: Host, noted: seq<Json>, n: nat, names: seq<string>, notes: seq<string>) {
    && |noted| == |names| == |notes|
    && (noted == [] || (&& NotedAs(host, noted[0], n, names[0], notes[0])
                        && AllNoted(host, noted[1..], n + 1, names[1..], notes[1..])))
  }

  lemma {:induction false} AllNotedAt(host: Host, noted: seq<Json>, n: nat, names: seq<string>, notes: seq<string>,
                                      k: nat)
    requires AllNoted(host, noted, n, names, notes) && k < |noted|
    ensures NotedAs(host, noted[k], n + k, names[k], notes[k])
  {
    if k > 0 {
      AllNotedAt(host, noted[1..], n + 1, names[1..], notes[1..], k - 1);
    }
  }

  lemma WalkStep(host: Host, policy: Members, payload: Members, rules: seq<Json>, matched: seq<string>,
                 reasons: seq<string>)
    returns (id: string, note: string)
    requires rules != [] && Matches(host, rules[0], payload)
    ensures NotedAs(host, rules[0], |matched| + 1, id, note)
    ensures var walk := WalkRules(host, rules, payload, DefaultDecision(policy), matched, reasons);
            if Ends(host, policy, rules[0], payload)
            then walk.matched == matched + [id] + [] && walk.reasons == reasons + [note] + []
            else walk == WalkRules(host, rules[1..], payload, DefaultDecision(policy), matched + [id], reasons + [note])
  {
    StopsIff(host, policy, rules[0], payload);
    RuleNoted(host, policy, rules[0], payload, matched);
    id := RuleId(host, rules[0], matched);
    note := if "reason" in rules[0].members then TextOf(host, rules[0].members["reason"]) else id;
  }

  lemma Regroup(before: seq<string>, text: string, behind: seq<string>)
    ensures before + [text] + behind == before + ([text] + behind)
  {
  }

  lemma WalkSkip(host: Host, policy: Members, payload: Members, rules: seq<Json>, matched: seq<string>,
                 reasons: seq<string>)
    requires rules != [] && !Matches(host, rules[0], payload)
    ensures Noted(host, policy, payload, rules) == Noted(host, policy, payload, rules[1..])
    ensures WalkRules(host, rules, payload, DefaultDecision(policy), matched, reasons)
            == WalkRules(host, rules[1..], payload, DefaultDecision(policy), matched, reasons)
  {
    MatchesIff(host, rules[0], payload);
  }

  lemma {:induction false} WalkNotes(host: Host, policy: Members, payload: Members, rules: seq<Json>,
                                     matched: seq<string>, reasons: seq<string>)
    returns (names: seq<string>, notes: seq<string>)
    ensures var walk := WalkRules(host, rules, payload, DefaultDecision(policy), matched, reasons);
            walk.matched == matched + names && walk.reasons == reasons + notes
    ensures AllNoted(host, Noted(host, policy, payload, rules), |matched| + 1, names, notes)
  {
    names, notes := [], [];
    if rules != [] {
      if !Matches(host, rules[0], payload) {
        WalkSkip(host, policy, payload, rules, matched, reasons);
        names, notes := WalkNotes(host, policy, payload, rules[1..], matched, reasons);
      } else {
        var id, note := WalkStep(host, policy, payload, rules, matched, reasons);
        if !Ends(host, policy, rules[0], payload) {
          names, notes := WalkNotes(host, policy, payload, rules[1..], matched + [id], reasons + [note]);
        }
        Regroup(matched, id, names);
        Regroup(reasons, note, notes);
        NotedMore(host, policy, payload, rules, |matched| + 1, id, note, names, notes);
        names, notes := [id] + names, [note] + notes;
      }
    }
  }

  lemma NotedMore(host: Host, policy: Members, payload: Members, rules: seq<Json>, n: nat, id: string, note: string,
                  names: seq<string>, notes: seq<string>)
    requires rules != [] && Matches(host, rules[0], payload) && NotedAs(host, rules[0], n, id, note)
    requires AllNoted(host, if Ends(host, policy, rules[0], payload) then []
                            else Noted(host, policy, payload, rules[1..]), n + 1, names, notes)
    ensures AllNoted(host, Noted(host, policy, payload, rules), n, [id] + names, [note] + notes)
  {
    MatchesIff(host, rules[0], payload);
    var rest := if Ends(host, policy, rules[0], payload) then [] else Noted(host, policy, payload, rules[1..]);
    assert Noted(host, policy, payload, rules) == [rules[0]] + rest;
    assert ([rules[0]] + rest)[1..] == rest && ([id] + names)[1..] == names && ([note] + notes)[1..] == notes;
  }

  // What the evaluation makes of the rules' notes.
  lemma {:induction false} ReasonsAre(host: Host, policy: Members, payload: Members)
    requires !Denied(host, policy, payload)
    ensures var d := Evaluate(host, policy, payload);
            var walk := WalkRules(host, RulesOf(policy), payload, DefaultDecision(policy), [], []);
            && d.matchedRules == walk.matched
            && d.reasons == walk.reasons + (if exists k :: EndsFirst(host, policy, payload, k) then []
                                            else if MatrixAsks(host, policy, payload)
                                            then ["approval required by approval matrix"]
                                            else if walk.reasons == [] then ["default"] else [])
  {
    GateIs(host, policy, payload);
    MatrixIs(host, policy, payload);
    RulesDecide(host, policy, payload);
  }

  lemma RulesNoted(host: Host, policy: Members, payload: Members)
    ensures var walk := WalkRules(host, RulesOf(policy), payload, DefaultDecision(policy), [], []);
            var noted := Noted(host, policy, payload, RulesOf(policy));
            && |walk.matched| == |walk.reasons| == |noted|
            && forall n :: 0 <= n < |noted| ==> NotedAs(host, noted[n], n + 1, walk.matched[n], walk.reasons[n])
  {
    var names, notes := WalkNotes(host, policy, payload, RulesOf(policy), [], []);
    assert [] + names == names && [] + notes == notes;
    var noted := Noted(host, policy, payload, RulesOf(policy));
    forall n | 0 <= n < |noted| ensures NotedAs(host, noted[n], n + 1, names[n], notes[n]) {
      AllNotedAt(host, noted, 1, names, notes, n);
    }
  }

  // What a decision that passed the gates reports: the rules noted, by name and reason, and then what else decided it.
  lemma {:induction false} DecisionReports(host: Host, policy: Members, payload: Members)
    requires !Denied(host, policy, payload)
    ensures var d := Evaluate(host, policy, payload); var noted := Noted(host, policy, payload, RulesOf(policy));
            && |d.matchedRules| == |noted| <= |d.reasons|
            && (forall n :: 0 <= n < |noted| ==> NotedAs(host, noted[n], n + 1, d.matchedRules[n], d.reasons[n]))
            && d.reasons[|noted|..] == (if exists k :: EndsFirst(host, policy, payload, k) then []
                                        else if MatrixAsks(host, policy, payload)
                                        then ["approval required by approval matrix"]
                                        else if noted == [] then ["default"] else [])
  {
    ReasonsAre(host, policy, payload);
    RulesNoted(host, policy, payload);
  }

  // Review metadata is there exactly when approval is asked for, and falls back on the last reason; it names the rule,
  // the matrix entry or the default that asked.
  predicate ReviewFits(host: Host, policy: Members, payload: Members, d: Decision) {
    && (d.review.Some? <==> d.decision == "require_approval") && d.reasons != []
    && (d.review.Some? ==>
          d.review.value == ReviewOf(host, ReviewConfig(host, policy, payload), d.review.value.policyId,
                                     Last(d.reasons)))
  }

  lemma BuiltFits(host: Host, policy: Members, payload: Members, decision: string, reasons: seq<string>,
                  matched: seq<string>, policyId: string)
    requires reasons != []
    ensures ReviewFits(host, policy, payload,
                       BuildDecision(host, policy, payload, decision, reasons, matched, policyId, Last(reasons)))
  {
  }

  lemma AfterRulesFit(host: Host, policy: Members, payload: Members, walk: Walk)
    ensures ReviewFits(host, policy, payload, AfterRules(host, policy, payload, walk))
  {
    var approval := ApprovalPolicyId(host, policy, payload);
    if approval.Some? {
      BuiltFits(host, policy, payload, REQUIRE_APPROVAL, walk.reasons + ["approval required by approval matrix"],
                walk.matched, approval.value);
    } else {
      BuiltFits(host, policy, payload, TextOf(host, DefaultDecision(policy)),
                if walk.reasons == [] then ["default"] else walk.reasons, walk.matched, "defaults.decision");
    }
  }

  lemma {:induction false} DecisionReview(host: Host, policy: Members, payload: Members)
    ensures ReviewFits(host, policy, payload, Evaluate(host, policy, payload))
  {
    var walk := WalkRules(host, RulesOf(policy), payload, DefaultDecision(policy), [], []);
    AfterRulesFit(host, policy, payload, walk);
    if walk.stop.Some? {
      BuiltFits(host, policy, payload, walk.stop.value, walk.reasons, walk.matched, Last(walk.matched));
    }
  }

  lemma {:induction false} ReviewNames(host: Host, policy: Members, payload: Members)
    requires Evaluate(host, policy, payload).review.Some? && !Denied(host, policy, payload)
    ensures var d := Evaluate(host, policy, payload);
            if exists k :: EndsFirst(host, policy, payload, k)
            then d.matchedRules != [] && d.review.value.policyId == Last(d.matchedRules)
            else d.review.value.policyId == OrElse(ApprovalPolicyId(host, policy, payload), "defaults.decision")
  {
    GateIs(host, policy, payload);
    RulesDecide(host, policy, payload);
  }

  function OrElse(value: Option<string>, fallback: string): string {
    if value.Some? then value.value else fallback
  }

  // A gate that denies is all its decision reports.
  lemma DenialReports(host: Host, policy: Members, payload: Members)
    requires Denied(host, policy, payload)
    ensures Gate(host, policy, payload).Some?
    ensures Evaluate(host, policy, payload) == Decision("deny", [Gate(host, policy, payload).value], [], None)
  {
    GateIs(host, policy, payload);
  }

  // The parts of the evaluation that allow.
  lemma AllowedBy(host: Host, policy: Members, payload: Members)
    ensures Evaluate(host, policy, payload).decision == ALLOW <==>
              && Gate(host, policy, payload).None? && ApprovalPolicyId(host, policy, payload).None?
              && (forall rule :: rule in RulesOf(policy) ==> !Stops(host, rule, payload, DefaultDecision(policy)))
              && TextOf(host, DefaultDecision(policy)) == ALLOW
  {
    AllowIff(host, policy, payload);
    GateIs(host, policy, payload);
    MatrixIs(host, policy, payload);
    StopsIff(host, policy, Null, payload);
    AllStopsIff(host, policy, payload);
  }

  // Adding rules, at any places and in any order, never turns another decision into allow.
  lemma {:induction false} AddingRulesNeverAllows(host: Host, policy: Members, payload: Members, fewer: seq<Json>,
                                                  more: seq<Json>)
    requires forall rule :: rule in fewer ==> rule in more
    requires Evaluate(host, WithRules(policy, fewer), payload).decision != ALLOW
    ensures Evaluate(host, WithRules(policy, more), payload).decision != ALLOW
  {
    RulesAlone(host, policy, payload, fewer);
    RulesAlone(host, policy, payload, more);
    AllowedBy(host, WithRules(policy, fewer), payload);
    AllowedBy(host, WithRules(policy, more), payload);
  }

  // They alone make the decision.
  lemma {:induction false} OnlyStoppersDecide(host: Host, policy: Members, payload: Members, rules: seq<Json>,
                                              others: seq<Json>)
    requires Stoppers(host, rules, payload, DefaultDecision(policy))
             == Stoppers(host, others, payload, DefaultDecision(policy))
    ensures Evaluate(host, WithRules(policy, rules), payload).decision
            == Evaluate(host, WithRules(policy, others), payload).decision
  {
    RulesAlone(host, policy, payload, rules);
    RulesAlone(host, policy, payload, others);
    StoppersStop(host, rules, payload, DefaultDecision(policy), [], []);
    StoppersStop(host, others, payload, DefaultDecision(policy), [], []);
  }

  // `others` is `rules` with some rules left out, none of which ends the evaluation of this payload.
  predicate Deleted(host: Host, rules: seq<Json>, others: seq<Json>, payload: Members, default: Json) {
    if rules == [] then others == []
    else
      (others != [] && others[0] == rules[0] && Deleted(host, rules[1..], others[1..], payload, default))
      || (!Stops(host, rules[0], payload, default) && Deleted(host, rules[1..], others, payload, default))
  }

  lemma {:induction false} DeletedKeepsStoppers(host: Host, rules: seq<Json>, others: seq<Json>, payload: Members,
                                                default: Json)
    requires Deleted(host, rules, others, payload, default)
    ensures Stoppers(host, rules, payload, default) == Stoppers(host, others, payload, default)
  {
    if rules != [] {
      if others != [] && others[0] == rules[0] && Deleted(host, rules[1..], others[1..], payload, default) {
        DeletedKeepsStoppers(host, rules[1..], others[1..], payload, default);
      } else {
        DeletedKeepsStoppers(host, rules[1..], others, payload, default);
      }
    }
  }

  // Deleting any number of rules that do not match or have any other outcome never changes the decision.
  lemma {:induction false} DeletingOthersKeepsDecision(host: Host, policy: Members, payload: Members,
                                                             rules: seq<Json>, others: seq<Json>)
    requires Deleted(host, rules, others, payload, DefaultDecision(policy))
    ensures Evaluate(host, WithRules(policy, rules), payload).decision
            == Evaluate(host, WithRules(policy, others), payload).decision
  {
    DeletedKeepsStoppers(host, rules, others, payload, DefaultDecision(policy));
    OnlyStoppersDecide(host, policy, payload, rules, others);
  }

  // A rule whose outcome is allow grants nothing: without it the decision is the same.
  lemma {:induction false} AllowRulesGrantNothing(host: Host, policy: Members, payload: Members, before: seq<Json>,
                                                  rule: Json, behind: seq<Json>)
    requires rule.Obj? && Outcome(host, rule, DefaultDecision(policy)) == ALLOW
    ensures Evaluate(host, WithRules(policy, before + [rule] + behind), payload).decision ==
            Evaluate(host, WithRules(policy, before + behind), payload).decision
  {
    assert ALLOW[0] != DENY[0] && ALLOW[0] != REQUIRE_APPROVAL[0];
    DeletedOne(host, before, rule, behind, payload, DefaultDecision(policy));
    DeletingOthersKeepsDecision(host, policy, payload, before + [rule] + behind, before + behind);
  }

  lemma {:induction false} DeletedNone(host: Host, rules: seq<Json>, payload: Members, default: Json)
    ensures Deleted(host, rules, rules, payload, default)
  {
    if rules != [] {
      DeletedNone(host, rules[1..], payload, default);
    }
  }

  lemma {:induction false} DeletedOne(host: Host, before: seq<Json>, rule: Json, behind: seq<Json>, payload: Members,
                                      default: Json)
    requires !Stops(host, rule, payload, default)
    ensures Deleted(host, before + [rule] + behind, before + behind, payload, default)
  {
    if before == [] {
      assert before + [rule] + behind == [rule] + behind && before + behind == behind;
      assert ([rule] + behind)[1..] == behind;
      DeletedNone(host, behind, payload, default);
    } else {
      DeletedOne(host, before[1..], rule, behind, payload, default);
      assert (before + [rule] + behind)[1..] == before[1..] + [rule] + behind;
      assert (before + behind)[1..] == before[1..] + behind;
    }
  }
}
