/**
 * The rule-based translator of task_translator.py: a thought is matched
 * against file rules in order, then against three built-in patterns, and
 * the code of the first match is returned.  The rule list is a parameter
 * (task_translator.py:31-44 reads it from a JSON file).
 */
module Translator {
  import opened Base
  import opened Text

  /* ---------------- rules ---------------- */

  /** The value under a rule's `patterns` or `pattern` key: JSON null, a string, or a list of strings and nulls. */
  datatype PatternValue = PNull | PString(s: string) | PList(items: seq<Option<string>>)

  /** One rule of the rules file; None is a missing key. */
  datatype Rule = Rule(patterns: Option<PatternValue>, pattern: Option<PatternValue>,
                       code: Option<string>, codeMacos: Option<string>)

  /** Python truthiness of an optional string. */
  predicate Given(v: Option<string>) {
    v.Some? && v.value != ""
  }

  /** task_translator.py:23-24: the environment names macOS. */
  predicate IsMacos(env: string) {
    Contains(Lower(env), "macos") || Contains(Lower(env), "darwin")
  }

  /** task_translator.py:27-28 */
  function ModifierKey(env: string): (r: string)
    ensures IsMacos(env) <==> r == "command"
    ensures !IsMacos(env) <==> r == "win"
  {
    if IsMacos(env) then "command" else "win"
  }

  /** task_translator.py:60: a rule with neither code is skipped. */
  predicate HasCode(rule: Rule) {
    Given(rule.code) || Given(rule.codeMacos)
  }

  /**
   * `rule.get("patterns", rule.get("pattern", []))`, a string wrapped into a
   * one-element list; null and the empty list both give [] and skip the rule.
   */
  function RulePatterns(rule: Rule): (r: seq<Option<string>>)
    ensures rule.patterns.Some? && rule.patterns.value.PString? ==> r == [Some(rule.patterns.value.s)]
    ensures rule.patterns.Some? && rule.patterns.value.PList? ==> r == rule.patterns.value.items
    ensures rule.patterns.Some? && rule.patterns.value.PNull? ==> r == []
    ensures rule.patterns.None? && rule.pattern.Some? && rule.pattern.value.PString? ==> r == [Some(rule.pattern.value.s)]
    ensures rule.patterns.None? && rule.pattern.Some? && rule.pattern.value.PList? ==> r == rule.pattern.value.items
    ensures rule.patterns.None? && rule.pattern.Some? && rule.pattern.value.PNull? ==> r == []
    ensures rule.patterns.None? && rule.pattern.None? ==> r == []
  {
    var v := if rule.patterns.Some? then rule.patterns.value
             else if rule.pattern.Some? then rule.pattern.value
             else PList([]);
    match v
    case PNull => []
    case PString(s) => [Some(s)]
    case PList(items) => items
  }

  /** A `patterns` key, even a null one, hides whatever `pattern` holds. */
  lemma PatternsKeyWins(rule: Rule, other: Option<PatternValue>)
    requires rule.patterns.Some?
    ensures RulePatterns(rule.(pattern := other)) == RulePatterns(rule)
  {
  }

  /** `(p or "").lower() in text` */
  predicate PatternMatches(p: Option<string>, text: string) {
    Contains(text, Lower(p.GetOr("")))
  }

  /** `rule.get("code_macos" if use_macos_code else "code") or rule.get("code")` */
  function ChosenCode(rule: Rule, mac: bool): (r: Option<string>)
    ensures mac && Given(rule.codeMacos) ==> r == rule.codeMacos
    ensures !(mac && Given(rule.codeMacos)) ==> r == rule.code
  {
    if mac && Given(rule.codeMacos) then rule.codeMacos else rule.code
  }

  predicate SomePatternMatches(pats: seq<Option<string>>, text: string) {
    exists q :: 0 <= q < |pats| && PatternMatches(pats[q], text)
  }

  /**
   * What one rule contributes: at the first matching pattern the chosen code
   * is returned with `{modifier}` substituted, or, when there is no such
   * code, the remaining patterns are skipped (`break`).
   */
  function RuleCode(rule: Rule, text: string, mac: bool, modifier: string): (r: Option<string>)
    ensures r.Some? <==> HasCode(rule) && SomePatternMatches(RulePatterns(rule), text) && Given(ChosenCode(rule, mac))
    ensures r.Some? ==> r.value == Strip(Replace(ChosenCode(rule, mac).value, "{modifier}", modifier))
  {
    var pats := RulePatterns(rule);
    var code := ChosenCode(rule, mac);
    if HasCode(rule) && SomePatternMatches(pats, text) && Given(code) then
      Some(Strip(Replace(code.value, "{modifier}", modifier)))
    else None
  }

  /** The scan over the file rules from index `i`: the first rule that yields code. */
  function FileRulesFrom(rules: seq<Rule>, i: nat, text: string, mac: bool, modifier: string): Option<string>
    requires i <= |rules|
    decreases |rules| - i
  {
    if i == |rules| then None
    else if RuleCode(rules[i], text, mac, modifier).Some? then RuleCode(rules[i], text, mac, modifier)
    else FileRulesFrom(rules, i + 1, text, mac, modifier)
  }

  /* ---------------- the type-and-enter patterns ---------------- */

  predicate IsQuote(c: char) { c == '\'' || c == '"' }

  predicate NoQuote(t: string) {
    forall k :: 0 <= k < |t| ==> !IsQuote(t[k])
  }

  /** `[^'"]*` from `j`: the end of the run of non-quote characters. */
  function SkipNonQuote(s: string, j: nat): (e: nat)
    requires j <= |s|
    ensures j <= e <= |s|
    ensures forall k :: j <= k < e ==> !IsQuote(s[k])
    ensures e < |s| ==> IsQuote(s[e])
    decreases |s| - j
  {
    if j < |s| && !IsQuote(s[j]) then SkipNonQuote(s, j + 1) else j
  }

  /**
   * Group 1 of `type\s+['"]?([^'"]+)['"]?\s*(?:and\s+)?(?:press\s+enter|then\s+enter)?`
   * at `i`.  Everything after the group is optional, so the greedy group is
   * never shortened; the matcher only backtracks when no non-quote follows
   * the whitespace (or the quote), and then gives the last whitespace
   * character to the group, which needs `\s+` to keep one.
   */
  function TypeAt(s: string, i: nat): (r: Option<string>)
    requires i <= |s|
    ensures r.Some? ==> OccursAt(s, "type", i) && r.value != "" && NoQuote(r.value) && Contains(s, r.value)
  {
    if !OccursAt(s, "type", i) then None
    else
      var j := i + 4;
      var e := SkipSpace(s, j);
      if e == j then None
      else if e + 1 < |s| && IsQuote(s[e]) && !IsQuote(s[e + 1]) then
        GroupFrom(s, e + 1)
      else if e < |s| && !IsQuote(s[e]) then
        GroupFrom(s, e)
      else if e - 1 > j then
        GroupFrom(s, e - 1)
      else None
  }

  /** The greedy `([^'"]+)` starting at a non-quote character `k`. */
  function GroupFrom(s: string, k: nat): (r: Option<string>)
    requires k < |s| && !IsQuote(s[k])
    ensures r.Some? && r.value != "" && NoQuote(r.value) && Contains(s, r.value)
    ensures r.value == s[k..SkipNonQuote(s, k)]
  {
    var e := SkipNonQuote(s, k);
    assert OccursAt(s, s[k..e], k);
    Some(s[k..e])
  }

  /** `re.search`: the match at the leftmost start. */
  function TypeSearch(s: string, i: nat): (r: Option<string>)
    requires i <= |s|
    ensures r.Some? ==> r.value != "" && NoQuote(r.value) && Contains(s, r.value)
    decreases |s| - i
  {
    match TypeAt(s, i)
    case Some(g) => Some(g)
    case None => if i < |s| then TypeSearch(s, i + 1) else None
  }

  /** `\d+` from `j`. */
  function SkipDigits(s: string, j: nat): (e: nat)
    requires j <= |s|
    ensures j <= e <= |s|
    ensures forall k :: j <= k < e ==> IsDigit(s[k])
    ensures e < |s| ==> !IsDigit(s[e])
    decreases |s| - j
  {
    if j < |s| && IsDigit(s[j]) then SkipDigits(s, j + 1) else j
  }

  predicate IsOperator(c: char) { c == '+' || c == '-' || c == '*' || c == '/' }

  /**
   * Group 1 of `type\s+(\d+[\+\-\*\/]\d+)` at `i`: giving back a space or a
   * digit leaves a character the next item refuses, so the greedy runs are final.
   */
  function ArithAt(s: string, i: nat): (r: Option<string>)
    requires i <= |s|
    ensures r.Some? ==> OccursAt(s, "type", i) && Contains(s, r.value)
  {
    if !OccursAt(s, "type", i) then None
    else
      var j := i + 4;
      var e := SkipSpace(s, j);
      var d := SkipDigits(s, e);
      if e == j || d == e || d == |s| || !IsOperator(s[d]) then None
      else
        var d2 := SkipDigits(s, d + 1);
        if d2 == d + 1 then None
        else
          assert OccursAt(s, s[e..d2], e);
          Some(s[e..d2])
  }

  function ArithSearch(s: string, i: nat): (r: Option<string>)
    requires i <= |s|
    ensures r.Some? ==> Contains(s, r.value)
    decreases |s| - i
  {
    match ArithAt(s, i)
    case Some(g) => Some(g)
    case None => if i < |s| then ArithSearch(s, i + 1) else None
  }

  /** The payload of the type-and-enter rule: the first regex, else the second, stripped. */
  function TypePayload(text: string): Option<string> {
    match TypeSearch(text, 0)
    case Some(g) => Some(Strip(g))
    case None =>
      match ArithSearch(text, 0)
      case Some(g) => Some(Strip(g))
      case None => None
  }

  /* ---------------- the built-in rules ---------------- */

  const MacCalculator := "import pyautogui; pyautogui.hotkey('command', 'space'); pyautogui.write('Calculator'); pyautogui.press('enter')"
  const WinCalculator := "import pyautogui; pyautogui.hotkey('win', 'r'); pyautogui.write('calc'); pyautogui.press('enter')"
  const HelloWorld := "import pyautogui; pyautogui.write('Hello World')"

  /** The code that types `payload` and presses enter. */
  function WriteAndEnter(payload: string): string {
    "import pyautogui; pyautogui.write('" + payload + "'); pyautogui.press('enter')"
  }

  predicate WantsCalculator(text: string) {
    Contains(text, "calculator") && (Contains(text, "open") || Contains(text, "launch") || Contains(text, "run"))
  }

  predicate WantsTypeEnter(text: string) {
    Contains(text, "type") && (Contains(text, "enter") || Contains(text, "press enter"))
  }

  /** task_translator.py:75-94; a type-and-enter text without a payload falls through to the hello-world rule. */
  function BuiltinCode(text: string, mac: bool): (r: Option<string>)
    ensures WantsCalculator(text) ==> r == Some(if mac then MacCalculator else WinCalculator)
    ensures !WantsCalculator(text) && WantsTypeEnter(text) && TypePayload(text).Some? ==>
              r == Some(WriteAndEnter(TypePayload(text).value))
    ensures !WantsCalculator(text) && !(WantsTypeEnter(text) && TypePayload(text).Some?) &&
            Contains(text, "hello world") && Contains(text, "type") ==>
              r == Some(HelloWorld)
    ensures r.None? <==> !WantsCalculator(text) && !(WantsTypeEnter(text) && TypePayload(text).Some?)
                          && !(Contains(text, "hello world") && Contains(text, "type"))
  {
    if WantsCalculator(text) then Some(if mac then MacCalculator else WinCalculator)
    else if WantsTypeEnter(text) && TypePayload(text).Some? then Some(WriteAndEnter(TypePayload(text).value))
    else if Contains(text, "hello world") && Contains(text, "type") then Some(HelloWorld)
    else None
  }

  /* ---------------- the translator ---------------- */

  /** `translate_task_to_code`: None for a blank thought; the file rules, then the built-ins. */
  function Translation(thought: string, env: string, rules: seq<Rule>): (r: Option<string>)
    ensures Strip(thought) == "" ==> r == None
  {
    if Strip(thought) == "" then None
    else
      var text := Lower(Strip(thought));
      var fromFile := FileRulesFrom(rules, 0, text, IsMacos(env), ModifierKey(env));
      if fromFile.Some? then fromFile else BuiltinCode(text, IsMacos(env))
  }

  /** task_translator.py:47-94, the nested scan with its early return and `break`. */
  method TranslateTaskToCode(thought: string, env: string, rules: seq<Rule>) returns (r: Option<string>)
    ensures r == Translation(thought, env, rules)
  {
    if Strip(thought) == "" {
      return None;
    }
    var text := Lower(Strip(thought));
    var modifier := ModifierKey(env);
    var mac := IsMacos(env);
    var i := 0;
    while i < |rules|
      invariant 0 <= i <= |rules|
      invariant FileRulesFrom(rules, i, text, mac, modifier) == FileRulesFrom(rules, 0, text, mac, modifier)
    {
      var rule := rules[i];
      if !HasCode(rule) {
        i := i + 1;
        continue;
      }
      var patterns := RulePatterns(rule);
      if patterns == [] {
        i := i + 1;
        continue;
      }
      var k := 0;
      while k < |patterns|
        invariant 0 <= k <= |patterns|
        invariant forall q :: 0 <= q < k ==> !PatternMatches(patterns[q], text)
      {
        if PatternMatches(patterns[k], text) {
          var code := ChosenCode(rule, mac);
          if Given(code) {
            return Some(Strip(Replace(code.value, "{modifier}", modifier)));
          }
          break;
        }
        k := k + 1;
      }
      assert RuleCode(rule, text, mac, modifier) == None;
      i := i + 1;
    }
    if WantsCalculator(text) {
      if mac {
        return Some(MacCalculator);
      }
      return Some(WinCalculator);
    }
    if WantsTypeEnter(text) {
      var m := TypeSearch(text, 0);
      if m.Some? {
        return Some(WriteAndEnter(Strip(m.value)));
      }
      m := ArithSearch(text, 0);
      if m.Some? {
        return Some(WriteAndEnter(Strip(m.value)));
      }
    }
    if Contains(text, "hello world") && Contains(text, "type") {
      return Some(HelloWorld);
    }
    return None;
  }

  /* ---------------- properties ---------------- */

  /** Rules that yield nothing are passed over. */
  lemma {:induction false} FileRulesSkip(rules: seq<Rule>, i: nat, k: nat, text: string, mac: bool, modifier: string)
    requires i <= k <= |rules|
    requires forall q :: i <= q < k ==> RuleCode(rules[q], text, mac, modifier).None?
    ensures FileRulesFrom(rules, i, text, mac, modifier) == FileRulesFrom(rules, k, text, mac, modifier)
    decreases k - i
  {
    if i < k {
      FileRulesSkip(rules, i + 1, k, text, mac, modifier);
    }
  }

  /** The first rule that yields code decides the translation, before any built-in. */
  lemma FirstRuleWins(thought: string, env: string, rules: seq<Rule>, k: nat)
    requires Strip(thought) != "" && k < |rules|
    requires forall q :: 0 <= q < k ==> RuleCode(rules[q], Lower(Strip(thought)), IsMacos(env), ModifierKey(env)).None?
    requires RuleCode(rules[k], Lower(Strip(thought)), IsMacos(env), ModifierKey(env)).Some?
    ensures Translation(thought, env, rules) == RuleCode(rules[k], Lower(Strip(thought)), IsMacos(env), ModifierKey(env))
  {
    FileRulesSkip(rules, 0, k, Lower(Strip(thought)), IsMacos(env), ModifierKey(env));
  }

  /** When no rule yields code, the built-ins answer. */
  lemma NoRuleMatches(thought: string, env: string, rules: seq<Rule>)
    requires Strip(thought) != ""
    requires forall q :: 0 <= q < |rules| ==> RuleCode(rules[q], Lower(Strip(thought)), IsMacos(env), ModifierKey(env)).None?
    ensures Translation(thought, env, rules) == BuiltinCode(Lower(Strip(thought)), IsMacos(env))
  {
    FileRulesSkip(rules, 0, |rules|, Lower(Strip(thought)), IsMacos(env), ModifierKey(env));
  }

  /** Conversely, a translation from a file rule comes from the first rule that yields code. */
  lemma {:induction false} FileRuleFound(rules: seq<Rule>, i: nat, text: string, mac: bool, modifier: string)
    requires i <= |rules|
    requires FileRulesFrom(rules, i, text, mac, modifier).Some?
    ensures exists k :: i <= k < |rules| && RuleCode(rules[k], text, mac, modifier).Some?
                        && FileRulesFrom(rules, i, text, mac, modifier) == RuleCode(rules[k], text, mac, modifier)
                        && forall q :: i <= q < k ==> RuleCode(rules[q], text, mac, modifier).None?
    decreases |rules| - i
  {
    if RuleCode(rules[i], text, mac, modifier).None? {
      FileRuleFound(rules, i + 1, text, mac, modifier);
      var k :| i + 1 <= k < |rules| && RuleCode(rules[k], text, mac, modifier).Some?
               && FileRulesFrom(rules, i + 1, text, mac, modifier) == RuleCode(rules[k], text, mac, modifier)
               && forall q :: i + 1 <= q < k ==> RuleCode(rules[q], text, mac, modifier).None?;
      assert forall q :: i <= q < k ==> RuleCode(rules[q], text, mac, modifier).None?;
    }
  }

  /** An empty or null pattern matches every text, since "" is a substring of anything. */
  lemma EmptyPatternMatches(text: string)
    ensures PatternMatches(None, text) && PatternMatches(Some(""), text)
  {
    assert Lower("") == "";
    assert OccursAt(text, "", 0);
  }

  /** A rule whose only pattern is the empty string catches every non-blank thought that reaches it. */
  lemma CatchAllRule(thought: string, env: string, code: string, rest: seq<Rule>)
    requires Strip(thought) != "" && code != ""
    ensures Translation(thought, env, [Rule(Some(PString("")), None, Some(code), None)] + rest)
            == Some(Strip(Replace(code, "{modifier}", ModifierKey(env))))
  {
    var rule := Rule(Some(PString("")), None, Some(code), None);
    var text := Lower(Strip(thought));
    EmptyPatternMatches(text);
    assert RulePatterns(rule) == [Some("")];
    assert PatternMatches(RulePatterns(rule)[0], text);
    FirstRuleWins(thought, env, [rule] + rest, 0);
  }

  /** A rule with only macOS code yields nothing off macOS. */
  lemma MacOnlyRuleSilentElsewhere(rule: Rule, text: string, env: string)
    requires !Given(rule.code) && !IsMacos(env)
    ensures RuleCode(rule, text, IsMacos(env), ModifierKey(env)) == None
  {
  }

  /** A skipped step of the scan: a start where the type pattern fails. */
  lemma ArithAtImpliesTypeAt(s: string, i: nat)
    requires i <= |s| && ArithAt(s, i).Some?
    ensures TypeAt(s, i).Some?
  {
    var e := SkipSpace(s, i + 4);
    assert IsDigit(s[e]);
  }

  /** Whenever the second pattern matches, the first one does too, so the second is never consulted. */
  lemma {:induction false} ArithSearchImpliesType(s: string, i: nat)
    requires i <= |s| && ArithSearch(s, i).Some?
    ensures TypeSearch(s, i).Some?
    decreases |s| - i
  {
    if TypeAt(s, i).None? {
      if ArithAt(s, i).Some? {
        ArithAtImpliesTypeAt(s, i);
      }
      ArithSearchImpliesType(s, i + 1);
    }
  }

  lemma TypePayloadFirstPattern(text: string)
    ensures TypePayload(text) == (match TypeSearch(text, 0) case Some(g) => Some(Strip(g)) case None => None)
  {
    if TypeSearch(text, 0).None? && ArithSearch(text, 0).Some? {
      ArithSearchImpliesType(text, 0);
    }
  }

  lemma {:induction false} SkipNonQuoteOver(s: string, j: nat, e: nat)
    requires j <= e <= |s|
    requires forall k :: j <= k < e ==> !IsQuote(s[k])
    requires e < |s| ==> IsQuote(s[e])
    ensures SkipNonQuote(s, j) == e
    decreases e - j
  {
    if j < e {
      SkipNonQuoteOver(s, j + 1, e);
    }
  }

  /** After `type` and a space, an unquoted payload runs to the end of the text, keywords included. */
  lemma UnquotedPayloadRunsToEnd(rest: string)
    requires rest != [] && !IsSpace(rest[0]) && NoQuote(rest)
    ensures TypeSearch("type " + rest, 0) == Some(rest)
  {
    var s := "type " + rest;
    assert s[..4] == "type";
    assert s[4] == ' ' && s[5] == rest[0];
    assert SkipSpace(s, 5) == 5;
    assert SkipSpace(s, 4) == 5;
    forall k | 5 <= k < |s| ensures !IsQuote(s[k]) {
      assert s[k] == rest[k - 5];
    }
    SkipNonQuoteOver(s, 5, |s|);
    assert s[5..] == rest;
    assert OccursAt(s, "type", 0);
    assert !IsQuote(s[5]) by { assert !IsQuote(rest[0]); }
    assert s[5..|s|] == rest;
    assert GroupFrom(s, 5) == Some(rest);
    assert TypeAt(s, 0) == Some(rest);
  }

  /** A quoted payload stops at the closing quote. */
  lemma QuotedPayloadStops(word: string, post: string)
    requires word != [] && NoQuote(word)
    ensures TypeSearch("type '" + word + "'" + post, 0) == Some(word)
  {
    var s := "type " + "'" + word + "'" + post;
    assert s == "type '" + word + "'" + post;
    assert s[..4] == "type";
    assert s[4] == ' ' && s[5] == '\'' && s[6] == word[0];
    assert SkipSpace(s, 5) == 5;
    assert SkipSpace(s, 4) == 5;
    forall k | 6 <= k < 6 + |word| ensures !IsQuote(s[k]) {
      assert s[k] == word[k - 6];
    }
    assert s[6 + |word|] == '\'';
    SkipNonQuoteOver(s, 6, 6 + |word|);
    assert s[6..6 + |word|] == word;
  }

  /**
   * With no file rules, `type` and a space before an unquoted payload that
   * mentions `enter` type the whole payload, the words "press enter" included.
   */
  lemma TypeAndEnterTypesEverything(rest: string, env: string)
    requires rest != [] && !IsSpace(rest[0]) && !IsSpace(rest[|rest| - 1]) && NoQuote(rest)
    requires forall k :: 0 <= k < |rest| ==> !('A' <= rest[k] <= 'Z') && rest[k] != 'c'
    requires Contains(rest, "enter")
    ensures Translation("type " + rest, env, []) == Some(WriteAndEnter(rest))
  {
    TypeAndEnterText(rest, env);
    UnquotedPayloadRunsToEnd(rest);
    StripWhole(rest);
    TypeEnterBuiltin("type " + rest, rest, IsMacos(env));
  }

  /** The facts about `"type " + rest` the translation depends on, besides the payload. */
  lemma TypeAndEnterText(rest: string, env: string)
    requires rest != [] && !IsSpace(rest[0]) && !IsSpace(rest[|rest| - 1])
    requires forall k :: 0 <= k < |rest| ==> !('A' <= rest[k] <= 'Z') && rest[k] != 'c'
    requires Contains(rest, "enter")
    ensures Translation("type " + rest, env, []) == BuiltinCode("type " + rest, IsMacos(env))
    ensures !Contains("type " + rest, "calculator")
    ensures Contains("type " + rest, "type") && Contains("type " + rest, "enter")
  {
    var text := "type " + rest;
    forall k | 0 <= k < |text| ensures !('A' <= text[k] <= 'Z') && text[k] != 'c' {
      if k >= 5 {
        assert text[k] == rest[k - 5];
      }
    }
    assert text[0] == 't' && text[|text| - 1] == rest[|rest| - 1];
    CanonicalLowerText(text);
    NoRulesTranslation(text, env);
    NotContainsFirstChar(text, "calculator");
    assert OccursAt(text, "type", 0);
    assert OccursAt(text, rest, 5);
    ContainsTrans(text, rest, "enter");
  }

  lemma CanonicalLowerText(text: string)
    requires text != [] && !IsSpace(text[0]) && !IsSpace(text[|text| - 1])
    requires forall k :: 0 <= k < |text| ==> !('A' <= text[k] <= 'Z')
    ensures Strip(text) == text && Lower(Strip(text)) == text
  {
    StripWhole(text);
    LowerFixed(text);
  }

  /** With no file rules the built-ins decide. */
  lemma NoRulesTranslation(thought: string, env: string)
    requires Strip(thought) != ""
    ensures Translation(thought, env, []) == BuiltinCode(Lower(Strip(thought)), IsMacos(env))
  {
  }

  /** The type-and-enter built-in on a text that does not ask for the calculator. */
  lemma TypeEnterBuiltin(text: string, g: string, mac: bool)
    requires !Contains(text, "calculator") && Contains(text, "type") && Contains(text, "enter")
    requires TypeSearch(text, 0) == Some(g)
    ensures BuiltinCode(text, mac) == Some(WriteAndEnter(Strip(g)))
  {
  }

  /** "type 3+3 and press enter" types "3+3 and press enter", not "3+3". */
  lemma TypeThreePlusThree()
    ensures Translation("type 3+3 and press enter", "", [])
            == Some(WriteAndEnter("3+3 and press enter"))
  {
    var rest := "3+3 and press enter";
    assert "type " + rest == "type 3+3 and press enter";
    assert OccursAt(rest, "enter", 14);
    TypeAndEnterTypesEverything(rest, "");
  }
}
