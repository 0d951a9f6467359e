/**
 * scripts/analyze_audit_log.py: the (thought, code) pairs of the audit log
 * become translator rules, one per distinct thought, which are merged
 * into the existing rules file without repeating a pattern key.
 */
module RuleExport {
  import opened Base
  import opened Text
  import opened Translator

  /* ---------------- the query ---------------- */

  /** A (thought, code, outcome) triple of the audit log; None is SQL NULL. */
  datatype LoggedPair = LoggedPair(thought: Option<string>, code: Option<string>, outcome: Option<string>)

  /** A row of the grouped query: a triple and its count. */
  datatype PairRow = PairRow(thought: Option<string>, code: Option<string>, outcome: Option<string>, n: nat)

  /** DuckDB's `TRIM(s)` without a character list: the Unicode space separators (U+0020, U+00A0 and the rest of category Zs) removed at both ends. */
  function SqlTrim(s: string): (r: string)
    ensures |r| <= |s|
    ensures r != [] ==> !IsSpaceSeparator(r[0]) && !IsSpaceSeparator(r[|r| - 1])
    ensures (forall k :: 0 <= k < |s| ==> IsSpaceSeparator(s[k])) <==> r == []
    decreases |s|
  {
    if s == [] then []
    else if IsSpaceSeparator(s[0]) then SqlTrim(s[1..])
    else if IsSpaceSeparator(s[|s| - 1]) then SqlTrim(s[..|s| - 1])
    else s
  }

  /** `r` sits at `i` in `s`, with nothing but space separators on either side. */
  predicate SpacedInfixAt(s: string, r: string, i: nat) {
    && i + |r| <= |s| && s[i..i + |r|] == r
    && (forall k :: 0 <= k < i ==> IsSpaceSeparator(s[k]))
    && (forall k :: i + |r| <= k < |s| ==> IsSpaceSeparator(s[k]))
  }

  /** A leading space in front of a spaced infix leaves it a spaced infix, one place further on. */
  lemma SpacedInfixAfterSpace(s: string, r: string, i: nat)
    requires s != [] && IsSpaceSeparator(s[0]) && SpacedInfixAt(s[1..], r, i)
    ensures SpacedInfixAt(s, r, i + 1)
  {
    var t := s[1..];
    assert s[i + 1..i + 1 + |r|] == t[i..i + |r|];
    forall k | 0 <= k < i + 1 ensures IsSpaceSeparator(s[k]) {
      if k > 0 { assert s[k] == t[k - 1]; }
    }
    forall k | i + 1 + |r| <= k < |s| ensures IsSpaceSeparator(s[k]) {
      assert s[k] == t[k - 1];
    }
  }

  /** A trailing space behind a spaced infix leaves it a spaced infix at the same place. */
  lemma SpacedInfixBeforeSpace(s: string, r: string, i: nat)
    requires s != [] && IsSpaceSeparator(s[|s| - 1]) && SpacedInfixAt(s[..|s| - 1], r, i)
    ensures SpacedInfixAt(s, r, i)
  {
    var t := s[..|s| - 1];
    assert s[i..i + |r|] == t[i..i + |r|];
    forall k | 0 <= k < i ensures IsSpaceSeparator(s[k]) {
      assert s[k] == t[k];
    }
    forall k | i + |r| <= k < |s| ensures IsSpaceSeparator(s[k]) {
      if k < |t| { assert s[k] == t[k]; }
    }
  }

  /** What `TRIM` keeps is the infix of `s` that is left once its leading and trailing spaces are removed. */
  lemma {:induction false} SqlTrimInfix(s: string)
    ensures exists i: nat :: SpacedInfixAt(s, SqlTrim(s), i)
    decreases |s|
  {
    if s == [] {
      assert SpacedInfixAt(s, SqlTrim(s), 0);
    } else if IsSpaceSeparator(s[0]) {
      SqlTrimInfix(s[1..]);
      var i: nat :| SpacedInfixAt(s[1..], SqlTrim(s[1..]), i);
      SpacedInfixAfterSpace(s, SqlTrim(s[1..]), i);
      assert SpacedInfixAt(s, SqlTrim(s), i + 1);
    } else if IsSpaceSeparator(s[|s| - 1]) {
      SqlTrimInfix(s[..|s| - 1]);
      var i: nat :| SpacedInfixAt(s[..|s| - 1], SqlTrim(s[..|s| - 1]), i);
      SpacedInfixBeforeSpace(s, SqlTrim(s[..|s| - 1]), i);
      assert SpacedInfixAt(s, SqlTrim(s), i);
    } else {
      assert s[0..|s|] == s;
      assert SpacedInfixAt(s, SqlTrim(s), 0);
    }
  }

  /** The WHERE clause: `code IS NOT NULL AND TRIM(code) != '' AND LOWER(TRIM(code)) != 'pass'`. */
  predicate Selected(code: Option<string>) {
    code.Some? && SqlTrim(code.value) != "" && Lower(SqlTrim(code.value)) != "pass"
  }

  /** A `pass` behind a no-break space is trimmed to "pass", so the WHERE clause drops it. */
  lemma NoBreakSpacePassDropped()
    ensures !Selected(Some("\U{a0}pass"))
  {
    assert SqlTrim("\U{a0}pass") == SqlTrim("pass") == "pass";
  }

  /** The rows the WHERE clause keeps, in their order. */
  function QueryFilter(entries: seq<LoggedPair>): (r: seq<LoggedPair>)
    ensures |r| <= |entries|
    ensures forall j :: 0 <= j < |r| ==> Selected(r[j].code) && r[j] in entries
    ensures forall j :: 0 <= j < |entries| && Selected(entries[j].code) ==> entries[j] in r
  {
    if entries == [] then []
    else (if Selected(entries[0].code) then [entries[0]] else []) + QueryFilter(entries[1..])
  }

  /* ---------------- building rules ---------------- */

  /** `thought and code`: both present and non-empty. */
  predicate Counted(row: PairRow) {
    Given(row.thought) && Given(row.code)
  }

  /** `seen_thought` before row `i`. */
  function SeenThoughts(rows: seq<PairRow>, i: nat): set<string>
    requires i <= |rows|
  {
    if i == 0 then {}
    else SeenThoughts(rows, i - 1) + (if Counted(rows[i - 1]) then {rows[i - 1].thought.value} else {})
  }

  /** Row `i` is the first counted row with its thought. */
  predicate FirstOfThought(rows: seq<PairRow>, i: nat)
    requires i < |rows|
  {
    Counted(rows[i]) && rows[i].thought.value !in SeenThoughts(rows, i)
  }

  /** A thought is seen exactly when an earlier row with that thought was counted. */
  lemma {:induction false} SeenThoughtsIff(rows: seq<PairRow>, i: nat, t: string)
    requires i <= |rows|
    ensures t in SeenThoughts(rows, i) <==> exists k :: 0 <= k < i && Counted(rows[k]) && rows[k].thought.value == t
  {
    if i > 0 {
      SeenThoughtsIff(rows, i - 1, t);
    }
  }

  /** `thought.strip()[:80].lower()` */
  function PatternFor(t: string): string {
    Lower(Take(Strip(t), 80))
  }

  /** The exported rule: `{"patterns": [pattern], "code": code.strip()}`. */
  function ExportedRule(t: string, code: string): Rule {
    Rule(Some(PList([Some(PatternFor(t))])), None, Some(Strip(code)), None)
  }

  /** What row `i` adds: a rule for the first row of a thought whose pattern is not empty. */
  function RowRule(rows: seq<PairRow>, i: nat): (r: seq<Rule>)
    requires i < |rows|
    ensures |r| <= 1
  {
    if FirstOfThought(rows, i) && PatternFor(rows[i].thought.value) != "" then
      [ExportedRule(rows[i].thought.value, rows[i].code.value)]
    else []
  }

  function RulesUpTo(rows: seq<PairRow>, n: nat): seq<Rule>
    requires n <= |rows|
  {
    if n == 0 then [] else RulesUpTo(rows, n - 1) + RowRule(rows, n - 1)
  }

  /** `rules_to_export`; nothing is built unless an export was asked for. */
  function BuiltRules(rows: seq<PairRow>, exporting: bool): seq<Rule> {
    if exporting then RulesUpTo(rows, |rows|) else []
  }

  /** scripts/analyze_audit_log.py:64-83, the loop over the rows with its `seen_thought` set. */
  method BuildRules(rows: seq<PairRow>, exporting: bool) returns (rules: seq<Rule>)
    ensures rules == BuiltRules(rows, exporting)
  {
    var seen: set<string> := {};
    rules := [];
    var i := 0;
    while i < |rows|
      invariant 0 <= i <= |rows|
      invariant seen == (if exporting then SeenThoughts(rows, i) else {})
      invariant rules == (if exporting then RulesUpTo(rows, i) else [])
    {
      RowStep(rows, i);
      seen, rules := ConsiderRow(rows[i], exporting, seen, rules);
      i := i + 1;
    }
  }

  /** The body of the loop for one row: a new thought is remembered, and its rule kept when its pattern is not empty. */
  method ConsiderRow(row: PairRow, exporting: bool, seen: set<string>, rules: seq<Rule>)
    returns (seen': set<string>, rules': seq<Rule>)
    ensures seen' == if exporting && Counted(row) then seen + {row.thought.value} else seen
    ensures rules' == rules + if exporting && Counted(row) && row.thought.value !in seen
                                 && PatternFor(row.thought.value) != ""
                              then [ExportedRule(row.thought.value, row.code.value)] else []
  {
    seen', rules' := seen, rules;
    if exporting && Given(row.thought) && Given(row.code) && row.thought.value !in seen {
      var thought := row.thought.value;
      seen' := seen + {thought};
      var pattern := Lower(Take(Strip(thought), 80));
      if pattern != "" {
        rules' := rules + [Rule(Some(PList([Some(pattern)])), None, Some(Strip(row.code.value)), None)];
      }
    } else if exporting && Counted(row) {
      assert seen + {row.thought.value} == seen;
    }
  }

  /** What row `i` adds to the seen thoughts and to the rules. */
  lemma RowStep(rows: seq<PairRow>, i: nat)
    requires i < |rows|
    ensures SeenThoughts(rows, i + 1) == SeenThoughts(rows, i) + (if Counted(rows[i]) then {rows[i].thought.value} else {})
    ensures RulesUpTo(rows, i + 1) == RulesUpTo(rows, i) + RowRule(rows, i)
    ensures RowRule(rows, i) == if FirstOfThought(rows, i) && PatternFor(rows[i].thought.value) != "" then
                                  [ExportedRule(rows[i].thought.value, rows[i].code.value)] else []
  {
  }

  /** No more rules than rows. */
  lemma {:induction false} RulesUpToBound(rows: seq<PairRow>, n: nat)
    requires n <= |rows|
    ensures |RulesUpTo(rows, n)| <= n
  {
    if n > 0 {
      RulesUpToBound(rows, n - 1);
    }
  }

  /** `rule` is the rule exported for the first row of its thought among `rows[..n]`. */
  predicate BuiltFrom(rows: seq<PairRow>, n: nat, rule: Rule)
    requires n <= |rows|
  {
    exists k :: 0 <= k < n && FirstOfThought(rows, k) && PatternFor(rows[k].thought.value) != ""
                && rule == ExportedRule(rows[k].thought.value, rows[k].code.value)
  }

  /** Every built rule is the rule of the first row of its thought, with a non-empty pattern. */
  lemma {:induction false} RulesUpToOrigins(rows: seq<PairRow>, n: nat)
    requires n <= |rows|
    ensures forall j :: 0 <= j < |RulesUpTo(rows, n)| ==> BuiltFrom(rows, n, RulesUpTo(rows, n)[j])
  {
    if n > 0 {
      RulesUpToOrigins(rows, n - 1);
      var prev := RulesUpTo(rows, n - 1);
      var all := RulesUpTo(rows, n);
      assert all == prev + RowRule(rows, n - 1);
      forall j | 0 <= j < |all| ensures BuiltFrom(rows, n, all[j]) {
        if j < |prev| {
          assert all[j] == prev[j] && BuiltFrom(rows, n - 1, prev[j]);
          var k :| 0 <= k < n - 1 && FirstOfThought(rows, k) && PatternFor(rows[k].thought.value) != ""
                   && prev[j] == ExportedRule(rows[k].thought.value, rows[k].code.value);
        } else {
          var k := n - 1;
          assert all[j] == RowRule(rows, k)[0];
          assert FirstOfThought(rows, k) && PatternFor(rows[k].thought.value) != "";
        }
      }
    }
  }

  /** A rule built from fewer rows is still built from more. */
  lemma {:induction false} RulesUpToGrows(rows: seq<PairRow>, m: nat, n: nat, rule: Rule)
    requires m <= n <= |rows| && rule in RulesUpTo(rows, m)
    ensures rule in RulesUpTo(rows, n)
    decreases n - m
  {
    if m < n {
      RulesUpToGrows(rows, m, n - 1, rule);
      assert RulesUpTo(rows, n) == RulesUpTo(rows, n - 1) + RowRule(rows, n - 1);
    }
  }

  /** Conversely, the first row of each thought with a non-empty pattern contributes its rule. */
  lemma RulesUpToComplete(rows: seq<PairRow>, n: nat, k: nat)
    requires k < n <= |rows|
    requires FirstOfThought(rows, k) && PatternFor(rows[k].thought.value) != ""
    ensures ExportedRule(rows[k].thought.value, rows[k].code.value) in RulesUpTo(rows, n)
  {
    var rule := ExportedRule(rows[k].thought.value, rows[k].code.value);
    assert RulesUpTo(rows, k + 1) == RulesUpTo(rows, k) + [rule];
    RulesUpToGrows(rows, k + 1, n, rule);
  }

  /** A later row with a thought already seen adds nothing, whatever its code. */
  lemma LaterRowOfThoughtIgnored(rows: seq<PairRow>, i: nat, k: nat)
    requires i < k < |rows| && Counted(rows[i]) && rows[i].thought == rows[k].thought
    ensures RowRule(rows, k) == []
  {
    SeenThoughtsIff(rows, k, rows[k].thought.value);
  }

  /** Fed back to the translator, an exported rule recognises the thought it was built from. */
  lemma ExportedRuleMatchesItsThought(t: string, code: string, mac: bool, modifier: string)
    requires PatternFor(t) != "" && Strip(code) != ""
    ensures RuleCode(ExportedRule(t, code), Lower(Strip(t)), mac, modifier)
            == Some(Strip(Replace(Strip(code), "{modifier}", modifier)))
  {
    var rule := ExportedRule(t, code);
    var p := PatternFor(t);
    var text := Lower(Strip(t));
    LowerFixed(p);
    assert Lower(Some(p).GetOr("")) == p;
    assert text[..|p|] == p;
    assert OccursAt(text, p, 0);
    assert PatternMatches(RulePatterns(rule)[0], text);
  }

  /* ---------------- pattern keys ---------------- */

  /** Python's `a <= b` on strings: code points compared lexicographically. */
  predicate StrLe(a: string, b: string)
    decreases |a|
  {
    a == [] || (b != [] && (a[0] < b[0] || (a[0] == b[0] && StrLe(a[1..], b[1..]))))
  }

  lemma {:induction false} StrLeTotal(a: string, b: string)
    ensures StrLe(a, b) || StrLe(b, a)
    decreases |a|
  {
    if a != [] && b != [] && a[0] == b[0] {
      StrLeTotal(a[1..], b[1..]);
    }
  }

  lemma {:induction false} StrLeAntisymmetric(a: string, b: string)
    requires StrLe(a, b) && StrLe(b, a)
    ensures a == b
    decreases |a|
  {
    if a != [] {
      StrLeAntisymmetric(a[1..], b[1..]);
    }
  }

  lemma {:induction false} StrLeTransitive(a: string, b: string, c: string)
    requires StrLe(a, b) && StrLe(b, c)
    ensures StrLe(a, c)
    decreases |a|
  {
    if a != [] && a[0] == b[0] && b[0] == c[0] {
      StrLeTransitive(a[1..], b[1..], c[1..]);
    }
  }

  predicate Sorted(s: seq<string>) {
    forall i, j :: 0 <= i < j < |s| ==> StrLe(s[i], s[j])
  }

  function Insert(x: string, s: seq<string>): seq<string> {
    if s == [] then [x]
    else if StrLe(x, s[0]) then [x] + s
    else [s[0]] + Insert(x, s[1..])
  }

  /** `sorted(xs)` on strings, as an insertion sort. */
  function SortStrings(xs: seq<string>): seq<string> {
    if xs == [] then [] else Insert(xs[0], SortStrings(xs[1..]))
  }

  /** A string below the head of a sorted list is below all of it. */
  lemma SortedCons(x: string, s: seq<string>)
    requires Sorted(s) && (s != [] ==> StrLe(x, s[0]))
    ensures Sorted([x] + s)
  {
    forall i, j | 0 <= i < j < |s| + 1 ensures StrLe(([x] + s)[i], ([x] + s)[j]) {
      if i == 0 {
        if j > 1 {
          StrLeTransitive(x, s[0], s[j - 1]);
        }
      }
    }
  }

  /** Every string of `s` is at least `b`. */
  predicate AllAbove(b: string, s: seq<string>) {
    forall i :: 0 <= i < |s| ==> StrLe(b, s[i])
  }

  lemma {:induction false} InsertAbove(b: string, x: string, s: seq<string>)
    requires AllAbove(b, s) && StrLe(b, x)
    ensures AllAbove(b, Insert(x, s))
    decreases |s|
  {
    if s != [] && !StrLe(x, s[0]) {
      InsertAbove(b, x, s[1..]);
    }
  }

  lemma {:induction false} InsertMultiset(x: string, s: seq<string>)
    ensures multiset(Insert(x, s)) == multiset(s) + multiset{x}
    decreases |s|
  {
    if s != [] && !StrLe(x, s[0]) {
      InsertMultiset(x, s[1..]);
      assert s == [s[0]] + s[1..];
    }
  }

  lemma {:induction false} InsertSorted(x: string, s: seq<string>)
    requires Sorted(s)
    ensures Sorted(Insert(x, s))
    decreases |s|
  {
    if s == [] {
    } else if StrLe(x, s[0]) {
      SortedCons(x, s);
    } else {
      StrLeTotal(x, s[0]);
      InsertSorted(x, s[1..]);
      InsertAbove(s[0], x, s[1..]);
      SortedCons(s[0], Insert(x, s[1..]));
    }
  }

  lemma {:induction false} SortStringsSorted(xs: seq<string>)
    ensures Sorted(SortStrings(xs)) && multiset(SortStrings(xs)) == multiset(xs)
    decreases |xs|
  {
    if xs != [] {
      SortStringsSorted(xs[1..]);
      InsertSorted(xs[0], SortStrings(xs[1..]));
      InsertMultiset(xs[0], SortStrings(xs[1..]));
      assert xs == [xs[0]] + xs[1..];
    }
  }

  /** Two sorted sequences with the same elements are equal. */
  lemma {:induction false} SortedUnique(a: seq<string>, b: seq<string>)
    requires Sorted(a) && Sorted(b) && multiset(a) == multiset(b)
    ensures a == b
    decreases |a|
  {
    if a != [] {
      assert a[0] in multiset(b);
      assert b != [] && b[0] in multiset(a);
      assert StrLe(b[0], a[0]) by {
        var i :| 0 <= i < |b| && b[i] == a[0];
        if i == 0 {
          StrLeTotal(b[0], b[0]);
        }
      }
      assert StrLe(a[0], b[0]) by {
        var j :| 0 <= j < |a| && a[j] == b[0];
        if j == 0 {
          StrLeTotal(a[0], a[0]);
        }
      }
      StrLeAntisymmetric(a[0], b[0]);
      SortedTail(a);
      SortedTail(b);
      TailMultiset(a);
      TailMultiset(b);
      SortedUnique(a[1..], b[1..]);
    }
  }

  lemma SortedTail(a: seq<string>)
    requires Sorted(a) && a != []
    ensures Sorted(a[1..])
  {
    forall i, j | 0 <= i < j < |a| - 1 ensures StrLe(a[1..][i], a[1..][j]) {
      assert a[1..][i] == a[i + 1] && a[1..][j] == a[j + 1];
    }
  }

  lemma TailMultiset(a: seq<string>)
    requires a != []
    ensures multiset(a[1..]) == multiset(a) - multiset{a[0]}
  {
    assert a == [a[0]] + a[1..];
  }

  /** Sorting forgets only the order: two lists sort alike exactly when they hold the same strings. */
  lemma SortedAlikeIff(xs: seq<string>, ys: seq<string>)
    ensures SortStrings(xs) == SortStrings(ys) <==> multiset(xs) == multiset(ys)
  {
    SortStringsSorted(xs);
    SortStringsSorted(ys);
    if multiset(xs) == multiset(ys) {
      SortedUnique(SortStrings(xs), SortStrings(ys));
    }
  }

  /**
   * `tuple(sorted(r.get("patterns", [])))`: a sorted tuple of strings, or
   * the tuple `(None,)` that a one-element list holding None sorts to.
   */
  datatype Key = Strings(sorted: seq<string>) | LoneNone

  predicate AllGiven(items: seq<Option<string>>) {
    forall j :: 0 <= j < |items| ==> items[j].Some?
  }

  function Unwrap(items: seq<Option<string>>): seq<string>
    requires AllGiven(items)
  {
    if items == [] then [] else [items[0].value] + Unwrap(items[1..])
  }

  /** The characters of `s`, each as a one-character string. */
  function Chars(s: string): seq<string> {
    if s == [] then [] else [[s[0]]] + Chars(s[1..])
  }

  /**
   * The dedupe key of a rule.  A null `patterns` cannot be sorted; in a list
   * of two or more items a None cannot be compared with anything; a string is
   * sorted as its characters.
   */
  function KeyOf(rule: Rule): Attempt<Key> {
    match rule.patterns
    case None => Ok(Strings([]))
    case Some(PNull) => Raised("TypeError: 'NoneType' object is not iterable")
    case Some(PString(s)) => Ok(Strings(SortStrings(Chars(s))))
    case Some(PList(items)) =>
      if AllGiven(items) then Ok(Strings(SortStrings(Unwrap(items))))
      else if |items| == 1 then Ok(LoneNone)
      else Raised("TypeError: '<' not supported between instances of 'NoneType' and 'str'")
  }

  /** Exactly a null `patterns` and a list of two or more items holding a None have no key. */
  lemma KeyRaisesIff(rule: Rule)
    ensures KeyOf(rule).Raised? <==>
              rule.patterns == Some(PNull)
              || (rule.patterns.Some? && rule.patterns.value.PList?
                  && |rule.patterns.value.items| >= 2 && !AllGiven(rule.patterns.value.items))
  {
    match rule.patterns
    case None =>
    case Some(p) =>
      if p.PList? && !AllGiven(p.items) {
        assert KeyOf(rule) == if |p.items| == 1 then Ok(LoneNone)
                             else Raised("TypeError: '<' not supported between instances of 'NoneType' and 'str'");
      }
  }

  /** The key of an exported rule is its one pattern. */
  lemma ExportedKey(t: string, code: string)
    ensures KeyOf(ExportedRule(t, code)) == Ok(Strings([PatternFor(t)]))
  {
    var p := PatternFor(t);
    var items := [Some(p)];
    assert AllGiven(items);
    assert Unwrap(items) == [p] + Unwrap([]);
    assert SortStrings([p]) == Insert(p, SortStrings([]));
  }

  /** Two rules whose patterns are lists of strings share a key exactly when one list is a rearrangement of the other. */
  lemma KeyPermutation(r1: Rule, r2: Rule)
    requires r1.patterns.Some? && r1.patterns.value.PList? && AllGiven(r1.patterns.value.items)
    requires r2.patterns.Some? && r2.patterns.value.PList? && AllGiven(r2.patterns.value.items)
    ensures KeyOf(r1) == KeyOf(r2) <==>
              multiset(Unwrap(r1.patterns.value.items)) == multiset(Unwrap(r2.patterns.value.items))
  {
    SortedAlikeIff(Unwrap(r1.patterns.value.items), Unwrap(r2.patterns.value.items));
  }

  /** A string pattern shares its key with the list of its characters. */
  lemma StringPatternKey(s: string, r1: Rule, r2: Rule)
    requires r1.patterns == Some(PString(s))
    requires r2.patterns.Some? && r2.patterns.value.PList? && AllGiven(r2.patterns.value.items)
    ensures KeyOf(r1) == KeyOf(r2) <==> multiset(Chars(s)) == multiset(Unwrap(r2.patterns.value.items))
  {
    SortedAlikeIff(Chars(s), Unwrap(r2.patterns.value.items));
  }

  /* ---------------- merging ---------------- */

  /** The keys of `rules[..n]`; the first rule without a key raises. */
  function KeySet(rules: seq<Rule>, n: nat): (r: Attempt<set<Key>>)
    requires n <= |rules|
    ensures r.Ok? ==> forall j :: 0 <= j < n ==> KeyOf(rules[j]).Ok? && KeyOf(rules[j]).value in r.value
  {
    if n == 0 then Ok({})
    else match KeySet(rules, n - 1)
      case Raised(e) => Raised(e)
      case Ok(ks) =>
        match KeyOf(rules[n - 1])
        case Raised(e) => Raised(e)
        case Ok(k) => Ok(ks + {k})
  }

  /** The appending loop over `incoming[..n]`: the appended rules and the keys known after them. */
  function AppendFrom(keys: set<Key>, incoming: seq<Rule>, n: nat): Attempt<(seq<Rule>, set<Key>)>
    requires n <= |incoming|
  {
    if n == 0 then Ok(([], keys))
    else match AppendFrom(keys, incoming, n - 1)
      case Raised(e) => Raised(e)
      case Ok(acc) =>
        match KeyOf(incoming[n - 1])
        case Raised(e) => Raised(e)
        case Ok(k) => if k in acc.1 then Ok(acc) else Ok((acc.0 + [incoming[n - 1]], acc.1 + {k}))
  }

  /** scripts/analyze_audit_log.py:96-105: the merged list, or the exception that stops the script. */
  function Merged(existing: seq<Rule>, incoming: seq<Rule>): Attempt<seq<Rule>> {
    match KeySet(existing, |existing|)
    case Raised(e) => Raised(e)
    case Ok(ks) =>
      match AppendFrom(ks, incoming, |incoming|)
      case Raised(e) => Raised(e)
      case Ok(acc) => Ok(existing + acc.0)
  }

  /** Once a rule has raised, the key loop raises the same exception to the end. */
  lemma {:induction false} KeySetStaysRaised(rules: seq<Rule>, m: nat, n: nat)
    requires m <= n <= |rules| && KeySet(rules, m).Raised?
    ensures KeySet(rules, n) == KeySet(rules, m)
    decreases n - m
  {
    if m < n {
      KeySetStaysRaised(rules, m, n - 1);
    }
  }

  /** Once a rule has raised, the appending loop raises the same exception to the end. */
  lemma {:induction false} AppendFromStaysRaised(keys: set<Key>, incoming: seq<Rule>, m: nat, n: nat)
    requires m <= n <= |incoming| && AppendFrom(keys, incoming, m).Raised?
    ensures AppendFrom(keys, incoming, n) == AppendFrom(keys, incoming, m)
    decreases n - m
  {
    if m < n {
      AppendFromStaysRaised(keys, incoming, m, n - 1);
    }
  }

  /** The two loops of the merge, growing `existing` in place. */
  method MergeRules(existing: seq<Rule>, incoming: seq<Rule>) returns (r: Attempt<seq<Rule>>)
    ensures r == Merged(existing, incoming)
  {
    var known := CollectKeys(existing);
    if known.Raised? {
      return Raised(known.error);
    }
    var appended := AppendNew(known.value, existing, incoming);
    if appended.Raised? {
      return Raised(appended.error);
    }
    return Ok(appended.value);
  }

  /** The first loop: the key of every existing rule, or the exception of the first that has none. */
  method CollectKeys(existing: seq<Rule>) returns (r: Attempt<set<Key>>)
    ensures r == KeySet(existing, |existing|)
  {
    var keys: set<Key> := {};
    var i := 0;
    while i < |existing|
      invariant 0 <= i <= |existing|
      invariant KeySet(existing, i) == Ok(keys)
    {
      var k := KeyOf(existing[i]);
      if k.Raised? {
        KeySetStaysRaised(existing, i + 1, |existing|);
        return Raised(k.error);
      }
      keys := keys + {k.value};
      i := i + 1;
    }
    return Ok(keys);
  }

  /** The second loop: each incoming rule whose key is new is appended to `existing`. */
  method AppendNew(known: set<Key>, existing: seq<Rule>, incoming: seq<Rule>) returns (r: Attempt<seq<Rule>>)
    ensures r.Raised? <==> AppendFrom(known, incoming, |incoming|).Raised?
    ensures r.Raised? ==> r.error == AppendFrom(known, incoming, |incoming|).error
    ensures r.Ok? ==> r.value == existing + AppendFrom(known, incoming, |incoming|).value.0
  {
    var keys := known;
    var merged := existing;
    assert merged[|existing|..] == [];
    var j := 0;
    while j < |incoming|
      invariant 0 <= j <= |incoming|
      invariant |existing| <= |merged| && merged[..|existing|] == existing
      invariant AppendFrom(known, incoming, j) == Ok((merged[|existing|..], keys))
    {
      var k := KeyOf(incoming[j]);
      AppendStep(known, incoming, j);
      if k.Raised? {
        AppendFromStaysRaised(known, incoming, j + 1, |incoming|);
        return Raised(k.error);
      }
      if k.value !in keys {
        assert (merged + [incoming[j]])[|existing|..] == merged[|existing|..] + [incoming[j]];
        merged := merged + [incoming[j]];
        keys := keys + {k.value};
      }
      j := j + 1;
    }
    assert merged == existing + merged[|existing|..];
    return Ok(merged);
  }

  /** What the appending loop does with `incoming[j]`. */
  lemma AppendStep(keys: set<Key>, incoming: seq<Rule>, j: nat)
    requires j < |incoming|
    ensures AppendFrom(keys, incoming, j + 1)
            == match AppendFrom(keys, incoming, j)
               case Raised(e) => Raised(e)
               case Ok(acc) =>
                 match KeyOf(incoming[j])
                 case Raised(e) => Raised(e)
                 case Ok(k) => if k in acc.1 then Ok(acc) else Ok((acc.0 + [incoming[j]], acc.1 + {k}))
  {
  }

  /** After the appending loop every key known before is still known, and so is the key of every rule it passed. */
  lemma {:induction false} AppendFromKnows(keys: set<Key>, incoming: seq<Rule>, n: nat)
    requires n <= |incoming| && AppendFrom(keys, incoming, n).Ok?
    ensures keys <= AppendFrom(keys, incoming, n).value.1
    ensures forall m :: 0 <= m < n ==>
              KeyOf(incoming[m]).Ok? && KeyOf(incoming[m]).value in AppendFrom(keys, incoming, n).value.1
  {
    if n > 0 {
      AppendFromKnows(keys, incoming, n - 1);
    }
  }

  /** Every appended rule comes from `incoming`, and its key was not known before and is known after. */
  lemma {:induction false} AppendFromAppended(keys: set<Key>, incoming: seq<Rule>, n: nat)
    requires n <= |incoming| && AppendFrom(keys, incoming, n).Ok?
    ensures var acc := AppendFrom(keys, incoming, n).value;
            forall a :: 0 <= a < |acc.0| ==>
              acc.0[a] in incoming && KeyOf(acc.0[a]).Ok? && KeyOf(acc.0[a]).value !in keys
              && KeyOf(acc.0[a]).value in acc.1
  {
    if n > 0 {
      AppendFromAppended(keys, incoming, n - 1);
      AppendFromKnows(keys, incoming, n - 1);
      var acc := AppendFrom(keys, incoming, n - 1).value;
      var k := KeyOf(incoming[n - 1]).value;
      if k !in acc.1 {
        var added := acc.0 + [incoming[n - 1]];
        assert added[|acc.0|] == incoming[n - 1];
        forall a | 0 <= a < |acc.0| ensures added[a] == acc.0[a] {
        }
      }
    }
  }

  /** No two appended rules share a key. */
  lemma {:induction false} AppendFromDistinct(keys: set<Key>, incoming: seq<Rule>, n: nat)
    requires n <= |incoming| && AppendFrom(keys, incoming, n).Ok?
    ensures var acc := AppendFrom(keys, incoming, n).value;
            forall a, b :: 0 <= a < b < |acc.0| ==> KeyOf(acc.0[a]) != KeyOf(acc.0[b])
  {
    if n > 0 {
      AppendFromDistinct(keys, incoming, n - 1);
      AppendFromAppended(keys, incoming, n - 1);
      var acc := AppendFrom(keys, incoming, n - 1).value;
      var k := KeyOf(incoming[n - 1]).value;
      if k !in acc.1 {
        var added := acc.0 + [incoming[n - 1]];
        forall a, b | 0 <= a < b < |added| ensures KeyOf(added[a]) != KeyOf(added[b]) {
          assert added[a] == acc.0[a];
          if b < |acc.0| {
            assert added[b] == acc.0[b];
          }
        }
      }
    }
  }

  /** Every key known after the appending loop was known before or belongs to an appended rule. */
  lemma {:induction false} AppendFromKeyOrigin(keys: set<Key>, incoming: seq<Rule>, n: nat)
    requires n <= |incoming| && AppendFrom(keys, incoming, n).Ok?
    ensures var acc := AppendFrom(keys, incoming, n).value;
            forall k :: k in acc.1 ==> k in keys || exists a :: 0 <= a < |acc.0| && KeyOf(acc.0[a]) == Ok(k)
  {
    if n > 0 {
      AppendFromKeyOrigin(keys, incoming, n - 1);
      var acc := AppendFrom(keys, incoming, n - 1).value;
      var k := KeyOf(incoming[n - 1]).value;
      if k !in acc.1 {
        var added := acc.0 + [incoming[n - 1]];
        forall k' | k' in acc.1 + {k} ensures k' in keys || exists a :: 0 <= a < |added| && KeyOf(added[a]) == Ok(k') {
          if k' == k {
            assert KeyOf(added[|acc.0|]) == Ok(k);
          } else if k' !in keys {
            var a :| 0 <= a < |acc.0| && KeyOf(acc.0[a]) == Ok(k');
            assert added[a] == acc.0[a];
          }
        }
      }
    }
  }

  /** The merge keeps the existing rules as they were, in front, and appends only rules with new, distinct keys. */
  lemma MergeProperties(existing: seq<Rule>, incoming: seq<Rule>)
    requires Merged(existing, incoming).Ok?
    ensures var m := Merged(existing, incoming).value;
            |existing| <= |m| && m[..|existing|] == existing
            && (forall a :: |existing| <= a < |m| ==>
                  m[a] in incoming && KeyOf(m[a]).Ok?
                  && forall e :: 0 <= e < |existing| ==> KeyOf(existing[e]) != KeyOf(m[a]))
            && (forall a, b :: |existing| <= a < b < |m| ==> KeyOf(m[a]) != KeyOf(m[b]))
            && (forall f :: 0 <= f < |incoming| ==>
                  exists a :: 0 <= a < |m| && KeyOf(m[a]) == KeyOf(incoming[f]))
  {
    var ks := KeySet(existing, |existing|).value;
    AppendFromKnows(ks, incoming, |incoming|);
    AppendFromAppended(ks, incoming, |incoming|);
    AppendFromDistinct(ks, incoming, |incoming|);
    AppendFromKeyOrigin(ks, incoming, |incoming|);
    var acc := AppendFrom(ks, incoming, |incoming|).value;
    var m := existing + acc.0;
    forall a | |existing| <= a < |m|
      ensures m[a] in incoming && KeyOf(m[a]).Ok?
      ensures forall e :: 0 <= e < |existing| ==> KeyOf(existing[e]) != KeyOf(m[a])
    {
      assert m[a] == acc.0[a - |existing|];
    }
    forall a, b | |existing| <= a < b < |m| ensures KeyOf(m[a]) != KeyOf(m[b]) {
      assert m[a] == acc.0[a - |existing|] && m[b] == acc.0[b - |existing|];
    }
    forall f | 0 <= f < |incoming| ensures exists a :: 0 <= a < |m| && KeyOf(m[a]) == KeyOf(incoming[f]) {
      var k := KeyOf(incoming[f]).value;
      if k in ks {
        KeyHolder(existing, |existing|, k);
        var e :| 0 <= e < |existing| && KeyOf(existing[e]) == Ok(k);
        assert m[e] == existing[e];
      } else {
        var a :| 0 <= a < |acc.0| && KeyOf(acc.0[a]) == Ok(k);
        assert m[|existing| + a] == acc.0[a];
      }
    }
  }

  /** Every key in the key set belongs to one of the rules. */
  lemma {:induction false} KeyHolder(rules: seq<Rule>, n: nat, k: Key)
    requires n <= |rules| && KeySet(rules, n).Ok? && k in KeySet(rules, n).value
    ensures exists e :: 0 <= e < n && KeyOf(rules[e]) == Ok(k)
  {
    var prev := KeySet(rules, n - 1).value;
    if k in prev {
      KeyHolder(rules, n - 1, k);
    }
  }

  /** Exported rules always have a key, so once the existing rules do, the merge cannot raise. */
  lemma {:induction false} AppendExportedOk(keys: set<Key>, incoming: seq<Rule>, n: nat)
    requires n <= |incoming|
    requires forall f :: 0 <= f < |incoming| ==> KeyOf(incoming[f]).Ok?
    ensures AppendFrom(keys, incoming, n).Ok?
  {
    if n > 0 {
      AppendExportedOk(keys, incoming, n - 1);
    }
  }

  /* ---------------- the export ---------------- */

  /**
   * The outcome of a run: None when no file is written (no export asked
   * for, or no rule built); otherwise the list written, or the exception
   * that stops the script before writing.
   */
  function ExportOutcome(rows: seq<PairRow>, exporting: bool, existing: seq<Rule>): (r: Option<Attempt<seq<Rule>>>)
    ensures r.Some? <==> exporting && BuiltRules(rows, exporting) != []
    ensures r.Some? ==> r.value == Merged(existing, BuiltRules(rows, exporting))
  {
    var built := BuiltRules(rows, exporting);
    if exporting && built != [] then Some(Merged(existing, built)) else None
  }

  /** Built rules merge without an exception whenever the existing file's rules have keys. */
  lemma ExportNeverRaisesOnBuiltRules(rows: seq<PairRow>, existing: seq<Rule>)
    requires KeySet(existing, |existing|).Ok?
    ensures Merged(existing, BuiltRules(rows, true)).Ok?
  {
    var built := BuiltRules(rows, true);
    RulesUpToOrigins(rows, |rows|);
    forall f | 0 <= f < |built| ensures KeyOf(built[f]).Ok? {
      assert BuiltFrom(rows, |rows|, built[f]);
      var k :| 0 <= k < |rows| && FirstOfThought(rows, k) && PatternFor(rows[k].thought.value) != ""
               && built[f] == ExportedRule(rows[k].thought.value, rows[k].code.value);
      ExportedKey(rows[k].thought.value, rows[k].code.value);
    }
    AppendExportedOk(KeySet(existing, |existing|).value, built, |built|);
  }
}
