/**
 * prompts/__init__.py:19-29, `format_prompt`: every `{word}` placeholder of
 * the template that the caller did not supply is set to "", and the
 * template is then formatted with Python's `str.format`.
 */
module Prompts {
  import opened Base
  import opened Text

  /* ---------------- the placeholders ---------------- */

  predicate IsWord(w: string) {
    w != [] && forall k :: 0 <= k < |w| ==> IsWordChar(w[k])
  }

  /** `\{(\w+)\}` at position `i`: group 1 of the match that starts there. */
  function WordAt(t: string, i: nat): (r: Option<string>)
    requires i <= |t|
    ensures r.Some? ==> IsWord(r.value) && i + |r.value| + 2 <= |t|
                        && t[i] == '{' && r.value == t[i + 1..i + |r.value| + 1] && t[i + |r.value| + 1] == '}'
  {
    if i < |t| && t[i] == '{' then
      var e := SkipWord(t, i + 1);
      if e > i + 1 && e < |t| && t[e] == '}' then
        Some(t[i + 1..e])
      else None
    else None
  }

  /** `re.findall(r"\{(\w+)\}", t[i:])`: matches do not overlap, and the scan resumes after each one. */
  function PlaceholdersFrom(t: string, i: nat): seq<string>
    requires i <= |t|
    decreases |t| - i
  {
    if i == |t| then []
    else match WordAt(t, i)
      case Some(w) => [w] + PlaceholdersFrom(t, i + |w| + 2)
      case None => PlaceholdersFrom(t, i + 1)
  }

  function Placeholders(t: string): seq<string> {
    PlaceholdersFrom(t, 0)
  }

  /** A `{word}` in the template is always one of the placeholders found. */
  lemma {:induction false} WordAtFound(t: string, j: nat, i: nat, w: string)
    requires j <= i <= |t| && WordAt(t, i) == Some(w)
    ensures w in PlaceholdersFrom(t, j)
    decreases i - j
  {
    if j < i {
      WordAtOpens(t, i);
      match WordAt(t, j)
      case Some(v) =>
        MatchEndsBefore(t, j, v, i);
        var n := j + |v| + 2;
        WordAtFound(t, n, i, w);
        FoundPastMatch(t, j, v, n, w);
      case None =>
        WordAtFound(t, j + 1, i, w);
        FoundPastStart(t, j, w);
    } else {
      PlaceholdersStep(t, i);
    }
  }

  lemma FoundPastMatch(t: string, j: nat, v: string, n: nat, w: string)
    requires j < |t| && WordAt(t, j) == Some(v) && n == j + |v| + 2 <= |t|
    requires w in PlaceholdersFrom(t, n)
    ensures w in PlaceholdersFrom(t, j)
  {
    PlaceholdersStep(t, j);
  }

  lemma FoundPastStart(t: string, j: nat, w: string)
    requires j < |t| && WordAt(t, j) == None
    requires w in PlaceholdersFrom(t, j + 1)
    ensures w in PlaceholdersFrom(t, j)
  {
    PlaceholdersStep(t, j);
  }

  /** One step of the scan: a match is taken and skipped, otherwise the scan moves on by one. */
  lemma PlaceholdersStep(t: string, j: nat)
    requires j < |t|
    ensures PlaceholdersFrom(t, j) == match WordAt(t, j)
                                      case Some(v) => [v] + PlaceholdersFrom(t, j + |v| + 2)
                                      case None => PlaceholdersFrom(t, j + 1)
  {
  }

  lemma WordAtOpens(t: string, i: nat)
    requires i <= |t| && WordAt(t, i).Some?
    ensures i < |t| && t[i] == '{'
  {
  }

  /** A match cannot cover a later `{`: it holds only word characters and its closing `}`. */
  lemma MatchEndsBefore(t: string, j: nat, v: string, i: nat)
    requires j < i < |t| && t[i] == '{' && WordAt(t, j) == Some(v)
    ensures j + |v| + 2 <= i
  {
  }

  /** Every placeholder found is a word. */
  lemma {:induction false} PlaceholdersAreWords(t: string, i: nat)
    requires i <= |t|
    ensures forall j :: 0 <= j < |PlaceholdersFrom(t, i)| ==> IsWord(PlaceholdersFrom(t, i)[j])
    decreases |t| - i
  {
    if i < |t| {
      match WordAt(t, i)
      case Some(w) => PlaceholdersAreWords(t, i + |w| + 2);
      case None => PlaceholdersAreWords(t, i + 1);
    }
  }

  /* ---------------- the defaults ---------------- */

  /** The keyword arguments once `format_prompt` has added "" for each missing key of `keys`. */
  function WithDefaults(kwargs: map<string, string>, keys: set<string>): (m: map<string, string>)
    ensures m.Keys == kwargs.Keys + keys
    ensures forall k :: k in kwargs ==> m[k] == kwargs[k]
    ensures forall k :: k in m && k !in kwargs ==> m[k] == ""
  {
    map k | k in kwargs.Keys + keys :: if k in kwargs then kwargs[k] else ""
  }

  function Elements(s: seq<string>): set<string> {
    set j | 0 <= j < |s| :: s[j]
  }

  /** prompts/__init__.py:26-28: the loop over the placeholders, adding each absent key. */
  method FillDefaults(kwargs: map<string, string>, placeholders: seq<string>) returns (filled: map<string, string>)
    ensures filled == WithDefaults(kwargs, Elements(placeholders))
  {
    filled := kwargs;
    var i := 0;
    while i < |placeholders|
      invariant 0 <= i <= |placeholders|
      invariant filled == WithDefaults(kwargs, Elements(placeholders[..i]))
    {
      var k := placeholders[i];
      if k !in filled {
        filled := filled[k := ""];
      }
      assert Elements(placeholders[..i + 1]) == Elements(placeholders[..i]) + {k} by {
        assert placeholders[..i + 1] == placeholders[..i] + [k];
      }
      i := i + 1;
    }
    assert placeholders[..i] == placeholders;
  }

  /* ---------------- str.format ---------------- */

  /** Why `str.format` raises. */
  datatype FormatError =
    | LoneBrace(brace: char)       // ValueError: a single '{' at the end or a single '}'
    | Unclosed                     // ValueError: a '{' whose field is never closed
    | PositionalIndex              // IndexError: an empty or numeric field, and no positional arguments
    | MissingKey(key: string)      // KeyError
    | Unsupported(field: string)   // attribute, index, conversion or format spec: not modelled

  datatype Formatted = Output(s: string) | Fails(error: FormatError)

  /** Literal text in front of the rest of the output. */
  function Prepend(p: string, r: Formatted): (q: Formatted)
    ensures r.Fails? <==> q.Fails?
    ensures r.Fails? ==> q == r
    ensures r.Output? ==> q == Output(p + r.s)
  {
    match r
    case Output(s) => Output(p + s)
    case Fails(e) => Fails(e)
  }

  /** The `}` that closes a field opened before `j`, braces nesting inside it. */
  function FieldEnd(t: string, j: nat, depth: nat): (e: Option<nat>)
    requires j <= |t| && depth >= 1
    ensures e.Some? ==> j <= e.value < |t| && t[e.value] == '}'
    decreases |t| - j
  {
    if j == |t| then None
    else if t[j] == '{' then FieldEnd(t, j + 1, depth + 1)
    else if t[j] == '}' then (if depth == 1 then Some(j) else FieldEnd(t, j + 1, depth - 1))
    else FieldEnd(t, j + 1, depth)
  }

  predicate IsMarkupChar(c: char) {
    c == '.' || c == '[' || c == '!' || c == ':' || c == '{' || c == '}'
  }

  predicate AllDigits(s: string) {
    forall k :: 0 <= k < |s| ==> IsDigit(s[k])
  }

  /** The value of one replacement field with text `f`: only plain keyword names are looked up. */
  function FieldValue(f: string, kwargs: map<string, string>): (r: Formatted)
    ensures r.Output? ==> f in kwargs && r.s == kwargs[f]
  {
    if exists k :: 0 <= k < |f| && IsMarkupChar(f[k]) then Fails(Unsupported(f))
    else if AllDigits(f) then Fails(PositionalIndex)
    else if f in kwargs then Output(kwargs[f])
    else Fails(MissingKey(f))
  }

  /** `t[i:].format(**kwargs)`: literal text, doubled braces, and fields, left to right; the first error escapes. */
  function FormatFrom(t: string, kwargs: map<string, string>, i: nat): Formatted
    requires i <= |t|
    decreases |t| - i
  {
    if i == |t| then Output("")
    else if t[i] == '{' then
      if i + 1 == |t| then Fails(LoneBrace('{'))
      else if t[i + 1] == '{' then Prepend("{", FormatFrom(t, kwargs, i + 2))
      else
        match FieldEnd(t, i + 1, 1)
        case None => Fails(Unclosed)
        case Some(e) =>
          match FieldValue(t[i + 1..e], kwargs)
          case Fails(err) => Fails(err)
          case Output(v) => Prepend(v, FormatFrom(t, kwargs, e + 1))
    else if t[i] == '}' then
      if i + 1 < |t| && t[i + 1] == '}' then Prepend("}", FormatFrom(t, kwargs, i + 2))
      else Fails(LoneBrace('}'))
    else Prepend([t[i]], FormatFrom(t, kwargs, i + 1))
  }

  function Format(t: string, kwargs: map<string, string>): Formatted {
    FormatFrom(t, kwargs, 0)
  }

  /** prompts/__init__.py:19-29 */
  method FormatPrompt(template: string, kwargs: map<string, string>) returns (r: Formatted)
    ensures r == Format(template, WithDefaults(kwargs, Elements(Placeholders(template))))
  {
    var placeholders := Placeholders(template);
    var filled := FillDefaults(kwargs, placeholders);
    r := Format(template, filled);
  }

  /* ---------------- what format_prompt promises ---------------- */

  predicate NoBrace(s: string) {
    forall k :: 0 <= k < |s| ==> s[k] != '{' && s[k] != '}'
  }

  /** Brace-free text is copied through. */
  lemma {:induction false} FormatBraceFree(t: string, kwargs: map<string, string>, i: nat, j: nat)
    requires i <= j <= |t|
    requires forall k :: i <= k < j ==> t[k] != '{' && t[k] != '}'
    ensures FormatFrom(t, kwargs, i) == Prepend(t[i..j], FormatFrom(t, kwargs, j))
    decreases j - i
  {
    if i < j {
      FormatBraceFree(t, kwargs, i + 1, j);
      assert t[i..j] == [t[i]] + t[i + 1..j];
    } else {
      assert t[i..j] == [];
    }
  }

  lemma {:induction false} NoPlaceholdersInBraceFree(t: string, i: nat)
    requires i <= |t| && NoBrace(t)
    ensures PlaceholdersFrom(t, i) == []
    decreases |t| - i
  {
    if i < |t| {
      NoPlaceholdersInBraceFree(t, i + 1);
    }
  }

  /** A template without braces is returned unchanged, whatever the arguments. */
  lemma BraceFreeTemplateUnchanged(t: string, kwargs: map<string, string>)
    requires NoBrace(t)
    ensures Format(t, WithDefaults(kwargs, Elements(Placeholders(t)))) == Output(t)
  {
    FormatBraceFree(t, WithDefaults(kwargs, Elements(Placeholders(t))), 0, |t|);
    assert t[0..|t|] == t;
  }

  /** One keyword placeholder between brace-free texts is replaced by its value; other arguments are ignored. */
  lemma SinglePlaceholder(pre: string, key: string, post: string, kwargs: map<string, string>)
    requires NoBrace(pre) && NoBrace(post) && IsWord(key) && !AllDigits(key)
    ensures Format(pre + "{" + key + "}" + post, kwargs)
            == if key in kwargs then Output(pre + kwargs[key] + post) else Fails(MissingKey(key))
  {
    var t := pre + "{" + key + "}" + post;
    var i := |pre|;
    var e := i + 1 + |key|;
    PlaceholderLayout(pre, key, post);
    FormatBraceFree(t, kwargs, 0, i);
    FieldOfWord(t, i, key);
    FieldThenText(t, kwargs, i, key, post);
    if key in kwargs {
      assert pre + (kwargs[key] + post) == pre + kwargs[key] + post;
    }
  }

  /** A `{key}` field followed by brace-free text to the end. */
  lemma FieldThenText(t: string, kwargs: map<string, string>, i: nat, key: string, post: string)
    requires IsWord(key) && !AllDigits(key)
    requires i + |key| + 2 <= |t| && t[i] == '{' && t[i + 1] != '{'
    requires FieldEnd(t, i + 1, 1) == Some(i + |key| + 1) && t[i + 1..i + |key| + 1] == key
    requires forall k :: i + |key| + 2 <= k < |t| ==> t[k] != '{' && t[k] != '}'
    requires t[i + |key| + 2..|t|] == post
    ensures FormatFrom(t, kwargs, i) == if key in kwargs then Output(kwargs[key] + post) else Fails(MissingKey(key))
  {
    var e := i + |key| + 1;
    FieldStep(t, kwargs, i, e);
    WordFieldValue(key, kwargs);
    FormatBraceFree(t, kwargs, e + 1, |t|);
    assert FormatFrom(t, kwargs, |t|) == Output("");
    assert post + "" == post;
  }

  /** A replacement field from `i` to its closing `}` at `e`: its value, then the rest. */
  lemma FieldStep(t: string, kwargs: map<string, string>, i: nat, e: nat)
    requires i + 1 < |t| && t[i] == '{' && t[i + 1] != '{'
    requires FieldEnd(t, i + 1, 1) == Some(e)
    ensures FormatFrom(t, kwargs, i) == match FieldValue(t[i + 1..e], kwargs)
                                        case Fails(err) => Fails(err)
                                        case Output(v) => Prepend(v, FormatFrom(t, kwargs, e + 1))
  {
  }

  /** A word that is not a number names a keyword argument. */
  lemma WordFieldValue(key: string, kwargs: map<string, string>)
    requires IsWord(key) && !AllDigits(key)
    ensures FieldValue(key, kwargs) == if key in kwargs then Output(kwargs[key]) else Fails(MissingKey(key))
  {
    assert forall k :: 0 <= k < |key| ==> !IsMarkupChar(key[k]) by {
      forall k | 0 <= k < |key| ensures !IsMarkupChar(key[k]) {
        assert IsWordChar(key[k]);
      }
    }
  }

  /** Where the parts of `pre + "{" + key + "}" + post` sit. */
  lemma PlaceholderLayout(pre: string, key: string, post: string)
    requires NoBrace(pre) && NoBrace(post)
    ensures var t := pre + "{" + key + "}" + post;
            var i := |pre|;
            var e := i + 1 + |key|;
            && e < |t|
            && (forall k :: 0 <= k < i ==> t[k] != '{' && t[k] != '}')
            && t[0..i] == pre
            && t[i..i + |key| + 2] == "{" + key + "}"
            && (forall k :: e + 1 <= k < |t| ==> t[k] != '{' && t[k] != '}')
            && t[e + 1..|t|] == post
  {
    var t := pre + "{" + key + "}" + post;
    var i := |pre|;
    var e := i + 1 + |key|;
    forall k | 0 <= k < i ensures t[k] != '{' && t[k] != '}' {
      assert t[k] == pre[k];
    }
    forall k | e + 1 <= k < |t| ensures t[k] != '{' && t[k] != '}' {
      assert t[k] == post[k - e - 1];
    }
    assert t[0..i] == pre;
    assert t[i..i + |key| + 2] == "{" + key + "}";
    assert t[e + 1..|t|] == post;
  }

  /** A `{word}` at `i` is a field that ends at its `}`. */
  lemma FieldOfWord(t: string, i: nat, w: string)
    requires IsWord(w) && i + |w| + 2 <= |t| && t[i..i + |w| + 2] == "{" + w + "}"
    ensures t[i] == '{' && i + 1 < |t| && t[i + 1] != '{'
    ensures FieldEnd(t, i + 1, 1) == Some(i + |w| + 1)
    ensures t[i + 1..i + |w| + 1] == w
  {
    var e := i + |w| + 1;
    assert t[i] == t[i..e + 1][0];
    assert t[i + 1] == t[i..e + 1][1] == w[0];
    assert t[e] == t[i..e + 1][|w| + 1];
    forall k | i + 1 <= k < e ensures IsWordChar(t[k]) {
      assert t[k] == t[i..e + 1][k - i] == w[k - i - 1];
    }
    FieldEndOverWord(t, i + 1, e);
    var u := t[i..e + 1];
    assert u == "{" + w + "}";
    assert u[1..|w| + 1] == w;
    SliceOfSlice(t, i, e + 1, 1, |w| + 1);
  }

  lemma {:induction false} FieldEndOverWord(t: string, j: nat, e: nat)
    requires j <= e < |t| && t[e] == '}'
    requires forall k :: j <= k < e ==> IsWordChar(t[k])
    ensures FieldEnd(t, j, 1) == Some(e)
    decreases e - j
  {
    if j < e {
      FieldEndOverWord(t, j + 1, e);
    }
  }

  /** A field whose text is a word is a `{word}` the placeholder scan finds. */
  lemma WordFieldIsPlaceholder(t: string, i: nat, e: nat)
    requires i < e < |t| && t[i] == '{' && FieldEnd(t, i + 1, 1) == Some(e) && IsWord(t[i + 1..e])
    ensures t[i + 1..e] in Placeholders(t)
  {
    var w := t[i + 1..e];
    forall k | i + 1 <= k < e ensures IsWordChar(t[k]) {
      assert t[k] == w[k - i - 1];
    }
    SkipWordOver(t, i + 1, e);
    assert WordAt(t, i) == Some(w);
    WordAtFound(t, 0, i, w);
  }

  /** With the defaults filled in, a field can only miss its key when its name is not a word. */
  lemma {:induction false} NoMissingWordKeyFrom(t: string, kwargs: map<string, string>, i: nat)
    requires i <= |t|
    requires forall w :: w in Placeholders(t) ==> w in kwargs
    ensures forall k :: FormatFrom(t, kwargs, i) == Fails(MissingKey(k)) ==> !IsWord(k)
    decreases |t| - i
  {
    if i < |t| {
      if t[i] == '{' && i + 1 < |t| && t[i + 1] != '{' {
        match FieldEnd(t, i + 1, 1)
        case None =>
        case Some(e) =>
          var f := t[i + 1..e];
          if IsWord(f) {
            WordFieldIsPlaceholder(t, i, e);
          }
          NoMissingWordKeyFrom(t, kwargs, e + 1);
      } else if t[i] == '{' && i + 1 < |t| {
        NoMissingWordKeyFrom(t, kwargs, i + 2);
      } else if t[i] == '}' && i + 1 < |t| && t[i + 1] == '}' {
        NoMissingWordKeyFrom(t, kwargs, i + 2);
      } else if t[i] != '{' && t[i] != '}' {
        NoMissingWordKeyFrom(t, kwargs, i + 1);
      }
    }
  }

  /** `format_prompt` never raises KeyError for a `{word}` placeholder. */
  lemma NoMissingWordKey(t: string, kwargs: map<string, string>)
    ensures forall k :: Format(t, WithDefaults(kwargs, Elements(Placeholders(t)))) == Fails(MissingKey(k)) ==> !IsWord(k)
  {
    var filled := WithDefaults(kwargs, Elements(Placeholders(t)));
    forall w | w in Placeholders(t) ensures w in filled {
      var j :| 0 <= j < |Placeholders(t)| && Placeholders(t)[j] == w;
      assert w in Elements(Placeholders(t));
    }
    NoMissingWordKeyFrom(t, filled, 0);
  }

  /** A missing placeholder reads as "": the template `{word}` alone formats to "" when no value is supplied. */
  lemma MissingPlaceholderEmpty(key: string, kwargs: map<string, string>)
    requires IsWord(key) && !AllDigits(key) && key !in kwargs
    ensures Format("{" + key + "}", WithDefaults(kwargs, Elements(Placeholders("{" + key + "}")))) == Output("")
  {
    var t := "{" + key + "}";
    LonePlaceholderFound(key);
    var filled := WithDefaults(kwargs, Elements(Placeholders(t)));
    assert key in filled && filled[key] == "";
    assert t == "" + "{" + key + "}" + "";
    SinglePlaceholder("", key, "", filled);
  }

  /** The scan finds the word of a template that is only `{word}`. */
  lemma LonePlaceholderFound(key: string)
    requires IsWord(key)
    ensures key in Elements(Placeholders("{" + key + "}"))
  {
    var t := "{" + key + "}";
    assert t[0..|key| + 2] == "{" + key + "}";
    FieldOfWord(t, 0, key);
    WordFieldIsPlaceholder(t, 0, |key| + 1);
    var j :| 0 <= j < |Placeholders(t)| && Placeholders(t)[j] == key;
  }

  /** A numeric placeholder gets a default too, but `str.format` reads it as a positional index and raises. */
  lemma NumericPlaceholderRaises(kwargs: map<string, string>)
    ensures "0" in Placeholders("{0}")
    ensures Format("{0}", WithDefaults(kwargs, Elements(Placeholders("{0}")))) == Fails(PositionalIndex)
  {
    var t := "{0}";
    assert t[0..3] == "{" + "0" + "}";
    FieldOfWord(t, 0, "0");
    WordFieldIsPlaceholder(t, 0, 2);
  }
}
