/**
 * The two regular expressions the reply parsers of app.py search with,
 * written out as the scans Python's backtracking matcher performs.
 *
 *   fence: ```(?:json)?\s*(\{[\s\S]*?\})\s*```     (group 1 is used)
 *   brace: \{[^{}]*(?:\{[^{}]*\}[^{}]*)*\}        (group 0 is used)
 *
 * Neither pattern can backtrack into a different match once its start is
 * fixed: a greedy `\s*` or `[^{}]*` that gives a character back leaves a
 * character the next item cannot accept, so each start position has at most
 * one match, and `re.search` returns the one at the leftmost start.
 */
module ReplyPatterns {
  import opened Base
  import opened Text
  import opened Json

  /* ---------------- the fenced block ---------------- */

  /** Group 1 of the leftmost match of the fence pattern. */
  function FencedObject(s: string): (r: Option<string>)
    ensures r.Some? ==> Braced(r.value) && Contains(s, r.value)
  {
    FenceSearch(s, 0)
  }

  /** A candidate object text: it opens with `{` and closes with `}`. */
  predicate Braced(t: string) {
    |t| >= 2 && t[0] == '{' && t[|t| - 1] == '}'
  }

  function FenceSearch(s: string, i: nat): (r: Option<string>)
    requires i <= |s|
    ensures r.Some? ==> Braced(r.value) && Contains(s, r.value)
    decreases |s| - i
  {
    match FenceAt(s, i)
    case Some(t) => Some(t)
    case None => if i < |s| then FenceSearch(s, i + 1) else None
  }

  /** The match starting at `i`: the fence, `json` if that leads to a match, then the body. */
  function FenceAt(s: string, i: nat): (r: Option<string>)
    requires i <= |s|
    ensures r.Some? ==> Braced(r.value) && Contains(s, r.value)
  {
    if !OccursAt(s, "```", i) then None
    else
      var viaJson := if OccursAt(s, "json", i + 3) then FenceBody(s, i + 7) else None;
      if viaJson.Some? then viaJson else FenceBody(s, i + 3)
  }

  /** `\s*(\{[\s\S]*?\})\s*```` from position `j`. */
  function FenceBody(s: string, j: nat): (r: Option<string>)
    requires j <= |s|
    ensures r.Some? ==> Braced(r.value) && Contains(s, r.value)
  {
    var k := SkipSpace(s, j);
    if k < |s| && s[k] == '{' then LazyClose(s, k, k + 1) else None
  }

  /**
   * The lazy `[\s\S]*?`: the first `}` at or after `q` that is followed by
   * optional whitespace and a closing fence ends the group.
   */
  function LazyClose(s: string, start: nat, q: nat): (r: Option<string>)
    requires start < q <= |s| && s[start] == '{'
    ensures r.Some? ==> Braced(r.value) && Contains(s, r.value)
    decreases |s| - q
  {
    if q == |s| then None
    else if s[q] == '}' && OccursAt(s, "```", SkipSpace(s, q + 1)) then
      assert OccursAt(s, s[start..q + 1], start);
      Some(s[start..q + 1])
    else LazyClose(s, start, q + 1)
  }

  /* ---------------- the brace span ---------------- */

  predicate IsBrace(c: char) { c == '{' || c == '}' }

  /** `[^{}]*` from `j`: the end of the run of non-brace characters. */
  function SkipPlain(s: string, j: nat): (e: nat)
    requires j <= |s|
    ensures j <= e <= |s|
    ensures forall k :: j <= k < e ==> !IsBrace(s[k])
    ensures e < |s| ==> IsBrace(s[e])
    decreases |s| - j
  {
    if j < |s| && !IsBrace(s[j]) then SkipPlain(s, j + 1) else j
  }

  /**
   * After the opening brace (or after an inner group), at depth one: either
   * the closing `}` ends the match, or an inner `{[^{}]*}` group follows.
   * Returns the index just past the match.
   */
  function BraceRest(s: string, j: nat): (e: Option<nat>)
    requires j <= |s|
    ensures e.Some? ==> j < e.value <= |s| && s[e.value - 1] == '}'
    decreases |s| - j
  {
    var k := SkipPlain(s, j);
    if k == |s| then None
    else if s[k] == '}' then Some(k + 1)
    else
      var m := SkipPlain(s, k + 1);
      if m < |s| && s[m] == '}' then BraceRest(s, m + 1) else None
  }

  function BraceAt(s: string, i: nat): (r: Option<string>)
    requires i <= |s|
    ensures r.Some? ==> Braced(r.value) && OccursAt(s, r.value, i)
  {
    if i < |s| && s[i] == '{' then
      match BraceRest(s, i + 1)
      case Some(e) => Some(s[i..e])
      case None => None
    else None
  }

  function BraceSearch(s: string, i: nat): (r: Option<string>)
    requires i <= |s|
    ensures r.Some? ==> Braced(r.value) && Contains(s, r.value)
    decreases |s| - i
  {
    match BraceAt(s, i)
    case Some(t) => Some(t)
    case None => if i < |s| then BraceSearch(s, i + 1) else None
  }

  /** Group 0 of the leftmost match of the brace pattern. */
  function BraceSpan(s: string): (r: Option<string>)
    ensures r.Some? ==> Braced(r.value) && Contains(s, r.value)
  {
    BraceSearch(s, 0)
  }

  /* ---------------- the candidates handed to json.loads ---------------- */

  /** The fenced candidate: `json.loads` of group 1 of the fence pattern, None when absent or invalid. */
  function FenceCandidate(raw: string, rt: Runtime): Option<Json> {
    match FencedObject(raw)
    case Some(t) => rt.loads(t)
    case None => None
  }

  /** The brace candidate: `json.loads` of the first brace span, None when absent or invalid. */
  function BraceCandidate(raw: string, rt: Runtime): Option<Json> {
    match BraceSpan(raw)
    case Some(t) => rt.loads(t)
    case None => None
  }

  predicate TruthyResult(p: Option<Json>) {
    p.Some? && Truthy(p.value)
  }

  /* ---------------- a well-formed fenced reply ---------------- */

  predicate NoBacktick(t: string) {
    forall k :: 0 <= k < |t| ==> t[k] != '`'
  }

  /** No fence can start where there is no backtick. */
  lemma {:induction false} FenceSearchSkips(s: string, i: nat, p: nat)
    requires i <= p <= |s|
    requires forall k :: i <= k < p ==> s[k] != '`'
    ensures FenceSearch(s, i) == FenceSearch(s, p)
    decreases p - i
  {
    if i < p {
      assert !OccursAt(s, "```", i) by {
        if i + 3 <= |s| {
          assert s[i..i + 3][0] == s[i];
        }
      }
      FenceSearchSkips(s, i + 1, p);
    }
  }

  /** The lazy group runs to the first `}` that a fence follows; inside a backtick-free body there is none. */
  lemma {:induction false} LazyCloseAtEnd(s: string, start: nat, q: nat, last: nat)
    requires start < q <= last && last + 5 <= |s|
    requires s[start] == '{' && s[last] == '}' && s[last + 1] == '\n'
    requires s[last + 2..last + 5] == "```"
    requires forall k :: start <= k <= last ==> s[k] != '`'
    ensures LazyClose(s, start, q) == Some(s[start..last + 1])
    decreases last - q
  {
    if q < last {
      var e := SkipSpace(s, q + 1);
      assert e <= last by {
        assert !IsSpace(s[last]);
      }
      assert !OccursAt(s, "```", e) by {
        if e + 3 <= |s| {
          assert s[e..e + 3][0] == s[e];
        }
      }
      LazyCloseAtEnd(s, start, q + 1, last);
    } else {
      assert s[last + 2] == s[last + 2..last + 5][0];
      assert SkipSpace(s, last + 2) == last + 2;
      assert SkipSpace(s, last + 1) == last + 2;
      assert OccursAt(s, "```", last + 2);
    }
  }

  /** A reply holding a ```json fence around a backtick-free object yields that object. */
  lemma FencedBlockFound(pre: string, body: string, post: string)
    requires NoBacktick(pre) && NoBacktick(body) && Braced(body)
    ensures FencedObject(pre + "```json\n" + body + "\n```" + post) == Some(body)
  {
    var s := pre + "```json\n" + body + "\n```" + post;
    var p := |pre|;
    ReplyLayout(pre, body, post);
    FenceSearchSkips(s, 0, p);
    FenceAtLayout(s, p, body);
  }

  /** Where the parts of a fenced reply sit. */
  lemma ReplyLayout(pre: string, body: string, post: string)
    requires NoBacktick(pre)
    ensures var s := pre + "```json\n" + body + "\n```" + post;
            var p := |pre|;
            && p + 8 + |body| + 4 <= |s|
            && (forall k :: 0 <= k < p ==> s[k] != '`')
            && s[p..p + 3] == "```" && s[p + 3..p + 7] == "json" && s[p + 7] == '\n'
            && s[p + 8..p + 8 + |body|] == body
            && s[p + 8 + |body|] == '\n' && s[p + 9 + |body|..p + 12 + |body|] == "```"
  {
    var s := pre + "```json\n" + body + "\n```" + post;
    var p := |pre|;
    assert s == pre + ("```json\n" + body + "\n```" + post);
    forall k | 0 <= k < p ensures s[k] != '`' {
      assert s[k] == pre[k];
    }
    var rest := s[p..];
    assert rest == "```json\n" + body + "\n```" + post;
    assert s[p..p + 3] == rest[..3] == "```";
    assert s[p + 3..p + 7] == rest[3..7] == "json";
    assert s[p + 7] == rest[7];
    assert s[p + 8..p + 8 + |body|] == rest[8..8 + |body|] == body;
    assert s[p + 8 + |body|] == rest[8 + |body|];
    assert s[p + 9 + |body|..p + 12 + |body|] == rest[9 + |body|..12 + |body|] == "```";
  }

  /** The fence at `p`, laid out as ```json, a newline, the body, a newline and ```. */
  lemma FenceAtLayout(s: string, p: nat, body: string)
    requires NoBacktick(body) && Braced(body)
    requires p + 8 + |body| + 4 <= |s|
    requires s[p..p + 3] == "```" && s[p + 3..p + 7] == "json" && s[p + 7] == '\n'
    requires s[p + 8..p + 8 + |body|] == body
    requires s[p + 8 + |body|] == '\n' && s[p + 9 + |body|..p + 12 + |body|] == "```"
    ensures FenceAt(s, p) == Some(body)
  {
    var start := p + 8;
    var last := start + |body| - 1;
    assert s[start] == body[0];
    assert s[last] == body[|body| - 1];
    assert SkipSpace(s, p + 8) == p + 8;
    assert SkipSpace(s, p + 7) == p + 8;
    forall k | start <= k <= last ensures s[k] != '`' {
      assert s[k] == s[start..last + 1][k - start];
    }
    LazyCloseAtEnd(s, start, start + 1, last);
  }
}
