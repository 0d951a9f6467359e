/**
 * What the step loop does with a decision's code: whether it asks for a
 * translation (app.py:1031), the reply of the step-to-code call with its
 * markdown fence removed (app.py:503-547), the copy that is executed
 * (app.py:1048-1050) and the short action text of audit rows
 * (app.py:1113, 1146).
 */
module StepCode {
  import opened Base
  import opened Text

  /* ---------------- fence stripping ---------------- */

  /** The end of `^```\w*\n?` at the start of `s`. */
  function OpeningFenceEnd(s: string): (e: nat)
    requires StartsWith(s, "```")
    ensures 3 <= e <= |s|
  {
    var w := SkipWord(s, 3);
    if w < |s| && s[w] == '\n' then w + 1 else w
  }

  /** Whether `\n?```\s*$` matches at `i`: a newline is taken when there is one, and nothing but whitespace may follow the fence. */
  predicate ClosingFenceAt(s: string, i: nat)
    requires i <= |s|
  {
    if i < |s| && s[i] == '\n' then OccursAt(s, "```", i + 1) && AllSpace(s[i + 4..])
    else OccursAt(s, "```", i) && AllSpace(s[i + 3..])
  }

  /** `re.sub(r"\n?```\s*$", "", s)` from position `i`: the leftmost match runs to the end and is cut off. */
  function DropClosingFence(s: string, i: nat): (r: string)
    requires i <= |s|
    ensures StartsWith(s, r) && |r| >= i
    ensures |r| < |s| ==> ClosingFenceAt(s, |r|)
    ensures forall k :: i <= k < |r| ==> !ClosingFenceAt(s, k)
    decreases |s| - i
  {
    if ClosingFenceAt(s, i) then s[..i]
    else if i < |s| then DropClosingFence(s, i + 1)
    else s
  }

  /** Both fence substitutions, applied to a reply that starts with a fence. */
  function Unfence(t: string): string
    requires StartsWith(t, "```")
  {
    DropClosingFence(t[OpeningFenceEnd(t)..], 0)
  }

  /** The code in the step-to-code reply: stripped, a leading and a trailing fence removed, stripped again; "" is None. */
  function StripCodeFence(raw: string): (r: Option<string>)
    ensures r.Some? ==> r.value != "" && !IsSpace(r.value[0]) && !IsSpace(r.value[|r.value| - 1])
  {
    var t := Strip(raw);
    var v := Strip(if StartsWith(t, "```") then Unfence(t) else t);
    if v == "" then None else Some(v)
  }

  /** A reply that does not open with a fence is only stripped. */
  lemma UnfencedReplyStripped(raw: string)
    requires !StartsWith(Strip(raw), "```")
    ensures StripCodeFence(raw) == (if Strip(raw) == "" then None else Some(Strip(raw)))
  {
    StripIdempotent(raw);
  }

  /**
   * `translate_step_to_code`: None in stub mode and for a blank step;
   * `reply` is the content of the chat reply, None when the call failed.
   */
  function TranslateStepToCode(live: bool, description: string, reply: Option<string>): (r: Option<string>)
    ensures !live || Strip(description) == "" || reply.None? ==> r == None
    ensures r.Some? ==> r.value != "" && r == StripCodeFence(reply.value)
  {
    if !live || Strip(description) == "" then None
    else match reply
      case None => None
      case Some(raw) => StripCodeFence(raw)
  }

  /** A block fenced with a word-character language tag gives back its code. */
  lemma FencedCodeRoundTrip(tag: string, code: string)
    requires forall k :: 0 <= k < |tag| ==> IsWordChar(tag[k])
    requires code != "" && !IsSpace(code[0]) && !IsSpace(code[|code| - 1])
    requires forall k :: 0 <= k < |code| ==> code[k] != '`'
    ensures StripCodeFence("```" + tag + "\n" + code + "\n```") == Some(code)
  {
    var raw := "```" + tag + "\n" + code + "\n```";
    FencedReplyUnfences(tag, code);
    assert raw[0] == '`' && raw[|raw| - 1] == '`';
    StripCodeFenceOf(raw, code);
  }

  lemma StripCodeFenceOf(raw: string, code: string)
    requires raw != [] && !IsSpace(raw[0]) && !IsSpace(raw[|raw| - 1])
    requires StartsWith(raw, "```") && Unfence(raw) == code
    requires code != "" && !IsSpace(code[0]) && !IsSpace(code[|code| - 1])
    ensures StripCodeFence(raw) == Some(code)
  {
    StripWhole(raw);
    StripWhole(code);
  }

  lemma FencedReplyUnfences(tag: string, code: string)
    requires forall k :: 0 <= k < |tag| ==> IsWordChar(tag[k])
    requires forall k :: 0 <= k < |code| ==> code[k] != '`'
    ensures StartsWith("```" + tag + "\n" + code + "\n```", "```")
    ensures Unfence("```" + tag + "\n" + code + "\n```") == code
  {
    var raw := "```" + tag + "\n" + code + "\n```";
    OpeningFenceOfTag(tag, code);
    assert raw[OpeningFenceEnd(raw)..] == code + "\n```";
    ClosingFenceOfCode(code);
  }

  lemma OpeningFenceOfTag(tag: string, code: string)
    requires forall k :: 0 <= k < |tag| ==> IsWordChar(tag[k])
    ensures StartsWith("```" + tag + "\n" + code + "\n```", "```")
    ensures OpeningFenceEnd("```" + tag + "\n" + code + "\n```") == 4 + |tag|
  {
    var raw := "```" + tag + "\n" + code + "\n```";
    assert raw[..3] == "```";
    forall k | 3 <= k < 3 + |tag| ensures IsWordChar(raw[k]) {
      assert raw[k] == tag[k - 3];
    }
    assert raw[3 + |tag|] == '\n';
    SkipWordOver(raw, 3, 3 + |tag|);
  }

  /** No closing fence starts at a character that is neither a backtick nor a newline before one. */
  lemma NoClosingFenceAt(u: string, k: nat)
    requires k < |u| && u[k] != '`'
    requires u[k] == '\n' ==> k + 1 < |u| && u[k + 1] != '`'
    ensures !ClosingFenceAt(u, k)
  {
    if u[k] == '\n' {
      if k + 4 <= |u| {
        assert u[k + 1..k + 4][0] == u[k + 1];
      }
    } else if k + 3 <= |u| {
      assert u[k..k + 3][0] == u[k];
    }
  }

  /** The final newline and fence of `code + "\n```"` form a closing fence. */
  lemma FinalClosingFence(code: string)
    ensures ClosingFenceAt(code + "\n```", |code|)
  {
    var u := code + "\n```";
    assert u[|code|] == '\n';
    assert u[|code| + 1..|code| + 4] == "```";
    assert u[|code| + 4..] == [];
  }

  /** Inside backtick-free code no closing fence starts. */
  lemma NoClosingFenceInside(code: string)
    requires forall k :: 0 <= k < |code| ==> code[k] != '`'
    ensures forall k :: 0 <= k < |code| ==> !ClosingFenceAt(code + "\n```", k)
  {
    var u := code + "\n```";
    forall k | 0 <= k < |code| ensures !ClosingFenceAt(u, k) {
      assert u[k] == code[k];
      if k + 1 < |code| {
        assert u[k + 1] == code[k + 1];
      }
      NoClosingFenceAt(u, k);
    }
  }

  /** In `code` followed by a newline and a fence, the only closing fence is the final one. */
  lemma ClosingFenceOfCode(code: string)
    requires forall k :: 0 <= k < |code| ==> code[k] != '`'
    ensures DropClosingFence(code + "\n```", 0) == code
  {
    var u := code + "\n```";
    FinalClosingFence(code);
    NoClosingFenceInside(code);
    DropClosingFenceFirst(u, 0, |code|);
    assert u[..|code|] == code;
  }

  /** The leftmost match decides the cut. */
  lemma {:induction false} DropClosingFenceFirst(s: string, i: nat, m: nat)
    requires i <= m <= |s|
    requires ClosingFenceAt(s, m)
    requires forall k :: i <= k < m ==> !ClosingFenceAt(s, k)
    ensures DropClosingFence(s, i) == s[..m]
    decreases m - i
  {
    if i < m {
      DropClosingFenceFirst(s, i + 1, m);
    }
  }

  /* ---------------- the executed copy ---------------- */

  /** app.py:1031: the code is blank or `pass` and the thought says something. */
  predicate NeedsTranslation(code: string, thought: string) {
    (code == "" || Strip(code) == "" || Strip(code) == "pass") && Strip(thought) != ""
  }

  /** app.py:1048-1050: `pyautogui.sleep(` becomes `time.sleep(`, and a pause precedes every chained pyautogui call. */
  function RewriteForExec(code: string): string {
    var slept := if Contains(code, "pyautogui.sleep(") then Replace(code, "pyautogui.sleep(", "time.sleep(") else code;
    Replace(slept, "; pyautogui.", "; time.sleep(0.6); pyautogui.")
  }

  /** The membership test guarding the first replacement changes nothing. */
  lemma RewriteGuardRedundant(code: string)
    ensures RewriteForExec(code)
            == Replace(Replace(code, "pyautogui.sleep(", "time.sleep("), "; pyautogui.", "; time.sleep(0.6); pyautogui.")
  {
    if !Contains(code, "pyautogui.sleep(") {
      ReplaceAbsent(code, "pyautogui.sleep(", "time.sleep(");
    }
  }

  /** Code that never mentions `pyautogui.` is executed exactly as written. */
  lemma RewriteWithoutPyautogui(code: string)
    requires !Contains(code, "pyautogui.")
    ensures RewriteForExec(code) == code
  {
    assert OccursAt("pyautogui.sleep(", "pyautogui.", 0);
    assert OccursAt("; pyautogui.", "pyautogui.", 2);
    NotContainsWider(code, "pyautogui.sleep(", "pyautogui.");
    NotContainsWider(code, "; pyautogui.", "pyautogui.");
    ReplaceAbsent(code, "; pyautogui.", "; time.sleep(0.6); pyautogui.");
  }

  /* ---------------- the action text of an audit row ---------------- */

  /** `(thought[:120] + "…") if thought and len(thought) > 120 else (thought or "—")` */
  function ActionSummary(thought: string): (r: string)
    ensures r != "" && |r| <= 121
    ensures 0 < |thought| <= 120 ==> r == thought
    ensures |thought| > 120 ==> |r| == 121 && r[..120] == thought[..120] && r[120] == '…'
  {
    if |thought| > 120 then thought[..120] + "…"
    else if thought == "" then "—"
    else thought
  }
}
