/**
 * The verdict decoder shared by `validate_goal_achieved` (app.py:409-425)
 * and `verify_step_achieved` (app.py:484-500): the two patterns are tried
 * in order, then the whole stripped reply, and the object found is read as
 * an `achieved` flag and a reason.
 */
module Verdicts {
  import opened Base
  import opened Text
  import opened Json
  import opened ReplyPatterns

  datatype Verdict = Verdict(achieved: bool, reason: string)

  /**
   * The loop over the two patterns: the first pattern that matches and whose
   * text is valid JSON ends the loop, whatever the value is.
   */
  function PatternCandidate(raw: string, rt: Runtime): (r: Option<Json>)
    ensures FenceCandidate(raw, rt).Some? ==> r == FenceCandidate(raw, rt)
    ensures FenceCandidate(raw, rt).None? ==> r == BraceCandidate(raw, rt)
  {
    var fenced := FenceCandidate(raw, rt);
    if fenced.Some? then fenced else BraceCandidate(raw, rt)
  }

  /** `parsed` once the fallback to the whole stripped reply has run; None is the early `return None`. */
  function VerdictValue(raw: string, rt: Runtime): (r: Option<Json>)
    ensures TruthyResult(PatternCandidate(raw, rt)) ==> r == PatternCandidate(raw, rt)
    ensures !TruthyResult(PatternCandidate(raw, rt)) ==> r == rt.loads(Strip(raw))
  {
    var p := PatternCandidate(raw, rt);
    if TruthyResult(p) then p else rt.loads(Strip(raw))
  }

  /** `parsed.get("achieved") in (True, "true", "yes", 1)`, with Python's `==` between numbers. */
  predicate Achieved(v: Json) {
    NumericValue(v) == Some(1.0) || v == JStr("true") || v == JStr("yes")
  }

  /** `str(parsed.get("reason") or "").strip() or "No reason given."` */
  function ReasonOf(v: Json, rt: Runtime): (r: string)
    ensures r != "" && !IsSpace(r[0]) && !IsSpace(r[|r| - 1])
    ensures Strip(PyStr(Or(v, JStr("")), rt)) != "" ==> r == Strip(PyStr(Or(v, JStr("")), rt))
    ensures Strip(PyStr(Or(v, JStr("")), rt)) == "" ==> r == "No reason given."
  {
    var t := Strip(PyStr(Or(v, JStr("")), rt));
    if t == "" then "No reason given." else t
  }

  /**
   * The decoded verdict: None when nothing parses; a parsed value that is
   * not a dict has no `.get`, and the AttributeError escapes.
   */
  function DecodeVerdict(raw: string, rt: Runtime): (r: Attempt<Option<Verdict>>)
    ensures VerdictValue(raw, rt).None? <==> r == Ok(None)
    ensures r.Raised? <==> VerdictValue(raw, rt).Some? && !VerdictValue(raw, rt).value.JObject?
    ensures r.Ok? && r.value.Some? ==>
              var f := VerdictValue(raw, rt).value.fields;
              r.value.value == Verdict(Achieved(Get(f, "achieved")), ReasonOf(Get(f, "reason"), rt))
  {
    match VerdictValue(raw, rt)
    case None => Ok(None)
    case Some(v) =>
      if v.JObject? then Ok(Some(Verdict(Achieved(Get(v.fields, "achieved")), ReasonOf(Get(v.fields, "reason"), rt))))
      else Raised("AttributeError: parsed value has no attribute 'get'")
  }

  /** Exactly five JSON values count as achieved. */
  lemma AchievedValues(v: Json)
    ensures Achieved(v) <==> v in {JBool(true), JInt(1), JFloat(Finite(1.0)), JStr("true"), JStr("yes")}
  {
    if v.JBool? {
      assert NumericValue(v) == Some(1.0) <==> v.b;
    } else if v.JInt? {
      assert NumericValue(v) == Some(1.0) <==> v.i == 1;
    }
  }

  /* ---------------- round trip ---------------- */

  /** A reason that survives decoding unchanged. */
  predicate CanonicalReason(s: string) {
    s != "" && !IsSpace(s[0]) && !IsSpace(s[|s| - 1])
  }

  function EncodeVerdict(v: Verdict): Json {
    JObject(map["achieved" := JBool(v.achieved), "reason" := JStr(v.reason)])
  }

  /** Any reply whose decoded object is the encoding of `v` is read back as `v`. */
  lemma VerdictRoundTrip(v: Verdict, raw: string, rt: Runtime)
    requires CanonicalReason(v.reason)
    requires VerdictValue(raw, rt) == Some(EncodeVerdict(v))
    ensures DecodeVerdict(raw, rt) == Ok(Some(v))
  {
    var f := EncodeVerdict(v).fields;
    assert Get(f, "achieved") == JBool(v.achieved);
    assert Get(f, "reason") == JStr(v.reason);
    assert Achieved(JBool(v.achieved)) == v.achieved;
    ReasonKept(v.reason, rt);
  }

  lemma ReasonKept(s: string, rt: Runtime)
    requires CanonicalReason(s)
    ensures ReasonOf(JStr(s), rt) == s
  {
    assert Or(JStr(s), JStr("")) == JStr(s);
    StripWhole(s);
  }

  /** A fenced, backtick-free object that parses is what the verifier reads. */
  lemma FencedVerdictRead(pre: string, body: string, post: string, rt: Runtime)
    requires NoBacktick(pre) && NoBacktick(body) && Braced(body)
    requires TruthyResult(rt.loads(body))
    ensures VerdictValue(pre + "```json\n" + body + "\n```" + post, rt) == rt.loads(body)
  {
    FencedBlockFound(pre, body, post);
  }
}
