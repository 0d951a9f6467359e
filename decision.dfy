/**
 * The main agent's reply: extracting a JSON object from free-form model
 * text (app.py:308-330), normalising it into a step decision
 * (app.py:332-348), and the dispatch between the live reply and the
 * deterministic demo stub in `analyze_screenshot` (app.py:561-601).
 */
module Decisions {
  import opened Base
  import opened Text
  import opened Json
  import opened ReplyPatterns

  datatype StepStatus = Continue | Success | Lost

  function StatusName(s: StepStatus): string {
    match s
    case Continue => "CONTINUE"
    case Success => "SUCCESS"
    case Lost => "LOST"
  }

  /**
   * The normalised reply of `_call_minimax_api`. `thought` and `code` keep
   * whatever JSON value the reply gave; the plan fields are None when the
   * reply is not for the first step (the keys are absent then).
   */
  datatype AgentReply = AgentReply(
    thought: Json,
    code: Json,
    status: StepStatus,
    totalSteps: Option<Option<int>>,
    checkpoints: Option<seq<int>>)

  /**
   * What `analyze_screenshot` hands to the step loop. An absent
   * `total_steps` is None and absent checkpoints are the empty list: the
   * loop reads both only through `is not None` and truthiness.
   */
  datatype Decision = Decision(
    thought: string,
    code: string,
    status: StepStatus,
    totalSteps: Option<int>,
    checkpoints: seq<int>)

  /* ---------------- extraction ---------------- */

  /**
   * The value of `parsed` after the three extraction stages: a truthy fenced
   * object wins; otherwise the whole stripped reply; only when that is not
   * JSON at all, the brace span (keeping the fenced value when the span
   * fails too).
   */
  function ExtractReply(raw: string, rt: Runtime): (r: Option<Json>)
    ensures TruthyResult(FenceCandidate(raw, rt)) ==> r == FenceCandidate(raw, rt)
    ensures !TruthyResult(FenceCandidate(raw, rt)) && rt.loads(Strip(raw)).Some? ==>
              r == rt.loads(Strip(raw))
    ensures !TruthyResult(FenceCandidate(raw, rt)) && rt.loads(Strip(raw)).None? ==>
              r == (if BraceCandidate(raw, rt).Some? then BraceCandidate(raw, rt) else FenceCandidate(raw, rt))
  {
    var fenced := FenceCandidate(raw, rt);
    if TruthyResult(fenced) then fenced
    else
      match rt.loads(Strip(raw))
      case Some(v) => Some(v)
      case None =>
        var braced := BraceCandidate(raw, rt);
        if braced.Some? then braced else fenced
  }

  /* ---------------- normalisation ---------------- */

  /** The status a stripped, upper-cased text stands for; anything unknown is CONTINUE. */
  function StatusFromText(u: string): (st: StepStatus)
    ensures st != Continue ==> u == StatusName(st)
    ensures st == Continue ==> u != "SUCCESS" && u != "LOST"
  {
    if u == "SUCCESS" then Success else if u == "LOST" then Lost else Continue
  }

  /** `(parsed.get("status") or "CONTINUE").strip().upper()`, forced into the three known values. */
  function StatusOf(v: Json): (r: Attempt<StepStatus>)
    ensures !Truthy(v) ==> r == Ok(Continue)
    ensures Truthy(v) && !v.JStr? ==> r.Raised?
    ensures v.JStr? && v.s != "" ==>
              && r.Ok?
              && (r.value == Success <==> Upper(Strip(v.s)) == "SUCCESS")
              && (r.value == Lost <==> Upper(Strip(v.s)) == "LOST")
  {
    var w := Or(v, JStr("CONTINUE"));
    CanonicalText("CONTINUE");
    if w.JStr? then Ok(StatusFromText(Upper(Strip(w.s))))
    else Raised("AttributeError: status has no attribute 'strip'")
  }

  /** `int(parsed.get("total_steps") or 0) or None`; TypeError and ValueError give None, OverflowError escapes. */
  function TotalStepsOf(v: Json): (r: Attempt<Option<int>>)
    ensures r.Ok? && r.value.Some? ==> r.value.value != 0 && IntOf(Or(v, JInt(0))) == Converted(r.value.value)
    ensures r.Raised? <==> IntOf(Or(v, JInt(0))).OverflowError?
    ensures v.JInt? ==> r == Ok(if v.i == 0 then None else Some(v.i))
  {
    match IntOf(Or(v, JInt(0)))
    case Converted(n) => Ok(if n == 0 then None else Some(n))
    case OverflowError => Raised("OverflowError: cannot convert float infinity to integer")
    case _ => Ok(None)
  }

  /** The elements `isinstance(x, (int, float))` admits, in order. */
  function Numbers(items: seq<Json>): (r: seq<Json>)
    ensures |r| <= |items|
    ensures forall k :: 0 <= k < |r| ==> IsNumber(r[k])
    ensures forall x :: x in r <==> x in items && IsNumber(x)
  {
    if items == [] then []
    else
      assert items == [items[0]] + items[1..];
      (if IsNumber(items[0]) then [items[0]] else []) + Numbers(items[1..])
  }

  /** The filter keeps the order: filtering a concatenation concatenates the filtered parts. */
  lemma {:induction false} NumbersAppend(xs: seq<Json>, ys: seq<Json>)
    ensures Numbers(xs + ys) == Numbers(xs) + Numbers(ys)
  {
    if xs != [] {
      assert (xs + ys)[1..] == xs[1..] + ys;
      NumbersAppend(xs[1..], ys);
    } else {
      assert xs + ys == ys;
    }
  }

  /** A list of numbers passes the filter whole. */
  lemma {:induction false} NumbersOfNumbers(items: seq<Json>)
    requires forall k :: 0 <= k < |items| ==> IsNumber(items[k])
    ensures Numbers(items) == items
  {
    if items != [] {
      NumbersOfNumbers(items[1..]);
    }
  }

  /** A number `int()` cannot convert: an infinite or NaN float. */
  predicate NonFinite(v: Json) {
    v.JFloat? && !v.f.Finite?
  }

  /** `int(x)` for each number in turn; the first that cannot be converted escapes. */
  function Converts(nums: seq<Json>): (r: Attempt<seq<int>>)
    ensures r.Ok? ==> |r.value| == |nums|
    ensures r.Ok? ==> forall k :: 0 <= k < |nums| ==> IntOf(nums[k]) == Converted(r.value[k])
  {
    if nums == [] then Ok([])
    else
      match IntOf(nums[0])
      case Converted(n) =>
        (match Converts(nums[1..])
         case Ok(ns) => Ok([n] + ns)
         case Raised(e) => Raised(e))
      case ValueError => Raised("ValueError: cannot convert float NaN to integer")
      case _ => Raised("OverflowError: cannot convert float infinity to integer")
  }

  /** `[int(x) for x in raw_cp if isinstance(x, (int, float))]` */
  function CheckpointsOf(items: seq<Json>): Attempt<seq<int>> {
    Converts(Numbers(items))
  }

  /** Converting numbers raises exactly when one of them is an infinite or NaN float. */
  lemma {:induction false} ConvertsRaiseIff(nums: seq<Json>)
    requires forall k :: 0 <= k < |nums| ==> IsNumber(nums[k])
    ensures Converts(nums).Raised? <==> exists k :: 0 <= k < |nums| && NonFinite(nums[k])
  {
    if nums != [] {
      ConvertsRaiseIff(nums[1..]);
      assert forall k :: 1 <= k < |nums| ==> nums[k] == nums[1..][k - 1];
    }
  }

  /** The number filter keeps every infinite or NaN float. */
  lemma NumbersKeepNonFinite(items: seq<Json>)
    ensures (exists k :: 0 <= k < |items| && NonFinite(items[k]))
            <==> (exists k :: 0 <= k < |Numbers(items)| && NonFinite(Numbers(items)[k]))
  {
    var ns := Numbers(items);
    if k :| 0 <= k < |items| && NonFinite(items[k]) {
      assert items[k] in ns;
      var j :| 0 <= j < |ns| && ns[j] == items[k];
      assert NonFinite(Numbers(items)[j]);
    }
  }

  /** The comprehension raises exactly when some element is an infinite or NaN float. */
  lemma CheckpointsRaiseIff(items: seq<Json>)
    ensures CheckpointsOf(items).Raised? <==> exists k :: 0 <= k < |items| && NonFinite(items[k])
  {
    var ns := Numbers(items);
    ConvertsRaiseIff(ns);
    NumbersKeepNonFinite(items);
    assert CheckpointsOf(items) == Converts(ns);
    if exists k :: 0 <= k < |items| && NonFinite(items[k]) {
      var j :| 0 <= j < |ns| && NonFinite(ns[j]);
      assert Converts(ns).Raised?;
    }
    if Converts(ns).Raised? {
      var j :| 0 <= j < |ns| && NonFinite(ns[j]);
      var k :| 0 <= k < |items| && NonFinite(items[k]);
    }
  }

  /** The first step's plan, app.py:340-348: `total_steps` first, then the checkpoints list. */
  function PlanOf(f: map<string, Json>): (r: Attempt<(Option<int>, seq<int>)>)
    ensures r.Ok? ==> Ok(r.value.0) == TotalStepsOf(Get(f, "total_steps"))
    ensures r.Ok? && !Get(f, "checkpoints").JArray? ==> r.value.1 == []
    ensures r.Ok? && Get(f, "checkpoints").JArray? ==> Ok(r.value.1) == CheckpointsOf(Get(f, "checkpoints").items)
    ensures r.Raised? <==> TotalStepsOf(Get(f, "total_steps")).Raised?
                           || (Get(f, "checkpoints").JArray? && CheckpointsOf(Get(f, "checkpoints").items).Raised?)
  {
    match TotalStepsOf(Get(f, "total_steps"))
    case Raised(e) => Raised(e)
    case Ok(total) =>
      var cp := Get(f, "checkpoints");
      if cp.JArray? then
        match CheckpointsOf(cp.items)
        case Raised(e) => Raised(e)
        case Ok(ns) => Ok((total, ns))
      else Ok((total, []))
  }

  /** app.py:332-348: the key defaults and coercions; the plan fields are read on the first step only. */
  function Normalise(f: map<string, Json>, isFirst: bool): (r: Attempt<AgentReply>)
    ensures r.Ok? ==> r.value.thought == Or(Get(f, "thought"), Or(Get(f, "reasoning"), JStr("No thought.")))
    ensures r.Ok? ==> r.value.code == Or(Get(f, "code"), JStr("pass"))
    ensures r.Ok? ==> Truthy(r.value.thought) && Truthy(r.value.code)
    ensures r.Ok? ==> Ok(r.value.status) == StatusOf(Get(f, "status"))
    ensures r.Ok? ==> (r.value.totalSteps.Some? <==> isFirst) && (r.value.checkpoints.Some? <==> isFirst)
    ensures r.Ok? && isFirst ==> PlanOf(f) == Ok((r.value.totalSteps.value, r.value.checkpoints.value))
    ensures r.Raised? <==> StatusOf(Get(f, "status")).Raised? || (isFirst && PlanOf(f).Raised?)
  {
    match StatusOf(Get(f, "status"))
    case Raised(e) => Raised(e)
    case Ok(status) =>
      var thought := Or(Get(f, "thought"), Or(Get(f, "reasoning"), JStr("No thought.")));
      var code := Or(Get(f, "code"), JStr("pass"));
      if !isFirst then Ok(AgentReply(thought, code, status, None, None))
      else
        match PlanOf(f)
        case Raised(e) => Raised(e)
        case Ok(plan) => Ok(AgentReply(thought, code, status, Some(plan.0), Some(plan.1)))
  }

  predicate IsNonEmptyObject(p: Option<Json>) {
    p.Some? && p.value.JObject? && p.value.fields != map[]
  }

  /** `_call_minimax_api` after the reply text is in hand: None when no non-empty object is found. */
  function ParseMain(raw: string, isFirst: bool, rt: Runtime): (r: Attempt<Option<AgentReply>>)
    ensures !IsNonEmptyObject(ExtractReply(raw, rt)) ==> r == Ok(None)
    ensures r.Ok? && r.value.Some? ==> Truthy(r.value.value.thought) && Truthy(r.value.value.code)
    ensures r.Ok? && r.value.Some? ==> (r.value.value.totalSteps.Some? <==> isFirst)
    ensures r.Ok? && r.value.Some? ==>
              IsNonEmptyObject(ExtractReply(raw, rt)) && Normalise(ExtractReply(raw, rt).value.fields, isFirst) == Ok(r.value.value)
    ensures r.Raised? ==>
              IsNonEmptyObject(ExtractReply(raw, rt)) && Normalise(ExtractReply(raw, rt).value.fields, isFirst) == Raised(r.error)
  {
    var parsed := ExtractReply(raw, rt);
    if IsNonEmptyObject(parsed) then
      match Normalise(parsed.value.fields, isFirst)
      case Ok(a) => Ok(Some(a))
      case Raised(e) => Raised(e)
    else Ok(None)
  }

  /* ---------------- dispatch and the demo stub ---------------- */

  /** The deterministic decision used without a live reply, keyed on the step `len(history) + 1`. */
  function Stub(historyLen: nat): (d: Decision)
    ensures d.status == (if historyLen == 0 then Continue else Success)
    ensures historyLen == 0 ==> d.totalSteps == Some(3) && d.checkpoints == [2]
    ensures historyLen != 0 ==> d.totalSteps == None && d.checkpoints == []
    ensures historyLen >= 2 ==> d.code == "pass"
    ensures d.thought != "" && d.code != ""
  {
    if historyLen == 0 then
      Decision("Demo stub: Opening Calculator via Run dialog",
               "import pyautogui; pyautogui.hotkey('win', 'r'); pyautogui.write('calc'); pyautogui.press('enter')",
               Continue, Some(3), [2])
    else if historyLen == 1 then
      Decision("Demo stub: Typing 'Hello World' in Calculator",
               "import pyautogui; pyautogui.write('Hello World')",
               Success, None, [])
    else
      Decision("Goal achieved", "pass", Success, None, [])
  }

  /** The decision built from a parsed reply; a non-string thought or code makes the step raise. */
  function DecisionFrom(a: AgentReply, isFirst: bool): (r: Attempt<Decision>)
    ensures r.Raised? <==> !a.thought.JStr? || !a.code.JStr?
    ensures r.Ok? ==> r.value.thought == a.thought.s && r.value.code == a.code.s && r.value.status == a.status
    ensures r.Ok? && !isFirst ==> r.value.totalSteps == None && r.value.checkpoints == []
    ensures r.Ok? && isFirst && a.totalSteps.Some? && a.checkpoints.Some? ==>
              r.value.totalSteps == a.totalSteps.value && r.value.checkpoints == a.checkpoints.value
  {
    if !a.thought.JStr? || !a.code.JStr? then Raised("TypeError: thought and code must be strings")
    else
      Ok(Decision(a.thought.s, a.code.s, a.status,
                  if isFirst && a.totalSteps.Some? then a.totalSteps.value else None,
                  if isFirst && a.checkpoints.Some? then a.checkpoints.value else []))
  }

  /**
   * `analyze_screenshot`: the live reply when there is one and it parses,
   * otherwise the stub. `reply` is the text content of the chat reply, or
   * None when the call gave up before parsing (stub mode, HTTP failure, a
   * bad envelope).
   */
  function AnalyzeScreenshot(live: bool, reply: Option<string>, historyLen: nat, rt: Runtime): (r: Attempt<Decision>)
    ensures !live || reply.None? ==> r == Ok(Stub(historyLen))
    ensures r.Ok? && historyLen != 0 ==> r.value.totalSteps == None && r.value.checkpoints == []
    ensures r.Ok? ==> r.value.thought != "" && r.value.code != ""
    ensures live && reply.Some? && ParseMain(reply.value, historyLen == 0, rt) == Ok(None) ==> r == Ok(Stub(historyLen))
  {
    var isFirst := historyLen == 0;
    var parsed := if live && reply.Some? then ParseMain(reply.value, isFirst, rt) else Ok(None);
    match parsed
    case Raised(e) => Raised(e)
    case Ok(None) => Ok(Stub(historyLen))
    case Ok(Some(a)) => DecisionFrom(a, isFirst)
  }

  /* ---------------- round trip ---------------- */

  function JInts(xs: seq<int>): (r: seq<Json>)
    ensures |r| == |xs|
  {
    seq(|xs|, k requires 0 <= k < |xs| => JInt(xs[k]))
  }

  /** The object an agent that follows the reply format sends for decision `d`. */
  function EncodeDecision(d: Decision, isFirst: bool): Json {
    var fields := map["thought" := JStr(d.thought), "code" := JStr(d.code), "status" := JStr(StatusName(d.status))];
    if isFirst then
      var total := match d.totalSteps case Some(n) => n case None => 0;
      JObject(fields["total_steps" := JInt(total)]["checkpoints" := JArray(JInts(d.checkpoints))])
    else JObject(fields)
  }

  /** The decisions such an object can carry: non-empty texts, no zero plan, plan fields on the first step only. */
  predicate Encodable(d: Decision, isFirst: bool) {
    d.thought != "" && d.code != "" && d.totalSteps != Some(0)
    && (!isFirst ==> d.totalSteps == None && d.checkpoints == [])
  }

  lemma StatusNameRoundTrip(s: StepStatus)
    ensures StatusOf(JStr(StatusName(s))) == Ok(s)
  {
    var n := StatusName(s);
    assert |n| >= 4 && StatusFromText(n) == s;
    CanonicalText(n);
  }

  lemma {:induction false} CheckpointsOfInts(xs: seq<int>)
    ensures CheckpointsOf(JInts(xs)) == Ok(xs)
  {
    if xs != [] {
      assert JInts(xs)[1..] == JInts(xs[1..]);
      CheckpointsOfInts(xs[1..]);
      assert [xs[0]] + xs[1..] == xs;
    }
  }

  lemma PlanEncoded(d: Decision)
    requires Encodable(d, true)
    ensures PlanOf(EncodeDecision(d, true).fields) == Ok((d.totalSteps, d.checkpoints))
  {
    var f := EncodeDecision(d, true).fields;
    var total := match d.totalSteps case Some(n) => n case None => 0;
    assert Get(f, "total_steps") == JInt(total);
    assert Get(f, "checkpoints") == JArray(JInts(d.checkpoints));
    CheckpointsOfInts(d.checkpoints);
  }

  /** Normalising the encoding of `d` keeps every field of `d`. */
  lemma NormaliseEncoded(d: Decision, isFirst: bool)
    requires Encodable(d, isFirst)
    ensures Normalise(EncodeDecision(d, isFirst).fields, isFirst)
            == Ok(AgentReply(JStr(d.thought), JStr(d.code), d.status,
                             if isFirst then Some(d.totalSteps) else None,
                             if isFirst then Some(d.checkpoints) else None))
  {
    var f := EncodeDecision(d, isFirst).fields;
    assert Get(f, "thought") == JStr(d.thought);
    assert Get(f, "code") == JStr(d.code);
    assert Get(f, "status") == JStr(StatusName(d.status));
    StatusNameRoundTrip(d.status);
    if isFirst {
      PlanEncoded(d);
    }
  }

  /** Any reply whose extracted object is the encoding of `d` is decoded back to `d`. */
  lemma DecisionRoundTrip(d: Decision, historyLen: nat, raw: string, rt: Runtime)
    requires Encodable(d, historyLen == 0)
    requires ExtractReply(raw, rt) == Some(EncodeDecision(d, historyLen == 0))
    ensures AnalyzeScreenshot(true, Some(raw), historyLen, rt) == Ok(d)
  {
    var isFirst := historyLen == 0;
    assert "thought" in EncodeDecision(d, isFirst).fields;
    assert IsNonEmptyObject(ExtractReply(raw, rt));
    NormaliseEncoded(d, isFirst);
    var a := AgentReply(JStr(d.thought), JStr(d.code), d.status,
                        if isFirst then Some(d.totalSteps) else None,
                        if isFirst then Some(d.checkpoints) else None);
    assert ParseMain(raw, isFirst, rt) == Ok(Some(a));
  }
}
