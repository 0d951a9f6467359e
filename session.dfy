/**
 * The session driven by `main` (app.py:880-911, 981-1297): each script run
 * advances the session by at most one step — capture, decide, translate,
 * revise the plan on the first step, execute, verify, log and move on or
 * stop — and a finished session writes its post-mortem once.
 *
 * The session's state is what `st.session_state` and the session's rows in
 * `sessions`, `audit_log` and `post_mortems` hold. Everything the step
 * reads from outside (the screenshot, the model replies, `exec`, the
 * traceback text) arrives in a `StepWorld`.
 */
module Session {
  import opened Base
  import opened Text
  import opened Json
  import opened Decisions
  import opened Verdicts
  import opened StepCode
  import opened Translator
  import opened Refinement

  /** The `status` column of the session's `sessions` row. */
  datatype SessionStatus = Running | Errored | Succeeded | Stuck | OutOfSteps

  function StatusText(s: SessionStatus): string {
    match s
    case Running => "running"
    case Errored => "error"
    case Succeeded => "success"
    case Stuck => "stuck"
    case OutOfSteps => "lost"
  }

  /** An element of `st.session_state.history` (app.py:1169-1175). */
  datatype HistoryEntry = HistoryEntry(step: int, thought: string, code: string, status: StepStatus, outcome: string)

  /** A row of `post_mortems`. */
  datatype PostMortem = PostMortem(goal: string, prompt: string, summary: string,
                                   valAchieved: Option<string>, valReason: Option<string>)

  /**
   * The whole state of one session. `validation` is the cached
   * `st.session_state.validation_result`: None while it is not set.
   */
  datatype TaskState = TaskState(
    goal: string,
    stepNumber: int,
    maxSteps: int,
    plannedTotal: Option<int>,
    checkpoints: seq<int>,
    history: seq<HistoryEntry>,
    isRunning: bool,
    status: SessionStatus,
    audit: seq<AuditRow>,
    validation: Option<Option<Verdict>>,
    postMortems: seq<PostMortem>)

  /**
   * What one step receives from outside: whether the screenshot was taken;
   * an exception raised by the database calls at the top of the `try`;
   * whether the live API is in use (no stub, a key); the agent's reply and
   * the step-to-code reply (None when the call gave up); the environment
   * text; the translator's rules; the outcome of `exec` on the code it is
   * given (None, or the exception text); the step verifier's reply; the
   * traceback text of an escaping exception; and the JSON oracle.
   */
  datatype StepWorld = StepWorld(
    captured: bool,
    fault: Option<string>,
    live: bool,
    agentReply: Option<string>,
    env: string,
    rules: seq<Rule>,
    codeReply: Option<string>,
    exec: string -> Option<string>,
    verifyReply: Option<string>,
    traceback: string,
    rt: Runtime)

  /** What the post-mortem block receives: whether the last screenshot exists, and the goal validator's reply. */
  datatype EndWorld = EndWorld(shotExists: bool, live: bool, validateReply: Option<string>, rt: Runtime)

  /* ---------------- invariant and guards ---------------- */

  /**
   * A running session is inside its budget, has one history entry and one
   * audit row per finished step, and reports `running`; every history entry
   * carries its own step number; at most one post-mortem exists.
   */
  predicate Valid(s: TaskState) {
    && s.maxSteps >= 1
    && (s.isRunning <==> s.status == Running)
    && (s.isRunning ==> 1 <= s.stepNumber <= s.maxSteps
                        && |s.history| == s.stepNumber - 1 && |s.audit| == |s.history|)
    && (forall k :: 0 <= k < |s.history| ==> s.history[k].step == k + 1)
    && |s.postMortems| <= 1
  }

  /** app.py:994: the step block runs. */
  predicate StepGuard(s: TaskState) {
    s.isRunning && s.stepNumber <= s.maxSteps
  }

  /** app.py:1248-1251, as written: the post-mortem block runs. */
  predicate CompletionGuard(s: TaskState) {
    s.isRunning && (s.stepNumber > s.maxSteps || s.stepNumber == s.maxSteps + 1)
  }

  /** The post-mortem block as its comment describes it: after SUCCESS, LOST or the budget. */
  predicate Concluded(s: TaskState) {
    !s.isRunning && (s.status == Succeeded || s.status == Stuck || s.status == OutOfSteps)
  }

  /** The session right after "Start Task" (app.py:889-907); the number input keeps the budget in 1..100. */
  function Initial(goal: string, maxStepsInput: int): (s: TaskState)
    requires goal != "" && 1 <= maxStepsInput <= 100
    ensures Valid(s) && StepGuard(s)
    ensures s.goal == goal && s.stepNumber == 1 && s.maxSteps == maxStepsInput && s.status == Running
    ensures s.plannedTotal == None && s.validation == None
    ensures s.history == [] && s.audit == [] && s.postMortems == [] && s.checkpoints == []
  {
    TaskState(goal, 1, maxStepsInput, None, [], [], true, Running, [], None, [])
  }

  /* ---------------- one step ---------------- */

  function Max(a: int, b: int): (m: int)
    ensures m >= a && m >= b && (m == a || m == b)
  {
    if a >= b then a else b
  }

  /** app.py:1031-1037: the rule translator, then the step-to-code call, replace a blank or `pass` code. */
  function CodeFor(d: Decision, w: StepWorld): (code: string)
    ensures !NeedsTranslation(d.code, d.thought) ==> code == d.code
    ensures NeedsTranslation(d.code, d.thought) && Given(Translation(d.thought, w.env, w.rules)) ==>
              code == Translation(d.thought, w.env, w.rules).value
    ensures NeedsTranslation(d.code, d.thought) && !Given(Translation(d.thought, w.env, w.rules)) ==>
              code == (if Given(TranslateStepToCode(w.live, d.thought, w.codeReply))
                       then TranslateStepToCode(w.live, d.thought, w.codeReply).value else d.code)
    ensures code != d.code ==> code != ""
  {
    if !NeedsTranslation(d.code, d.thought) then d.code
    else
      var byRule := Translation(d.thought, w.env, w.rules);
      var translated := if Given(byRule) then byRule else TranslateStepToCode(w.live, d.thought, w.codeReply);
      if Given(translated) then translated.value else d.code
  }

  /**
   * app.py:1040-1045: on step 1 a positive `total_steps` becomes the budget,
   * at least 2, and non-empty checkpoints replace the current ones.
   */
  function Revised(s: TaskState, d: Decision): (r: TaskState)
    ensures s.stepNumber != 1 ==> r == s
    ensures r == s.(maxSteps := r.maxSteps, plannedTotal := r.plannedTotal, checkpoints := r.checkpoints)
    ensures r.maxSteps == s.maxSteps || (s.stepNumber == 1 && r.maxSteps >= 2)
    ensures s.stepNumber == 1 && d.totalSteps.Some? && d.totalSteps.value >= 1 ==>
              r.plannedTotal == d.totalSteps && r.maxSteps == Max(2, d.totalSteps.value)
    ensures s.stepNumber == 1 && !(d.totalSteps.Some? && d.totalSteps.value >= 1) ==>
              r.plannedTotal == s.plannedTotal && r.maxSteps == s.maxSteps
    ensures s.stepNumber == 1 ==> r.checkpoints == if d.checkpoints != [] then d.checkpoints else s.checkpoints
  {
    if s.stepNumber != 1 then s
    else
      var planned := if d.totalSteps.Some? && d.totalSteps.value >= 1
                     then s.(plannedTotal := d.totalSteps, maxSteps := Max(2, d.totalSteps.value))
                     else s;
      if d.checkpoints != [] then planned.(checkpoints := d.checkpoints) else planned
  }

  /** `verify_step_achieved`: None without the live API or a reply, otherwise the decoded verdict. */
  function StepVerification(w: StepWorld): Attempt<Option<Verdict>> {
    if !w.live || w.verifyReply.None? then Ok(None) else DecodeVerdict(w.verifyReply.value, w.rt)
  }

  /** `str(achieved)` of a verdict. */
  function BoolText(b: bool): string {
    if b then "True" else "False"
  }

  /** app.py:1074-1087: the row of a step whose code raised. */
  function ExecFailRow(step: int, d: Decision, code: string, message: string): AuditRow {
    AuditRow(step, Some(d.thought), Some(code), "Step failed (no retry)", Some(message),
             StatusName(d.status), "Fail", None, None)
  }

  /** app.py:1115-1132: the row of a step the verifier says was not achieved. */
  function VerifyFailRow(step: int, d: Decision, code: string, v: Verdict): AuditRow {
    AuditRow(step, Some(d.thought), Some(code), ActionSummary(d.thought), Some("Step verification: " + v.reason),
             StatusName(d.status), "Fail", Some(BoolText(v.achieved)), Some(v.reason))
  }

  /** app.py:1147-1166: the row of a step that went through. */
  function PassRow(step: int, d: Decision, code: string, v: Option<Verdict>): AuditRow {
    AuditRow(step, Some(d.thought), Some(code), ActionSummary(d.thought), None,
             StatusName(d.status), "Pass",
             if v.Some? then Some(BoolText(v.value.achieved)) else None,
             if v.Some? then Some(v.value.reason) else None)
  }

  /** app.py:1207-1210: the exception's text, then the traceback when there is one. */
  function CrashText(message: string, traceback: string): (text: string)
    ensures traceback == "" ==> text == message
    ensures traceback != "" ==>
              StartsWith(text, message + "\n\nTraceback:\n") && text[|message + "\n\nTraceback:\n"|..] == traceback
  {
    var text := if traceback != "" then message + "\n\nTraceback:\n" + traceback else message;
    assert traceback != "" ==> text[..|message + "\n\nTraceback:\n"|] == message + "\n\nTraceback:\n";
    text
  }

  /**
   * app.py:1223-1236: the row of an exception that escaped the step: the
   * fixed thought and action, no code, and the crash text capped at 8192
   * characters.
   */
  function CrashRow(message: string, traceback: string): (r: AuditRow)
    ensures IsFailureRow(r) && r.step == 0
    ensures r.feedback.Some? && |r.feedback.value| <= 8192
    ensures r.feedback == Some(Take(CrashText(message, traceback), 8192))
    ensures r.thought == Some("Task failed before or during first step.") && r.code == None
    ensures r.action == "Task initialization failed" && r.status == "error" && r.outcome == "Fail"
    ensures r.verAchieved == None && r.verReason == None
  {
    AuditRow(0, Some("Task failed before or during first step."), None, "Task initialization failed",
             Some(Take(CrashText(message, traceback), 8192)), "error", "Fail", None, None)
  }

  function Stopped(s: TaskState, status: SessionStatus): TaskState {
    s.(isRunning := false, status := status)
  }

  /** app.py:1204-1240: an exception inside the step's `try`. */
  function Crashed(s: TaskState, message: string, traceback: string): TaskState {
    Stopped(s.(audit := s.audit + [CrashRow(message, traceback)]), Errored)
  }

  /**
   * app.py:1180-1201: the transition on the agent's status, against the
   * budget `budget` read before the step began.
   */
  function Finish(t: TaskState, status: StepStatus, budget: int): (r: TaskState)
    ensures r == t.(stepNumber := r.stepNumber, isRunning := r.isRunning, status := r.status)
  {
    match status
    case Success => Stopped(t.(stepNumber := budget + 1), Succeeded)
    case Lost => Stopped(t.(stepNumber := budget + 1), Stuck)
    case Continue =>
      if t.stepNumber + 1 > budget then Stopped(t.(stepNumber := t.stepNumber + 1), OutOfSteps)
      else t.(stepNumber := t.stepNumber + 1)
  }

  /**
   * After execution of step `step`, begun with the budget `budget`: the
   * verifier's verdict, then the row, the history entry and the transition.
   */
  function AfterExec(step: int, budget: int, r: TaskState, verification: Attempt<Option<Verdict>>,
                     traceback: string, d: Decision, code: string): TaskState {
    match verification
    case Raised(e) => Crashed(r, e, traceback)
    case Ok(v) =>
      if v.Some? && !v.value.achieved then
        Stopped(r.(audit := r.audit + [VerifyFailRow(step, d, code, v.value)]), Errored)
      else
        Finish(r.(audit := r.audit + [PassRow(step, d, code, v)],
                  history := r.history + [HistoryEntry(step, d.thought, code, d.status, "Pass")]),
               d.status, budget)
  }

  /** After the decision: translation, the plan revision, execution of the rewritten copy. */
  function AfterDecision(s: TaskState, w: StepWorld, d: Decision): TaskState {
    var code := CodeFor(d, w);
    var r := Revised(s, d);
    var fault := w.exec(RewriteForExec(code));
    if fault.Some? then Stopped(r.(audit := r.audit + [ExecFailRow(s.stepNumber, d, code, fault.value)]), Errored)
    else AfterExec(s.stepNumber, s.maxSteps, r, StepVerification(w), w.traceback, d, code)
  }

  /** One script run's step block (app.py:994-1245); a state outside the guard is left alone. */
  function Advance(s: TaskState, w: StepWorld): TaskState {
    if !StepGuard(s) then s
    else if !w.captured then Stopped(s, Errored)
    else if w.fault.Some? then Crashed(s, w.fault.value, w.traceback)
    else Decided(s, w, AnalyzeScreenshot(w.live, w.agentReply, |s.history|, w.rt))
  }

  /** The step once `analyze_screenshot` has answered or raised. */
  function Decided(s: TaskState, w: StepWorld, decision: Attempt<Decision>): TaskState {
    match decision
    case Raised(e) => Crashed(s, e, w.traceback)
    case Ok(d) => AfterDecision(s, w, d)
  }

  /** The state after a sequence of script runs. */
  function Run(s: TaskState, ws: seq<StepWorld>): TaskState
    decreases |ws|
  {
    if ws == [] then s else Run(Advance(s, ws[0]), ws[1..])
  }

  /* ---------------- the post-mortem ---------------- */

  /** `validate_goal_achieved`: None without the live API or a reply, otherwise the decoded verdict. */
  function GoalValidation(c: EndWorld): Attempt<Option<Verdict>> {
    if !c.live || c.validateReply.None? then Ok(None) else DecodeVerdict(c.validateReply.value, c.rt)
  }

  /** app.py:1287-1297: the post-mortem row is inserted only when the session has none. */
  function WithPostMortem(s: TaskState, v: Option<Verdict>): TaskState {
    if s.postMortems != [] then s
    else
      var refined := RefinedPrompt(Some(s.goal), s.audit);
      s.(postMortems := [PostMortem(s.goal, refined, "Demo completion",
                                    if v.Some? then Some(BoolText(v.value.achieved)) else None,
                                    if v.Some? then Some(v.value.reason) else None)])
  }

  /**
   * The post-mortem block (app.py:1253-1297) under the guard `Concluded`:
   * the goal is validated once, and only for a successful session whose
   * last screenshot exists; an exception from the validator ends the run
   * with nothing written.
   */
  function Completed(s: TaskState, c: EndWorld): Attempt<TaskState> {
    if !Concluded(s) then Ok(s)
    else if s.status == Succeeded && c.shotExists then
      if s.validation.Some? then Ok(WithPostMortem(s, s.validation.value))
      else match GoalValidation(c)
        case Raised(e) => Raised(e)
        case Ok(v) => Ok(WithPostMortem(s.(validation := Some(v)), v))
    else Ok(WithPostMortem(s, None))
  }

  /* ---------------- the session object ---------------- */

  class Tasker {
    const goal: string
    var stepNumber: int
    var maxSteps: int
    var plannedTotal: Option<int>
    var checkpoints: seq<int>
    var history: seq<HistoryEntry>
    var isRunning: bool
    var status: SessionStatus
    var audit: seq<AuditRow>
    var validation: Option<Option<Verdict>>
    var postMortems: seq<PostMortem>

    function State(): TaskState
      reads this
    {
      TaskState(goal, stepNumber, maxSteps, plannedTotal, checkpoints, history, isRunning, status,
                audit, validation, postMortems)
    }

    /** "Start Task" (app.py:886-907). */
    constructor (goal: string, maxStepsInput: int)
      requires goal != "" && 1 <= maxStepsInput <= 100
      ensures State() == Initial(goal, maxStepsInput) && Valid(State())
    {
      this.goal := goal;
      stepNumber := 1;
      maxSteps := maxStepsInput;
      plannedTotal := None;
      checkpoints := [];
      history := [];
      isRunning := true;
      status := Running;
      audit := [];
      validation := None;
      postMortems := [];
    }

    /** The `except Exception` branch (app.py:1204-1240). */
    method Crash(message: string, traceback: string)
      modifies this
      ensures State() == Crashed(old(State()), message, traceback)
    {
      isRunning := false;
      status := Errored;
      audit := audit + [CrashRow(message, traceback)];
    }

    /** One script run's step block (app.py:981-1245). */
    method AdvanceOneStep(w: StepWorld)
      requires Valid(State())
      modifies this
      ensures State() == Advance(old(State()), w)
      ensures Valid(State())
    {
      if isRunning && stepNumber <= maxSteps {
        if !w.captured {
          isRunning := false;
          status := Errored;
        } else if w.fault.Some? {
          Crash(w.fault.value, w.traceback);
        } else {
          var result := AnalyzeScreenshot(w.live, w.agentReply, |history|, w.rt);
          if result.Raised? {
            Crash(result.error, w.traceback);
          } else {
            Act(w, result.value);
          }
        }
      }
      AdvanceKeepsValid(old(State()), w);
    }

    /** The step once the agent has decided (app.py:1022-1104): translate, revise the plan, execute. */
    method Act(w: StepWorld, d: Decision)
      modifies this
      ensures State() == AfterDecision(old(State()), w, d)
    {
      var budget := maxSteps;
      var step := stepNumber;
      var code := TranslatedCode(w, d);
      Revise(d);
      var fault := w.exec(RewriteForExec(code));
      if fault.Some? {
        audit := audit + [ExecFailRow(step, d, code, fault.value)];
        status := Errored;
        isRunning := false;
        return;
      }
      Record(step, budget, StepVerification(w), w.traceback, d, code);
    }

    /** app.py:1031-1037: the rule translator first, then the step-to-code call. */
    method TranslatedCode(w: StepWorld, d: Decision) returns (code: string)
      ensures code == CodeFor(d, w)
    {
      code := d.code;
      if NeedsTranslation(code, d.thought) {
        var translated := TranslateTaskToCode(d.thought, w.env, w.rules);
        if !Given(translated) {
          translated := TranslateStepToCode(w.live, d.thought, w.codeReply);
        }
        if Given(translated) {
          code := translated.value;
        }
      }
    }

    /** app.py:1040-1045: the first step's plan. */
    method Revise(d: Decision)
      modifies this`maxSteps, this`plannedTotal, this`checkpoints
      ensures State() == Revised(old(State()), d)
    {
      if stepNumber == 1 {
        if d.totalSteps.Some? && d.totalSteps.value >= 1 {
          plannedTotal := d.totalSteps;
          maxSteps := Max(2, d.totalSteps.value);
        }
        if d.checkpoints != [] {
          checkpoints := d.checkpoints;
        }
      }
    }

    /** The step once executed (app.py:1106-1201): verify, log, and move on or stop. */
    method Record(step: int, budget: int, verification: Attempt<Option<Verdict>>, traceback: string,
                  d: Decision, code: string)
      modifies this
      ensures State() == AfterExec(step, budget, old(State()), verification, traceback, d, code)
    {
      if verification.Raised? {
        Crash(verification.error, traceback);
        return;
      }
      var v := verification.value;
      if v.Some? && !v.value.achieved {
        audit := audit + [VerifyFailRow(step, d, code, v.value)];
        status := Errored;
        isRunning := false;
        return;
      }
      audit := audit + [PassRow(step, d, code, v)];
      history := history + [HistoryEntry(step, d.thought, code, d.status, "Pass")];
      match d.status
      case Success =>
        stepNumber := budget + 1;
        isRunning := false;
        status := Succeeded;
      case Lost =>
        stepNumber := budget + 1;
        isRunning := false;
        status := Stuck;
      case Continue =>
        stepNumber := stepNumber + 1;
        if stepNumber > budget {
          isRunning := false;
          status := OutOfSteps;
        }
    }

    /**
     * The post-mortem block, guarded by `Concluded`; `err` is the exception
     * of the goal validator that ends the run.
     */
    method Complete(c: EndWorld) returns (err: Option<string>)
      requires Valid(State())
      modifies this`validation, this`postMortems
      ensures Completed(old(State()), c).Raised? ==>
                State() == old(State()) && err == Some(Completed(old(State()), c).error)
      ensures Completed(old(State()), c).Ok? ==> State() == Completed(old(State()), c).value && err == None
      ensures Valid(State())
    {
      CompletedKeepsValid(State(), c);
      if !Concluded(State()) {
        return None;
      }
      var verdict: Option<Verdict> := None;
      if status == Succeeded && c.shotExists {
        if validation.None? {
          var checked := GoalValidation(c);
          if checked.Raised? {
            return Some(checked.error);
          }
          validation := Some(checked.value);
        }
        verdict := validation.value;
      }
      var refined := RefinedPrompt(Some(goal), audit);
      if postMortems == [] {
        postMortems := [PostMortem(goal, refined, "Demo completion",
                                   if verdict.Some? then Some(BoolText(verdict.value.achieved)) else None,
                                   if verdict.Some? then Some(verdict.value.reason) else None)];
      }
      return None;
    }
  }

  /* ---------------- the invariant is kept ---------------- */

  /** A step that went through leaves one more entry and row, numbered by the step, inside the budget it read. */
  lemma AfterExecKeepsValid(s: TaskState, verification: Attempt<Option<Verdict>>, traceback: string,
                            d: Decision, code: string)
    requires Valid(s) && StepGuard(s)
    ensures Valid(AfterExec(s.stepNumber, s.maxSteps, Revised(s, d), verification, traceback, d, code))
  {
    var r := Revised(s, d);
    match verification
    case Raised(e) =>
    case Ok(v) =>
      if !(v.Some? && !v.value.achieved) {
        var t := r.(audit := r.audit + [PassRow(s.stepNumber, d, code, v)],
                    history := r.history + [HistoryEntry(s.stepNumber, d.thought, code, d.status, "Pass")]);
        assert forall k :: 0 <= k < |t.history| ==> t.history[k].step == k + 1 by {
          forall k | 0 <= k < |t.history| ensures t.history[k].step == k + 1 {
            if k < |s.history| {
              assert t.history[k] == s.history[k];
            }
          }
        }
      }
  }

  /** Every script run keeps the session invariant. */
  lemma AdvanceKeepsValid(s: TaskState, w: StepWorld)
    requires Valid(s)
    ensures Valid(Advance(s, w))
  {
    if StepGuard(s) && w.captured && w.fault.None? {
      DecidedKeepsValid(s, w, AnalyzeScreenshot(w.live, w.agentReply, |s.history|, w.rt));
    }
  }

  lemma DecidedKeepsValid(s: TaskState, w: StepWorld, decision: Attempt<Decision>)
    requires Valid(s) && StepGuard(s)
    ensures Valid(Decided(s, w, decision))
  {
    if decision.Ok? {
      AfterDecisionKeepsValid(s, w, decision.value);
    }
  }

  lemma AfterDecisionKeepsValid(s: TaskState, w: StepWorld, d: Decision)
    requires Valid(s) && StepGuard(s)
    ensures Valid(AfterDecision(s, w, d))
  {
    var code := CodeFor(d, w);
    if w.exec(RewriteForExec(code)).None? {
      AfterExecKeepsValid(s, StepVerification(w), w.traceback, d, code);
    }
  }

  /** The post-mortem block keeps the session invariant. */
  lemma CompletedKeepsValid(s: TaskState, c: EndWorld)
    requires Valid(s)
    ensures Completed(s, c).Ok? ==> Valid(Completed(s, c).value)
  {
  }

  /** Every sequence of script runs from a valid state keeps the invariant. */
  lemma {:induction false} RunKeepsValid(s: TaskState, ws: seq<StepWorld>)
    requires Valid(s)
    ensures Valid(Run(s, ws))
    decreases |ws|
  {
    if ws != [] {
      AdvanceKeepsValid(s, ws[0]);
      RunKeepsValid(Advance(s, ws[0]), ws[1..]);
    }
  }

  /**
   * The completion guard as written needs a running session past its
   * budget, which no sequence of steps from "Start Task" reaches.
   */
  lemma LiteralGuardNeverHolds(goal: string, maxStepsInput: int, ws: seq<StepWorld>)
    requires goal != "" && 1 <= maxStepsInput <= 100
    ensures !CompletionGuard(Run(Initial(goal, maxStepsInput), ws))
  {
    RunKeepsValid(Initial(goal, maxStepsInput), ws);
  }

  /* ---------------- what one step leaves behind ---------------- */

  /**
   * A step that went through: one more history entry, numbered by the
   * step, and the transition on the agent's status, decided against the
   * budget `s` had before the step.
   */
  predicate Progressed(s: TaskState, t: TaskState) {
    && |t.history| == |s.history| + 1 && t.history[..|s.history|] == s.history
    && var e := t.history[|s.history|];
    && e.step == s.stepNumber && e.outcome == "Pass"
    && match e.status
       case Success => t.status == Succeeded && !t.isRunning && t.stepNumber == s.maxSteps + 1
       case Lost => t.status == Stuck && !t.isRunning && t.stepNumber == s.maxSteps + 1
       case Continue =>
         && t.stepNumber == s.stepNumber + 1
         && (t.isRunning <==> s.stepNumber + 1 <= s.maxSteps)
         && (!t.isRunning ==> t.status == OutOfSteps)
  }

  /**
   * A step that got past the capture: exactly one audit row is appended; it
   * is a failure row exactly when the session stops in error, and then the
   * history is untouched; otherwise the step progressed. Only step 1 may
   * change the plan, and a changed budget is at least 2.
   */
  predicate Logged(s: TaskState, t: TaskState) {
    && t.goal == s.goal && t.validation == s.validation && t.postMortems == s.postMortems
    && |t.audit| == |s.audit| + 1 && t.audit[..|s.audit|] == s.audit
    && (IsFailureRow(t.audit[|s.audit|]) <==> t.status == Errored)
    && (t.status == Errored ==> !t.isRunning && t.history == s.history)
    && (t.status != Errored ==> Progressed(s, t))
    && (s.stepNumber != 1 ==> t.maxSteps == s.maxSteps && t.plannedTotal == s.plannedTotal
                              && t.checkpoints == s.checkpoints)
    && (t.maxSteps == s.maxSteps || t.maxSteps >= 2)
  }

  lemma FinishProgressed(s: TaskState, u: TaskState, e: HistoryEntry)
    requires Valid(s) && StepGuard(s)
    requires u.history == s.history + [e] && e.step == s.stepNumber && e.outcome == "Pass"
    requires u.stepNumber == s.stepNumber && u.isRunning && u.status == Running
    ensures Progressed(s, Finish(u, e.status, s.maxSteps))
    ensures Finish(u, e.status, s.maxSteps).status != Errored
  {
    assert u.history[..|s.history|] == s.history;
  }

  lemma PassLogged(s: TaskState, v: Option<Verdict>, traceback: string, d: Decision, code: string)
    requires Valid(s) && StepGuard(s) && !(v.Some? && !v.value.achieved)
    ensures Logged(s, AfterExec(s.stepNumber, s.maxSteps, Revised(s, d), Ok(v), traceback, d, code))
    ensures var t := AfterExec(s.stepNumber, s.maxSteps, Revised(s, d), Ok(v), traceback, d, code);
            && t.status != Errored
            && t.audit == s.audit + [PassRow(s.stepNumber, d, code, v)]
            && t.history == s.history + [HistoryEntry(s.stepNumber, d.thought, code, d.status, "Pass")]
  {
    var r := Revised(s, d);
    var row := PassRow(s.stepNumber, d, code, v);
    var e := HistoryEntry(s.stepNumber, d.thought, code, d.status, "Pass");
    var u := r.(audit := r.audit + [row], history := r.history + [e]);
    FinishProgressed(s, u, e);
    assert u.audit[..|s.audit|] == s.audit;
  }

  lemma AfterExecLogged(s: TaskState, verification: Attempt<Option<Verdict>>, traceback: string,
                        d: Decision, code: string)
    requires Valid(s) && StepGuard(s)
    ensures Logged(s, AfterExec(s.stepNumber, s.maxSteps, Revised(s, d), verification, traceback, d, code))
  {
    var r := Revised(s, d);
    var t := AfterExec(s.stepNumber, s.maxSteps, r, verification, traceback, d, code);
    match verification
    case Raised(e) =>
      assert t.audit[..|s.audit|] == s.audit;
    case Ok(v) =>
      if v.Some? && !v.value.achieved {
        assert t.audit[..|s.audit|] == s.audit;
      } else {
        PassLogged(s, v, traceback, d, code);
      }
  }

  lemma AfterDecisionLogged(s: TaskState, w: StepWorld, d: Decision)
    requires Valid(s) && StepGuard(s)
    ensures Logged(s, AfterDecision(s, w, d))
  {
    var code := CodeFor(d, w);
    var fault := w.exec(RewriteForExec(code));
    if fault.Some? {
      var t := AfterDecision(s, w, d);
      assert t.audit[..|s.audit|] == s.audit;
    } else {
      AfterExecLogged(s, StepVerification(w), w.traceback, d, code);
    }
  }

  /**
   * app.py:1074-1087: when `exec` raises on the rewritten copy, the step
   * appends a "Step failed (no retry)" row carrying the exception's text and
   * the code itself, and stops in error with the history untouched.
   */
  lemma ExecFaultStops(s: TaskState, w: StepWorld, d: Decision)
    requires w.exec(RewriteForExec(CodeFor(d, w))).Some?
    ensures var t := AfterDecision(s, w, d);
            && t.status == Errored && !t.isRunning && t.history == s.history
            && |t.audit| == |s.audit| + 1 && t.audit[..|s.audit|] == s.audit
            && t.audit[|s.audit|].action == "Step failed (no retry)"
            && t.audit[|s.audit|].feedback == w.exec(RewriteForExec(CodeFor(d, w)))
            && t.audit[|s.audit|].code == Some(CodeFor(d, w))
            && t.audit[|s.audit|].outcome == "Fail"
  {
    assert AfterDecision(s, w, d).audit[..|s.audit|] == s.audit;
  }

  /** app.py:1204-1240: a step verifier that raises after a clean `exec` ends the step in the crash row. */
  lemma VerificationRaisedCrashes(s: TaskState, w: StepWorld, d: Decision)
    requires w.exec(RewriteForExec(CodeFor(d, w))).None? && StepVerification(w).Raised?
    ensures AfterDecision(s, w, d).status == Errored && !AfterDecision(s, w, d).isRunning
    ensures AfterDecision(s, w, d).audit == s.audit + [CrashRow(StepVerification(w).error, w.traceback)]
  {
  }

  /**
   * app.py:1110-1138: a verdict of not achieved appends a Fail row whose
   * feedback is "Step verification: " and the verifier's reason, and stops
   * in error with the history untouched.
   */
  lemma StepVerificationFails(s: TaskState, w: StepWorld, d: Decision, v: Verdict)
    requires w.exec(RewriteForExec(CodeFor(d, w))).None? && StepVerification(w) == Ok(Some(v)) && !v.achieved
    ensures var t := AfterDecision(s, w, d);
            && t.status == Errored && !t.isRunning && t.history == s.history
            && |t.audit| == |s.audit| + 1 && t.audit[..|s.audit|] == s.audit
            && t.audit[|s.audit|].feedback == Some("Step verification: " + v.reason)
            && t.audit[|s.audit|].code == Some(CodeFor(d, w))
            && t.audit[|s.audit|].outcome == "Fail"
  {
    assert AfterDecision(s, w, d).audit[..|s.audit|] == s.audit;
  }

  /**
   * app.py:1145-1201: after a clean `exec` and a verification that did not
   * fail, the step appends its Pass row and its history entry, both with the
   * code itself, and the session is not in error.
   */
  lemma StepPasses(s: TaskState, w: StepWorld, d: Decision, v: Option<Verdict>)
    requires Valid(s) && StepGuard(s)
    requires w.exec(RewriteForExec(CodeFor(d, w))).None? && StepVerification(w) == Ok(v)
    requires !(v.Some? && !v.value.achieved)
    ensures var t := AfterDecision(s, w, d);
            && t.status != Errored
            && t.audit == s.audit + [PassRow(s.stepNumber, d, CodeFor(d, w), v)]
            && t.history == s.history + [HistoryEntry(s.stepNumber, d.thought, CodeFor(d, w), d.status, "Pass")]
  {
    PassLogged(s, v, w.traceback, d, CodeFor(d, w));
  }

  /** `exec` sees only the rewritten copy of the step's code: two worlds that agree on it give the same step. */
  lemma ExecSeesRewrittenCode(s: TaskState, w: StepWorld, w': StepWorld, d: Decision)
    requires w' == w.(exec := w'.exec)
    requires w'.exec(RewriteForExec(CodeFor(d, w))) == w.exec(RewriteForExec(CodeFor(d, w)))
    ensures AfterDecision(s, w', d) == AfterDecision(s, w, d)
  {
  }

  /**
   * Every step logs: a failed capture stops the session in error without a
   * row; any other step appends one row, and the session concludes (SUCCESS,
   * LOST or the budget) exactly when the step went through and stopped.
   */
  lemma StepOutcome(s: TaskState, w: StepWorld)
    requires Valid(s) && StepGuard(s)
    ensures !w.captured ==> Advance(s, w) == Stopped(s, Errored)
    ensures w.captured ==> Logged(s, Advance(s, w))
    ensures Concluded(Advance(s, w)) <==> |Advance(s, w).history| == |s.history| + 1 && !Advance(s, w).isRunning
  {
    var t := Advance(s, w);
    if w.captured {
      if w.fault.Some? {
        CrashLogged(s, w.fault.value, w.traceback);
      } else {
        DecidedLogged(s, w, AnalyzeScreenshot(w.live, w.agentReply, |s.history|, w.rt));
      }
      LoggedConcluded(s, t);
    }
  }

  /** After a logged step the session concludes exactly when the step went through and stopped. */
  lemma LoggedConcluded(s: TaskState, t: TaskState)
    requires Logged(s, t)
    ensures Concluded(t) <==> |t.history| == |s.history| + 1 && !t.isRunning
  {
  }

  lemma CrashLogged(s: TaskState, message: string, traceback: string)
    requires Valid(s) && StepGuard(s)
    ensures Logged(s, Crashed(s, message, traceback))
  {
    assert Crashed(s, message, traceback).audit[..|s.audit|] == s.audit;
  }

  lemma DecidedLogged(s: TaskState, w: StepWorld, decision: Attempt<Decision>)
    requires Valid(s) && StepGuard(s)
    ensures Logged(s, Decided(s, w, decision))
  {
    match decision
    case Raised(e) => CrashLogged(s, e, w.traceback);
    case Ok(d) => AfterDecisionLogged(s, w, d);
  }

  /**
   * Only a step that stops in error teaches the refined prompt anything: its
   * row's note is appended; a step that goes through leaves the notes alone.
   */
  lemma StepNotes(s: TaskState, w: StepWorld)
    requires Valid(s) && StepGuard(s) && w.captured
    ensures Advance(s, w).status != Errored ==> Notes(Advance(s, w).audit) == Notes(s.audit)
    ensures Advance(s, w).status == Errored ==>
              |Advance(s, w).audit| == |s.audit| + 1 &&
              var row := Advance(s, w).audit[|s.audit|];
              Notes(Advance(s, w).audit) == if FailureRows(s.audit) == [] then NoteLine(row)
                                           else Notes(s.audit) + "\n" + NoteLine(row)
  {
    StepOutcome(s, w);
    LoggedNotes(s, Advance(s, w));
  }

  lemma LoggedNotes(s: TaskState, t: TaskState)
    requires Logged(s, t)
    ensures t.status != Errored ==> Notes(t.audit) == Notes(s.audit)
    ensures t.status == Errored ==>
              var row := t.audit[|s.audit|];
              Notes(t.audit) == if FailureRows(s.audit) == [] then NoteLine(row) else Notes(s.audit) + "\n" + NoteLine(row)
  {
    var row := t.audit[|s.audit|];
    assert t.audit == s.audit + [row];
    if IsFailureRow(row) {
      FlaggedRowNoted(s.audit, row);
    } else {
      UnflaggedRowIgnored(Some(s.goal), s.audit, row);
    }
  }

  /* ---------------- the post-mortem is written once ---------------- */

  /**
   * The block changes nothing but the cache and the post-mortems; a session
   * that has its post-mortem keeps it; a concluded session without one gets
   * exactly one, holding its goal and the refined prompt of its audit log.
   */
  lemma PostMortemOnce(s: TaskState, c: EndWorld)
    requires Valid(s)
    ensures Completed(s, c).Ok? ==>
              var t := Completed(s, c).value;
              && t == s.(validation := t.validation, postMortems := t.postMortems)
              && (!Concluded(s) ==> t == s)
              && (s.postMortems != [] ==> t.postMortems == s.postMortems)
              && (Concluded(s) && s.postMortems == [] ==>
                    && |t.postMortems| == 1
                    && t.postMortems[0].goal == s.goal
                    && t.postMortems[0].prompt == RefinedPrompt(Some(s.goal), s.audit)
                    && t.postMortems[0].summary == "Demo completion"
                    && (t.postMortems[0].valAchieved.Some? ==> s.status == Succeeded && c.shotExists))
  {
  }

  /**
   * The goal is validated at most once: a cached result is reused, and a new
   * one is computed only for a successful session whose last screenshot
   * exists; an exception from the validator is the only way the block fails.
   */
  lemma ValidationCachedOnce(s: TaskState, c: EndWorld)
    requires Valid(s)
    ensures s.validation.Some? ==> Completed(s, c).Ok? && Completed(s, c).value.validation == s.validation
    ensures Completed(s, c).Raised? <==>
              Concluded(s) && s.status == Succeeded && c.shotExists && s.validation.None? && GoalValidation(c).Raised?
    ensures Completed(s, c).Ok? && Completed(s, c).value.validation != s.validation ==>
              && Concluded(s) && s.status == Succeeded && c.shotExists && s.validation.None?
              && Completed(s, c).value.validation == Some(GoalValidation(c).value)
  {
  }

  /** Running the block again, whatever it then receives, writes no second post-mortem. */
  lemma RerunWritesNothing(s: TaskState, c: EndWorld, again: EndWorld)
    requires Valid(s) && Concluded(s) && Completed(s, c).Ok?
    ensures Completed(Completed(s, c).value, again).Ok? ==>
              Completed(Completed(s, c).value, again).value.postMortems == Completed(s, c).value.postMortems
  {
    PostMortemOnce(s, c);
  }

  /* ---------------- the demo session ---------------- */

  /** A script run in stub mode where every call succeeds and the verifier is unavailable. */
  function StubWorld(rt: Runtime): StepWorld {
    StepWorld(true, None, false, None, "", [], None, (code: string) => None, None, "", rt)
  }

  /** Code ending in `)` is neither blank nor `pass`, so it is never translated. */
  lemma NotPassCode(code: string)
    requires code != [] && code[|code| - 1] == ')'
    ensures forall thought :: !NeedsTranslation(code, thought)
  {
    StripKeepsLast(code);
    assert "pass"[3] == 's';
  }

  /** In stub mode a step that the stub's code does not need translating goes through with no verdict. */
  lemma StubStep(s: TaskState, rt: Runtime)
    requires StepGuard(s) && |s.history| <= 1
    ensures Advance(s, StubWorld(rt)) == AfterExec(s.stepNumber, s.maxSteps, Revised(s, Stub(|s.history|)), Ok(None), "",
                                                   Stub(|s.history|), Stub(|s.history|).code)
  {
    var w := StubWorld(rt);
    var d := Stub(|s.history|);
    assert AnalyzeScreenshot(false, None, |s.history|, rt) == Ok(d);
    NotPassCode(d.code);
    assert CodeFor(d, w) == d.code;
    assert w.exec(RewriteForExec(d.code)) == None;
  }

  /** The state after the stub's first step. */
  function AfterStubStart(goal: string, maxStepsInput: int): TaskState {
    TaskState(goal, 2, 3, Some(3), [2], [HistoryEntry(1, Stub(0).thought, Stub(0).code, Continue, "Pass")],
              maxStepsInput >= 2, if maxStepsInput >= 2 then Running else OutOfSteps,
              [PassRow(1, Stub(0), Stub(0).code, None)], None, [])
  }

  /**
   * The stub's first step plans three steps and checkpoint 2; the budget
   * becomes 3, yet the step moves on or stops against the budget it read
   * before: a session started with a budget of 1 stops as `lost` at step 2.
   */
  lemma StubFirstStep(goal: string, maxStepsInput: int, rt: Runtime)
    requires goal != "" && 1 <= maxStepsInput <= 100
    ensures Advance(Initial(goal, maxStepsInput), StubWorld(rt)) == AfterStubStart(goal, maxStepsInput)
    ensures var t := AfterStubStart(goal, maxStepsInput);
            && t.maxSteps == 3 && t.plannedTotal == Some(3) && t.checkpoints == [2]
            && t.stepNumber == 2 && |t.history| == 1 && t.history[0].status == Continue
            && (t.isRunning <==> maxStepsInput >= 2)
            && (maxStepsInput == 1 ==> t.status == OutOfSteps)
  {
    StubStep(Initial(goal, maxStepsInput), rt);
    StubFirstRecord(goal, maxStepsInput);
  }

  lemma StubFirstRecord(goal: string, maxStepsInput: int)
    requires goal != "" && 1 <= maxStepsInput <= 100
    ensures AfterExec(1, maxStepsInput, Revised(Initial(goal, maxStepsInput), Stub(0)), Ok(None), "", Stub(0), Stub(0).code)
            == AfterStubStart(goal, maxStepsInput)
  {
  }

  /** The state after the stub's second step, which reports SUCCESS. */
  function AfterStubSuccess(goal: string): TaskState {
    TaskState(goal, 4, 3, Some(3), [2],
              [HistoryEntry(1, Stub(0).thought, Stub(0).code, Continue, "Pass"),
               HistoryEntry(2, Stub(1).thought, Stub(1).code, Success, "Pass")],
              false, Succeeded,
              [PassRow(1, Stub(0), Stub(0).code, None), PassRow(2, Stub(1), Stub(1).code, None)], None, [])
  }

  lemma StubSecondStep(goal: string, rt: Runtime)
    requires goal != ""
    ensures Advance(AfterStubStart(goal, 10), StubWorld(rt)) == AfterStubSuccess(goal)
  {
    StubStep(AfterStubStart(goal, 10), rt);
    StubSecondRecord(goal);
  }

  lemma StubSecondRecord(goal: string)
    requires goal != ""
    ensures AfterExec(2, 3, Revised(AfterStubStart(goal, 10), Stub(1)), Ok(None), "", Stub(1), Stub(1).code)
            == AfterStubSuccess(goal)
  {
  }

  /**
   * The demo session succeeds after two steps with clean notes. The guard
   * as written does not hold for it, so its post-mortem is never written;
   * under `Concluded` the block writes it once.
   */
  lemma StubSessionSucceeds(goal: string, rt: Runtime)
    requires goal != ""
    ensures var t := Run(Initial(goal, 10), [StubWorld(rt), StubWorld(rt)]);
            && t.status == Succeeded && t.stepNumber == 4 && |t.history| == 2 && Notes(t.audit) == NoErrors
            && !CompletionGuard(t) && Concluded(t)
            && Completed(t, EndWorld(true, false, None, rt))
               == Ok(t.(validation := Some(None),
                        postMortems := [PostMortem(goal, RefinedPrompt(Some(goal), t.audit), "Demo completion", None, None)]))
  {
    var w := StubWorld(rt);
    var s0 := Initial(goal, 10);
    StubFirstStep(goal, 10, rt);
    StubSecondStep(goal, rt);
    var t := AfterStubSuccess(goal);
    assert [w, w][1..] == [w];
    assert Run(s0, [w, w]) == Run(AfterStubStart(goal, 10), [w]);
    assert Run(AfterStubStart(goal, 10), [w]) == Run(t, []);
    NoErrorsIff(t.audit);
  }
}
