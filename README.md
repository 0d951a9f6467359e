# Universal Tasker, modelled in Dafny

Universal Tasker is a Streamlit agent that operates a desktop one step at a
time. On each step it takes a screenshot, asks a reasoning model
for a decision (a thought, a line of `pyautogui` code and a status), runs
that code with `exec`, asks the model again whether the step was achieved,
logs an audit row, and then moves on or stops. When the model's code is
blank, a rule-based translator can supply it instead. When a session has
finished, its audit rows are turned into an "optimized prompt" and stored
once as a post-mortem. An offline script turns logged (thought, code) pairs
into new translator rules and merges them into the rules file. Prompt
templates are filled by `format_prompt`.

The project models these parts:

| file | module | what it models |
|---|---|---|
| `base.dfy` | `Base` | `Option` and `Attempt` (a value, or an exception that escaped) |
| `text.dfy` | `Text` | the Python string operations the code relies on: `strip`, `lower`/`upper`, `in`, `replace`, slicing, `join` |
| `json.dfy` | `Json` | JSON values, Python truthiness and `or`, `int()` of a JSON number; `json.loads` is a parameter (`Runtime.loads`) |
| `patterns.dfy` | `ReplyPatterns` | the two regular expressions that find a JSON object in a model reply (fenced block; brace span with one nesting level), written out with Python's leftmost-match semantics |
| `decision.dfy` | `Decisions` | `_call_minimax_api`'s parsing and normalisation of the agent reply, the deterministic stub, `analyze_screenshot` |
| `verdict.dfy` | `Verdicts` | the result parsing of `validate_goal_achieved` and `verify_step_achieved` |
| `step_code.dfy` | `StepCode` | fence stripping in `translate_step_to_code`, the test for "needs translation", the rewritten copy of the code that is executed, the action text of audit rows |
| `translator.dfy` | `Translator` | `task_translator.py`: `_is_macos`, `_modifier_key` and `translate_task_to_code` (its file rules passed in), including the two type-and-enter regexes |
| `refine.dfy` | `Refinement` | `generate_refined_prompt`: the failure rows of the session and the notes built from them |
| `session.dfy` | `Session` | the per-step loop of `main` as a class `Tasker`, with specification functions, the session invariant and the post-mortem block |
| `rule_export.dfy` | `RuleExport` | `scripts/analyze_audit_log.py`: the query filter, building one rule per distinct thought, and the merge that de-duplicates by sorted pattern tuple |
| `prompts.dfy` | `Prompts` | `prompts/__init__.py`'s `format_prompt`: placeholder defaults, then Python's `str.format` on keyword arguments |

Everything outside the process enters as a parameter:

- the screenshot,
- every model reply, as its text content, or None when the call gave up,
- the result of `exec`,
- the traceback text,
- the environment string,
- the rules file,
- `json.loads` and Python's `str()` of non-string values.

The session step (`Session.Tasker.AdvanceOneStep`) receives these in a
`StepWorld` value. The post-mortem block (`Session.Tasker.Complete`) receives
them in an `EndWorld` value.

Where a comment in the source and its code disagree, the model follows the
code. The comment at task_translator.py:81 expects "type 3+3 and press
enter" to type `3+3`. The first pattern's greedy `([^'"]+)` in fact takes the
whole rest of the text, so the code types `3+3 and press enter`.
`Translator.TypeThreePlusThree` proves that the translation gives this.

## Model

| member | source | states |
|---|---|---|
| Text.Strip | app.py:318 | `s.strip()`: the result is no longer than `s` and neither starts nor ends with whitespace |
| Text.StripEmptyIff | task_translator.py:52-53 | a text strips to "" exactly when every character is whitespace, which is what makes a thought blank |
| Text.Take | app.py:1233 | `s[:n]` is a prefix of `s`: `s` itself when `s` has at most `n` characters, otherwise its first `n` |
| Json.Or | app.py:332-334 | Python's `a or b`: `a` when `a` is truthy, otherwise `b` |
| Json.Trunc | app.py:346 | `int()` of a finite float truncates toward zero, for negative values too |
| ReplyPatterns.FencedObject | app.py:309 | a match of the fence pattern's group 1 is a braced text that occurs in the reply |
| ReplyPatterns.BraceSpan | app.py:320 | a match of the brace-span pattern is a braced text that occurs in the reply |
| ReplyPatterns.FenceSearchSkips | app.py:309 | the leftmost-match search cannot start a fence where there is no backtick |
| ReplyPatterns.LazyCloseAtEnd | app.py:309 | the lazy `[\s\S]*?` group ends at the first `}` that a closing fence follows |
| ReplyPatterns.FenceAtLayout | app.py:309 | a ```` ```json ```` fence, a newline, a backtick-free object, a newline and a closing fence yield that object |
| ReplyPatterns.FencedBlockFound | app.py:309-314 | a reply holding such a fenced block, with no backtick before it, yields exactly that object |
| Decisions.ExtractReply | app.py:308-326 | the three-stage extraction: a truthy parse of the fenced block wins; otherwise the whole stripped reply when it parses; otherwise the brace span when it parses, else the fenced result |
| Decisions.StatusFromText | app.py:335-336 | a status other than CONTINUE comes from exactly its own name; any unknown text is CONTINUE |
| Decisions.StatusOf | app.py:334-336 | a falsy status is CONTINUE and a truthy non-string one raises; for a non-empty text, SUCCESS exactly when it strips and upper-cases to "SUCCESS", LOST likewise, and CONTINUE otherwise |
| Decisions.TotalStepsOf | app.py:340-343 | `int(total_steps or 0) or None`: an integer passes through unless it is 0, including a negative one; only OverflowError escapes |
| Decisions.Numbers | app.py:346 | the `isinstance(x, (int, float))` filter: a value is in the result exactly when it is a number of the input |
| Decisions.NumbersAppend | app.py:346 | the filter works element by element: filtering a concatenation concatenates the filtered parts, so the order is kept |
| Decisions.NumbersOfNumbers | app.py:346 | a list of numbers only comes through the filter unchanged |
| Decisions.Converts | app.py:346 | each kept number converts with `int()`, element for element |
| Decisions.ConvertsRaiseIff | app.py:346 | converting raises exactly when some number is an infinite or NaN float |
| Decisions.NumbersKeepNonFinite | app.py:346 | the number filter keeps every infinite or NaN float |
| Decisions.CheckpointsRaiseIff | app.py:344-348 | the checkpoints comprehension raises exactly when an element is an infinite or NaN float |
| Decisions.PlanOf | app.py:339-348 | the first-step plan is `total_steps` coerced, plus the checkpoints; a non-list gives []; it raises exactly when one of the two raises |
| Decisions.Normalise | app.py:332-348 | `thought` falls back to `reasoning`, then to "No thought."; `code` falls back to "pass"; the status is coerced; plan fields are present exactly on the first step; the error cases are stated both ways |
| Decisions.ParseMain | app.py:308-349 | no reply object, or an empty one, gives None; otherwise the result is the normalised object, or its exception |
| Decisions.Stub | app.py:580-601 | keyed on `len(history)`: step 1 is CONTINUE with 3 planned steps and checkpoint 2; later steps are SUCCESS; from step 3 the code is "pass" |
| Decisions.DecisionFrom | app.py:565-576 | a thought or code that is not text raises here (for a non-empty list code as at app.py:1031; see Left out for the thoughts the source lets through); otherwise the fields are kept, and the plan is read only on the first step |
| Decisions.AnalyzeScreenshot | app.py:561-601 | the stub answers without a live reply or when the reply does not parse; a decision never has an empty thought or code; no plan after the first step |
| Decisions.StatusNameRoundTrip | app.py:334-336 | every status's own name reads back as that status |
| Decisions.CheckpointsOfInts | app.py:344-346 | a list of ints converts to itself |
| Decisions.PlanEncoded | app.py:339-348 | the encoded plan of a decision reads back as that plan |
| Decisions.NormaliseEncoded | app.py:332-348 | normalising a decision's encoding keeps every field |
| Decisions.DecisionRoundTrip | app.py:561-576 | a live reply whose extracted object encodes a decision gives back that decision |
| Verdicts.PatternCandidate | app.py:410-417 | the fence pattern is tried first; the brace pattern is tried only when the fence pattern gives nothing |
| Verdicts.VerdictValue | app.py:410-422 | a truthy pattern result wins; otherwise the whole stripped reply is parsed |
| Verdicts.ReasonOf | app.py:424 | the reason is `str(reason or "")` stripped, or "No reason given." when that is empty; it is never blank |
| Verdicts.DecodeVerdict | app.py:484-500 | nothing parsed gives None; a parsed value that is not an object raises; otherwise `achieved` and `reason` are coerced from its fields |
| Verdicts.AchievedValues | app.py:423 | exactly `True`, `1`, `1.0`, "true" and "yes" count as achieved |
| Verdicts.VerdictRoundTrip | app.py:409-425 | a reply whose object encodes a verdict with a canonical reason reads back as that verdict |
| Verdicts.ReasonKept | app.py:424 | a reason that is already stripped and non-blank is kept as it is |
| Verdicts.FencedVerdictRead | app.py:410-416 | a fenced, backtick-free object that parses truthy is the value the verifier reads |
| StepCode.OpeningFenceEnd | app.py:545 | `^```\w*\n?` ends after the fence and its tag |
| StepCode.DropClosingFence | app.py:546 | `\n?```\s*$` cuts the text at its leftmost match, and at no earlier position |
| StepCode.StripCodeFence | app.py:543-547 | the extracted code is None or a non-empty text with no whitespace at either end |
| StepCode.UnfencedReplyStripped | app.py:543-547 | a reply that does not open with a fence is only stripped |
| StepCode.TranslateStepToCode | app.py:508-547 | None in stub mode, for a blank step, or when the call failed; otherwise the unfenced code |
| StepCode.FencedCodeRoundTrip | app.py:544-547 | a backtick-free block fenced with a word-character tag gives back exactly its code |
| StepCode.DropClosingFenceFirst | app.py:546 | the leftmost closing fence decides the cut |
| StepCode.RewriteGuardRedundant | app.py:1048 | the membership test before the first replacement changes nothing |
| StepCode.RewriteWithoutPyautogui | app.py:1048-1050 | code that never mentions `pyautogui.` is executed exactly as written |
| StepCode.ActionSummary | app.py:1146 | a thought of at most 120 characters is kept; a longer one is cut to 120 characters plus "…"; an empty one becomes "—" |
| Translator.ModifierKey | task_translator.py:23-28 | "command" exactly on macOS (an environment mentioning "macos" or "darwin"), "win" otherwise |
| Translator.RulePatterns | task_translator.py:62-66 | `patterns` is read when present, else `pattern`; a string becomes a one-element list, a list is taken as it is, and null or neither key gives no patterns, which skips the rule |
| Translator.PatternsKeyWins | task_translator.py:62 | a `patterns` key, even a null one, hides whatever `pattern` holds |
| Translator.ChosenCode | task_translator.py:69 | `code_macos` on macOS when it is given, otherwise `code` |
| Translator.RuleCode | task_translator.py:60-72 | a rule yields code exactly when it has code, one of its patterns matches, and the chosen code is given; the result is that code with `{modifier}` replaced, stripped |
| Translator.TypeAt | task_translator.py:82 | a type-and-enter match starts at `type`, and its payload is a non-empty, quote-free text of the thought |
| Translator.TypeSearch | task_translator.py:82 | the leftmost match's payload is a non-empty, quote-free text of the thought |
| Translator.ArithAt | task_translator.py:86 | the arithmetic match starts at `type` and its payload occurs in the thought |
| Translator.ArithSearch | task_translator.py:86 | the leftmost arithmetic payload occurs in the thought |
| Translator.BuiltinCode | task_translator.py:75-94 | the calculator rule comes first, then type-and-enter with a payload, then hello world typed; None exactly when none of the three built-ins applies |
| Translator.Translation | task_translator.py:52-53 | a blank thought translates to None |
| Translator.TranslateTaskToCode | task_translator.py:47-94 | the nested scan over rules and patterns, with its early return and `break`, computes `Translation` |
| Translator.FileRulesSkip | task_translator.py:59-66 | rules that yield nothing are passed over |
| Translator.FirstRuleWins | task_translator.py:59-72 | the first rule that yields code decides the translation, before any built-in |
| Translator.NoRuleMatches | task_translator.py:58-75 | when no rule yields code, the built-ins answer |
| Translator.FileRuleFound | task_translator.py:59-72 | conversely, a translation from the file rules is the code of the first rule that yields any |
| Translator.EmptyPatternMatches | task_translator.py:68 | an empty or null pattern matches every text |
| Translator.CatchAllRule | task_translator.py:67-71 | a rule whose only pattern is empty catches every non-blank thought |
| Translator.MacOnlyRuleSilentElsewhere | task_translator.py:69-72 | a rule with only macOS code yields nothing off macOS |
| Translator.ArithAtImpliesTypeAt | task_translator.py:82-86 | wherever the arithmetic pattern matches, the type pattern matches too |
| Translator.ArithSearchImpliesType | task_translator.py:82-89 | the second regex is never consulted: whenever it matches, the first one matched already |
| Translator.TypePayloadFirstPattern | task_translator.py:82-85 | the payload is the first pattern's group, stripped |
| Translator.SkipNonQuoteOver | task_translator.py:82 | the greedy non-quote run ends at the first quote |
| Translator.UnquotedPayloadRunsToEnd | task_translator.py:82 | after `type` and a space, an unquoted payload runs to the end of the text, keywords included |
| Translator.QuotedPayloadStops | task_translator.py:82 | a quoted payload stops at its closing quote |
| Translator.TypeAndEnterTypesEverything | task_translator.py:80-85 | with no file rules, "type " and an unquoted payload that mentions "enter" types the whole payload |
| Translator.TypeAndEnterText | task_translator.py:75-80 | such a text has no "calculator" and does contain "type" and "enter", so the type-and-enter built-in applies |
| Translator.CanonicalLowerText | task_translator.py:54 | a stripped, lower-case text is the text the translator matches against |
| Translator.NoRulesTranslation | task_translator.py:52-75 | with no file rules, the built-ins decide |
| Translator.TypeEnterBuiltin | task_translator.py:80-85 | the type-and-enter built-in writes the stripped payload and presses enter |
| Translator.TypeThreePlusThree | task_translator.py:81-85 | "type 3+3 and press enter" types "3+3 and press enter" |
| Refinement.FailureRows | app.py:619-623 | the query returns exactly the session's rows whose feedback contains "Error" or whose outcome is Fail, in log order |
| Refinement.NoteLine | app.py:629 | each note is "- Avoided: ", the row's action, " because " and its feedback, with "None" for a missing feedback |
| Refinement.NoteLines | app.py:628-630 | one note per returned row, in order |
| Refinement.RefinedPrompt | app.py:613-637 | the prompt is the header naming the goal, then the notes, then "Original Goal: " and the goal; a missing session reads as "Unknown" |
| Refinement.FlaggedNoteInPrompt | app.py:619-637 | the note of every flagged row of the session occurs in the refined prompt |
| Refinement.NoErrorsAfterHeader | app.py:625-634 | "No errors encountered." follows the header exactly when no row of the session is flagged |
| Text.JoinContainsPart | app.py:628-630 | every line occurs in their join |
| Refinement.NoErrorsIff | app.py:625-630 | "No errors encountered." appears exactly when no row is flagged |
| Refinement.JoinStartsWith | app.py:628-630 | joining notes keeps the first note's prefix |
| Refinement.UnflaggedRowIgnored | app.py:619-623 | a row that neither failed nor mentions "Error" changes neither the returned rows nor the prompt |
| Refinement.FlaggedRowNoted | app.py:619-630 | a flagged row is returned last, and its note becomes the last line |
| Session.Initial | app.py:886-907 | "Start Task" gives a running session for the goal at step 1, with the chosen budget, no planned total, no cached validation and an empty history, audit log, checkpoints and post-mortems, satisfying the invariant |
| Session.CodeFor | app.py:1031-1037 | code that does not need translating is kept; otherwise a rule translation replaces it, failing that the step-to-code translation, failing both the code is kept; the code is only ever replaced by a non-empty text |
| Session.Revised | app.py:1040-1045 | the plan changes on step 1 only, and only the budget, the planned total and the checkpoints; there a positive `total_steps` becomes the planned total and sets the budget to the larger of 2 and it, otherwise both stay; non-empty checkpoints replace the current ones, empty ones leave them |
| Session.CrashText | app.py:1207-1210 | the crash text is the exception's text, followed by "\n\nTraceback:\n" and the traceback when there is one |
| Session.CrashRow | app.py:1223-1236 | the row of an escaped exception has step 0, the fixed thought and action, no code, status "error" and outcome Fail, and its feedback is the crash text cut to its first 8192 characters; it is a failure row |
| Session.Finish | app.py:1180-1201 | the status transition changes only the step number, `is_running` and the session status |
| Session.Tasker.constructor | app.py:886-907 | "Start Task": the object's state is `Initial`, which is valid |
| Session.Tasker.Crash | app.py:1204-1240 | the escaped-exception branch appends the crash row and stops the session in error |
| Session.Tasker.AdvanceOneStep | app.py:994-1245 | one script run's step block: the new state is `Advance` of the old one, and the invariant is kept |
| Session.Tasker.Act | app.py:1022-1094 | after the decision: translate, revise the plan, and execute; the state is `AfterDecision` |
| Session.Tasker.TranslatedCode | app.py:1031-1037 | the code after translation is `CodeFor` |
| Session.Tasker.Revise | app.py:1040-1045 | the first step's plan revision, which touches only the plan fields |
| Session.Tasker.Record | app.py:1102-1201 | verify, log, append to the history, and move on or stop, as `AfterExec` |
| Session.Tasker.Complete | app.py:1253-1297 | the post-mortem block: on an exception from the validator nothing changes and the error is returned; otherwise the state is `Completed`, and the invariant is kept |
| Session.AfterExecKeepsValid | app.py:1145-1201 | a step that went through keeps the invariant |
| Session.AdvanceKeepsValid | app.py:994-1245 | every script run keeps the invariant; in particular a running session never passes its budget |
| Session.DecidedKeepsValid | app.py:1018-1240 | the step keeps the invariant once `analyze_screenshot` has answered or raised |
| Session.AfterDecisionKeepsValid | app.py:1022-1201 | the step keeps the invariant after the decision |
| Session.CompletedKeepsValid | app.py:1253-1297 | the post-mortem block keeps the invariant |
| Session.RunKeepsValid | app.py:981-1245 | every sequence of script runs from a valid state keeps the invariant |
| Session.LiteralGuardNeverHolds | app.py:1248-1251 | no sequence of steps from "Start Task" reaches a state where the completion guard as written holds |
| Session.FinishProgressed | app.py:1180-1201 | SUCCESS and LOST set the step to the old budget plus one; CONTINUE advances the step and runs out of budget exactly past the old budget |
| Session.PassLogged | app.py:1145-1201 | a step whose verification did not fail logs its Pass row and one history entry for its own step number, with the same code, and the session is not in error |
| Session.AfterExecLogged | app.py:1102-1201 | after execution exactly one row is appended; it is a failure row exactly when the session stops in error |
| Session.AfterDecisionLogged | app.py:1022-1201 | every step past the decision is logged: one row, a failure row exactly when it stops in error |
| Session.ExecFaultStops | app.py:1074-1087 | an exec fault appends a "Step failed (no retry)" Fail row carrying the exception's text and the code itself rather than its rewritten copy, and stops in error with the history untouched |
| Session.ExecSeesRewrittenCode | app.py:1047-1057 | `exec` is given only the rewritten copy: worlds whose `exec` agrees on it give the same step |
| Session.VerificationRaisedCrashes | app.py:1101-1240 | a step verifier that raises after a clean `exec` ends the step in error with the crash row |
| Session.StepVerificationFails | app.py:1110-1138 | a verdict of not achieved appends a Fail row with the feedback "Step verification: " and the reason, and stops in error with the history untouched |
| Session.StepPasses | app.py:1145-1201 | a clean `exec` and a verification that did not fail append the Pass row and the history entry, both with the code the step chose, and the session is not in error |
| Session.CrashLogged | app.py:1204-1240 | an escaped exception appends exactly one failure row, leaves the history alone and stops in error |
| Session.DecidedLogged | app.py:1018-1240 | every step after a successful capture appends exactly one row |
| Session.StepOutcome | app.py:1002-1201 | a failed capture stops in error with no row; any other step appends one row; the session concludes exactly when the step went through and stopped |
| Session.LoggedConcluded | app.py:1180-1201 | after a logged step the session concludes exactly when a history entry was added and the session stopped |
| Session.StepNotes | app.py:1064-1240 | only a step that stops in error changes the refined prompt's notes, by appending its row's note as the last line |
| Session.LoggedNotes | app.py:619-630 | the same for any logged transition |
| Session.PostMortemOnce | app.py:1282-1297 | the block changes only the cache and the post-mortems; an existing post-mortem is kept; a concluded session without one gets exactly one, with the goal, the refined prompt and "Demo completion" |
| Session.ValidationCachedOnce | app.py:1262-1272 | the goal is validated at most once, and only for a successful session whose last screenshot exists; a cached result is reused |
| Session.RerunWritesNothing | app.py:1287-1297 | running the block again writes no second post-mortem |
| Session.NotPassCode | app.py:1031 | code ending in `)` never asks for a translation |
| Session.StubStep | app.py:1018-1201 | in stub mode a step goes through with the stub's code and no verdict |
| Session.StubFirstStep | app.py:1040-1045 | the stub's first step sets the budget to 3 and checkpoint 2, yet it stops out of steps when the starting budget was 1, because the step uses the budget it read before the revision |
| Session.StubFirstRecord | app.py:1145-1201 | the recorded state after the stub's first step |
| Session.StubSecondStep | app.py:1018-1201 | the stub's second step ends the session in success |
| Session.StubSecondRecord | app.py:1145-1193 | the recorded state after the stub's second step |
| Session.StubSessionSucceeds | app.py:1248-1297 | the demo session succeeds after two steps with clean notes; the guard as written does not hold for it, while the corrected guard does and writes exactly one post-mortem |
| RuleExport.SqlTrim | scripts/analyze_audit_log.py:54 | DuckDB's `TRIM` removes the Unicode space separators (U+0020, U+00A0 and the rest of category Zs) at both ends; it gives "" exactly for a text made only of them |
| RuleExport.SqlTrimInfix | scripts/analyze_audit_log.py:54 | what `TRIM` keeps is an infix of the text with only space separators before and after it |
| RuleExport.NoBreakSpacePassDropped | scripts/analyze_audit_log.py:54 | a code of a no-break space and `pass` trims to "pass", so the WHERE clause drops it |
| RuleExport.QueryFilter | scripts/analyze_audit_log.py:51-57 | the WHERE clause keeps exactly the rows with non-null code that is neither blank nor "pass" after trimming and lower-casing |
| RuleExport.SeenThoughtsIff | scripts/analyze_audit_log.py:64-77 | a thought is in `seen_thought` exactly when an earlier counted row had it |
| RuleExport.RowRule | scripts/analyze_audit_log.py:76-83 | one row adds at most one rule |
| RuleExport.BuildRules | scripts/analyze_audit_log.py:64-83 | the loop with its `seen_thought` set builds `BuiltRules` |
| RuleExport.ConsiderRow | scripts/analyze_audit_log.py:76-83 | one row with a thought and a code, when exporting, adds its thought to the seen set; it adds its rule only when the thought is new and the pattern is not empty |
| RuleExport.RulesUpToBound | scripts/analyze_audit_log.py:64-83 | there are no more rules than rows |
| RuleExport.RulesUpToOrigins | scripts/analyze_audit_log.py:76-83 | every built rule is the rule of the first row of its thought, and its pattern is not empty |
| RuleExport.RulesUpToComplete | scripts/analyze_audit_log.py:76-83 | the first row of each thought with a non-empty pattern contributes its rule |
| RuleExport.LaterRowOfThoughtIgnored | scripts/analyze_audit_log.py:76-77 | a later row with a thought already seen adds nothing, whatever its code |
| RuleExport.ExportedRuleMatchesItsThought | scripts/analyze_audit_log.py:78-83 | fed back to the translator, an exported rule matches the thought it was built from and yields its code |
| RuleExport.SortStringsSorted | scripts/analyze_audit_log.py:99 | `sorted` gives an ordered permutation of its input |
| RuleExport.SortedUnique | scripts/analyze_audit_log.py:99 | two ordered lists with the same elements are equal |
| RuleExport.SortedAlikeIff | scripts/analyze_audit_log.py:99 | two lists sort alike exactly when they hold the same strings |
| RuleExport.KeyRaisesIff | scripts/analyze_audit_log.py:99 | computing a rule's key raises exactly for a null `patterns`, or a list of two or more items holding a None |
| RuleExport.ExportedKey | scripts/analyze_audit_log.py:80-83 | the key of an exported rule is its one pattern |
| RuleExport.KeyPermutation | scripts/analyze_audit_log.py:99-103 | two rules whose patterns are lists of strings share a key exactly when one list rearranges the other |
| RuleExport.StringPatternKey | scripts/analyze_audit_log.py:99 | a string pattern is sorted as the list of its characters |
| RuleExport.KeySet | scripts/analyze_audit_log.py:97-100 | the key set holds the key of every existing rule |
| RuleExport.KeySetStaysRaised | scripts/analyze_audit_log.py:98-100 | once a key raises, the loop ends in that exception |
| RuleExport.AppendFromStaysRaised | scripts/analyze_audit_log.py:101-105 | once a key raises, the appending loop ends in that exception |
| RuleExport.MergeRules | scripts/analyze_audit_log.py:96-105 | the two loops that grow `existing_patterns` and `existing` in place compute `Merged` |
| RuleExport.CollectKeys | scripts/analyze_audit_log.py:96-99 | the first loop returns the key of every existing rule, or the exception of the first rule without a key |
| RuleExport.AppendNew | scripts/analyze_audit_log.py:100-104 | the second loop raises exactly when `AppendFrom` does, with the same exception; otherwise it appends to `existing` the rules `AppendFrom` keeps |
| RuleExport.AppendFromKnows | scripts/analyze_audit_log.py:101-105 | after the appending loop, every key known before and every key it passed is known |
| RuleExport.AppendFromAppended | scripts/analyze_audit_log.py:101-105 | every appended rule comes from the new rules, and its key was unknown before |
| RuleExport.AppendFromDistinct | scripts/analyze_audit_log.py:101-105 | no two appended rules share a key |
| RuleExport.AppendFromKeyOrigin | scripts/analyze_audit_log.py:101-105 | every key known after the loop was known before or belongs to an appended rule |
| RuleExport.MergeProperties | scripts/analyze_audit_log.py:89-105 | the merge keeps the existing rules in front, in order; it appends only new rules whose keys are new and distinct; every new rule's key ends up covered |
| RuleExport.KeyHolder | scripts/analyze_audit_log.py:97-100 | every key in the key set belongs to an existing rule |
| RuleExport.AppendExportedOk | scripts/analyze_audit_log.py:101-105 | rules that all have keys are appended without an exception |
| RuleExport.ExportOutcome | scripts/analyze_audit_log.py:87-106 | a file is written exactly when an export was asked for and a rule was built, and what is written is the merge |
| RuleExport.ExportNeverRaisesOnBuiltRules | scripts/analyze_audit_log.py:87-105 | built rules merge without an exception whenever the existing rules have keys |
| Prompts.WordAt | prompts/__init__.py:25 | a match of `\{(\w+)\}` is a word between braces at that position |
| Prompts.WordAtFound | prompts/__init__.py:25 | every `{word}` in the template is among the placeholders found |
| Prompts.PlaceholdersAreWords | prompts/__init__.py:25 | every placeholder found is a word |
| Prompts.WithDefaults | prompts/__init__.py:26-28 | the keys become the supplied keys plus the placeholders; supplied values are never overwritten; only absent keys get "" |
| Prompts.FillDefaults | prompts/__init__.py:26-28 | the loop that mutates `kwargs` computes `WithDefaults` |
| Prompts.FieldValue | prompts/__init__.py:29 | a field that formats has its name as a supplied key and gives that key's value |
| Prompts.FormatPrompt | prompts/__init__.py:19-29 | `format_prompt` is `str.format` applied after the defaults are filled in |
| Prompts.FormatBraceFree | prompts/__init__.py:29 | brace-free text is copied through |
| Prompts.BraceFreeTemplateUnchanged | prompts/__init__.py:25-29 | a template without braces is returned unchanged, whatever the arguments |
| Prompts.SinglePlaceholder | prompts/__init__.py:29 | one keyword placeholder between brace-free texts is replaced by its value, other arguments are ignored, and a missing key raises KeyError |
| Prompts.NoMissingWordKey | prompts/__init__.py:24-29 | once the defaults are filled in, `format_prompt` never raises KeyError for a `{word}` placeholder |
| Prompts.MissingPlaceholderEmpty | prompts/__init__.py:26-29 | a placeholder with no value formats to "" |
| Prompts.NumericPlaceholderRaises | prompts/__init__.py:25-29 | a numeric placeholder gets a default too, yet `str.format` reads it as a positional index and raises |

## Left out

- The Streamlit user interface is left out: the sidebar, the status bar, the expanders, the chat log kept by `_log`, `current_thought`, `session_log`, and the "Start New Session" button that clears the state.
- DuckDB is not modelled. The audit log, the sessions row's status and the post-mortems are values. Rows come back in the order they were logged, as DuckDB returns them with its default `preserve_insertion_order` setting on. Only a failure of the database calls at the top of the step's `try` (app.py:1011-1014) is modelled. It is the `fault` input, and it strikes before the step changes anything.
- Two later database failures are left out. A failed audit INSERT at app.py:1147-1167 would crash the step after the plan revision of app.py:1040-1045, and the crash keeps that revision. A failure of the crash handler's own database calls (app.py:1217-1243) is swallowed by its `except Exception: pass`, so no crash row is written, whereas `Session.Crashed` always appends one.
- HTTP requests, authentication, the 400 text-only retry and the `base_resp` checks are left out. Each model call is its reply text, or None when the call gave up. The prompts sent with these calls (`load_prompt` and `format_prompt` inside the callers) are not modelled. `format_prompt` itself is modelled on its own.
- Screenshot capture is the `captured` input. The after-step screenshot and the validation screenshot at checkpoint steps (app.py:1141-1143) are left out: they only write files.
- `exec` is an oracle on the rewritten code. It returns None or the exception text. The pauses between calls are left out.
- `json.loads` and Python's `str()` of non-string values are parameters (`Runtime`). Only the three regular expressions that feed them, and the two translator regexes, are written out.
- `Session.Crashed`: the exception texts of the Python runtime (a TypeError's message, for instance) are not reproduced. An escaping exception carries the text the model gives it.
- `Session.Initial`: a `validation_result` left in `st.session_state` by an earlier session of the same browser tab is not carried over. A new session starts with no cached validation.
- `Session.Tasker.Complete`: the block reads the goal and status back from the `sessions` row. The model reads them from its own state, which holds the same values.
- The `seen_thought` loop in scripts/analyze_audit_log.py receives the query's grouped rows as they come. The GROUP BY with its counts and the ORDER BY are not modelled; the rows are an input in query order.
- File input and output are left out: `load_rules`, `prompts.load`, reading and writing the audit script's rules file, argument parsing and printed output. The rules and the existing rules are inputs.
- Text.Lower: case mapping covers ASCII letters only, not the whole of Unicode.
- Text.Upper: case mapping covers ASCII letters only, not the whole of Unicode.
- Json.ParseIntLiteral: `int()` of a text accepts ASCII digits only. Python's `int()` at app.py:341 also accepts the other Unicode decimal digits, so `int("٣") == 3` where the model gives ValueError.
- Text.IsWordChar: the regular-expression class `\w` covers ASCII letters, digits and `_` only, not Python's Unicode word characters.
- Prompts.WordAt: `\w` is ASCII only, as in `Text.IsWordChar`, so `{café}` is not found as a placeholder and formats as `Fails(MissingKey)` where Python gives "".
- StepCode.OpeningFenceEnd: the language tag after the fence matches ASCII `\w` only, as in `Text.IsWordChar`; a tag with other word characters is not removed.
- Decisions.DecisionFrom: raises for every thought or code that is not text, and the source lets one of these cases through. A falsy thought never gets here: app.py:332 replaces it with `reasoning` or "No thought.". A truthy thought that is neither text nor a list raises when it is sliced at app.py:568, as here. A non-empty list thought can be sliced, so it gets past app.py:568 and app.py:1027. It also gets past app.py:1031 when the code is a text other than blank or `pass`. It then reaches the history and the audit log, which hold only text here. A non-empty list code raises at app.py:1031, as in the model.
- Translator.Rule: a rule's patterns and code are null, text or a list of texts. The source's other cases are not represented. A numeric pattern raises AttributeError at `(p or "").lower()` (task_translator.py:68). A numeric code raises at `code.replace` (task_translator.py:71). Both end the step in the crash row (app.py:1204). A rule, or an existing entry of the audit script's rules file, that is not an object raises at `rule.get` or `r.get` (task_translator.py:60, scripts/analyze_audit_log.py:99).
- Prompts.FieldValue: a replacement field with an attribute, an index, a conversion or a format spec gives `Unsupported` rather than Python's result.
- pyautogui_check.py, scripts/diagnose_pyautogui.py and scripts/test_minimax_key.py are not part of this model. They are probes of the desktop and of the API key.

## Findings

| source | as written | input that shows it | evidently intended | confidence | as-written member | corrected member |
|---|---|---|---|---|---|---|
| app.py:1248-1251 | The self-improvement block runs only when `is_running` holds and the step number is past `max_steps`. Every branch that ends a session (success, stuck, out of steps, error) clears `is_running` first, and a running session never passes its budget. So the block, with its goal validation and post-mortem, never runs. | The stub session: CONTINUE, then SUCCESS. It ends with `is_running` false and step 4 against a budget of 3, so the guard is false. | The block runs for a session that has stopped after SUCCESS, LOST or its budget (the comment at app.py:1247) | not executed | Session.CompletionGuard (shown by Session.LiteralGuardNeverHolds and Session.StubSessionSucceeds) | Session.Concluded (used by Session.Completed and Session.Tasker.Complete; Session.StepOutcome proves it holds exactly after a step that went through and stopped; Session.PostMortemOnce proves one post-mortem per session) |
