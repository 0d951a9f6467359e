/**
 * `generate_refined_prompt` (app.py:606-637): the audit rows of a session
 * that record an error or a failed step become "- Avoided: …" notes, and
 * the notes are framed by the session's goal.
 */
module Refinement {
  import opened Base
  import opened Text

  /** A row of `audit_log` for one session; None is SQL NULL. Screenshot paths are not kept. */
  datatype AuditRow = AuditRow(
    step: int,
    thought: Option<string>,
    code: Option<string>,
    action: string,
    feedback: Option<string>,
    status: string,
    outcome: string,
    verAchieved: Option<string>,
    verReason: Option<string>)

  /**
   * `feedback LIKE '%Error%' OR outcome = 'Fail'`: LIKE is case-sensitive,
   * and a NULL feedback only lets the row through on its outcome.
   */
  predicate IsFailureRow(r: AuditRow) {
    (r.feedback.Some? && Contains(r.feedback.value, "Error")) || r.outcome == "Fail"
  }

  /** The rows the query returns, in the order they were logged. */
  function FailureRows(rows: seq<AuditRow>): (r: seq<AuditRow>)
    ensures |r| <= |rows|
    ensures forall k :: 0 <= k < |r| ==> r[k] in rows && IsFailureRow(r[k])
    ensures forall row :: row in rows && IsFailureRow(row) ==> row in r
  {
    if rows == [] then []
    else
      var rest := FailureRows(rows[..|rows| - 1]);
      var last := rows[|rows| - 1];
      assert forall row :: row in rows ==> row in rows[..|rows| - 1] || row == last;
      if IsFailureRow(last) then rest + [last] else rest
  }

  /** `f"- Avoided: {row[0]} because {row[1]}"`: a NULL feedback prints as `None`. */
  function NoteLine(r: AuditRow): (line: string)
    ensures StartsWith(line, "- Avoided: ")
    ensures StartsWith(line, "- Avoided: " + r.action + " because ")
    ensures |line| == |"- Avoided: " + r.action + " because "| + |r.feedback.GetOr("None")|
    ensures line[|"- Avoided: " + r.action + " because "|..] == r.feedback.GetOr("None")
  {
    "- Avoided: " + r.action + " because " + r.feedback.GetOr("None")
  }

  function NoteLines(rows: seq<AuditRow>): (r: seq<string>)
    ensures |r| == |rows|
    ensures forall k :: 0 <= k < |rows| ==> r[k] == NoteLine(rows[k])
  {
    seq(|rows|, k requires 0 <= k < |rows| => NoteLine(rows[k]))
  }

  const NoErrors := "No errors encountered."

  /** The improvement notes: one line per returned row, or the fixed sentence when there is none. */
  function Notes(rows: seq<AuditRow>): string {
    var failed := FailureRows(rows);
    if failed == [] then NoErrors else Join(NoteLines(failed), "\n")
  }

  /** The refined prompt; a missing session row reads as the goal `Unknown`. */
  function RefinedPrompt(goal: Option<string>, rows: seq<AuditRow>): (r: string)
    ensures StartsWith(r, "OPTIMIZED PROMPT FOR '" + goal.GetOr("Unknown") + "':\nAlways do X. ")
    ensures |r| >= |"\n\nOriginal Goal: " + goal.GetOr("Unknown")|
    ensures r[|r| - |"\n\nOriginal Goal: " + goal.GetOr("Unknown")|..] == "\n\nOriginal Goal: " + goal.GetOr("Unknown")
    ensures var head := "OPTIMIZED PROMPT FOR '" + goal.GetOr("Unknown") + "':\nAlways do X. ";
            var tail := "\n\nOriginal Goal: " + goal.GetOr("Unknown");
            |r| == |head| + |Notes(rows)| + |tail| && r[|head|..|r| - |tail|] == Notes(rows)
  {
    var g := goal.GetOr("Unknown");
    var head := "OPTIMIZED PROMPT FOR '" + g + "':\nAlways do X. ";
    var tail := "\n\nOriginal Goal: " + g;
    var r := head + Notes(rows) + tail;
    assert r[..|head|] == head;
    assert r[|r| - |tail|..] == tail;
    r
  }

  /* ---------------- properties ---------------- */

  /** The fixed sentence appears exactly when no row is returned. */
  lemma NoErrorsIff(rows: seq<AuditRow>)
    ensures Notes(rows) == NoErrors <==> forall row :: row in rows ==> !IsFailureRow(row)
  {
    var failed := FailureRows(rows);
    if failed != [] {
      assert failed[0] in rows && IsFailureRow(failed[0]);
      var lines := NoteLines(failed);
      JoinStartsWith(lines, "\n", "- Avoided: ");
      assert Notes(rows)[..|"- Avoided: "|][0] == '-';
    }
  }

  /** A join of lines that all start with `p` starts with `p`. */
  lemma JoinStartsWith(lines: seq<string>, sep: string, p: string)
    requires lines != [] && StartsWith(lines[0], p)
    ensures StartsWith(Join(lines, sep), p)
  {
    if |lines| > 1 {
      assert Join(lines, sep) == lines[0] + (sep + Join(lines[1..], sep));
    }
  }

  /** The note of every flagged row of the session is in the refined prompt. */
  lemma FlaggedNoteInPrompt(goal: Option<string>, rows: seq<AuditRow>, row: AuditRow)
    requires row in rows && IsFailureRow(row)
    ensures Contains(RefinedPrompt(goal, rows), NoteLine(row))
  {
    var failed := FailureRows(rows);
    var k :| 0 <= k < |failed| && failed[k] == row;
    var lines := NoteLines(failed);
    JoinContainsPart(lines, "\n", k);
    var r := RefinedPrompt(goal, rows);
    var head := "OPTIMIZED PROMPT FOR '" + goal.GetOr("Unknown") + "':\nAlways do X. ";
    assert r[|head|..|head| + |Notes(rows)|] == Notes(rows);
    ContainsAt(r, Notes(rows), |head|);
    ContainsTrans(r, Notes(rows), NoteLine(row));
  }

  /** "No errors encountered." follows the header exactly when no row of the session is flagged. */
  lemma NoErrorsAfterHeader(goal: Option<string>, rows: seq<AuditRow>)
    ensures var head := "OPTIMIZED PROMPT FOR '" + goal.GetOr("Unknown") + "':\nAlways do X. ";
            StartsWith(RefinedPrompt(goal, rows)[|head|..], NoErrors) <==>
              forall row :: row in rows ==> !IsFailureRow(row)
  {
    var head := "OPTIMIZED PROMPT FOR '" + goal.GetOr("Unknown") + "':\nAlways do X. ";
    var r := RefinedPrompt(goal, rows);
    var notes := Notes(rows);
    assert r[|head|..][..|notes|] == notes;
    NoErrorsIff(rows);
    var failed := FailureRows(rows);
    if failed != [] {
      JoinStartsWith(NoteLines(failed), "\n", "- Avoided: ");
      assert notes[0] == '-';
      assert r[|head|..][0] == '-';
    }
  }

  /** A row that neither failed nor mentions an error leaves the prompt as it was. */
  lemma {:induction false} UnflaggedRowIgnored(goal: Option<string>, rows: seq<AuditRow>, row: AuditRow)
    requires !IsFailureRow(row)
    ensures FailureRows(rows + [row]) == FailureRows(rows)
    ensures RefinedPrompt(goal, rows + [row]) == RefinedPrompt(goal, rows)
  {
    assert (rows + [row])[..|rows|] == rows;
  }

  /** A flagged row adds its own note as the last line. */
  lemma FlaggedRowNoted(rows: seq<AuditRow>, row: AuditRow)
    requires IsFailureRow(row)
    ensures FailureRows(rows + [row]) == FailureRows(rows) + [row]
    ensures Notes(rows + [row]) == if FailureRows(rows) == [] then NoteLine(row)
                                   else Notes(rows) + "\n" + NoteLine(row)
  {
    assert (rows + [row])[..|rows|] == rows;
    var failed := FailureRows(rows);
    assert NoteLines(failed + [row]) == NoteLines(failed) + [NoteLine(row)];
    if failed != [] {
      JoinSnoc(NoteLines(failed), NoteLine(row), "\n");
    }
  }
}
