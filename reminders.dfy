/**
 * The "Delivery Date issues" reminder: over the whole table, regardless of
 * the active filters, the projects whose delivery date is blank or later than
 * their lead time, projected to four columns, dropping lines that are blank
 * in all four.
 */
module Reminders {
  import opened Wrappers
  import opened Rows
  import opened Seqs
  import Filtering

  datatype ReminderLine = ReminderLine(
    projectName: Option<string>, leadTime: Option<Date>, delivery: Option<Date>, remarks: Option<string>)

  /**
   * `Delivery_Date.isna() | (Delivery_Date > Lead_Time)`: a comparison with an
   * absent lead time is false.
   */
  predicate AtRisk(r: Row)
  {
    r.delivery.None? || (r.leadTime.Some? && DateLt(r.leadTime.value, r.delivery.value))
  }

  function LineOf(r: Row): ReminderLine
  {
    ReminderLine(r.projectName, r.leadTime, r.delivery, r.remarks)
  }

  /** `dropna(how='all')` drops a line whose four cells are all absent. */
  predicate Blank(l: ReminderLine)
  {
    l.projectName.None? && l.leadTime.None? && l.delivery.None? && l.remarks.None?
  }

  /** Mask, project and drop blank lines, row by row in file order. */
  function SelectReminders(rows: seq<Row>): (ls: seq<ReminderLine>)
    ensures |ls| <= |rows|
    ensures forall i :: 0 <= i < |ls| ==> !Blank(ls[i])
  {
    if rows == [] then []
    else
      var init := SelectReminders(rows[..|rows| - 1]);
      var r := rows[|rows| - 1];
      if AtRisk(r) && !Blank(LineOf(r)) then init + [LineOf(r)] else init
  }

  /** The reminder block is shown only when both compared columns exist. */
  predicate HasReminderColumns(t: Table)
  {
    "Delivery_Date" in t.columns && "Lead_Time" in t.columns
  }

  function Reminders(t: Table): (ls: seq<ReminderLine>)
    ensures !HasReminderColumns(t) ==> ls == []
    ensures |ls| <= |t.rows|
    ensures forall i :: 0 <= i < |ls| ==> !Blank(ls[i])
  {
    if HasReminderColumns(t) then SelectReminders(t.rows) else []
  }

  function Project(rows: seq<Row>): (ls: seq<ReminderLine>)
    ensures |ls| == |rows|
    ensures forall i :: 0 <= i < |rows| ==> ls[i] == LineOf(rows[i])
  {
    seq(|rows|, i requires 0 <= i < |rows| => LineOf(rows[i]))
  }

  function NotBlank(): ReminderLine -> bool
  {
    (l: ReminderLine) => !Blank(l)
  }

  /**
   * The one-pass selection is the pandas pipeline: mask the rows at risk,
   * project the four columns, then drop the blank lines.
   */
  lemma {:induction false} SelectIsPipeline(rows: seq<Row>)
    ensures SelectReminders(rows) == Where(Project(Where(rows, AtRisk)), NotBlank())
  {
    if rows != [] {
      var init := rows[..|rows| - 1];
      var r := rows[|rows| - 1];
      assert rows == init + [r];
      SelectIsPipeline(init);
      WhereSnoc(init, r, AtRisk);
      if AtRisk(r) {
        assert Project(Where(init, AtRisk) + [r]) == Project(Where(init, AtRisk)) + [LineOf(r)];
        WhereSnoc(Project(Where(init, AtRisk)), LineOf(r), NotBlank());
      }
    }
  }

  /** A line is reported iff some row is at risk, projects to it, and the line is not blank. */
  lemma {:induction false} ReminderMembership(rows: seq<Row>, l: ReminderLine)
    ensures l in SelectReminders(rows)
        <==> exists i :: 0 <= i < |rows| && AtRisk(rows[i]) && LineOf(rows[i]) == l && !Blank(l)
  {
    if rows != [] {
      var init := rows[..|rows| - 1];
      ReminderMembership(init, l);
      assert forall i :: 0 <= i < |init| ==> init[i] == rows[i];
      if exists i :: 0 <= i < |rows| && AtRisk(rows[i]) && LineOf(rows[i]) == l && !Blank(l) {
        var i :| 0 <= i < |rows| && AtRisk(rows[i]) && LineOf(rows[i]) == l && !Blank(l);
        if i < |init| {
          assert AtRisk(init[i]) && LineOf(init[i]) == l;
        }
      }
    }
  }

  /** A row with no delivery date is reported whenever any of its four cells is filled. */
  lemma MissingDeliveryReported(rows: seq<Row>, i: int)
    requires 0 <= i < |rows| && rows[i].delivery.None?
    requires !Blank(LineOf(rows[i]))
    ensures LineOf(rows[i]) in SelectReminders(rows)
  {
    ReminderMembership(rows, LineOf(rows[i]));
  }

  /** A delivery on or before the lead time is never the reason for a reminder. */
  lemma OnTimeNotAtRisk(r: Row)
    requires r.delivery.Some? && r.leadTime.Some? && DateLe(r.delivery.value, r.leadTime.value)
    ensures !AtRisk(r)
  {
  }

  /**
   * The reminders do not depend on the active filter: every row of any
   * filtered view that is at risk, with a non-blank line, is in the
   * reminder list computed from the whole table.
   */
  lemma RemindersCoverEveryView(t: Table, projectType: string, year: int, monthName: string, r: Row)
    requires monthName in Filtering.MonthOptions
    requires HasReminderColumns(t)
    requires r in Filtering.FilterRows(t, projectType, year, monthName)
    requires AtRisk(r) && !Blank(LineOf(r))
    ensures LineOf(r) in Reminders(t)
  {
    Filtering.FilterMembership(t, projectType, year, monthName, r);
    var i :| 0 <= i < |t.rows| && t.rows[i] == r;
    ReminderMembership(t.rows, LineOf(r));
  }
}
