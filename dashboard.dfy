/**
 * One pass of the dashboard over a table: filter, count, compute a progress
 * line for every filtered row, and list the delivery reminders.
 */
module Dashboard {
  import opened Wrappers
  import opened Rows
  import opened Progress
  import opened Colour
  import Tag
  import Filtering
  import Counts
  import Reminders

  /** What the script draws for one project: name, percentage, bar colour, KTA38 icon. */
  datatype ProgressLine = ProgressLine(projectName: Option<string>, progress: int, colour: Rgb, tagged: bool)

  function LineOf(row: Row, today: Date): (l: ProgressLine)
    ensures ProgressValue(l.progress) && InGamut(l.colour)
  {
    var p := ProgressOf(row, today);
    ProgressInRange(row, today);
    ProgressLine(row.projectName, p, ColourOf(p), Tag.HasMarker(row.description))
  }

  function LinesOf(rows: seq<Row>, today: Date): (ls: seq<ProgressLine>)
    ensures |ls| == |rows|
    ensures forall i :: 0 <= i < |rows| ==> ls[i] == LineOf(rows[i], today)
  {
    seq(|rows|, i requires 0 <= i < |rows| => LineOf(rows[i], today))
  }

  /** The per-row loop: progress, colour and tag for each filtered row, in order. */
  method ProgressLines(rows: seq<Row>, today: Date) returns (lines: seq<ProgressLine>)
    ensures lines == LinesOf(rows, today)
  {
    lines := [];
    var i := 0;
    while i < |rows|
      invariant 0 <= i <= |rows|
      invariant lines == LinesOf(rows[..i], today)
    {
      var row := rows[i];
      var progress, met := ComputeProgress(row, today);
      var colour := ColourOf(progress);
      var tagged := Tag.HasMarker(row.description);
      assert ProgressLine(row.projectName, progress, colour, tagged) == LineOf(row, today);
      lines := lines + [ProgressLine(row.projectName, progress, colour, tagged)];
      LinesOfStep(rows, i, today);
      i := i + 1;
    }
    assert rows[..i] == rows;
  }

  /** One more row gives one more line at the end. */
  lemma LinesOfStep(rows: seq<Row>, i: int, today: Date)
    requires 0 <= i < |rows|
    ensures LinesOf(rows[..i + 1], today) == LinesOf(rows[..i], today) + [LineOf(rows[i], today)]
  {
    assert rows[..i + 1] == rows[..i] + [rows[i]];
  }

  /** Everything one run of the script shows. */
  datatype View = View(
    summary: Counts.Summary, lines: seq<ProgressLine>, reminders: seq<Reminders.ReminderLine>)

  function Render(t: Table, projectType: string, year: int, monthName: string, today: Date): View
    requires monthName in Filtering.MonthOptions
  {
    var rows := Filtering.FilterRows(t, projectType, year, monthName);
    View(Counts.Aggregate(rows), LinesOf(rows, today), Reminders.Reminders(t))
  }

  /** The reminder list is the same whatever type, year, month or day is selected. */
  lemma RemindersIgnoreSelection(
    t: Table, type1: string, year1: int, month1: string, today1: Date,
    type2: string, year2: int, month2: string, today2: Date)
    requires month1 in Filtering.MonthOptions && month2 in Filtering.MonthOptions
    ensures Render(t, type1, year1, month1, today1).reminders == Render(t, type2, year2, month2, today2).reminders
  {
  }

  /** One line per filtered row, and the total counts exactly those lines. */
  lemma LinesMatchTotal(t: Table, projectType: string, year: int, monthName: string, today: Date)
    requires monthName in Filtering.MonthOptions
    ensures var v := Render(t, projectType, year, monthName, today);
            |v.lines| == v.summary.total
  {
  }

  /** Parts arrived and installation done, nothing else: 70%, pure yellow. */
  lemma SeventyPercentIsYellow(row: Row, today: Date)
    requires row.partsArrival == Some(Date(2024, 1, 1)) && row.installationComplete == Some(Date(2024, 2, 1))
    requires row.testing.None? && row.cleaning == Some("NO") && row.delivery.None?
    requires today == Date(2025, 1, 1)
    ensures LineOf(row, today).progress == 70
    ensures LineOf(row, today).colour == Yellow
  {
    ColourAtAnchors();
  }

  /** Only cleaning done: 10%, a third of the way from grey to orange-red. */
  lemma CleaningOnly(row: Row, today: Date)
    requires row.partsArrival.None? && row.installationComplete.None? && row.testing.None? && row.delivery.None?
    requires row.cleaning == Some("YES")
    ensures LineOf(row, today).progress == 10
    ensures LineOf(row, today).colour == Rgb(234, 172, 149)
  {
    ColourAtAnchors();
  }

  /** A row that has met every milestone shows a full blue bar; one that has met none shows an empty grey one. */
  lemma ExtremeLines(row: Row, today: Date)
    ensures AllMet(MilestonesOf(row, today)) ==> LineOf(row, today).progress == 100 && LineOf(row, today).colour == Blue
    ensures NoneMet(MilestonesOf(row, today)) ==> LineOf(row, today).progress == 0 && LineOf(row, today).colour == Grey
  {
    ProgressExtremes(row, today);
  }
}
