/**
 * The type / year / lead-time-month filter of the dashboard. Each stage is a
 * boolean mask over the rows of the previous stage, so the result keeps the
 * file order.
 */
module Filtering {
  import opened Wrappers
  import opened Rows
  import opened Seqs

  /** The month selector: a "no filter" sentinel followed by the twelve month names. */
  const MonthOptions: seq<string> := [
    "--", "一月", "二月", "三月", "四月", "五月", "六月",
    "七月", "八月", "九月", "十月", "十一月", "十二月"]

  /** The type selector's wildcard. */
  const AllTypes: string := "All"

  /** `month_options.index(name)`: the position of the first occurrence. */
  function IndexOf(options: seq<string>, name: string): (i: nat)
    requires name in options
    ensures i < |options| && options[i] == name
    ensures forall j :: 0 <= j < i ==> options[j] != name
  {
    if options[0] == name then 0 else 1 + IndexOf(options[1..], name)
  }

  /** The month a name selects: 0 for "--", 1..12 for January..December. */
  function MonthIndex(name: string): (m: nat)
    requires name in MonthOptions
    ensures m <= 12
    ensures (m == 0) == (name == "--")
  {
    IndexOf(MonthOptions, name)
  }

  function YearIs(year: int): Row -> bool
  {
    (r: Row) => r.year == Some(year)
  }

  /** `Lead_Time.dt.month == month`; an absent lead time has no month and fails. */
  function LeadMonthIs(month: int): Row -> bool
  {
    (r: Row) => r.leadTime.Some? && r.leadTime.value.month == month
  }

  /** Does the table have the columns the year and month stages read? */
  predicate HasFilterColumns(t: Table)
  {
    "Year" in t.columns && "Lead_Time" in t.columns
  }

  /** The filter as the script runs it, stage by stage. */
  function FilterRows(t: Table, projectType: string, year: int, monthName: string): (r: seq<Row>)
    requires monthName in MonthOptions
    ensures !HasFilterColumns(t) ==> r == []
    ensures |r| <= |t.rows|
  {
    if projectType == AllTypes then
      if HasFilterColumns(t) then
        var byYear := Where(t.rows, YearIs(year));
        if monthName != "--" then
          var month := MonthIndex(monthName);
          if month != 0 then Where(byYear, LeadMonthIs(month)) else byYear
        else byYear
      else []
    else
      var byType := Where(t.rows, TypeIs(projectType));
      if HasFilterColumns(t) then
        var byYear := Where(byType, YearIs(year));
        if monthName != "--" then
          var month := MonthIndex(monthName);
          if month != 0 then Where(byYear, LeadMonthIs(month)) else byYear
        else byYear
      else []
  }

  /** The whole selection as one condition on a row (`month == 0` means no month chosen). */
  predicate Selected(r: Row, projectType: string, year: int, month: int)
  {
    && (projectType == AllTypes || r.projectType == Some(projectType))
    && r.year == Some(year)
    && (month == 0 || (r.leadTime.Some? && r.leadTime.value.month == month))
  }

  function SelectedBy(projectType: string, year: int, month: int): Row -> bool
  {
    (r: Row) => Selected(r, projectType, year, month)
  }

  /**
   * The staged filter is the single mask "type matches (or is All), year
   * matches, and no month is chosen or the lead time is in that month", or
   * nothing at all when the year or lead-time column is missing.
   */
  lemma FilterIsSelection(t: Table, projectType: string, year: int, monthName: string)
    requires monthName in MonthOptions
    ensures FilterRows(t, projectType, year, monthName)
         == if HasFilterColumns(t) then Where(t.rows, SelectedBy(projectType, year, MonthIndex(monthName))) else []
  {
    if HasFilterColumns(t) {
      var month := MonthIndex(monthName);
      if projectType == AllTypes {
        YearStage(t.rows, year, month);
      } else {
        TypeYearStage(t.rows, projectType, year, month);
      }
    }
  }

  /** The "All" branch: year, then month when one is chosen. */
  lemma YearStage(rows: seq<Row>, year: int, month: int)
    ensures (if month != 0 then Where(Where(rows, YearIs(year)), LeadMonthIs(month)) else Where(rows, YearIs(year)))
         == Where(rows, SelectedBy(AllTypes, year, month))
  {
    var sel := SelectedBy(AllTypes, year, month);
    if month == 0 {
      WhereCongruent(rows, YearIs(year), sel);
    } else {
      WhereWhere(rows, YearIs(year), LeadMonthIs(month), sel);
    }
  }

  /** The typed branch: type, then year, then month when one is chosen. */
  lemma TypeYearStage(rows: seq<Row>, projectType: string, year: int, month: int)
    requires projectType != AllTypes
    ensures (if month != 0 then Where(Where(Where(rows, TypeIs(projectType)), YearIs(year)), LeadMonthIs(month))
             else Where(Where(rows, TypeIs(projectType)), YearIs(year)))
         == Where(rows, SelectedBy(projectType, year, month))
  {
    var sel := SelectedBy(projectType, year, month);
    var ty := (r: Row) => r.projectType == Some(projectType) && r.year == Some(year);
    WhereWhere(rows, TypeIs(projectType), YearIs(year), ty);
    if month == 0 {
      WhereCongruent(rows, ty, sel);
    } else {
      WhereWhere(rows, ty, LeadMonthIs(month), sel);
    }
  }

  /** A row is in the result iff it is in the table and satisfies the selection. */
  lemma FilterMembership(t: Table, projectType: string, year: int, monthName: string, r: Row)
    requires monthName in MonthOptions
    ensures r in FilterRows(t, projectType, year, monthName)
        <==> HasFilterColumns(t) && r in t.rows && Selected(r, projectType, year, MonthIndex(monthName))
  {
    FilterIsSelection(t, projectType, year, monthName);
    if HasFilterColumns(t) {
      var res := Where(t.rows, SelectedBy(projectType, year, MonthIndex(monthName)));
      if r in res {
        var i :| 0 <= i < |res| && res[i] == r;
      }
      if r in t.rows && Selected(r, projectType, year, MonthIndex(monthName)) {
        var i :| 0 <= i < |t.rows| && t.rows[i] == r;
      }
    }
  }

  /** The result keeps the rows it keeps in file order. */
  lemma FilterIsSubsequence(t: Table, projectType: string, year: int, monthName: string)
    requires monthName in MonthOptions
    ensures Subsequence(FilterRows(t, projectType, year, monthName), t.rows)
  {
    FilterIsSelection(t, projectType, year, monthName);
    if HasFilterColumns(t) {
      WhereIsSubsequence(t.rows, SelectedBy(projectType, year, MonthIndex(monthName)));
    }
  }

  /** Filtering the filtered rows again with the same selection changes nothing. */
  lemma FilterIdempotent(t: Table, projectType: string, year: int, monthName: string)
    requires monthName in MonthOptions
    ensures var once := FilterRows(t, projectType, year, monthName);
            FilterRows(Table(t.columns, once), projectType, year, monthName) == once
  {
    var once := FilterRows(t, projectType, year, monthName);
    FilterIsSelection(t, projectType, year, monthName);
    FilterIsSelection(Table(t.columns, once), projectType, year, monthName);
    if HasFilterColumns(t) {
      WhereAll(once, SelectedBy(projectType, year, MonthIndex(monthName)));
    }
  }

  /** With "All" and no month, the result is exactly the rows of the chosen year. */
  lemma FilterAllTypesAllMonths(t: Table, year: int)
    requires HasFilterColumns(t)
    ensures FilterRows(t, AllTypes, year, "--") == Where(t.rows, YearIs(year))
  {
  }

  /** Once a month is chosen, a row without a lead time is never in the result. */
  lemma AbsentLeadTimeExcluded(t: Table, projectType: string, year: int, monthName: string, r: Row)
    requires monthName in MonthOptions && monthName != "--"
    requires r.leadTime.None?
    ensures r !in FilterRows(t, projectType, year, monthName)
  {
    FilterMembership(t, projectType, year, monthName, r);
  }

  /** A row whose Year cell is blank is never kept, whatever is selected. */
  lemma BlankYearExcluded(t: Table, projectType: string, year: int, monthName: string, r: Row)
    requires monthName in MonthOptions
    requires r.year.None?
    ensures r !in FilterRows(t, projectType, year, monthName)
  {
    FilterMembership(t, projectType, year, monthName, r);
  }
}
