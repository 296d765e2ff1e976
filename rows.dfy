/**
 * The typed project record the dashboard works on, and the table it is
 * read from. A row holds what one line of projects.csv holds once the date
 * columns have been coerced to dates (unparseable cells become absent).
 */
module Rows {
  import opened Wrappers

  /** A calendar date; only its ordering matters to the dashboard. */
  datatype Date = Date(year: int, month: int, day: int)

  /** `a <= b` on calendar dates: lexicographic on (year, month, day). */
  predicate DateLe(a: Date, b: Date)
  {
    a.year < b.year
    || (a.year == b.year && (a.month < b.month || (a.month == b.month && a.day <= b.day)))
  }

  /** `a < b` on calendar dates. */
  predicate DateLt(a: Date, b: Date)
  {
    DateLe(a, b) && a != b
  }

  lemma DateLeTransitive(a: Date, b: Date, c: Date)
    requires DateLe(a, b) && DateLe(b, c)
    ensures DateLe(a, c)
  {
  }

  /** One project record. */
  datatype Row = Row(
    projectType: Option<string>,
    projectName: Option<string>,
    year: Option<int>,
    leadTime: Option<Date>,
    partsArrival: Option<Date>,
    installationComplete: Option<Date>,
    testing: Option<Date>,
    cleaning: Option<string>,
    delivery: Option<Date>,
    description: Option<string>,
    remarks: Option<string>)

  /** The type mask `Project_Type == projectType`; an absent type matches nothing. */
  function TypeIs(projectType: string): Row -> bool
  {
    (r: Row) => r.projectType == Some(projectType)
  }

  /** The loaded data frame: the names of its columns and its rows in file order. */
  datatype Table = Table(columns: set<string>, rows: seq<Row>)
}
