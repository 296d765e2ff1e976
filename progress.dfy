/**
 * The completion percentage of one project (the body of the per-row loop
 * in timeline_test.py). Five milestones each carry a fixed weight; a date
 * milestone is met when its date is present and not after today, cleaning
 * is met when the cell is exactly "YES".
 */
module Progress {
  import opened Wrappers
  import opened Rows

  const PartsArrivalWeight: int := 30
  const InstallationWeight: int := 40
  const TestingWeight: int := 10
  const CleaningWeight: int := 10
  const DeliveryWeight: int := 10

  /** Which of the five milestones a row has reached. */
  datatype Milestones = Milestones(
    partsArrival: bool, installation: bool, testing: bool, cleaning: bool, delivery: bool)

  /** A date milestone is met iff the date is present and on or before today. */
  predicate DateMet(d: Option<Date>, today: Date)
  {
    d.Some? && DateLe(d.value, today)
  }

  /** Cleaning is met iff the cell is present and is exactly "YES". */
  predicate CleaningMet(c: Option<string>)
  {
    c == Some("YES")
  }

  function MilestonesOf(row: Row, today: Date): Milestones
  {
    Milestones(
      DateMet(row.partsArrival, today),
      DateMet(row.installationComplete, today),
      DateMet(row.testing, today),
      CleaningMet(row.cleaning),
      DateMet(row.delivery, today))
  }

  predicate AllMet(m: Milestones)
  {
    m.partsArrival && m.installation && m.testing && m.cleaning && m.delivery
  }

  predicate NoneMet(m: Milestones)
  {
    !m.partsArrival && !m.installation && !m.testing && !m.cleaning && !m.delivery
  }

  /** The sum of the weights of the met milestones: what the percentage means. */
  function WeightedSum(m: Milestones): (s: int)
    ensures ProgressValue(s)
    ensures s == 100 <==> AllMet(m)
    ensures s == 0 <==> NoneMet(m)
  {
    (if m.partsArrival then PartsArrivalWeight else 0)
    + (if m.installation then InstallationWeight else 0)
    + (if m.testing then TestingWeight else 0)
    + (if m.cleaning then CleaningWeight else 0)
    + (if m.delivery then DeliveryWeight else 0)
  }

  /** The values a percentage can take: a multiple of ten between 0 and 100. */
  predicate ProgressValue(p: int)
  {
    0 <= p <= 100 && p % 10 == 0
  }

  /** The percentage of a row as of `today`. */
  function ProgressOf(row: Row, today: Date): int
  {
    WeightedSum(MilestonesOf(row, today))
  }

  /**
   * The loop body: start at 0, add each met milestone's weight, force 100
   * when all five are met, then cap at 100. The override and the cap never
   * change the sum, because the weights add up to exactly 100.
   */
  method ComputeProgress(row: Row, today: Date) returns (progress: int, met: Milestones)
    ensures met == MilestonesOf(row, today)
    ensures progress == WeightedSum(met)
    ensures ProgressValue(progress)
    ensures AllMet(met) ==> progress == 100
    ensures NoneMet(met) ==> progress == 0
  {
    progress := 0;

    var partsArrivalMet := false;
    if row.partsArrival.Some? {
      partsArrivalMet := DateLe(row.partsArrival.value, today);
      if partsArrivalMet {
        progress := progress + PartsArrivalWeight;
      }
    }

    var installMet := false;
    if row.installationComplete.Some? {
      installMet := DateLe(row.installationComplete.value, today);
      if installMet {
        progress := progress + InstallationWeight;
      }
    }

    var testingMet := false;
    if row.testing.Some? {
      testingMet := DateLe(row.testing.value, today);
      if testingMet {
        progress := progress + TestingWeight;
      }
    }

    var cleaningMet := if row.cleaning.Some? then row.cleaning.value == "YES" else false;
    if cleaningMet {
      progress := progress + CleaningWeight;
    }

    var deliveryMet := false;
    if row.delivery.Some? {
      deliveryMet := DateLe(row.delivery.value, today);
      if deliveryMet {
        progress := progress + DeliveryWeight;
      }
    }

    var allMilestonesMet := partsArrivalMet && installMet && testingMet && cleaningMet && deliveryMet;
    if allMilestonesMet {
      progress := 100;
    }
    progress := if progress < 100 then progress else 100;
    met := Milestones(partsArrivalMet, installMet, testingMet, cleaningMet, deliveryMet);
  }

  /** Every percentage is a multiple of ten in 0..100. */
  lemma ProgressInRange(row: Row, today: Date)
    ensures ProgressValue(ProgressOf(row, today))
  {
  }

  /** All five milestones met gives exactly 100; none met gives exactly 0. */
  lemma ProgressExtremes(row: Row, today: Date)
    ensures AllMet(MilestonesOf(row, today)) <==> ProgressOf(row, today) == 100
    ensures NoneMet(MilestonesOf(row, today)) <==> ProgressOf(row, today) == 0
  {
  }

  /** A milestone once met stays met as today advances. */
  lemma DateMetMonotone(d: Option<Date>, today: Date, later: Date)
    requires DateLe(today, later)
    requires DateMet(d, today)
    ensures DateMet(d, later)
  {
    DateLeTransitive(d.value, today, later);
  }

  /** With the row fixed, the percentage never goes down as today advances. */
  lemma ProgressMonotone(row: Row, today: Date, later: Date)
    requires DateLe(today, later)
    ensures ProgressOf(row, today) <= ProgressOf(row, later)
  {
    if DateMet(row.partsArrival, today) { DateMetMonotone(row.partsArrival, today, later); }
    if DateMet(row.installationComplete, today) { DateMetMonotone(row.installationComplete, today, later); }
    if DateMet(row.testing, today) { DateMetMonotone(row.testing, today, later); }
    if DateMet(row.delivery, today) { DateMetMonotone(row.delivery, today, later); }
  }
}
