/** The dashboard figures of the enrollments page (the total, the number of
    active enrollments, the average progress rounded half-up) and the
    progress values its selector offers. */
module EnrollmentsPage {
  import opened ArrayOps
  import opened EnrollmentSchema
  import opened EnrollmentRoutes

  /** What the page reads of an enrollment: its status and its progress,
      which the answer may lack. */
  datatype Row = Row(status: Status, progress: Option<int>)

  predicate IsActive(r: Row) {
    r.status == Active
  }

  /** `enrollments.filter(e => e.status === 'active').length`. */
  function ActiveCount(rows: seq<Row>): (n: nat)
    ensures n <= |rows|
  {
    |Filter(rows, IsActive)|
  }

  /** The active count equals the total exactly when every enrollment is
      active, and is 0 exactly when none is. */
  lemma ActiveCountExtremes(rows: seq<Row>)
    ensures ActiveCount(rows) == |rows| <==> forall i :: 0 <= i < |rows| ==> rows[i].status == Active
    ensures ActiveCount(rows) == 0 <==> forall i :: 0 <= i < |rows| ==> rows[i].status != Active
  {
    FilterLength(rows, IsActive);
  }

  /** `e.progress || 0`: a missing progress counts as 0. */
  function ProgressOf(r: Row): int {
    match r.progress
    case Some(p) => p
    case None => 0
  }

  ghost predicate ProgressesInRange(rows: seq<Row>) {
    forall i :: 0 <= i < |rows| ==> MinProgress <= ProgressOf(rows[i]) <= MaxProgress
  }

  /** The `reduce` sum, from the left. When every progress is in [0, 100]
      the sum lies in [0, 100 * length]. */
  function ProgressSum(rows: seq<Row>): (sum: int)
    ensures ProgressesInRange(rows) ==> 0 <= sum <= MaxProgress * |rows|
    decreases |rows|
  {
    if |rows| == 0 then 0
    else ProgressSum(rows[..|rows| - 1]) + ProgressOf(rows[|rows| - 1])
  }

  /** `Math.round(num / den)` for a positive denominator: the nearest
      integer, halves rounded up. */
  function RoundHalfUp(num: int, den: int): (r: int)
    requires den > 0
    ensures 2 * den * r <= 2 * num + den < 2 * den * (r + 1)
  {
    (2 * num + den) / (2 * den)
  }

  /** The average progress: 0 for an empty list, otherwise the sum over
      the length rounded half-up. */
  function AverageProgress(rows: seq<Row>): (avg: int)
    ensures |rows| == 0 ==> avg == 0
    ensures |rows| > 0 ==> 2 * |rows| * avg <= 2 * ProgressSum(rows) + |rows| < 2 * |rows| * (avg + 1)
  {
    if |rows| > 0 then RoundHalfUp(ProgressSum(rows), |rows|) else 0
  }

  /** A positive factor can be cancelled from a strict inequality. */
  lemma CancelFactor(k: int, x: int, y: int)
    requires k > 0 && k * x < k * y
    ensures x < y
  {
  }

  /** When every progress is in [0, 100], so is the average. */
  lemma AverageInRange(rows: seq<Row>)
    requires ProgressesInRange(rows)
    ensures MinProgress <= AverageProgress(rows) <= MaxProgress
  {
    if |rows| > 0 {
      var n, avg, sum := |rows|, AverageProgress(rows), ProgressSum(rows);
      assert 2 * n * avg < 2 * n * 101;
      CancelFactor(2 * n, avg, 101);
      assert 2 * n * (-1) < 2 * n * (avg + 1);
      CancelFactor(2 * n, -1, avg + 1);
    }
  }

  /** The values of the progress selector. */
  const ProgressOptions: seq<int> := [0, 10, 20, 30, 40, 50, 60, 70, 80, 90, 100]

  /** The selector offers the eleven multiples of 10 from 0 to 100, in
      order, and each passes the server's range guard. */
  lemma ProgressOptionsPassGuard()
    ensures |ProgressOptions| == 11
    ensures forall i :: 0 <= i < |ProgressOptions| ==> ProgressOptions[i] == 10 * i
    ensures forall i :: 0 <= i < |ProgressOptions| ==> !ProgressRejected(ProgressOptions[i])
  {
  }
}
