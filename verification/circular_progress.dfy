/**
 The completion ring: the percentage of completed tasks and the rounded number
 shown in its centre. Numbers are exact rationals here.
 */
module CircularProgress {

  /** `total === 0 ? 0 : (completed / total) * 100` */
  function Percentage(completed: int, total: int): (r: real)
    ensures total == 0 ==> r == 0.0
    ensures total != 0 ==> r * total as real == 100.0 * completed as real
    ensures completed == 0 ==> r == 0.0
    ensures total != 0 && completed == total ==> r == 100.0
    ensures 0 <= completed <= total ==> 0.0 <= r <= 100.0
  {
    if total == 0 then 0.0
    else
      var r := (completed as real / total as real) * 100.0;
      assert r * total as real == 100.0 * completed as real;
      assert 0 <= completed <= total ==> r <= 100.0 by {
        if 0 <= completed <= total {
          assert completed as real / total as real <= 1.0;
        }
      }
      r
  }

  /** `Math.round`: the nearest integer, halves rounding up. */
  function Round(x: real): (n: int)
    ensures n as real - 0.5 <= x < n as real + 0.5
  {
    (x + 0.5).Floor
  }

  /** The number displayed in the ring. With `0 <= completed <= total` it is a whole
      percentage between 0 and 100. */
  function DisplayedPercentage(completed: int, total: int): (n: int)
    ensures 0 <= completed <= total ==> 0 <= n <= 100
    ensures completed == 0 || total == 0 ==> n == 0
    ensures total != 0 && completed == total ==> n == 100
  {
    Round(Percentage(completed, total))
  }

  /** More completed tasks never show a smaller percentage. */
  lemma PercentageMonotonic(c1: int, c2: int, total: int)
    requires 0 < total
    requires c1 <= c2
    ensures Percentage(c1, total) <= Percentage(c2, total)
  {
    var t := total as real;
    assert c1 as real / t <= c2 as real / t by {
      assert c2 as real / t - c1 as real / t == (c2 - c1) as real / t;
    }
  }
}
