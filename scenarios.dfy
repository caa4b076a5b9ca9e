/**
 * Short concrete runs of the model: the result `addSeriesAfter` reports when
 * it adds a series to a fresh chart, and `numericExtent` on values that hold
 * a finite number next to an infinity.
 */
module Scenarios {
  import opened Charts
  import opened Wrappers
  import ArrayUtil

  /**
   * `addSeriesAfter` on an empty chart adds the series and still reports
   * `false`; the corrected method reports `true` for the same call.
   */
  method AddSeriesAfterResult() returns (c: Chart, a: Series, asWritten: bool, corrected: bool)
    ensures c.series == [a] && !asWritten
    ensures corrected
  {
    c := new Chart(800, 600, true, Bottom);
    a := new Series("a", true, true, true, []);
    asWritten := c.AddSeriesAfter(a, null);
    var d := new Chart(800, 600, true, Bottom);
    var e := new Series("a", true, true, true, []);
    corrected := d.AddSeriesAfterReporting(e, null);
  }

  /**
   * `numericExtent([1, Infinity])` is `undefined` although 1 is a finite
   * number: `extent` returns `[1, Infinity]` and the maximum fails the
   * finiteness test.
   */
  method NumericExtentWithInfinity() returns (r: Option<(int, int)>)
    ensures r.None?
  {
    var values := [ArrayUtil.Finite(1), ArrayUtil.Infinite(true)];
    r := ArrayUtil.NumericExtent(values);
    assert values[1].Infinite?;
  }
}
