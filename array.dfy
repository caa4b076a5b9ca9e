/**
 * The values utilities of the chart library: `extent`, `find`,
 * `numericExtent` and `sumPositiveValues`.
 */
module ArrayUtil {
  import opened Wrappers

  /**
   * A JavaScript value as the extent functions see it, strings aside.
   * `Missing` stands for both `null` and `undefined`; numbers are integers here, with the two
   * infinities and NaN kept because the comparisons treat them specially;
   * a `Date` compares by its time stamp.
   */
  datatype Value = Missing | NotANumber | Finite(n: int) | Infinite(positive: bool) | Date(time: int)

  /** `v != null && v >= v`: a value that takes part in comparisons (NaN does not). */
  predicate Comparable(v: Value)
    ensures Comparable(v) <==> v != Missing && v != NotANumber
  {
    v.Finite? || v.Infinite? || v.Date?
  }

  /** The position of a comparable value among -Infinity, the finite values and +Infinity. */
  function Tier(v: Value): int {
    if v.Infinite? then (if v.positive then 2 else 0) else 1
  }

  /** The number a finite value or a date stands for. */
  function Key(v: Value): int {
    match v
    case Finite(n) => n
    case Date(t) => t
    case _ => 0
  }

  /** JavaScript's `a < b`: false as soon as either side is NaN or missing, and never true of a value and itself. */
  predicate Below(a: Value, b: Value)
    ensures Below(a, b) ==> Comparable(a) && Comparable(b) && a != b
  {
    Comparable(a) && Comparable(b) &&
    (Tier(a) < Tier(b) || (Tier(a) == 1 && Tier(b) == 1 && Key(a) < Key(b)))
  }

  /**
   * On comparable values `<` is a strict order: asymmetric, transitive, and
   * relating any two values unless they are the same infinity or stand for
   * the same number.
   */
  lemma BelowOrder(a: Value, b: Value, c: Value)
    ensures Below(a, b) ==> !Below(b, a)
    ensures Below(a, b) && Below(b, c) ==> Below(a, c)
    ensures Comparable(a) && Comparable(b) && !Below(a, b) && !Below(b, a) ==>
              Tier(a) == Tier(b) && (Tier(a) == 1 ==> Key(a) == Key(b))
  {
  }

  /** `lo` and `hi` bound every comparable value of `values[..n]`. */
  ghost predicate Bounds(values: seq<Value>, n: nat, lo: Value, hi: Value)
    requires n <= |values|
  {
    forall k :: 0 <= k < n && Comparable(values[k]) ==> !Below(values[k], lo) && !Below(hi, values[k])
  }

  /**
   * `extent(values)`: the least and the greatest comparable value, or
   * `undefined` when there is none. Both are elements of the input.
   */
  method Extent(values: seq<Value>) returns (r: Option<(Value, Value)>)
    ensures r.None? <==> forall k :: 0 <= k < |values| ==> !Comparable(values[k])
    ensures r.Some? ==> r.value.0 in values && r.value.1 in values
    ensures r.Some? ==> Comparable(r.value.0) && Comparable(r.value.1)
    ensures r.Some? ==> Bounds(values, |values|, r.value.0, r.value.1)
  {
    var n := |values|;
    var min: Option<Value> := None;
    var max: Option<Value> := None;
    // `i` holds the index after each `++i` of `extent`
    var i := 0;
    while i < n
      invariant 0 <= i <= n + 1
      invariant min.None? <==> max.None?
      invariant min.None? ==> i <= n && forall k :: 0 <= k < i ==> !Comparable(values[k])
      invariant min.Some? ==> i == n + 1
      invariant min.Some? ==> min.value in values && max.value in values
      invariant min.Some? ==> Comparable(min.value) && Comparable(max.value)
      invariant min.Some? ==> Bounds(values, n, min.value, max.value)
    {
      var value := values[i];
      if Comparable(value) {
        // the first comparable value
        min, max := Some(value), Some(value);
        i := i + 1;
        while i < n
          invariant 0 < i <= n
          invariant min.Some? && max.Some?
          invariant min.value in values && max.value in values
          invariant Comparable(min.value) && Comparable(max.value)
          invariant !Below(max.value, min.value)
          invariant Bounds(values, i, min.value, max.value)
        {
          value := values[i];
          if value != Missing {
            if Below(value, min.value) {
              min := Some(value);
            }
            if Below(max.value, value) {
              max := Some(value);
            }
          }
          i := i + 1;
        }
      }
      i := i + 1;
    }
    r := if min.None? || max.None? then None else Some((min.value, max.value));
  }

  /**
   * `find(arr, predicate)`: the first element the predicate `matches` accepts, or
   * `undefined` when it accepts none. The predicate is given the element,
   * its index and the whole values, as `find` passes them to its callback.
   */
  method Find<T>(arr: seq<T>, matches: (T, int, seq<T>) -> bool) returns (r: Option<T>)
    ensures r.None? <==> forall k :: 0 <= k < |arr| ==> !matches(arr[k], k, arr)
    ensures r.Some? ==> exists k :: 0 <= k < |arr| && arr[k] == r.value && matches(arr[k], k, arr) &&
                                    forall j :: 0 <= j < k ==> !matches(arr[j], j, arr)
  {
    var i := 0;
    var ln := |arr|;
    while i < ln
      invariant 0 <= i <= ln
      invariant forall j :: 0 <= j < i ==> !matches(arr[j], j, arr)
    {
      var value := arr[i];
      if matches(value, i, arr) {
        return Some(value);
      }
      i := i + 1;
    }
    return None;
  }

  /** `a instanceof Date ? a.getTime() : a`. */
  function ToNumber(v: Value): (r: Value)
    ensures !r.Date?
    ensures Comparable(r) <==> Comparable(v)
    ensures Comparable(v) ==> Tier(r) == Tier(v) && Key(r) == Key(v)
  {
    if v.Date? then Finite(v.time) else v
  }

  /**
   * `numericExtent(values)`: the extent as two finite numbers, dates turned
   * into their time stamps. It is `undefined` exactly when there is no
   * comparable value or an infinity among the values (an infinity is then
   * the least or the greatest value).
   */
  method NumericExtent(values: seq<Value>) returns (r: Option<(int, int)>)
    ensures r.None? <==> (forall k :: 0 <= k < |values| ==> !Comparable(values[k])) ||
                         (exists k :: 0 <= k < |values| && values[k].Infinite?)
    ensures r.Some? ==> r.value.0 <= r.value.1
    ensures r.Some? ==> forall k :: 0 <= k < |values| && Comparable(values[k]) ==> r.value.0 <= Key(values[k]) <= r.value.1
    ensures r.Some? ==> exists k :: 0 <= k < |values| && Comparable(values[k]) && Key(values[k]) == r.value.0
    ensures r.Some? ==> exists k :: 0 <= k < |values| && Comparable(values[k]) && Key(values[k]) == r.value.1
  {
    var calculatedExtent := Extent(values);
    if calculatedExtent.None? {
      return None;
    }
    var (a, b) := calculatedExtent.value;
    var min := ToNumber(a);
    var max := ToNumber(b);
    if min.Finite? && max.Finite? {
      r := Some((min.n, max.n));
    } else {
      r := None;
    }
  }

  /** The callback of `sumPositiveValues`'s `reduce`: the running total grows by the value only when the value is positive. */
  function AddIfPositive(total: int, value: int): (r: int)
    ensures r == total || r == total + value
    ensures r > total <==> value > 0
    ensures value <= 0 ==> r == total
  {
    if value > 0 then total + value else total
  }

  /** `array.reduce(AddIfPositive, total)`: a left fold from the first element to the last. */
  function Reduce(values: seq<int>, total: int): (r: int)
    ensures r >= total
    ensures (forall k :: 0 <= k < |values| ==> values[k] <= 0) ==> r == total
  {
    if values == [] then total else Reduce(values[1..], AddIfPositive(total, values[0]))
  }

  /** The strictly positive elements, in order. */
  function Positives(s: seq<int>): (r: seq<int>)
    ensures forall x :: x in r <==> x in s && x > 0
    ensures |r| <= |s|
  {
    if s == [] then []
    else if s[0] > 0 then [s[0]] + Positives(s[1..])
    else Positives(s[1..])
  }

  function Sum(s: seq<int>): int {
    if s == [] then 0 else s[0] + Sum(s[1..])
  }

  /** Folding from `total` adds exactly the sum of the positive elements to it. */
  lemma {:induction false} ReduceAddsPositives(values: seq<int>, total: int)
    ensures Reduce(values, total) == total + Sum(Positives(values))
  {
    if values != [] {
      ReduceAddsPositives(values[1..], AddIfPositive(total, values[0]));
    }
  }

  /** A sum of positive numbers is never negative, and it is 0 only for the empty sequence. */
  lemma {:induction false} SumOfPositives(s: seq<int>)
    requires forall x :: x in s ==> x > 0
    ensures Sum(s) >= 0
    ensures Sum(s) == 0 <==> s == []
  {
    if s != [] {
      assert s[0] in s;
      assert forall x :: x in s[1..] ==> x in s;
      SumOfPositives(s[1..]);
    }
  }

  /**
   * `sumPositiveValues(array)`: the sum of the strictly positive elements;
   * never negative, and 0 exactly when no element is positive.
   */
  function SumPositiveValues(values: seq<int>): (r: int)
    ensures r == Sum(Positives(values))
    ensures r >= 0
    ensures r == 0 <==> forall k :: 0 <= k < |values| ==> values[k] <= 0
  {
    ReduceAddsPositives(values, 0);
    SumOfPositives(Positives(values));
    assert (forall k :: 0 <= k < |values| ==> values[k] <= 0) <==> Positives(values) == [] by {
      if Positives(values) != [] {
        assert Positives(values)[0] in values;
      } else {
        forall k | 0 <= k < |values| ensures values[k] <= 0 {
          assert values[k] !in Positives(values);
        }
      }
    }
    Reduce(values, 0)
  }
}
