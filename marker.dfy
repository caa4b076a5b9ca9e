/**
 * The change-detecting coordinate and size setters of a chart marker shape.
 * `dirtyPath` is the flag the marker inherits from its path shape: setting it
 * tells the shape to rebuild its path before the next render.
 */
module Markers {

  function Abs(v: int): (r: int)
    ensures r >= 0 && (r == v || r == -v)
  {
    if v < 0 then -v else v
  }

  class Marker {
    var x: int
    var y: int
    var size: int
    var dirtyPath: bool

    /** The size is never negative: the setter stores magnitudes only. */
    ghost predicate Valid()
      reads this
    {
      size >= 0
    }

    /**
     * A marker at the origin with size 4. The initial `dirtyPath` belongs to
     * the path shape, which is not part of this model, so it is given.
     */
    constructor (dirtyPath: bool)
      ensures Valid()
      ensures x == 0 && y == 0 && size == 4
      ensures this.dirtyPath == dirtyPath
    {
      x, y, size := 0, 0, 4;
      this.dirtyPath := dirtyPath;
    }

    /** Setting `x` to its current value changes nothing; another value is stored and marks the path dirty. */
    method SetX(value: int)
      requires Valid()
      modifies this
      ensures Valid()
      ensures x == value
      ensures old(x) == value ==> unchanged(this)
      ensures old(x) != value ==> dirtyPath
      ensures y == old(y) && size == old(size)
    {
      if x != value {
        x := value;
        dirtyPath := true;
      }
    }

    /** Setting `y` behaves as setting `x` does. */
    method SetY(value: int)
      requires Valid()
      modifies this
      ensures Valid()
      ensures y == value
      ensures old(y) == value ==> unchanged(this)
      ensures old(y) != value ==> dirtyPath
      ensures x == old(x) && size == old(size)
    {
      if y != value {
        y := value;
        dirtyPath := true;
      }
    }

    /**
     * A value that differs from the stored size stores its magnitude and marks
     * the path dirty, so setting `-size` keeps the size and still dirties the
     * path; the stored value itself changes nothing.
     */
    method SetSize(value: int)
      requires Valid()
      modifies this
      ensures Valid()
      ensures old(size) == value ==> unchanged(this)
      ensures old(size) != value ==> size == Abs(value) && dirtyPath
      ensures x == old(x) && y == old(y)
    {
      if size != value {
        size := Abs(value);
        dirtyPath := true;
      }
    }
  }
}
