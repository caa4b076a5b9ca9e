/**
 * The two computations behind the chart's tooltip element: its class
 * attribute and the horizontal flip that keeps it inside its container.
 */
module Tooltip {
  import opened Wrappers

  /** The class every chart tooltip carries. */
  const DefaultClass: string := "ag-chart-tooltip"

  /**
   * `parts.join(separator)`: empty for no parts, the part itself for one,
   * and otherwise a string that starts with the first part.
   */
  function Join(parts: seq<string>, separator: string): (r: string)
    ensures parts == [] ==> r == ""
    ensures |parts| == 1 ==> r == parts[0]
    ensures parts != [] ==> parts[0] <= r
  {
    if parts == [] then ""
    else if |parts| == 1 then parts[0]
    else parts[0] + separator + Join(parts[1..], separator)
  }

  /**
   * Joining from the other end: a further part is appended after the
   * separator, so the joined string ends with its last part.
   */
  lemma {:induction false} JoinSnoc(parts: seq<string>, separator: string, last: string)
    requires parts != []
    ensures Join(parts + [last], separator) == Join(parts, separator) + separator + last
  {
    if |parts| > 1 {
      assert (parts + [last])[1..] == parts[1..] + [last];
      JoinSnoc(parts[1..], separator, last);
    } else {
      assert (parts + [last])[1..] == [last];
    }
  }

  /** The class list: the default class, then the user class, then `visible` when the tooltip is shown. */
  function ClassList(userClass: string, visible: bool): (r: seq<string>)
    ensures |r| >= 2 && r[0] == DefaultClass && r[1] == userClass
    ensures |r| == 3 <==> visible
    ensures visible ==> r[2] == "visible"
  {
    [DefaultClass, userClass] + (if visible then ["visible"] else [])
  }

  /** The class attribute written to the tooltip element. */
  function ClassAttr(userClass: string, visible: bool): string {
    Join(ClassList(userClass, visible), " ")
  }

  /**
   * The attribute names the default class first and the user class second,
   * and ends in ` visible` exactly when the tooltip is shown: the shown and
   * hidden attributes differ only by that suffix.
   */
  lemma ClassAttrLayout(userClass: string, visible: bool)
    ensures ClassAttr(userClass, visible) ==
            DefaultClass + " " + userClass + (if visible then " visible" else "")
    ensures ClassAttr(userClass, true) == ClassAttr(userClass, false) + " visible"
    ensures ClassAttr(userClass, true) != ClassAttr(userClass, false)
  {
    var shown := ClassList(userClass, true);
    assert shown[1..] == [userClass, "visible"];
    assert shown[1..][1..] == ["visible"];
    assert Join(shown[1..], " ") == userClass + " " + "visible";
    assert ClassAttr(userClass, true) == DefaultClass + " " + (userClass + " " + "visible");
    var hidden := ClassList(userClass, false);
    assert hidden == [DefaultClass, userClass];
    assert hidden[1..] == [userClass];
    assert Join(hidden[1..], " ") == userClass;
    assert ClassAttr(userClass, false) == DefaultClass + " " + userClass;
    assert |ClassAttr(userClass, true)| == |ClassAttr(userClass, false)| + 8;
  }

  /**
   * The left edge of the tooltip: `offsetX` to the right of the pointer, or,
   * when the container is known and that would overflow its right edge, flipped
   * so that the tooltip ends at the pointer. `pageXOffset` is the page's
   * horizontal scroll.
   */
  function TooltipLeft(pageX: int, offsetX: int, width: int, container: Option<int>, pageXOffset: int): (left: int)
    ensures left == pageX + offsetX || left + width == pageX
    ensures left != pageX + offsetX ==> container.Some? && pageX + offsetX - pageXOffset + width > container.value
    ensures container.Some? && pageX + offsetX - pageXOffset + width > container.value ==> left + width == pageX
    ensures container.Some? && pageX - pageXOffset <= container.value ==> left - pageXOffset + width <= container.value
  {
    var left := pageX + offsetX;
    if container.Some? && left - pageXOffset + width > container.value then left - (width + offsetX) else left
  }
}
