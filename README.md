# Chart lifecycle, array utilities and marker setters, in Dafny

This project models three parts of the grid-charts library:

- The `Chart` coordinator (`chart.ts`):
  - the ordered series list and the scene groups that mirror it (`addSeries`, `addSeriesAfter`, `removeSeries`, `removeAllSeries`);
  - the `layoutPending` and `dataPending` flags, each backed by one scheduled callback;
  - the data pass that processes visible series and rebuilds the legend;
  - the auto-padding change detection in `positionCaptions` and `positionLegend`;
  - the size and padding setters;
  - the pointer state behind highlighting and the tooltip (`pickSeriesNode`, `onMouseMove`, `onMouseOut`, `onClick`, `onSeriesNodePick`, `tooltipClass`, `toggleTooltip`, `showTooltip`, `hideTooltip`).
- The value utilities in `util/array.ts`: `extent`, `find`, `numericExtent` and `sumPositiveValues`.
- The change-detecting `x`, `y` and `size` setters of `Marker` (`marker.ts`), which mark the path dirty.

The files:

- `chart.dfy` (module `Charts`) holds `Chart` and `Series` as classes.
  - The host's animation-frame and timeout queues are the field `host`. Each request gets a fresh positive handle; 0 means "no callback".
  - Every call the chart makes into a series, the scene or the layout hook is appended to the field `calls`, in order.
  - Hit tests, tooltip HTML, the legend's point lookup and measured sizes are parameters.
- `lists.dfy` (module `Lists`) states `indexOf`, `splice` and the scene group's `insertBefore`/`removeChild` on sequences.
- `tooltip.dfy` (module `Tooltip`) holds the class attribute and the flip-left rule of the tooltip.
- `array.dfy` (module `ArrayUtil`) holds the array utilities.
- `marker.dfy` (module `Markers`) holds the marker class.
- `scenarios.dfy` (module `Scenarios`) holds two concrete runs: `AddSeriesAfterResult`, where `addSeriesAfter` adds a series to a fresh chart and reports `false`, and `NumericExtentWithInfinity`, where `numericExtent([1, Infinity])` is `undefined`.

`Chart.Valid()` is the invariant every operation keeps. It has four parts:

1. No series is listed twice, the scene's group order equals the series order, and every listed series points back at the chart.
2. Each pending flag owns exactly its handle: the host holds a frame request exactly when `layoutCallbackId` is set, and a timeout exactly when `dataCallbackId` is set, and no other request.
3. The highlighting produced by the `calls` made so far is exactly the current pick: either nothing is highlighted, or only the pick's node in the pick's series is.
4. The tooltip's class list is the default class, then the user class, then `visible` when the tooltip is shown.

Behaviour of the code worth noting:

- Setting `dataPending` does not cancel a layout frame that was already scheduled. A layout can therefore run before a pending data pass (`SetDataPending` keeps `host.frames`).
- Moving from a node to empty space dehighlights the pick twice. `onMouseMove` calls `dehighlightNode`, and then `hideTooltip` does so again through `toggleTooltip(false)`.
- `numericExtent`'s doc comment (array.ts:42-44) says it is `undefined` only when no finite number is present. The code also gives `undefined` whenever an infinity is among the values, as for `[1, Infinity]`: `extent` makes `Infinity` the maximum and `isFinite` rejects it (array.ts:58). `NumericExtent` follows the code, and `Scenarios.NumericExtentWithInfinity` shows that input.
- A new pick is detected by comparing nodes only (`lastPick.node !== node`). Scene nodes are values with an id that is taken to be unique across the scene.

## Model

| member | source | states |
|---|---|---|
| Lists.IndexOf | enterprise-modules/grid-charts/src/charts/chart/chart.ts:140-144 | `indexOf`: -1 exactly when the element is absent, otherwise the first position holding it |
| Lists.IndexOfDistinct | enterprise-modules/grid-charts/src/charts/chart/chart.ts:194 | in a list without duplicates, `indexOf` of the element at `k` is `k` |
| Lists.InsertKeepsDistinct | enterprise-modules/grid-charts/src/charts/chart/chart.ts:146 | splicing in an absent element keeps the list free of duplicates |
| Lists.RemoveAtKeepsDistinct | enterprise-modules/grid-charts/src/charts/chart/chart.ts:197 | `splice(index, 1)` keeps the list free of duplicates and leaves the removed element absent |
| Lists.SpliceShape | enterprise-modules/grid-charts/src/charts/chart/chart.ts:146 | `splice(i, 0, x)` puts `x` at `i`, keeps what precedes and shifts what follows up by one; `splice(i, 1)` shifts what follows down by one |
| Lists.InsertBeforeShape | enterprise-modules/grid-charts/src/charts/chart/chart.ts:147 | `insertBefore(child, ref)` adds one child, immediately in front of `ref` when `ref` is a child; a `ref` that is not a child is assumed to put it last, a case the chart never reaches |
| Lists.RemoveChildShape | enterprise-modules/grid-charts/src/charts/chart/chart.ts:199 | `removeChild` changes nothing when the child is absent, otherwise removes exactly one element and keeps every other child; without duplicates the child is then gone |
| Lists.RemoveChildUndoesInsert | enterprise-modules/grid-charts/src/charts/chart/chart.ts:193-205 | after inserting an absent element at `i`, `indexOf` finds it at `i`, and removing it gives back the original list |
| Lists.InsertPlacement | enterprise-modules/grid-charts/src/charts/chart/chart.ts:143-151 | inserting at `i` equals `insertBefore` the element at `i`, a push when `i` is the end, and an unshift when `i` is 0; it adds exactly that element and keeps the list duplicate-free |
| ArrayUtil.Extent | enterprise-modules/grid-charts/src/charts/util/array.ts:6-30 | undefined exactly when no value is non-null and self-comparable; otherwise min and max are comparable elements of the input bounding every comparable element |
| ArrayUtil.Find | enterprise-modules/grid-charts/src/charts/util/array.ts:33-40 | undefined exactly when the predicate accepts no element; otherwise the element at the smallest accepted index |
| ArrayUtil.Comparable | enterprise-modules/grid-charts/src/charts/util/array.ts:14 | `v != null && v >= v`: exactly `null`, `undefined` and NaN are left out |
| ArrayUtil.Below | enterprise-modules/grid-charts/src/charts/util/array.ts:18-23 | JavaScript `<`: true only of two comparable values, and never of a value and itself |
| ArrayUtil.BelowOrder | enterprise-modules/grid-charts/src/charts/util/array.ts:18-23 | on comparable values `<` is asymmetric and transitive, and relates any two values unless they are the same infinity or stand for the same number |
| ArrayUtil.ToNumber | enterprise-modules/grid-charts/src/charts/util/array.ts:55-56 | no date is left; a value is comparable after the conversion exactly when it was before, and keeps its place in the order |
| ArrayUtil.NumericExtent | enterprise-modules/grid-charts/src/charts/util/array.ts:47-61 | undefined exactly when no value is comparable or an infinity is present; otherwise `[a, b]` with `a <= b`, both attained, bounding every comparable element's number |
| ArrayUtil.Positives | enterprise-modules/grid-charts/src/charts/util/array.ts:64 | holds exactly the strictly positive elements and is no longer than the input |
| ArrayUtil.AddIfPositive | enterprise-modules/grid-charts/src/charts/util/array.ts:64 | the `reduce` callback: the total grows by the value when it is positive and stays as it is otherwise |
| ArrayUtil.Reduce | enterprise-modules/grid-charts/src/charts/util/array.ts:64 | the left fold of the callback never ends below its start, and ends at it when no value is positive |
| ArrayUtil.ReduceAddsPositives | enterprise-modules/grid-charts/src/charts/util/array.ts:64 | the `reduce` fold from `total` adds exactly the sum of the positive elements |
| ArrayUtil.SumOfPositives | enterprise-modules/grid-charts/src/charts/util/array.ts:63-65 | a sum of positive numbers is non-negative, and 0 only for the empty sequence |
| ArrayUtil.SumPositiveValues | enterprise-modules/grid-charts/src/charts/util/array.ts:63-65 | equals the sum of the strictly positive elements; non-negative; 0 exactly when no element is positive |
| Markers.Abs | enterprise-modules/grid-charts/src/charts/chart/marker/marker.ts:29 | `Math.abs`: non-negative and equal to the value or its negation |
| Markers.Marker.constructor | enterprise-modules/grid-charts/src/charts/chart/marker/marker.ts:4-26 | defaults `x = 0`, `y = 0`, `size = 4` |
| Markers.Marker.SetX | enterprise-modules/grid-charts/src/charts/chart/marker/marker.ts:5-10 | the same value changes nothing, not even `dirtyPath`; a new one is stored and dirties the path; `y` and `size` are kept |
| Markers.Marker.SetY | enterprise-modules/grid-charts/src/charts/chart/marker/marker.ts:16-21 | as `SetX`, for `y` |
| Markers.Marker.SetSize | enterprise-modules/grid-charts/src/charts/chart/marker/marker.ts:27-32 | a value different from the stored size stores its magnitude and dirties the path, so `-size` keeps the size but dirties the path; the same value changes nothing; `size >= 0` is kept |
| Tooltip.Join | enterprise-modules/grid-charts/src/charts/chart/chart.ts:564 | `join`: empty for no parts, the part itself for one, and otherwise a string starting with the first part |
| Tooltip.JoinSnoc | enterprise-modules/grid-charts/src/charts/chart/chart.ts:564 | appending a part to a non-empty list appends the separator and that part to the joined string |
| Tooltip.ClassList | enterprise-modules/grid-charts/src/charts/chart/chart.ts:557-560 | the default class, then the user class, then `visible` exactly when shown |
| Tooltip.ClassAttrLayout | enterprise-modules/grid-charts/src/charts/chart/chart.ts:556-565 | the class attribute is the default class, a space and the user class, followed by ` visible` exactly when shown |
| Tooltip.TooltipLeft | enterprise-modules/grid-charts/src/charts/chart/chart.ts:586-597 | the tooltip sits `offset` right of the pointer, or ends at the pointer; it flips exactly when a known container would be overflowed; whenever the pointer is within a known container, so is the tooltip's right edge |
| Charts.HighlightsPrefix | enterprise-modules/grid-charts/src/charts/chart/chart.ts:526-565 | later calls do not change the highlighting produced by earlier ones |
| Charts.HighlightsSnoc | enterprise-modules/grid-charts/src/charts/chart/chart.ts:526-565 | one more call advances the highlighting by one step |
| Charts.NeutralCalls | enterprise-modules/grid-charts/src/charts/chart/chart.ts:299-332 | calls other than highlight and dehighlight (data processing, render cancelling, layout) leave the highlighting unchanged |
| Charts.NeutralPrefix | enterprise-modules/grid-charts/src/charts/chart/chart.ts:317-332 | `NeutralCalls` for every prefix of the further calls |
| Charts.PickTransition | enterprise-modules/grid-charts/src/charts/chart/chart.ts:526-536 | dehighlighting the previous pick and highlighting a new one leaves exactly the new pick highlighted; dehighlighting once or twice clears everything |
| Charts.DehighlightClears | enterprise-modules/grid-charts/src/charts/chart/chart.ts:560-562 | dehighlighting the pick's series clears all highlighting, whether or not it was still highlighted |
| Charts.ProcessCallsVisible | enterprise-modules/grid-charts/src/charts/chart/chart.ts:320-324 | the data pass asks a series to process its data exactly when it is visible, makes no other call, and makes no more calls than there are series |
| Charts.ProcessCallsOnce | enterprise-modules/grid-charts/src/charts/chart/chart.ts:320-324 | in a list without duplicates, every call is for a listed series and no call is made twice: at most one call per series |
| Charts.LegendEntriesShown | enterprise-modules/grid-charts/src/charts/chart/chart.ts:325-331 | a legend entry is listed exactly when a series shown in the legend lists it |
| Charts.FirstWithId | enterprise-modules/grid-charts/src/charts/chart/chart.ts:518 | the first series with the id, or -1 exactly when no series has it |
| Charts.TopmostHitIsFrontmost | enterprise-modules/grid-charts/src/charts/chart/chart.ts:466-478 | the pick is empty exactly when no series is hit; otherwise it is the hit of the highest-index series hit |
| Charts.WithEdge | enterprise-modules/grid-charts/src/charts/chart/chart.ts:399-441 | the legend's edge of the auto-padding takes the new value; every other edge is kept |
| Charts.Chart.constructor | enterprise-modules/grid-charts/src/charts/chart/chart.ts:20-55 | no series, nothing scheduled, no pick, auto-paddings 0, padding 20, tooltip offset `(20, 20)`; the user tooltip class is `""`, so the class list is the default class and `""`; the invariant holds |
| Charts.Chart.LayoutPending | enterprise-modules/grid-charts/src/charts/chart/chart.ts:279-281 | `layoutPending`: under the invariant, true exactly when a frame request is outstanding |
| Charts.Chart.DataPending | enterprise-modules/grid-charts/src/charts/chart/chart.ts:306-308 | `dataPending`: under the invariant, true exactly when a timeout is outstanding |
| Charts.Chart.RequestAnimationFrame | enterprise-modules/grid-charts/src/charts/chart/chart.ts:268 | a fresh handle, one above the last, is added to the outstanding frames |
| Charts.Chart.CancelAnimationFrame | enterprise-modules/grid-charts/src/charts/chart/chart.ts:271 | the handle is no longer an outstanding frame |
| Charts.Chart.SetTimeout | enterprise-modules/grid-charts/src/charts/chart/chart.ts:303 | a fresh handle, one above the last, is added to the outstanding timeouts |
| Charts.Chart.ClearTimeout | enterprise-modules/grid-charts/src/charts/chart/chart.ts:296 | the handle is no longer an outstanding timeout |
| Charts.Chart.SetLayoutPending | enterprise-modules/grid-charts/src/charts/chart/chart.ts:264-274 | true schedules exactly one fresh frame when neither flag is pending, and nothing otherwise; false cancels the outstanding frame and zeroes the handle; the invariant holds |
| Charts.Chart.SetDataPending | enterprise-modules/grid-charts/src/charts/chart/chart.ts:293-305 | the outstanding timeout is always cancelled; true then cancels the scene render and schedules exactly one fresh timeout, so at most one is outstanding; frames are not touched |
| Charts.Chart.Attach | enterprise-modules/grid-charts/src/charts/chart/chart.ts:143-154 | the series is spliced in at `index` and its group is placed before the group now at `index` (appended at the end); it points back at the chart; removing it gives back the old list |
| Charts.Chart.AddSeries | enterprise-modules/grid-charts/src/charts/chart/chart.ts:138-159 | true exactly when the series was absent; then it is inserted at `before`'s index, or appended when `before` is absent; the list grows by one and the others keep their order; data becomes pending; otherwise nothing changes |
| Charts.Chart.AddSeriesAfter | enterprise-modules/grid-charts/src/charts/chart/chart.ts:161-191 | as written: always returns false; an absent series is inserted right after `after`, or first when `after` is absent, and data becomes pending; a present one changes nothing |
| Charts.Chart.AddSeriesAfterReporting | enterprise-modules/grid-charts/src/charts/chart/chart.ts:161-191 | corrected: true exactly when the series was added, with the same placement; the list grows by one, the render is cancelled and data becomes pending; otherwise nothing changes |
| Charts.Chart.RemoveSeries | enterprise-modules/grid-charts/src/charts/chart/chart.ts:193-205 | true exactly when the series was present; then exactly that element is removed from the list and the scene, detached, and data becomes pending; otherwise nothing changes |
| Charts.Chart.RemoveAllSeries | enterprise-modules/grid-charts/src/charts/chart/chart.ts:207-214 | every former series is detached and nothing else of it changes, the list and the scene are emptied, and data becomes pending |
| Charts.Chart.VisitSeries | enterprise-modules/grid-charts/src/charts/chart/chart.ts:320-328 | the walk makes the data-processing calls of the visible series and gathers the legend entries of the series shown in it, both in series order |
| Charts.Chart.ProcessData | enterprise-modules/grid-charts/src/charts/chart/chart.ts:317-332 | the legend data becomes the gathered entries and the visible series are processed; afterwards a layout is pending exactly when no data pass is, on a fresh handle |
| Charts.Chart.OnTimeout | enterprise-modules/grid-charts/src/charts/chart/chart.ts:310-315 | only the outstanding data callback runs; it clears its handle and runs the data pass, which rebuilds the legend data (its enabled flag and position are kept) and leaves a layout pending; other handles change nothing |
| Charts.Chart.OnAnimationFrame | enterprise-modules/grid-charts/src/charts/chart/chart.ts:283-291 | only the outstanding layout callback runs; it clears its handle, sizes the background to the chart, and runs the layout and then the listener, if set; with the layout taken not to call back into the chart, no layout is pending afterwards |
| Charts.Chart.PositionCaptions | enterprise-modules/grid-charts/src/charts/chart/chart.ts:368-371 | the caption padding takes the new value, and a layout is requested only when it changed |
| Charts.Chart.PositionLegend | enterprise-modules/grid-charts/src/charts/chart/chart.ts:374-443 | a disabled or empty legend changes nothing; otherwise its edge takes the bbox height (top, bottom) or width (left, right), and a layout is requested only when the value changed |
| Charts.Chart.SetSize | enterprise-modules/grid-charts/src/charts/chart/chart.ts:234-237 | width and height are stored and a layout is requested |
| Charts.Chart.SetWidth | enterprise-modules/grid-charts/src/charts/chart/chart.ts:245-248 | width is stored, height kept, and a layout requested |
| Charts.Chart.SetHeight | enterprise-modules/grid-charts/src/charts/chart/chart.ts:256-259 | height is stored, width kept, and a layout requested |
| Charts.Chart.SetPadding | enterprise-modules/grid-charts/src/charts/chart/chart.ts:225-229 | the padding is stored and a layout is requested |
| Charts.Chart.OnLayoutChange | enterprise-modules/grid-charts/src/charts/chart/chart.ts:68-70 | a layout is requested |
| Charts.Chart.OnLegendPositionChange | enterprise-modules/grid-charts/src/charts/chart/chart.ts:72-75 | the legend auto-padding is cleared on every edge and a layout is requested |
| Charts.Chart.PickSeriesNode | enterprise-modules/grid-charts/src/charts/chart/chart.ts:462-479 | the descending loop returns the topmost hit |
| Charts.Chart.ToggleTooltip | enterprise-modules/grid-charts/src/charts/chart/chart.ts:556-565 | the class list is rebuilt for the current class and visibility; hiding dehighlights the pick, if there is one, and forgets it; showing keeps the pick |
| Charts.Chart.HideTooltip | enterprise-modules/grid-charts/src/charts/chart/chart.ts:601-603 | the tooltip is hidden, and the pick is dehighlighted and forgotten |
| Charts.Chart.SetTooltipClass | enterprise-modules/grid-charts/src/charts/chart/chart.ts:545-551 | a different class is stored, the tooltip hidden and the pick forgotten; the same class changes nothing |
| Charts.Chart.ShowTooltip | enterprise-modules/grid-charts/src/charts/chart/chart.ts:571-599 | new HTML is written, and shown when not empty; without HTML an empty tooltip stays put; otherwise it is placed at the pointer with the flip rule; the pick is kept |
| Charts.Chart.OnSeriesNodePick | enterprise-modules/grid-charts/src/charts/chart/chart.ts:526-543 | the previous pick is dehighlighted, the new one is highlighted and becomes current; the tooltip is shown with non-empty HTML from a series with tooltips enabled, and kept otherwise |
| Charts.Chart.OnMouseMove | enterprise-modules/grid-charts/src/charts/chart/chart.ts:486-506 | a new shape becomes the pick, and the tooltip is shown with its series' HTML when that series has tooltips enabled and the HTML is not empty, and kept otherwise; the same node only moves a non-empty tooltip; a non-shape changes nothing; no hit dehighlights the pick twice, hides the tooltip and forgets the pick |
| Charts.Chart.OnMouseOut | enterprise-modules/grid-charts/src/charts/chart/chart.ts:508-510 | the tooltip is hidden, and the pick is dehighlighted and forgotten |
| Charts.Chart.OnClick | enterprise-modules/grid-charts/src/charts/chart/chart.ts:512-524 | a legend entry under the click toggles that item on the first series with the entry's id, to the opposite of its enabled state; otherwise no call is made |
| Scenarios.NumericExtentWithInfinity | enterprise-modules/grid-charts/src/charts/util/array.ts:47-61 | `numericExtent([1, Infinity])` is `undefined`, although 1 is finite |
| Scenarios.AddSeriesAfterResult | enterprise-modules/grid-charts/src/charts/chart/chart.ts:161-191 | on an empty chart `addSeriesAfter` adds the series yet returns false; the corrected method returns true |

## Left out

- DOM and browser plumbing is not modelled: creating and removing the tooltip element, `getBoundingClientRect`, `parentElement` lookups, and setting up and cleaning up listeners (`destroy`, `setupListeners`, `cleanupListeners`). Measured sizes and the container width are parameters instead. The cleanup also removes the `mouseout` listener with the wrong handler, but that is pure I/O.
- `requestAnimationFrame`, `setTimeout` and their cancel functions are abstract handle allocation. No time passes. The host running a callback is modelled by `OnAnimationFrame` and `OnTimeout`, which take the handle it runs.
- Scene-graph internals are not modelled (`Scene`, `Group`, `Node`, `Shape`, `Rect`, `Caption`, `Legend` layout, `performLayout`). The scene sub-tree under the series root is the sequence of its groups. Collaborator calls are the `calls` log.
- Series internals are not part of this model: rendering, `processData`, `listSeriesItems`, highlighting and tooltip HTML. A series exposes only the attributes the chart reads.
- Geometry is not modelled: the caption offsets and bbox sums in `positionCaptions`, and the translations, `/ 2` and `Math.floor` in `positionLegend`. Both are floating-point. Only their change-detecting tails are modelled, with integer sizes.
- Numbers are unbounded integers, not IEEE doubles. `extent` keeps NaN and the infinities as separate values because its comparisons treat them specially.
- The `title`, `subtitle`, `data` and `parent` setters are not modelled. They exchange `Caption` objects, series data and DOM parents, none of which is part of this model.
- `Padding` (util/padding.ts) is not part of this model. `new Padding()` is taken as all zeros, `new Padding(20)` as 20 on every edge, and `clear()` as zeroing every edge.
- The legend's initial `enabled` and `position` belong to the legend, so the constructor takes them as parameters.
- The background rectangle's size before the first layout is not modelled.
- The tooltip's position before the first `showTooltip` is not modelled. `chart.ts` never sets `style.left` or `style.top` before then (chart.ts:50-52, 597-598); the constructor starts it at `(0, 0)` only to have a value.
- OnAnimationFrame: the layout (`performLayout`) and the `onLayoutDone` listener are logged calls that are taken not to call back into the chart, so the frame is promised to leave no layout pending. In `chart.ts` the layout runs `positionCaptions` and `positionLegend`, which request a new layout when a padding changed (chart.ts:368-371, 399-441). Because `_performLayout` zeroes the handle first (chart.ts:284), that request schedules a fresh frame, unless a data pass is pending. `PositionCaptions` and `PositionLegend` state that step on their own, but the frame does not run it.
- The public `series` setter and getter (chart.ts:131-136) are not modelled. The setter replaces the list without touching the scene or the back-references, and the getter hands out the live list that `addSeries` changes in place. `Valid()` part 1 holds only while no caller uses either of them.
- A series whose `processData` or `listSeriesItems` throws is not modelled. In `chart.ts` the exception escapes after `dataCallbackId` has been zeroed (chart.ts:313) and `layoutPending` set to false (chart.ts:318), so neither pass is pending and the legend is stale. `OnTimeout` leaving a layout pending holds only for series that do not throw.
- Strings are not values of `extent` here. `extent<T>` (array.ts:6-30) also compares strings, lexicographically, and coerces them when they are mixed with numbers; `Value` has no strings.
- Scene nodes are compared by an id that is assumed unique. The model cannot express two distinct node objects that look alike.

## Findings

| source | as written | input that shows it | evidently intended | confidence | as-written member | corrected member |
|---|---|---|---|---|---|---|
| enterprise-modules/grid-charts/src/charts/chart/chart.ts:161-191 | `addSeriesAfter` returns `false` on every path, including the one that adds the series | a series not yet in the chart (for example the first series of an empty chart, with no `after`) | return `true` when the series was added, as `addSeries` and `removeSeries` do | not executed | Charts.Chart.AddSeriesAfter | Charts.Chart.AddSeriesAfterReporting |
