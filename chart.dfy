/**
 * The chart lifecycle coordinator: the ordered series list kept in step with
 * the scene sub-tree, the two pending flags with their scheduled callbacks,
 * the data pass that rebuilds the legend, the caption and legend auto-padding
 * change detection, and the pointer state that drives highlighting and the
 * tooltip.
 *
 * Collaborators are abstract. The host's animation-frame and timeout queues
 * are the `host` field, each request getting a fresh positive handle (0 means
 * none). Calls into series, the scene and the layout hook are appended to
 * `calls`, in the order the chart makes them. Hit tests, tooltip HTML, the
 * legend's point lookup and measured sizes are parameters.
 */
module Charts {
  import opened Wrappers
  import opened Lists
  import Tooltip
  import ArrayUtil

  datatype LegendDatum = LegendDatum(id: string, itemId: string, enabled: bool)

  datatype LegendPosition = Top | Right | Bottom | Left

  datatype Padding = Padding(top: int, right: int, bottom: int, left: int)

  /** The legend as the chart sees it: its entries, whether it is enabled and where it sits. */
  datatype Legend = Legend(data: seq<LegendDatum>, enabled: bool, position: LegendPosition)

  /** A scene node found by a hit test; only shapes can be highlighted. */
  datatype SceneNode = SceneNode(id: nat, isShape: bool)

  /** A pointer event: coordinates relative to the canvas and to the page. */
  datatype MouseEvent = MouseEvent(offsetX: int, offsetY: int, pageX: int, pageY: int)

  /**
   * What the page reports when the tooltip is placed: the tooltip's measured
   * width, the width of the element that contains the tooltip's parent (none
   * when there is no such element) and the horizontal scroll.
   */
  datatype Surface = Surface(tooltipWidth: int, containerWidth: Option<int>, pageXOffset: int)

  /**
   * The tooltip element: its HTML, the class list its class attribute was
   * last written from, and its page position.
   */
  datatype TooltipElement = TooltipElement(html: string, classList: seq<string>, left: int, top: int)

  /** The host's outstanding animation-frame and timeout requests and the last handle it gave out. */
  datatype Host = Host(frames: set<nat>, timers: set<nat>, lastHandle: nat)

  /** The current pick: a series and the node of it under the pointer. */
  datatype Pick = Pick(series: Series, node: SceneNode)

  /** A call the chart makes into one of its collaborators. */
  datatype Call =
    | ProcessSeriesData(series: Series)
    | HighlightNode(series: Series, node: SceneNode)
    | DehighlightNode(series: Series)
    | ToggleSeriesItem(series: Series, itemId: string, enabled: bool)
    | CancelRender
    | PerformLayout
    | LayoutDone

  /** The outstanding requests a callback handle stands for. */
  function Outstanding(handle: nat): set<nat> {
    if handle == 0 then {} else {handle}
  }

  /**
   * Which series have a node highlighted: none, exactly the series of one
   * pick (with that node), or more than one series at once.
   */
  datatype Highlighting = Clear | One(pick: Pick) | Several

  /**
   * What a call does to the highlighting: highlighting a node of the
   * highlighted series (or of any series when none is) makes that node the
   * highlighted one, highlighting a second series makes several, and
   * dehighlighting the highlighted series clears it. Once several series are
   * highlighted the state is not tracked further.
   */
  function HighlightStep(h: Highlighting, c: Call): Highlighting {
    match c
    case HighlightNode(s, n) => if h.Clear? || (h.One? && h.pick.series == s) then One(Pick(s, n)) else Several
    case DehighlightNode(s) => if h.One? && h.pick.series == s then Clear else h
    case _ => h
  }

  /** The highlighting after the given calls, starting from none. */
  function Highlights(calls: seq<Call>): Highlighting {
    HighlightsUpTo(calls, |calls|)
  }

  /** The highlighting after the first `n` calls. */
  function HighlightsUpTo(calls: seq<Call>, n: nat): Highlighting
    requires n <= |calls|
  {
    if n == 0 then Clear else HighlightStep(HighlightsUpTo(calls, n - 1), calls[n - 1])
  }

  /** The highlighting a pick stands for: its node in its series, and nothing else. */
  function PickHighlights(p: Option<Pick>): Highlighting {
    if p.None? then Clear else One(p.value)
  }

  /** The dehighlight call made for the previous pick, if there is one. */
  function Dehighlights(p: Option<Pick>): seq<Call> {
    if p.None? then [] else [DehighlightNode(p.value.series)]
  }

  /** Calls made later do not change the highlighting after the earlier ones. */
  lemma {:induction false} HighlightsPrefix(calls: seq<Call>, more: seq<Call>, n: nat)
    requires n <= |calls|
    ensures HighlightsUpTo(calls + more, n) == HighlightsUpTo(calls, n)
  {
    if n > 0 {
      HighlightsPrefix(calls, more, n - 1);
    }
  }

  /** One more call takes the highlighting one step further. */
  lemma HighlightsSnoc(calls: seq<Call>, c: Call)
    ensures Highlights(calls + [c]) == HighlightStep(Highlights(calls), c)
  {
    HighlightsPrefix(calls, [c], |calls|);
  }

  /** Calls other than highlighting and dehighlighting leave the highlighting as it is. */
  lemma NeutralCalls(calls: seq<Call>, more: seq<Call>)
    requires forall c :: c in more ==> !c.HighlightNode? && !c.DehighlightNode?
    ensures Highlights(calls + more) == Highlights(calls)
  {
    NeutralPrefix(calls, more, |more|);
  }

  /** `NeutralCalls` for the first `k` of the further calls. */
  lemma {:induction false} NeutralPrefix(calls: seq<Call>, more: seq<Call>, k: nat)
    requires forall c :: c in more ==> !c.HighlightNode? && !c.DehighlightNode?
    requires k <= |more|
    ensures HighlightsUpTo(calls + more, |calls| + k) == Highlights(calls)
  {
    if k == 0 {
      HighlightsPrefix(calls, more, |calls|);
    } else {
      NeutralPrefix(calls, more, k - 1);
      assert (calls + more)[|calls| + k - 1] == more[k - 1];
      assert more[k - 1] in more;
    }
  }

  /**
   * Leaving a pick and entering another, or leaving it for nothing, leaves
   * exactly the new pick highlighted.
   */
  lemma {:induction false} PickTransition(calls: seq<Call>, previous: Option<Pick>, next: Option<Pick>)
    requires Highlights(calls) == PickHighlights(previous)
    ensures next.Some? ==>
      Highlights(calls + Dehighlights(previous) + [HighlightNode(next.value.series, next.value.node)]) == PickHighlights(next)
    ensures Highlights(calls + Dehighlights(previous)) == Clear
    ensures Highlights(calls + Dehighlights(previous) + Dehighlights(previous)) == Clear
  {
    var once := calls + Dehighlights(previous);
    if previous.Some? {
      HighlightsSnoc(calls, DehighlightNode(previous.value.series));
      HighlightsSnoc(once, DehighlightNode(previous.value.series));
    } else {
      assert once == calls;
      assert once + Dehighlights(previous) == calls;
    }
    if next.Some? {
      HighlightsSnoc(once, HighlightNode(next.value.series, next.value.node));
    }
  }

  /**
   * Dehighlighting the pick's series clears all highlighting, whether the
   * pick was still highlighted or already cleared.
   */
  lemma DehighlightClears(calls: seq<Call>, p: Pick)
    requires Highlights(calls) == PickHighlights(Some(p)) || Highlights(calls) == Clear
    ensures Highlights(calls + [DehighlightNode(p.series)]) == Clear
  {
    HighlightsSnoc(calls, DehighlightNode(p.series));
  }

  /** The calls the data pass makes: the visible series process their data, in order. */
  function ProcessCalls(ss: seq<Series>): seq<Call>
    reads ss
  {
    ProcessedUpTo(ss, |ss|)
  }

  /** The data-processing calls for the first `n` series. */
  function ProcessedUpTo(ss: seq<Series>, n: nat): seq<Call>
    requires n <= |ss|
    reads ss
  {
    if n == 0 then []
    else ProcessedUpTo(ss, n - 1) + (if ss[n - 1].visible then [ProcessSeriesData(ss[n - 1])] else [])
  }

  /** The legend entries of the series shown in the legend, concatenated in series order. */
  function LegendEntries(ss: seq<Series>): seq<LegendDatum>
    reads ss
  {
    EntriesUpTo(ss, |ss|)
  }

  /** The legend entries of the first `n` series. */
  function EntriesUpTo(ss: seq<Series>, n: nat): seq<LegendDatum>
    requires n <= |ss|
    reads ss
  {
    if n == 0 then []
    else EntriesUpTo(ss, n - 1) + (if ss[n - 1].showInLegend then ss[n - 1].legendItems else [])
  }

  /**
   * Of the first `n` series, the data pass processes the data of a series
   * exactly when it is visible, and makes no other call.
   */
  lemma {:induction false} ProcessCallsVisible(ss: seq<Series>, n: nat)
    requires n <= |ss|
    ensures forall c :: c in ProcessedUpTo(ss, n) ==> c.ProcessSeriesData? && c.series in ss && c.series.visible
    ensures forall j :: 0 <= j < n && ss[j].visible ==> ProcessSeriesData(ss[j]) in ProcessedUpTo(ss, n)
    ensures |ProcessedUpTo(ss, n)| <= n
  {
    if n > 0 {
      ProcessCallsVisible(ss, n - 1);
    }
  }

  /**
   * In a list without duplicates, the data pass over the first `n` series asks
   * each series at most once: every call is for one of those series, and no
   * call is made twice.
   */
  lemma {:induction false} ProcessCallsOnce(ss: seq<Series>, n: nat)
    requires n <= |ss| && NoDuplicates(ss)
    ensures forall c :: c in ProcessedUpTo(ss, n) ==> exists j :: 0 <= j < n && c == ProcessSeriesData(ss[j])
    ensures NoDuplicates(ProcessedUpTo(ss, n))
  {
    if n > 0 {
      ProcessCallsOnce(ss, n - 1);
      var prev := ProcessedUpTo(ss, n - 1);
      if ss[n - 1].visible {
        var x := ProcessSeriesData(ss[n - 1]);
        forall c | c in prev ensures c != x {
          var j :| 0 <= j < n - 1 && c == ProcessSeriesData(ss[j]);
          assert ss[j] != ss[n - 1];
        }
        var t := prev + [x];
        forall a, b | 0 <= a < b < |t| ensures t[a] != t[b] {
          if b == |prev| {
            assert t[a] in prev;
          }
        }
      }
    }
  }

  /**
   * A legend entry is listed exactly when one of the first `n` series is
   * shown in the legend and lists it; each such series contributes all its
   * items.
   */
  lemma {:induction false} LegendEntriesShown(ss: seq<Series>, n: nat)
    requires n <= |ss|
    ensures forall d :: d in EntriesUpTo(ss, n) <==> exists j :: 0 <= j < n && ss[j].showInLegend && d in ss[j].legendItems
  {
    if n > 0 {
      LegendEntriesShown(ss, n - 1);
    }
  }

  /** The position of the first series at or after `from` with the given id, or -1 when there is none. */
  function FirstWithId(ss: seq<Series>, id: string, from: nat): (k: int)
    requires from <= |ss|
    ensures k == -1 || from <= k < |ss|
    ensures k == -1 <==> forall j :: from <= j < |ss| ==> ss[j].id != id
    ensures 0 <= k ==> ss[k].id == id && forall j :: from <= j < k ==> ss[j].id != id
    decreases |ss| - from
  {
    if from == |ss| then -1
    else if ss[from].id == id then from
    else FirstWithId(ss, id, from + 1)
  }

  /** The topmost series hit at the point: series are tried from the last (frontmost) to the first. */
  function TopmostHit(ss: seq<Series>, hit: (Series, int, int) -> Option<SceneNode>, x: int, y: int): Option<Pick> {
    HitBelow(ss, hit, x, y, |ss|)
  }

  /** The topmost hit among the first `n` series. */
  function HitBelow(ss: seq<Series>, hit: (Series, int, int) -> Option<SceneNode>, x: int, y: int, n: nat): Option<Pick>
    requires n <= |ss|
  {
    if n == 0 then None
    else
      var node := hit(ss[n - 1], x, y);
      if node.Some? then Some(Pick(ss[n - 1], node.value)) else HitBelow(ss, hit, x, y, n - 1)
  }

  /**
   * Among the first `n` series, the pick is empty exactly when no series is
   * hit; otherwise it is the hit of the highest-index series that has one,
   * so of two overlapping series the later one wins.
   */
  lemma {:induction false} TopmostHitIsFrontmost(ss: seq<Series>, hit: (Series, int, int) -> Option<SceneNode>, x: int, y: int, n: nat)
    requires n <= |ss|
    ensures HitBelow(ss, hit, x, y, n).None? <==> forall k :: 0 <= k < n ==> hit(ss[k], x, y).None?
    ensures HitBelow(ss, hit, x, y, n).Some? ==>
      exists k :: 0 <= k < n && hit(ss[k], x, y).Some? &&
        HitBelow(ss, hit, x, y, n) == Some(Pick(ss[k], hit(ss[k], x, y).value)) &&
        forall j :: k < j < n ==> hit(ss[j], x, y).None?
  {
    if n > 0 {
      TopmostHitIsFrontmost(ss, hit, x, y, n - 1);
    }
  }

  /** The auto-padding of the edge the legend sits on. */
  function Edge(p: Padding, position: LegendPosition): int {
    match position
    case Top => p.top
    case Right => p.right
    case Bottom => p.bottom
    case Left => p.left
  }

  /** The auto-padding with the legend's edge set to `v`. */
  function WithEdge(p: Padding, position: LegendPosition, v: int): (r: Padding)
    ensures Edge(r, position) == v
    ensures forall other :: other != position ==> Edge(r, other) == Edge(p, other)
  {
    match position
    case Top => p.(top := v)
    case Right => p.(right := v)
    case Bottom => p.(bottom := v)
    case Left => p.(left := v)
  }

  /**
   * The extent the legend claims on its edge: its height above or below the
   * plot, its width beside it.
   */
  function LegendExtent(position: LegendPosition, width: int, height: int): int {
    if position == Top || position == Bottom then height else width
  }

  /** The tooltip moved next to the pointer of `e`, flipped left when it would overflow. */
  function Placed(t: TooltipElement, e: MouseEvent, surface: Surface, offset: (int, int)): TooltipElement {
    t.(left := Tooltip.TooltipLeft(e.pageX, offset.0, surface.tooltipWidth, surface.containerWidth, surface.pageXOffset),
       top := e.pageY + offset.1)
  }

  /** A series as the chart sees it. Its rendering, data and legend layout are its own. */
  class Series {
    const id: string
    var visible: bool
    var showInLegend: bool
    var tooltipEnabled: bool
    /** The entries the series lists for the legend (`listSeriesItems`). */
    var legendItems: seq<LegendDatum>
    /** The back-reference to the owning chart, `null` when detached. */
    var chart: Chart?

    constructor (id: string, visible: bool, showInLegend: bool, tooltipEnabled: bool, legendItems: seq<LegendDatum>)
      ensures this.id == id && this.visible == visible && this.showInLegend == showInLegend
      ensures this.tooltipEnabled == tooltipEnabled && this.legendItems == legendItems
      ensures chart == null
    {
      this.id := id;
      this.visible := visible;
      this.showInLegend := showInLegend;
      this.tooltipEnabled := tooltipEnabled;
      this.legendItems := legendItems;
      chart := null;
    }
  }

  class Chart {
    /** The series, back to front: the last one paints on top. */
    var series: seq<Series>
    /** The groups under the series root, in sibling order, each named by the series that owns it. */
    var sceneOrder: seq<Series>
    var legend: Legend
    /** The padding around the chart's contents. */
    var padding: Padding
    var legendAutoPadding: Padding
    /** The top padding the captions take. */
    var captionAutoPadding: int
    var width: int
    var height: int
    /** The background rectangle's width and height. */
    var background: (int, int)
    var layoutCallbackId: nat
    var dataCallbackId: nat
    var host: Host
    /** Whether an `onLayoutDone` listener is set. */
    var onLayoutDone: bool
    var lastPick: Option<Pick>
    var tooltipOffset: (int, int)
    /** The user's tooltip class. */
    var tooltipClass: string
    var tooltip: TooltipElement
    /** The calls made into collaborators so far, oldest first. */
    var calls: seq<Call>

    /**
     * No series is listed twice, the scene's sibling order is the series
     * order, and every listed series points back at this chart.
     */
    ghost predicate SeriesValid()
      reads this`series, this`sceneOrder, series`chart
    {
      && NoDuplicates(series)
      && sceneOrder == series
      && forall s :: s in series ==> s.chart == this
    }

    /**
     * Each pending flag is backed by its handle alone: the host holds at most
     * one request per flag, and holds one exactly when the handle is set.
     */
    ghost predicate ScheduleValid()
      reads this`host, this`layoutCallbackId, this`dataCallbackId
    {
      && host.frames == Outstanding(layoutCallbackId)
      && host.timers == Outstanding(dataCallbackId)
      && layoutCallbackId <= host.lastHandle
      && dataCallbackId <= host.lastHandle
    }

    /** A series has a node highlighted only when it is the series of the current pick, and then that node. */
    ghost predicate PickValid()
      reads this`calls, this`lastPick
    {
      Highlights(calls) == PickHighlights(lastPick)
    }

    /** The class list is the full list for the current user class, shown or hidden. */
    ghost predicate TooltipValid()
      reads this`tooltip, this`tooltipClass
    {
      tooltip.classList == Tooltip.ClassList(tooltipClass, false) ||
      tooltip.classList == Tooltip.ClassList(tooltipClass, true)
    }

    ghost predicate Valid()
      reads this, series`chart
    {
      SeriesValid() && ScheduleValid() && PickValid() && TooltipValid()
    }

    /** `layoutPending`: true only while a layout callback waits to run. */
    predicate LayoutPending()
      reads this
      ensures ScheduleValid() ==> (LayoutPending() <==> host.frames != {})
    {
      layoutCallbackId != 0
    }

    /** `dataPending`: true only while a data callback waits to run. */
    predicate DataPending()
      reads this
      ensures ScheduleValid() ==> (DataPending() <==> host.timers != {})
    {
      dataCallbackId != 0
    }

    /**
     * The effect of requesting a layout: a fresh frame request when neither
     * flag was pending, nothing otherwise (the data pass requests it later).
     */
    twostate predicate LayoutRequested()
      reads this
    {
      if old(layoutCallbackId) == 0 && old(dataCallbackId) == 0 then
        layoutCallbackId == old(host.lastHandle) + 1 && host.lastHandle == layoutCallbackId &&
        dataCallbackId == 0 && host.timers == old(host.timers)
      else
        layoutCallbackId == old(layoutCallbackId) && dataCallbackId == old(dataCallbackId) && host == old(host)
    }

    /**
     * A chart with no series, nothing scheduled and no pick; the tooltip is
     * hidden and its user class empty. The legend's initial state belongs to
     * the legend and is given.
     */
    constructor (width: int, height: int, legendEnabled: bool, legendPosition: LegendPosition)
      ensures Valid()
      ensures series == [] && sceneOrder == []
      ensures legend == Legend([], legendEnabled, legendPosition)
      ensures padding == Padding(20, 20, 20, 20)
      ensures legendAutoPadding == Padding(0, 0, 0, 0) && captionAutoPadding == 0
      ensures this.width == width && this.height == height
      ensures layoutCallbackId == 0 && dataCallbackId == 0 && host == Host({}, {}, 0)
      ensures !onLayoutDone && lastPick.None? && calls == []
      ensures tooltipOffset == (20, 20) && tooltipClass == ""
      ensures tooltip == TooltipElement("", Tooltip.ClassList("", false), 0, 0)
    {
      series, sceneOrder := [], [];
      legend := Legend([], legendEnabled, legendPosition);
      padding := Padding(20, 20, 20, 20);
      legendAutoPadding, captionAutoPadding := Padding(0, 0, 0, 0), 0;
      this.width, this.height := width, height;
      layoutCallbackId, dataCallbackId := 0, 0;
      host := Host({}, {}, 0);
      onLayoutDone := false;
      lastPick := None;
      tooltipOffset := (20, 20);
      tooltipClass := "";
      tooltip := TooltipElement("", Tooltip.ClassList("", false), 0, 0);
      calls := [];
    }

    // ----- the host's scheduling primitives -----

    method RequestAnimationFrame() returns (handle: nat)
      modifies this`host
      ensures handle == old(host.lastHandle) + 1
      ensures host == Host(old(host.frames) + {handle}, old(host.timers), handle)
    {
      handle := host.lastHandle + 1;
      host := Host(host.frames + {handle}, host.timers, handle);
    }

    method CancelAnimationFrame(handle: nat)
      modifies this`host
      ensures host == old(host).(frames := old(host.frames) - {handle})
    {
      host := host.(frames := host.frames - {handle});
    }

    method SetTimeout() returns (handle: nat)
      modifies this`host
      ensures handle == old(host.lastHandle) + 1
      ensures host == Host(old(host.frames), old(host.timers) + {handle}, handle)
    {
      handle := host.lastHandle + 1;
      host := Host(host.frames, host.timers + {handle}, handle);
    }

    method ClearTimeout(handle: nat)
      modifies this`host
      ensures host == old(host).(timers := old(host.timers) - {handle})
    {
      host := host.(timers := host.timers - {handle});
    }

    // ----- the pending flags -----

    /**
     * Setting `layoutPending`: true schedules a layout callback only when none
     * is outstanding and no data pass is pending; false cancels the
     * outstanding one, if any.
     */
    method SetLayoutPending(value: bool)
      requires Valid()
      modifies `layoutCallbackId, `host
      ensures Valid()
      ensures value ==> LayoutRequested()
      ensures !value ==> layoutCallbackId == 0 && dataCallbackId == old(dataCallbackId) &&
                         host.lastHandle == old(host.lastHandle) && host.timers == old(host.timers)
    {
      if value {
        if !(layoutCallbackId != 0 || DataPending()) {
          layoutCallbackId := RequestAnimationFrame();
        }
      } else if layoutCallbackId != 0 {
        CancelAnimationFrame(layoutCallbackId);
        layoutCallbackId := 0;
      }
    }

    /**
     * Setting `dataPending`: the outstanding data callback is always cancelled
     * first; true then cancels the scene's pending render and schedules one new
     * data callback.
     */
    method SetDataPending(value: bool)
      requires Valid()
      modifies `dataCallbackId, `host, `calls
      ensures Valid()
      ensures value ==> dataCallbackId == old(host.lastHandle) + 1 && host.lastHandle == dataCallbackId &&
                        calls == old(calls) + [CancelRender]
      ensures !value ==> dataCallbackId == 0 && host.lastHandle == old(host.lastHandle) && calls == old(calls)
      ensures host.frames == old(host.frames)
    {
      if dataCallbackId != 0 {
        ClearTimeout(dataCallbackId);
        dataCallbackId := 0;
      }
      if value {
        calls := calls + [CancelRender];
        HighlightsSnoc(old(calls), CancelRender);
        dataCallbackId := SetTimeout();
      }
    }

    // ----- the series list -----

    /**
     * The attach step `addSeries` and `addSeriesAfter` share: the series is
     * inserted at `index` in the list, its group goes in front of the group
     * of the series now at `index` (last when `index` is the end), and it
     * points back at the chart. Nothing else changes.
     */
    method Attach(s: Series, index: nat)
      requires SeriesValid() && s !in series && index <= |series|
      modifies `series, `sceneOrder, s`chart
      ensures SeriesValid() && s.chart == this
      ensures series == Insert(old(series), index, s)
      ensures index == |old(series)| ==> series == old(series) + [s]
      ensures index == 0 ==> series == [s] + old(series)
      ensures RemoveChild(series, s) == old(series)
    {
      var allSeries := series;
      InsertPlacement(allSeries, index, s);
      if index < |allSeries| {
        sceneOrder := InsertBefore(sceneOrder, s, allSeries[index]);
      } else {
        sceneOrder := sceneOrder + [s];
      }
      series := Insert(allSeries, index, s);
      s.chart := this;
    }

    /**
     * `addSeries(series, before)`: refused when the series is already listed.
     * Otherwise it goes in front of `before` when `before` is listed, and last
     * otherwise, in the list and in the scene alike; it points back at the
     * chart and a data pass becomes pending. The other series keep their order.
     */
    method AddSeries(s: Series, before: Series?) returns (added: bool)
      requires Valid()
      modifies `series, `sceneOrder, `dataCallbackId, `host, `calls, s`chart
      ensures Valid()
      ensures added <==> s !in old(series)
      ensures !added ==> unchanged(this) && unchanged(s)
      ensures added ==> series == if before != null && before in old(series)
                                  then Insert(old(series), IndexOf(old(series), before), s)
                                  else old(series) + [s]
      ensures added ==> |series| == |old(series)| + 1 && RemoveChild(series, s) == old(series)
      ensures added ==> s.chart == this && DataPending() && calls == old(calls) + [CancelRender]
    {
      var allSeries := series;
      var canAdd := IndexOf(allSeries, s) < 0;
      if canAdd {
        var beforeIndex := if before != null then IndexOf(allSeries, before) else -1;
        Attach(s, if beforeIndex >= 0 then beforeIndex else |allSeries|);
        SetDataPending(true);
        return true;
      }
      return false;
    }

    /**
     * `addSeriesAfter(series, after)`: as `addSeries`, but the series goes
     * right after `after` when `after` is listed, and first otherwise. It
     * reports `false` whether or not it added the series.
     */
    method AddSeriesAfter(s: Series, after: Series?) returns (result: bool)
      requires Valid()
      modifies `series, `sceneOrder, `dataCallbackId, `host, `calls, s`chart
      ensures Valid()
      ensures !result
      ensures s in old(series) ==> unchanged(this) && unchanged(s)
      ensures s !in old(series) ==> series == if after != null && after in old(series)
                                              then Insert(old(series), IndexOf(old(series), after) + 1, s)
                                              else [s] + old(series)
      ensures s !in old(series) ==> |series| == |old(series)| + 1 && RemoveChild(series, s) == old(series)
      ensures s !in old(series) ==> s.chart == this && DataPending() && calls == old(calls) + [CancelRender]
    {
      var allSeries := series;
      var canAdd := IndexOf(allSeries, s) < 0;
      if canAdd {
        var afterIndex := if after != null then IndexOf(allSeries, after) else -1;
        Attach(s, afterIndex + 1);
        SetDataPending(true);
      }
      return false;
    }

    /**
     * `addSeriesAfter` with the result `addSeries` and `removeSeries` give:
     * true exactly when the series was added.
     */
    method AddSeriesAfterReporting(s: Series, after: Series?) returns (added: bool)
      requires Valid()
      modifies `series, `sceneOrder, `dataCallbackId, `host, `calls, s`chart
      ensures Valid()
      ensures added <==> s !in old(series)
      ensures !added ==> unchanged(this) && unchanged(s)
      ensures added ==> series == if after != null && after in old(series)
                                  then Insert(old(series), IndexOf(old(series), after) + 1, s)
                                  else [s] + old(series)
      ensures added ==> RemoveChild(series, s) == old(series) && s.chart == this && DataPending()
      ensures added ==> |series| == |old(series)| + 1 && calls == old(calls) + [CancelRender]
    {
      added := IndexOf(series, s) < 0;
      var _ := AddSeriesAfter(s, after);
    }

    /**
     * `removeSeries(series)`: true exactly when the series was listed; it is
     * then taken out of the list and the scene, detached, and a data pass
     * becomes pending. Otherwise nothing changes.
     */
    method RemoveSeries(s: Series) returns (removed: bool)
      requires Valid()
      modifies `series, `sceneOrder, `dataCallbackId, `host, `calls, s`chart
      ensures Valid()
      ensures removed <==> s in old(series)
      ensures !removed ==> unchanged(this) && unchanged(s)
      ensures removed ==> series == RemoveAt(old(series), IndexOf(old(series), s))
      ensures removed ==> |series| == |old(series)| - 1 && s !in series
      ensures removed ==> s.chart == null && DataPending() && calls == old(calls) + [CancelRender]
    {
      var index := IndexOf(series, s);
      if index >= 0 {
        RemoveAtKeepsDistinct(series, index);
        series := RemoveAt(series, index);
        s.chart := null;
        sceneOrder := RemoveChild(sceneOrder, s);
        SetDataPending(true);
        return true;
      }
      return false;
    }

    /**
     * `removeAllSeries()`: every series is detached and its group taken out of
     * the scene, the list is replaced by an empty one, and a data pass becomes
     * pending.
     */
    method RemoveAllSeries()
      requires Valid()
      modifies `series, `sceneOrder, `dataCallbackId, `host, `calls, series`chart
      ensures Valid()
      ensures series == [] && sceneOrder == []
      ensures forall s :: s in old(series) ==> s.chart == null
      ensures DataPending() && calls == old(calls) + [CancelRender]
    {
      var i := 0;
      while i < |series|
        invariant 0 <= i <= |series|
        invariant series == old(series) && NoDuplicates(series)
        invariant sceneOrder == series[i..]
        invariant forall j :: 0 <= j < i ==> series[j].chart == null
        invariant forall j :: i <= j < |series| ==> series[j].chart == this
        invariant dataCallbackId == old(dataCallbackId) && host == old(host) && calls == old(calls)
      {
        var s := series[i];
        s.chart := null;
        assert sceneOrder[0] == s;
        sceneOrder := RemoveChild(sceneOrder, s);
        assert sceneOrder == series[i + 1..];
        i := i + 1;
      }
      series := [];
      SetDataPending(true);
    }

    // ----- the data and layout passes -----

    /**
     * The walk over the series in `processData`: in series order, a visible
     * series is asked to process its data and a series shown in the legend
     * contributes its items. Returns the calls made and the legend entries
     * gathered.
     */
    method VisitSeries() returns (processed: seq<Call>, legendData: seq<LegendDatum>)
      ensures processed == ProcessCalls(series)
      ensures legendData == LegendEntries(series)
    {
      processed, legendData := [], [];
      var i := 0;
      while i < |series|
        invariant 0 <= i <= |series|
        invariant processed == ProcessedUpTo(series, i)
        invariant legendData == EntriesUpTo(series, i)
      {
        var s := series[i];
        if s.visible {
          processed := processed + [ProcessSeriesData(s)];
        }
        if s.showInLegend {
          legendData := legendData + s.legendItems;
        }
        i := i + 1;
      }
    }

    /**
     * `processData()`: the layout request is withdrawn, the visible series
     * process their data in order, the legend gets the entries of the series
     * shown in it, in order, and a layout is requested again, which is
     * scheduled unless a data pass is still pending.
     */
    method ProcessData()
      requires Valid()
      modifies `layoutCallbackId, `host, `calls, `legend
      ensures Valid()
      ensures legend == old(legend.(data := LegendEntries(series)))
      ensures calls == old(calls + ProcessCalls(series))
      ensures LayoutPending() <==> !DataPending()
      ensures LayoutPending() ==> layoutCallbackId == host.lastHandle && host.lastHandle > old(host.lastHandle)
      ensures host.timers == old(host.timers)
    {
      SetLayoutPending(false);
      var processed, legendData := VisitSeries();
      ProcessCallsVisible(series, |series|);
      NeutralCalls(calls, processed);
      calls := calls + processed;
      legend := legend.(data := legendData);
      SetLayoutPending(true);
    }

    /**
     * The host running the timeout with the given handle. Only the
     * outstanding data callback can run: it clears its handle and runs the
     * data pass, which leaves a layout pending. A cancelled or unknown handle
     * runs nothing.
     */
    method OnTimeout(handle: nat)
      requires Valid()
      modifies `layoutCallbackId, `dataCallbackId, `host, `calls, `legend
      ensures Valid()
      ensures handle !in old(host.timers) ==> unchanged(this)
      ensures handle in old(host.timers) ==> handle == old(dataCallbackId) && !DataPending() && LayoutPending()
      ensures handle in old(host.timers) ==>
        legend == old(legend.(data := LegendEntries(series))) && calls == old(calls + ProcessCalls(series))
    {
      if handle in host.timers {
        host := host.(timers := host.timers - {handle});
        dataCallbackId := 0;
        ProcessData();
      }
    }

    /**
     * The host running the animation frame with the given handle. Only the
     * outstanding layout callback can run: it clears its handle, sizes the
     * background to the chart, runs the layout and notifies the listener.
     */
    method OnAnimationFrame(handle: nat)
      requires Valid()
      modifies `layoutCallbackId, `host, `background, `calls
      ensures Valid()
      ensures handle !in old(host.frames) ==> unchanged(this)
      ensures handle in old(host.frames) ==> handle == old(layoutCallbackId) && !LayoutPending()
      ensures handle in old(host.frames) ==>
        background == (width, height) &&
        calls == old(calls) + [PerformLayout] + (if onLayoutDone then [LayoutDone] else [])
      ensures host.timers == old(host.timers)
    {
      if handle in host.frames {
        host := host.(frames := host.frames - {handle});
        layoutCallbackId := 0;
        background := (width, height);
        HighlightsSnoc(calls, PerformLayout);
        calls := calls + [PerformLayout];
        if onLayoutDone {
          HighlightsSnoc(calls, LayoutDone);
          calls := calls + [LayoutDone];
        }
      }
    }

    /**
     * The end of `positionCaptions`: the top padding the captions need is
     * stored and a layout requested only when it differs from the stored one,
     * so a layout that finds the same padding again does not trigger another.
     */
    method PositionCaptions(paddingTop: int)
      requires Valid()
      modifies `captionAutoPadding, `layoutCallbackId, `host
      ensures Valid()
      ensures captionAutoPadding == paddingTop
      ensures old(captionAutoPadding) == paddingTop ==> unchanged(this)
      ensures old(captionAutoPadding) != paddingTop ==> LayoutRequested()
    {
      if captionAutoPadding != paddingTop {
        captionAutoPadding := paddingTop;
        SetLayoutPending(true);
      }
    }

    /**
     * The auto-padding part of `positionLegend`: nothing happens when the
     * legend is disabled or empty. Otherwise the legend's measured size gives
     * the extent of its edge (height for top and bottom, width for left and
     * right); the edge's auto-padding takes it, and a layout is requested only
     * when it changed. The other edges keep theirs.
     */
    method PositionLegend(bboxWidth: int, bboxHeight: int)
      requires Valid()
      modifies `legendAutoPadding, `layoutCallbackId, `host
      ensures Valid()
      ensures !old(legend.enabled) || |old(legend.data)| == 0 ==> unchanged(this)
      ensures old(legend.enabled) && |old(legend.data)| > 0 ==>
        legendAutoPadding == WithEdge(old(legendAutoPadding), legend.position, LegendExtent(legend.position, bboxWidth, bboxHeight))
      ensures old(legend.enabled) && |old(legend.data)| > 0 ==>
        (Edge(old(legendAutoPadding), legend.position) == LegendExtent(legend.position, bboxWidth, bboxHeight) ==> unchanged(this))
      ensures old(legend.enabled) && |old(legend.data)| > 0 ==>
        (Edge(old(legendAutoPadding), legend.position) != LegendExtent(legend.position, bboxWidth, bboxHeight) ==> LayoutRequested())
    {
      if !legend.enabled || |legend.data| == 0 {
        return;
      }
      match legend.position {
        case Bottom =>
          if legendAutoPadding.bottom != bboxHeight {
            legendAutoPadding := legendAutoPadding.(bottom := bboxHeight);
            SetLayoutPending(true);
          }
        case Top =>
          if legendAutoPadding.top != bboxHeight {
            legendAutoPadding := legendAutoPadding.(top := bboxHeight);
            SetLayoutPending(true);
          }
        case Left =>
          if legendAutoPadding.left != bboxWidth {
            legendAutoPadding := legendAutoPadding.(left := bboxWidth);
            SetLayoutPending(true);
          }
        case Right =>
          if legendAutoPadding.right != bboxWidth {
            legendAutoPadding := legendAutoPadding.(right := bboxWidth);
            SetLayoutPending(true);
          }
      }
    }

    /** Setting `size`: the scene takes the new size and a layout is requested. */
    method SetSize(w: int, h: int)
      requires Valid()
      modifies `width, `height, `layoutCallbackId, `host
      ensures Valid()
      ensures width == w && height == h && LayoutRequested()
    {
      width, height := w, h;
      SetLayoutPending(true);
    }

    /** Setting `width`: the scene takes the new width and a layout is requested. */
    method SetWidth(w: int)
      requires Valid()
      modifies `width, `layoutCallbackId, `host
      ensures Valid()
      ensures width == w && height == old(height) && LayoutRequested()
    {
      width := w;
      SetLayoutPending(true);
    }

    /** Setting `height`: the scene takes the new height and a layout is requested. */
    method SetHeight(h: int)
      requires Valid()
      modifies `height, `layoutCallbackId, `host
      ensures Valid()
      ensures height == h && width == old(width) && LayoutRequested()
    {
      height := h;
      SetLayoutPending(true);
    }

    /** Setting `padding`: the new padding is stored and a layout is requested. */
    method SetPadding(value: Padding)
      requires Valid()
      modifies `padding, `layoutCallbackId, `host
      ensures Valid()
      ensures padding == value && LayoutRequested()
    {
      padding := value;
      SetLayoutPending(true);
    }

    /** The callback the legend and the captions call when their layout changes: a layout is requested. */
    method OnLayoutChange()
      requires Valid()
      modifies `layoutCallbackId, `host
      ensures Valid()
      ensures LayoutRequested()
    {
      SetLayoutPending(true);
    }

    /**
     * The callback the legend calls when it moves to another edge: the
     * legend auto-padding is cleared on every edge and a layout is requested.
     */
    method OnLegendPositionChange()
      requires Valid()
      modifies `legendAutoPadding, `layoutCallbackId, `host
      ensures Valid()
      ensures legendAutoPadding == Padding(0, 0, 0, 0) && LayoutRequested()
    {
      legendAutoPadding := Padding(0, 0, 0, 0);
      SetLayoutPending(true);
    }

    // ----- pointer input and the tooltip -----

    /**
     * `pickSeriesNode(x, y)`: the series are hit-tested from the last to the
     * first, and the first hit is the pick.
     */
    method PickSeriesNode(x: int, y: int, hit: (Series, int, int) -> Option<SceneNode>) returns (pick: Option<Pick>)
      ensures pick == TopmostHit(series, hit, x, y)
    {
      var allSeries := series;
      var i := |allSeries| - 1;
      while i >= 0
        invariant -1 <= i < |allSeries|
        invariant TopmostHit(allSeries, hit, x, y) == HitBelow(allSeries, hit, x, y, i + 1)
      {
        var s := allSeries[i];
        var node := hit(s, x, y);
        if node.Some? {
          return Some(Pick(s, node.value));
        }
        i := i - 1;
      }
      return None;
    }

    /**
     * `toggleTooltip(visible)`: the class attribute is rebuilt from the
     * default class, the user class and, when shown, `visible`. Hiding also
     * dehighlights and forgets the current pick.
     */
    method ToggleTooltip(visible: bool)
      requires SeriesValid() && ScheduleValid()
      requires PickValid() || (!visible && Highlights(calls) == Clear)
      modifies `calls, `lastPick, `tooltip
      ensures Valid()
      ensures tooltip == old(tooltip).(classList := Tooltip.ClassList(tooltipClass, visible))
      ensures visible ==> lastPick == old(lastPick) && calls == old(calls)
      ensures !visible ==> lastPick.None? && calls == old(calls) + Dehighlights(old(lastPick))
    {
      if !visible && lastPick.Some? {
        DehighlightClears(calls, lastPick.value);
        calls := calls + [DehighlightNode(lastPick.value.series)];
        lastPick := None;
      }
      tooltip := tooltip.(classList := Tooltip.ClassList(tooltipClass, visible));
    }

    /** `hideTooltip()`. */
    method HideTooltip()
      requires SeriesValid() && ScheduleValid()
      requires PickValid() || Highlights(calls) == Clear
      modifies `calls, `lastPick, `tooltip
      ensures Valid()
      ensures tooltip == old(tooltip).(classList := Tooltip.ClassList(tooltipClass, false))
      ensures lastPick.None? && calls == old(calls) + Dehighlights(old(lastPick))
    {
      ToggleTooltip(false);
    }

    /**
     * Setting `tooltipClass`: a different class is stored and the tooltip is
     * hidden, which also forgets the pick; the same class changes nothing.
     */
    method SetTooltipClass(value: string)
      requires Valid()
      modifies `tooltipClass, `calls, `lastPick, `tooltip
      ensures Valid()
      ensures tooltipClass == value
      ensures old(tooltipClass) == value ==> unchanged(this)
      ensures old(tooltipClass) != value ==>
        tooltip == old(tooltip).(classList := Tooltip.ClassList(value, false)) &&
        lastPick.None? && calls == old(calls) + Dehighlights(old(lastPick))
    {
      if tooltipClass != value {
        tooltipClass := value;
        ToggleTooltip(false);
      }
    }

    /**
     * `showTooltip(event, html)`: new HTML is written and, when not empty,
     * the tooltip is shown; without new HTML an empty tooltip stays where it
     * is. The tooltip is then placed at the pointer, flipped left when it
     * would overflow its container.
     */
    method ShowTooltip(e: MouseEvent, html: Option<string>, surface: Surface)
      requires Valid()
      modifies `calls, `lastPick, `tooltip
      ensures Valid()
      ensures html.None? && old(tooltip.html) == "" ==> unchanged(this)
      ensures !(html.None? && old(tooltip.html) == "") ==>
        tooltip == Placed(old(tooltip).(html := if html.Some? then html.value else old(tooltip.html),
                                        classList := if html.Some? && html.value != ""
                                                     then Tooltip.ClassList(tooltipClass, true)
                                                     else old(tooltip.classList)),
                          e, surface, tooltipOffset)
      ensures lastPick == old(lastPick) && calls == old(calls)
    {
      if html.Some? {
        tooltip := tooltip.(html := html.value);
      } else if tooltip.html == "" {
        return;
      }
      if html.Some? && html.value != "" {
        ToggleTooltip(true);
      }
      tooltip := Placed(tooltip, e, surface, tooltipOffset);
    }

    /**
     * `onSeriesNodePick(event, series, node)`: the previous pick is
     * dehighlighted, the new one becomes current and is highlighted, and the
     * tooltip is shown with the series' HTML when the series has tooltips
     * enabled and the HTML is not empty.
     */
    method OnSeriesNodePick(e: MouseEvent, s: Series, node: SceneNode,
                            tooltipHtml: (Series, SceneNode) -> string, surface: Surface)
      requires Valid()
      modifies `calls, `lastPick, `tooltip
      ensures Valid()
      ensures lastPick == Some(Pick(s, node))
      ensures calls == old(calls) + Dehighlights(old(lastPick)) + [HighlightNode(s, node)]
      ensures s.tooltipEnabled && tooltipHtml(s, node) != "" ==>
        tooltip == Placed(old(tooltip).(html := tooltipHtml(s, node), classList := Tooltip.ClassList(tooltipClass, true)),
                          e, surface, tooltipOffset)
      ensures !(s.tooltipEnabled && tooltipHtml(s, node) != "") ==> tooltip == old(tooltip)
    {
      PickTransition(calls, lastPick, Some(Pick(s, node)));
      if lastPick.Some? {
        calls := calls + [DehighlightNode(lastPick.value.series)];
      }
      assert calls == old(calls) + Dehighlights(old(lastPick));
      lastPick := Some(Pick(s, node));
      calls := calls + [HighlightNode(s, node)];
      assert Valid();
      var html := if s.tooltipEnabled then tooltipHtml(s, node) else "";
      if html != "" {
        ShowTooltip(e, Some(html), surface);
      }
    }

    /**
     * `onMouseMove(event)`: the topmost hit at the pointer decides.
     * A shape other than the current pick's node becomes the new pick; the
     * same node only moves the tooltip, when the series has tooltips enabled;
     * a hit that is not a shape changes nothing; no hit at all dehighlights
     * the current pick (once directly and once more through hiding the
     * tooltip), hides the tooltip and forgets the pick.
     */
    method OnMouseMove(e: MouseEvent, hit: (Series, int, int) -> Option<SceneNode>,
                       tooltipHtml: (Series, SceneNode) -> string, surface: Surface)
      requires Valid()
      modifies `calls, `lastPick, `tooltip
      ensures Valid()
      ensures var p := TopmostHit(series, hit, e.offsetX, e.offsetY);
        p.Some? && p.value.node.isShape && (old(lastPick).None? || old(lastPick).value.node != p.value.node) ==>
          lastPick == p &&
          calls == old(calls) + Dehighlights(old(lastPick)) + [HighlightNode(p.value.series, p.value.node)]
      ensures var p := TopmostHit(series, hit, e.offsetX, e.offsetY);
        p.Some? && p.value.node.isShape && (old(lastPick).None? || old(lastPick).value.node != p.value.node) ==>
          var shown := p.value.series.tooltipEnabled && tooltipHtml(p.value.series, p.value.node) != "";
          (shown ==> tooltip == Placed(old(tooltip).(html := tooltipHtml(p.value.series, p.value.node),
                                                     classList := Tooltip.ClassList(tooltipClass, true)),
                                       e, surface, tooltipOffset)) &&
          (!shown ==> tooltip == old(tooltip))
      ensures var p := TopmostHit(series, hit, e.offsetX, e.offsetY);
        p.Some? && p.value.node.isShape && old(lastPick).Some? && old(lastPick).value.node == p.value.node ==>
          lastPick == old(lastPick) && calls == old(calls) &&
          tooltip == if p.value.series.tooltipEnabled && old(tooltip.html) != ""
                     then Placed(old(tooltip), e, surface, tooltipOffset)
                     else old(tooltip)
      ensures var p := TopmostHit(series, hit, e.offsetX, e.offsetY);
        p.Some? && !p.value.node.isShape ==> unchanged(this)
      ensures var p := TopmostHit(series, hit, e.offsetX, e.offsetY);
        p.None? && old(lastPick).None? ==> unchanged(this)
      ensures var p := TopmostHit(series, hit, e.offsetX, e.offsetY);
        p.None? && old(lastPick).Some? ==>
          lastPick.None? &&
          calls == old(calls) + Dehighlights(old(lastPick)) + Dehighlights(old(lastPick)) &&
          tooltip == old(tooltip).(classList := Tooltip.ClassList(tooltipClass, false))
    {
      var pick := PickSeriesNode(e.offsetX, e.offsetY, hit);
      if pick.Some? {
        var node := pick.value.node;
        if node.isShape {
          if lastPick.None? || lastPick.value.node != node {
            OnSeriesNodePick(e, pick.value.series, node, tooltipHtml, surface);
          } else if pick.value.series.tooltipEnabled {
            ShowTooltip(e, None, surface);
          }
        }
      } else if lastPick.Some? {
        var previous := lastPick;
        PickTransition(calls, previous, None);
        HighlightsSnoc(calls, DehighlightNode(previous.value.series));
        calls := calls + [DehighlightNode(previous.value.series)];
        HideTooltip();
        lastPick := None;
      }
    }

    /** `onMouseOut`: the tooltip is hidden, which dehighlights and forgets the pick. */
    method OnMouseOut()
      requires Valid()
      modifies `calls, `lastPick, `tooltip
      ensures Valid()
      ensures lastPick.None? && calls == old(calls) + Dehighlights(old(lastPick))
      ensures tooltip == old(tooltip).(classList := Tooltip.ClassList(tooltipClass, false))
    {
      ToggleTooltip(false);
    }

    /**
     * `onClick(event)`: the click is looked up in the legend only. On a legend
     * entry, the first series with the entry's id is told to toggle the item
     * to the opposite of its enabled state; otherwise nothing happens.
     */
    method OnClick(e: MouseEvent, datumForPoint: (int, int) -> Option<LegendDatum>)
      requires Valid()
      modifies `calls
      ensures Valid()
      ensures var d := datumForPoint(e.offsetX, e.offsetY);
        d.None? ==> calls == old(calls)
      ensures var d := datumForPoint(e.offsetX, e.offsetY);
        d.Some? ==>
          var k := FirstWithId(series, d.value.id, 0);
          calls == old(calls) + if k < 0 then [] else [ToggleSeriesItem(series[k], d.value.itemId, !d.value.enabled)]
    {
      var datum := datumForPoint(e.offsetX, e.offsetY);
      if datum.Some? {
        var id := datum.value.id;
        var hasId := (candidate: Series, index: int, all: seq<Series>) => candidate.id == id;
        var found := ArrayUtil.Find(series, hasId);
        if found.Some? {
          ghost var k :| 0 <= k < |series| && series[k] == found.value && hasId(series[k], k, series) &&
                         forall j :: 0 <= j < k ==> !hasId(series[j], j, series);
          assert forall j :: 0 <= j < k ==> series[j].id != id;
          assert k == FirstWithId(series, id, 0);
          var c := ToggleSeriesItem(found.value, datum.value.itemId, !datum.value.enabled);
          HighlightsSnoc(calls, c);
          calls := calls + [c];
        } else {
          assert forall j :: 0 <= j < |series| ==> series[j].id != id;
        }
      }
    }
  }
}
