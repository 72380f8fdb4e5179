/**
 * The page's plot controller: the chart's renderer list, the lineVisibility
 * map, the legend rows, and the data the last successful reply delivered,
 * with the operations bokeh_plot.js runs on them.
 */
module BokehPlot {
  import opened Wrappers
  import opened LegendLayout
  import opened SeriesVisibility
  import opened ChargeStateData

  class PlotController {
    /** plot.renderers: one line renderer per charge state drawn. */
    var renderers: array<Renderer>
    /** lineVisibility: charge-state index to visible; an absent index counts as visible. */
    var lineVisibility: map<int, bool>
    /** The legend's items in document order. */
    var legendRows: seq<LegendRow>
    /** data_from_API: one entry per charge state, None where the reply had no such field. */
    var dataFromApi: seq<Option<seq<real>>>
    /** ch_state_number. */
    var chStateNumber: int
    /** labels: the time values of the x axis. */
    var labels: seq<real>

    ghost function State(): View
      reads this, renderers
    {
      View(renderers[..], lineVisibility, legendRows)
    }

    /** The page as loaded: no lines, an empty map, no legend and no data. */
    constructor ()
      ensures State() == View([], map[], [])
      ensures dataFromApi == [] && chStateNumber == 0 && labels == []
    {
      renderers := new Renderer[0];
      lineVisibility := map[];
      legendRows := [];
      dataFromApi := [];
      chStateNumber := 0;
      labels := [];
    }

    /** toggleLineVisibility: the click handler of legend row `index`. */
    method ToggleLineVisibility(index: int)
      modifies renderers, this`lineVisibility, this`legendRows
      ensures State() == Toggle(old(State()), index)
    {
      if 0 <= index < renderers.Length {
        var isVisible := renderers[index].visible;
        renderers[index] := renderers[index].(visible := !isVisible);
        lineVisibility := lineVisibility[index := !isVisible];
        var found := FindRow(legendRows, index);
        if found.Some? {
          var k := found.value;
          legendRows := legendRows[k := legendRows[k].(look := AppearanceFor(!isVisible))];
        }
      }
    }

    /** updateLegendAppearance: repaint every legend row from lineVisibility. */
    method UpdateLegendAppearance()
      modifies this`legendRows
      ensures State() == Repaint(old(State()))
    {
      for k := 0 to |legendRows|
        invariant |legendRows| == |old(legendRows)|
        invariant forall j :: 0 <= j < k ==>
          legendRows[j] == old(legendRows)[j].(look := AppearanceFor(IsVisible(lineVisibility, old(legendRows)[j].index)))
        invariant forall j :: k <= j < |legendRows| ==> legendRows[j] == old(legendRows)[j]
      {
        var index := legendRows[k].index;
        var isVisible := IsVisible(lineVisibility, index);
        legendRows := legendRows[k := legendRows[k].(look := AppearanceFor(isVisible))];
      }
    }

    /** The shared body of showAllLines and hideAllLines. */
    method SetAllLines(visible: bool)
      modifies renderers, this`lineVisibility, this`legendRows
      ensures State() == SetAll(old(State()), visible)
    {
      var i := 0;
      while i < renderers.Length
        invariant 0 <= i <= renderers.Length
        invariant forall j :: 0 <= j < i ==> renderers[j] == old(renderers[j]).(visible := visible)
        invariant forall j :: i <= j < renderers.Length ==> renderers[j] == old(renderers[j])
        invariant lineVisibility == old(lineVisibility) + map j | j in Span(0, i) :: visible
        invariant legendRows == old(legendRows)
      {
        renderers[i] := renderers[i].(visible := visible);
        lineVisibility := lineVisibility[i := visible];
        i := i + 1;
      }
      UpdateLegendAppearance();
    }

    /** showAllLines: the legend's "Show All" button. */
    method ShowAllLines()
      modifies renderers, this`lineVisibility, this`legendRows
      ensures State() == SetAll(old(State()), true)
    {
      SetAllLines(true);
    }

    /** hideAllLines. */
    method HideAllLines()
      modifies renderers, this`lineVisibility, this`legendRows
      ensures State() == SetAll(old(State()), false)
    {
      SetAllLines(false);
    }

    /** createColumnItems: the rows for indices startIdx..endIdx-1, painted from lineVisibility. */
    method ColumnItems(startIdx: int, endIdx: int) returns (items: seq<LegendRow>)
      requires 0 <= startIdx
      ensures items == RowsBetween(lineVisibility, startIdx, endIdx)
    {
      items := [];
      var i := startIdx;
      while i < endIdx
        invariant startIdx <= i && (i <= endIdx || i == startIdx)
        invariant items == RowsBetween(lineVisibility, startIdx, i)
      {
        RowsBetweenNext(lineVisibility, startIdx, i);
        items := items + [RowFor(lineVisibility, i)];
        i := i + 1;
      }
    }

    /**
     * createThreeColumnLegend: rebuild the legend for n charge states. `shown`
     * lists the columns laid out; the legend ends up with the rows of indices
     * 0..n-1 in order.
     */
    method CreateLegend(n: int) returns (ghost shown: seq<Column>)
      modifies this`legendRows
      ensures shown == Columns(n)
      ensures legendRows == RowsBetween(lineVisibility, 0, n)
    {
      legendRows := [];
      shown := [];
      var itemsPerColumn := ItemsPerColumn(n);
      ReachStep(n, 0);
      for col := 0 to ColumnCount
        invariant shown + ColumnsFrom(n, col) == Columns(n)
        invariant legendRows == RowsBetween(lineVisibility, 0, Reach(n, col))
      {
        ReachStep(n, col);
        var startIdx := col * itemsPerColumn;
        var endIdx := Min(startIdx + itemsPerColumn, n);
        assert ColumnAt(n, col) == Column(startIdx, endIdx);
        if startIdx >= endIdx {
          continue;
        }
        var items := ColumnItems(startIdx, endIdx);
        RowsBetweenConcat(lineVisibility, 0, startIdx, endIdx);
        legendRows := legendRows + items;
        assert (shown + [Column(startIdx, endIdx)]) + ColumnsFrom(n, col + 1) == shown + ColumnsFrom(n, col);
        shown := shown + [Column(startIdx, endIdx)];
      }
    }

    /** The getData success handler: copy the reply's series into data_from_API. */
    method OnSuccess(result: Response) returns (source: DataSource)
      modifies this`dataFromApi, this`chStateNumber, this`labels
      ensures dataFromApi == Dataset(result)
      ensures chStateNumber == result.numberOfChStates && labels == result.labels
      ensures source.x == result.labels
      ensures source.columns.Keys == Span(0, chStateNumber)
      ensures forall i :: i in source.columns ==> 0 <= i < |dataFromApi| && source.columns[i] == dataFromApi[i]
    {
      dataFromApi := [];
      var i := 0;
      while i < result.numberOfChStates
        invariant 0 <= i <= SeriesCount(result.numberOfChStates)
        invariant dataFromApi == Dataset(result)[..i]
      {
        dataFromApi := dataFromApi + [FieldFor(result, i)];
        i := i + 1;
      }
      chStateNumber := result.numberOfChStates;
      labels := result.labels;
      var columns := map[];
      i := 0;
      while i < chStateNumber
        invariant 0 <= i <= |dataFromApi|
        invariant columns.Keys == Span(0, i)
        invariant forall j :: j in columns ==> 0 <= j < |dataFromApi| && columns[j] == dataFromApi[j]
      {
        columns := columns[i := dataFromApi[i]];
        i := i + 1;
      }
      source := DataSource(labels, columns);
    }

    /**
     * The updatePlot callback: drop the old lines, reset lineVisibility, draw
     * one line per charge state, marking each visible, and rebuild the legend.
     */
    method Redraw()
      modifies this`renderers, this`lineVisibility, this`legendRows
      ensures fresh(renderers)
      ensures State() == Redrawn(chStateNumber)
    {
      var n := chStateNumber;
      var lines := new Renderer[if n > 0 then n else 0];
      lineVisibility := map[];
      var i := 0;
      while i < n
        invariant 0 <= i <= lines.Length
        invariant forall j :: 0 <= j < i ==> lines[j] == LineFor(j)
        invariant lineVisibility == map j | j in Span(0, i) :: true
      {
        lines[i] := LineFor(i);
        lineVisibility := lineVisibility[i := true];
        i := i + 1;
      }
      renderers := lines;
      ghost var shown := CreateLegend(n);
      RedrawnFromParts(n, renderers[..], lineVisibility, legendRows);
    }

    /**
     * The end of the request updatePlot starts: on a reply, the success handler
     * and then the redraw callback; on a failure (None), only an error banner,
     * so nothing here changes.
     */
    method Complete(outcome: Option<Response>)
      modifies this
      ensures outcome.None? ==> unchanged(this)
      ensures outcome.Some? ==>
        && dataFromApi == Dataset(outcome.value)
        && chStateNumber == outcome.value.numberOfChStates
        && labels == outcome.value.labels
        && fresh(renderers)
        && State() == Redrawn(outcome.value.numberOfChStates)
    {
      if outcome.Some? {
        var source := OnSuccess(outcome.value);
        Redraw();
      }
    }
  }
}
