# Series visibility and legend of the charge-breeding plot

This project models the part of `bokeh_plot.js` that keeps the chart and its custom legend consistent. The page fetches charge-state abundances from a remote API. It draws one Bokeh line per charge state, named `"<i>+"` and coloured from the 20-colour Category20 palette. A five-column clickable legend lets the user hide and show lines. Three pieces of state must agree:

- each line renderer's `visible` flag;
- the `lineVisibility` map, where an absent entry counts as visible;
- the look of each legend item: opacity 1.0 and no decoration, or opacity 0.3 and struck through.

Modules:

- `Labels`: the label `i + '+'`, i.e. decimal digits and a plus sign, and a parser that reads it back.
- `LegendLayout`: how `createThreeColumnLegend` cuts the indices `0..n-1` into at most five columns of `ceil(n/5)` consecutive indices, skipping empty ones.
- `SeriesVisibility`: the page state as a value (`View`), and what each operation does to it: toggle one line, show all, hide all, repaint the legend, and redraw after a reply. Lemmas prove the agreement properties.
- `ChargeStateData`: the decoded API reply and the dataset the success handler extracts from it.
- `BokehPlot`: class `PlotController`. Its fields are the renderer array, the `lineVisibility` map, the legend items and the handler's globals. Its methods run the source's loops. Each is proved against a specification function: the click handlers and the redraw against `SeriesVisibility.Toggle`, `SetAll`, `Repaint` and `Redrawn`, `CreateLegend` against `LegendLayout.Columns` and `SeriesVisibility.RowsBetween`, and `OnSuccess` against `ChargeStateData.Dataset`.

The legend is modelled as the list of legend items in document order, each with its `data-index`. `updateLegendAppearance` walks that list. `toggleLineVisibility` repaints the first item whose `data-index` matches, which is what `querySelector` returns.

Two details of the code shape the model:

- Toggling negates the renderer's own `visible` flag and copies the result into `lineVisibility`. It does not negate the map's default-true value. The two agree whenever the state is synchronised.
- The redraw clears `lineVisibility` and then sets every index explicitly to `true`, so the map has an entry for every line rather than being empty.

## Model

| member | source | states |
|---|---|---|
| `LegendLayout.ItemsPerColumn` | bokeh_plot.js:142 | the result k is `ceil(n/5)`: the least integer with `5k >= n` |
| `LegendLayout.ColumnAt` | bokeh_plot.js:167-168 | definition of column `col`'s range `[col*k, min(col*k+k, n))`; properties in `NonEmptyIff` and `ColumnsShape` |
| `LegendLayout.ColumnsFrom` | bokeh_plot.js:166-178 | definition of the columns the loop emits from `col` on, empty ones skipped; properties in `ColumnsFromShape` |
| `LegendLayout.Columns` | bokeh_plot.js:166-178 | definition of the columns shown; properties in `ColumnsShape`, `ColumnsEnds`, `ColumnsCover` and `ColumnsPartition` |
| `LegendLayout.ColumnsFromShape` | bokeh_plot.js:166-178 | from column `col` on, the loop emits exactly the non-empty columns, in order, and an empty column is followed only by empty ones |
| `LegendLayout.ColumnsShape` | bokeh_plot.js:166-178 | at most 5 columns are shown; shown column j is `[j*k, min(j*k+k, n))` and is non-empty; there are none exactly when n <= 0 |
| `LegendLayout.ColumnsEnds` | bokeh_plot.js:166-178 | for n > 0 the first shown column starts at 0 and the last ends at n |
| `LegendLayout.ColumnsContiguous` | bokeh_plot.js:167-171 | each shown column starts where the previous one ends |
| `LegendLayout.ColumnsOrdered` | bokeh_plot.js:167-171 | a shown column lies wholly before every later one |
| `LegendLayout.ColumnsCover` | bokeh_plot.js:141-178 | an index lies in some shown column exactly when `0 <= i < n` |
| `LegendLayout.ColumnsPartition` | bokeh_plot.js:141-178 | the shown columns partition `0..n-1`: they start at 0, are contiguous, end at n, cover exactly `0..n-1`, and no index is in two of them |
| `LegendLayout.ReachStep` | bokeh_plot.js:166-178 | the loop lays indices out in order: an empty column adds none, a shown one starts where the last ended, and after five columns the reach is n (or 0) |
| `Labels.Decimal` | bokeh_plot.js:228 | the numeral is non-empty and all digits, has one digit exactly when n < 10, and starts with `0` only for n = 0 |
| `Labels.Label` | bokeh_plot.js:408 | definition of `i + '+'`; properties in `LabelShape`, `CanonicalIsDecimal`, `LabelRoundTrip` and `LabelInjective` |
| `Labels.LabelShape` | bokeh_plot.js:408 | a line's name is one or more decimal digits without a leading zero, followed by `+` |
| `Labels.CanonicalIsDecimal` | bokeh_plot.js:70 | every numeral without leading zeros is `Decimal` of its value, so `Label(i)` is the only digits-and-plus key without leading zeros for index i, the one JavaScript writes |
| `Labels.DecimalRoundTrip` | bokeh_plot.js:228 | reading the decimal numeral of n back gives n |
| `Labels.LabelRoundTrip` | bokeh_plot.js:70 | the key `i + '+'` parses back to i |
| `Labels.LabelInjective` | bokeh_plot.js:69-71 | two charge states have the same key exactly when they are the same state, so no two series are read from one field |
| `SeriesVisibility.LineColorInPalette` | bokeh_plot.js:407 | line i's colour is `palette[i % 20]`, one of the 20 palette colours, and lines 20 apart share a colour |
| `SeriesVisibility.IsVisible` | bokeh_plot.js:198 | definition of `lineVisibility[i] !== undefined ? lineVisibility[i] : true`; properties in `RowAppearanceRule` |
| `SeriesVisibility.AppearanceFor` | bokeh_plot.js:199-200 | definition of the two looks; properties in `RowAppearanceRule` and `AppearanceInjective` |
| `SeriesVisibility.RowFor` | bokeh_plot.js:197-232 | definition of the legend item for index i; properties in `RowAppearanceRule` and `RedrawnLines` |
| `SeriesVisibility.RowsBetween` | bokeh_plot.js:194-235 | definition of the items for `startIdx..endIdx-1`; properties in `RowsBetweenNext` and `RowsBetweenConcat` |
| `SeriesVisibility.LineFor` | bokeh_plot.js:403-408 | definition of the line drawn for charge state i; properties in `RedrawnLines` |
| `SeriesVisibility.PaintRow` | bokeh_plot.js:301-315 | definition of repainting the first item with a data-index; properties in `PaintRowEffect` |
| `SeriesVisibility.Toggle` | bokeh_plot.js:294-320 | definition of `toggleLineVisibility` on the page state; properties in `ToggleEffect`, `ToggleTwice`, `ToggleTwiceRestores` and `ToggleKeepsSync` |
| `SeriesVisibility.Repaint` | bokeh_plot.js:353-371 | definition of `updateLegendAppearance`; properties in `SetAllEffect` |
| `SeriesVisibility.SetAll` | bokeh_plot.js:325-348 | definition of show-all and hide-all; properties in `SetAllEffect` and `SetAllKeepsAligned` |
| `SeriesVisibility.Redrawn` | bokeh_plot.js:387-414 | definition of the state the redraw leaves; properties in `RedrawnLines`, `RedrawnSync` and `SyncAfterRedraw` |
| `SeriesVisibility.Apply` | bokeh_plot.js:294-348 | definition of one click on a legend item, "Show All" or "Hide All"; properties in `RunKeepsSync` |
| `SeriesVisibility.Run` | bokeh_plot.js:294-348 | definition of a sequence of clicks; properties in `RunKeepsSync` and `SyncAfterRedraw` |
| `SeriesVisibility.RowAppearanceRule` | bokeh_plot.js:198-200 | row i is painted opacity 1.0 with no decoration exactly when `lineVisibility[i]` is true or absent, and opacity 0.3 struck through exactly when it is false |
| `SeriesVisibility.AppearanceInjective` | bokeh_plot.js:361-369 | a row's look determines the visibility it was painted from |
| `SeriesVisibility.FindRow` | bokeh_plot.js:301 | the result is the position of the first legend item with that data-index, or none when no item has it |
| `SeriesVisibility.FindRowInOrder` | bokeh_plot.js:301 | in a legend laid out in index order, the item found for index i is item i |
| `SeriesVisibility.FindRowSameIndices` | bokeh_plot.js:301 | where an item is found depends only on the items' data-indices |
| `SeriesVisibility.PaintRowEffect` | bokeh_plot.js:302-315 | painting the found item changes its look and nothing else |
| `SeriesVisibility.Span` | bokeh_plot.js:403 | the set holds exactly the integers `lo..hi-1` |
| `SeriesVisibility.ToggleEffect` | bokeh_plot.js:294-320 | toggling an existing line negates its flag and records the new flag in `lineVisibility`. It paints the first matching legend item to match and changes no other renderer, map entry or item. Toggling a missing line changes nothing |
| `SeriesVisibility.ToggleTwice` | bokeh_plot.js:296-298 | toggling twice restores every renderer; `lineVisibility[index]` then equals the original flag, and the item is painted from it |
| `SeriesVisibility.ToggleTwiceRestores` | bokeh_plot.js:294-320 | on a synchronised state, toggling a line twice restores the whole state |
| `SeriesVisibility.ToggleKeepsSync` | bokeh_plot.js:294-320 | toggling keeps flags, map and legend in agreement and aligned |
| `SeriesVisibility.SetAllEffect` | bokeh_plot.js:325-348 | show-all (hide-all) sets every renderer and its map entry to true (false). Every other map entry is kept as it was, present or absent. It repaints every legend item from the map. Afterwards flags, map and legend agree, whatever they were before |
| `SeriesVisibility.SetAllKeepsAligned` | bokeh_plot.js:325-348 | show-all and hide-all keep one map entry and one legend item per line |
| `SeriesVisibility.RedrawnLines` | bokeh_plot.js:390-411 | after a reply with n charge states there are exactly n renderers. Renderer i has colour `palette[i % 20]`, name `"i+"` and is visible. `lineVisibility[i]` is true, and legend item i is shown |
| `SeriesVisibility.RedrawnSync` | bokeh_plot.js:390-414 | the redrawn state is synchronised and aligned |
| `SeriesVisibility.RunKeepsSync` | bokeh_plot.js:294-371 | any sequence of toggle, show-all and hide-all clicks keeps a synchronised state synchronised and the number of lines fixed |
| `SeriesVisibility.SyncAfterRedraw` | bokeh_plot.js:387-415 | after a redraw and any clicks, for every line i, its flag equals `lineVisibility[i]`, and legend item i is item i, painted from that value |
| `ChargeStateData.FieldFor` | bokeh_plot.js:70 | definition of `result[i + '+']`; properties in `DatasetEntries` |
| `ChargeStateData.Dataset` | bokeh_plot.js:66-71 | definition of `data_from_API`; properties in `DatasetEntries` and `TwoStateReply` |
| `ChargeStateData.DatasetEntries` | bokeh_plot.js:66-71 | the dataset has one entry per charge state (none when the count is <= 0); entry i is the reply's `"i+"` field and is present exactly when the reply has that field |
| `ChargeStateData.TwoStateReply` | bokeh_plot.js:66-71 | the reply with `number_of_ch_states` 2 and fields `"0+"`, `"1+"` gives two series, the second being `"1+"`'s values |
| `BokehPlot.PlotController.constructor` | bokeh_plot.js:16-31 | the page starts with no lines, an empty `lineVisibility`, no legend and no data |
| `BokehPlot.PlotController.ToggleLineVisibility` | bokeh_plot.js:294-320 | the new state is `Toggle` of the old one |
| `BokehPlot.PlotController.UpdateLegendAppearance` | bokeh_plot.js:353-371 | every legend item is repainted from `lineVisibility`, nothing else changes |
| `BokehPlot.PlotController.SetAllLines` | bokeh_plot.js:326-332 | the new state is `SetAll` of the old one |
| `BokehPlot.PlotController.ShowAllLines` | bokeh_plot.js:325-334 | the new state is `SetAll(old, true)` |
| `BokehPlot.PlotController.HideAllLines` | bokeh_plot.js:339-348 | the new state is `SetAll(old, false)` |
| `SeriesVisibility.RowsBetweenNext` | bokeh_plot.js:197-232 | one more round of the item loop appends the row of the next index |
| `SeriesVisibility.RowsBetweenConcat` | bokeh_plot.js:166-178 | the rows of two adjacent index ranges, one after the other, are the rows of their union, so columns appended in order give the rows of `0..n-1` in order |
| `BokehPlot.PlotController.ColumnItems` | bokeh_plot.js:194-235 | the result is `RowsBetween(lineVisibility, startIdx, endIdx)`: one row per index of `startIdx..endIdx-1`, in order, each with colour `palette[i % 20]`, label `"i+"` and a look painted from `lineVisibility` |
| `BokehPlot.PlotController.CreateLegend` | bokeh_plot.js:111-189 | the columns laid out are `Columns(n)`, and the legend becomes `RowsBetween(lineVisibility, 0, n)`: the rows of `0..n-1` in order |
| `BokehPlot.PlotController.OnSuccess` | bokeh_plot.js:64-85 | `data_from_API` becomes the dataset of the reply, `ch_state_number` and `labels` are copied, and the data source has x = labels and column i = entry i for `0 <= i < n` |
| `BokehPlot.PlotController.Redraw` | bokeh_plot.js:387-415 | the renderer list is new and the state is `Redrawn(ch_state_number)` |
| `BokehPlot.PlotController.Complete` | bokeh_plot.js:57-105 | a failed request changes nothing; a reply leaves the reply's dataset and the redrawn state for its charge-state count |

## Left out

- Building the query string and the `$.ajax` call are network I/O to a remote service. The reply is a parameter of `Complete`, and a failure is `None`.
- The HTML and CSS strings, DOM creation, style injection, the loading and error overlays, the plot title and console logging are presentation only. A legend item is reduced to its data-index, colour, label and look (one opacity, shared by swatch and label, and a text decoration).
- The Bokeh figure and ranges, `plot.line`'s drawing, `plot.change.emit()` and `Bokeh.Plotting.show` are library calls. A renderer is only a record (data-source field, colour, name, visible), and the data source it points to is not linked to it.
- The x-axis range from `parseFloat('1E' + ...)` is floating-point string parsing.
- The try/catch around the first render and the event-listener wiring are UI plumbing.
- Two overlapping requests can race. The model handles one completed request at a time.
- The shared global loop variable `i` is not modelled; each loop has its own counter.
- The `if (plot.renderers[i])` test in show-all and hide-all is always true, because the list holds only renderer objects, so it is not modelled.
- `number_of_ch_states` is an integer. A missing or non-numeric count is not modelled. A count <= 0 gives no iterations and no columns, as in the code.
- Series values are reals and are only copied. A missing `"<i>+"` field is `None`, standing for `undefined`.
- `BokehPlot.PlotController.ColumnItems` requires `startIdx >= 0`. Its only caller passes `col * ceil(n/5)` for a non-empty column, which is never negative.
- `Labels.Label` writes every index in plain decimal digits. JavaScript writes numbers of 1e21 and above in exponent form (`1e+21`); no charge-state count comes near that, so that form is not modelled.
- `BokehPlot.PlotController.constructor` starts `ch_state_number` at 0 and `labels` empty, where the page leaves both undefined until the first reply. Every loop bounded by them runs no iterations either way.
