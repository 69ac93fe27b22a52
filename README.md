# dc.boxPlot, modelled in Dafny

This project models the logic in the box-and-whisker chart of the charting library (`dc.boxPlot`). It proves properties of that model. The chart's logic comes in five parts, and each part is a Dafny module:

- `Whiskers` (`whiskers.dfy`): the interquartile-range whisker rule built by `DEFAULT_WHISKERS_IQR(k)`. Given a sample and its quartiles, two scans find the first index not below `q1 - (q3 - q1) * k` and the last index not above `q3 + (q3 - q1) * k`. The chart wires in `k = 1.5`.
- `ChartData` (`chart_data.dfy`): the chart's data adapter and the y-axis extent.
  - The adapter keeps the group's records in order and drops those whose sample is empty.
  - `yAxisMin` is the least value over all kept records minus `yAxisPadding`, which defaults to 12. `yAxisMax` is the greatest value plus that padding.
- `BoxWidth` (`box_width.dfy`): the width of one box. On an ordinal axis it is the scale's band width. On a continuous axis it is `innerChartWidth / (1 + boxPadding) / xUnits`, where `boxPadding` defaults to 0.8.
- `Selection` (`selection.dfy`): the look each box gets from `fadeDeselectedArea` and `isSelectedNode`, which is one of highlighted, faded or reset.
- `Glyphs` (`glyphs.dfy`): the keyed `g.box` nodes and the enter/update/exit pass of `plotData`.
  - The pass joins the chart data to the nodes with `d.key` as identity.
  - `BoxLayer` is a class holding the retained nodes as a map from key to node. Each node has an identity, its bound record and its look.
  - Its methods `RenderBoxes`, `UpdateBoxes`, `RemoveBoxes`, `FadeDeselectedArea` and `PlotData` change that map the way the source changes the DOM.

Numbers are `real`. A d3 minimum or maximum that JavaScript leaves `undefined` is `None` here.

Four places where the model makes a choice a reader might not expect:

- **Whisker scans.** The scans are modelled exactly as the code runs them. Reading past either end of the array yields `undefined`, and any comparison with `undefined` is false. So when every value lies below the lower fence, the forward scan stops at `|d|`. When every value lies above the upper fence, the backward scan stops at `-1`. A guarded version would clamp to `[0, length-1]`; the code has no clamp, so the model has none. `Whiskers.AllBelowFence` proves the unclamped result. `Whiskers.StopsInRange` proves that the stops are always indices of the sample when the quartiles lie within the sample's range (as the box primitive's own quartiles do) and `k >= 0`.
- **Keyed join.** The join itself is `selection.data` of the d3 toolkit, which is not part of this model. It is modelled as d3 version 3 behaves:
  - only the first record of each key is bound;
  - records whose key has no node enter, in data order;
  - nodes whose key matches are rebound to the new record;
  - nodes whose key is gone exit.

  The model performs the rebinding in `UpdateBoxes`. In the source it happens as part of `selection.data` on line 92.
- **Filters.** The chart's filters form a set of keys. `hasFilter()` means the set is non-empty, and `hasFilter(key)` means membership.
- **Empty y extent.** When no record has values, `yAxisMin` and `yAxisMax` are `None`. In JavaScript they are `NaN`: `undefined` minus or plus the padding.

## Model

| member | source | states |
|---|---|---|
| `Whiskers.WhiskersIqr` | main/source/js/dc-mapd/src/charts/box-plot.js:8-19 | The forward stop `i` has every earlier value below the lower fence, and `d[i]` is not below it unless `i = d.length`. The backward stop `j` has every later value above the upper fence, and `d[j]` is not above it unless `j = -1`. Also `0 <= i <= d.length` and `-1 <= j < d.length`. `i = d.length` exactly when every value is below the lower fence. `j = -1` exactly when every value is above the upper fence. |
| `Whiskers.DefaultWhiskers` | main/source/js/dc-mapd/src/charts/box-plot.js:21-23 | The chart's whisker function is the same scan with the factor fixed at 1.5. |
| `Whiskers.ForwardStopUnique` | main/source/js/dc-mapd/src/charts/box-plot.js:15 | Only one index satisfies the forward-stop condition. |
| `Whiskers.BackwardStopUnique` | main/source/js/dc-mapd/src/charts/box-plot.js:16 | Only one index satisfies the backward-stop condition. |
| `Whiskers.FencesEncloseQuartiles` | main/source/js/dc-mapd/src/charts/box-plot.js:10-12 | If `q1 <= q3` and `k >= 0`, the fences enclose `[q1, q3]`. |
| `Whiskers.WhiskerWindow` | main/source/js/dc-mapd/src/charts/box-plot.js:8-19 | On an ascending sample, every value at an index from `i` to `j` lies inside the fences. |
| `Whiskers.WindowNonEmptyIff` | main/source/js/dc-mapd/src/charts/box-plot.js:13-17 | On an ascending sample, `i <= j` holds exactly when some value lies inside the fences (both directions). |
| `Whiskers.StopsDoNotOverlap` | main/source/js/dc-mapd/src/charts/box-plot.js:13-17 | On an ascending sample with ordered fences, `i <= j + 1`: no value counts as both a low and a high outlier. |
| `Whiskers.WorkedExample` | main/source/js/dc-mapd/src/charts/box-plot.js:8-23 | The sample `[1,2,3,4,5,100]` with quartiles `(2,3,4)` and `k = 1.5` gives whiskers `[0, 4]`. |
| `Whiskers.AllBelowFence` | main/source/js/dc-mapd/src/charts/box-plot.js:13-17 | If `q1 <= q3` and `k >= 0`, and every value is below the lower fence, the scans return `i = d.length` and `j = d.length - 1`. No clamping happens. |
| `Whiskers.StopsInRange` | main/source/js/dc-mapd/src/charts/box-plot.js:13-17 | If the quartiles lie within the sample's range and `k >= 0`, both stops are indices of the sample. |
| `ChartData.Renderable` | main/source/js/dc-mapd/src/charts/box-plot.js:46-54 | Every output record is an input record with a non-empty sample. Every input record with a non-empty sample is in the output. The output is no longer than the input. |
| `ChartData.RenderableAppend` | main/source/js/dc-mapd/src/charts/box-plot.js:46-54 | Filtering a concatenation gives the concatenation of the filtered parts, so input order is kept. |
| `ChartData.RenderableKeepsNonEmpty` | main/source/js/dc-mapd/src/charts/box-plot.js:50-53 | A record list with no empty sample passes through unchanged. |
| `ChartData.RenderableIdempotent` | main/source/js/dc-mapd/src/charts/box-plot.js:46-54 | Applying the adapter to its own output changes nothing. |
| `ChartData.Least` | main/source/js/dc-mapd/src/charts/box-plot.js:149 | The minimum of a sample is undefined exactly when the sample is empty. Otherwise it is an element that is `<=` every element. |
| `ChartData.Greatest` | main/source/js/dc-mapd/src/charts/box-plot.js:156 | The maximum of a sample is undefined exactly when the sample is empty. Otherwise it is an element that is `>=` every element. |
| `ChartData.LeastOver` | main/source/js/dc-mapd/src/charts/box-plot.js:148-150 | The minimum of the per-record minima is undefined exactly when every sample is empty. Otherwise it is `<=` every value of every record and is a value of some record. |
| `ChartData.GreatestOver` | main/source/js/dc-mapd/src/charts/box-plot.js:155-157 | The maximum of the per-record maxima is undefined exactly when every sample is empty. Otherwise it is `>=` every value of every record and is a value of some record. |
| `ChartData.YAxisMin` | main/source/js/dc-mapd/src/charts/box-plot.js:147-152 | `yAxisMin + padding` is `<=` every value of every group and equals a value of some group. It is undefined exactly when all samples are empty. |
| `ChartData.YAxisMax` | main/source/js/dc-mapd/src/charts/box-plot.js:154-159 | `yAxisMax - padding` is `>=` every value of every group and equals a value of some group. It is undefined exactly when all samples are empty. |
| `ChartData.YAxisOrdered` | main/source/js/dc-mapd/src/charts/box-plot.js:147-159 | Either both ends of the axis are defined or neither is. When they are, `yAxisMin + padding <= yAxisMax - padding`. |
| `ChartData.YAxisExample` | main/source/js/dc-mapd/src/charts/box-plot.js:147-159 | Groups with samples spanning `[2, 8]` and `[1, 20]` give the axis `[-11, 32]` under the default padding of 12 (line 37). |
| `BoxWidth.BoxWidth` | main/source/js/dc-mapd/src/charts/box-plot.js:28-34 | On an ordinal axis the width is the band width. On a continuous axis, `xUnits` boxes, each followed by a gap of `boxPadding` box widths, fill the inner width exactly. |
| `BoxWidth.BoxFitsSlot` | main/source/js/dc-mapd/src/charts/box-plot.js:32 | On a continuous axis a box is never negative and never wider than `innerChartWidth / xUnits`. |
| `BoxWidth.DefaultBoxShare` | main/source/js/dc-mapd/src/charts/box-plot.js:57 | With the default padding of 0.8, a box takes `1/1.8` of its slot. |
| `Selection.Classify` | main/source/js/dc-mapd/src/charts/box-plot.js:127-145 | With a non-empty filter set, a box is highlighted when its key is a filter and faded otherwise. With an empty filter set, it is reset. It gets exactly one of the three looks. |
| `Selection.SingleFilter` | main/source/js/dc-mapd/src/charts/box-plot.js:143-145 | Under the single filter `K`, the box `K` is highlighted and every other box is faded. |
| `Glyphs.FirstWithKey` | main/source/js/dc-mapd/src/charts/box-plot.js:92 | The bound record for a key is a record of the data carrying that key. |
| `Glyphs.FirstWithKeyIsFirst` | main/source/js/dc-mapd/src/charts/box-plot.js:92 | No earlier record of the data carries that key. |
| `Glyphs.Bound` | main/source/js/dc-mapd/src/charts/box-plot.js:92 | The records that get a node carry distinct keys. They cover every key of the data, and each is the first record of its key. |
| `Glyphs.Unmatched` | main/source/js/dc-mapd/src/charts/box-plot.js:102 | The entering records are the bound records whose key has no node. Their keys stay distinct. |
| `Glyphs.DataJoin` | main/source/js/dc-mapd/src/charts/box-plot.js:92 | Enter holds the data keys without a node, with distinct keys. Update holds the data keys with a node. Exit holds the node keys absent from the data. Every entering or updated record is the first record of its key. |
| `Glyphs.JoinCoversKeys` | main/source/js/dc-mapd/src/charts/box-plot.js:92-96 | Enter, update and exit are pairwise disjoint. Enter plus update gives the data keys. Update plus exit gives the node keys. |
| `Glyphs.BoundInOrder` | main/source/js/dc-mapd/src/charts/box-plot.js:92 | The bound records appear in the same order as in the data: they are the data with some records removed. |
| `Glyphs.UnmatchedInOrder` | main/source/js/dc-mapd/src/charts/box-plot.js:102 | The entering records keep the order of the bound records. |
| `Glyphs.EnterInDataOrder` | main/source/js/dc-mapd/src/charts/box-plot.js:92-102 | The join's enter part is a subsequence of the data, so new nodes are created in data order. |
| `Glyphs.RejoinOnlyUpdates` | main/source/js/dc-mapd/src/charts/box-plot.js:92-96 | Joining the data that is already drawn enters nothing and removes nothing. |
| `Glyphs.JoinExample` | main/source/js/dc-mapd/src/charts/box-plot.js:92-96 | Nodes `A, B, C` joined with data `B, C, D`: `D` enters, `B` and `C` are updated, `A` exits. |
| `Glyphs.KeysOfEmpty` | main/source/js/dc-mapd/src/charts/box-plot.js:92 | A record list has no keys exactly when it is empty. |
| `Glyphs.RenderedKeys` | main/source/js/dc-mapd/src/charts/box-plot.js:46-54 | The keys of the chart data are exactly the keys of the groups with a non-empty sample. |
| `Glyphs.BoxLayer.RenderBoxes` | main/source/js/dc-mapd/src/charts/box-plot.js:101-112 | Each entering record gets a new node: it has a fresh identity, is bound to that record and has no highlight. Existing nodes are untouched. |
| `Glyphs.BoxLayer.UpdateBoxes` | main/source/js/dc-mapd/src/charts/box-plot.js:114-121 | Matched nodes keep their identity and look and are bound to their new record. No node is added or removed. |
| `Glyphs.BoxLayer.RemoveBoxes` | main/source/js/dc-mapd/src/charts/box-plot.js:123-125 | The exiting nodes are removed and no other node changes. |
| `Glyphs.BoxLayer.FadeDeselectedArea` | main/source/js/dc-mapd/src/charts/box-plot.js:127-141 | Every node's look becomes its classification under the filters. Its identity and bound record stay the same. |
| `Glyphs.BoxLayer.JoinBoxes` | main/source/js/dc-mapd/src/charts/box-plot.js:92-96 | After the join there is exactly one node per data key, bound to that key's first record. Kept keys keep their node identity. New keys get fresh identities. |
| `Glyphs.BoxLayer.PlotData` | main/source/js/dc-mapd/src/charts/box-plot.js:81-99 | The node keys are exactly the keys of the groups with a non-empty sample, one node per key. Each node is bound to such a group and shows its selection look. Kept keys keep their node. Re-plotting what is already drawn changes nothing. |

## Left out

- The box primitive `d3.box` (lines 25, 84-90, 107, 117, 124) is not modelled: it computes the quartiles, draws the box, whiskers, median and outlier marks, and formats ticks. In the model, quartiles are inputs.
- SVG output is not modelled: the `translate` transform of `boxTransform` (lines 70-73), the `class` attribute, and transition timing through `dc.transition` (line 115). These only render.
- The fill colour from `_chart.getColor` (line 119) is not modelled. The host chart's colour scale supplies it.
- Click-to-filter (lines 108-111) is not modelled. `filter(d.key)` and `redrawGroup` belong to the host chart. Here the filter set is only an input to the selection look.
- The host mixin and its scales are not modelled, because their source is not part of this model: `dc.coordinateGridMixin` (line 5), `x()`, `rangeBand`, `y().domain()`, `xUnitCount`, `effectiveWidth`/`effectiveHeight`, the `elasticX` domain reset of `_preprocessData` (lines 75-79), and `anchor` (line 169). The ordinal band width is a parameter of `BoxWidth`.
- The helper `d.map` that the adapter attaches to each record (line 48) is not modelled. It does not change which records are kept or in what order.
- `dc.utils.subtract` and `dc.utils.add` (lines 151, 158) are modelled as plain `-` and `+` on numbers. Their date and percentage-string cases are not modelled.
- IEEE-754 is not modelled: NaN, infinities and rounding are absent because numbers are `real`.
- The getter/setter pairs `boxWidth`, `tickFormat`, `boxPadding` and `outerPadding` (lines 56-68, 161-167) only store values. Only the default box padding appears, as `BoxWidth.DefaultBoxPadding`. The outer padding (default 0.5, lines 59-60) is used only by the host's x scale, so it is not modelled.
- The swappable whisker strategy `_whiskersIqr` (line 22) is not modelled; only the default IQR rule is.
- The document order of the `g.box` nodes is not modelled. The nodes are a map from key to node. New nodes get increasing identities in data order (`Glyphs.EnterInDataOrder` and `Glyphs.BoxLayer.RenderBoxes`), but where they sit among their siblings is not captured.
- `BoxWidth.BoxWidth`: on a continuous axis it requires `xUnits != 0` and `boxPadding != -1`. At those two points the source divides by zero, which in JavaScript gives `Infinity` or `NaN`; every other padding and unit count, negative ones included, is modelled.
