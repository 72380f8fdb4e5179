/**
 * The series-visibility state as a value: the chart's line renderers, the
 * lineVisibility map (an absent entry means visible) and the legend rows keyed
 * by their data-index. The functions here say what each visibility operation
 * does to that state; the lemmas say how the three parts stay in agreement.
 */
module SeriesVisibility {
  import opened Wrappers
  import opened Labels

  /** Bokeh's Category20_20 palette; line i and its legend swatch take colour i mod 20. */
  const Palette: seq<string> := [
    "#1f77b4", "#aec7e8", "#ff7f0e", "#ffbb78", "#2ca02c",
    "#98df8a", "#d62728", "#ff9896", "#9467bd", "#c5b0d5",
    "#8c564b", "#c49c94", "#e377c2", "#f7b6d2", "#7f7f7f",
    "#c7c7c7", "#bcbd22", "#dbdb8d", "#17becf", "#9edae5"
  ]

  function LineColor(i: nat): string {
    Palette[i % |Palette|]
  }

  /** Every line and swatch colour is a palette entry, and the palette repeats every 20 lines. */
  lemma LineColorInPalette(i: nat)
    ensures LineColor(i) in Palette && LineColor(i) == Palette[i % 20]
    ensures LineColor(i + 20) == LineColor(i)
  {
  }

  datatype Decoration = NoDecoration | LineThrough

  /** How a legend row is painted: swatch and label opacity, in tenths, and the label's text decoration. */
  datatype Appearance = Appearance(opacityTenths: nat, decoration: Decoration)

  /** Opacity 1.0, no strike-through. */
  const Shown := Appearance(10, NoDecoration)
  /** Opacity 0.3, struck through. */
  const Dimmed := Appearance(3, LineThrough)

  function AppearanceFor(visible: bool): Appearance {
    if visible then Shown else Dimmed
  }

  /** `lineVisibility[i] !== undefined ? lineVisibility[i] : true` */
  function IsVisible(lineVisibility: map<int, bool>, i: int): bool {
    if i in lineVisibility then lineVisibility[i] else true
  }

  /** A line renderer: the data-source field it plots, its colour, its name and its visible flag. */
  datatype Renderer = Renderer(field: int, color: string, name: string, visible: bool)

  /** A legend item: its data-index, swatch colour, label text and how it is painted. */
  datatype LegendRow = LegendRow(index: int, color: string, text: string, look: Appearance)

  /** The row createColumnItems emits for index i. */
  function RowFor(lineVisibility: map<int, bool>, i: nat): LegendRow {
    LegendRow(i, LineColor(i), Label(i), AppearanceFor(IsVisible(lineVisibility, i)))
  }

  /** The rows createColumnItems emits for the indices lo..hi-1, in index order. */
  function RowsBetween(lineVisibility: map<int, bool>, lo: nat, hi: int): seq<LegendRow> {
    seq(if hi > lo then hi - lo else 0, j requires 0 <= j => RowFor(lineVisibility, lo + j))
  }

  /** The line the re-render draws for charge state i. */
  function LineFor(i: nat): Renderer {
    Renderer(i, LineColor(i), Label(i), true)
  }

  /**
   * `querySelector('.legend-item[data-index="<index>"]')`: the position of the
   * first row, in document order, whose data-index is `index`, if any.
   */
  function FindRow(rows: seq<LegendRow>, index: int): (r: Option<nat>)
    ensures r.Some? ==> r.value < |rows| && rows[r.value].index == index
    ensures r.Some? ==> forall k :: 0 <= k < r.value ==> rows[k].index != index
    ensures r.None? ==> forall k :: 0 <= k < |rows| ==> rows[k].index != index
    decreases |rows|
  {
    if rows == [] then None
    else if rows[0].index == index then Some(0)
    else match FindRow(rows[1..], index) {
      case None => None
      case Some(k) => Some(k + 1)
    }
  }

  /**
   * The page state: the renderer list, the lineVisibility map and the legend
   * items in document order.
   */
  datatype View = View(renderers: seq<Renderer>, lineVisibility: map<int, bool>, rows: seq<LegendRow>)

  /** Paint the row found for `index`, if there is one. */
  function PaintRow(rows: seq<LegendRow>, index: int, look: Appearance): seq<LegendRow> {
    match FindRow(rows, index) {
      case None => rows
      case Some(k) => rows[k := rows[k].(look := look)]
    }
  }

  /** toggleLineVisibility(index). */
  function Toggle(v: View, index: int): View {
    if 0 <= index < |v.renderers| then
      var now := !v.renderers[index].visible;
      View(v.renderers[index := v.renderers[index].(visible := now)],
           v.lineVisibility[index := now],
           PaintRow(v.rows, index, AppearanceFor(now)))
    else v
  }

  /** updateLegendAppearance: every legend item is repainted from the map. */
  function Repaint(v: View): View {
    v.(rows := seq(|v.rows|, k requires 0 <= k < |v.rows| =>
                     v.rows[k].(look := AppearanceFor(IsVisible(v.lineVisibility, v.rows[k].index)))))
  }

  /** showAllLines (visible = true) and hideAllLines (visible = false). */
  function SetAll(v: View, visible: bool): View {
    Repaint(View(seq(|v.renderers|, i requires 0 <= i < |v.renderers| => v.renderers[i].(visible := visible)),
                 v.lineVisibility + map i | i in Span(0, |v.renderers|) :: visible,
                 v.rows))
  }

  /** The state the updatePlot callback leaves for n charge states. */
  function Redrawn(n: int): View {
    var count := if n > 0 then n else 0;
    var lineVisibility := map i | i in Span(0, count) :: true;
    View(seq(count, i requires 0 <= i < count => LineFor(i)),
         lineVisibility,
         RowsBetween(lineVisibility, 0, count))
  }

  /** Renderer flags, the map (default true) and the legend rows all say the same thing. */
  ghost predicate Agree(v: View) {
    && (forall i :: 0 <= i < |v.renderers| ==> v.renderers[i].visible == IsVisible(v.lineVisibility, i))
    && (forall k :: 0 <= k < |v.rows| ==> v.rows[k].look == AppearanceFor(IsVisible(v.lineVisibility, v.rows[k].index)))
  }

  /** The integers lo..hi-1. */
  function Span(lo: int, hi: int): (r: set<int>)
    ensures forall i :: i in r <==> lo <= i < hi
    decreases hi - lo
  {
    if hi <= lo then {} else Span(lo, hi - 1) + {hi - 1}
  }

  /**
   * The map has an entry for exactly the renderer indices, and the legend has
   * one row per renderer, in index order.
   */
  ghost predicate Aligned(v: View) {
    && (forall i :: i in v.lineVisibility <==> 0 <= i < |v.renderers|)
    && |v.rows| == |v.renderers|
    && (forall k :: 0 <= k < |v.rows| ==> v.rows[k].index == k)
  }

  /** A row is painted shown exactly when its map entry is true or absent, and dimmed otherwise. */
  lemma RowAppearanceRule(lineVisibility: map<int, bool>, i: nat)
    ensures RowFor(lineVisibility, i).look == Shown <==> (i !in lineVisibility || lineVisibility[i])
    ensures RowFor(lineVisibility, i).look == Dimmed <==> (i in lineVisibility && !lineVisibility[i])
  {}

  /** A row's look determines the visibility it was painted from. */
  lemma AppearanceInjective(a: bool, b: bool)
    ensures AppearanceFor(a) == AppearanceFor(b) <==> a == b
  {}

  /** In a legend laid out in index order, the row found for i is row i. */
  lemma FindRowInOrder(rows: seq<LegendRow>, i: int)
    requires forall k :: 0 <= k < |rows| ==> rows[k].index == k
    requires 0 <= i < |rows|
    ensures FindRow(rows, i) == Some(i)
  {
    var r := FindRow(rows, i);
    assert rows[i].index == i;
    assert r.Some? ==> rows[r.value].index == r.value;
  }

  /** Painting a found row changes its look and nothing else. */
  lemma PaintRowEffect(rows: seq<LegendRow>, index: int, look: Appearance)
    ensures |PaintRow(rows, index, look)| == |rows|
    ensures forall k :: 0 <= k < |rows| ==>
      PaintRow(rows, index, look)[k] ==
        if FindRow(rows, index) == Some(k) then rows[k].(look := look) else rows[k]
  {}

  /**
   * Toggling an existing line negates its flag, records the new flag in the
   * map and paints the first legend row with its data-index (if there is one)
   * to match; every other renderer, map entry and row is unchanged. Toggling a
   * missing line changes nothing.
   */
  lemma ToggleEffect(v: View, index: int)
    ensures !(0 <= index < |v.renderers|) ==> Toggle(v, index) == v
    ensures |Toggle(v, index).renderers| == |v.renderers| && |Toggle(v, index).rows| == |v.rows|
    ensures 0 <= index < |v.renderers| ==>
      && Toggle(v, index).renderers[index] == v.renderers[index].(visible := !v.renderers[index].visible)
      && Toggle(v, index).lineVisibility == v.lineVisibility[index := !v.renderers[index].visible]
    ensures forall j :: 0 <= j < |v.renderers| && j != index ==> Toggle(v, index).renderers[j] == v.renderers[j]
    ensures forall j :: j != index ==> IsVisible(Toggle(v, index).lineVisibility, j) == IsVisible(v.lineVisibility, j)
    ensures forall k :: 0 <= k < |v.rows| ==>
      Toggle(v, index).rows[k] ==
        if 0 <= index < |v.renderers| && FindRow(v.rows, index) == Some(k)
        then v.rows[k].(look := AppearanceFor(!v.renderers[index].visible))
        else v.rows[k]
  {
    if 0 <= index < |v.renderers| {
      PaintRowEffect(v.rows, index, AppearanceFor(!v.renderers[index].visible));
    }
  }

  /**
   * Toggling a line twice restores every renderer, leaves the map saying the
   * line's original flag and paints its row from that flag.
   */
  lemma ToggleTwice(v: View, index: int)
    ensures Toggle(Toggle(v, index), index).renderers == v.renderers
    ensures 0 <= index < |v.renderers| ==>
      && Toggle(Toggle(v, index), index).lineVisibility[index] == v.renderers[index].visible
      && forall k :: 0 <= k < |v.rows| ==>
           Toggle(Toggle(v, index), index).rows[k] ==
             if FindRow(v.rows, index) == Some(k) then v.rows[k].(look := AppearanceFor(v.renderers[index].visible))
             else v.rows[k]
  {
    if 0 <= index < |v.renderers| {
      var u := Toggle(v, index);
      var w := Toggle(u, index);
      ToggleEffect(v, index);
      ToggleEffect(u, index);
      assert w.renderers[index] == v.renderers[index];
      assert w.renderers == v.renderers;
      assert forall k :: 0 <= k < |v.rows| ==> u.rows[k].index == v.rows[k].index;
      assert FindRow(u.rows, index) == FindRow(v.rows, index) by {
        FindRowSameIndices(v.rows, u.rows, index);
      }
    }
  }

  /** Where a row is found depends only on the rows' data-indices. */
  lemma {:induction false} FindRowSameIndices(a: seq<LegendRow>, b: seq<LegendRow>, index: int)
    requires |a| == |b| && forall k :: 0 <= k < |a| ==> a[k].index == b[k].index
    ensures FindRow(a, index) == FindRow(b, index)
    decreases |a|
  {
    if a != [] && a[0].index != index {
      FindRowSameIndices(a[1..], b[1..], index);
    }
  }

  /** On a synchronised state, toggling a line twice restores the whole state. */
  lemma ToggleTwiceRestores(v: View, index: int)
    requires Agree(v) && Aligned(v)
    ensures Toggle(Toggle(v, index), index) == v
  {
    if 0 <= index < |v.renderers| {
      var w := Toggle(Toggle(v, index), index);
      var was := v.renderers[index].visible;
      assert index in v.lineVisibility && v.lineVisibility[index] == was;
      assert w.renderers == v.renderers by {
        ToggleTwice(v, index);
      }
      assert w.lineVisibility == v.lineVisibility by {
        ToggleTwice(v, index);
        assert w.lineVisibility == v.lineVisibility[index := was];
      }
      assert w.rows == v.rows by {
        ToggleTwice(v, index);
        FindRowInOrder(v.rows, index);
        assert v.rows[index].look == AppearanceFor(was);
        forall k | 0 <= k < |v.rows| ensures w.rows[k] == v.rows[k] {
        }
      }
    }
  }

  /** Toggling keeps renderers, map and legend in agreement and aligned. */
  lemma ToggleKeepsSync(v: View, index: int)
    requires Agree(v) && Aligned(v)
    ensures Agree(Toggle(v, index)) && Aligned(Toggle(v, index))
  {
    var w := Toggle(v, index);
    ToggleEffect(v, index);
    if 0 <= index < |v.renderers| {
      FindRowInOrder(v.rows, index);
      forall i | 0 <= i < |w.renderers| ensures w.renderers[i].visible == IsVisible(w.lineVisibility, i) {
      }
      forall k | 0 <= k < |w.rows| ensures w.rows[k].look == AppearanceFor(IsVisible(w.lineVisibility, w.rows[k].index)) {
      }
    }
  }

  /**
   * Show-all (hide-all) makes every renderer visible (hidden), sets the map
   * entry of every renderer index, keeps other map entries, and repaints every
   * legend row from the map; afterwards everything agrees, whatever the state
   * before.
   */
  lemma SetAllEffect(v: View, visible: bool)
    ensures |SetAll(v, visible).renderers| == |v.renderers|
    ensures forall i :: 0 <= i < |v.renderers| ==>
      SetAll(v, visible).renderers[i] == v.renderers[i].(visible := visible) &&
      i in SetAll(v, visible).lineVisibility && SetAll(v, visible).lineVisibility[i] == visible
    ensures forall i :: !(0 <= i < |v.renderers|) ==>
      && (i in SetAll(v, visible).lineVisibility <==> i in v.lineVisibility)
      && (i in v.lineVisibility ==> SetAll(v, visible).lineVisibility[i] == v.lineVisibility[i])
    ensures forall i :: !(0 <= i < |v.renderers|) ==>
      IsVisible(SetAll(v, visible).lineVisibility, i) == IsVisible(v.lineVisibility, i)
    ensures |SetAll(v, visible).rows| == |v.rows|
    ensures forall k :: 0 <= k < |v.rows| ==>
      SetAll(v, visible).rows[k] ==
        v.rows[k].(look := AppearanceFor(IsVisible(SetAll(v, visible).lineVisibility, v.rows[k].index)))
    ensures forall k :: 0 <= k < |v.rows| && 0 <= v.rows[k].index < |v.renderers| ==>
      SetAll(v, visible).rows[k].look == AppearanceFor(visible)
    ensures Agree(SetAll(v, visible))
  {
  }

  /** Show-all and hide-all keep the map and the legend aligned with the renderers. */
  lemma SetAllKeepsAligned(v: View, visible: bool)
    requires Aligned(v)
    ensures Aligned(SetAll(v, visible))
  {
    var w := SetAll(v, visible);
    assert |w.renderers| == |v.renderers|;
  }

  /** Extending the range by one index appends that index's row. */
  lemma RowsBetweenNext(m: map<int, bool>, lo: nat, hi: nat)
    requires lo <= hi
    ensures RowsBetween(m, lo, hi + 1) == RowsBetween(m, lo, hi) + [RowFor(m, hi)]
  {
    assert |RowsBetween(m, lo, hi + 1)| == |RowsBetween(m, lo, hi) + [RowFor(m, hi)]|;
  }

  /** The rows of two adjacent ranges, one after the other, are the rows of their union. */
  lemma RowsBetweenConcat(m: map<int, bool>, lo: nat, mid: nat, hi: int)
    requires lo <= mid <= hi
    ensures RowsBetween(m, lo, mid) + RowsBetween(m, mid, hi) == RowsBetween(m, lo, hi)
  {
    var left, right := RowsBetween(m, lo, mid), RowsBetween(m, mid, hi);
    forall j | 0 <= j < |left + right|
      ensures (left + right)[j] == RowsBetween(m, lo, hi)[j]
    {
      if j >= |left| {
        assert (left + right)[j] == right[j - |left|];
      }
    }
  }

  /** A view built entry by entry as the redraw does it is the freshly drawn state. */
  lemma RedrawnFromParts(n: int, lines: seq<Renderer>, m: map<int, bool>, rows: seq<LegendRow>)
    requires |lines| == (if n > 0 then n else 0) == |rows|
    requires forall j :: 0 <= j < |lines| ==> lines[j] == LineFor(j)
    requires m == map j | j in Span(0, |lines|) :: true
    requires rows == RowsBetween(m, 0, |lines|)
    ensures View(lines, m, rows) == Redrawn(n)
  {
    var spec := Redrawn(n);
    assert lines == spec.renderers;
  }

  /** The freshly drawn state: n visible lines named "i+" in palette colours, all shown. */
  lemma RedrawnLines(n: int)
    ensures |Redrawn(n).renderers| == (if n > 0 then n else 0) == |Redrawn(n).rows|
    ensures forall i :: 0 <= i < |Redrawn(n).renderers| ==>
      && Redrawn(n).renderers[i] == Renderer(i, Palette[i % 20], Label(i), true)
      && i in Redrawn(n).lineVisibility && Redrawn(n).lineVisibility[i]
      && Redrawn(n).rows[i] == LegendRow(i, Palette[i % 20], Label(i), Shown)
  {
    var v := Redrawn(n);
    forall i | 0 <= i < |v.renderers|
      ensures v.renderers[i] == Renderer(i, Palette[i % 20], Label(i), true)
      ensures i in v.lineVisibility && v.lineVisibility[i]
      ensures v.rows[i] == LegendRow(i, Palette[i % 20], Label(i), Shown)
    {
      assert v.renderers[i] == LineFor(i);
      assert v.rows[i] == RowFor(v.lineVisibility, i);
    }
  }

  /** The freshly drawn state is synchronised. */
  lemma RedrawnSync(n: int)
    ensures Agree(Redrawn(n)) && Aligned(Redrawn(n))
  {
    var v := Redrawn(n);
    RedrawnLines(n);
    forall i | 0 <= i < |v.renderers| ensures v.renderers[i].visible == IsVisible(v.lineVisibility, i) {
    }
    forall k | 0 <= k < |v.rows| ensures v.rows[k].look == AppearanceFor(IsVisible(v.lineVisibility, v.rows[k].index)) {
    }
  }

  /** The legend's click handlers: toggle one line, "Show All", and hide all. */
  datatype Event = ToggleLine(index: int) | ShowAll | HideAll

  function Apply(v: View, e: Event): View {
    match e
    case ToggleLine(index) => Toggle(v, index)
    case ShowAll => SetAll(v, true)
    case HideAll => SetAll(v, false)
  }

  function Run(v: View, events: seq<Event>): View
    decreases |events|
  {
    if events == [] then v else Run(Apply(v, events[0]), events[1..])
  }

  /** Any sequence of clicks keeps a synchronised state synchronised and the number of lines fixed. */
  lemma {:induction false} RunKeepsSync(v: View, events: seq<Event>)
    requires Agree(v) && Aligned(v)
    ensures Agree(Run(v, events)) && Aligned(Run(v, events))
    ensures |Run(v, events).renderers| == |v.renderers|
    decreases |events|
  {
    if events != [] {
      var w := Apply(v, events[0]);
      match events[0] {
        case ToggleLine(index) =>
          ToggleKeepsSync(v, index);
          ToggleEffect(v, index);
        case ShowAll =>
          SetAllEffect(v, true);
          SetAllKeepsAligned(v, true);
        case HideAll =>
          SetAllEffect(v, false);
          SetAllKeepsAligned(v, false);
      }
      RunKeepsSync(w, events[1..]);
    }
  }

  /**
   * After a re-render with n charge states and any clicks, for every line i the
   * renderer's flag, lineVisibility[i] and the look of legend row i agree.
   */
  lemma SyncAfterRedraw(n: int, events: seq<Event>)
    ensures forall i :: 0 <= i < |Run(Redrawn(n), events).renderers| ==>
      var v := Run(Redrawn(n), events);
      i in v.lineVisibility && i < |v.rows| && v.rows[i].index == i &&
      v.renderers[i].visible == v.lineVisibility[i] &&
      v.rows[i].look == AppearanceFor(v.lineVisibility[i])
  {
    RedrawnSync(n);
    RunKeepsSync(Redrawn(n), events);
  }
}
