/** The data side of dc.boxPlot: the adapter that turns the group's records
    into the chart's data, and the y-axis extent derived from that data. */
module ChartData {

  datatype Option<T> = None | Some(value: T)

  /** A record of the crossfilter group: its key and its aggregated value.
      The chart's value accessor maps a record to its sample. */
  datatype Record<K, V> = Record(key: K, value: V)

  /** The padding the chart adds around the data extent on the y axis. */
  const DefaultYAxisPadding: real := 12.0

  /** The chart data: the group's records in their order, without those whose
      sample is empty. */
  function Renderable<K, V>(groups: seq<Record<K, V>>, valueOf: Record<K, V> -> seq<real>): (r: seq<Record<K, V>>)
    ensures |r| <= |groups|
    ensures forall t :: 0 <= t < |r| ==> r[t] in groups && |valueOf(r[t])| != 0
    ensures forall t :: 0 <= t < |groups| && |valueOf(groups[t])| != 0 ==> groups[t] in r
  {
    if groups == [] then []
    else (if |valueOf(groups[0])| != 0 then [groups[0]] else []) + Renderable(groups[1..], valueOf)
  }

  /** The adapter keeps order: filtering a concatenation filters each part. */
  lemma {:induction false} RenderableAppend<K, V>(a: seq<Record<K, V>>, b: seq<Record<K, V>>, valueOf: Record<K, V> -> seq<real>)
    ensures Renderable(a + b, valueOf) == Renderable(a, valueOf) + Renderable(b, valueOf)
  {
    if a != [] {
      assert (a + b)[0] == a[0] && (a + b)[1..] == a[1..] + b;
      RenderableAppend(a[1..], b, valueOf);
    } else {
      assert a + b == b;
    }
  }

  /** Only empty samples are dropped: data without one passes through as is. */
  lemma {:induction false} RenderableKeepsNonEmpty<K, V>(groups: seq<Record<K, V>>, valueOf: Record<K, V> -> seq<real>)
    requires forall t :: 0 <= t < |groups| ==> |valueOf(groups[t])| != 0
    ensures Renderable(groups, valueOf) == groups
  {
    if groups != [] {
      RenderableKeepsNonEmpty(groups[1..], valueOf);
    }
  }

  /** Applying the adapter to its own output changes nothing. */
  lemma RenderableIdempotent<K, V>(groups: seq<Record<K, V>>, valueOf: Record<K, V> -> seq<real>)
    ensures Renderable(Renderable(groups, valueOf), valueOf) == Renderable(groups, valueOf)
  {
    var r := Renderable(groups, valueOf);
    RenderableKeepsNonEmpty(r, valueOf);
  }

  /** d3.min over a sample: undefined (None) for an empty one. */
  function Least(s: seq<real>): (r: Option<real>)
    ensures r.None? <==> s == []
    ensures r.Some? ==> r.value in s && forall t :: 0 <= t < |s| ==> r.value <= s[t]
  {
    if s == [] then None
    else match Least(s[1..])
      case None => Some(s[0])
      case Some(m) => Some(if s[0] <= m then s[0] else m)
  }

  /** d3.max over a sample: undefined (None) for an empty one. */
  function Greatest(s: seq<real>): (r: Option<real>)
    ensures r.None? <==> s == []
    ensures r.Some? ==> r.value in s && forall t :: 0 <= t < |s| ==> s[t] <= r.value
  {
    if s == [] then None
    else match Greatest(s[1..])
      case None => Some(s[0])
      case Some(m) => Some(if s[0] >= m then s[0] else m)
  }

  /** d3.min(data, e => d3.min(valueOf(e))): the per-record minima, of which
      the undefined ones are ignored, reduced to their minimum. */
  function LeastOver<K, V>(data: seq<Record<K, V>>, valueOf: Record<K, V> -> seq<real>): (r: Option<real>)
    ensures r.None? <==> forall t :: 0 <= t < |data| ==> valueOf(data[t]) == []
    ensures r.Some? ==> forall t, x :: 0 <= t < |data| && x in valueOf(data[t]) ==> r.value <= x
    ensures r.Some? ==> exists t :: 0 <= t < |data| && r.value in valueOf(data[t])
  {
    if data == [] then None
    else
      var head, rest := Least(valueOf(data[0])), LeastOver(data[1..], valueOf);
      match (head, rest)
      case (None, _) => rest
      case (Some(m), None) => head
      case (Some(m), Some(n)) => Some(if m <= n then m else n)
  }

  /** d3.max(data, e => d3.max(valueOf(e))). */
  function GreatestOver<K, V>(data: seq<Record<K, V>>, valueOf: Record<K, V> -> seq<real>): (r: Option<real>)
    ensures r.None? <==> forall t :: 0 <= t < |data| ==> valueOf(data[t]) == []
    ensures r.Some? ==> forall t, x :: 0 <= t < |data| && x in valueOf(data[t]) ==> x <= r.value
    ensures r.Some? ==> exists t :: 0 <= t < |data| && r.value in valueOf(data[t])
  {
    if data == [] then None
    else
      var head, rest := Greatest(valueOf(data[0])), GreatestOver(data[1..], valueOf);
      match (head, rest)
      case (None, _) => rest
      case (Some(m), None) => head
      case (Some(m), Some(n)) => Some(if m >= n then m else n)
  }

  /** yAxisMin: the least value of the chart data, less the padding; None
      when the chart has no data. */
  function YAxisMin<K, V>(groups: seq<Record<K, V>>, valueOf: Record<K, V> -> seq<real>, padding: real): (r: Option<real>)
    ensures r.None? <==> forall t :: 0 <= t < |groups| ==> valueOf(groups[t]) == []
    ensures r.Some? ==> forall t, x :: 0 <= t < |groups| && x in valueOf(groups[t]) ==> r.value + padding <= x
    ensures r.Some? ==> exists t :: 0 <= t < |groups| && r.value + padding in valueOf(groups[t])
  {
    match LeastOver(Renderable(groups, valueOf), valueOf)
    case None => None
    case Some(m) => Some(m - padding)
  }

  /** yAxisMax: the greatest value of the chart data, plus the padding; None
      when the chart has no data. */
  function YAxisMax<K, V>(groups: seq<Record<K, V>>, valueOf: Record<K, V> -> seq<real>, padding: real): (r: Option<real>)
    ensures r.None? <==> forall t :: 0 <= t < |groups| ==> valueOf(groups[t]) == []
    ensures r.Some? ==> forall t, x :: 0 <= t < |groups| && x in valueOf(groups[t]) ==> x <= r.value - padding
    ensures r.Some? ==> exists t :: 0 <= t < |groups| && r.value - padding in valueOf(groups[t])
  {
    match GreatestOver(Renderable(groups, valueOf), valueOf)
    case None => None
    case Some(m) => Some(m + padding)
  }

  /** The two ends of the axis are defined together, and with the padding
      removed they are in order: the data extent is never inverted. */
  lemma YAxisOrdered<K, V>(groups: seq<Record<K, V>>, valueOf: Record<K, V> -> seq<real>, padding: real)
    ensures YAxisMin(groups, valueOf, padding).Some? <==> YAxisMax(groups, valueOf, padding).Some?
    ensures YAxisMin(groups, valueOf, padding).Some? ==>
      YAxisMin(groups, valueOf, padding).value + padding <= YAxisMax(groups, valueOf, padding).value - padding
  {
    var lo, hi := YAxisMin(groups, valueOf, padding), YAxisMax(groups, valueOf, padding);
    if lo.Some? {
      var t :| 0 <= t < |groups| && lo.value + padding in valueOf(groups[t]);
      assert lo.value + padding <= hi.value - padding;
    }
  }

  /** Groups whose samples span [2, 8] and [1, 20] give the axis [-11, 32]
      with the default padding. */
  lemma YAxisExample()
    ensures YAxisMin(ExampleGroups(), ExampleValues, DefaultYAxisPadding) == Some(-11.0)
    ensures YAxisMax(ExampleGroups(), ExampleValues, DefaultYAxisPadding) == Some(32.0)
  {
    RenderableKeepsNonEmpty(ExampleGroups(), ExampleValues);
    ExampleLeast();
    ExampleGreatest();
  }

  lemma ExampleLeast()
    ensures LeastOver(ExampleGroups(), ExampleValues) == Some(1.0)
  {
    var g0, g1 := Record(0, [2.0, 8.0]), Record(1, [1.0, 20.0]);
    ExampleLast();
    assert [g0, g1][1..] == [g1];
    assert [2.0, 8.0][1..] == [8.0];
  }

  lemma ExampleGreatest()
    ensures GreatestOver(ExampleGroups(), ExampleValues) == Some(20.0)
  {
    var g0, g1 := Record(0, [2.0, 8.0]), Record(1, [1.0, 20.0]);
    ExampleLast();
    assert [g0, g1][1..] == [g1];
    assert [2.0, 8.0][1..] == [8.0];
  }

  lemma ExampleLast()
    ensures LeastOver([Record(1, [1.0, 20.0])], ExampleValues) == Some(1.0)
    ensures GreatestOver([Record(1, [1.0, 20.0])], ExampleValues) == Some(20.0)
  {
    assert [Record(1, [1.0, 20.0])][1..] == [];
    assert [1.0, 20.0][1..] == [20.0];
  }

  function ExampleGroups(): seq<Record<int, seq<real>>> {
    [Record(0, [2.0, 8.0]), Record(1, [1.0, 20.0])]
  }

  function ExampleValues(r: Record<int, seq<real>>): seq<real> {
    r.value
  }
}
