/** Selection feedback of dc.boxPlot: how each box looks under the chart's
    current filters. */
module Selection {

  /** The three looks the host gives a box: highlightSelected,
      fadeDeselected, resetHighlight. */
  datatype Highlight = Highlighted | Faded | Reset

  /** hasFilter(): some filter is active. */
  predicate HasFilter<K>(filters: set<K>) {
    filters != {}
  }

  /** isSelectedNode: the box's key is one of the filters. */
  predicate IsSelectedNode<K>(filters: set<K>, key: K) {
    key in filters
  }

  /** The look fadeDeselectedArea gives the box with this key. */
  function Classify<K>(filters: set<K>, key: K): (h: Highlight)
    ensures h == Highlighted <==> filters != {} && key in filters
    ensures h == Faded <==> filters != {} && key !in filters
    ensures h == Reset <==> filters == {}
  {
    if HasFilter(filters) then
      if IsSelectedNode(filters, key) then Highlighted else Faded
    else Reset
  }

  /** With a single filter K, the box K is the one highlighted box. */
  lemma SingleFilter<K>(k: K, key: K)
    ensures Classify({k}, key) == (if key == k then Highlighted else Faded)
  {
  }
}
