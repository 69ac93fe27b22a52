/** The width of one box when the x axis is continuous or ordinal. */
module BoxWidth {

  /** The default gap between boxes, as a fraction of the box width. */
  const DefaultBoxPadding: real := 0.8

  /** _boxWidth: on an ordinal axis the band width of the x scale; on a
      continuous one the inner chart width shared by xUnits slots, each a box
      followed by a gap of boxPadding box widths. */
  function BoxWidth(isOrdinal: bool, rangeBand: real, innerChartWidth: real, xUnits: real, boxPadding: real): (w: real)
    requires !isOrdinal ==> xUnits != 0.0 && boxPadding != -1.0
    ensures isOrdinal ==> w == rangeBand
    ensures !isOrdinal ==> w * (1.0 + boxPadding) * xUnits == innerChartWidth
  {
    if isOrdinal then rangeBand
    else innerChartWidth / (1.0 + boxPadding) / xUnits
  }

  /** On a continuous axis a box fits in its slot: it is never wider than the
      inner width divided by the number of units, and never negative. */
  lemma BoxFitsSlot(innerChartWidth: real, xUnits: real, boxPadding: real)
    requires innerChartWidth >= 0.0 && xUnits > 0.0 && boxPadding >= 0.0
    ensures 0.0 <= BoxWidth(false, 0.0, innerChartWidth, xUnits, boxPadding) <= innerChartWidth / xUnits
  {
    var w := BoxWidth(false, 0.0, innerChartWidth, xUnits, boxPadding);
    var slot := innerChartWidth / xUnits;
    assert w * (1.0 + boxPadding) == slot;
    assert w >= 0.0;
    assert w <= w * (1.0 + boxPadding);
  }

  /** With the default padding a box takes 1/1.8 of its slot. */
  lemma DefaultBoxShare(innerChartWidth: real, xUnits: real)
    requires xUnits > 0.0
    ensures BoxWidth(false, 0.0, innerChartWidth, xUnits, DefaultBoxPadding) * 1.8 == innerChartWidth / xUnits
  {
    var w := BoxWidth(false, 0.0, innerChartWidth, xUnits, DefaultBoxPadding);
    assert w * 1.8 * xUnits == innerChartWidth;
  }
}
