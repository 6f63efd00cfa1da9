/** Integer layout of the side-by-side composites: a square canvas cut into
    two equal panels by a thin vertical divider, and the centring of a
    resized picture inside its panel. */
module Geometry {

  datatype Layout = Layout(size: int, panelWidth: int, dividerX: int, dividerWidth: int, rightX: int)

  /** Left panel, divider and right panel cover the columns [0, size) exactly,
      without overlap, and the two panels have the same width. */
  predicate TilesCanvas(l: Layout) {
    && 0 < l.panelWidth
    && l.panelWidth == l.dividerX
    && l.dividerX + l.dividerWidth == l.rightX
    && l.rightX + l.panelWidth == l.size
  }

  /** `half - dividerWidth/2`, `half + dividerWidth/2` with `half = size/2`.
      Even sizes keep every coordinate integral, as in all uses. */
  function SplitCanvas(size: int, divider: int): (l: Layout)
    requires 0 < divider < size && size % 2 == 0 && divider % 2 == 0
    ensures l.size == size && l.dividerWidth == divider
    ensures TilesCanvas(l)
    ensures 2 * l.dividerX + divider == size
  {
    var half := size / 2;
    Layout(size, half - divider / 2, half - divider / 2, divider, half + divider / 2)
  }

  /** `offset` places an extent inside a box, with the margins on either
      side equal or the far one larger by one, whenever the extent fits. */
  predicate CentredIn(offset: int, extent: int, box: int) {
    && 0 <= offset
    && (extent <= box ==> offset + extent <= box && (box - extent - offset) - offset in {0, 1})
  }

  /** `Math.max(0, Math.floor((box - extent) / 2))`. Dafny's `/` on a positive
      divisor rounds toward negative infinity, like `Math.floor`. */
  function CentreOffset(box: int, extent: int): (r: int)
    ensures CentredIn(r, extent, box)
    ensures extent >= box ==> r == 0
  {
    var o := (box - extent) / 2;
    if o < 0 then 0 else o
  }
}
