/** The zoom rule shared by the three manager variants: increaseTileSizeInPixels(v)
    subtracts v from the tile size, but refuses to grow a tile of 100 pixels or more and
    to shrink a tile already at or below the variant's lower bound. */
module Zoom {
  import opened Wrappers

  /** The new tile size, or None when the change is refused and the size stays. */
  function ZoomedSize(size: int, value: int, lowerBound: int): (r: Option<int>)
    ensures r.Some? <==> (value < 0 && size < 100) || (value >= 0 && size > lowerBound)
    ensures r.Some? ==> r.value == size - value
    ensures r.Some? && value < 0 ==> r.value > size
    ensures r.Some? && value > 0 ==> r.value < size
  {
    if value < 0 then
      if size < 100 then Some(size - value) else None
    else if size > lowerBound then Some(size - value)
    else None
  }

  /** Zooming in is always reversible from above the lower bound: the zoom-out by the
      same step is accepted (the enlarged tile is above the bound) and gives the size
      back. */
  lemma ZoomInThenOut(size: int, value: int, lowerBound: int)
    requires value < 0 && size > lowerBound
    requires ZoomedSize(size, value, lowerBound).Some?
    ensures ZoomedSize(ZoomedSize(size, value, lowerBound).value, -value, lowerBound) == Some(size)
  {
  }

  /** Zooming out to a tile smaller than 100 pixels is reversible: the zoom-in by the
      same step is accepted and gives the size back. */
  lemma ZoomOutThenIn(size: int, value: int, lowerBound: int)
    requires value > 0
    requires ZoomedSize(size, value, lowerBound).Some? && size - value < 100
    ensures ZoomedSize(ZoomedSize(size, value, lowerBound).value, -value, lowerBound) == Some(size)
  {
  }
}
