/** The picture viewer's zoom: a percentage moved in steps of 25 between 25
    and 400, with a button that goes back to 100. */
module ImageViewer {
  const MinZoom: int := 25
  const MaxZoom: int := 400
  const ZoomStep: int := 25
  const FitZoom: int := 100

  /** The zoom levels the buttons can reach. */
  predicate ZoomLevel(z: int)
  {
    MinZoom <= z <= MaxZoom && z % ZoomStep == 0
  }

  function ZoomedIn(z: int): (r: int)
    ensures ZoomLevel(z) ==> ZoomLevel(r)
    ensures r >= z || r == MaxZoom
  {
    if z + ZoomStep < MaxZoom then z + ZoomStep else MaxZoom
  }

  function ZoomedOut(z: int): (r: int)
    ensures ZoomLevel(z) ==> ZoomLevel(r)
    ensures r <= z || r == MinZoom
  {
    if z - ZoomStep > MinZoom then z - ZoomStep else MinZoom
  }

  /** Zooming in and then out returns to the level below the top, and zooming
      out and then in returns to the level above the bottom. */
  lemma InThenOut(z: int)
    requires ZoomLevel(z)
    ensures z < MaxZoom ==> ZoomedOut(ZoomedIn(z)) == z
    ensures z > MinZoom ==> ZoomedIn(ZoomedOut(z)) == z
  {
  }

  /** At the ends of the range the matching button does nothing, and nowhere else. */
  lemma EndsAreFixed(z: int)
    requires ZoomLevel(z)
    ensures ZoomedIn(z) == z <==> z == MaxZoom
    ensures ZoomedOut(z) == z <==> z == MinZoom
  {
  }

  /** `k` presses of the zoom-in button. */
  function ZoomInTimes(z: int, k: nat): int
  {
    if k == 0 then z else ZoomedIn(ZoomInTimes(z, k - 1))
  }

  /** `k` presses of zoom-in from a reachable level add 25 each, up to 400. */
  lemma {:induction false} ZoomInTimesValue(z: int, k: nat)
    requires ZoomLevel(z)
    ensures ZoomInTimes(z, k) == if z + ZoomStep * k < MaxZoom then z + ZoomStep * k else MaxZoom
  {
    if k > 0 {
      ZoomInTimesValue(z, k - 1);
    }
  }

  /** Twelve or more presses from the fitted size reach the largest zoom and stay there. */
  lemma FitToMax(k: nat)
    requires k >= 12
    ensures ZoomInTimes(FitZoom, k) == MaxZoom
  {
    ZoomInTimesValue(FitZoom, k);
  }

  /** The viewer's one piece of state. */
  class Viewer {
    var zoom: int

    ghost predicate Valid()
      reads this
    {
      ZoomLevel(zoom)
    }

    constructor ()
      ensures Valid() && zoom == FitZoom
    {
      zoom := FitZoom;
    }

    method ZoomOut()
      requires Valid()
      modifies this
      ensures Valid() && zoom == ZoomedOut(old(zoom))
    {
      zoom := if zoom - ZoomStep > MinZoom then zoom - ZoomStep else MinZoom;
    }

    method ZoomIn()
      requires Valid()
      modifies this
      ensures Valid() && zoom == ZoomedIn(old(zoom))
    {
      zoom := if zoom + ZoomStep < MaxZoom then zoom + ZoomStep else MaxZoom;
    }

    method Fit()
      modifies this
      ensures Valid() && zoom == FitZoom
    {
      zoom := FitZoom;
    }
  }
}
