/** The PDF viewer's zoom control (src/pages/pdf/pdf-viewver.jsx): starts at
    100 percent and moves in steps of 25 between 50 and 200, clamping at either
    end. */
module PdfViewer {

  const InitialZoom := 100
  const MinZoom := 50
  const MaxZoom := 200
  const ZoomStep := 25

  /** The zoom levels the buttons can reach from the initial one. */
  predicate Valid(z: int)
  {
    MinZoom <= z <= MaxZoom && z % ZoomStep == 0
  }

  /** `Math.max(50, zoom - 25)`. */
  function ZoomOut(z: int): (r: int)
    ensures r >= MinZoom
    ensures r <= z || r == MinZoom
    ensures z - ZoomStep <= r
  {
    if z - ZoomStep > MinZoom then z - ZoomStep else MinZoom
  }

  /** `Math.min(200, zoom + 25)`. */
  function ZoomIn(z: int): (r: int)
    ensures r <= MaxZoom
    ensures r >= z || r == MaxZoom
    ensures r <= z + ZoomStep
  {
    if z + ZoomStep < MaxZoom then z + ZoomStep else MaxZoom
  }

  datatype Press = In | Out

  function Apply(z: int, presses: seq<Press>): int
    decreases |presses|
  {
    if |presses| == 0 then z
    else Apply(if presses[0] == In then ZoomIn(z) else ZoomOut(z), presses[1..])
  }

  /** Whatever buttons are pressed, the zoom stays a valid level. */
  lemma {:induction false} ApplyKeepsValid(z: int, presses: seq<Press>)
    requires Valid(z)
    ensures Valid(Apply(z, presses))
    decreases |presses|
  {
    if |presses| > 0 {
      var next := if presses[0] == In then ZoomIn(z) else ZoomOut(z);
      assert Valid(next);
      ApplyKeepsValid(next, presses[1..]);
    }
  }

  /** The viewer opens at a valid level, so every level it can reach is valid. */
  lemma {:induction false} ReachableZoomsValid(presses: seq<Press>)
    ensures Valid(InitialZoom)
    ensures Valid(Apply(InitialZoom, presses))
  {
    ApplyKeepsValid(InitialZoom, presses);
  }

  /** Below the top, zooming in and back out returns to the same level. */
  lemma InThenOut(z: int)
    requires Valid(z) && z < MaxZoom
    ensures ZoomOut(ZoomIn(z)) == z
  {
  }

  /** Above the bottom, zooming out and back in returns to the same level. */
  lemma OutThenIn(z: int)
    requires Valid(z) && z > MinZoom
    ensures ZoomIn(ZoomOut(z)) == z
  {
  }

  /** The ends are fixed points of the button that would pass them. */
  lemma ClampedAtEnds()
    ensures ZoomIn(MaxZoom) == MaxZoom && ZoomOut(MinZoom) == MinZoom
  {
  }

  function Repeat(p: Press, n: nat): (ps: seq<Press>)
    ensures |ps| == n
    ensures forall i :: 0 <= i < n ==> ps[i] == p
  {
    if n == 0 then [] else [p] + Repeat(p, n - 1)
  }

  /** Pressing zoom-in `n` times adds 25 per press until the cap. */
  lemma {:induction false} RepeatedZoomIn(z: int, n: nat)
    requires z <= MaxZoom
    ensures Apply(z, Repeat(In, n)) == if z + ZoomStep * n < MaxZoom then z + ZoomStep * n else MaxZoom
    decreases n
  {
    if n > 0 {
      assert Repeat(In, n)[1..] == Repeat(In, n - 1);
      RepeatedZoomIn(ZoomIn(z), n - 1);
    }
  }

  /** Pressing zoom-out `n` times takes 25 per press until the floor. */
  lemma {:induction false} RepeatedZoomOut(z: int, n: nat)
    requires z >= MinZoom
    ensures Apply(z, Repeat(Out, n)) == if z - ZoomStep * n > MinZoom then z - ZoomStep * n else MinZoom
    decreases n
  {
    if n > 0 {
      assert Repeat(Out, n)[1..] == Repeat(Out, n - 1);
      RepeatedZoomOut(ZoomOut(z), n - 1);
    }
  }
}
