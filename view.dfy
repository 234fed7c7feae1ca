/** The zoom and pan state of the mind-map viewer and the handlers that change
    it. The page keeps one zoom factor, one pan offset, a panning flag and the
    point a drag started from; `ViewState` holds them as fields and its methods
    make the updates the handlers make. Each method is specified by a function
    on `View` snapshots, and the properties of the viewer are lemmas about those
    functions. Screen points are reals. */
module View {

  const MinZoom: real := 0.2
  const MaxZoom: real := 3.0

  /** A snapshot of the viewer state: zoom factor, pan offset, whether a drag
      is under way, and the drag anchor (pointer position minus pan offset at
      the moment the button went down). */
  datatype View = View(zoom: real, panX: real, panY: real, isPanning: bool, startX: real, startY: real)

  /** The state a fresh page starts with. */
  function Initial(): View {
    View(1.0, 0.0, 0.0, false, 0.0, 0.0)
  }

  function MinReal(a: real, b: real): real { if a <= b then a else b }
  function MaxReal(a: real, b: real): real { if a >= b then a else b }

  /** `zoomIn`: a fifth larger, capped at the maximum. */
  function ZoomedIn(z: real): (r: real)
    ensures r <= MaxZoom
    ensures z <= MaxZoom && z >= 0.0 ==> z <= r
    ensures MinZoom <= z <= MaxZoom ==> MinZoom <= r <= MaxZoom
    ensures r == MaxZoom || r == z * 1.2
  {
    MinReal(MaxZoom, z * 1.2)
  }

  /** `zoomOut`: a fifth smaller, floored at the minimum. */
  function ZoomedOut(z: real): (r: real)
    ensures MinZoom <= r
    ensures z >= MinZoom ==> r <= z
    ensures MinZoom <= z <= MaxZoom ==> MinZoom <= r <= MaxZoom
    ensures r == MinZoom || r == z * 0.8
  {
    MaxReal(MinZoom, z * 0.8)
  }

  /** The wheel handler: scrolling down shrinks by a tenth, any other scroll
      grows by a tenth, and the result is clamped to the zoom range from both
      sides, whatever the zoom was before. */
  function Wheeled(z: real, deltaY: real): (r: real)
    ensures MinZoom <= r <= MaxZoom
    ensures MinZoom <= z * (if deltaY > 0.0 then 0.9 else 1.1) <= MaxZoom
            ==> r == z * (if deltaY > 0.0 then 0.9 else 1.1)
  {
    var scaled := z * (if deltaY > 0.0 then 0.9 else 1.1);
    MaxReal(MinZoom, MinReal(MaxZoom, scaled))
  }

  /** `resetView` (and the reset `renderViewer` makes): zoom 1, no pan; the
      drag state is left alone. */
  function Reset(v: View): View {
    v.(zoom := 1.0, panX := 0.0, panY := 0.0)
  }

  /** Mouse-down: only the main button (0) starts a drag, anchored so that the
      current pan offset corresponds to the pointer position. */
  function Down(v: View, button: int, clientX: real, clientY: real): View {
    if button == 0 then v.(isPanning := true, startX := clientX - v.panX, startY := clientY - v.panY)
    else v
  }

  /** Mouse-move: while dragging, the pan offset follows the pointer relative to
      the anchor; otherwise nothing changes. */
  function Move(v: View, clientX: real, clientY: real): View {
    if v.isPanning then v.(panX := clientX - v.startX, panY := clientY - v.startY) else v
  }

  /** Mouse-up ends any drag. */
  function Up(v: View): View {
    v.(isPanning := false)
  }

  // ---------------------------------------------------------------------------
  // Properties of the handlers

  /** Reset gives zoom 1 and no pan whatever came before, and is idempotent. */
  lemma ResetAnyState(v: View)
    ensures Reset(v).zoom == 1.0 && Reset(v).panX == 0.0 && Reset(v).panY == 0.0
    ensures Reset(v).isPanning == v.isPanning
    ensures Reset(Reset(v)) == Reset(v)
  {
  }

  /** Moving the pointer back to where the button went down leaves the pan
      offset where it was: a drag does not jump when it starts. */
  lemma NoJumpOnGrab(v: View, x: real, y: real)
    ensures Move(Down(v, 0, x, y), x, y).panX == v.panX
    ensures Move(Down(v, 0, x, y), x, y).panY == v.panY
  {
  }

  /** During a drag the pan offset moves exactly as far as the pointer has moved
      since the button went down. */
  lemma DragFollowsPointer(v: View, x0: real, y0: real, x1: real, y1: real)
    ensures Move(Down(v, 0, x0, y0), x1, y1).panX == v.panX + (x1 - x0)
    ensures Move(Down(v, 0, x0, y0), x1, y1).panY == v.panY + (y1 - y0)
    ensures Move(Down(v, 0, x0, y0), x1, y1).zoom == v.zoom
  {
  }

  /** Successive moves of one drag do not accumulate: only the last pointer
      position matters. */
  lemma MovesDoNotAccumulate(v: View, x1: real, y1: real, x2: real, y2: real)
    ensures Move(Move(v, x1, y1), x2, y2) == Move(v, x2, y2)
  {
  }

  /** With no drag under way, pointer movement changes nothing; after mouse-up
      there is none. */
  lemma IdleMovesChangeNothing(v: View, x: real, y: real)
    ensures !v.isPanning ==> Move(v, x, y) == v
    ensures Move(Up(v), x, y) == Up(v)
  {
  }

  /** Buttons other than the main one do not start a drag. */
  lemma OnlyMainButtonGrabs(v: View, button: int, x: real, y: real)
    ensures Down(v, button, x, y).isPanning <==> (button == 0 || v.isPanning)
    ensures button != 0 ==> Down(v, button, x, y) == v
  {
  }

  /** From any state, any sequence of zoom steps keeps the zoom in range once it
      is in range; `steps` codes zoom-in as 0, zoom-out as 1 and a wheel event
      with the given vertical delta as anything else. */
  function ZoomSteps(z: real, steps: seq<(int, real)>): real
    decreases |steps|
  {
    if steps == [] then z
    else
      var (kind, delta) := steps[0];
      var z' := if kind == 0 then ZoomedIn(z) else if kind == 1 then ZoomedOut(z) else Wheeled(z, delta);
      ZoomSteps(z', steps[1..])
  }

  lemma {:induction false} ZoomStaysInRange(z: real, steps: seq<(int, real)>)
    requires MinZoom <= z <= MaxZoom
    ensures MinZoom <= ZoomSteps(z, steps) <= MaxZoom
    decreases |steps|
  {
    if steps != [] {
      var (kind, delta) := steps[0];
      var z' := if kind == 0 then ZoomedIn(z) else if kind == 1 then ZoomedOut(z) else Wheeled(z, delta);
      ZoomStaysInRange(z', steps[1..]);
    }
  }

  // ---------------------------------------------------------------------------
  // The viewer state as the page holds it

  class ViewState {
    var zoom: real
    var panX: real
    var panY: real
    var isPanning: bool
    var startX: real
    var startY: real

    function Snapshot(): View
      reads this
    {
      View(zoom, panX, panY, isPanning, startX, startY)
    }

    /** The state the module starts with: zoom 1, no pan, no drag. */
    constructor ()
      ensures Snapshot() == Initial()
    {
      zoom, panX, panY := 1.0, 0.0, 0.0;
      isPanning, startX, startY := false, 0.0, 0.0;
    }

    method ZoomIn()
      modifies this
      ensures Snapshot() == old(Snapshot()).(zoom := ZoomedIn(old(zoom)))
    {
      zoom := MinReal(MaxZoom, zoom * 1.2);
    }

    method ZoomOut()
      modifies this
      ensures Snapshot() == old(Snapshot()).(zoom := ZoomedOut(old(zoom)))
    {
      zoom := MaxReal(MinZoom, zoom * 0.8);
    }

    method Wheel(deltaY: real)
      modifies this
      ensures Snapshot() == old(Snapshot()).(zoom := Wheeled(old(zoom), deltaY))
    {
      zoom := zoom * (if deltaY > 0.0 then 0.9 else 1.1);
      zoom := MaxReal(MinZoom, MinReal(MaxZoom, zoom));
    }

    method ResetView()
      modifies this
      ensures Snapshot() == Reset(old(Snapshot()))
    {
      zoom := 1.0;
      panX, panY := 0.0, 0.0;
    }

    method MouseDown(button: int, clientX: real, clientY: real)
      modifies this
      ensures Snapshot() == Down(old(Snapshot()), button, clientX, clientY)
    {
      if button == 0 {
        isPanning := true;
        startX, startY := clientX - panX, clientY - panY;
      }
    }

    method MouseMove(clientX: real, clientY: real)
      modifies this
      ensures Snapshot() == Move(old(Snapshot()), clientX, clientY)
    {
      if !isPanning {
        return;
      }
      panX := clientX - startX;
      panY := clientY - startY;
    }

    method MouseUp()
      modifies this
      ensures Snapshot() == Up(old(Snapshot()))
    {
      isPanning := false;
    }
  }
}
