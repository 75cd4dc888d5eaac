/**
  The viewer state of spectrogram.js: zoom and pan driven by the mouse
  wheel, the textures of the loaded spectrogram, and the `dirty` flag that
  lets the periodic `drawScene` skip frames in which nothing changed.

  The canvas is modelled by what it currently shows, so that the purpose of
  the flag can be stated: whenever the flag is clear, the canvas already
  shows the scene the current state would draw.
 */
module Viewer {
  import opened Chunking

  /** `gl.getParameter(gl.MAX_TEXTURE_SIZE)`, which is never zero. */
  type TextureSize = n: nat | n > 0 witness 1

  /** Everything one `drawScene` call hands to the renderer: the 3x3 zoom
      matrix as uploaded, one quad per texture, and the textures' texels. */
  datatype Scene = Scene(matrix: seq<real>, quads: seq<seq<Vertex>>, textures: seq<seq<real>>)

  /** What the canvas displays: nothing since the last resize cleared it,
      or the scene of some earlier draw. */
  datatype Canvas = Blank | Shows(scene: Scene)

  datatype State = State(maxWidth: TextureSize,
                         zoom: real, panX: real, panY: real,
                         dirty: bool,
                         plan: seq<Chunk>, textures: seq<seq<real>>,
                         canvas: Canvas)

  /** Pan distance per unit of wheel delta. */
  const PanStep: real := 0.001

  /** The global variables before `start` runs: no zoom, no pan, a clean
      flag and no textures. */
  function Initial(maxWidth: TextureSize): State {
    State(maxWidth, 1.0, 0.0, 0.0, false, [], [], Blank)
  }

  /** `zoomMatrix` in `drawScene`, as the nine values handed to
      `uniformMatrix3fv`: zoom in entries 0 and 4, the pan in entries 2
      and 5, y panned in the opposite direction. */
  function ZoomMatrix(zoom: real, panX: real, panY: real): (m: seq<real>)
    ensures |m| == 9
  {
    [zoom, 0.0, panX,
     0.0, zoom, -panY,
     0.0, 0.0, 1.0]
  }

  /** The identity matrix. */
  const Identity: seq<real> := [1.0, 0.0, 0.0, 0.0, 1.0, 0.0, 0.0, 0.0, 1.0]

  /** With no zoom and no pan the matrix leaves the quads where they are. */
  lemma RestMatrixIsIdentity()
    ensures ZoomMatrix(1.0, 0.0, 0.0) == Identity
  {
  }

  /** Different views upload different matrices. */
  lemma ZoomMatrixInjective(z1: real, x1: real, y1: real, z2: real, x2: real, y2: real)
    ensures ZoomMatrix(z1, x1, y1) == ZoomMatrix(z2, x2, y2) <==> z1 == z2 && x1 == x2 && y1 == y2
  {
    if ZoomMatrix(z1, x1, y1) == ZoomMatrix(z2, x2, y2) {
      assert ZoomMatrix(z1, x1, y1)[0] == ZoomMatrix(z2, x2, y2)[0];
      assert ZoomMatrix(z1, x1, y1)[2] == ZoomMatrix(z2, x2, y2)[2];
      assert ZoomMatrix(z1, x1, y1)[5] == ZoomMatrix(z2, x2, y2)[5];
    }
  }

  /** The scene a draw of state s renders. */
  function SceneOf(s: State): Scene {
    Scene(ZoomMatrix(s.zoom, s.panX, s.panY),
          seq(|s.plan|, i requires 0 <= i < |s.plan| => Quad(s.plan[i])),
          s.textures)
  }

  /** `resizeCanvas`: setting the canvas size clears it; the next draw must
      repaint. */
  function Resize(s: State): (r: State)
    ensures r.dirty && r.canvas == Blank
    ensures r.(dirty := s.dirty, canvas := s.canvas) == s
  {
    s.(dirty := true, canvas := Blank)
  }

  /** `loadSpectrogram`: replace the textures by the plan for the new
      spectrogram and its uploads, and request a repaint. */
  function Load(s: State, samples: seq<real>, nblocks: nat, nfreqs: nat): (r: State)
    ensures r.dirty
    ensures r.plan == Plan(nblocks, nfreqs, s.maxWidth)
    ensures |r.textures| == |r.plan|
    ensures nfreqs <= s.maxWidth && |samples| == nblocks * nfreqs ==> Concat(r.textures) == samples
    ensures nfreqs <= s.maxWidth && |samples| == nblocks * nfreqs ==> HoldsRegions(samples, nfreqs, r.plan, r.textures)
    ensures r.(dirty := s.dirty, plan := s.plan, textures := s.textures) == s
  {
    var plan := Plan(nblocks, nfreqs, s.maxWidth);
    var r := s.(dirty := true, plan := plan, textures := Textures(samples, nfreqs, s.maxWidth, plan));
    if nfreqs <= s.maxWidth && |samples| == nblocks * nfreqs then
      PlanCoversSamples(samples, nblocks, nfreqs, s.maxWidth);
      PlanHoldsRegions(samples, nblocks, nfreqs, s.maxWidth);
      r
    else
      r
  }

  /** `canvas.onwheel`: with shift held, scale the zoom by `factor`
      (`Math.pow(0.99, deltaY)`) but never below 1; otherwise pan by the
      wheel deltas. Either way a repaint is requested. */
  function Wheel(s: State, shiftKey: bool, deltaX: real, deltaY: real, factor: real): (r: State)
    ensures r.dirty
    ensures shiftKey ==>
      && r.zoom >= 1.0 && r.zoom >= s.zoom * factor
      && (r.zoom == 1.0 || r.zoom == s.zoom * factor)
      && r.(zoom := s.zoom, dirty := s.dirty) == s
    ensures !shiftKey ==>
      && r.panX == s.panX + PanStep * deltaX
      && r.panY == s.panY + PanStep * deltaY
      && r.(panX := s.panX, panY := s.panY, dirty := s.dirty) == s
  {
    if shiftKey then
      var z := s.zoom * factor;
      s.(zoom := if z < 1.0 then 1.0 else z, dirty := true)
    else
      s.(panY := s.panY + PanStep * deltaY, panX := s.panX + PanStep * deltaX, dirty := true)
  }

  /** `drawScene`: does nothing while the document is hidden or nothing
      changed; otherwise paints the current scene and clears the flag. */
  function Draw(s: State, hidden: bool): (r: State)
    ensures hidden || !s.dirty ==> r == s
    ensures !hidden ==> !r.dirty
    ensures !hidden && s.dirty ==> r.canvas == Shows(SceneOf(s))
    ensures r.(dirty := s.dirty, canvas := s.canvas) == s
  {
    if hidden || !s.dirty then s else s.(canvas := Shows(SceneOf(s)), dirty := false)
  }

  /** The browser events the viewer reacts to; `Tick` is one firing of the
      15 ms draw interval. */
  datatype Event =
    | WheelEvent(shiftKey: bool, deltaX: real, deltaY: real, factor: real)
    | ResizeEvent
    | LoadEvent(samples: seq<real>, nblocks: nat, nfreqs: nat)
    | Tick(hidden: bool)

  /** One event applied to the viewer. Every event keeps the viewer
      invariant and the texture size. */
  function Step(s: State, e: Event): (r: State)
    ensures r.maxWidth == s.maxWidth
    ensures Consistent(s) ==> Consistent(r)
  {
    match e
    case WheelEvent(shiftKey, dx, dy, factor) => Wheel(s, shiftKey, dx, dy, factor)
    case ResizeEvent => Resize(s)
    case LoadEvent(samples, nblocks, nfreqs) => Load(s, samples, nblocks, nfreqs)
    case Tick(hidden) => Draw(s, hidden)
  }

  /** The state after a sequence of events, in order. */
  function Run(s: State, es: seq<Event>): State
    decreases |es|
  {
    if |es| == 0 then s else Run(Step(s, es[0]), es[1..])
  }

  /** The viewer invariant: the zoom never drops below 1, and a clear flag
      means the canvas is up to date, so skipping the draw loses nothing. */
  predicate Consistent(s: State) {
    s.zoom >= 1.0 && (!s.dirty ==> s.canvas == Shows(SceneOf(s)))
  }

  /** `start`: resize the canvas, then load a blank 16 by 16 spectrogram. */
  function Start(maxWidth: TextureSize): (r: State)
    ensures Consistent(r) && r.dirty
    ensures r.zoom == 1.0 && r.panX == 0.0 && r.panY == 0.0
    ensures r.plan == Plan(16, 16, maxWidth)
    ensures maxWidth >= 16 ==> |r.plan| == 1
    ensures 16 <= maxWidth ==> Concat(r.textures) == seq(256, _ => 0.0)
  {
    NumTexturesIsCeiling(16, maxWidth);
    if maxWidth >= 16 then
      SingleTexture(16, maxWidth);
      Load(Resize(Initial(maxWidth)), seq(256, _ => 0.0), 16, 16)
    else
      Load(Resize(Initial(maxWidth)), seq(256, _ => 0.0), 16, 16)
  }

  /** Every event keeps the viewer invariant. */
  lemma StepPreservesConsistent(s: State, e: Event)
    requires Consistent(s)
    ensures Consistent(Step(s, e))
  {
  }

  /** The invariant holds after any sequence of events. */
  lemma {:induction false} RunPreservesConsistent(s: State, es: seq<Event>)
    requires Consistent(s)
    ensures Consistent(Run(s, es))
    decreases |es|
  {
    if |es| > 0 {
      StepPreservesConsistent(s, es[0]);
      RunPreservesConsistent(Step(s, es[0]), es[1..]);
    }
  }

  /** What the dirty flag is for: a visible draw leaves the canvas showing
      the current scene whether or not it repainted. */
  lemma DrawShowsCurrentScene(s: State)
    requires Consistent(s)
    ensures Draw(s, false).canvas == Shows(SceneOf(s))
    ensures SceneOf(Draw(s, false)) == SceneOf(s)
  {
  }

  /** Drawing twice with no event in between changes nothing the second time. */
  lemma DrawIdempotent(s: State, hidden: bool)
    ensures Draw(Draw(s, hidden), hidden) == Draw(s, hidden)
  {
  }

  /** After any sequence of events from start, the next visible draw shows
      the scene of the current state. */
  lemma StartedViewerShowsCurrentScene(maxWidth: TextureSize, es: seq<Event>)
    ensures Draw(Run(Start(maxWidth), es), false).canvas == Shows(SceneOf(Run(Start(maxWidth), es)))
  {
    RunPreservesConsistent(Start(maxWidth), es);
    DrawShowsCurrentScene(Run(Start(maxWidth), es));
  }

  /** The horizontal and vertical pan deltas of an event: those of an
      unshifted wheel event, zero for every other event. */
  function PanDeltaX(e: Event): real {
    if e.WheelEvent? && !e.shiftKey then e.deltaX else 0.0
  }

  function PanDeltaY(e: Event): real {
    if e.WheelEvent? && !e.shiftKey then e.deltaY else 0.0
  }

  /** The summed pan deltas of a sequence of events. */
  function SumPanX(es: seq<Event>): real
    decreases |es|
  {
    if |es| == 0 then 0.0 else PanDeltaX(es[0]) + SumPanX(es[1..])
  }

  function SumPanY(es: seq<Event>): real
    decreases |es|
  {
    if |es| == 0 then 0.0 else PanDeltaY(es[0]) + SumPanY(es[1..])
  }

  /** Panning accumulates: after any sequence of events the view has moved
      by PanStep times the summed deltas of the unshifted wheel events, and
      no other event moves it. */
  lemma {:induction false} PanAccumulates(s: State, es: seq<Event>)
    ensures Run(s, es).panX == s.panX + PanStep * SumPanX(es)
    ensures Run(s, es).panY == s.panY + PanStep * SumPanY(es)
    decreases |es|
  {
    if |es| > 0 {
      PanAccumulates(Step(s, es[0]), es[1..]);
    }
  }

  /** Only shifted wheel events change the zoom. */
  lemma {:induction false} ZoomNeedsShift(s: State, es: seq<Event>)
    requires forall k :: 0 <= k < |es| ==> !(es[k].WheelEvent? && es[k].shiftKey)
    ensures Run(s, es).zoom == s.zoom
    decreases |es|
  {
    if |es| > 0 {
      assert forall k :: 0 <= k < |es[1..]| ==> es[1..][k] == es[k + 1];
      ZoomNeedsShift(Step(s, es[0]), es[1..]);
    }
  }
}
