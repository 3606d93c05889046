/** The FlightMap component's event handling: its two pieces of state, the
    three map-engine events it reacts to, and the callbacks and engine calls
    each event causes. Every handler is a pure function from the current
    state (and the map handle as it is when the event arrives) to the new
    state and the emissions, in the order the handler performs them. */
module FlightMap {
  import opened Wrappers
  import opened Geo
  import opened Selection

  /** The camera description the engine reports on a viewport change. */
  datatype Viewport = Viewport(latitude: real, longitude: real, zoom: real, pitch: real, bearing: real)

  /** The engine's interaction metadata accompanying a viewport change; the
      component receives it but never looks at it. */
  datatype Interaction = Interaction(inTransition: bool, isDragging: bool, isPanning: bool, isRotating: bool, isZooming: bool)

  /** Component state: the last viewport reported (None until the first
      change) and whether the aircraft info overlay is visible. */
  datatype State = State(viewport: Option<Viewport>, overlayVisible: bool)

  /** The state a freshly mounted component starts in. */
  const Initial := State(None, false)

  /** Which optional callback props the host registered. */
  datatype Callbacks = Callbacks(hasOnMapChange: bool, hasOnAircraftSelect: bool)

  /** The map-engine events the component handles. */
  datatype Event =
    | Load
    | Click(features: seq<Feature>)
    | ViewportChange(viewState: Viewport, interaction: Interaction, oldViewState: Viewport)

  /** What the component does to the outside world: call one of the host's
      callbacks, or register an image with the map engine. */
  datatype Emission =
    | AircraftSelected(icao24: Option<string>)
    | MapChanged(viewState: Viewport, bounds: GeoBounds)
    | AddImage(name: string, width: nat, height: nat, sdf: bool)

  /** The name under which the aircraft icon is registered with the engine. */
  const AircraftIconName: string := "aircraft-icon"

  /** The icon is rasterised to this many pixels in each direction. */
  const AircraftIconSize: nat := 24

  /** The one image registration the component ever requests. */
  const IconRegistration := AddImage(AircraftIconName, AircraftIconSize, AircraftIconSize, true)

  datatype StepResult = StepResult(state: State, emissions: seq<Emission>)

  /** On load, registers the aircraft icon as a signed-distance-field image,
      but only when the map is mounted. The rasterisation completes
      asynchronously; its completion is folded into this step. */
  function HandleLoad(s: State, handle: MapHandle): (r: StepResult)
    ensures r.state == s
    ensures handle.None? ==> r.emissions == []
    ensures handle.Some? ==> r.emissions == [AddImage("aircraft-icon", 24, 24, true)]
  {
    if handle.None? then StepResult(s, [])
    else StepResult(s, [IconRegistration])
  }

  /** On click, a hit shows the overlay and, if registered, notifies the host
      with the looked-up id; a miss does nothing at all. */
  function HandleClick(s: State, cb: Callbacks, features: seq<Feature>): (r: StepResult)
    ensures r.state.viewport == s.viewport
    ensures r.state.overlayVisible <==> s.overlayVisible || ResolveClick(features).Hit?
    ensures ResolveClick(features).Miss? ==> r == StepResult(s, [])
    ensures |r.emissions| == (if cb.hasOnAircraftSelect && ResolveClick(features).Hit? then 1 else 0)
    ensures forall e | e in r.emissions ::
      e.AircraftSelected? && e.icao24 == Lookup(features[0].properties.value, IcaoKey)
  {
    match ResolveClick(features)
    case Miss => StepResult(s, [])
    case Hit(icao24) =>
      var emitted := if cb.hasOnAircraftSelect then [AircraftSelected(icao24)] else [];
      StepResult(s.(overlayVisible := true), emitted)
  }

  /** On a viewport change, stores the new viewport wholesale and, if
      registered, reports it to the host together with the bounds read from
      the map handle at that moment. The previous viewport and the
      interaction metadata play no part. */
  function HandleViewportChange(s: State, handle: MapHandle, cb: Callbacks,
                                viewState: Viewport, interaction: Interaction, oldViewState: Viewport): (r: StepResult)
    ensures r.state.viewport == Some(viewState)
    ensures r.state.overlayVisible == s.overlayVisible
    ensures cb.hasOnMapChange ==> r.emissions == [MapChanged(viewState, GetMapGeoBounds(handle))]
    ensures !cb.hasOnMapChange ==> r.emissions == []
  {
    var s' := s.(viewport := Some(viewState));
    var bounds := GetMapGeoBounds(handle);
    StepResult(s', if cb.hasOnMapChange then [MapChanged(viewState, bounds)] else [])
  }

  /** Dispatches one engine event to its handler. */
  function Step(s: State, handle: MapHandle, cb: Callbacks, ev: Event): (r: StepResult)
    ensures |r.emissions| <= 1
    ensures s.overlayVisible ==> r.state.overlayVisible
    ensures !ev.ViewportChange? ==> r.state.viewport == s.viewport
    ensures !ev.Click? ==> r.state.overlayVisible == s.overlayVisible
    ensures ev.Click? && ResolveClick(ev.features).Miss? ==> r == StepResult(s, [])
    ensures forall e | e in r.emissions && e.AddImage? :: e == IconRegistration
  {
    match ev
    case Load => HandleLoad(s, handle)
    case Click(features) => HandleClick(s, cb, features)
    case ViewportChange(viewState, interaction, oldViewState) =>
      HandleViewportChange(s, handle, cb, viewState, interaction, oldViewState)
  }

  /** The viewport change handler depends on the new viewport only, never on
      the old one or on how the user interacted. */
  lemma ViewportChangeIgnoresHistory(s: State, handle: MapHandle, cb: Callbacks, v: Viewport,
                                     i1: Interaction, o1: Viewport, i2: Interaction, o2: Viewport)
    ensures Step(s, handle, cb, ViewportChange(v, i1, o1)) == Step(s, handle, cb, ViewportChange(v, i2, o2))
    ensures Step(s, handle, cb, ViewportChange(v, i1, o1)).state == s.(viewport := Some(v))
  {
  }

  /** The camera handed to the map: the configured default centre and zoom
      at first, and every field of the stored viewport once there is one.
      Defaults are given for centre and zoom only, so pitch and bearing are
      left to the engine (None) until a viewport is stored. */
  datatype Camera = Camera(latitude: real, longitude: real, zoom: real, pitch: Option<real>, bearing: Option<real>)

  /** The configured default centre and zoom. */
  datatype Defaults = Defaults(latitude: real, longitude: real, zoom: real)

  /** The values the component derives for rendering. */
  datatype Rendered = Rendered(camera: Camera, overlayShown: bool, layerZoom: Option<real>)

  /** Derives the rendered values from the state; `defaults` holds the
      configured default latitude, longitude and zoom. */
  function Render(s: State, defaults: Defaults): (v: Rendered)
    ensures v.overlayShown <==> s.overlayVisible
    ensures s.viewport.None? ==>
      && v.layerZoom == None
      && v.camera.latitude == defaults.latitude
      && v.camera.longitude == defaults.longitude
      && v.camera.zoom == defaults.zoom
      && v.camera.pitch == None && v.camera.bearing == None
    ensures s.viewport.Some? ==>
      && v.layerZoom == Some(s.viewport.value.zoom)
      && v.camera.latitude == s.viewport.value.latitude
      && v.camera.longitude == s.viewport.value.longitude
      && v.camera.zoom == s.viewport.value.zoom
      && v.camera.pitch == Some(s.viewport.value.pitch)
      && v.camera.bearing == Some(s.viewport.value.bearing)
  {
    match s.viewport
    case None =>
      Rendered(Camera(defaults.latitude, defaults.longitude, defaults.zoom, None, None), s.overlayVisible, None)
    case Some(vp) =>
      Rendered(Camera(vp.latitude, vp.longitude, vp.zoom, Some(vp.pitch), Some(vp.bearing)), s.overlayVisible, Some(vp.zoom))
  }

  /** Once a viewport is stored, the camera determines it completely: two
      stored viewports render the same camera exactly when they are equal. */
  lemma CameraDeterminedByViewport(v1: Viewport, v2: Viewport, overlay: bool, defaults: Defaults)
    ensures Render(State(Some(v1), overlay), defaults).camera == Render(State(Some(v2), overlay), defaults).camera
      <==> v1 == v2
  {
  }
}
