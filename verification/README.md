# FlightMap event handling, modelled in Dafny

`FlightMap` is the React component of the flight tracker that hosts the map of
live aircraft. Apart from its markup, it holds a small, sequential state machine:

- **Geo-bounds derivation** (`getMapGeoBounds`): the component turns the map
  engine's rendered extent into a four-field box `{northernLatitude,
  easternLongitude, southernLatitude, westernLongitude}`. When no map is mounted,
  the box is zeroed.
- **Load** (`handleLoad`): when a map is mounted, the component registers the
  aircraft icon with the engine. The image is named `aircraft-icon`, is 24×24
  pixels and is registered as a signed-distance-field image.
- **Click** (`handleClick`): only the first hit-tested feature is examined.
  If it has a properties object, its `icao24` property goes to the host's
  `onAircraftSelect` callback (when one is registered), and the aircraft info
  overlay becomes visible.
- **Viewport change** (`handleViewportChange`): the new viewport replaces the
  stored one. The new viewport and the bounds read at that moment then go to
  the host's `onMapChange` callback (when one is registered).
- **Rendering**: the overlay is rendered iff it is visible. The aircraft layer's
  zoom is the stored viewport's zoom, or unset. Until a viewport is stored, the
  map gets the configured default centre and zoom. After that, it gets the
  stored latitude, longitude, zoom, pitch and bearing.

The map engine is abstract. A mounted map is the pair of corners of its current
extent (`Geo.MapHandle = Option<Extent>`). Every event arrives with two inputs,
each as it is at that moment (`Trace.Tick`):
- the handle, because the engine moves the extent by itself;
- the registered callbacks, because the handlers read `props` again on each
  event and the host can register or drop a callback on any render.
Each handler is a pure function. It returns the new state and the emissions,
which are the callback invocations and engine calls, in order. `Trace.Run`
folds the handlers over a sequence of events.

Files:
- `wrappers.dfy`: `Option`.
- `seqs.dfy`: counting over sequences.
- `geo.dfy`: bounds derivation.
- `selection.dfy`: click resolution.
- `flight_map.dfy`: state, events, handlers and derived render values.
- `trace.dfy`: event sequences and the properties that hold across them.

Three things the code does not enforce, so the model does not promise them:
- A string id for `onAircraftSelect`. The prop's type,
  `onAircraftSelect?: (icao24: string) => void` (FlightMap.tsx:47), promises a
  string. But the `as string` cast at FlightMap.tsx:105 is unchecked, and the
  code checks only that a properties object exists. So a feature with
  properties but no `icao24` still calls `onAircraftSelect` with `undefined`,
  and still shows the overlay (`Selection.HitWithoutIcao`).
- Any relation between the four bounds, such as
  `northernLatitude >= southernLatitude`. The code copies the engine's corners
  as they are.
- A lifecycle state such as "mounted" or "selected". The component keeps only
  the stored viewport and the overlay flag, and the model keeps the same two.

## Model

| member | source | states |
|---|---|---|
| Geo.GetMapGeoBounds | src/components/FlightMap.tsx:63-83 | Never fails. An absent handle gives north = east = south = west = 0. A present handle gives north = NE.lat, east = NE.lng, south = SW.lat, west = SW.lng |
| Geo.BoundsRoundTrip | src/components/FlightMap.tsx:72-79 | For a mounted map, the engine's two corners can be read back from the reported box, and every box comes from the extent with those corners |
| Geo.BoundsDeterminedByExtent | src/components/FlightMap.tsx:72-79 | Two mounted extents report the same bounds iff they are the same extent. Reading the same extent twice gives identical bounds |
| Geo.ZeroDefaultIsAmbiguous | src/components/FlightMap.tsx:65-82 | The zeroed default for an absent map equals the bounds of a mounted map whose extent is the point (0, 0) |
| Selection.Lookup | src/components/FlightMap.tsx:105 | The looked-up property is defined iff the key is present, and it is then that key's value |
| Selection.ResolveClick | src/components/FlightMap.tsx:100-105 | A click misses iff the feature list is empty or the first feature has no properties object. A hit carries the first feature's `icao24` entry, which is undefined if that entry is missing |
| Selection.ResolveIgnoresLaterFeatures | src/components/FlightMap.tsx:100-103 | Features after the first never change the outcome of a click |
| Selection.HitWithoutIcao | src/components/FlightMap.tsx:103-108 | A first feature with properties but no `icao24` is still a hit, with an undefined id |
| FlightMap.HandleLoad | src/components/FlightMap.tsx:85-96 | Load never changes the state. With no map mounted it emits nothing. Otherwise it requests exactly one registration of `aircraft-icon`, 24×24, with sdf = true |
| FlightMap.HandleClick | src/components/FlightMap.tsx:98-113 | A miss leaves the state unchanged and emits nothing. A hit makes the overlay visible and leaves the viewport alone. It emits exactly one `onAircraftSelect` call, with the first feature's `icao24`, iff that callback is registered |
| FlightMap.HandleViewportChange | src/components/FlightMap.tsx:115-122 | The stored viewport becomes the new one and overlay visibility is kept. One `onMapChange(new viewport, bounds of the current handle)` is emitted iff that callback is registered. Otherwise nothing is emitted, but the state still changes |
| FlightMap.Step | src/components/FlightMap.tsx:152-154 | Any event emits at most one thing and never hides the overlay. Only a viewport change alters the viewport, and only a click alters visibility. A missed click changes nothing. Any image registration is the aircraft icon |
| FlightMap.ViewportChangeIgnoresHistory | src/components/FlightMap.tsx:115-117 | The outcome of a viewport change does not depend on the previous viewport or on the interaction metadata |
| FlightMap.Render | src/components/FlightMap.tsx:143-172 | The overlay is rendered iff it is visible. The layer zoom is the stored viewport's zoom, or unset when none is stored. With no viewport stored, the camera is the configured default centre and zoom, with pitch and bearing unset. Once a viewport is stored, the camera takes its latitude, longitude, zoom, pitch and bearing |
| FlightMap.CameraDeterminedByViewport | src/components/FlightMap.tsx:143-146 | Once a viewport is stored, two stored viewports give the same camera iff they are equal, so no field of the stored viewport is lost |
| Trace.Run | src/components/FlightMap.tsx:57-122 | A sequence of events emits at most one thing per event, every image registration it emits is the aircraft icon, and the overlay stays visible once it is visible |
| Trace.RunOverlayVisible | src/components/FlightMap.tsx:58-122 | After any sequence of events, the overlay is visible iff it already was or some click in the sequence hit. No event hides it again |
| Trace.RunViewport | src/components/FlightMap.tsx:115-117 | After any sequence of events, the stored viewport is the one from the last viewport change, or the earlier one if no change occurred |
| Trace.RunSelectedIds | src/components/FlightMap.tsx:98-113 | `onAircraftSelect` receives exactly the ids of the hit clicks delivered while it was registered, once each and in order, and no other call. Registration is read again at each event |
| Trace.RunMapChangeReports | src/components/FlightMap.tsx:115-122 | `onMapChange` receives every viewport change delivered while it was registered, once each and in order, each paired with the bounds of the handle at that moment, and no other call. Registration is read again at each event |
| Trace.CallbacksSilentWhileUnregistered | src/components/FlightMap.tsx:107-120 | While neither callback is registered, no sequence of clicks or viewport changes calls either one |
| Trace.RunIconRegistrations | src/components/FlightMap.tsx:85-96 | There is exactly one image registration per load event that found a map mounted |
| Trace.IconRegisteredAtMostOncePerMount | src/components/FlightMap.tsx:85-96 | When the engine signals load at most once, the icon is registered at most once, however many clicks and viewport changes follow |
| Trace.RenderAfterEvents | src/components/FlightMap.tsx:163-172 | From a fresh mount, where the overlay starts hidden and no viewport is stored, the overlay is rendered iff some click has hit. The layer zoom is that of the last viewport change, or unset before the first one |

## Left out

- JSX markup, styling and control placement (`useStyles`, the fullscreen and
  navigation controls): presentation only.
- The map engine's internals (`getMap`, `getBounds`, projection, gestures,
  tiles): a foreign library. A mounted map is only the corner pair of its extent.
- FlightMap.HandleClick: host callbacks are taken to return normally; an
  exception thrown by a callback is not modelled. The two handlers order their
  work differently, and that matters only when a callback throws. On a click,
  `onAircraftSelect` is called (FlightMap.tsx:107-108) before the overlay is
  shown (:110), so a throwing callback would leave the overlay hidden. On a
  viewport change, the viewport is stored (:117) before `onMapChange` is called
  (:121), so a throwing callback would still leave the new viewport stored.
  `FlightMap.HandleViewportChange` and the `Trace` lemmas rest on the same
  assumption.
- FlightMap.HandleLoad: the SVG rasterisation (`svgToImageAsync`) and its
  promise timing are not modelled. The registration is emitted in the load step
  itself. The code has no failure handling, so no failure is modelled. The
  code's late completion after an unmount is not modelled either; in that case
  the code would still call `addImage` on the map object it captured at load.
- The `settings` interaction flags and limits (FlightMap.tsx:125-137), the
  `DEFAULT_*` constants (the model takes them as the `defaults` parameter of
  `Render`) and the access token read from the environment: configuration.
  `settings` is spread after the stored viewport (:147), so its zoom and pitch
  limits replace any the stored viewport carries; see the `FlightMap.Render`
  line below.
- `AircraftLayer`, `AircraftInfoOverlay`, the state-vector collection and the
  selected-aircraft prop: external components and data that the code only
  passes through.
- Selection.Feature: property values are modelled as strings. The code casts
  the `icao24` value to `string` without checking it, so a non-string value
  would reach the callback unchanged, and the model does not distinguish that
  case.
- Unmounting: the code has no teardown, so unmounting is not modelled. A trace
  describes the events that one mounted component receives.
- FlightMap.Render: the stored viewport carries latitude, longitude, zoom,
  pitch and bearing only. Its other fields are not modelled. Props written after
  `{...viewportProps}` (:146) win over it: `{...settings}` (:147) replaces the
  stored minZoom, maxZoom, minPitch and maxPitch, and `width`/`height`
  (:148-149) replace the stored size. Only the remaining engine fields, such as
  altitude and transition settings, reach the map from the stored viewport.
  The component never reads them.
