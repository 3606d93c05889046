/** Sequences of engine events delivered to one mounted component, and what
    they add up to: the final state and every emission, in order. Each event
    arrives together with the map handle and the callback props as they are
    at that moment: the engine's extent moves with gestures the component
    never sees, and the host may register or drop a callback on any render. */
module Trace {
  import opened Wrappers
  import opened Geo
  import opened Selection
  import opened FlightMap
  import opened Seqs

  /** One delivered event, with the map handle and the registered callbacks
      at delivery time. */
  datatype Tick = Tick(handle: MapHandle, cb: Callbacks, event: Event)

  /** Processes the events one after another, concatenating what each emits. */
  function Run(s: State, ticks: seq<Tick>): (r: StepResult)
    ensures |r.emissions| <= |ticks|
    ensures s.overlayVisible ==> r.state.overlayVisible
    ensures forall e | e in r.emissions && e.AddImage? :: e == IconRegistration
    decreases |ticks|
  {
    if |ticks| == 0 then StepResult(s, [])
    else
      var first := Step(s, ticks[0].handle, ticks[0].cb, ticks[0].event);
      var rest := Run(first.state, ticks[1..]);
      StepResult(rest.state, first.emissions + rest.emissions)
  }

  // Classifiers for events and emissions.

  predicate IsHit(t: Tick) {
    t.event.Click? && ResolveClick(t.event.features).Hit?
  }

  /** A hit delivered while `onAircraftSelect` was registered. */
  predicate IsReportedHit(t: Tick) {
    IsHit(t) && t.cb.hasOnAircraftSelect
  }

  /** A viewport change delivered while `onMapChange` was registered. */
  predicate IsReportedViewportChange(t: Tick) {
    t.event.ViewportChange? && t.cb.hasOnMapChange
  }

  predicate IsLoad(t: Tick) {
    t.event.Load?
  }

  predicate IsMountedLoad(t: Tick) {
    t.event.Load? && t.handle.Some?
  }

  predicate IsAddImage(e: Emission) {
    e.AddImage?
  }

  predicate IsAircraftSelected(e: Emission) {
    e.AircraftSelected?
  }

  predicate IsMapChanged(e: Emission) {
    e.MapChanged?
  }

  /** The viewport of the last viewport change among `ticks`, searched from the end. */
  function LastViewportChange(ticks: seq<Tick>): (v: Option<Viewport>)
    ensures v.None? <==> forall i | 0 <= i < |ticks| :: !ticks[i].event.ViewportChange?
    decreases |ticks|
  {
    if |ticks| == 0 then None
    else
      var init := ticks[..|ticks| - 1];
      assert forall i | 0 <= i < |init| :: init[i] == ticks[i];
      match ticks[|ticks| - 1].event
      case ViewportChange(viewState, _, _) => Some(viewState)
      case _ => LastViewportChange(init)
  }

  /** The ids of the hit clicks among `ticks` that were delivered while
      `onAircraftSelect` was registered, in order. */
  function HitIds(ticks: seq<Tick>): (ids: seq<Option<string>>)
    ensures |ids| == Count(ticks, IsReportedHit)
    decreases |ticks|
  {
    if |ticks| == 0 then []
    else
      var rest := HitIds(ticks[1..]);
      if IsReportedHit(ticks[0]) then [ResolveClick(ticks[0].event.features).icao24] + rest else rest
  }

  /** The viewport changes among `ticks` that were delivered while
      `onMapChange` was registered, each with the bounds of the map handle at
      the moment it was delivered. */
  function ViewportReports(ticks: seq<Tick>): (reports: seq<(Viewport, GeoBounds)>)
    ensures |reports| == Count(ticks, IsReportedViewportChange)
    decreases |ticks|
  {
    if |ticks| == 0 then []
    else
      var rest := ViewportReports(ticks[1..]);
      if IsReportedViewportChange(ticks[0]) then
        [(ticks[0].event.viewState, GetMapGeoBounds(ticks[0].handle))] + rest
      else rest
  }

  /** The ids passed to the host's aircraft-select callback, in call order. */
  function SelectedIds(es: seq<Emission>): (ids: seq<Option<string>>)
    ensures |ids| == Count(es, IsAircraftSelected)
    decreases |es|
  {
    if |es| == 0 then []
    else
      var rest := SelectedIds(es[1..]);
      match es[0]
      case AircraftSelected(icao24) => [icao24] + rest
      case _ => rest
  }

  /** The arguments passed to the host's map-change callback, in call order. */
  function MapChangeReports(es: seq<Emission>): (reports: seq<(Viewport, GeoBounds)>)
    ensures |reports| == Count(es, IsMapChanged)
    decreases |es|
  {
    if |es| == 0 then []
    else
      var rest := MapChangeReports(es[1..]);
      match es[0]
      case MapChanged(viewState, bounds) => [(viewState, bounds)] + rest
      case _ => rest
  }

  lemma {:induction false} SelectedIdsConcat(a: seq<Emission>, b: seq<Emission>)
    ensures SelectedIds(a + b) == SelectedIds(a) + SelectedIds(b)
    decreases |a|
  {
    if |a| == 0 {
      assert a + b == b;
    } else {
      assert (a + b)[1..] == a[1..] + b;
      SelectedIdsConcat(a[1..], b);
    }
  }

  lemma {:induction false} MapChangeReportsConcat(a: seq<Emission>, b: seq<Emission>)
    ensures MapChangeReports(a + b) == MapChangeReports(a) + MapChangeReports(b)
    decreases |a|
  {
    if |a| == 0 {
      assert a + b == b;
    } else {
      assert (a + b)[1..] == a[1..] + b;
      MapChangeReportsConcat(a[1..], b);
    }
  }

  /** Looking for the last viewport change in `[t] + rest`: it is in `rest`
      if `rest` has one, otherwise it is `t` itself or there is none. */
  lemma {:induction false} LastViewportChangeCons(t: Tick, rest: seq<Tick>)
    ensures LastViewportChange([t] + rest) ==
      if LastViewportChange(rest).Some? then LastViewportChange(rest)
      else if t.event.ViewportChange? then Some(t.event.viewState)
      else None
    decreases |rest|
  {
    var ticks := [t] + rest;
    if |rest| == 0 {
      assert ticks == [t];
    } else {
      var init := rest[..|rest| - 1];
      assert ticks[..|ticks| - 1] == [t] + init;
      assert ticks[|ticks| - 1] == rest[|rest| - 1];
      LastViewportChangeCons(t, init);
    }
  }

  /** Overlay visibility after any sequence of events: it is visible exactly
      when it was visible before or some click hit a feature with properties.
      Nothing ever hides it again. */
  lemma {:induction false} RunOverlayVisible(s: State, ticks: seq<Tick>)
    ensures Run(s, ticks).state.overlayVisible <==>
      s.overlayVisible || exists i | 0 <= i < |ticks| :: IsHit(ticks[i])
    decreases |ticks|
  {
    if |ticks| > 0 {
      var first := Step(s, ticks[0].handle, ticks[0].cb, ticks[0].event);
      RunOverlayVisible(first.state, ticks[1..]);
      assert first.state.overlayVisible <==> s.overlayVisible || IsHit(ticks[0]);
      assert forall i | 0 <= i < |ticks[1..]| :: ticks[1..][i] == ticks[i + 1];
      if exists i | 0 <= i < |ticks| :: IsHit(ticks[i]) {
        var i :| 0 <= i < |ticks| && IsHit(ticks[i]);
        if i > 0 {
          assert IsHit(ticks[1..][i - 1]);
        }
      }
    }
  }

  /** The stored viewport after any sequence of events is the one carried by
      the last viewport change, or the one before if there was none. */
  lemma {:induction false} RunViewport(s: State, ticks: seq<Tick>)
    ensures LastViewportChange(ticks).Some? ==> Run(s, ticks).state.viewport == LastViewportChange(ticks)
    ensures LastViewportChange(ticks).None? ==> Run(s, ticks).state.viewport == s.viewport
    decreases |ticks|
  {
    if |ticks| > 0 {
      var first := Step(s, ticks[0].handle, ticks[0].cb, ticks[0].event);
      RunViewport(first.state, ticks[1..]);
      assert ticks == [ticks[0]] + ticks[1..];
      LastViewportChangeCons(ticks[0], ticks[1..]);
    }
  }

  /** The host's aircraft-select callback receives exactly the ids of the hit
      clicks delivered while it was registered, once each and in order, and
      is called for nothing else. */
  lemma {:induction false} RunSelectedIds(s: State, ticks: seq<Tick>)
    ensures SelectedIds(Run(s, ticks).emissions) == HitIds(ticks)
    decreases |ticks|
  {
    if |ticks| > 0 {
      var first := Step(s, ticks[0].handle, ticks[0].cb, ticks[0].event);
      var rest := Run(first.state, ticks[1..]);
      RunSelectedIds(first.state, ticks[1..]);
      SelectedIdsConcat(first.emissions, rest.emissions);
      if |first.emissions| == 1 {
        assert first.emissions == [first.emissions[0]];
        assert first.emissions[1..] == [];
      }
    }
  }

  /** The host's map-change callback receives every viewport change delivered
      while it was registered, once each and in order, paired with the bounds
      of the map handle at that moment, and is called for nothing else. */
  lemma {:induction false} RunMapChangeReports(s: State, ticks: seq<Tick>)
    ensures MapChangeReports(Run(s, ticks).emissions) == ViewportReports(ticks)
    decreases |ticks|
  {
    if |ticks| > 0 {
      var first := Step(s, ticks[0].handle, ticks[0].cb, ticks[0].event);
      var rest := Run(first.state, ticks[1..]);
      RunMapChangeReports(first.state, ticks[1..]);
      MapChangeReportsConcat(first.emissions, rest.emissions);
      if |first.emissions| == 1 {
        assert first.emissions == [first.emissions[0]];
        assert first.emissions[1..] == [];
      }
    }
  }

  /** While neither callback is registered, a sequence of events calls
      neither, whatever clicks and viewport changes it holds. */
  lemma CallbacksSilentWhileUnregistered(s: State, ticks: seq<Tick>)
    requires forall i | 0 <= i < |ticks| :: !ticks[i].cb.hasOnAircraftSelect && !ticks[i].cb.hasOnMapChange
    ensures SelectedIds(Run(s, ticks).emissions) == []
    ensures MapChangeReports(Run(s, ticks).emissions) == []
  {
    RunSelectedIds(s, ticks);
    RunMapChangeReports(s, ticks);
  }

  /** There is exactly one image registration per load event that found the
      map mounted. */
  lemma {:induction false} RunIconRegistrations(s: State, ticks: seq<Tick>)
    ensures Count(Run(s, ticks).emissions, IsAddImage) == Count(ticks, IsMountedLoad)
    decreases |ticks|
  {
    if |ticks| > 0 {
      var first := Step(s, ticks[0].handle, ticks[0].cb, ticks[0].event);
      var rest := Run(first.state, ticks[1..]);
      RunIconRegistrations(first.state, ticks[1..]);
      CountConcat(first.emissions, rest.emissions, IsAddImage);
      if |first.emissions| == 1 {
        assert first.emissions == [first.emissions[0]];
        assert first.emissions[1..] == [];
      }
    }
  }

  /** The engine signals load once per mount; the icon is then registered at
      most once, however many clicks and viewport changes follow. */
  lemma IconRegisteredAtMostOncePerMount(s: State, ticks: seq<Tick>)
    requires Count(ticks, IsLoad) <= 1
    ensures Count(Run(s, ticks).emissions, IsAddImage) <= 1
  {
    RunIconRegistrations(s, ticks);
    CountMonotonic(ticks, IsMountedLoad, IsLoad);
  }

  /** From a fresh mount: the overlay is rendered exactly when some click has
      hit, and the aircraft layer's zoom is that of the last viewport change,
      unset before the first one. */
  lemma RenderAfterEvents(ticks: seq<Tick>, defaults: Defaults)
    ensures Render(Run(Initial, ticks).state, defaults).overlayShown <==>
      exists i | 0 <= i < |ticks| :: IsHit(ticks[i])
    ensures Render(Run(Initial, ticks).state, defaults).layerZoom ==
      match LastViewportChange(ticks)
      case Some(v) => Some(v.zoom)
      case None => None
  {
    RunOverlayVisible(Initial, ticks);
    RunViewport(Initial, ticks);
  }
}
