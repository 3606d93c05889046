/** Geo-bounds derivation: the four-field box the map component reports to its
    host, derived on demand from the map engine's rendered extent. The engine
    itself is abstract: a mounted map is represented only by the two corners
    of its current extent. */
module Geo {
  import opened Wrappers

  /** A coordinate as the map engine reports it. */
  datatype LatLng = LatLng(lat: real, lng: real)

  /** The engine's current rendered extent, by its north-east and south-west corners. */
  datatype Extent = Extent(northEast: LatLng, southWest: LatLng)

  /** The map handle: None until the map surface is mounted, otherwise the
      extent the engine reports at the moment it is read. */
  type MapHandle = Option<Extent>

  /** The box handed to the host's map-change callback. No relation between
      the four fields is enforced. */
  datatype GeoBounds = GeoBounds(
    northernLatitude: real,
    easternLongitude: real,
    southernLatitude: real,
    westernLongitude: real)

  /** The box reported while no map is mounted. */
  const ZeroBounds := GeoBounds(0.0, 0.0, 0.0, 0.0)

  /** Reads the bounds from the handle. Never fails: an absent handle yields
      the zeroed box, a present one copies the engine's corners field by field. */
  function GetMapGeoBounds(handle: MapHandle): (b: GeoBounds)
    ensures handle.None? ==>
      && b.northernLatitude == 0.0 && b.easternLongitude == 0.0
      && b.southernLatitude == 0.0 && b.westernLongitude == 0.0
    ensures handle.Some? ==>
      && b.northernLatitude == handle.value.northEast.lat
      && b.easternLongitude == handle.value.northEast.lng
      && b.southernLatitude == handle.value.southWest.lat
      && b.westernLongitude == handle.value.southWest.lng
  {
    var bounds := ZeroBounds;
    match handle
    case None => bounds
    case Some(extent) =>
      bounds.(
        northernLatitude := extent.northEast.lat,
        easternLongitude := extent.northEast.lng,
        southernLatitude := extent.southWest.lat,
        westernLongitude := extent.southWest.lng)
  }

  /** The extent whose corners a box names: north-east is (north, east),
      south-west is (south, west). */
  function CornersOf(b: GeoBounds): (e: Extent)
    ensures e.northEast == LatLng(b.northernLatitude, b.easternLongitude)
    ensures e.southWest == LatLng(b.southernLatitude, b.westernLongitude)
  {
    Extent(LatLng(b.northernLatitude, b.easternLongitude), LatLng(b.southernLatitude, b.westernLongitude))
  }

  /** For a mounted map no information is lost: the engine's corners can be
      read back from the reported box, so two extents report the same box
      exactly when they are the same extent. */
  lemma BoundsRoundTrip(e: Extent, b: GeoBounds)
    ensures CornersOf(GetMapGeoBounds(Some(e))) == e
    ensures GetMapGeoBounds(Some(CornersOf(b))) == b
  {
  }

  /** Bounds are a function of the extent alone: reading the same extent twice
      gives the same box, and different extents give different boxes. */
  lemma BoundsDeterminedByExtent(e1: Extent, e2: Extent)
    ensures GetMapGeoBounds(Some(e1)) == GetMapGeoBounds(Some(e2)) <==> e1 == e2
  {
    if GetMapGeoBounds(Some(e1)) == GetMapGeoBounds(Some(e2)) {
      BoundsRoundTrip(e1, ZeroBounds);
      BoundsRoundTrip(e2, ZeroBounds);
    }
  }

  /** The zeroed default cannot be told apart from a mounted map whose extent
      is the single point (0, 0): the host has no way to know the map was absent. */
  lemma ZeroDefaultIsAmbiguous()
    ensures GetMapGeoBounds(None) == GetMapGeoBounds(Some(Extent(LatLng(0.0, 0.0), LatLng(0.0, 0.0))))
  {
  }
}
