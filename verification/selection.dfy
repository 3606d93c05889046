/** Click-to-selection resolution: which aircraft, if any, a click on the map
    selects. Only the first hit-tested feature is looked at. */
module Selection {
  import opened Wrappers

  /** A feature the map engine hit-tested at the click point. `properties` is
      None when the feature carries no properties object. Property values are
      taken as strings, as the component's unchecked cast treats them. */
  datatype Feature = Feature(properties: Option<map<string, string>>)

  /** The property under which a feature carries the aircraft's ICAO 24-bit address. */
  const IcaoKey: string := "icao24"

  /** Property lookup; None stands for JavaScript's `undefined`. */
  function Lookup(props: map<string, string>, key: string): (v: Option<string>)
    ensures v.Some? <==> key in props
    ensures v.Some? ==> v.value == props[key]
  {
    if key in props then Some(props[key]) else None
  }

  /** The outcome of a click: a Miss changes nothing; a Hit carries the looked-up
      id, which is None when the first feature has properties but no icao24. */
  datatype Resolution = Miss | Hit(icao24: Option<string>)

  /** Resolves a click against the hit-tested features. */
  function ResolveClick(features: seq<Feature>): (r: Resolution)
    ensures r.Miss? <==> |features| == 0 || features[0].properties.None?
    ensures r.Hit? ==> r.icao24 == Lookup(features[0].properties.value, IcaoKey)
  {
    if |features| > 0 then
      var selected := features[0];
      match selected.properties
      case Some(props) => Hit(Lookup(props, IcaoKey))
      case None => Miss
    else
      Miss
  }

  /** Features after the first are never inspected. */
  lemma ResolveIgnoresLaterFeatures(first: Feature, xs: seq<Feature>, ys: seq<Feature>)
    ensures ResolveClick([first] + xs) == ResolveClick([first] + ys)
    ensures ResolveClick([first] + xs) == ResolveClick([first])
  {
  }

  /** A feature with a properties object but no icao24 entry still counts as a
      hit, with an undefined id; the id is never checked. */
  lemma HitWithoutIcao(props: map<string, string>, rest: seq<Feature>)
    requires IcaoKey !in props
    ensures ResolveClick([Feature(Some(props))] + rest) == Hit(None)
  {
  }
}
