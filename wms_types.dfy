/**
 * The values the WMS tile source works with: its configuration, the parsed
 * GetCapabilities document (section 7.1 of the OGC WMS 1.1.1 specification),
 * the optional TileService document, spatial references, profiles, and the
 * collaborators the source calls but does not define.
 */
module WmsTypes {
  import opened Wrappers

  // Configuration keys read by the source.
  const UrlKey: string := "url"
  const CapabilitiesUrlKey: string := "capabilities_url"
  const TileServiceUrlKey: string := "tileservice_url"
  const LayersKey: string := "layers"
  const StyleKey: string := "style"
  const FormatKey: string := "format"
  const WmsFormatKey: string := "wms_format"
  const WmsVersionKey: string := "wms_version"
  const TileSizeKey: string := "tile_size"
  const ElevationUnitKey: string := "elevation_unit"
  const SrsKey: string := "srs"
  const DefaultTileSizeKey: string := "default_tile_size"

  /**
   * One configuration entry: its text, and its reading as an integer
   * (None when the text is not one).
   */
  datatype Setting = Setting(text: string, number: Option<int>)

  type Config = map<string, Setting>

  /** `conf.value(key)`: the entry's text, empty when the key is absent. */
  function Value(conf: Config, key: string): string
  {
    if key in conf then conf[key].text else ""
  }

  /** `conf.hasValue(key)`: the key carries a non-empty value. */
  predicate HasValue(conf: Config, key: string)
  {
    Value(conf, key) != ""
  }

  /** `conf.value<int>(key, fallback)`: the entry's integer, or `fallback` when it is empty or not a number. */
  function IntValue(conf: Config, key: string, fallback: int): int
  {
    if HasValue(conf, key) && conf[key].number.Some? then conf[key].number.value else fallback
  }

  /** A bounding box minx, miny, maxx, maxy. */
  datatype Bounds = Bounds(minx: real, miny: real, maxx: real, maxy: real)

  /** The all-zero box that capabilities documents report when they give no extent. */
  predicate IsZero(b: Bounds)
  {
    b.minx == 0.0 && b.miny == 0.0 && b.maxx == 0.0 && b.maxy == 0.0
  }

  /** A named layer of the capabilities document: its extents in its own SRS and in latitude/longitude. */
  datatype Layer = Layer(extents: Bounds, latLonExtents: Bounds)

  /** The parsed capabilities document, as far as the source reads it. */
  datatype Capabilities = Capabilities(suggestedExtension: string, layers: map<string, Layer>)

  /** `capabilities->getLayerByName(name)`. */
  function LayerByName(caps: Capabilities, name: string): Option<Layer>
  {
    if name in caps.layers then Some(caps.layers[name]) else None
  }

  /**
   * A valid spatial reference, through the three questions the source asks
   * of it: equivalent to the SRS of the global Mercator profile, equivalent
   * to the SRS of the global geodetic profile, geographic.
   */
  datatype SpatialRef = SpatialRef(mercatorEquivalent: bool, geodeticEquivalent: bool, geographic: bool)

  /** A tile pattern of a TileService document; only its request fragment is used here. */
  datatype TilePattern = TilePattern(prototype: string)

  /** A parsed TileService document: the tile patterns it declares. */
  datatype TileService = TileService(patterns: seq<TilePattern>)

  /** The filter the source hands to `getMatchingPatterns`. */
  datatype PatternQuery = PatternQuery(layers: string, format: string, style: string, srs: string,
                                       width: int, height: int)

  /**
   * A tiling profile: the two process-wide global profiles, one made by
   * `Profile::create` from an SRS and extents, or one that a TileService
   * document builds from a pattern list.
   */
  datatype Profile =
    | GlobalMercator
    | GlobalGeodetic
    | Custom(srs: string, bounds: Bounds)
    | FromTileService(patterns: seq<TilePattern>)

  /**
   * What the collaborators `initialize` calls would answer: the documents
   * the two readers return, by URL (a URL that is absent cannot be fetched
   * or parsed), the spatial references `SpatialReference::create` makes, by
   * SRS name (an absent name is one it does not know), and which tile
   * patterns satisfy which query (the comparison `getMatchingPatterns`
   * applies to each pattern of the document).
   */
  datatype Environment = Environment(
    capabilities: map<string, Capabilities>,
    tileServices: map<string, TileService>,
    spatialRefs: map<string, SpatialRef>,
    accepts: set<(TilePattern, PatternQuery)>)

  /** `CapabilitiesReader::read(url)`. */
  function ReadCapabilities(env: Environment, url: string): Option<Capabilities>
  {
    if url in env.capabilities then Some(env.capabilities[url]) else None
  }

  /** `TileServiceReader::read(url)`. */
  function ReadTileService(env: Environment, url: string): Option<TileService>
  {
    if url in env.tileServices then Some(env.tileServices[url]) else None
  }

  /** `SpatialReference::create(srs)`. */
  function CreateSrs(env: Environment, srs: string): Option<SpatialRef>
  {
    if srs in env.spatialRefs then Some(env.spatialRefs[srs]) else None
  }

  /**
   * The patterns of `ps` that satisfy `query`, in document order: exactly
   * those, and the first of them is the first of `ps` that satisfies it.
   */
  function FilterPatterns(env: Environment, ps: seq<TilePattern>, query: PatternQuery): (r: seq<TilePattern>)
    ensures forall p :: p in r <==> p in ps && (p, query) in env.accepts
    ensures |r| <= |ps|
    ensures r != [] ==> exists i :: 0 <= i < |ps| && ps[i] == r[0] &&
                                    forall j :: 0 <= j < i ==> (ps[j], query) !in env.accepts
  {
    if ps == [] then []
    else
      var rest := FilterPatterns(env, ps[1..], query);
      if (ps[0], query) in env.accepts then
        [ps[0]] + rest
      else
        assert rest != [] ==> ps[1..][0] == ps[1] && (ps[0], query) !in env.accepts;
        rest
  }

  /** `tileService->getMatchingPatterns(...)`: the document's patterns that satisfy the query. */
  function GetMatchingPatterns(env: Environment, ts: TileService, query: PatternQuery): seq<TilePattern>
  {
    FilterPatterns(env, ts.patterns, query)
  }
}
