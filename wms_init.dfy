/**
 * What the WMS tile source's constructor and `initialize` compute, stated
 * as functions of the source's state: configuration defaults, request URLs
 * (GetCapabilities and GetMap, sections 7.1 and 7.2 of the OGC WMS 1.1.1
 * specification), the profile precedence and the TileService override.
 * The class in module WmsSource is proved to do exactly this.
 */
module WmsInit {
  import opened Wrappers
  import opened Text
  import opened Printf
  import opened WmsTypes

  const DefaultTileSize: int := 256
  const DefaultWmsVersion: string := "1.1.1"
  const DefaultElevationUnit: string := "m"
  const DefaultFormat: string := "png"
  const DefaultSrs: string := "EPSG:4326"
  const GetCapabilitiesQuery: string := "SERVICE=WMS&VERSION=1.1.1&REQUEST=GetCapabilities"
  const GetTileServiceQuery: string := "request=GetTileService"

  /** The fields of a WMS tile source. */
  datatype SourceState = SourceState(
    prefix: string,
    layers: string,
    style: string,
    format: string,
    wmsFormat: string,
    wmsVersion: string,
    srs: string,
    tileServiceURL: string,
    capabilitiesURL: string,
    tileSize: int,
    elevationUnit: string,
    tileService: Option<TileService>,
    profile: Option<Profile>,
    prototype: string)

  /** Tile size: `tile_size` if configured (256 if it is not a number), else `default_tile_size`, else 256. */
  function ConfiguredTileSize(conf: Config): (n: int)
    ensures HasValue(conf, TileSizeKey) && conf[TileSizeKey].number.Some? ==> n == conf[TileSizeKey].number.value
    ensures HasValue(conf, TileSizeKey) && conf[TileSizeKey].number.None? ==> n == DefaultTileSize
    ensures (!HasValue(conf, TileSizeKey) && HasValue(conf, DefaultTileSizeKey)
             && conf[DefaultTileSizeKey].number.Some?) ==> n == conf[DefaultTileSizeKey].number.value
    ensures (!HasValue(conf, TileSizeKey) && !(HasValue(conf, DefaultTileSizeKey)
             && conf[DefaultTileSizeKey].number.Some?)) ==> n == DefaultTileSize
  {
    if HasValue(conf, TileSizeKey) then IntValue(conf, TileSizeKey, DefaultTileSize)
    else IntValue(conf, DefaultTileSizeKey, DefaultTileSize)
  }

  /** The state the constructor leaves: configured text, with the version, tile size and unit defaulted. */
  function Configure(conf: Config): (s: SourceState)
    ensures s.prefix == Value(conf, UrlKey) && s.layers == Value(conf, LayersKey)
    ensures s.style == Value(conf, StyleKey) && s.format == Value(conf, FormatKey)
    ensures s.wmsFormat == Value(conf, WmsFormatKey) && s.srs == Value(conf, SrsKey)
    ensures s.capabilitiesURL == Value(conf, CapabilitiesUrlKey)
    ensures s.tileServiceURL == Value(conf, TileServiceUrlKey)
    ensures !HasValue(conf, WmsVersionKey) ==> s.wmsVersion == DefaultWmsVersion
    ensures HasValue(conf, WmsVersionKey) ==> s.wmsVersion == Value(conf, WmsVersionKey)
    ensures s.tileSize == ConfiguredTileSize(conf)
    ensures s.elevationUnit != ""
    ensures Value(conf, ElevationUnitKey) == "" ==> s.elevationUnit == DefaultElevationUnit
    ensures Value(conf, ElevationUnitKey) != "" ==> s.elevationUnit == Value(conf, ElevationUnitKey)
    ensures s.tileService.None? && s.profile.None? && s.prototype == ""
  {
    var unit := Value(conf, ElevationUnitKey);
    SourceState(
      Value(conf, UrlKey), Value(conf, LayersKey), Value(conf, StyleKey), Value(conf, FormatKey),
      Value(conf, WmsFormatKey),
      if HasValue(conf, WmsVersionKey) then Value(conf, WmsVersionKey) else DefaultWmsVersion,
      Value(conf, SrsKey), Value(conf, TileServiceUrlKey), Value(conf, CapabilitiesUrlKey),
      ConfiguredTileSize(conf),
      if unit == "" then DefaultElevationUnit else unit,
      None, None, "")
  }

  /** The query separator: '?' unless the base URL already has one, then '&'. */
  function Separator(prefix: string): (sep: char)
    ensures sep == '?' <==> '?' !in prefix
    ensures sep == '&' <==> '?' in prefix
  {
    if '?' in prefix then '&' else '?'
  }

  /** `prefix + sep + query`: a request on the base URL. */
  function RequestOn(prefix: string, query: string): string
  {
    prefix + [Separator(prefix)] + query
  }

  /** The capabilities URL: the configured one, else a GetCapabilities request (always version 1.1.1). */
  function CapabilitiesURLFor(configured: string, prefix: string): (url: string)
    ensures configured != "" ==> url == configured
    ensures configured == "" ==> url == RequestOn(prefix, GetCapabilitiesQuery)
  {
    if configured == "" then RequestOn(prefix, GetCapabilitiesQuery) else configured
  }

  /** The TileService URL: the configured one, else a GetTileService request. */
  function TileServiceURLFor(configured: string, prefix: string): (url: string)
    ensures configured != "" ==> url == configured
    ensures configured == "" ==> url == RequestOn(prefix, GetTileServiceQuery)
  {
    if configured == "" then RequestOn(prefix, GetTileServiceQuery) else configured
  }

  /** The image format: the configured one, else the capabilities' suggestion, else "png"; never empty. */
  function ResolveFormat(configured: string, suggested: string): (f: string)
    ensures f != ""
    ensures configured != "" ==> f == configured
    ensures configured == "" && suggested != "" ==> f == suggested
    ensures configured == "" && suggested == "" ==> f == DefaultFormat
  {
    if configured != "" then configured
    else if suggested != "" then suggested
    else DefaultFormat
  }

  /** The SRS: the configured one, else EPSG:4326. */
  function ResolveSrs(configured: string): (srs: string)
    ensures srs != ""
    ensures configured != "" ==> srs == configured
    ensures configured == "" ==> srs == DefaultSrs
  {
    if configured == "" then DefaultSrs else configured
  }

  /** The FORMAT parameter: the `wms_format` override when set, else "image/" + format. */
  function FormatParameter(wmsFormat: string, format: string): (p: string)
    ensures wmsFormat != "" ==> p == wmsFormat
    ensures wmsFormat == "" ==> p == "image/" + format
  {
    if wmsFormat == "" then "image/" + format else wmsFormat
  }

  /** The GetMap parameters that come from the settings (section 7.2.3 of the OGC WMS 1.1.1 specification). */
  function GetMapQuery(version: string, layers: string, formatParameter: string, style: string,
                       srs: string): (q: string)
    ensures ('%' !in version && '%' !in layers && '%' !in formatParameter && '%' !in style && '%' !in srs)
            ==> '%' !in q
  {
    "SERVICE=WMS&VERSION=" + version + "&REQUEST=GetMap"
      + "&LAYERS=" + layers
      + "&FORMAT=" + formatParameter
      + "&STYLES=" + style
      + "&SRS=" + srs
  }

  /** The WIDTH and HEIGHT parameters: both the tile size, rendered in decimal. */
  function SizeParameters(tileSize: int): (p: string)
    ensures '%' !in p
  {
    "&WIDTH=" + IntToDecimal(tileSize) + "&HEIGHT=" + IntToDecimal(tileSize)
  }

  /** The static part of a GetMap request, up to and including "&BBOX=". */
  function GetMapHead(prefix: string, version: string, layers: string, formatParameter: string,
                      style: string, srs: string, tileSize: int): (h: string)
    ensures |prefix| < |h| && h[..|prefix|] == prefix
  {
    var h := RequestOn(prefix, GetMapQuery(version, layers, formatParameter, style, srs))
             + SizeParameters(tileSize) + "&BBOX=";
    assert h[..|prefix|] == prefix;
    h
  }

  /**
   * Settings free of '%' give a GetMap head with no placeholder of its own,
   * so the four bounds placeholders are the only ones in the request.
   */
  lemma GetMapHeadPlain(prefix: string, version: string, layers: string, formatParameter: string,
                        style: string, srs: string, tileSize: int)
    requires '%' !in prefix && '%' !in version && '%' !in layers && '%' !in formatParameter
    requires '%' !in style && '%' !in srs
    ensures CountPlaceholders(GetMapHead(prefix, version, layers, formatParameter, style, srs, tileSize)) == 0
  {
    var query := GetMapQuery(version, layers, formatParameter, style, srs);
    var size := SizeParameters(tileSize);
    var h := GetMapHead(prefix, version, layers, formatParameter, style, srs, tileSize);
    assert '%' !in "&BBOX=";
    assert '%' !in [Separator(prefix)];
    assert h == prefix + [Separator(prefix)] + query + size + "&BBOX=";
    NoPercentNoPlaceholder(h);
  }

  /** The GetMap request prototype: the static part followed by the four bounds placeholders. */
  function GetMapPrototype(prefix: string, version: string, layers: string, formatParameter: string,
                           style: string, srs: string, tileSize: int): (p: string)
    ensures |prefix| + |BBoxPlaceholders| < |p|
    ensures p[..|prefix|] == prefix && p[|p| - |BBoxPlaceholders|..] == BBoxPlaceholders
  {
    var h := GetMapHead(prefix, version, layers, formatParameter, style, srs, tileSize);
    assert (h + BBoxPlaceholders)[..|prefix|] == h[..|prefix|];
    h + BBoxPlaceholders
  }

  /** The suffix appended to every prototype so that the fetch layer can tell the format. */
  function FormatSuffix(format: string): (x: string)
    ensures |x| == |format| + 2 && x[..2] == "&." && x[2..] == format
  {
    "&." + format
  }

  /**
   * The profile chosen from the SRS and the capabilities, first match wins:
   * global Mercator, global geodetic, the matching layer's extents (for a
   * geographic SRS, all-zero native extents fall back to the lat/lon
   * extents, and all-zero ones of those to global geodetic), then, with no
   * matching layer, global geodetic for a geographic SRS and nothing for a
   * projected one.
   */
  function ResolveProfile(srs: string, sr: SpatialRef, layer: Option<Layer>): (r: Option<Profile>)
    ensures sr.mercatorEquivalent ==> r == Some(GlobalMercator)
    ensures r == Some(GlobalMercator) ==> sr.mercatorEquivalent
    ensures !sr.mercatorEquivalent && sr.geodeticEquivalent ==> r == Some(GlobalGeodetic)
    ensures r.None? <==> !sr.mercatorEquivalent && !sr.geodeticEquivalent && layer.None? && !sr.geographic
    ensures sr.geographic ==> r.Some?
    ensures r.Some? && r.value.Custom? ==>
              layer.Some? && r.value.srs == srs &&
              (r.value.bounds == layer.value.extents ||
               (sr.geographic && IsZero(layer.value.extents) && r.value.bounds == layer.value.latLonExtents))
    ensures r.Some? && r.value.Custom? && sr.geographic ==> !IsZero(r.value.bounds)
    ensures r.Some? ==> !r.value.FromTileService?
    ensures (!sr.mercatorEquivalent && !sr.geodeticEquivalent && layer.Some? && !sr.geographic) ==>
              r == Some(Custom(srs, layer.value.extents))
    ensures (!sr.mercatorEquivalent && !sr.geodeticEquivalent && layer.Some? && sr.geographic &&
             !IsZero(layer.value.extents)) ==> r == Some(Custom(srs, layer.value.extents))
    ensures (!sr.mercatorEquivalent && !sr.geodeticEquivalent && layer.Some? && sr.geographic &&
             IsZero(layer.value.extents) && !IsZero(layer.value.latLonExtents)) ==>
              r == Some(Custom(srs, layer.value.latLonExtents))
    ensures (!sr.mercatorEquivalent && !sr.geodeticEquivalent && layer.Some? && sr.geographic &&
             IsZero(layer.value.extents) && IsZero(layer.value.latLonExtents)) ==> r == Some(GlobalGeodetic)
    ensures (!sr.mercatorEquivalent && !sr.geodeticEquivalent && layer.None? && sr.geographic) ==>
              r == Some(GlobalGeodetic)
  {
    if sr.mercatorEquivalent then Some(GlobalMercator)
    else if sr.geodeticEquivalent then Some(GlobalGeodetic)
    else match layer
      case Some(l) =>
        var extents := if sr.geographic && IsZero(l.extents) then l.latLonExtents else l.extents;
        if sr.geographic && IsZero(extents) then Some(GlobalGeodetic)
        else Some(Custom(srs, extents))
      case None =>
        if sr.geographic then Some(GlobalGeodetic) else None
  }

  /** The patterns of a readable TileService document that match the source's settings. */
  function MatchingPatterns(env: Environment, ts: Option<TileService>, layers: string, format: string,
                            style: string, srs: string, tileSize: int): (r: seq<TilePattern>)
    ensures ts.None? ==> r == []
    ensures forall p :: p in r ==> ts.Some? && p in ts.value.patterns
  {
    match ts
    case None => []
    case Some(t) => GetMatchingPatterns(env, t, PatternQuery(layers, format, style, srs, tileSize, tileSize))
  }

  /**
   * `initialize` may dereference the spatial reference of the SRS it
   * settles on; the source requires that reference to exist whenever the
   * capabilities are read (it is not consulted otherwise).
   */
  predicate CanInitialize(s: SourceState, env: Environment)
  {
    ReadCapabilities(env, CapabilitiesURLFor(s.capabilitiesURL, s.prefix)).Some? ==>
      CreateSrs(env, ResolveSrs(s.srs)).Some?
  }

  /** The format and SRS defaults `initialize` fills in once it has the capabilities. */
  function WithDefaults(s: SourceState, caps: Capabilities): (t: SourceState)
    ensures t.format != "" && t.srs != ""
    ensures s.format != "" ==> t.format == s.format
    ensures s.srs != "" ==> t.srs == s.srs
    ensures t.(format := s.format, srs := s.srs) == s
  {
    s.(format := ResolveFormat(s.format, caps.suggestedExtension), srs := ResolveSrs(s.srs))
  }

  /**
   * The rest of `initialize`, on settled format and SRS: the TileService
   * document, the profile and the request prototype.
   */
  function WithRequests(s: SourceState, caps: Capabilities, env: Environment): (t: SourceState)
    requires CreateSrs(env, s.srs).Some?
    ensures t.tileServiceURL != "" && t.tileService == ReadTileService(env, t.tileServiceURL)
    ensures var matches := MatchingPatterns(env, t.tileService, s.layers, s.format, s.style, s.srs, s.tileSize);
      (t.profile.Some? && t.profile.value.FromTileService?) <==> |matches| > 0
    ensures |FormatSuffix(s.format)| <= |t.prototype|
    ensures t.prototype[|t.prototype| - |FormatSuffix(s.format)|..] == FormatSuffix(s.format)
    ensures t.(tileServiceURL := s.tileServiceURL, tileService := s.tileService, profile := s.profile,
               prototype := s.prototype) == s
  {
    var tsURL := TileServiceURLFor(s.tileServiceURL, s.prefix);
    var ts := ReadTileService(env, tsURL);
    var matches := MatchingPatterns(env, ts, s.layers, s.format, s.style, s.srs, s.tileSize);
    var wmsProfile := ResolveProfile(s.srs, CreateSrs(env, s.srs).value, LayerByName(caps, s.layers));
    var getMap := GetMapPrototype(s.prefix, s.wmsVersion, s.layers, FormatParameter(s.wmsFormat, s.format),
                                  s.style, s.srs, s.tileSize);
    s.(tileServiceURL := tsURL, tileService := ts,
       profile := if |matches| > 0 then Some(FromTileService(matches)) else wmsProfile,
       prototype := (if |matches| > 0 then RequestOn(s.prefix, matches[0].prototype) else getMap)
                    + FormatSuffix(s.format))
  }

  /** The state `initialize` leaves behind. */
  function InitializeSpec(s: SourceState, env: Environment): (t: SourceState)
    requires CanInitialize(s, env)
    ensures t.capabilitiesURL == CapabilitiesURLFor(s.capabilitiesURL, s.prefix)
    ensures !CapabilitiesRead(s, env) ==> t == s.(capabilitiesURL := t.capabilitiesURL)
    ensures t.prefix == s.prefix && t.layers == s.layers && t.style == s.style && t.wmsFormat == s.wmsFormat
    ensures t.wmsVersion == s.wmsVersion && t.tileSize == s.tileSize && t.elevationUnit == s.elevationUnit
  {
    var capsURL := CapabilitiesURLFor(s.capabilitiesURL, s.prefix);
    match ReadCapabilities(env, capsURL)
    case None => s.(capabilitiesURL := capsURL)
    case Some(caps) => WithRequests(WithDefaults(s.(capabilitiesURL := capsURL), caps), caps, env)
  }

  /** True when `initialize` read the capabilities for `s`. */
  predicate CapabilitiesRead(s: SourceState, env: Environment)
  {
    ReadCapabilities(env, CapabilitiesURLFor(s.capabilitiesURL, s.prefix)).Some?
  }

  /**
   * Without capabilities `initialize` fails: it only fixes the capabilities
   * URL and leaves format, SRS, prototype, TileService and profile as they were.
   */
  lemma CapabilitiesFailure(s: SourceState, env: Environment)
    requires !CapabilitiesRead(s, env)
    ensures CanInitialize(s, env)
    ensures var t := InitializeSpec(s, env);
      t == s.(capabilitiesURL := CapabilitiesURLFor(s.capabilitiesURL, s.prefix)) &&
      t.profile == s.profile && t.prototype == s.prototype
  {
  }

  /**
   * A successful `initialize` leaves a non-empty format and SRS, a prototype
   * ending in "&." + format, and touches none of the configured settings.
   */
  lemma InitializeSettles(s: SourceState, env: Environment)
    requires CanInitialize(s, env) && CapabilitiesRead(s, env)
    ensures var t := InitializeSpec(s, env);
      t.format != "" && t.srs != "" && t.capabilitiesURL != "" &&
      t.prototype[|t.prototype| - |FormatSuffix(t.format)|..] == FormatSuffix(t.format) &&
      t.prefix == s.prefix && t.layers == s.layers && t.style == s.style && t.wmsFormat == s.wmsFormat &&
      t.wmsVersion == s.wmsVersion && t.tileSize == s.tileSize && t.elevationUnit == s.elevationUnit
  {
    var t := InitializeSpec(s, env);
    var caps := ReadCapabilities(env, CapabilitiesURLFor(s.capabilitiesURL, s.prefix)).value;
    var matches := MatchingPatterns(env, t.tileService, s.layers, t.format, s.style, t.srs, s.tileSize);
    var body := if |matches| > 0 then RequestOn(s.prefix, matches[0].prototype)
                else GetMapPrototype(s.prefix, s.wmsVersion, s.layers, FormatParameter(s.wmsFormat, t.format),
                                     s.style, t.srs, s.tileSize);
    assert t.prototype == body + FormatSuffix(t.format);
  }

  /**
   * Running `initialize` again against the same services changes nothing:
   * every default it fills in is kept by the second run, so the same
   * documents are read and the same profile and prototype are rebuilt.
   */
  lemma InitializeIdempotent(s: SourceState, env: Environment)
    requires CanInitialize(s, env)
    ensures CanInitialize(InitializeSpec(s, env), env)
    ensures InitializeSpec(InitializeSpec(s, env), env) == InitializeSpec(s, env)
  {
    var t := InitializeSpec(s, env);
    var capsURL := CapabilitiesURLFor(s.capabilitiesURL, s.prefix);
    assert capsURL != "" by {
      if s.capabilitiesURL == "" {
        assert |RequestOn(s.prefix, GetCapabilitiesQuery)| > 0;
      }
    }
    assert CapabilitiesURLFor(t.capabilitiesURL, t.prefix) == capsURL;
    match ReadCapabilities(env, capsURL)
    case None =>
    case Some(caps) =>
      var tsURL := TileServiceURLFor(s.tileServiceURL, s.prefix);
      assert tsURL != "" by {
        if s.tileServiceURL == "" {
          assert |RequestOn(s.prefix, GetTileServiceQuery)| > 0;
        }
      }
      assert TileServiceURLFor(t.tileServiceURL, t.prefix) == tsURL;
      assert ResolveFormat(t.format, caps.suggestedExtension) == t.format;
      assert ResolveSrs(t.srs) == t.srs;
  }

  /** Global Mercator wins whatever the capabilities say, unless a TileService pattern matches. */
  lemma MercatorPrecedence(s: SourceState, env: Environment)
    requires CanInitialize(s, env) && CapabilitiesRead(s, env)
    requires CreateSrs(env, ResolveSrs(s.srs)).value.mercatorEquivalent
    ensures var t := InitializeSpec(s, env);
      MatchingPatterns(env, t.tileService, t.layers, t.format, t.style, t.srs, t.tileSize) == [] ==>
        t.profile == Some(GlobalMercator)
  {
  }

  /**
   * A readable TileService document with at least one matching pattern
   * overrides both results: the profile is built from all matching patterns
   * and the request is the base URL with the first pattern's fragment.
   */
  lemma TileServiceOverride(s: SourceState, env: Environment)
    requires CanInitialize(s, env) && CapabilitiesRead(s, env)
    ensures var t := InitializeSpec(s, env);
      var matches := MatchingPatterns(env, t.tileService, t.layers, t.format, t.style, t.srs, t.tileSize);
      t.tileService == ReadTileService(env, t.tileServiceURL) &&
      (|matches| > 0 ==>
        t.profile == Some(FromTileService(matches)) &&
        t.prototype == RequestOn(s.prefix, matches[0].prototype) + FormatSuffix(t.format)) &&
      (|matches| == 0 ==>
        t.profile == ResolveProfile(t.srs, CreateSrs(env, t.srs).value,
                                    LayerByName(ReadCapabilities(env, t.capabilitiesURL).value, t.layers)))
  {
  }

  /** Without a matching TileService pattern the prototype is the GetMap request plus the format suffix. */
  lemma PlainPrototype(s: SourceState, env: Environment)
    requires CanInitialize(s, env) && CapabilitiesRead(s, env)
    requires var t := InitializeSpec(s, env);
      MatchingPatterns(env, t.tileService, t.layers, t.format, t.style, t.srs, t.tileSize) == []
    ensures var t := InitializeSpec(s, env);
      t.prototype == GetMapHead(t.prefix, t.wmsVersion, t.layers, FormatParameter(t.wmsFormat, t.format),
                                t.style, t.srs, t.tileSize) + BBoxPlaceholders + FormatSuffix(t.format)
  {
  }

  /**
   * On the plain WMS path the prototype holds exactly four placeholders, and
   * filling it with a tile's rendered bounds puts them after "&BBOX=" in the
   * order minx, miny, maxx, maxy, followed only by "&." + format (provided
   * the configured text contains no "%lf" of its own).
   */
  lemma GetMapRequest(s: SourceState, env: Environment, minx: string, miny: string, maxx: string, maxy: string)
    requires CanInitialize(s, env) && CapabilitiesRead(s, env)
    requires var t := InitializeSpec(s, env);
      MatchingPatterns(env, t.tileService, t.layers, t.format, t.style, t.srs, t.tileSize) == [] &&
      CountPlaceholders(GetMapHead(t.prefix, t.wmsVersion, t.layers, FormatParameter(t.wmsFormat, t.format),
                                   t.style, t.srs, t.tileSize)) == 0 &&
      CountPlaceholders(t.format) == 0
    ensures var t := InitializeSpec(s, env);
      var head := GetMapHead(t.prefix, t.wmsVersion, t.layers, FormatParameter(t.wmsFormat, t.format),
                             t.style, t.srs, t.tileSize);
      CountPlaceholders(t.prototype) == 4 &&
      Substitute(t.prototype, [minx, miny, maxx, maxy])
        == head + minx + "," + miny + "," + maxx + "," + maxy + FormatSuffix(t.format)
  {
    var t := InitializeSpec(s, env);
    PlainPrototype(s, env);
    SuffixPlain(t.format);
    FillBBox(GetMapHead(t.prefix, t.wmsVersion, t.layers, FormatParameter(t.wmsFormat, t.format),
                        t.style, t.srs, t.tileSize),
             FormatSuffix(t.format), minx, miny, maxx, maxy);
  }

  /** The format suffix adds no placeholder of its own. */
  lemma SuffixPlain(format: string)
    requires CountPlaceholders(format) == 0
    ensures CountPlaceholders(FormatSuffix(format)) == 0
  {
    SubstituteChar('.', format, []);
    SubstituteChar('&', "." + format, []);
    assert FormatSuffix(format) == ['&'] + (['.'] + format);
  }

  /**
   * The WIDTH and HEIGHT of a GetMap request are both the source's tile
   * size, which is what `getPixelsPerTile` reports: the rendered number
   * holds no '&', so it is the whole parameter value, and it reads back as
   * that size.
   */
  lemma TileDimensions(tileSize: int)
    ensures var w := IntToDecimal(tileSize);
      SizeParameters(tileSize) == "&WIDTH=" + w + "&HEIGHT=" + w &&
      '&' !in w && ParseDecimal(w) == tileSize
  {
    var w := IntToDecimal(tileSize);
    DecimalRoundTrip(tileSize);
    var d := NatToDecimal(if tileSize < 0 then -tileSize else tileSize);
    assert '&' !in d by {
      forall k | 0 <= k < |d| ensures d[k] != '&' {
        assert '0' <= d[k] <= '9';
      }
    }
    if tileSize < 0 {
      assert w == ['-'] + d;
    }
  }

  /** `createHeightField`'s scale: feet are converted to metres, any other unit is taken as metres. */
  function ScaleFactor(unit: string): (f: real)
    ensures f == 0.3048 <==> unit == "ft"
    ensures f != 0.3048 ==> f == 1.0
  {
    if unit == "ft" then 0.3048 else 1.0
  }

  /** A source configured without an elevation unit works in metres: its heights are not scaled. */
  lemma DefaultUnitScale(conf: Config)
    requires Value(conf, ElevationUnitKey) == ""
    ensures Configure(conf).elevationUnit == DefaultElevationUnit
    ensures ScaleFactor(Configure(conf).elevationUnit) == 1.0
  {
  }
}
