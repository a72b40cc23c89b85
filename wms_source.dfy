/**
 * The WMS tile source itself: an object whose constructor reads the
 * configuration and whose `initialize` fills in defaults, reads the service
 * documents and settles the profile and the request prototype, field by
 * field, returning early when the capabilities cannot be read. Each method
 * is proved against the functions of module WmsInit.
 */
module WmsSource {
  import opened Wrappers
  import opened Text
  import opened Printf
  import opened WmsTypes
  import opened WmsInit

  /**
   * The profile part of `initialize`, step by step: the two global
   * profiles first, then the extents of the layer named by the `layers`
   * setting, then global geodetic as the last resort for a geographic SRS.
   * `wmsSrs` must be a valid reference (the source dereferences it).
   */
  method ChooseProfile(srs: string, wmsSrs: Option<SpatialRef>, layer: Option<Layer>)
    returns (result: Option<Profile>)
    requires wmsSrs.Some?
    ensures result == ResolveProfile(srs, wmsSrs.value, layer)
  {
    result := None;
    if wmsSrs.Some? && wmsSrs.value.mercatorEquivalent {
      result := Some(GlobalMercator);
    } else if wmsSrs.Some? && wmsSrs.value.geodeticEquivalent {
      result := Some(GlobalGeodetic);
    }

    if result.None? {
      if layer.Some? {
        var extents := layer.value.extents;
        if wmsSrs.value.geographic {
          if IsZero(extents) {
            extents := layer.value.latLonExtents;
          }
          if IsZero(extents) {
            result := Some(GlobalGeodetic);
          }
        }
        if result.None? {
          result := Some(Custom(srs, extents));
        }
      }
    }

    if result.None? && wmsSrs.value.geographic {
      result := Some(GlobalGeodetic);
    }
  }

  class WMSSource {
    var prefix: string
    var layers: string
    var style: string
    var format: string
    var wmsFormat: string
    var wmsVersion: string
    var srs: string
    var tileServiceURL: string
    var capabilitiesURL: string
    var tileSize: int
    var elevationUnit: string
    var tileService: Option<TileService>
    var profile: Option<Profile>
    var prototype: string

    /** The fields as one value. */
    function State(): SourceState
      reads this
    {
      SourceState(prefix, layers, style, format, wmsFormat, wmsVersion, srs, tileServiceURL,
                  capabilitiesURL, tileSize, elevationUnit, tileService, profile, prototype)
    }

    /** Reads the settings; no profile and no prototype yet. */
    constructor (conf: Config)
      ensures State() == Configure(conf)
    {
      tileSize := DefaultTileSize;
      wmsVersion := DefaultWmsVersion;
      prefix := Value(conf, UrlKey);
      layers := Value(conf, LayersKey);
      style := Value(conf, StyleKey);
      format := Value(conf, FormatKey);
      wmsFormat := Value(conf, WmsFormatKey);
      capabilitiesURL := Value(conf, CapabilitiesUrlKey);
      tileServiceURL := Value(conf, TileServiceUrlKey);
      elevationUnit := Value(conf, ElevationUnitKey);
      srs := Value(conf, SrsKey);
      tileService := None;
      profile := None;
      prototype := "";
      new;
      if HasValue(conf, WmsVersionKey) {
        wmsVersion := Value(conf, WmsVersionKey);
      }
      if HasValue(conf, TileSizeKey) {
        tileSize := IntValue(conf, TileSizeKey, tileSize);
      } else {
        tileSize := IntValue(conf, DefaultTileSizeKey, tileSize);
      }
      if elevationUnit == "" {
        elevationUnit := DefaultElevationUnit;
      }
    }

    /**
     * `initialize`: derive the request URLs, read the capabilities (or give
     * up), default the format and SRS, build the GetMap prototype, choose
     * the profile, let a TileService document override both, and append the
     * format suffix.
     */
    method Initialize(env: Environment)
      requires CanInitialize(State(), env)
      modifies this
      ensures State() == InitializeSpec(old(State()), env)
    {
      ghost var s0 := State();
      var sep := Separator(prefix);
      if capabilitiesURL == "" {
        capabilitiesURL := prefix + [sep] + GetCapabilitiesQuery;
      }
      assert capabilitiesURL == CapabilitiesURLFor(s0.capabilitiesURL, s0.prefix);
      var capabilities := ReadCapabilities(env, capabilitiesURL);
      if capabilities.None? {
        return;
      }
      ghost var s1 := State();
      if format == "" {
        format := capabilities.value.suggestedExtension;
      }
      if format == "" {
        format := DefaultFormat;
      }
      if srs == "" {
        srs := DefaultSrs;
      }
      assert State() == WithDefaults(s1, capabilities.value);
      BuildRequests(env, capabilities.value, sep);
    }

    /** The part of `initialize` after the format and SRS are settled. */
    method BuildRequests(env: Environment, capabilities: Capabilities, sep: char)
      requires sep == Separator(prefix) && CreateSrs(env, srs).Some?
      modifies this
      ensures State() == WithRequests(old(State()), capabilities, env)
    {
      var proto := GetMapPrototype(prefix, wmsVersion, layers, FormatParameter(wmsFormat, format),
                                   style, srs, tileSize);
      var wmsSrs := CreateSrs(env, srs);
      var result := ChooseProfile(srs, wmsSrs, LayerByName(capabilities, layers));
      FetchTileService(env, sep);
      if tileService.Some? {
        var patterns := GetMatchingPatterns(env, tileService.value,
                                             PatternQuery(layers, format, style, srs, tileSize, tileSize));
        if |patterns| > 0 {
          result := Some(FromTileService(patterns));
          proto := prefix + [sep] + patterns[0].prototype;
        }
      }
      prototype := proto + FormatSuffix(format);
      profile := result;
    }

    /** Defaults the TileService URL and reads the document there, if any. */
    method FetchTileService(env: Environment, sep: char)
      requires sep == Separator(prefix)
      modifies this
      ensures State() == old(State()).(tileServiceURL := TileServiceURLFor(old(tileServiceURL), prefix),
                                       tileService := ReadTileService(env, tileServiceURL))
    {
      if tileServiceURL == "" {
        tileServiceURL := prefix + [sep] + GetTileServiceQuery;
      }
      tileService := ReadTileService(env, tileServiceURL);
    }

    /**
     * `createURI`: fill the prototype's placeholders with the tile's bounds,
     * rendered by `render`, in the order minx, miny, maxx, maxy; when the
     * result addresses a server, escape its spaces.
     */
    method CreateURI(key: Bounds, render: real -> string, containsServerAddress: string -> bool)
      returns (uri: string)
      ensures var filled := Substitute(prototype, [render(key.minx), render(key.miny),
                                                   render(key.maxx), render(key.maxy)]);
        uri == if containsServerAddress(filled) then EscapeSpaces(filled) else filled
      ensures var filled := Substitute(prototype, [render(key.minx), render(key.miny),
                                                   render(key.maxx), render(key.maxy)]);
        containsServerAddress(filled) ==> ' ' !in uri && ('%' !in filled ==> UnescapeSpaces(uri) == filled)
    {
      uri := Substitute(prototype, [render(key.minx), render(key.miny), render(key.maxx), render(key.maxy)]);
      if containsServerAddress(uri) {
        ghost var filled := uri;
        uri := ReplaceIn(uri, " ", "%20");
        ReplacedSpaces(filled);
        if '%' !in filled {
          EscapeRoundTrip(filled);
        }
      }
    }

    /** `getPixelsPerTile`. */
    function PixelsPerTile(): (n: int)
      reads this
      ensures n == State().tileSize
    {
      tileSize
    }

    /** `getExtension`. */
    function Extension(): (e: string)
      reads this
      ensures e == State().format
    {
      format
    }

    /** The scale `createHeightField` passes to the height-field conversion. */
    function HeightFieldScale(): (f: real)
      reads this
      ensures f == 0.3048 <==> elevationUnit == "ft"
      ensures f != 0.3048 ==> f == 1.0
    {
      ScaleFactor(elevationUnit)
    }
  }
}
