# WMS tile source, modelled in Dafny

This project models the WMS tile source of osgEarth's `wms` plugin
(`src/osgPlugins/wms/ReaderWriterWMS.cpp`). The tile source talks to an OGC
Web Map Service 1.1.1 server. It does three things:

- it reads its settings from a configuration;
- `initialize` fills in defaults, fetches the GetCapabilities document
  (section 7.1 of the OGC WMS 1.1.1 specification), chooses a tiling
  profile, and builds a GetMap request prototype (section 7.2) with four
  "%lf" bounding-box placeholders; a JPL TileService document, when one is
  found and has matching tile patterns, overrides both the profile and the
  prototype;
- `createURI` fills the prototype with a tile's bounds and, for server
  addresses, escapes spaces as "%20" (section 2.1 of RFC 3986).

Files, one module each:

- `wrappers.dfy` (`Wrappers`): `Option`, standing in for null pointers and `npos`.
- `text.dfy` (`Text`): `std::string::find` (`FindFrom`), the replace-all loop
  `replaceIn` (method `ReplaceIn`, proved against the reference function
  `Replaced`), space escaping (`EscapeSpaces` and its inverse
  `UnescapeSpaces`), and the decimal rendering of an `int` by `operator<<`
  with its parse-back.
- `printf.dfy` (`Printf`): the part of `sprintf` the source relies on. Each
  "%lf" is replaced, left to right, by the next already-rendered bound.
- `wms_types.dfy` (`WmsTypes`): configuration, capabilities document,
  layers, bounds, spatial references, TileService documents and profiles.
  It also holds `Environment`, the answers of the collaborators
  `initialize` calls: the two document readers keyed by URL,
  `SpatialReference::create` keyed by SRS name, and which tile patterns
  satisfy which query; `getMatchingPatterns` keeps the document's patterns
  that satisfy the query, in order.
- `wms_init.dfy` (`WmsInit`): the source's fields as a value
  (`SourceState`) and specification functions for the constructor
  (`Configure`) and `initialize` (`InitializeSpec`, composed of
  `WithDefaults` and `WithRequests`). It also holds the URL, format, SRS,
  profile and prototype rules, and the lemmas about them.
- `wms_source.dfy` (`WmsSource`): the class `WMSSource` with the source's
  fields. Its constructor and `Initialize` update the fields step by step,
  as the source does, with the early return when the capabilities cannot be
  read. Each is proved to leave exactly the state the specification
  functions describe. `CreateURI` calls `ReplaceIn`.
  `PixelsPerTile`, `Extension` and `HeightFieldScale` are the accessors
  `getPixelsPerTile`, `getExtension` and the scale choice of
  `createHeightField`.

## Model

| member | source | states |
|---|---|---|
| Text.FindFrom | src/osgPlugins/wms/ReaderWriterWMS.cpp:57-58 | `find(sub, b)` gives the first index at or after `b` where `sub` occurs, and `npos` (None) exactly when there is none from `b` on |
| Text.Replaced | src/osgPlugins/wms/ReaderWriterWMS.cpp:50-63 | reference for the replace-all: replacing `sub` by itself changes nothing, and a replacement of the same length keeps the length |
| Text.ReplaceIn | src/osgPlugins/wms/ReaderWriterWMS.cpp:50-63 | with an empty `sub` the string comes back unchanged; otherwise the loop terminates (`|s| - b` decreases) and its result is the left-to-right replacement of every occurrence, never rescanning inserted text (`Replaced`) |
| Text.ReplacedAbsent | src/osgPlugins/wms/ReaderWriterWMS.cpp:57-58 | a string with no occurrence of `sub` is left unchanged by the replacement |
| Text.EscapeSpaces | src/osgPlugins/wms/ReaderWriterWMS.cpp:288 | the escaped string contains no space and is at least as long as the input |
| Text.ReplacedSpaces | src/osgPlugins/wms/ReaderWriterWMS.cpp:288 | `replaceIn(uri, " ", "%20")` is exactly the space escaping: every space becomes "%20" and every other character is copied in order |
| Text.EscapeRoundTrip | src/osgPlugins/wms/ReaderWriterWMS.cpp:288 | on text without '%', unescaping the escaped text gives the text back, so no non-space character is lost or reordered |
| Text.EscapeWithoutSpaces | src/osgPlugins/wms/ReaderWriterWMS.cpp:287-288 | a URI without spaces is not changed by the escaping |
| Text.NatToDecimal | src/osgPlugins/wms/ReaderWriterWMS.cpp:143-144 | the rendered tile size is a non-empty string of decimal digits without a leading zero |
| Text.IntToDecimal | src/osgPlugins/wms/ReaderWriterWMS.cpp:143-144 | `operator<<` of an `int` gives a non-empty string that starts with '-' exactly for a negative number, with decimal digits everywhere else |
| Text.DecimalRoundTrip | src/osgPlugins/wms/ReaderWriterWMS.cpp:143-144 | the decimal rendering of any `int` reads back as the same number |
| Printf.Substitute | src/osgPlugins/wms/ReaderWriterWMS.cpp:282 | with no arguments the text is copied as it is; the lemmas below state what filling does |
| Printf.NoPercentNoPlaceholder | src/osgPlugins/wms/ReaderWriterWMS.cpp:282 | text without '%' holds no "%lf" placeholder |
| Printf.SubstituteLiteral | src/osgPlugins/wms/ReaderWriterWMS.cpp:282 | text with no "%lf" is copied unchanged whatever the arguments |
| Printf.CountConcat | src/osgPlugins/wms/ReaderWriterWMS.cpp:282 | the placeholders of a concatenation are those of its parts, when no placeholder can straddle the join |
| Printf.SubstituteConcat | src/osgPlugins/wms/ReaderWriterWMS.cpp:282 | filling a concatenation fills the first part, then the second with the arguments the first did not use |
| Printf.FillPlaceholders | src/osgPlugins/wms/ReaderWriterWMS.cpp:145 | "%lf,%lf,%lf,%lf" holds four placeholders and takes four values in the order given, comma-separated |
| Printf.FillBBox | src/osgPlugins/wms/ReaderWriterWMS.cpp:281-282 | a placeholder-free head, the four bounds placeholders and a placeholder-free tail: exactly four placeholders, and the four values land between head and tail in order, with nothing else changed |
| WmsInit.ConfiguredTileSize | src/osgPlugins/wms/ReaderWriterWMS.cpp:93-96 | `tile_size` when configured (256 when it is not a number), else `default_tile_size` when it is a number, else 256 |
| WmsInit.Configure | src/osgPlugins/wms/ReaderWriterWMS.cpp:68-101 | each setting is the configured text; the WMS version is "1.1.1" unless configured; the tile size follows `ConfiguredTileSize`; the elevation unit is "m" when empty and never empty; no profile, TileService or prototype yet |
| WmsInit.Separator | src/osgPlugins/wms/ReaderWriterWMS.cpp:108 | the separator is '?' exactly when the base URL has no '?', and '&' exactly when it has one |
| WmsInit.CapabilitiesURLFor | src/osgPlugins/wms/ReaderWriterWMS.cpp:110-111 | a configured capabilities URL is kept; an empty one becomes base URL, separator and the GetCapabilities query, always at version 1.1.1 |
| WmsInit.TileServiceURLFor | src/osgPlugins/wms/ReaderWriterWMS.cpp:205-206 | a configured TileService URL is kept; an empty one becomes base URL, separator and "request=GetTileService" |
| WmsInit.ResolveFormat | src/osgPlugins/wms/ReaderWriterWMS.cpp:122-129 | an explicit format is kept, an empty one takes the capabilities' suggestion, then "png"; the result is never empty |
| WmsInit.ResolveSrs | src/osgPlugins/wms/ReaderWriterWMS.cpp:131-132 | an explicit SRS is kept, an empty one becomes "EPSG:4326" |
| WmsInit.FormatParameter | src/osgPlugins/wms/ReaderWriterWMS.cpp:140 | the FORMAT parameter is `wms_format` when set, else "image/" + format |
| WmsInit.ResolveProfile | src/osgPlugins/wms/ReaderWriterWMS.cpp:149-200 | first match wins: a Mercator-equivalent SRS gives global Mercator whatever the layer; else a geodetic-equivalent one gives global geodetic; else a matching layer gives `Custom(srs, extents)` with its native extents for a projected SRS or non-zero native extents, with its lat/lon extents for a geographic SRS whose native extents are all zero, and global geodetic when both are all zero; else a geographic SRS gives global geodetic; no profile exactly when none of these applies; a custom profile only ever comes from a layer, and is never all-zero for a geographic SRS |
| WmsInit.GetMapQuery | src/osgPlugins/wms/ReaderWriterWMS.cpp:138-142 | the SERVICE, VERSION, REQUEST, LAYERS, FORMAT, STYLES and SRS parameters carry no '%' when the settings carry none |
| WmsInit.SizeParameters | src/osgPlugins/wms/ReaderWriterWMS.cpp:143-144 | the WIDTH and HEIGHT parameters never carry a '%' |
| WmsInit.GetMapHead | src/osgPlugins/wms/ReaderWriterWMS.cpp:136-145 | the static part of the GetMap request starts with the base URL and is longer than it |
| WmsInit.GetMapHeadPlain | src/osgPlugins/wms/ReaderWriterWMS.cpp:136-145 | with '%'-free settings the static part holds no "%lf", so the bounds placeholders are the only ones in the request |
| WmsInit.GetMapPrototype | src/osgPlugins/wms/ReaderWriterWMS.cpp:134-147 | the GetMap prototype starts with the base URL and ends with the four bounds placeholders "%lf,%lf,%lf,%lf" |
| WmsInit.FormatSuffix | src/osgPlugins/wms/ReaderWriterWMS.cpp:228 | the suffix is "&." followed by the whole format and nothing else |
| WmsInit.MatchingPatterns | src/osgPlugins/wms/ReaderWriterWMS.cpp:209-216 | without a readable TileService document there are no matches; every match is a pattern of the document |
| WmsTypes.FilterPatterns | src/osgPlugins/wms/ReaderWriterWMS.cpp:213-219 | `getMatchingPatterns` returns exactly the document's patterns that satisfy the query, no more of them than the document has, and its first result, the one whose fragment becomes the prototype, is the first satisfying pattern in document order |
| WmsInit.WithDefaults | src/osgPlugins/wms/ReaderWriterWMS.cpp:122-132 | after the defaults the format and SRS are non-empty, an explicit format or SRS is kept, and no other field changes |
| WmsInit.WithRequests | src/osgPlugins/wms/ReaderWriterWMS.cpp:134-228 | the TileService URL is non-empty and the TileService is what the reader returns for it; the profile comes from the TileService exactly when a pattern matches; the prototype ends in "&." + format; no field other than TileService URL, TileService, profile and prototype changes |
| WmsInit.InitializeSpec | src/osgPlugins/wms/ReaderWriterWMS.cpp:104-234 | `initialize` always fixes the capabilities URL, changes nothing else when the capabilities cannot be read, and never touches base URL, layers, style, `wms_format`, version, tile size or elevation unit |
| WmsInit.CapabilitiesFailure | src/osgPlugins/wms/ReaderWriterWMS.cpp:113-119 | when the capabilities cannot be read, only the capabilities URL changes; profile and prototype stay as they were |
| WmsInit.InitializeSettles | src/osgPlugins/wms/ReaderWriterWMS.cpp:122-228 | after a successful `initialize` the format, SRS and capabilities URL are non-empty, the prototype ends in "&." + format, and no configured setting is touched |
| WmsInit.InitializeIdempotent | src/osgPlugins/wms/ReaderWriterWMS.cpp:104-234 | running `initialize` a second time against the same services leaves the state as the first run left it |
| WmsInit.MercatorPrecedence | src/osgPlugins/wms/ReaderWriterWMS.cpp:151-155 | after a successful capabilities read, with a Mercator-equivalent SRS and no matching TileService pattern the profile is global Mercator |
| WmsInit.TileServiceOverride | src/osgPlugins/wms/ReaderWriterWMS.cpp:205-228 | after a successful capabilities read, the TileService is what the reader returns for the TileService URL; with matching patterns the profile is built from them and the prototype is base URL, separator, the first pattern's fragment and "&." + format; with none the profile is the one chosen from SRS and capabilities |
| WmsInit.PlainPrototype | src/osgPlugins/wms/ReaderWriterWMS.cpp:134-147 | after a successful capabilities read and without a matching pattern, the prototype is the GetMap request, the four bounds placeholders and "&." + format |
| WmsInit.GetMapRequest | src/osgPlugins/wms/ReaderWriterWMS.cpp:134-147 | after a successful capabilities read, on the plain WMS path and when the settings and the format hold no "%lf", the prototype holds exactly four placeholders, and filling it puts minx, miny, maxx, maxy after "&BBOX=" in that order, followed only by "&." + format |
| WmsInit.SuffixPlain | src/osgPlugins/wms/ReaderWriterWMS.cpp:228 | the "&." + format suffix adds no placeholder when the format has none |
| WmsInit.TileDimensions | src/osgPlugins/wms/ReaderWriterWMS.cpp:143-144 | WIDTH and HEIGHT carry the same rendered tile size, which holds no '&' and reads back as the tile size that `getPixelsPerTile` returns |
| WmsInit.ScaleFactor | src/osgPlugins/wms/ReaderWriterWMS.cpp:264-270 | the height-field scale is 0.3048 exactly when the unit is "ft", and 1 otherwise |
| WmsInit.DefaultUnitScale | src/osgPlugins/wms/ReaderWriterWMS.cpp:99-100 | a source configured without an elevation unit works in "m" and its heights are not scaled |
| WmsSource.WMSSource.PixelsPerTile | src/osgPlugins/wms/ReaderWriterWMS.cpp:293-296 | `getPixelsPerTile` is the tile size, the one WIDTH and HEIGHT carry (`TileDimensions`) |
| WmsSource.WMSSource.Extension | src/osgPlugins/wms/ReaderWriterWMS.cpp:298-301 | `getExtension` is the format, non-empty after a successful `initialize` (`InitializeSettles`) |
| WmsSource.WMSSource.HeightFieldScale | src/osgPlugins/wms/ReaderWriterWMS.cpp:264-270 | the source's scale is 0.3048 exactly when its unit is "ft", and 1 otherwise |
| WmsSource.ChooseProfile | src/osgPlugins/wms/ReaderWriterWMS.cpp:149-200 | the source's step-by-step profile choice gives exactly `ResolveProfile` |
| WmsSource.WMSSource.constructor | src/osgPlugins/wms/ReaderWriterWMS.cpp:68-101 | the fields are exactly `Configure(conf)` |
| WmsSource.WMSSource.Initialize | src/osgPlugins/wms/ReaderWriterWMS.cpp:104-234 | the new fields are exactly `InitializeSpec` of the old ones, including the early return |
| WmsSource.WMSSource.BuildRequests | src/osgPlugins/wms/ReaderWriterWMS.cpp:134-228 | prototype, profile choice and TileService override leave exactly `WithRequests` of the old fields |
| WmsSource.WMSSource.FetchTileService | src/osgPlugins/wms/ReaderWriterWMS.cpp:205-209 | the TileService URL is defaulted and the document read from it; nothing else changes |
| WmsSource.WMSSource.CreateURI | src/osgPlugins/wms/ReaderWriterWMS.cpp:276-291 | the URI is the prototype with the four rendered bounds filled in order minx, miny, maxx, maxy; it is space-escaped exactly when it contains a server address, in which case it has no spaces and unescapes back to the filled string when that has no '%' |

## Left out

- Network and document reading (`CapabilitiesReader::read`, `TileServiceReader::read`, `HTTPClient::readImageFile`) are not modelled. Their answers are the maps of `Environment`, keyed by URL.
- `createImage` and the height-field conversion (`ImageToHeightFieldConverter::convert`) are outside the model. Only the scale `createHeightField` passes on is modelled (`ScaleFactor`, `HeightFieldScale`).
- Logging (`osg::notify`) has no effect on results and is not modelled.
- `SpatialReference::create`, `isEquivalentTo` and `isGeographic` are represented by the three booleans of `SpatialRef`. `Profile::create` and `TileService::createProfile` are represented by the profile tags `Custom` and `FromTileService`.
- The `Config` class is not part of this model. `hasValue` is taken as "the key carries a non-empty value", and `value<int>` as the integer reading each `Setting` carries, with the fallback for an empty value. If `hasValue` meant only "the key is present", a present but empty `wms_version` would replace "1.1.1" by "", and a present but empty `tile_size` would give 256 instead of falling through to `default_tile_size`.
- The comparison `getMatchingPatterns` applies to each tile pattern is in `TileService`, which is not part of this model. `Environment.accepts` says which pattern satisfies which query; the model keeps the document's patterns that satisfy it, in document order.
- The `Capabilities` class is not part of this model. `capabilities->getLayerByName` is taken as a lookup by exact name among the layers the document lists; a nested-layer search or a case-insensitive comparison would find layers this model does not. A comma-separated list of layers is passed as one name, as the source does.
- WmsSource.WMSSource.CreateURI: the "%lf" rendering of a double is not modelled. The bounds arrive through the `render` parameter. `osgDB::containsServerAddress` is the parameter `containsServerAddress`.
- Printf.Substitute: only the "%lf" directive is interpreted. Other '%' sequences in the configured text (including "%%") are copied as they are, although `sprintf` would interpret them. The 2048-byte buffer limit is not modelled.
- WmsInit.ScaleFactor: the scale is the exact real 0.3048, not its nearest `float`.
- Layer extents and tile bounds are `real`, not `double`. Every finite double compares with 0 as the real does (and -0.0 equals 0), but a NaN extent, which the source treats as non-zero, cannot be represented.
- WmsSource.WMSSource.Initialize: requires that the settled SRS names a valid spatial reference whenever the capabilities are read. The source dereferences the reference at lines 174 and 197 without checking it; the crash an unknown SRS would cause is not modelled.
- The parameters `referenceURI` and `overrideProfile` of `initialize` are unused by the source and are not modelled. `setProfile` is an assignment of the chosen profile to the `profile` field.
- Plugin registration (`ReaderWriterWMS`, `acceptsExtension`, `readObject`, `REGISTER_OSGPLUGIN`) is plumbing and is not modelled.
- Text.EscapeRoundTrip: stated for text without '%'. A "%20" already present in the text would unescape to a space, so the inverse cannot hold there.
