# A verified model of the GeoJSON handling in assignment2019.py

The repository is a desktop GIS tool. It downloads polygons from a WFS
(GeoServer) endpoint as GeoJSON, merges the polygons selected by a property
filter, and writes the result to a shapefile. Around the geometry library
calls sit three pieces of dictionary and string logic. This project models
those three pieces in Dafny and proves what they compute:

- **Shapefile export** (`geojson_to_shp`, modelled in `shapefile.dfy`).
  - A schema is inferred from the first feature's properties.
  - Every feature is projected onto that schema as one record for `fh.write`.
  - The function appears twice with identical bodies, at lines 15-59 and 166-210; it is modelled once.
- **Filter and merge** (`merge_polys`, modelled in `merge.dfy`).
  - Features are selected when their `filter_key` value contains `filter_value`.
  - One output feature is built. Its properties start with the filter pair and then hold the per-key total of every `float` property.
- **WFS request URL** (the URL-building part of `download_geojson_file`, modelled in `wfs_url.dfy`).
  - The function checks that `host` and `layer` are present.
  - It adds the optional `&srsName=`, `&PROPERTYNAME=` and `&CQL_FILTER=` fragments.
  - The CQL filter is percent-encoded by `urllib.parse.quote`, modelled in `url_quote.dfy`.

Supporting modules:

- `common.dfy`: `Option`, and a `Result` whose error side is one of the Python exceptions the code raises (`KeyError`, `IndexError`, `TypeError`, `ValueError`).
  - `geojson_to_shp` and the body of `merge_polys` catch an exception, print it and call `quit()`.
  - Other errors propagate to the caller: the `ValueError`s of `download_geojson_file` (lines 331 and 335), its `KeyError` for `params["filter_values"]` (line 349), and the `geojson["crs"]` lookup of `merge_polys` (line 120, before its `try`).
  - The model returns both kinds as an `Err` result.
- `ordered_dict.dfy`: Python's insertion-ordered `dict`/`OrderedDict` as a sequence of key-value pairs.
  - `d[k] = v` updates an existing key in place and appends a new key at the end.
  - It also defines the subsequence relation used to state "order preserved".
- `geojson.dfy`: property values, features and feature collections.
  - Geometry is a type parameter: the model never looks inside it.
  - The shapely union and `bounds`, and the geometry's `"type"` entry, are function parameters.

Each `for` loop of the source is a `while` loop over a local sequence in the model.
Its method is proved equal to a specification function, or, for `GeojsonToShp`, to a
record-by-record `ensures`. The lemmas prove what those functions mean.

A feature without `"id"` ends `geojson_to_shp` after the records before it have
been written; `Shapefile.GeojsonToShp` returns those records with `KeyError("id")`.

## Model

| member | source | states |
|---|---|---|
| OrderedDict.SetSemantics | assignment2019.py:37 | after `d[k] = v`, `k` is present with value `v`; every other key is present iff it was before, with its old value |
| OrderedDict.SetDistinct | assignment2019.py:37 | `d[k] = v` keeps the keys distinct |
| OrderedDict.HasKeyIff | assignment2019.py:52 | `k in d` holds iff some entry has key `k`; with distinct keys, every entry for `k` holds `d[k]` |
| Shapefile.SchemaOfEntries | assignment2019.py:33-37 | the schema maps `k` to `t` iff the first feature maps `k` to a value whose type name `t` is `str`, `int` or `float`; `bool` and `None` values give no field |
| Shapefile.SchemaOfOrder | assignment2019.py:33-37 | the schema keys appear in the first feature's key order, with no repeats |
| Shapefile.InferSchema | assignment2019.py:33-37 | the loop that fills `my_schema` with `d[k] = v` computes exactly that schema |
| Shapefile.RestrictEntries | assignment2019.py:48-53 | an entry is in a record's properties iff it is in the feature's properties and its key is in the schema |
| Shapefile.RestrictOrder | assignment2019.py:48-53 | a record's properties keep the feature's key order, with distinct keys |
| Shapefile.ProjectProperties | assignment2019.py:48-53 | the inner loop that builds `outgoing_feature["properties"]` computes that restriction |
| Shapefile.RecordOfFeature | assignment2019.py:46-54 | each record has type `"Feature"`, the feature's id and geometry unchanged, and exactly the feature's schema-key entries in order |
| Shapefile.GeojsonToShp | assignment2019.py:15-59 | the errors come in the source's order: `KeyError` for a missing `crs`, `KeyError` for a missing `code`, `IndexError` for no features; otherwise the header holds the first feature's geometry type, the inferred schema and the crs code; record `j` is the projection of feature `j`; all features are written unless one lacks `id`, which stops the run with `KeyError("id")` after the records before it; missing or null `features`, `geometry` and `properties` members, a null crs and a failing geometry `"type"` lookup are not modelled (see Left out) |
| Merge.KeptPositionsSpec | assignment2019.py:126 | the kept positions are exactly those whose feature has `filter_key` mapped to a string containing `filter_value` |
| Merge.SelectionFails | assignment2019.py:125-128 | the selection fails iff some feature has `filter_key` mapped to a non-string, and the failure is `TypeError` |
| Merge.SelectionKeeps | assignment2019.py:125-128 | a successful selection is the input at exactly the kept positions, in input order |
| Merge.SelectedAreKept | assignment2019.py:125-128 | every selected feature is an input feature that passes the filter test |
| Merge.SelectFeatures | assignment2019.py:125-128 | the loop returns that selection, or its `TypeError`, and `my_geometries` is the selected features' geometries in order |
| Merge.TotalsStepPresent | assignment2019.py:143-144 | `merged[k] += v` for a key that already has a total is that total replaced in place by total + v |
| Merge.TotalsStepNew | assignment2019.py:145-146 | `merged[k] = v` for a key without a total appends `(k, v)` |
| Merge.MergeFeature | assignment2019.py:141-146 | the inner loop over one feature adds its float pairs to the totals; it fails with `TypeError` exactly when it would add a float to the string under `filter_key` |
| Merge.MergeProperties | assignment2019.py:136-146 | the nested loops return the merged properties, or `TypeError` exactly when a selected feature has a float under `filter_key` |
| Merge.MergedPropertiesContent | assignment2019.py:136-146 | the merged properties start with `filter_key` mapped to `filter_value` and have distinct keys; any other key is present iff some selected feature has a float under it; it maps to the sum of those floats over the selected features, and non-float values add nothing |
| Merge.MergedPropertiesOrder | assignment2019.py:140-146 | after the filter pair, the keys follow the order in which the loops first meet a float value for them |
| Merge.SelectionNoFloatAtKey | assignment2019.py:126-144 | a selected feature maps `filter_key` to a string, so the str + float `TypeError` of line 144 cannot happen after a successful selection |
| Merge.MergePolys | assignment2019.py:103-164 | `KeyError` for a missing `crs`; `TypeError` when the selection fails; otherwise a `"FeatureCollection"` has the input's crs, the merged geometry's bounds as bbox, and one feature of type `"feature"` with id 0, the union of the selected geometries and the merged properties; missing or null `features`, `geometry` and `properties` members and a null crs are not modelled (see Left out) |
| UrlQuote.QuoteRoundTrip | assignment2019.py:355 | percent-decoding the quoted text gives back the UTF-8 bytes of the original text |
| UrlQuote.QuoteIsUrlSafe | assignment2019.py:355 | quoted text holds only unreserved characters, `/` and `%` |
| UrlQuote.QuoteKeepsSafe | assignment2019.py:355 | text made only of unreserved characters and `/` is left unchanged |
| WfsUrl.RequestUrlErrors | assignment2019.py:330-358 | `ValueError` iff `host` is absent, then `ValueError` iff `layer` is absent, then `KeyError("filter_values")` iff `filter_property` is truthy and `filter_values` is absent; only presence is checked, so any other parameter record gives a URL |
| WfsUrl.IntStringRoundTrip | assignment2019.py:337 | `str(n)` of an int is a decimal numeral that reads back as `n` |
| WfsUrl.SrsFragment | assignment2019.py:336-339 | the srsName fragment is non-empty iff `srs_code` is present and truthy, and a numeric code reads back from the text after `&srsName=epsg:` |
| WfsUrl.BuildItemString | assignment2019.py:341-343 | the `item_string` loop writes every property name followed by a comma |
| WfsUrl.BuildPropertyText | assignment2019.py:340-348 | the property fragment is `&PROPERTYNAME=`, the item string and then the geometry field when truthy, or empty when `properties` is empty or absent |
| WfsUrl.PropertyFragment | assignment2019.py:340-348 | the fragment is there iff `properties` is non-empty; splitting its list at commas gives back the property names followed by the geometry field (empty when that is not truthy) |
| WfsUrl.BuildFilterClauses | assignment2019.py:350-354 | the `filter_text` loop writes the first `LIKE` condition, then `OR ` and one condition for each later value, in order |
| WfsUrl.FilterClausesJoin | assignment2019.py:350-354 | the filter text is the `P LIKE '%v%'` conditions joined by `"OR "` |
| WfsUrl.TwoValueFilter | assignment2019.py:353 | for any property and two values, the filter text is the first condition, then `OR ` directly after its closing quote, then the second condition |
| WfsUrl.BuildFilterText | assignment2019.py:349-358 | the filter fragment is `&CQL_FILTER=` and the quoted conditions, empty when the filter property or values are not truthy, or `KeyError` when the values are absent |
| WfsUrl.FilterFragment | assignment2019.py:349-358 | with a truthy filter, the text after `&CQL_FILTER=` holds no `&`, only URL-safe characters and `%`; it percent-decodes to the UTF-8 bytes of the joined conditions |
| WfsUrl.NoFilterFragment | assignment2019.py:349-358 | without a truthy filter property and values there is no filter fragment |
| WfsUrl.BuildRequestUrl | assignment2019.py:330-367 | the builder returns the base GetFeature URL for `host` and `layer` followed by the srs, property and filter fragments in that order, or the first exception in source order |

## Left out

- Graphical user interface. The Tkinter windows, `catch_destroy`, `single_plot` and `main_gui` are UI code.
- GUI parameters. The GUI calls `download_geojson_file` with the `MyGUI` object itself as `params`. The model takes `params` as a dictionary record, as the function's body reads it.
- Download and cache handling. The HTTP request through `httplib2`, the `.httpcache` directory, the log-widget writes, and the JSON/XML parsing of the response are I/O and foreign parsers. The URL is the last thing modelled.
- Unreachable log insert. Lines 332-333 of `download_geojson_file` come after the `raise` and cannot run.
- File writing. The model stops at the header passed to `fiona.open` and the records passed to `fh.write`. It does not model fiona's file writing. It does not model `from_epsg`, so an invalid EPSG code is not an error in the model.
- Geometry. shapely `shape`, `cascaded_union`, `bounds` and `mapping` are not modelled. The union and bounds are parameters. `mapping(shape(g))` is taken to give back `g`.
- Floating point. Float properties are summed as exact reals, without IEEE rounding.
- `make_centroid`. It is a centroid library call plus a call into a geocoder that is not part of this model.
- `extract_points`. It is a dead stub that reads an undefined attribute.
- main.py is not part of this model. It is a plotting script built on random points and floating-point distances.
- Property values. They are strings, ints, floats, bools and None. List and dict values, which would change what `filter_value in v` does, are not modelled.
- Python `str()` and `format`. The property names, host, layer, geometry field and filter values are modelled as strings. An `srs_code` is an int or a string.
- Shapefile.GeojsonToShp: `geojson["crs"]["properties"]["code"]` is modelled with a crs record whose code may be absent. A missing `"properties"` entry and a missing `"code"` entry are the same `KeyError("code")`.
- Shapefile.GeojsonToShp and Merge.MergePolys: feature and collection members. A collection always has `"features"`; a feature always has `"geometry"` and a properties dict. The `KeyError` of a missing `"features"` (lines 35, 46, 125), `"geometry"` (lines 43, 48, 128) or `"properties"` (lines 35, 50, 126) member, and the `AttributeError` (lines 35, 50) or `TypeError` (line 126) of `"properties": null`, are not modelled.
- Shapefile.GeojsonToShp and Merge.MergePolys: null crs. A `"crs": null` or a null `crs["properties"]` cannot be represented: a crs is either absent or a record. `geojson_to_shp` fails on it with `TypeError` at line 28, and `merge_polys` copies a null crs into its output at line 120.
- Shapefile.GeojsonToShp: geometry type. The geometry type is a total function parameter, so the `TypeError` of a null first geometry and the `KeyError("type")` of a geometry without `"type"`, both at line 43, are not modelled.
