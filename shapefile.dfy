/** `geojson_to_shp`: infer a shapefile schema from the first feature and
    project every feature onto it. The model produces what is handed to
    `fiona.open` (the header) and the sequence of records handed to
    `fh.write`, instead of the file itself. */
module Shapefile {
  import opened Common
  import opened OrderedDict
  import opened GeoJson

  /** Field name to the field type name "str", "int" or "float", in order. */
  type Schema = Dict<string>

  /** The arguments of `fiona.open`: geometry type, property schema, EPSG code. */
  datatype ShpHeader = ShpHeader(geometryType: string, schema: Schema, crsCode: Value)

  /** The dict handed to `fh.write`. */
  datatype Record<G> = Record(rtype: string, id: Value, geometry: G, properties: Props)

  /** The type names a schema field may have. */
  const FIELD_TYPES: seq<string> := ["str", "int", "float"]

  /** The schema of a properties dict: every key whose value's type name is
      one of FIELD_TYPES, mapped to that name, in the dict's order. */
  function SchemaOf(props: Props): (schema: Schema) {
    if props == [] then []
    else
      var last := props[|props| - 1];
      SchemaOf(props[..|props| - 1])
        + (if TypeName(last.1) in FIELD_TYPES then [(last.0, TypeName(last.1))] else [])
  }

  /** The entries of props whose key the schema has, in props' order. */
  function Restrict(props: Props, schema: Schema): (out: Props) {
    if props == [] then []
    else
      var last := props[|props| - 1];
      Restrict(props[..|props| - 1], schema) + (if HasKey(schema, last.0) then [last] else [])
  }

  /** The skeleton record written for feature f. */
  function RecordOf<G>(f: Feature<G>, schema: Schema): (rec: Record<G>)
    requires f.id.Some?
  {
    Record("Feature", f.id.value, f.geometry, Restrict(f.properties, schema))
  }

  /** The schema holds (k, t) exactly when props maps k to a value whose type
      name t is str, int or float; a bool or None value gives no field. */
  lemma {:induction false} SchemaOfEntries(props: Props, k: string, t: string)
    ensures (k, t) in SchemaOf(props) <==>
            t in FIELD_TYPES && exists v :: (k, v) in props && TypeName(v) == t
  {
    if props != [] {
      var init := props[..|props| - 1];
      assert props == init + [props[|props| - 1]];
      SchemaOfEntries(init, k, t);
    }
  }

  /** The schema's keys come from props, in props' order and without repeats. */
  lemma {:induction false} SchemaOfOrder(props: Props)
    requires DistinctKeys(props)
    ensures IsSubsequence(Keys(SchemaOf(props)), Keys(props))
    ensures DistinctKeys(SchemaOf(props))
  {
    if props == [] {
      SubsequenceEmpty(Keys(props));
    } else {
      var init, last := props[..|props| - 1], props[|props| - 1];
      SchemaOfOrder(init);
      assert Keys(props) == Keys(init) + [last.0];
      SubsequenceExtend(Keys(SchemaOf(init)), Keys(init), last.0);
      if TypeName(last.1) in FIELD_TYPES {
        assert Keys(SchemaOf(props)) == Keys(SchemaOf(init)) + [last.0];
        forall e | e in SchemaOf(init) ensures e.0 != last.0 {
          SchemaOfEntries(init, e.0, e.1);
        }
      } else {
        assert SchemaOf(props) == SchemaOf(init);
      }
    }
  }

  /** Every key of the schema is a key of props. */
  lemma SchemaOfKeys(props: Props, k: string)
    ensures HasKey(SchemaOf(props), k) ==> HasKey(props, k)
  {
    HasKeyIff(SchemaOf(props), k);
    HasKeyIff(props, k);
    if HasKey(SchemaOf(props), k) {
      var j :| 0 <= j < |SchemaOf(props)| && SchemaOf(props)[j].0 == k;
      SchemaOfEntries(props, k, SchemaOf(props)[j].1);
    }
  }

  /** The projected properties are exactly the entries of props whose key is
      in the schema, in props' order. */
  lemma {:induction false} RestrictEntries(props: Props, schema: Schema, e: (string, Value))
    ensures e in Restrict(props, schema) <==> e in props && HasKey(schema, e.0)
  {
    if props != [] {
      var init := props[..|props| - 1];
      assert props == init + [props[|props| - 1]];
      RestrictEntries(init, schema, e);
    }
  }

  /** Every key of the projection is a key of props. */
  lemma RestrictKeys(props: Props, schema: Schema, k: string)
    ensures HasKey(Restrict(props, schema), k) ==> HasKey(props, k)
  {
    HasKeyIff(Restrict(props, schema), k);
    HasKeyIff(props, k);
    if HasKey(Restrict(props, schema), k) {
      var j :| 0 <= j < |Restrict(props, schema)| && Restrict(props, schema)[j].0 == k;
      RestrictEntries(props, schema, Restrict(props, schema)[j]);
    }
  }

  /** Projection keeps the order of props and never repeats a key. */
  lemma {:induction false} RestrictOrder(props: Props, schema: Schema)
    requires DistinctKeys(props)
    ensures IsSubsequence(Restrict(props, schema), props)
    ensures DistinctKeys(Restrict(props, schema))
  {
    if props == [] {
      SubsequenceEmpty(props);
    } else {
      var init, last := props[..|props| - 1], props[|props| - 1];
      assert props == init + [last];
      RestrictOrder(init, schema);
      SubsequenceExtend(Restrict(init, schema), init, last);
      if HasKey(schema, last.0) {
        assert Restrict(props, schema) == Restrict(init, schema) + [last];
        forall e | e in Restrict(init, schema) ensures e.0 != last.0 {
          RestrictEntries(init, schema, e);
        }
      } else {
        assert Restrict(props, schema) == Restrict(init, schema);
      }
    }
  }

  /** The record written for f: type "Feature", f's id and geometry unchanged,
      and f's properties restricted to the schema's keys, in f's order. */
  lemma RecordOfFeature<G>(f: Feature<G>, schema: Schema)
    requires f.id.Some? && DistinctKeys(f.properties)
    ensures RecordOf(f, schema).rtype == "Feature"
    ensures RecordOf(f, schema).id == f.id.value && RecordOf(f, schema).geometry == f.geometry
    ensures forall e :: e in RecordOf(f, schema).properties <==> e in f.properties && HasKey(schema, e.0)
    ensures IsSubsequence(RecordOf(f, schema).properties, f.properties)
    ensures DistinctKeys(RecordOf(f, schema).properties)
  {
    forall e ensures e in RecordOf(f, schema).properties <==> e in f.properties && HasKey(schema, e.0) {
      RestrictEntries(f.properties, schema, e);
    }
    RestrictOrder(f.properties, schema);
  }

  /** Lines 33-37: fill the schema from the first feature's properties. */
  method InferSchema(props: Props) returns (schema: Schema)
    requires DistinctKeys(props)
    ensures schema == SchemaOf(props)
  {
    schema := [];
    var i := 0;
    while i < |props|
      invariant 0 <= i <= |props|
      invariant schema == SchemaOf(props[..i])
    {
      var (k, v) := props[i];
      var name := TypeName(v);
      if name in FIELD_TYPES {
        SchemaOfKeys(props[..i], k);
        HasKeyIff(props[..i], k);
        schema := Set(schema, k, name);
      }
      assert props[..i + 1][..i] == props[..i];
      i := i + 1;
    }
    assert props[..|props|] == props;
  }

  /** Lines 48-53: the properties of one outgoing record. */
  method ProjectProperties(props: Props, schema: Schema) returns (out: Props)
    requires DistinctKeys(props)
    ensures out == Restrict(props, schema)
  {
    out := [];
    var i := 0;
    while i < |props|
      invariant 0 <= i <= |props|
      invariant out == Restrict(props[..i], schema)
    {
      var (k, v) := props[i];
      if HasKey(schema, k) {
        RestrictKeys(props[..i], schema, k);
        HasKeyIff(props[..i], k);
        out := Set(out, k, v);
      }
      assert props[..i + 1][..i] == props[..i];
      i := i + 1;
    }
    assert props[..|props|] == props;
  }

  /** geojson_to_shp (lines 15-59): the header given to fiona.open, the
      records given to fh.write, and the exception that ended the run. A
      feature without "id" stops the run after the records before it. */
  method GeojsonToShp<G>(gj: FeatureCollection<G>, geometryType: G -> string)
    returns (header: Option<ShpHeader>, written: seq<Record<G>>, err: Option<PyError>)
    requires WellFormed(gj)
    ensures gj.crs.None? ==> header == None && written == [] && err == Some(KeyError("crs"))
    ensures gj.crs.Some? && gj.crs.value.code.None? ==>
              header == None && written == [] && err == Some(KeyError("code"))
    ensures gj.crs.Some? && gj.crs.value.code.Some? && gj.features == [] ==>
              header == None && written == [] && err == Some(IndexError)
    ensures gj.crs.Some? && gj.crs.value.code.Some? && gj.features != [] ==>
              && header == Some(ShpHeader(geometryType(gj.features[0].geometry),
                                          SchemaOf(gj.features[0].properties),
                                          gj.crs.value.code.value))
              && |written| <= |gj.features|
              && (forall j :: 0 <= j < |written| ==>
                    gj.features[j].id.Some? && written[j] == RecordOf(gj.features[j], header.value.schema))
              && (err == None <==> |written| == |gj.features|)
              && (err != None ==> err == Some(KeyError("id")) && gj.features[|written|].id.None?)
  {
    header, written, err := None, [], None;
    if gj.crs.None? {
      err := Some(KeyError("crs"));
      return;
    }
    if gj.crs.value.code.None? {
      err := Some(KeyError("code"));
      return;
    }
    if gj.features == [] {
      err := Some(IndexError);
      return;
    }
    var schema := InferSchema(gj.features[0].properties);
    header := Some(ShpHeader(geometryType(gj.features[0].geometry), schema, gj.crs.value.code.value));
    var i := 0;
    while i < |gj.features|
      invariant 0 <= i <= |gj.features|
      invariant |written| == i
      invariant forall j :: 0 <= j < i ==>
                  gj.features[j].id.Some? && written[j] == RecordOf(gj.features[j], schema)
    {
      var feature := gj.features[i];
      if feature.id.None? {
        err := Some(KeyError("id"));
        return;
      }
      var properties := ProjectProperties(feature.properties, schema);
      written := written + [Record("Feature", feature.id.value, feature.geometry, properties)];
      i := i + 1;
    }
  }
}
