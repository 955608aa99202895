/** The GeoJSON-like dictionaries the script passes around, as values. The
    geometry of a feature is left abstract: it is a type parameter G. */
module GeoJson {
  import opened Common
  import opened OrderedDict

  /** A property value as Python holds it after json.loads. Lists and nested
      objects as property values are not part of this model. */
  datatype Value =
    | VStr(s: string)
    | VInt(i: int)
    | VFloat(x: real)
    | VBool(b: bool)
    | VNone

  /** The class name inside `str(type(v))`, as `str(type(v)).split("'")[1]`
      extracts it: "<class 'int'>" gives "int". */
  function TypeName(v: Value): (name: string) {
    match v
    case VStr(_) => "str"
    case VInt(_) => "int"
    case VFloat(_) => "float"
    case VBool(_) => "bool"
    case VNone => "NoneType"
  }

  /** A feature's "properties" dict. */
  type Props = Dict<Value>

  /** The collection's "crs" member; code is `crs["properties"]["code"]` and is
      None when either of those two keys is missing. */
  datatype Crs = Crs(crsType: string, code: Option<Value>)

  /** A feature dict: "type", "id" (None when the key is missing), "geometry"
      and "properties". */
  datatype Feature<G> = Feature(ftype: string, id: Option<Value>, geometry: G, properties: Props)

  /** A FeatureCollection dict: "type", "features", "crs" (None when missing)
      and "bbox". */
  datatype FeatureCollection<G> =
    FeatureCollection(ctype: string, features: seq<Feature<G>>, crs: Option<Crs>, bbox: seq<real>)

  /** What json.loads can produce: no properties dict repeats a key. */
  ghost predicate WellFormed<G>(gj: FeatureCollection<G>) {
    forall i :: 0 <= i < |gj.features| ==> DistinctKeys(gj.features[i].properties)
  }
}
