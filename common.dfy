/** Outcomes shared by the modelled functions: an optional value, the Python
    exceptions the code raises or lets escape, and a result that is either a
    value or one of those exceptions. `geojson_to_shp` and the body of
    `merge_polys` print a caught exception and end the process
    (`print(e); quit()`); the URL builder's errors and the `crs` lookup of
    `merge_polys` propagate to the caller. The model returns both kinds. */
module Common {

  datatype Option<T> = None | Some(value: T)

  /** The Python exceptions the modelled code can end with. */
  datatype PyError =
    | KeyError(key: string)     // a dict lookup `d[key]` of an absent key
    | IndexError                // `features[0]` on an empty list
    | TypeError                 // `x in v` on a non-string v, or str + float
    | ValueError(message: string)

  datatype Result<T> = Ok(value: T) | Err(error: PyError)
}
