/** `src/schema.rs`: the `Schema` bound every slot type satisfies (serde
    `Serialize` and `DeserializeOwned`, schemars `JsonSchema`, garde `Validate`
    with context `()`, `Shape`, `Normalize` and `Void`), written as a record
    of what each capability does for one type `T`.

    The capabilities supplied by foreign crates (serde and its axum/serde_qs
    front ends, schemars, shape) are function fields whose behaviour the model
    does not fix; the `Void` capability is the modelled `TypeInfo`, and
    validation is the garde-derived check, rendered as garde's report text. */
module Schema {
  import opened Wrappers
  import opened JsonValues
  import opened Http
  import opened Void

  datatype Contract = ForSerialize | ForDeserialize

  /** `schemars::generate::SchemaSettings`, starting from `openapi3()` and
      switched to one contract, with the three options the registry sets. */
  datatype SchemaSettings = SchemaSettings(
    contract: Contract,
    optionNullable: bool,
    optionAddNullType: bool,
    inlineSubschemas: bool)

  datatype ShapeKind = SerializeShape | DeserializeShape

  /** `shape::ShapeOptions`. */
  datatype ShapeOptions = ShapeOptions(
    kind: ShapeKind,
    optionAddNull: bool,
    optionAddUndefined: bool,
    optionIsOptional: bool)

  /** A `shape::Type`, seen through `to_typescript()`. */
  datatype Shape = Shape(typescript: string)

  /** The foreign, derive-generated capabilities of a type. Errors are the
      `Display` text of the library's error value. */
  datatype Derived<!T> = Derived(
    // axum's `Path<T>` extractor over the route's captured parameters
    fromPathParams: seq<(string, string)> -> Result<T, string>,
    // `serde_qs::from_str`
    fromQueryString: string -> Result<T, string>,
    // `serde_json::from_slice`
    fromJsonBytes: seq<byte> -> Result<T, string>,
    // `serde_json::to_vec`, seen as the JSON document it writes
    toJson: T -> Result<Json, string>,
    // `T::json_schema` under the given settings
    jsonSchema: SchemaSettings -> Json,
    // `T::shape`
    shape: ShapeOptions -> Shape)

  /** Everything the pipeline and the registry use of a slot type. */
  datatype TypeDesc<!T> = TypeDesc(
    info: TypeInfo<T>,
    derived: Derived<T>,
    // garde's `validate()` with context `()`; a failure carries the report text
    validate: T -> Outcome<string>)

  /** The description of `()`: serde and schemars still apply to it, it is void,
      and garde accepts it. */
  function UnitDesc(derived: Derived<()>): (d: TypeDesc<()>)
    ensures WellFormed(d.info) && IsVoid(d.info)
    ensures d.validate(()) == Pass
  {
    TypeDesc(UnitInfo(), derived, _ => Pass)
  }
}
