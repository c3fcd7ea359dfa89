/** The schema vocabulary shared by the generator and the runtime
    (`endpoint_libs::model`, whose source is not part of this model) and the
    JSON values of `serde_json`. The repository shows two versions of `Type`:
    `src/rust.rs` and `src/sql.rs` use `EnumRef(name)`, `src/docs.rs` uses
    `EnumRef { name, prefixed_name }` and `StructTable`. `Type` below holds the
    union of the variants; each renderer states by a precondition which
    variants it handles. */
module Model {

  import opened Wrappers

  newtype byte = x: int | 0 <= x < 256

  /** A `serde_json::Value`; a number keeps its text. */
  datatype Json =
    | JNull
    | JBool(b: bool)
    | JNumber(text: string)
    | JString(s: string)
    | JArray(items: seq<Json>)
    | JObject(members: map<string, Json>)

  /** `Value::get(key)`: the member of an object, and nothing for any other value. */
  function Get(v: Json, key: string): Option<Json> {
    if v.JObject? && key in v.members then Some(v.members[key]) else None
  }

  datatype Field = Field(name: string, ty: Type)

  /** An enum variant; `comment` is the text the generator writes as its doc comment
      (`description` in `src/definitions.rs`, `comment` in `src/rust.rs`). */
  datatype EnumVariant = EnumVariant(name: string, value: int, comment: string)

  datatype Type =
    | Date
    | Int
    | BigInt
    | Numeric
    | TimeStampMs
    | Struct(name: string, fields: seq<Field>)
    | StructRef(name: string)
    | Object
    | DataTable(name: string, fields: seq<Field>)
    | Vec(elem: Type)
    | Unit
    | Optional(inner: Type)
    | Boolean
    | String
    | Bytea
    | UUID
    | Inet
    | Enum(name: string, variants: seq<EnumVariant>)
    | EnumRef(name: string, prefixedName: bool)
    | BlockchainDecimal
    | BlockchainAddress
    | BlockchainTransactionHash
    | StructTable(structRef: string)

  datatype EndpointSchema = EndpointSchema(
    name: string,
    code: nat,
    parameters: seq<Field>,
    returnFields: seq<Field>,
    streamResponse: Option<Type>,
    description: string,
    jsonSchema: Json,
    roles: seq<string>)

  /** A service as written to the documentation and consumed by `src/rust.rs`. */
  datatype Service = Service(name: string, id: nat, endpoints: seq<EndpointSchema>)

  /** A stored procedure: its name, parameter list, result row type and SQL body. */
  datatype ProceduralFunction = ProceduralFunction(
    name: string,
    parameters: seq<Field>,
    returnRowType: Type,
    body: string)

  /** An entry of `error_codes.json` (`ErrorMessage` of `src/docs.rs`). */
  datatype ErrorMessage = ErrorMessage(code: int, symbol: string, message: string, source: string)

  datatype ErrorMessages = ErrorMessages(language: string, codes: seq<ErrorMessage>)
}
