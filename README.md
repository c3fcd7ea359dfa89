# EndpointGen in Dafny

EndpointGen is a code generator for WebSocket/HTTP back ends. It reads RON
configuration files that describe services, their endpoints (a numeric code,
a name, parameters and return fields), enums and structs. It checks a
`version.toml` for compatibility, groups and sorts what it read, and writes:

- a Rust `model.rs` (enums, the `Endpoint` enum, the schema lookup, error
  structs and the `ErrorCode` enum);
- a `database.rs` and a `model.sql`;
- a `services.json`, a Markdown API reference and an error-code table.

The `endpoint_libs` runtime that ships beside it dispatches requests to
registered handlers. It has two front ends:

- a WebSocket server, with handlers keyed by endpoint code;
- an HTTP server, with handlers keyed by endpoint name.

The runtime also provides the compact request header encoding and hex
decoding.

This project models both halves in Dafny:

- Pure renderers become functions, with lemmas about the text they produce:
  - prefixes and suffixes;
  - tables that can be read back by splitting on `|`;
  - an enum variant sort key that yields the variant's value;
  - section splitting that re-joins to its input.
- Code that loops or keeps state becomes methods with loop invariants, and
  classes with `modifies` frames:
  - the input walk and the grouping of definitions into services;
  - header encoding and body collection;
  - the handler tables, the WebSocket connection registry and the toolbox outbox.

Each method is proved against a specification function. The properties the
source promises are proved about that function:

- services are unique per (name, id), sorted by id, and keep every endpoint;
- endpoints are sorted by code and stable for equal codes;
- registering a handler a second time overwrites the stored one and then fails (the source panics);
- a partial TLS configuration is rejected;
- the version check fails exactly when a constraint is not met.

Libraries are parameters or function-typed fields, left uninterpreted:

- case conversion (`convert_case`), URL encoding, JSON text;
- the default derive attributes;
- the RON/JSON parsers and the `hex` decoder;
- `semver`, and the derived `Ord` of enum and struct elements.

Files are layered as follows (an arrow points from a module to the modules
that import it):

- `wrappers` → `text` → `sorting`;
- `model` → `toolbox` → `handler` → `ws_server` → `http_server`;
- `utils`, `type_registry` and `sql` → `rust_gen` → `definitions` → `docs`
  and `inputs`.

## Model

| member | source | states |
|---|---|---|
| Sorting.SortBy | src/main.rs:175 | the stable sort used for every `sort`/`sort_by`: the result is a permutation of the input |
| Sorting.SortBySorted | src/main.rs:175-186 | under a total preorder the sorted list is ordered |
| Sorting.SortByStable | src/main.rs:178-182 | `sort_by` is stable: the order among mutually equal elements is kept |
| Sorting.MinimumExists | src/rust.rs:183-187 | a non-empty set has a least element under a total preorder |
| Sorting.SortedElements | src/rust.rs:183-187 | iterating a `BTreeSet`: every element once, in ascending order |
| Sorting.SortedListingUnique | src/rust.rs:183-187 | under an antisymmetric order (as the derived `Ord` is) a set has one ascending listing without repetitions, so the order `SortedElements` and `RustGen.DbTypeBlocks` promise is the `BTreeSet`'s |
| Sorting.StrLeTotalPreorder | src/libs/ws/server.rs:213 | string order (code-point lexicographic, as `sorted()` on `String`) is a total preorder |
| Sorting.StrLeAntisymmetric | src/libs/ws/server.rs:213 | two strings ordered both ways are equal |
| Sorting.PathLeTotalPreorder | src/main.rs:104 | the order of paths by components is a total preorder |
| Text.AsciiLower | src/libs/utils.rs:17 | `to_ascii_lowercase`: same length, upper-case ASCII letters lowered, everything else kept |
| Text.RemoveCharRemoves | src/libs/utils.rs:30 | `replace("\"", "")` leaves no double quote and never lengthens |
| Text.TrimStartChar | src/libs/http/server.rs:114 | `trim_start_matches('/')`: a suffix of the input, only the trimmed character removed, and not starting with it |
| Text.SplitCount | src/type_registry.rs:12 | `split` yields one more piece than there are occurrences of the separator |
| Text.JoinSplit | src/type_registry.rs:12 | joining the pieces of `split` with the separator gives back the input |
| Text.NatToStringRoundTrip | src/docs.rs:201 | the decimal text of a number is non-empty digits that read back as that number |
| TypeRegistry.FromRonFile | src/type_registry.rs:7-25 | an unreadable file gives the "REASON" failure; otherwise the sections of its text |
| TypeRegistry.Sections | src/type_registry.rs:12-24 | every section starts with the `ty: DataTable` marker |
| TypeRegistry.Prefixed | src/type_registry.rs:21 | each piece gets the marker in front, in order |
| TypeRegistry.SectionsRoundTrip | src/type_registry.rs:12-24 | re-joining the sections gives back the file, after the dropped blank head or with one extra marker in front |
| TypeRegistry.SectionsCount | src/type_registry.rs:12-24 | one section per marker occurrence, plus one when the head is not blank |
| TypeRegistry.ConcatPrefixed | src/type_registry.rs:21 | concatenating the prefixed pieces is the marker followed by the pieces joined with the marker |
| Utils.Segment | src/libs/utils.rs:21-31 | one parameter's piece: fails, naming the camel-case key, exactly when the key is missing; empty exactly when the member is null; otherwise ", " and the 1-based position |
| Utils.Header | src/libs/utils.rs:15-34 | a serialisation error passes through; a header starts with "0" and the lower-cased endpoint name |
| Utils.EncodeHeader | src/libs/utils.rs:15-34 | the loop computes exactly the header specification |
| Utils.SegmentsSucceedIffKeysPresent | src/libs/utils.rs:20-22 | encoding succeeds iff every parameter's key is present; otherwise the error names the first missing key |
| Utils.HeaderSucceedsIffKeysPresent | src/libs/utils.rs:15-34 | the whole header succeeds iff every parameter's key is present |
| Utils.SegmentsFailureSticks | src/libs/utils.rs:22 | the first missing key ends encoding: later parameters do not change the error |
| Utils.AllNullHeader | src/libs/utils.rs:23-25 | null members contribute nothing |
| Utils.EmittedPositions | src/libs/utils.rs:20-31 | the 1-based positions of the non-null parameters, strictly increasing, all of them |
| Utils.SegmentsNext | src/libs/utils.rs:20-31 | a further parameter whose key is present adds nothing when null and its numbered piece otherwise |
| Utils.SegmentsArePieces | src/libs/utils.rs:20-31 | a successful header is the pieces of exactly the non-null parameters, numbered by position, in order |
| Utils.HexDecodeStripsOnePrefix | src/libs/utils.rs:49-55 | one leading "0x" is stripped (only one); without it the decoder sees the whole input |
| Utils.HexDecode | src/libs/utils.rs:49-55 | the decoder's result, value or error, on the input with one leading "0x" dropped (stated by the two lemmas beside it) |
| Utils.HexDecodeAcceptsBothForms | src/libs/utils.rs:49-55 | for a decoder inverting a hex-digit encoder, both the bare and the "0x"-prefixed encoding decode to the original bytes |
| Sql.ToSql | src/sql.rs:14-52 | the SQL column type: `Optional` is transparent, `Vec` appends `[]`, enums become `enum_<name>`, structs a `table (...)` of their columns |
| Sql.ColumnLines | src/sql.rs:21-28 | one indented, quoted column line per field, in order |
| Sql.ToSqlIgnoresOptional | src/sql.rs:39 | any number of `Optional` wrappers leaves the SQL type unchanged |
| Sql.SqlTypeCollisions | src/sql.rs:16-50 | distinct types that share a column type (Date/Int, BigInt/TimeStampMs, String/addresses/hashes, StructRef/Object) |
| Sql.ParamToSql | src/sql.rs:59-64 | a parameter is `a_<name> <type>`, with the inner type and ` DEFAULT NULL` when optional |
| Sql.ParamsToSql | src/sql.rs:56-65 | one parameter text per parameter, in order |
| Sql.Returns | src/sql.rs:77-80 | a fieldless struct returns `void`, anything else its SQL type |
| Sql.EmptyResultIsVoid | src/sql.rs:38 | a fieldless struct and `Unit` both give `void` |
| Sql.ProcToSql | src/sql.rs:55-83 | the function text starts with `CREATE OR REPLACE FUNCTION api.<name>(<params>)` and ends with the plpgsql body |
| Sql.QuotedNames | src/sql.rs:103 | each variant name single-quoted, in order |
| Sql.EnumTypeLine | src/sql.rs:99-104 | the declaration creates the type named by the enum's column type |
| Sql.GenModelSql | src/sql.rs:86-112 | one declaration line per enum, in input order |
| RustGen.ToRustRef | src/rust.rs:19-50 | the Rust type reference: `Vec<..>`, `Option<..>`, `Vec<name>` for data tables, `Enum<Pascal>` for enums |
| RustGen.SerdeWithOnlyAffectsAddresses | src/rust.rs:45-48 | `serde_with` changes the reference only for addresses and transaction hashes, at any depth |
| RustGen.SerdeWithPath | src/rust.rs:57-74 | a `serde(with)` path exists exactly for decimals, and for addresses and hashes under `serde_with` |
| RustGen.WithAnnotation | src/rust.rs:78-82 | no path gives no annotation; a path gives `#[serde(with = "...")]` |
| RustGen.FieldDecl | src/rust.rs:55-86 | a field starts with `#[serde(default)]` exactly when optional, and ends with `pub <name>: <type>` |
| RustGen.FieldDecls | src/rust.rs:55-87 | one declaration per field, in order |
| RustGen.VariantIdent | src/rust.rs:102-106 | the variant identifier is Pascal-cased exactly when the name ends in a lower-case letter |
| RustGen.VariantDecl | src/rust.rs:93-108 | a variant carries its comment and its `postgres` name, and ends with `<ident> = <value>` |
| RustGen.VariantDecls | src/rust.rs:93-109 | one variant text per variant, in order |
| RustGen.ToRustDecl | src/rust.rs:52-119 | structs declare `pub struct <name>`, enums the derives, the `enum_<name>` postgres name and `pub enum Enum<Pascal>`; other types their reference |
| RustGen.StructTypeDecl | src/rust.rs:54-87 | a struct declaration opens with `pub struct <name> {` and closes with `}` |
| RustGen.EnumTypeDecl | src/rust.rs:88-115 | an enum declaration opens with the derives, the `enum_<name>` postgres name and `pub enum Enum<Pascal> {`, and closes with `}` |
| RustGen.DeclDeclaresRefName | src/rust.rs:52-119 | a declaration declares exactly the name its type reference uses |
| RustGen.GetParameterType | src/rust.rs:122-127 | the request type is a struct named `<Pascal>Req` whose fields are the parameters |
| RustGen.PgArgument | src/rust.rs:130-138 | argument i binds `a_<name>` to `$<i+1>` cast to its SQL type |
| RustGen.PgArgumentsFrom | src/rust.rs:130-138 | one argument per parameter, numbered from its position |
| RustGen.PgStatement | src/rust.rs:139 | the statement is `SELECT * FROM api.<name>(...);` |
| RustGen.PgParamRefs | src/rust.rs:140-144 | one `&self.<name>` reference per parameter, in order |
| RustGen.PgFuncToRustTraitImpl | src/rust.rs:129-167 | the impl opens with the `<Pascal>Req` header, quotes the statement, and closes with the parameter vector |
| RustGen.DbFuncBlockConsistent | src/rust.rs:204-223 | the request struct and the impl name the same type, and there is one argument per field |
| RustGen.DbFuncBlock | src/rust.rs:204-223 | a function's request struct and its impl, as stated by `DbFuncBlockConsistent` |
| RustGen.TypeBlock | src/rust.rs:187-202 | `Unit` writes an empty block; other types write the derive line and their declaration |
| RustGen.ReturnTypeSet | src/rust.rs:183-186 | the set holds exactly the result row types of the functions |
| RustGen.DbTypeBlocks | src/rust.rs:183-203 | the distinct return row types, each once, in ascending `Ord` order (the `BTreeSet`'s iteration order), each with its block |
| RustGen.Collect | src/rust.rs:230-246 | only structs are collected; a struct comes first, and a data table as the struct it stands for |
| RustGen.CollectFields | src/rust.rs:234-236 | exactly the types collected from some field |
| RustGen.CollectDataTable | src/rust.rs:239-241 | a data table collects like the struct of the same name and fields |
| RustGen.CollectIncludesStructFields | src/rust.rs:232-237 | every struct-typed field of a struct is collected |
| RustGen.WordRun | src/rust.rs:271 | the longest run of word characters at the front |
| RustGen.Placeholders | src/rust.rs:271-279 | the `{word}` placeholders of a message, in order, with braces removed |
| RustGen.PlaceholdersAtBrace | src/rust.rs:271-279 | a placeholder in front is found first |
| RustGen.PlaceholdersSkipPlain | src/rust.rs:271-279 | text without `{` contributes no placeholder |
| RustGen.PlaceholdersOfFill | src/rust.rs:271-279 | a template filled with placeholder names yields exactly those names |
| RustGen.ErrorStruct | src/rust.rs:273-282 | `Error<Pascal symbol>` with one `String` field per placeholder, in order |
| RustGen.ErrorStructOfTemplate | src/rust.rs:273-282 | the error struct of a filled template has one `String` field per filled name |
| RustGen.ErrorStructText | src/rust.rs:283-289 | the text ends with the struct's declaration under `serde_with` |
| RustGen.GenErrorStructs | src/rust.rs:273-290 | the texts written are `ErrorTexts` of the codes |
| RustGen.ErrorTextsAt | src/rust.rs:273-290 | one error struct text per error code, in order: the i-th is the struct of the i-th code |
| RustGen.ErrorTexts | src/rust.rs:273-290 | one error struct text per code, in order, as stated by `ErrorTextsAt` |
| RustGen.ErrorVariants | src/rust.rs:296-302 | one variant per code: Pascal symbol, the code, "source message" as comment |
| RustGen.ErrorCodeEnum | src/rust.rs:291-305 | the `ErrorCode` enum has one variant per error code, with its code and Pascal symbol |
| RustGen.EndpointVariant | src/rust.rs:391 | an endpoint becomes a variant with its name and code and no comment |
| RustGen.CheckEndpointCodes | src/rust.rs:387-398 | one variant per endpoint of every service, in service then endpoint order |
| RustGen.EndpointEnumText | src/rust.rs:394-395 | the `Endpoint` enum declaration written by `check_endpoint_codes`, one variant line per endpoint (`VariantDecl`) |
| RustGen.DumpCaseAsWritten | src/rust.rs:403-406 | the case as written names `Self::<Pascal name>` |
| RustGen.DumpCaseAsWrittenMismatch | src/rust.rs:403-406 | for endpoint `test1` the variant is `test1` but the case is `Self::Test1` |
| RustGen.DumpCase | src/rust.rs:403-406 | the corrected case names the variant identifier, and maps to `<Pascal>Request::SCHEMA` |
| RustGen.DumpCaseMatchesVariant | src/rust.rs:391-406 | the corrected case names exactly the identifier the `Endpoint` enum declares |
| RustGen.DumpCases | src/rust.rs:400-408 | the cases as written, one per endpoint, in order |
| RustGen.DumpCasesAt | src/rust.rs:400-408 | case k is the as-written case of endpoint k, naming `Self::<Pascal name>` |
| RustGen.CorrectedDumpCases | src/rust.rs:400-408 | the corrected cases, one per endpoint, in order |
| RustGen.CorrectedDumpCasesMatchVariants | src/rust.rs:391-408 | corrected case k names exactly the identifier the `Endpoint` enum declares for endpoint k |
| RustGen.CorrectedEndpointSchema | src/rust.rs:399-424 | the corrected `schema` lookup, built from the corrected cases |
| RustGen.PushCases | src/rust.rs:402-407 | pushing a service's cases extends the cases of the endpoints before it |
| RustGen.DumpEndpointSchema | src/rust.rs:399-424 | as written: the loop builds the match over the as-written cases of every endpoint, in service then endpoint order |
| Definitions.ElementOf | src/definitions.rs:345-351 | an endpoint element is front-end facing unless the file says otherwise |
| Definitions.ValidateEnum | src/definitions.rs:63-70 | passes exactly for an enum type; otherwise "Expected enum type" |
| Definitions.ValidateStruct | src/definitions.rs:214-221 | passes exactly for a struct type; otherwise "Expected struct type" |
| Definitions.ValidateEnumsIff | src/definitions.rs:27-32 | a list passes iff every element is an enum; otherwise the first offender's error |
| Definitions.ValidateStructsIff | src/definitions.rs:34-39 | a list passes iff every element is a struct; otherwise the first offender's error |
| Definitions.ValidateEnums | src/definitions.rs:27-32 | a failing enum list fails with the enum element error |
| Definitions.ValidateStructs | src/definitions.rs:34-39 | a failing struct list fails with the struct element error |
| Definitions.ValidateEnumsPass | src/definitions.rs:27-32 | an enum list passes iff every element is an enum |
| Definitions.ValidateEnumsFirst | src/definitions.rs:27-32 | a failing enum list fails with the error of its first non-enum |
| Definitions.ValidateStructsPass | src/definitions.rs:34-39 | a struct list passes iff every element is a struct |
| Definitions.ValidateStructsFirst | src/definitions.rs:34-39 | a failing struct list fails with the error of its first non-struct |
| Definitions.ValidateSelfIff | src/definitions.rs:23-44 | `validate_self` passes iff the definition is well formed; failures are the two element errors |
| Definitions.ValidateSelf | src/definitions.rs:23-44 | schema definitions always pass; enum definitions can fail only with the enum error, struct definitions only with the struct error |
| Definitions.EnumRustRef | src/definitions.rs:73-89 | the Pascal name, with `Enum` in front exactly when `prefix_enum` is set |
| Definitions.EnumRustRefPrefixed | src/definitions.rs:82-86 | with `prefix_enum` the element's reference agrees with the type's |
| Definitions.VariantText | src/definitions.rs:105-118 | a variant carries its description and ends with `<ident> = <value>` |
| Definitions.VariantTextMatchesTypeDecl | src/definitions.rs:105-118 | element variants and type variants end the same way |
| Definitions.VariantTexts | src/definitions.rs:103-119 | one variant text per variant, in order |
| Definitions.DigitRun | src/definitions.rs:96 | the leading run of ASCII digits |
| Definitions.FirstCapture | src/definitions.rs:95-96 | the first capture of `=\s*(\d+)` is non-empty digits |
| Definitions.SortKey | src/definitions.rs:120-158 | the sort key fits in `u64` (0 when there is no capture or it overflows) |
| Definitions.KeyLeTotalPreorder | src/definitions.rs:158 | comparing keys is a total preorder |
| Definitions.SortedVariantsOrder | src/definitions.rs:120-159 | the sorted variant texts are a permutation of the texts, in key order |
| Definitions.SortedVariants | src/definitions.rs:120-159 | the variant texts sorted by key, as stated by `SortedVariantsOrder` and `SortedVariantsStable` |
| Definitions.SortedVariantsStable | src/definitions.rs:120-159 | variants with the same key keep their order |
| Definitions.FirstCaptureSkips | src/definitions.rs:96 | text without `=` before the capture does not change it |
| Definitions.CaptureOfNat | src/definitions.rs:95-109 | `= <n>` captures the digits of n |
| Definitions.CaptureOfNegative | src/definitions.rs:95-109 | `= -<n>` has no capture |
| Definitions.SortKeyOfValue | src/definitions.rs:105-158 | the key read from `= <value>` is the value when it fits in `u64`, and 0 for a negative value |
| Definitions.SortKeyOfVariant | src/definitions.rs:105-158 | a variant's key is its value when it fits in `u64`, and 0 when it is negative |
| Definitions.VariantTextSplit | src/definitions.rs:105-118 | the variant text splits at its only `=` sign |
| Definitions.EnumAddDerives | src/definitions.rs:172-201 | worktable support wraps the input in the worktable derives; otherwise the default enum derives |
| Definitions.StructAddDerives | src/definitions.rs:278-310 | worktable support wraps the input in the worktable derives; otherwise the default struct derives |
| Definitions.EnumBody | src/definitions.rs:160-164 | `pub enum <ref> {` followed by the sorted variants |
| Definitions.EnumDecl | src/definitions.rs:91-170 | the enum body with its derives |
| Definitions.StructRustRef | src/definitions.rs:224-232 | the struct's own name, not Pascal-cased |
| Definitions.StructBody | src/definitions.rs:238-273 | `pub struct <Pascal name> {` followed by the field declarations |
| Definitions.StructDecl | src/definitions.rs:234-276 | the struct body with its derives |
| Definitions.StructDeclAgreesWithType | src/definitions.rs:224-273 | the element's declaration and reference agree with the type's when the name is already Pascal-cased |
| Definitions.IntoSchema | src/definitions.rs:353-366 | the conversion keeps the schema unchanged |
| Definitions.SchemasOf | src/definitions.rs:368-372 | the schemas of the elements, in order |
| Docs.FrontendEndpoints | src/docs.rs:39-43 | at most as many endpoints as elements |
| Docs.FrontendEndpointsMembership | src/docs.rs:39-43 | exactly the schemas of front-end-facing elements |
| Docs.FrontendEndpointsAppend | src/docs.rs:39-43 | the filter distributes over concatenation (it keeps order) |
| Docs.ServicesJson | src/docs.rs:34-48 | no service without front-end endpoints is written |
| Docs.ServicesJsonMembership | src/docs.rs:34-48 | exactly the filtered services that keep an endpoint |
| Docs.ServicesJsonAppend | src/docs.rs:34-48 | the service filter keeps order |
| Docs.ServicesDocOf | src/docs.rs:50-71 | `services.json` holds the services as `ServicesJson` writes them, then the inner type of every enum and of every struct, one each, in order |
| Docs.WrapCodeMd | src/docs.rs:76-78 | the value between two backticks |
| Docs.StructMemberDocs | src/docs.rs:82-95 | struct members as `<name>: <type>` |
| Docs.TableMemberDocs | src/docs.rs:122-139 | data table members as `<camel name>: <type>` |
| Docs.VariantNames | src/docs.rs:103-109 | the variant names, in order |
| Docs.FormatTypeShape | src/docs.rs:80-146 | every type but an enum is rendered as `<camel field>: ...`; enums list their variants; structs and tables their members |
| Docs.FormatType | src/docs.rs:80-146 | the rendering of one field's type, as stated by `FormatTypeShape` |
| Docs.FormatTypeAgreesWithRustRef | src/docs.rs:96-144 | the rendered type is the Rust reference except for tables and unprefixed enum references, whose names differ |
| Docs.FormatTypeEnumIgnoresName | src/docs.rs:103-109 | an enum's rendering does not depend on the field name |
| Docs.FieldDocs | src/docs.rs:203-212 | one backticked rendering per field, in order |
| Docs.RowTextEnds | src/docs.rs:200 | a table row opens with its first cell and closes with its last |
| Docs.RowTextReadsBack | src/docs.rs:200 | splitting a row on the bar character gives back its cells when no cell contains a bar |
| Docs.EndpointCells | src/docs.rs:200-214 | an endpoint row has six cells |
| Docs.EndpointRowEnds | src/docs.rs:198-215 | the row starts with the code and ends with the front-end flag |
| Docs.EndpointRowReadsBack | src/docs.rs:198-215 | the row reads back into its cells, and the first cell reads back as the code |
| Docs.GeneratedCellsHaveNoBar | src/docs.rs:200-214 | the code and flag cells never contain a bar |
| Docs.EndpointsDocumentableParts | src/docs.rs:197-216 | a list of endpoints is documentable iff both halves are |
| Docs.ServicesDocumentableParts | src/docs.rs:186-217 | a list of services is documentable iff both halves are |
| Docs.ServiceSectionStart | src/docs.rs:187-196 | a service section opens with its name, its id and the endpoint table head |
| Docs.ServicesMdAppend | src/docs.rs:186-217 | the service sections of a concatenation are the concatenated sections |
| Docs.EndpointRowsAppend | src/docs.rs:197-216 | the rows of a concatenation are the concatenated rows |
| Docs.GenServiceSection | src/docs.rs:186-217 | the loop writes the section specification of one service |
| Docs.GenServicesMd | src/docs.rs:186-217 | the loop writes the sections of every service, in order |
| Docs.StructLine | src/docs.rs:173-176 | `struct ` followed by the rendering of the struct under its Rust name |
| Docs.EnumLine | src/docs.rs:180-183 | `enum ` followed by the enum's `format_type` rendering (its Pascal name and variant list) and a line break |
| Docs.StructLines | src/docs.rs:171-177 | one line per struct, in order |
| Docs.EnumLines | src/docs.rs:178-184 | one line per enum, in order |
| Docs.ApiReferenceLayout | src/docs.rs:151-185 | the reference lists the struct lines, then the enum lines |
| Docs.GenMdDocs | src/docs.rs:148-219 | the document is the reference followed by the service sections |
| Docs.GetErrorMessages | src/docs.rs:237-273 | a read error passes through; an empty file gives the single placeholder code; otherwise the parse |
| Docs.ErrorCells | src/docs.rs:289-290 | an error row has four cells |
| Docs.ErrorRowEnds | src/docs.rs:289-290 | the row starts with the code and ends with the source |
| Docs.ErrorRowReadsBack | src/docs.rs:289-290 | the row reads back into code, symbol, message and source |
| Docs.GenErrorMessageMd | src/docs.rs:275-294 | errors pass through; otherwise the table head and one row per code |
| Docs.EmptyErrorFileMd | src/docs.rs:259-268 | an empty error file documents the one placeholder row |
| Inputs.FileName | src/main.rs:116 | `file_name`: the last component, absent for an empty path or `..` |
| Inputs.LastDotIsLast | src/main.rs:82 | the position of the last dot, and none exactly when there is no dot |
| Inputs.LastDot | src/main.rs:82 | a found dot lies inside the name (its position is stated by `LastDotIsLast`) |
| Inputs.ExtensionAfterLastDot | src/main.rs:82 | the text after the last dot that is not the first character; none for `..` or names without such a dot |
| Inputs.Extension | src/main.rs:82 | `Path::extension` of a file name, as stated by `ExtensionAfterLastDot` |
| Inputs.RonNames | src/main.rs:83 | every `<stem>.ron` with a non-empty stem is a RON file |
| Inputs.VersionTomlIsNotRon | src/main.rs:82-83 | `version.toml` has extension `toml` |
| Inputs.ProcessFile | src/main.rs:81-91 | non-RON files are skipped; RON files give their definition or their error |
| Inputs.VersionTomlNeverFails | src/main.rs:116-117 | a file named `version.toml` is never an error, so the branch that silences it cannot be taken |
| Inputs.LoadedMembership | src/main.rs:108-115 | a definition is collected iff some RON file loads to it |
| Inputs.ReportsMembership | src/main.rs:116-120 | an error is reported iff some RON file other than `version.toml` fails with it |
| Inputs.ReportOfMembership | src/main.rs:116-120 | one file reports exactly the failure of a RON file not named `version.toml` |
| Inputs.ReportsSound | src/main.rs:116-120 | every reported failure is the failure of some visited file |
| Inputs.ReportsComplete | src/main.rs:116-120 | the failure of every visited RON file other than `version.toml` is reported |
| Inputs.VisitOrder | src/main.rs:104 | files are visited in path order, each once |
| Inputs.ProcessInputFiles | src/main.rs:93-130 | the loop collects exactly the loaded definitions and reports, in path order, and fails with "No valid RON config files found..." when nothing loads |
| Inputs.SchemasForUnknown | src/main.rs:150-160 | a key no definition names has no endpoints |
| Inputs.SizeSumUpdate | src/main.rs:150-160 | replacing one key's list changes the total by the difference in length |
| Inputs.EndpointCountSort | src/main.rs:175 | sorting services keeps the number of endpoints |
| Inputs.WithSortedEndpoints | src/main.rs:178-182 | each service's endpoints are sorted by code; nothing else changes |
| Inputs.WithSortedEndpointsCount | src/main.rs:178-182 | sorting the endpoints loses no endpoint |
| Inputs.MergeStep | src/main.rs:148-165 | merging one more definition keeps the map equal to the grouping of all definitions so far |
| Inputs.GroupDefinitions | src/main.rs:141-166 | the map holds, for every named (service, id), its endpoints in definition order; enums and structs are collected in order |
| Inputs.EmitServices | src/main.rs:168-172 | one service per map key, none twice, with every endpoint |
| Inputs.EmitStep | src/main.rs:168-172 | emitting one more key keeps one service per emitted key, with that key's endpoints, and no endpoint lost |
| Inputs.EmitStart | src/main.rs:168-172 | before the loop every key remains and nothing is emitted |
| Inputs.EmitDone | src/main.rs:168-172 | with no key remaining, there is one service per key and every endpoint is counted |
| Inputs.OnePerKeyPermuted | src/main.rs:175 | reordering services keeps one per key |
| Inputs.SortedEndpointsServices | src/main.rs:168-182 | the emitted services, with sorted endpoints, are exactly those of the definitions |
| Inputs.BuildObjectLists | src/main.rs:138-193 | services unique per (name, id), sorted by id, endpoints sorted by code, no endpoint lost; enums and structs sorted |
| Inputs.DistinctKeysSurviveSort | src/main.rs:175 | sorting cannot make two services share a key |
| Inputs.SameCodeKeepsDefinitionOrder | src/main.rs:178-182 | endpoints with the same code keep the order the definitions listed them in |
| Inputs.EnumsOfMembership | src/main.rs:161-162 | an enum is collected iff some definition holds it |
| Inputs.StructsOfMembership | src/main.rs:163-164 | a struct is collected iff some definition holds it |
| Inputs.ElementListsSorted | src/main.rs:185-186 | enums and structs come out ordered and permuted, for any total preorder |
| Inputs.BuildFromFiles | src/main.rs:138-193 | the reports of the sorted walk; no loaded definition gives exactly the "no valid files" error, any gives success; on success the services are one per key with all its endpoints, sorted by id and each by code, and the enums and structs are sorted |
| Inputs.CheckCompatibility | src/main.rs:224-245 | compatible iff both constraints parse and are met; the unwraps panic exactly when one does not parse |
| Inputs.BinaryCheckFirst | src/main.rs:236-238 | an unmet binary constraint is reported first, with its own message |
| Toolbox.Toolbox.Send | src/libs/handler.rs:50-57 | sending appends one message for the connection to the outbox |
| Toolbox.Toolbox.SendRequestError | src/libs/handler.rs:50-57 | a request error is sent to the request's connection |
| Handler.BadRequestText | src/libs/handler.rs:49-55 | "path: error" |
| Handler.Dispatch | src/libs/handler.rs:35-96 | at most one message, to the request's connection; a decode failure answers 100400 with the error path; otherwise a message iff the response encodes |
| Handler.Delivered | src/libs/handler.rs:89-94 | the awaited response is sent iff it encodes |
| Handler.HandleErased | src/libs/handler.rs:35-96 | a decode failure sends the bad request at once; otherwise the handler is called and nothing is sent yet |
| Handler.Await | src/libs/handler.rs:89-94 | awaiting sends exactly what was deferred |
| Handler.HandleAndAwait | src/libs/handler.rs:35-96 | handling and awaiting together send exactly the dispatch messages |
| WsServer.CheckName | src/libs/ws/server.rs:229-235 | passes iff the actual name contains the expected one; otherwise the message names both |
| WsServer.CheckHandler | src/libs/ws/server.rs:237-246 | passes iff the handler names `Method<name>` and the request `<name>Request`; the method check comes first |
| WsServer.ListenerFor | src/libs/ws/server.rs:143-158 | TLS exactly when both certificate and key are set, plain when neither, an error otherwise |
| WsServer.WsConnection.constructor | src/libs/ws/server.rs:84-90 | a connection starts with its id, address and log id, user 0 and role 0 |
| WsServer.WsConnection.Context | src/libs/ws/server.rs:104 | the request context carries the connection's id, user, role, log id and address |
| WsServer.WebsocketStates.Insert | src/libs/ws/server.rs:99 | registers the connection under its id |
| WsServer.WebsocketStates.Remove | src/libs/ws/server.rs:133 | removes exactly that id |
| WsServer.WebsocketServer.constructor | src/libs/ws/server.rs:33-41 | no handlers, an empty outbox, the default auth controller |
| WsServer.WebsocketServer.SetAuthController | src/libs/ws/server.rs:42-44 | replaces the controller, nothing else |
| WsServer.WebsocketServer.AddHandlerErased | src/libs/ws/server.rs:50-64 | the handler is stored under its code; re-registering a code is reported with the old endpoint |
| WsServer.WebsocketServer.AddHandler | src/libs/ws/server.rs:45-49 | a bad schema or handler is rejected before anything changes; otherwise as the erased registration |
| WsServer.WebsocketServer.HandleWsHandshakeAndConnection | src/libs/ws/server.rs:65-118 | a failed handshake changes nothing; a rejected auth sends 100400 and leaves the entry; an accepted one runs the session unless header-only |
| WsServer.WebsocketServer.HandleSessionConnection | src/libs/ws/server.rs:120-135 | after the session the connection's entry is removed |
| WsServer.WebsocketServer.DumpSchemas | src/libs/ws/server.rs:206-222 | every handler's name once, sorted |
| WsServer.WebsocketServer.NamesOf | src/libs/ws/server.rs:210-212 | the schema names of the given codes, in order |
| HttpServer.CollectBodyOutcome | src/libs/http/server.rs:133-138 | the body is collected iff every chunk arrives; otherwise the first chunk error |
| HttpServer.CollectBody | src/libs/http/server.rs:133-138 | the chunks concatenated, or the first chunk error, as stated by `CollectBodyOutcome` |
| HttpServer.CollectBodyFailureSticks | src/libs/http/server.rs:136 | a chunk error ends collection |
| HttpServer.ReadBody | src/libs/http/server.rs:133-138 | the loop computes exactly the collected body |
| HttpServer.ReplyFor | src/libs/http/server.rs:155-168 | no message stalls; `Immediate` gives 200 with the params, `Error` 400, anything else the `todo!` panic |
| HttpServer.ListenerAsWrittenRejectsTls | src/libs/http/server.rs:177-192 | as written, both certificate and key set is refused, although the WebSocket server accepts it |
| HttpServer.ListenerAsWritten | src/libs/http/server.rs:177-192 | as written, only a configuration with neither certificate nor key gives a (plain) listener |
| HttpServer.ListenerAsWrittenPanicsWithoutKey | src/libs/http/server.rs:180-186 | as written, a certificate without a key panics on the key's `unwrap` |
| HttpServer.Listener | src/libs/http/server.rs:177-192 | corrected: TLS exactly when both are set, plain when neither, the error otherwise |
| HttpServer.ListenerMatchesWebSocket | src/libs/ws/server.rs:143-158 | the corrected HTTP listener chooses exactly as the WebSocket server's |
| HttpServer.ContextFor | src/libs/http/server.rs:124-132 | the context carries the connection's fields, the sequence number and the endpoint code |
| HttpServer.EndpointOutcome | src/libs/http/server.rs:124-168 | a body error fails, bad JSON answers 400 with the parse error, otherwise the reply to the dispatch |
| HttpServer.ServeEndpoint | src/libs/http/server.rs:133-168 | the method computes exactly the endpoint outcome |
| HttpServer.HttpServer.constructor | src/libs/http/server.rs:35-41 | no handlers and an empty outbox |
| HttpServer.HttpServer.AddHandlerErased | src/libs/http/server.rs:47-61 | the handler is stored under its name; re-registering a name is reported |
| HttpServer.HttpServer.AddHandler | src/libs/http/server.rs:43-46 | a bad handler is rejected before anything changes; otherwise as the erased registration |
| HttpServer.HttpServer.Handled | src/libs/http/server.rs:108-169 | 404 naming the path exactly when no handler has the trimmed path; statuses are 200, 400 or 404 |
| HttpServer.HttpServer.HandleRequest | src/libs/http/server.rs:108-169 | the method computes exactly the handled outcome |
| HttpServer.HttpConnection.constructor | src/libs/http/server.rs:67-74 | user 0, role 0, sequence 0 |
| HttpServer.HttpConnection.Serve | src/libs/http/server.rs:74-89 | the sequence number advances modulo 2^32 (the release-build wrap) and no error escapes: it becomes a 500 |
| HttpServer.WithInternalError | src/libs/http/server.rs:83-88 | an error becomes 500 "Internal Server Error: log_id=<id>"; anything else is unchanged |

## Left out

- All file and network I/O are parameters, not modelled. This covers the directory walk, reading and parsing RON, JSON and TOML, and writing the output files.
- `rustfmt`, `read_version_file` and the order of generation steps in `main` are not modelled.
- These parts of `src/rust.rs` are not modelled: the fixed header text of `database.rs` and `model.rs`, and the trait impls of `gen_model_rs` (lines 306-366).
- `gen_systemd_services` and the systemd template it uses are not modelled.
- The WebSocket and HTTP `listen` loops, the accept loops, TLS and hyper are not modelled. Concurrency, futures and the session implementation are left out.
  - What the model does keep: the choice of listener, one request at a time, and the handshake and session bookkeeping.
- The toolbox, the auth controller and the WebSocket session are parameters or small classes. Their source (`toolbox.rs` and the `ws` and `auth` modules) is not part of this model.
  - The toolbox is modelled as an outbox of sent messages.
  - The HTTP server's rebinding of `send_msg` to a channel is modelled as reading the first message.
- The HTTP server with no message is modelled as Stalled: it awaits a channel forever.
- `convert_case`, `urlencoding`, `serde_json`'s text, `serde_path_to_error`, `hex`, `semver` and the derived `Ord` are parameters, and so are the default derive helpers.
  - The model proves what holds for any such function. It does not prove anything about their particular output.
- Regex classes are narrowed to ASCII: `\d`, `\w` and `is_lowercase` are not modelled beyond ASCII.
- `HashMap` iteration order is unspecified, so `EmitServices` and `DumpSchemas` pick keys in any order.
- Inputs.EmitServices: states only that services are one per key. The order before sorting by id is not stated, because the source takes it from a `HashMap`.
- Inputs.ProcessInputFiles: reports are modelled as (path, error) values, not as the `Debug` text written to stderr.
- Integer widths are not modelled. Ids are `u16`, codes `u32` and the file counter a `u32`.
  - The counter cannot wrap before four billion files, so it is modelled as an unbounded "anything loaded" test.
- HttpServer.HttpConnection.Serve: models the release-build wrap of the `u32` sequence number (`seq += 1` at src/libs/http/server.rs:77) with an explicit modulus 2^32; with overflow checks on, as in a debug build, the increment panics instead, and no 500 is produced.
- RustGen.VariantDecl, Definitions.VariantText: both require a non-empty variant name. The source panics on the `unwrap` of the last character when the name is empty.
- The repository renders against two versions of the `Type` schema, and one union type is modelled.
  - `src/docs.rs` uses `EnumRef { name, prefixed_name }` and `StructTable`, which the Rust and SQL renderers do not have.
  - Each renderer requires the variants it handles.
  - `DataTable` in `to_sql` is `todo!()` and is excluded by a precondition.
- Connection ids and log ids come from clocks and counters. They are parameters.
- TypeRegistry.FromRonFile: the `expect` on a failed read is modelled as a Failure carrying "REASON: ", not as a process abort.
- Inputs.CheckCompatibility: requires that the crate's own version and ">=1.0.3" parse. These are constants whose `unwrap` cannot fail.
- Definitions.EnumRustRef, Definitions.EnumBody, Definitions.EnumDecl, Definitions.StructRustRef, Definitions.StructBody, Definitions.StructDecl: require that the element has the right kind. Nothing on the load path calls `validate_self`, so an enum element whose type is not an enum does reach the `expect("EnumElement is invalid…")` panic (src/definitions.rs:73-79, 91-93, 224-240); the precondition excludes that reachable panic instead of modelling it.

## Findings

| source | as written | input that shows it | evidently intended | confidence | as-written member | corrected member |
|---|---|---|---|---|---|---|
| src/libs/http/server.rs:180-191 | the TLS branch is taken when `pub_certs.is_some() && priv_key.is_none()`, and then unwraps the missing key; both set is refused | `pub_certs = Some(certs), priv_key = Some(key)` is refused; `pub_certs = Some(certs), priv_key = None` panics | TLS when both are set and an error for a partial configuration, as in src/libs/ws/server.rs:146 | not executed | HttpServer.ListenerAsWritten | HttpServer.Listener |
| src/rust.rs:403-406 | the schema lookup names `Self::<Pascal(name)>` while the `Endpoint` enum (src/rust.rs:102-106) Pascal-cases only names ending in a lower-case letter | endpoint `test1` with code 120: the enum declares `test1 = 120`, the lookup names `Self::Test1` | the lookup names the same identifier as the enum variant | not executed | RustGen.DumpCaseAsWritten | RustGen.DumpCase |

The WebSocket server's `listen` (src/libs/ws/server.rs:143-158) serves TLS
when both certificate and key are set and returns an error (`bail!`, line
157) for a partial configuration. The HTTP `listen` as written refuses the
full configuration and panics on a certificate without a key.
`HttpServer.ListenerAsWritten` models the code as written;
`HttpServer.Listener` is the corrected choice, and
`HttpServer.ListenerMatchesWebSocket` proves it chooses as
`WsServer.ListenerFor` does. The request-handling part of the HTTP model
does not depend on the listener.

The schema lookup `RustGen.DumpEndpointSchema` is modelled as written, from
`RustGen.DumpCaseAsWritten`. The corrected lookup
`RustGen.CorrectedEndpointSchema` is built from `RustGen.DumpCase`, and
`RustGen.CorrectedDumpCasesMatchVariants` proves that each of its cases names
the variant the `Endpoint` enum declares for the same endpoint.

Other observations that are not defects:

- The element-level struct reference is the raw name (src/definitions.rs:229), while its declaration is Pascal-cased (src/definitions.rs:239). `Definitions.StructDeclAgreesWithType` states that the two agree only when the name is already Pascal-cased.
- The `version.toml` branch of src/main.rs:117 cannot be taken, because that file never reaches the parser (`Inputs.VersionTomlNeverFails`).
- A rejected WebSocket auth leaves the connection's entry registered (src/libs/ws/server.rs:99-112).
