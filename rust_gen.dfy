/** The Rust renderer (`src/rust.rs`): type references and declarations, the
    database request structs and their `DatabaseRequest` impls, the recursive
    type collection, the error structs and enums of `model.rs`, and the
    endpoint enum with its schema lookup. Writing files and `rustfmt` are not
    modelled; each generator returns the text it writes. */
module RustGen {

  import opened Text
  import opened Model
  import opened Sql
  import opened Sorting

  /** The types `to_rust_ref` renders: `StructTable` is not a variant of the
      `Type` this renderer knows, and a `Vec` or `Optional` of one is not either. */
  predicate RustRefDefined(t: Type) {
    match t
    case StructTable(_) => false
    case Vec(e) => RustRefDefined(e)
    case Optional(e) => RustRefDefined(e)
    case _ => true
  }

  /** `Type::to_rust_ref`: the Rust type a field or a parameter of type t has. */
  function ToRustRef(t: Type, serdeWith: bool, casing: Casing): (r: string)
    requires RustRefDefined(t)
    ensures t.Vec? ==> r == "Vec<" + ToRustRef(t.elem, serdeWith, casing) + ">"
    ensures t.Optional? ==> r == "Option<" + ToRustRef(t.inner, serdeWith, casing) + ">"
    ensures t.DataTable? ==> r == "Vec<" + t.name + ">"
    ensures t.Enum? || t.EnumRef? ==> r == "Enum" + casing.pascal(t.name)
  {
    match t
    case Date => "u32"
    case Int => "i32"
    case BigInt => "i64"
    case Numeric => "f64"
    case TimeStampMs => "i64"
    case Struct(name, _) => name
    case StructRef(name) => name
    case Object => "serde_json::Value"
    case DataTable(name, _) => "Vec<" + name + ">"
    case Vec(e) => "Vec<" + ToRustRef(e, serdeWith, casing) + ">"
    case Unit => "()"
    case Optional(e) => "Option<" + ToRustRef(e, serdeWith, casing) + ">"
    case Boolean => "bool"
    case String => "String"
    case Bytea => "Vec<u8>"
    case UUID => "uuid::Uuid"
    case Inet => "std::net::IpAddr"
    case Enum(name, _) => "Enum" + casing.pascal(name)
    case EnumRef(name, _) => "Enum" + casing.pascal(name)
    case BlockchainDecimal => "Decimal"
    case BlockchainAddress => if serdeWith then "Address" else "BlockchainAddress"
    case BlockchainTransactionHash => if serdeWith then "H256" else "BlockchainTransactionHash"
  }

  /** The innermost type under any number of `Vec` and `Optional` wrappers. */
  function Core(t: Type): Type {
    match t
    case Vec(e) => Core(e)
    case Optional(e) => Core(e)
    case _ => t
  }

  /** `serde_with` changes a reference only through an address or a hash at its core. */
  lemma {:induction false} SerdeWithOnlyAffectsAddresses(t: Type, casing: Casing)
    requires RustRefDefined(t)
    requires Core(t) != BlockchainAddress && Core(t) != BlockchainTransactionHash
    ensures ToRustRef(t, true, casing) == ToRustRef(t, false, casing)
  {
    match t
    case Vec(e) => SerdeWithOnlyAffectsAddresses(e, casing);
    case Optional(e) => SerdeWithOnlyAffectsAddresses(e, casing);
    case _ =>
  }

  /** The `with` module of a struct field's serde annotation, "" for none. */
  function SerdeWithPath(t: Type, serdeWith: bool): (r: string)
    ensures r != "" <==> t == BlockchainDecimal || (serdeWith && (t == BlockchainAddress || t == BlockchainTransactionHash))
  {
    match t
    case BlockchainDecimal => "rust_decimal::serde::str"
    case BlockchainAddress => if serdeWith then "WithBlockchainAddress" else ""
    case BlockchainTransactionHash => if serdeWith then "WithBlockchainTransactionHash" else ""
    case _ => ""
  }

  function WithAnnotation(path: string): (r: string)
    ensures path == "" ==> r == ""
    ensures path != "" ==> StartsWith(r, "#[serde(with = \"")
  {
    if path == "" then "" else "#[serde(with = \"" + path + "\")]"
  }

  /** One field of a struct declaration; the source writes the same line in
      `src/rust.rs` and in `src/definitions.rs`. */
  function FieldDecl(f: Field, serdeWith: bool, casing: Casing): (r: string)
    requires RustRefDefined(f.ty)
    ensures StartsWith(r, "#[serde(default)]") <==> f.ty.Optional?
    ensures EndsWith(r, " pub " + f.name + ": " + ToRustRef(f.ty, serdeWith, casing))
  {
    var opt := if f.ty.Optional? then "#[serde(default)]" else "";
    var head := opt + " " + WithAnnotation(SerdeWithPath(f.ty, serdeWith));
    var tail := " pub " + f.name + ": " + ToRustRef(f.ty, serdeWith, casing);
    var r := head + tail;
    assert r[|r| - |tail|..] == tail;
    assert f.ty.Optional? ==> r[..|opt|] == opt;
    assert !f.ty.Optional? ==> r[0] == ' ';
    r
  }

  predicate FieldsRustDefined(fields: seq<Field>) {
    forall i | 0 <= i < |fields| :: RustRefDefined(fields[i].ty)
  }

  function FieldDecls(fields: seq<Field>, serdeWith: bool, casing: Casing): (r: seq<string>)
    requires FieldsRustDefined(fields)
    ensures |r| == |fields|
    ensures forall i | 0 <= i < |fields| :: r[i] == FieldDecl(fields[i], serdeWith, casing)
  {
    seq(|fields|, i requires 0 <= i < |fields| => FieldDecl(fields[i], serdeWith, casing))
  }

  /** The identifier of an enum variant: Pascal case only when the name ends
      in a lower-case letter, otherwise the name itself. The source takes the
      last character with `unwrap`, which panics on an empty name; the
      declarations below require a non-empty name. */
  function VariantIdent(name: string, casing: Casing): (r: string)
    ensures |name| > 0 && IsAsciiLower(name[|name| - 1]) ==> r == casing.pascal(name)
    ensures !(|name| > 0 && IsAsciiLower(name[|name| - 1])) ==> r == name
  {
    if |name| > 0 && IsAsciiLower(name[|name| - 1]) then casing.pascal(name) else name
  }

  /** One variant of an enum declaration: the doc comment, the Postgres name
      and the identifier with its value. */
  function VariantDecl(v: EnumVariant, casing: Casing): (r: string)
    requires |v.name| > 0
    ensures StartsWith(r, VariantHead(v) + "\n    ")
    ensures EndsWith(r, VariantLine(VariantIdent(v.name, casing), v.value))
  {
    var head := VariantHead(v);
    var line := VariantLine(VariantIdent(v.name, casing), v.value);
    VariantLineIndented(VariantIdent(v.name, casing), v.value);
    IndentedAfter(head, line);
    SuffixOfConcat(head, line);
    head + line
  }

  /** What an enum variant's declaration writes before its identifier: the doc
      comment and the Postgres name. */
  function VariantHead(v: EnumVariant): string {
    "\n    /// " + v.comment + "\n    #[postgres(name = \"" + v.name + "\")]"
  }

  /** The line of an enum variant: the indented identifier and its value. */
  function VariantLine(ident: string, value: int): string {
    "\n    " + ident + " = " + IntToString(value) + "\n"
  }

  /** Text followed by a variant line starts with that text and the indentation. */
  lemma IndentedAfter(head: string, line: string)
    requires StartsWith(line, "\n    ")
    ensures StartsWith(head + line, head + "\n    ")
  {
    assert (head + line)[..|head| + 5] == head + line[..5];
  }

  lemma VariantLineIndented(ident: string, value: int)
    ensures StartsWith(VariantLine(ident, value), "\n    ")
  {
    assert VariantLine(ident, value)[..5] == "\n    ";
  }

  predicate VariantsNamed(variants: seq<EnumVariant>) {
    forall i | 0 <= i < |variants| :: |variants[i].name| > 0
  }

  function VariantDecls(variants: seq<EnumVariant>, casing: Casing): (r: seq<string>)
    requires VariantsNamed(variants)
    ensures |r| == |variants|
    ensures forall i | 0 <= i < |variants| :: r[i] == VariantDecl(variants[i], casing)
  {
    seq(|variants|, i requires 0 <= i < |variants| => VariantDecl(variants[i], casing))
  }

  const ENUM_DERIVES: string := "#[derive(Debug, Clone, Copy, ToSql, FromSql, Serialize, Deserialize, FromPrimitive, PartialEq, Eq, PartialOrd, Ord, EnumString, Display, Hash)]"

  /** The types `to_rust_decl` renders. */
  predicate RustDeclDefined(t: Type) {
    match t
    case Struct(_, fields) => FieldsRustDefined(fields)
    case Enum(_, variants) => VariantsNamed(variants)
    case _ => RustRefDefined(t)
  }

  /** The declaration of a struct: its fields between the braces. */
  function StructTypeDecl(name: string, fields: seq<Field>, serdeWith: bool, casing: Casing): (r: string)
    requires FieldsRustDefined(fields)
    ensures StartsWith(r, "pub struct " + name + " {") && EndsWith(r, "}")
    ensures EndsWith(r, Join(FieldDecls(fields, serdeWith, casing), ",") + "}")
  {
    var head := "pub struct " + name + " {";
    var body := Join(FieldDecls(fields, serdeWith, casing), ",");
    Bracketed(head, body, "}");
    head + body + "}"
  }

  /** The opening of an enum declaration: the derives, the Postgres type name
      `enum_<name>` and the declared name `Enum<Pascal name>`. */
  function EnumHead(name: string, casing: Casing): string {
    EnumLead(name) + ("Enum" + casing.pascal(name)) + " {"
  }

  /** What an enum declaration writes before the declared name. */
  function EnumLead(name: string): string {
    ENUM_DERIVES + " #[postgres(name = \"enum_" + name + "\")]pub enum "
  }

  /** The declaration of an enum: its variants between the braces. */
  function EnumTypeDecl(name: string, variants: seq<EnumVariant>, casing: Casing): (r: string)
    requires VariantsNamed(variants)
    ensures StartsWith(r, EnumHead(name, casing)) && EndsWith(r, "}")
  {
    var head := EnumHead(name, casing);
    var body := Join(VariantDecls(variants, casing), ",");
    Bracketed(head, body, "}");
    head + body + "}"
  }

  /** `Type::to_rust_decl`: a struct or an enum declaration, and the reference
      for every other type. */
  function ToRustDecl(t: Type, serdeWith: bool, casing: Casing): (r: string)
    requires RustDeclDefined(t)
    ensures !t.Struct? && !t.Enum? ==> r == ToRustRef(t, serdeWith, casing)
    ensures t.Struct? ==> StartsWith(r, "pub struct " + t.name + " {") && EndsWith(r, "}")
    ensures t.Enum? ==> StartsWith(r, EnumHead(t.name, casing)) && EndsWith(r, "}")
  {
    if t.Struct? then StructTypeDecl(t.name, t.fields, serdeWith, casing)
    else if t.Enum? then EnumTypeDecl(t.name, t.variants, casing)
    else ToRustRef(t, serdeWith, casing)
  }

  /** What a declaration writes before the declared name. */
  function DeclLead(t: Type): string
    requires t.Struct? || t.Enum?
  {
    if t.Struct? then "pub struct " else EnumLead(t.name)
  }

  /** A declaration declares exactly the name that references to the type use. */
  lemma DeclDeclaresRefName(t: Type, serdeWith: bool, casing: Casing)
    requires RustDeclDefined(t) && (t.Struct? || t.Enum?)
    ensures RustRefDefined(t)
    ensures StartsWith(ToRustDecl(t, serdeWith, casing), DeclLead(t) + ToRustRef(t, serdeWith, casing) + " {")
  {
    if t.Enum? {
      assert DeclLead(t) + ToRustRef(t, serdeWith, casing) + " {" == EnumHead(t.name, casing);
    }
  }

  /** `get_parameter_type`: the request struct of a stored procedure. */
  function GetParameterType(f: ProceduralFunction, casing: Casing): (r: Type)
    ensures r.Struct? && r.name == casing.pascal(f.name) + "Req" && r.fields == f.parameters
  {
    Struct(casing.pascal(f.name) + "Req", f.parameters)
  }

  /** The argument for parameter i (0-based): the prefixed name bound to the
      placeholder $(i+1) cast to the parameter's SQL type. */
  function PgArgument(i: nat, fld: Field): (r: string)
    requires SqlRenderable(fld.ty)
    ensures StartsWith(r, PARAM_PREFIX + fld.name + " => $" + NatToString(i + 1) + "::")
    ensures EndsWith(r, "::" + ToSql(fld.ty))
  {
    var lead := PARAM_PREFIX + fld.name + " => $" + NatToString(i + 1);
    var t := ToSql(fld.ty);
    PrefixOfConcat(lead + "::", t);
    Bracketed(lead, "::", t);
    lead + "::" + t
  }

  /** The arguments of parameters from, from + 1, ... in order. */
  function PgArgumentsFrom(params: seq<Field>, from: nat): (r: seq<string>)
    requires from <= |params| && FieldsSqlRenderable(params)
    ensures |r| == |params| - from
    ensures forall k | from <= k < |params| :: r[k - from] == PgArgument(k, params[k])
    decreases |params| - from
  {
    if from == |params| then []
    else
      var rest := PgArgumentsFrom(params, from + 1);
      [PgArgument(from, params[from])] + rest
  }

  /** The statement of a database request. */
  function PgStatement(f: ProceduralFunction): (r: string)
    requires FieldsSqlRenderable(f.parameters)
    ensures StartsWith(r, "SELECT * FROM api." + f.name + "(") && EndsWith(r, ");")
  {
    var head := "SELECT * FROM api." + f.name + "(";
    var r := head + Join(PgArgumentsFrom(f.parameters, 0), ", ") + ");";
    assert r[..|head|] == head;
    r
  }

  /** The borrowed parameters, one per field in field order. */
  function PgParamRefs(params: seq<Field>): (r: seq<string>)
    ensures |r| == |params|
    ensures forall i | 0 <= i < |params| :: r[i] == "&self." + params[i].name + " as &(dyn ToSql + Sync)"
    decreases |params|
  {
    if params == [] then [] else ["&self." + params[0].name + " as &(dyn ToSql + Sync)"] + PgParamRefs(params[1..])
  }

  /** `pg_func_to_rust_trait_impl`: the `DatabaseRequest` impl of the request
      struct. A result row type that is not a struct is `unreachable!`. */
  function PgFuncToRustTraitImpl(f: ProceduralFunction, casing: Casing): (r: string)
    requires f.returnRowType.Struct? && FieldsSqlRenderable(f.parameters)
    ensures StartsWith(r, ImplHead(f, casing))
    ensures Contains(r, "\"" + PgStatement(f) + "\"")
    ensures EndsWith(r, ImplTail(f))
  {
    var open := "          fn statement(&self) -> &str {\n            ";
    var stmt := "\"" + PgStatement(f) + "\"";
    var between := ("\n          }\n          fn params(&self) -> Vec<&(dyn ToSql + Sync)> {\n" + "            ");
    Framed(ImplHead(f, casing), open, stmt, between, ImplTail(f));
    ImplHead(f, casing) + open + stmt + between + ImplTail(f)
  }

  const IMPL_FOR: string := ("\n        #[allow(unused_variables)]\n" + "        impl DatabaseRequest for ")

  /** The opening of the impl: the request struct it is for and the result row type. */
  function ImplHead(f: ProceduralFunction, casing: Casing): string
    requires f.returnRowType.Struct?
  {
    IMPL_FOR + GetParameterType(f, casing).name + " {" + ("\n          type ResponseRow = " + f.returnRowType.name + ";\n")
  }

  /** The closing of the impl: the parameter references in field order. */
  function ImplTail(f: ProceduralFunction): string {
    "vec![" + Join(PgParamRefs(f.parameters), ", ") + "]\n          }\n        }\n"
  }

  /** A function's part of `database.rs`: the request struct and its impl. */
  function DbFuncBlock(f: ProceduralFunction, casing: Casing): (r: string)
    requires f.returnRowType.Struct? && FieldsSqlRenderable(f.parameters) && FieldsRustDefined(f.parameters)
  {
    "\n" + "#[derive(Serialize, Deserialize, Debug, Clone)]\n" + ToRustDecl(GetParameterType(f, casing), false, casing)
      + "\n" + PgFuncToRustTraitImpl(f, casing) + "\n"
  }

  /** The impl is for the struct the block declares, and the statement binds
      one numbered placeholder per field of that struct. */
  lemma DbFuncBlockConsistent(f: ProceduralFunction, casing: Casing)
    requires f.returnRowType.Struct? && FieldsSqlRenderable(f.parameters) && FieldsRustDefined(f.parameters)
    ensures var req := GetParameterType(f, casing);
      && StartsWith(ToRustDecl(req, false, casing), "pub struct " + req.name + " {")
      && StartsWith(PgFuncToRustTraitImpl(f, casing), IMPL_FOR + req.name + " {")
      && |PgArgumentsFrom(f.parameters, 0)| == |req.fields|
  {
    var req := GetParameterType(f, casing);
    var p := IMPL_FOR + req.name + " {";
    var q := "\n          type ResponseRow = " + f.returnRowType.name + ";\n";
    assert ImplHead(f, casing) == p + q;
    StartsWithPart(PgFuncToRustTraitImpl(f, casing), p, q);
    assert StartsWith(ToRustDecl(req, false, casing), "pub struct " + req.name + " {");
    assert |PgArgumentsFrom(f.parameters, 0)| == |req.fields|;
  }

  const ROW_DERIVES: string := ("\n#[derive(Serialize, " + "Deserialize, Debug, " + "Clone, FromRow)]\n")

  /** The part of `database.rs` one distinct result row type contributes:
      its declaration, and only the surrounding line breaks for `Unit`. */
  function TypeBlock(t: Type, casing: Casing): (r: string)
    requires RustDeclDefined(t)
    ensures t == Unit ==> r == "\n\n"
    ensures t != Unit ==> StartsWith(r, ROW_DERIVES)
    ensures t != Unit ==> EndsWith(r, ToRustDecl(t, false, casing) + "\n")
  {
    if t == Unit then "\n\n"
    else
      PrefixOfConcat(ROW_DERIVES, ToRustDecl(t, false, casing) + "\n");
      SuffixOfConcat(ROW_DERIVES, ToRustDecl(t, false, casing) + "\n");
      ROW_DERIVES + (ToRustDecl(t, false, casing) + "\n")
  }

  ghost function ReturnTypes(funcs: seq<ProceduralFunction>): set<Type> {
    set i | 0 <= i < |funcs| :: funcs[i].returnRowType
  }

  /** The set of result row types, gathered function by function. */
  method ReturnTypeSet(funcs: seq<ProceduralFunction>) returns (types: set<Type>)
    ensures types == ReturnTypes(funcs)
  {
    types := {};
    for i := 0 to |funcs|
      invariant types == set j | 0 <= j < i :: funcs[j].returnRowType
    {
      types := types + {funcs[i].returnRowType};
    }
  }

  /** The result-row part of `gen_db_rs`: the result types go into a
      `BTreeSet`, and each distinct one is written once, in the set's
      iteration order, which is ascending in the order `typeLe` (the derived
      `Ord` of `Type`). */
  method DbTypeBlocks(funcs: seq<ProceduralFunction>, casing: Casing, typeLe: (Type, Type) -> bool)
    returns (blocks: seq<string>, order: seq<Type>)
    requires TotalPreorder(typeLe)
    requires forall i | 0 <= i < |funcs| :: RustDeclDefined(funcs[i].returnRowType)
    ensures |blocks| == |order|
    ensures forall i, j | 0 <= i < j < |order| :: order[i] != order[j]
    ensures forall t :: t in order <==> t in ReturnTypes(funcs)
    ensures SortedBy(typeLe, order)
    ensures forall i | 0 <= i < |order| :: RustDeclDefined(order[i]) && blocks[i] == TypeBlock(order[i], casing)
  {
    var types := ReturnTypeSet(funcs);
    order := SortedElements(types, typeLe);
    blocks := [];
    for i := 0 to |order|
      invariant |blocks| == i
      invariant forall k | 0 <= k < i :: RustDeclDefined(order[k]) && blocks[k] == TypeBlock(order[k], casing)
    {
      assert order[i] in ReturnTypes(funcs);
      blocks := blocks + [TypeBlock(order[i], casing)];
    }
  }

  /** `collect_rust_recursive_types`: a struct followed by what its fields
      collect, in field order; `Vec` and `Optional` are transparent; a
      `DataTable` collects as the struct of the same name and fields. */
  function Collect(t: Type): (r: seq<Type>)
    ensures forall i | 0 <= i < |r| :: r[i].Struct?
    ensures t.Struct? ==> |r| >= 1 && r[0] == t
    ensures t.DataTable? ==> |r| >= 1 && r[0] == Struct(t.name, t.fields)
    decreases t, 1
  {
    match t
    case Struct(_, fields) => [t] + CollectFields(fields)
    case DataTable(name, fields) => [Struct(name, fields)] + CollectFields(fields)
    case Vec(e) => Collect(e)
    case Optional(e) => Collect(e)
    case _ => []
  }

  /** What a list of fields collects: exactly what some field collects. */
  function CollectFields(fields: seq<Field>): (r: seq<Type>)
    ensures forall i | 0 <= i < |r| :: r[i].Struct?
    ensures forall x :: x in r <==> exists i | 0 <= i < |fields| :: x in Collect(fields[i].ty)
    decreases fields, 0
  {
    if fields == [] then []
    else
      var r := Collect(fields[0].ty) + CollectFields(fields[1..]);
      assert forall i | 1 <= i < |fields| :: fields[i] == fields[1..][i - 1];
      r
  }

  /** A `DataTable` collects exactly as the struct it stands for. */
  lemma CollectDataTable(name: string, fields: seq<Field>)
    ensures Collect(DataTable(name, fields)) == Collect(Struct(name, fields))
  {
  }

  /** Every struct-typed field of a struct is among what the struct collects. */
  lemma CollectIncludesStructFields(t: Type)
    requires t.Struct?
    ensures forall i | 0 <= i < |t.fields| && t.fields[i].ty.Struct? :: t.fields[i].ty in Collect(t)
  {
    forall i | 0 <= i < |t.fields| && t.fields[i].ty.Struct?
      ensures t.fields[i].ty in Collect(t)
    {
      assert t.fields[i].ty in Collect(t.fields[i].ty);
      assert t.fields[i].ty in CollectFields(t.fields);
    }
  }

  predicate IsWordChar(c: char) {
    IsAsciiLower(c) || IsAsciiUpper(c) || IsAsciiDigit(c) || c == '_'
  }

  predicate IsWord(s: string) {
    |s| > 0 && forall i | 0 <= i < |s| :: IsWordChar(s[i])
  }

  /** The length of the run of word characters at the start of s. */
  function WordRun(s: string): (n: nat)
    ensures n <= |s|
    ensures forall j | 0 <= j < n :: IsWordChar(s[j])
    ensures n == |s| || !IsWordChar(s[n])
    decreases |s|
  {
    if s != [] && IsWordChar(s[0]) then 1 + WordRun(s[1..]) else 0
  }

  /** The matches of `\{[\w]+}`, leftmost first and without overlap, with
      their braces stripped. */
  function Placeholders(s: string): (r: seq<string>)
    ensures forall i | 0 <= i < |r| :: IsWord(r[i])
    decreases |s|
  {
    if s == [] then []
    else if s[0] == '{' && 0 < WordRun(s[1..]) < |s| - 1 && s[1 + WordRun(s[1..])] == '}' then
      [s[1..1 + WordRun(s[1..])]] + Placeholders(s[2 + WordRun(s[1..])..])
    else Placeholders(s[1..])
  }

  lemma {:induction false} WordRunOfWord(w: string, rest: string)
    requires forall i | 0 <= i < |w| :: IsWordChar(w[i])
    requires rest != [] && !IsWordChar(rest[0])
    ensures WordRun(w + rest) == |w|
    decreases |w|
  {
    if w != [] {
      assert (w + rest)[1..] == w[1..] + rest;
      WordRunOfWord(w[1..], rest);
    }
  }

  /** Text without an opening brace contributes no placeholder. */
  lemma {:induction false} PlaceholdersSkipPlain(t: string, rest: string)
    requires '{' !in t
    ensures Placeholders(t + rest) == Placeholders(rest)
    decreases |t|
  {
    if t != [] {
      var s := t + rest;
      assert s[0] == t[0] && s[0] != '{';
      assert s[1..] == t[1..] + rest;
      assert Placeholders(s) == Placeholders(s[1..]);
      PlaceholdersSkipPlain(t[1..], rest);
    } else {
      assert t + rest == rest;
    }
  }

  lemma PlaceholdersAtBrace(name: string, rest: string)
    requires IsWord(name)
    ensures Placeholders("{" + name + "}" + rest) == [name] + Placeholders(rest)
  {
    var s := "{" + name + "}" + rest;
    assert s[1..] == name + ("}" + rest);
    WordRunOfWord(name, "}" + rest);
    assert s[1..1 + |name|] == name;
    assert s[2 + |name|..] == rest;
  }

  /** A message template: texts[0] {names[0]} texts[1] ... {names[k-1]} texts[k]. */
  function Fill(texts: seq<string>, names: seq<string>): string
    requires |texts| == |names| + 1
    decreases |names|
  {
    if names == [] then texts[0]
    else texts[0] + "{" + names[0] + "}" + Fill(texts[1..], names[1..])
  }

  /** Reading a template's placeholders gives back the names put in it, in order. */
  lemma {:induction false} PlaceholdersOfFill(texts: seq<string>, names: seq<string>)
    requires |texts| == |names| + 1
    requires forall i | 0 <= i < |texts| :: '{' !in texts[i]
    requires forall i | 0 <= i < |names| :: IsWord(names[i])
    ensures Placeholders(Fill(texts, names)) == names
    decreases |names|
  {
    if names == [] {
      PlaceholdersSkipPlain(texts[0], "");
      assert texts[0] + "" == texts[0];
    } else {
      var rest := Fill(texts[1..], names[1..]);
      assert Fill(texts, names) == texts[0] + ("{" + names[0] + "}" + rest);
      PlaceholdersSkipPlain(texts[0], "{" + names[0] + "}" + rest);
      PlaceholdersAtBrace(names[0], rest);
      PlaceholdersOfFill(texts[1..], names[1..]);
    }
  }

  function StringFields(names: seq<string>): (r: seq<Field>)
    ensures |r| == |names|
    ensures forall i | 0 <= i < |names| :: r[i] == Field(names[i], String)
    decreases |names|
  {
    if names == [] then [] else [Field(names[0], String)] + StringFields(names[1..])
  }

  /** The struct `gen_model_rs` declares for an error: "Error" and the Pascal
      case of its symbol, with one `String` field per placeholder of its message. */
  function ErrorStruct(e: ErrorMessage, casing: Casing): (r: Type)
    ensures r.Struct? && r.name == "Error" + casing.pascal(e.symbol) && FieldsRustDefined(r.fields)
    ensures |r.fields| == |Placeholders(e.message)|
    ensures forall i | 0 <= i < |r.fields| :: r.fields[i].name == Placeholders(e.message)[i] && r.fields[i].ty == String
  {
    Struct("Error" + casing.pascal(e.symbol), StringFields(Placeholders(e.message)))
  }

  /** The error struct of a templated message has the template's names as fields. */
  lemma ErrorStructOfTemplate(texts: seq<string>, names: seq<string>, e: ErrorMessage, casing: Casing)
    requires |texts| == |names| + 1 && e.message == Fill(texts, names)
    requires forall i | 0 <= i < |texts| :: '{' !in texts[i]
    requires forall i | 0 <= i < |names| :: IsWord(names[i])
    ensures ErrorStruct(e, casing).fields == StringFields(names)
  {
    PlaceholdersOfFill(texts, names);
  }

  const ERROR_STRUCT_HEAD: string := ("#[derive(Serialize, " + "Deserialize, Debug)]\n" + "               #[serde(rename_all = \"camelCase\")]\n" + "               ")

  /** The text written for an error struct: its derives and its declaration
      with `serde_with` set. */
  function ErrorStructText(s: Type, casing: Casing): (r: string)
    requires s.Struct? && FieldsRustDefined(s.fields)
    ensures EndsWith(r, ToRustDecl(s, true, casing) + "\n")
  {
    SuffixOfConcat(ERROR_STRUCT_HEAD, ToRustDecl(s, true, casing) + "\n");
    ERROR_STRUCT_HEAD + (ToRustDecl(s, true, casing) + "\n")
  }

  /** The text written for an error code: the text of its error struct. */
  function ErrorText(e: ErrorMessage, casing: Casing): string {
    ErrorStructText(ErrorStruct(e, casing), casing)
  }

  /** The texts of the error structs of the given codes, in order. */
  function ErrorTexts(codes: seq<ErrorMessage>, casing: Casing): seq<string> {
    MapSeq(codes, e => ErrorText(e, casing))
  }

  /** One text per code, each that code's error struct, in the order of the codes. */
  lemma ErrorTextsAt(codes: seq<ErrorMessage>, casing: Casing)
    ensures |ErrorTexts(codes, casing)| == |codes|
    ensures forall i | 0 <= i < |codes| :: ErrorTexts(codes, casing)[i] == ErrorText(codes[i], casing)
  {
    MapSeqAt(codes, e => ErrorText(e, casing));
  }

  /** The error structs of `model.rs`, one `writeln!` per code, in order. */
  method GenErrorStructs(codes: seq<ErrorMessage>, casing: Casing) returns (out: seq<string>)
    ensures out == ErrorTexts(codes, casing)
  {
    out := [];
    for i := 0 to |codes|
      invariant out == ErrorTexts(codes[..i], casing)
    {
      MapSeqSnoc(codes, i, e => ErrorText(e, casing));
      out := out + [ErrorText(codes[i], casing)];
    }
    assert codes[..|codes|] == codes;
  }

  function ErrorVariants(codes: seq<ErrorMessage>, casing: Casing): (r: seq<EnumVariant>)
    ensures |r| == |codes|
    ensures forall i | 0 <= i < |codes| ::
      r[i] == EnumVariant(casing.pascal(codes[i].symbol), codes[i].code, codes[i].source + " " + codes[i].message)
    decreases |codes|
  {
    if codes == [] then []
    else [EnumVariant(casing.pascal(codes[0].symbol), codes[0].code, codes[0].source + " " + codes[0].message)]
         + ErrorVariants(codes[1..], casing)
  }

  /** The `ErrorCode` enum: one variant per error code, in order, named by the
      Pascal case of its symbol, valued by its code and commented with its
      source and message. */
  function ErrorCodeEnum(codes: seq<ErrorMessage>, casing: Casing): (r: Type)
    ensures r.Enum? && r.name == "ErrorCode" && |r.variants| == |codes|
    ensures forall i | 0 <= i < |codes| :: (r.variants[i].value == codes[i].code
      && r.variants[i].name == casing.pascal(codes[i].symbol))
  {
    Enum("ErrorCode", ErrorVariants(codes, casing))
  }

  /** The endpoints of all services, service by service, in order. */
  function AllEndpoints(services: seq<Service>): (r: seq<EndpointSchema>)
    decreases |services|
  {
    if services == [] then [] else AllEndpoints(services[..|services| - 1]) + services[|services| - 1].endpoints
  }

  /** The variant of the `Endpoint` enum for an endpoint: its name and code. */
  function EndpointVariant(e: EndpointSchema): (v: EnumVariant)
    ensures v.name == e.name && v.value == e.code && v.comment == ""
  {
    EnumVariant(e.name, e.code, "")
  }

  /** `check_endpoint_codes`: the variants of the `Endpoint` enum, one per
      endpoint of every service, in order. `EnumVariant::new` is not part of
      this model; it is taken to leave the comment empty. */
  method CheckEndpointCodes(services: seq<Service>) returns (variants: seq<EnumVariant>)
    ensures |variants| == |AllEndpoints(services)|
    ensures forall k | 0 <= k < |variants| :: variants[k] == EndpointVariant(AllEndpoints(services)[k])
  {
    variants := [];
    for i := 0 to |services|
      invariant |variants| == |AllEndpoints(services[..i])|
      invariant forall k | 0 <= k < |variants| :: variants[k] == EndpointVariant(AllEndpoints(services[..i])[k])
    {
      var eps := services[i].endpoints;
      ghost var done: seq<EndpointSchema> := AllEndpoints(services[..i]);
      assert services[..i + 1][..i] == services[..i];
      assert AllEndpoints(services[..i + 1]) == done + eps;
      for j := 0 to |eps|
        invariant |variants| == |done| + j
        invariant forall k | 0 <= k < |variants| :: variants[k] == EndpointVariant((done + eps)[k])
      {
        variants := variants + [EnumVariant(eps[j].name, eps[j].code, "")];
      }
    }
    assert services[..|services|] == services;
  }

  /** The declaration of the `Endpoint` enum, as the line written to `model.rs`. */
  function EndpointEnumText(variants: seq<EnumVariant>, casing: Casing): string
    requires VariantsNamed(variants)
  {
    ToRustDecl(Enum("Endpoint", variants), false, casing) + "\n"
  }

  /** A case of `EnumEndpoint::schema` as the source writes it: the Pascal case
      of the endpoint's name on both sides. */
  function DumpCaseAsWritten(e: EndpointSchema, casing: Casing): (r: string)
    ensures StartsWith(r, "Self::" + casing.pascal(e.name) + " => ")
  {
    var head := "Self::" + casing.pascal(e.name) + " => ";
    var r := head + casing.pascal(e.name) + "Request::SCHEMA,";
    assert r[..|head|] == head;
    r
  }

  /** The case names a variant the enum does not declare: for the endpoint
      "test1" of the minimal example project (code 120) the variant is `test1`
      and the case matches `Self::Test1`. */
  lemma DumpCaseAsWrittenMismatch(casing: Casing, e: EndpointSchema)
    requires e.name == "test1" && e.code == 120 && casing.pascal("test1") == "Test1"
    ensures EndsWith(VariantDecl(EndpointVariant(e), casing), "\n    test1 = 120\n")
    ensures StartsWith(DumpCaseAsWritten(e, casing), "Self::Test1 => ")
  {
    assert VariantIdent("test1", casing) == "test1";
    assert NatToString(1) == "1";
    assert NatToString(12) == NatToString(1) + "2";
    assert NatToString(120) == NatToString(12) + "0";
    assert IntToString(120) == "120";
    assert VariantLine("test1", 120) == "\n    " + "test1" + " = " + "120" + "\n" == "\n    test1 = 120\n";
    assert "Self::" + "Test1" + " => " == "Self::Test1 => ";
  }

  /** A case of `EnumEndpoint::schema`, matching the identifier the `Endpoint`
      enum declares for the endpoint. */
  function DumpCase(e: EndpointSchema, casing: Casing): (r: string)
    ensures StartsWith(r, "Self::" + VariantIdent(e.name, casing) + " => ")
    ensures EndsWith(r, " => " + casing.pascal(e.name) + "Request::SCHEMA,")
  {
    var head := "Self::" + VariantIdent(e.name, casing);
    var tail := " => " + casing.pascal(e.name) + "Request::SCHEMA,";
    var r := head + tail;
    assert r[..|head| + 4] == head + " => ";
    SuffixOfConcat(head, tail);
    r
  }

  /** Each case matches on the identifier of the variant the `Endpoint` enum
      declares for the same endpoint, with that endpoint's value. */
  lemma DumpCaseMatchesVariant(e: EndpointSchema, casing: Casing)
    requires |e.name| > 0
    ensures var ident := VariantIdent(e.name, casing);
      && EndsWith(VariantDecl(EndpointVariant(e), casing), VariantLine(ident, e.code))
      && StartsWith(DumpCase(e, casing), "Self::" + ident + " => ")
  {
  }

  /** The cases `dump_endpoint_schema` writes for a list of endpoints, in
      order, each as the source writes it. */
  function DumpCases(eps: seq<EndpointSchema>, casing: Casing): seq<string> {
    MapSeq(eps, e => DumpCaseAsWritten(e, casing))
  }

  /** One case per endpoint, the k-th naming `Self::<Pascal name>` of the
      k-th endpoint. */
  lemma DumpCasesAt(eps: seq<EndpointSchema>, casing: Casing)
    ensures |DumpCases(eps, casing)| == |eps|
    ensures forall k | 0 <= k < |eps| :: DumpCases(eps, casing)[k] == DumpCaseAsWritten(eps[k], casing)
    ensures forall k | 0 <= k < |eps| ::
      StartsWith(DumpCases(eps, casing)[k], "Self::" + casing.pascal(eps[k].name) + " => ")
  {
    MapSeqAt(eps, e => DumpCaseAsWritten(e, casing));
  }

  /** The cases of the corrected lookup, in order. */
  function CorrectedDumpCases(eps: seq<EndpointSchema>, casing: Casing): seq<string> {
    MapSeq(eps, e => DumpCase(e, casing))
  }

  /** The k-th corrected case matches the identifier the `Endpoint` enum
      declares for the k-th endpoint, the one whose line carries that
      endpoint's code. */
  lemma CorrectedDumpCasesMatchVariants(eps: seq<EndpointSchema>, casing: Casing)
    requires forall k | 0 <= k < |eps| :: |eps[k].name| > 0
    ensures |CorrectedDumpCases(eps, casing)| == |eps|
    ensures forall k | 0 <= k < |eps| ::
      var ident := VariantIdent(eps[k].name, casing);
      && EndsWith(VariantDecl(EndpointVariant(eps[k]), casing), VariantLine(ident, eps[k].code))
      && StartsWith(CorrectedDumpCases(eps, casing)[k], "Self::" + ident + " => ")
  {
    MapSeqAt(eps, e => DumpCase(e, casing));
    forall k | 0 <= k < |eps|
      ensures var ident := VariantIdent(eps[k].name, casing);
        && EndsWith(VariantDecl(EndpointVariant(eps[k]), casing), VariantLine(ident, eps[k].code))
        && StartsWith(CorrectedDumpCases(eps, casing)[k], "Self::" + ident + " => ")
    {
      DumpCaseMatchesVariant(eps[k], casing);
    }
  }

  function DumpText(cases: seq<string>): string {
    ("\n    impl EnumEndpoint {\n" + "        pub fn schema(&self) -> ::endpoint_gen::model::EndpointSchema {\n" + "            let schema = match self {\n" + "                ")
      + Join(cases, "\n")
      + ("\n            };\n            serde_json::from_str(schema).unwrap()\n" + "        }\n    }\n    \n")
  }

  /** The corrected `EnumEndpoint::schema`: the same text, with each case
      naming the variant the `Endpoint` enum declares. */
  function CorrectedEndpointSchema(services: seq<Service>, casing: Casing): string {
    DumpText(CorrectedDumpCases(AllEndpoints(services), casing))
  }

  /** The cases of a service's endpoints, pushed one by one after those of
      the endpoints before them. */
  method PushCases(acc: seq<string>, ghost done: seq<EndpointSchema>, eps: seq<EndpointSchema>, casing: Casing)
    returns (r: seq<string>)
    requires acc == DumpCases(done, casing)
    ensures r == DumpCases(done + eps, casing)
  {
    r := acc;
    ghost var all := done + eps;
    assert all[..|done|] == done;
    for j := 0 to |eps|
      invariant r == DumpCases(all[..|done| + j], casing)
    {
      MapSeqSnoc(all, |done| + j, e => DumpCaseAsWritten(e, casing));
      r := r + [DumpCaseAsWritten(eps[j], casing)];
    }
    assert all[..|all|] == all;
  }

  /** `dump_endpoint_schema` as written: one case per endpoint of every
      service, in the order of the `Endpoint` enum's variants. */
  method DumpEndpointSchema(services: seq<Service>, casing: Casing) returns (code: string)
    ensures code == DumpText(DumpCases(AllEndpoints(services), casing))
  {
    var acc: seq<string> := [];
    for i := 0 to |services|
      invariant acc == DumpCases(AllEndpoints(services[..i]), casing)
    {
      var eps := services[i].endpoints;
      ghost var done: seq<EndpointSchema> := AllEndpoints(services[..i]);
      assert services[..i + 1][..i] == services[..i];
      assert AllEndpoints(services[..i + 1]) == done + eps;
      acc := PushCases(acc, done, eps, casing);
    }
    assert services[..|services|] == services;
    code := DumpText(acc);
  }
}
