/** The SQL renderer (`src/sql.rs`): column types, stored-procedure
    definitions and the enum type declarations of `model.sql`. */
module Sql {

  import opened Text
  import opened Model

  const PARAM_PREFIX: string := "a_"

  /** The types `to_sql` renders: `DataTable` is `todo!()` and `StructTable` is
      not a variant this renderer knows, at any depth. */
  predicate SqlRenderable(t: Type)
    decreases t, 1
  {
    match t
    case DataTable(_, _) => false
    case StructTable(_) => false
    case Struct(_, fields) => FieldsSqlRenderable(fields)
    case Vec(e) => SqlRenderable(e)
    case Optional(e) => SqlRenderable(e)
    case _ => true
  }

  predicate FieldsSqlRenderable(fields: seq<Field>)
    decreases fields, 0
  {
    forall i | 0 <= i < |fields| :: SqlRenderable(fields[i].ty)
  }

  /** `Type::to_sql`. */
  function ToSql(t: Type): (r: string)
    requires SqlRenderable(t)
    ensures t.Optional? ==> r == ToSql(t.inner)
    ensures t.Vec? ==> r == ToSql(t.elem) + "[]"
    ensures t.Enum? || t.EnumRef? ==> r == "enum_" + t.name
    ensures t.Struct? ==> r == "table (\n" + Join(ColumnLines(t.fields), ",\n") + "\n)"
    decreases t, 1
  {
    match t
    case Date => "int"
    case Int => "int"
    case BigInt => "bigint"
    case TimeStampMs => "bigint"
    case Numeric => "double precision"
    case Struct(_, fields) => "table (\n" + Join(ColumnLines(fields), ",\n") + "\n)"
    case StructRef(_) => "jsonb"
    case Object => "jsonb"
    case Vec(e) => ToSql(e) + "[]"
    case Unit => "void"
    case Optional(e) => ToSql(e)
    case Boolean => "boolean"
    case String => "varchar"
    case Bytea => "bytea"
    case UUID => "uuid"
    case Inet => "inet"
    case Enum(name, _) => "enum_" + name
    case EnumRef(name, _) => "enum_" + name
    case BlockchainDecimal => "decimal(56, 18)"
    case BlockchainAddress => "varchar"
    case BlockchainTransactionHash => "varchar"
  }

  /** One indented line per field: the quoted column name and its type. */
  function ColumnLines(fields: seq<Field>): (lines: seq<string>)
    requires FieldsSqlRenderable(fields)
    ensures |lines| == |fields|
    ensures forall i | 0 <= i < |fields| :: lines[i] == "    \"" + fields[i].name + "\" " + ToSql(fields[i].ty)
    decreases fields, 0
  {
    if fields == [] then []
    else ["    \"" + fields[0].name + "\" " + ToSql(fields[0].ty)] + ColumnLines(fields[1..])
  }

  /** Any number of `Optional` wrappers is invisible in SQL. */
  function StripOptional(t: Type): Type {
    if t.Optional? then StripOptional(t.inner) else t
  }

  lemma {:induction false} ToSqlIgnoresOptional(t: Type)
    requires SqlRenderable(t)
    ensures SqlRenderable(StripOptional(t)) && ToSql(t) == ToSql(StripOptional(t))
  {
    if t.Optional? {
      ToSqlIgnoresOptional(t.inner);
    }
  }

  /** Distinct types that share a column type. */
  lemma SqlTypeCollisions()
    ensures ToSql(Date) == ToSql(Int) == "int"
    ensures ToSql(BigInt) == ToSql(TimeStampMs) == "bigint"
    ensures ToSql(String) == ToSql(BlockchainAddress) == ToSql(BlockchainTransactionHash) == "varchar"
    ensures forall n :: ToSql(StructRef(n)) == ToSql(Object) == "jsonb"
  {
  }

  /** A procedure parameter: the prefixed name, the type and, for an optional
      parameter, a NULL default. */
  function ParamToSql(f: Field): (r: string)
    requires SqlRenderable(f.ty)
    ensures f.ty.Optional? ==> r == PARAM_PREFIX + f.name + " " + ToSql(f.ty.inner) + " DEFAULT NULL"
    ensures !f.ty.Optional? ==> r == PARAM_PREFIX + f.name + " " + ToSql(f.ty)
  {
    match f.ty
    case Optional(inner) => PARAM_PREFIX + f.name + " " + ToSql(inner) + " DEFAULT NULL"
    case _ => PARAM_PREFIX + f.name + " " + ToSql(f.ty)
  }

  function ParamsToSql(fields: seq<Field>): (r: seq<string>)
    requires FieldsSqlRenderable(fields)
    ensures |r| == |fields|
    ensures forall i | 0 <= i < |fields| :: r[i] == ParamToSql(fields[i])
  {
    seq(|fields|, i requires 0 <= i < |fields| => ParamToSql(fields[i]))
  }

  /** The RETURNS clause: "void" for a row type with no fields, its SQL otherwise. */
  function Returns(t: Type): (r: string)
    requires SqlRenderable(t)
    ensures t.Struct? && t.fields == [] ==> r == "void"
    ensures !(t.Struct? && t.fields == []) ==> r == ToSql(t)
  {
    if t.Struct? && t.fields == [] then "void" else ToSql(t)
  }

  /** Both ways of declaring "no result" give a `void` function. */
  lemma EmptyResultIsVoid(name: string)
    ensures Returns(Struct(name, [])) == Returns(Unit) == "void"
  {
  }

  predicate ProcRenderable(f: ProceduralFunction) {
    FieldsSqlRenderable(f.parameters) && SqlRenderable(f.returnRowType)
  }

  /** `ProceduralFunction::to_sql`. */
  function ProcToSql(f: ProceduralFunction): (r: string)
    requires ProcRenderable(f)
    ensures StartsWith(r, "\nCREATE OR REPLACE FUNCTION api." + f.name + "(" + Join(ParamsToSql(f.parameters), ", ") + ")\nRETURNS ")
    ensures EndsWith(r, "\nLANGUAGE plpgsql\nAS $$\n    " + f.body + "\n$$;\n        ")
  {
    var head := "\nCREATE OR REPLACE FUNCTION api." + f.name + "(" + Join(ParamsToSql(f.parameters), ", ") + ")\nRETURNS ";
    var tail := "\nLANGUAGE plpgsql\nAS $$\n    " + f.body + "\n$$;\n        ";
    var r := head + Returns(f.returnRowType) + tail;
    assert r[..|head|] == head;
    assert r[|r| - |tail|..] == tail;
    r
  }

  /** The quoted variant names of an enum. */
  function QuotedNames(variants: seq<EnumVariant>): (r: seq<string>)
    ensures |r| == |variants|
    ensures forall i | 0 <= i < |variants| :: r[i] == "'" + variants[i].name + "'"
    decreases |variants|
  {
    if variants == [] then [] else ["'" + variants[0].name + "'"] + QuotedNames(variants[1..])
  }

  /** The declaration of one enum type, with its line break. */
  function EnumTypeLine(e: Type): (r: string)
    requires e.Enum?
    ensures StartsWith(r, "CREATE TYPE " + ToSql(e) + " AS ENUM (")
  {
    var head := "CREATE TYPE " + ToSql(e) + " AS ENUM (";
    var r := head + Join(QuotedNames(e.variants), ", ") + ");\n";
    assert r[..|head|] == head;
    r
  }

  /** The enum part of `gen_model_sql`: one declaration line per enum, in
      order; each declares the type name that columns of that enum use. */
  method GenModelSql(enums: seq<Type>) returns (lines: seq<string>)
    requires forall i | 0 <= i < |enums| :: enums[i].Enum?
    ensures |lines| == |enums|
    ensures forall i | 0 <= i < |enums| :: lines[i] == EnumTypeLine(enums[i])
  {
    lines := [];
    for i := 0 to |enums|
      invariant |lines| == i
      invariant forall j | 0 <= j < i :: lines[j] == EnumTypeLine(enums[j])
    {
      lines := lines + [EnumTypeLine(enums[i])];
    }
  }
}
