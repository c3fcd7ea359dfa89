/** The documentation generator (`src/docs.rs`): the front-end services
    document, the Markdown API reference and the error-code table. Creating
    directories and files, JSON serialisation and reading
    `error_codes.json` are outside the model: the file's bytes and the JSON
    parser arrive as parameters, and each generator returns the text it
    would write. */
module Docs {

  import opened Wrappers
  import opened Text
  import opened Model
  import opened RustGen
  import opened Definitions

  /** What the generator documents (`Data` without its paths). */
  datatype Data = Data(services: seq<GenService>, enums: seq<EnumElement>, structs: seq<StructElement>)

  /** The object written to `docs/services.json`. */
  datatype ServicesDoc = ServicesDoc(services: seq<Service>, enums: seq<Type>, structs: seq<Type>)

  /** The schemas of the front-end facing endpoints, in order. */
  function FrontendEndpoints(els: seq<EndpointSchemaElement>): (r: seq<EndpointSchema>)
    ensures |r| <= |els|
    decreases |els|
  {
    if els == [] then []
    else (if els[0].frontendFacing then [els[0].schema] else []) + FrontendEndpoints(els[1..])
  }

  /** A schema is listed iff some front-end facing element carries it. */
  lemma {:induction false} FrontendEndpointsMembership(els: seq<EndpointSchemaElement>, x: EndpointSchema)
    ensures x in FrontendEndpoints(els) <==> exists i | 0 <= i < |els| :: els[i].frontendFacing && els[i].schema == x
    decreases |els|
  {
    if els != [] {
      FrontendEndpointsMembership(els[1..], x);
      if exists i | 0 <= i < |els| :: els[i].frontendFacing && els[i].schema == x {
        var i :| 0 <= i < |els| && els[i].frontendFacing && els[i].schema == x;
        if i > 0 {
          assert els[1..][i - 1] == els[i];
        }
      }
      if exists i | 0 <= i < |els[1..]| :: els[1..][i].frontendFacing && els[1..][i].schema == x {
        var i :| 0 <= i < |els[1..]| && els[1..][i].frontendFacing && els[1..][i].schema == x;
        assert els[i + 1] == els[1..][i];
      }
    }
  }

  /** The filter keeps the order of the endpoints: the listing of two runs of
      elements is the listing of the first followed by that of the second. */
  lemma {:induction false} FrontendEndpointsAppend(a: seq<EndpointSchemaElement>, b: seq<EndpointSchemaElement>)
    ensures FrontendEndpoints(a + b) == FrontendEndpoints(a) + FrontendEndpoints(b)
    decreases |a|
  {
    if a == [] {
      assert a + b == b;
    } else {
      assert (a + b)[0] == a[0];
      assert (a + b)[1..] == a[1..] + b;
      FrontendEndpointsAppend(a[1..], b);
    }
  }

  /** A service as the services document lists it. */
  function FrontendService(s: GenService): Service {
    Service(s.name, s.id, FrontendEndpoints(s.endpoints))
  }

  /** `gen_services_docs`, services part: each service with its front-end
      facing endpoints only, and the services left without endpoints dropped. */
  function ServicesJson(services: seq<GenService>): (r: seq<Service>)
    ensures |r| <= |services|
    ensures forall i | 0 <= i < |r| :: r[i].endpoints != []
    decreases |services|
  {
    if services == [] then []
    else
      var s := FrontendService(services[0]);
      (if s.endpoints != [] then [s] else []) + ServicesJson(services[1..])
  }

  /** A service is listed iff it is the front-end view of an input service
      that keeps at least one endpoint. */
  lemma {:induction false} ServicesJsonMembership(services: seq<GenService>, x: Service)
    ensures x in ServicesJson(services) <==>
      exists i | 0 <= i < |services| :: FrontendService(services[i]) == x && x.endpoints != []
    decreases |services|
  {
    if services != [] {
      ServicesJsonMembership(services[1..], x);
      if exists i | 0 <= i < |services| :: FrontendService(services[i]) == x && x.endpoints != [] {
        var i :| 0 <= i < |services| && FrontendService(services[i]) == x && x.endpoints != [];
        if i > 0 {
          assert services[1..][i - 1] == services[i];
        }
      }
      if exists i | 0 <= i < |services[1..]| :: FrontendService(services[1..][i]) == x && x.endpoints != [] {
        var i :| 0 <= i < |services[1..]| && FrontendService(services[1..][i]) == x && x.endpoints != [];
        assert services[i + 1] == services[1..][i];
      }
    }
  }

  /** The services keep their relative order. */
  lemma {:induction false} ServicesJsonAppend(a: seq<GenService>, b: seq<GenService>)
    ensures ServicesJson(a + b) == ServicesJson(a) + ServicesJson(b)
    decreases |a|
  {
    if a == [] {
      assert a + b == b;
    } else {
      assert (a + b)[0] == a[0];
      assert (a + b)[1..] == a[1..] + b;
      ServicesJsonAppend(a[1..], b);
    }
  }

  /** `gen_services_docs`: the document's three arrays: the services as
      `ServicesJson` writes them, then the inner type of every enum and of
      every struct, one each, in order. */
  function ServicesDocOf(data: Data): (r: ServicesDoc)
    ensures r.services == ServicesJson(data.services)
    ensures |r.enums| == |data.enums| && forall i | 0 <= i < |data.enums| :: r.enums[i] == data.enums[i].inner
    ensures |r.structs| == |data.structs| && forall i | 0 <= i < |data.structs| :: r.structs[i] == data.structs[i].inner
  {
    ServicesDoc(ServicesJson(data.services),
      seq(|data.enums|, i requires 0 <= i < |data.enums| => data.enums[i].inner),
      seq(|data.structs|, i requires 0 <= i < |data.structs| => data.structs[i].inner))
  }

  /** `wrap_code_md`: the value between two backticks. */
  function WrapCodeMd(v: string): (r: string)
    ensures |r| == |v| + 2 && r[0] == '`' && r[|r| - 1] == '`' && r[1..|r| - 1] == v
  {
    "`" + v + "`"
  }

  /** The types `format_type` renders: those whose `to_rust_ref` it uses must
      have one. */
  predicate FormatDefined(t: Type) {
    match t
    case Struct(_, fields) => FieldsRustDefined(fields)
    case DataTable(_, fields) => FieldsRustDefined(fields)
    case StructTable(_) => true
    case Enum(_, _) => true
    case EnumRef(_, _) => true
    case _ => RustRefDefined(t)
  }

  /** The members of a struct: the field name as written and its Rust type. */
  function StructMemberDocs(fields: seq<Field>, casing: Casing): (r: seq<string>)
    requires FieldsRustDefined(fields)
    ensures |r| == |fields|
    ensures forall i | 0 <= i < |fields| :: r[i] == fields[i].name + ": " + ToRustRef(fields[i].ty, false, casing)
    decreases |fields|
  {
    if fields == [] then []
    else [fields[0].name + ": " + ToRustRef(fields[0].ty, false, casing)] + StructMemberDocs(fields[1..], casing)
  }

  /** The members of a data table: the camel-case field name and its Rust type. */
  function TableMemberDocs(fields: seq<Field>, casing: Casing): (r: seq<string>)
    requires FieldsRustDefined(fields)
    ensures |r| == |fields|
    ensures forall i | 0 <= i < |fields| :: r[i] == casing.camel(fields[i].name) + ": " + ToRustRef(fields[i].ty, false, casing)
    decreases |fields|
  {
    if fields == [] then []
    else [casing.camel(fields[0].name) + ": " + ToRustRef(fields[0].ty, false, casing)] + TableMemberDocs(fields[1..], casing)
  }

  function VariantNames(variants: seq<EnumVariant>): (r: seq<string>)
    ensures |r| == |variants|
    ensures forall i | 0 <= i < |variants| :: r[i] == variants[i].name
    decreases |variants|
  {
    if variants == [] then [] else [variants[0].name] + VariantNames(variants[1..])
  }

  /** `format_type`: how a named value of type t reads in the documentation. */
  function FormatType(fieldName: string, t: Type, casing: Casing): string
    requires FormatDefined(t)
  {
    var lead := casing.camel(fieldName) + ": ";
    match t
    case Struct(name, fields) =>
      lead + (casing.camel(name) + "{ " + Join(StructMemberDocs(fields, casing), ", ") + " }")
    case StructTable(structRef) =>
      lead + ("Vec<" + casing.pascal(structRef) + ">")
    case Enum(name, variants) =>
      casing.pascal(name) + " { " + (Join(VariantNames(variants), ", ") + " }")
    case EnumRef(name, prefixed) =>
      lead + (if prefixed then "Enum" + casing.pascal(name) else casing.pascal(name))
    case DataTable(name, fields) =>
      lead + ("Vec<" + casing.pascal(name) + "{ " + Join(TableMemberDocs(fields, casing), ", ") + " }>")
    case _ =>
      lead + ToRustRef(t, false, casing)
  }

  /** Every type but an enum declaration is introduced by the camel-case name
      and ": "; an enum declaration lists its variant names in braces; struct
      and data-table members are closed by a brace. */
  lemma FormatTypeShape(fieldName: string, t: Type, casing: Casing)
    requires FormatDefined(t)
    ensures !t.Enum? ==> StartsWith(FormatType(fieldName, t, casing), casing.camel(fieldName) + ": ")
    ensures t.Enum? ==> && StartsWith(FormatType(fieldName, t, casing), casing.pascal(t.name) + " { ")
                        && EndsWith(FormatType(fieldName, t, casing), Join(VariantNames(t.variants), ", ") + " }")
    ensures t.Struct? ==> EndsWith(FormatType(fieldName, t, casing), Join(StructMemberDocs(t.fields, casing), ", ") + " }")
    ensures t.DataTable? ==> EndsWith(FormatType(fieldName, t, casing), Join(TableMemberDocs(t.fields, casing), ", ") + " }>")
  {
    var lead := casing.camel(fieldName) + ": ";
    match t
    case Struct(name, fields) =>
      LeadThenBraced(lead, casing.camel(name) + "{ ", Join(StructMemberDocs(fields, casing), ", "), " }");
    case StructTable(structRef) =>
      PrefixOfConcat(lead, "Vec<" + casing.pascal(structRef) + ">");
    case Enum(name, variants) =>
      PrefixOfConcat(casing.pascal(name) + " { ", Join(VariantNames(variants), ", ") + " }");
      SuffixOfConcat(casing.pascal(name) + " { ", Join(VariantNames(variants), ", ") + " }");
    case EnumRef(name, prefixed) =>
      PrefixOfConcat(lead, if prefixed then "Enum" + casing.pascal(name) else casing.pascal(name));
    case DataTable(name, fields) =>
      LeadThenBraced(lead, "Vec<" + casing.pascal(name) + "{ ", Join(TableMemberDocs(fields, casing), ", "), " }>");
    case _ =>
      PrefixOfConcat(lead, ToRustRef(t, false, casing));
  }

  /** A lead followed by members between an opening and a closing starts with
      the lead and ends with the members and the closing. */
  lemma LeadThenBraced(lead: string, open: string, items: string, close: string)
    ensures StartsWith(lead + (open + items + close), lead)
    ensures EndsWith(lead + (open + items + close), items + close)
  {
    Bracketed(open, items, close);
    PrefixOfConcat(lead, open + items + close);
    EndsWithExtend(open + items + close, items + close, lead);
  }

  /** A suffix of a suffix is a suffix. */
  lemma EndsWithChain(s: string, t: string, u: string)
    requires EndsWith(s, t) && EndsWith(t, u)
    ensures EndsWith(s, u)
  {
    assert s[|s| - |u|..] == t[|t| - |u|..];
  }

  /** A struct table reads as a vector of the Pascal-case struct; an enum
      reference shows the "Enum" prefix only when it is prefixed, although the
      Rust code always refers to it with the prefix; every other simple type
      reads as its Rust type. */
  lemma FormatTypeAgreesWithRustRef(fieldName: string, t: Type, casing: Casing)
    requires FormatDefined(t)
    ensures t.StructTable? ==> FormatType(fieldName, t, casing) == casing.camel(fieldName) + ": Vec<" + casing.pascal(t.structRef) + ">"
    ensures t.EnumRef? && t.prefixedName ==>
      FormatType(fieldName, t, casing) == casing.camel(fieldName) + ": " + ToRustRef(t, false, casing)
    ensures t.EnumRef? && !t.prefixedName ==>
      && FormatType(fieldName, t, casing) == casing.camel(fieldName) + ": " + casing.pascal(t.name)
      && ToRustRef(t, false, casing) == "Enum" + casing.pascal(t.name)
    ensures !(t.Struct? || t.StructTable? || t.Enum? || t.EnumRef? || t.DataTable?) ==>
      FormatType(fieldName, t, casing) == casing.camel(fieldName) + ": " + ToRustRef(t, false, casing)
  {
  }

  /** An enum declaration reads the same whatever name it is given. */
  lemma FormatTypeEnumIgnoresName(a: string, b: string, t: Type, casing: Casing)
    requires t.Enum?
    ensures FormatType(a, t, casing) == FormatType(b, t, casing)
  {
  }

  predicate FieldsFormatDefined(fields: seq<Field>) {
    forall i | 0 <= i < |fields| :: FormatDefined(fields[i].ty)
  }

  /** Each field formatted and wrapped in backticks. */
  function FieldDocs(fields: seq<Field>, casing: Casing): (r: seq<string>)
    requires FieldsFormatDefined(fields)
    ensures |r| == |fields|
    ensures forall i | 0 <= i < |fields| :: r[i] == WrapCodeMd(FormatType(fields[i].name, fields[i].ty, casing))
    decreases |fields|
  {
    if fields == [] then []
    else [WrapCodeMd(FormatType(fields[0].name, fields[0].ty, casing))] + FieldDocs(fields[1..], casing)
  }

  /** The `Display` text of a `bool`. */
  function BoolText(b: bool): string {
    if b then "true" else "false"
  }

  /** A Markdown table row: the cells between bars, a bar at each end. */
  function RowText(cells: seq<string>): string {
    "|" + Join(cells, "|") + "|"
  }

  /** A row of at least two cells begins with its first cell and ends with its
      last one, each between bars. */
  lemma RowTextEnds(cells: seq<string>)
    requires |cells| >= 2
    ensures StartsWith(RowText(cells), "|" + cells[0] + "|")
    ensures EndsWith(RowText(cells), "|" + cells[|cells| - 1] + "|")
  {
    var j := Join(cells, "|");
    JoinEnds(cells, "|");
    StartsWithExtend(j, cells[0] + "|", "|");
    StartsWithExtend("|" + j, "|" + (cells[0] + "|"), "|");
    EndsWithExtend(j, "|" + cells[|cells| - 1], "|");
    EndsWithExtend(j + "|", "|" + cells[|cells| - 1] + "|", "|");
  }

  /** The pieces of a join of more than one piece at its two ends. */
  lemma {:induction false} JoinEnds(cells: seq<string>, sep: string)
    requires |cells| >= 2
    ensures StartsWith(Join(cells, sep), cells[0] + sep)
    ensures EndsWith(Join(cells, sep), sep + cells[|cells| - 1])
    decreases |cells|
  {
    var rest := Join(cells[1..], sep);
    PrefixOfConcat(cells[0] + sep, rest);
    assert cells[1..][|cells[1..]| - 1] == cells[|cells| - 1];
    if |cells| == 2 {
      assert rest == cells[1];
      assert cells[0] + sep + rest == cells[0] + (sep + rest);
      SuffixOfConcat(cells[0], sep + rest);
    } else {
      JoinEnds(cells[1..], sep);
      EndsWithExtend(rest, sep + cells[|cells| - 1], cells[0] + sep);
    }
  }

  /** A row reads back into its cells when no cell holds a bar. */
  lemma RowTextReadsBack(cells: seq<string>)
    requires |cells| >= 2
    requires forall i | 0 <= i < |cells| :: '|' !in cells[i]
    ensures Split(RowText(cells), "|") == [""] + cells + [""]
  {
    assert RowText(cells) == "" + ['|'] + (Join(cells, ['|']) + ['|']);
    SplitAtFirst("", Join(cells, ['|']) + ['|'], '|');
    SplitJoinTerminated(cells, '|');
    assert [""] + (cells + [""]) == [""] + cells + [""];
  }

  /** The cells of an endpoint's row: code, name, parameters, response,
      description and whether it is front-end facing. */
  function EndpointCells(e: EndpointSchemaElement, casing: Casing): (r: seq<string>)
    requires Documentable(e)
    ensures |r| == 6
  {
    [NatToString(e.schema.code), e.schema.name,
     Join(FieldDocs(e.schema.parameters, casing), ", "),
     Join(FieldDocs(e.schema.returnFields, casing), ", "),
     e.schema.description, BoolText(e.frontendFacing)]
  }

  /** One line of a service's endpoint table. */
  function EndpointRow(e: EndpointSchemaElement, casing: Casing): string
    requires Documentable(e)
  {
    RowText(EndpointCells(e, casing)) + "\n"
  }

  /** An endpoint row begins with the endpoint's code and ends with whether it
      is front-end facing, each between bars, and a line break. */
  lemma EndpointRowEnds(e: EndpointSchemaElement, casing: Casing)
    requires Documentable(e)
    ensures StartsWith(EndpointRow(e, casing), "|" + NatToString(e.schema.code) + "|")
    ensures EndsWith(EndpointRow(e, casing), "|" + BoolText(e.frontendFacing) + "|\n")
  {
    var cells := EndpointCells(e, casing);
    var row := RowText(cells);
    assert cells[0] == NatToString(e.schema.code) && cells[5] == BoolText(e.frontendFacing);
    RowTextEnds(cells);
    StartsWithExtend(row, "|" + cells[0] + "|", "\n");
    EndsWithExtend(row, "|" + cells[5] + "|", "\n");
    assert "|" + cells[5] + "|" + "\n" == "|" + cells[5] + "|\n";
  }

  /** An endpoint row reads back: the cells are found between the bars, and
      the first is the endpoint's code, when name, description and the
      formatted fields hold no bar. */
  lemma EndpointRowReadsBack(e: EndpointSchemaElement, casing: Casing)
    requires Documentable(e)
    requires forall i | 0 <= i < |EndpointCells(e, casing)| :: '|' !in EndpointCells(e, casing)[i]
    ensures var row := EndpointRow(e, casing);
            && row[|row| - 1] == '\n'
            && Split(row[..|row| - 1], "|") == [""] + EndpointCells(e, casing) + [""]
    ensures AllDigits(EndpointCells(e, casing)[0]) && DigitsValue(EndpointCells(e, casing)[0]) == e.schema.code
  {
    var row := RowText(EndpointCells(e, casing));
    assert (row + "\n")[..|row|] == row;
    RowTextReadsBack(EndpointCells(e, casing));
    NatToStringRoundTrip(e.schema.code);
  }

  /** The bars of a row can only come from the row itself when the free-text
      cells hold none: digits and booleans never do. */
  lemma GeneratedCellsHaveNoBar(e: EndpointSchemaElement, casing: Casing)
    requires Documentable(e)
    ensures '|' !in EndpointCells(e, casing)[0] && '|' !in EndpointCells(e, casing)[5]
  {
    NatToStringRoundTrip(e.schema.code);
    var d := NatToString(e.schema.code);
    assert forall i | 0 <= i < |d| :: IsAsciiDigit(d[i]);
  }

  /** An endpoint whose parameters and response the reference can format. */
  predicate Documentable(e: EndpointSchemaElement) {
    FieldsFormatDefined(e.schema.parameters) && FieldsFormatDefined(e.schema.returnFields)
  }

  predicate EndpointsDocumentable(els: seq<EndpointSchemaElement>) {
    forall i | 0 <= i < |els| :: Documentable(els[i])
  }

  predicate ServicesDocumentable(services: seq<GenService>) {
    forall i | 0 <= i < |services| :: EndpointsDocumentable(services[i].endpoints)
  }

  lemma EndpointsDocumentableParts(a: seq<EndpointSchemaElement>, b: seq<EndpointSchemaElement>)
    ensures EndpointsDocumentable(a + b) <==> EndpointsDocumentable(a) && EndpointsDocumentable(b)
  {
    if EndpointsDocumentable(a) && EndpointsDocumentable(b) {
      forall i | 0 <= i < |a + b| ensures Documentable((a + b)[i]) {
        if i < |a| { assert (a + b)[i] == a[i]; } else { assert (a + b)[i] == b[i - |a|]; }
      }
    }
    if EndpointsDocumentable(a + b) {
      forall i | 0 <= i < |a| ensures Documentable(a[i]) { assert (a + b)[i] == a[i]; }
      forall i | 0 <= i < |b| ensures Documentable(b[i]) { assert (a + b)[i + |a|] == b[i]; }
    }
  }

  lemma ServicesDocumentableParts(a: seq<GenService>, b: seq<GenService>)
    ensures ServicesDocumentable(a + b) <==> ServicesDocumentable(a) && ServicesDocumentable(b)
  {
    if ServicesDocumentable(a) && ServicesDocumentable(b) {
      forall i | 0 <= i < |a + b| ensures EndpointsDocumentable((a + b)[i].endpoints) {
        if i < |a| { assert (a + b)[i] == a[i]; } else { assert (a + b)[i] == b[i - |a|]; }
      }
    }
    if ServicesDocumentable(a + b) {
      forall i | 0 <= i < |a| ensures EndpointsDocumentable(a[i].endpoints) { assert (a + b)[i] == a[i]; }
      forall i | 0 <= i < |b| ensures EndpointsDocumentable(b[i].endpoints) { assert (a + b)[i + |a|] == b[i]; }
    }
  }

  const ENDPOINTS_TABLE_HEAD: string := ("### Endpoints\n|Code|Name|Parameters|Response|Description|FE Facing|\n" + "|-----------|-----------|----------|--------|-----------|-----------|\n")

  /** The heading and table head of one service. */
  function ServiceHeader(s: GenService): string {
    "\n## " + s.name + " Server\nID: " + NatToString(s.id) + "\n" + ENDPOINTS_TABLE_HEAD
  }

  /** The endpoint rows of a service, in order. */
  function EndpointRows(els: seq<EndpointSchemaElement>, casing: Casing): string
    requires EndpointsDocumentable(els)
  {
    Lines(els, (e: EndpointSchemaElement) requires Documentable(e) => EndpointRow(e, casing))
  }

  /** The section of one service. */
  function ServiceSection(s: GenService, casing: Casing): string
    requires EndpointsDocumentable(s.endpoints)
  {
    ServiceHeader(s) + EndpointRows(s.endpoints, casing)
  }

  /** A section opens with the service's name and id, then the table head. */
  lemma ServiceSectionStart(s: GenService, casing: Casing)
    requires EndpointsDocumentable(s.endpoints)
    ensures StartsWith(ServiceSection(s, casing), "\n## " + s.name + " Server\nID: " + NatToString(s.id) + "\n" + ENDPOINTS_TABLE_HEAD)
  {
    PrefixOfConcat(ServiceHeader(s), EndpointRows(s.endpoints, casing));
  }

  /** The service sections of the Markdown reference, in order. */
  function ServicesMd(services: seq<GenService>, casing: Casing): string
    requires ServicesDocumentable(services)
  {
    Lines(services, (s: GenService) requires EndpointsDocumentable(s.endpoints) => ServiceSection(s, casing))
  }

  /** The sections follow the order of the services. */
  lemma ServicesMdAppend(a: seq<GenService>, b: seq<GenService>, casing: Casing)
    requires ServicesDocumentable(a) && ServicesDocumentable(b)
    ensures ServicesDocumentable(a + b)
    ensures ServicesMd(a + b, casing) == ServicesMd(a, casing) + ServicesMd(b, casing)
  {
    ServicesDocumentableParts(a, b);
    LinesAppend(a, b, (s: GenService) requires EndpointsDocumentable(s.endpoints) => ServiceSection(s, casing));
  }

  /** There is one row per endpoint, in order: the rows of two runs of
      endpoints are the rows of the first followed by those of the second. */
  lemma EndpointRowsAppend(a: seq<EndpointSchemaElement>, b: seq<EndpointSchemaElement>, casing: Casing)
    requires EndpointsDocumentable(a) && EndpointsDocumentable(b)
    ensures EndpointsDocumentable(a + b)
    ensures EndpointRows(a + b, casing) == EndpointRows(a, casing) + EndpointRows(b, casing)
  {
    EndpointsDocumentableParts(a, b);
    LinesAppend(a, b, (e: EndpointSchemaElement) requires Documentable(e) => EndpointRow(e, casing));
  }

  /** `gen_md_docs`, one service: its header, then one row per endpoint. */
  method GenServiceSection(s: GenService, casing: Casing) returns (section: string)
    requires EndpointsDocumentable(s.endpoints)
    ensures section == ServiceSection(s, casing)
  {
    var rows := "";
    for j := 0 to |s.endpoints|
      invariant EndpointsDocumentable(s.endpoints[..j])
      invariant rows == EndpointRows(s.endpoints[..j], casing)
    {
      EndpointsDocumentableParts(s.endpoints[..j], [s.endpoints[j]]);
      assert s.endpoints[..j + 1] == s.endpoints[..j] + [s.endpoints[j]];
      LinesSnoc(s.endpoints, j, (e: EndpointSchemaElement) requires Documentable(e) => EndpointRow(e, casing));
      rows := rows + EndpointRow(s.endpoints[j], casing);
    }
    assert s.endpoints[..|s.endpoints|] == s.endpoints;
    section := ServiceHeader(s) + rows;
  }

  /** `gen_md_docs`, services part: for each service its header, then one row
      per endpoint. */
  method GenServicesMd(services: seq<GenService>, casing: Casing) returns (doc: string)
    requires ServicesDocumentable(services)
    ensures doc == ServicesMd(services, casing)
  {
    doc := "";
    for i := 0 to |services|
      invariant ServicesDocumentable(services[..i])
      invariant doc == ServicesMd(services[..i], casing)
    {
      ServicesDocumentableParts(services[..i], [services[i]]);
      assert services[..i + 1] == services[..i] + [services[i]];
      LinesSnoc(services, i, (s: GenService) requires EndpointsDocumentable(s.endpoints) => ServiceSection(s, casing));
      var section := GenServiceSection(services[i], casing);
      doc := doc + section;
    }
    assert services[..|services|] == services;
  }

  predicate StructLineDefined(s: StructElement) {
    RustRefDefined(s.inner) && FormatDefined(s.inner)
  }

  predicate EnumLineDefined(e: EnumElement) {
    RustRefDefined(e.inner) && FormatDefined(e.inner)
  }

  /** One struct of the reference: "struct", then the struct formatted under
      its own Rust name. */
  function StructLine(s: StructElement, casing: Casing): (r: string)
    requires StructLineDefined(s)
    ensures StartsWith(r, "struct ")
    ensures EndsWith(r, FormatType(ToRustRef(s.inner, false, casing), s.inner, casing) + "\n")
  {
    var body := FormatType(ToRustRef(s.inner, false, casing), s.inner, casing);
    PrefixOfConcat("struct ", body + "\n");
    SuffixOfConcat("struct ", body + "\n");
    "struct " + (body + "\n")
  }

  /** One enum of the reference: "enum", then the enum formatted under its
      own Rust name, which is its Pascal name and its variant list. */
  function EnumLine(e: EnumElement, casing: Casing): (r: string)
    requires EnumLineDefined(e)
    ensures e.inner.Enum? ==> StartsWith(r, "enum " + casing.pascal(e.inner.name) + " { ")
    ensures EndsWith(r, FormatType(ToRustRef(e.inner, false, casing), e.inner, casing) + "\n")
  {
    var body := FormatType(ToRustRef(e.inner, false, casing), e.inner, casing);
    SuffixOfConcat("enum ", body + "\n");
    "enum " + (body + "\n")
  }

  function StructLines(structs: seq<StructElement>, casing: Casing): (r: seq<string>)
    requires forall i | 0 <= i < |structs| :: StructLineDefined(structs[i])
    ensures |r| == |structs|
    ensures forall i | 0 <= i < |structs| :: r[i] == StructLine(structs[i], casing)
  {
    seq(|structs|, i requires 0 <= i < |structs| => StructLine(structs[i], casing))
  }

  function EnumLines(enums: seq<EnumElement>, casing: Casing): (r: seq<string>)
    requires forall i | 0 <= i < |enums| :: EnumLineDefined(enums[i])
    ensures |r| == |enums|
    ensures forall i | 0 <= i < |enums| :: r[i] == EnumLine(enums[i], casing)
  {
    seq(|enums|, i requires 0 <= i < |enums| => EnumLine(enums[i], casing))
  }

  const API_HEAD: string := "\n# API Reference\n\n## Structs/Datamodels\n\n```rust\n"
  const API_MIDDLE: string := "\n```\n---\n\n## Enums\n\n```rust\n"
  const API_TAIL: string := "\n```\n---\n\n        \n"

  /** `gen_md_docs`, reference part: the struct block, then the enum block. */
  function ApiReference(structs: seq<StructElement>, enums: seq<EnumElement>, casing: Casing): string
    requires forall i | 0 <= i < |structs| :: StructLineDefined(structs[i])
    requires forall i | 0 <= i < |enums| :: EnumLineDefined(enums[i])
  {
    API_HEAD + Join(StructLines(structs, casing), "\n\n") + API_MIDDLE + (Join(EnumLines(enums, casing), "\n\n") + API_TAIL)
  }

  /** The reference holds the struct lines in order right after its head, and
      the enum lines in order right before its end. */
  lemma ApiReferenceLayout(structs: seq<StructElement>, enums: seq<EnumElement>, casing: Casing)
    requires forall i | 0 <= i < |structs| :: StructLineDefined(structs[i])
    requires forall i | 0 <= i < |enums| :: EnumLineDefined(enums[i])
    ensures StartsWith(ApiReference(structs, enums, casing), API_HEAD + Join(StructLines(structs, casing), "\n\n") + API_MIDDLE)
    ensures EndsWith(ApiReference(structs, enums, casing), Join(EnumLines(enums, casing), "\n\n") + API_TAIL)
  {
    var left := API_HEAD + Join(StructLines(structs, casing), "\n\n") + API_MIDDLE;
    var right := Join(EnumLines(enums, casing), "\n\n") + API_TAIL;
    PrefixOfConcat(left, right);
    SuffixOfConcat(left, right);
  }

  /** `gen_md_docs`: the reference, then the service sections. */
  method GenMdDocs(data: Data, casing: Casing) returns (doc: string)
    requires forall i | 0 <= i < |data.structs| :: StructLineDefined(data.structs[i])
    requires forall i | 0 <= i < |data.enums| :: EnumLineDefined(data.enums[i])
    requires ServicesDocumentable(data.services)
    ensures doc == ApiReference(data.structs, data.enums, casing) + ServicesMd(data.services, casing)
  {
    doc := ApiReference(data.structs, data.enums, casing);
    var sections := GenServicesMd(data.services, casing);
    doc := doc + sections;
  }

  /** What an empty `error_codes.json` stands for. */
  const DEFAULT_ERROR_MESSAGES: ErrorMessages :=
    ErrorMessages("TODO", [ErrorMessage(0, "XXX", "Please populate error_codes.json", "None")])

  /** `get_error_messages`: the file's bytes, or the error reading it; an
      empty file gives the single placeholder message, any other content is
      parsed. */
  function GetErrorMessages(file: Result<seq<byte>, string>, parse: seq<byte> -> Result<ErrorMessages, string>): (r: Result<ErrorMessages, string>)
    ensures file.Failure? ==> r == Failure(file.error)
    ensures file == Success([]) ==> r.Success? && |r.value.codes| == 1 && r.value.codes[0].code == 0 && r.value.codes[0].symbol == "XXX"
    ensures file.Success? && file.value != [] ==> r == parse(file.value)
  {
    match file
    case Failure(e) => Failure(e)
    case Success(bytes) => if bytes == [] then Success(DEFAULT_ERROR_MESSAGES) else parse(bytes)
  }

  const ERROR_HEAD: string := ("\n# Error Messages\n" + "|Error Code|Error Symbol|Error Message|Error Source|\n" + "|----------|------------|-------------|------------|\n")

  function ErrorCells(m: ErrorMessage): (r: seq<string>)
    ensures |r| == 4
  {
    [IntToString(m.code), m.symbol, m.message, m.source]
  }

  /** One line of the error table. */
  function ErrorRow(m: ErrorMessage): string {
    RowText(ErrorCells(m)) + "\n"
  }

  /** An error row begins with the code and ends with the source, each
      between bars, and a line break. */
  lemma ErrorRowEnds(m: ErrorMessage)
    ensures StartsWith(ErrorRow(m), "|" + IntToString(m.code) + "|")
    ensures EndsWith(ErrorRow(m), "|" + m.source + "|\n")
  {
    var row := RowText(ErrorCells(m));
    RowTextEnds(ErrorCells(m));
    StartsWithExtend(row, "|" + IntToString(m.code) + "|", "\n");
    EndsWithExtend(row, "|" + m.source + "|", "\n");
    assert "|" + m.source + "|" + "\n" == "|" + m.source + "|\n";
  }

  /** An error row reads back into code, symbol, message and source when the
      texts hold no bar. */
  lemma ErrorRowReadsBack(m: ErrorMessage)
    requires '|' !in m.symbol && '|' !in m.message && '|' !in m.source
    ensures var row := ErrorRow(m);
            && row[|row| - 1] == '\n'
            && Split(row[..|row| - 1], "|") == ["", IntToString(m.code), m.symbol, m.message, m.source, ""]
  {
    var row := RowText(ErrorCells(m));
    assert (row + "\n")[..|row|] == row;
    assert '|' !in IntToString(m.code) by {
      var n := if m.code < 0 then -m.code else m.code;
      NatToStringRoundTrip(n);
      var d := NatToString(n);
      assert forall i | 0 <= i < |d| :: IsAsciiDigit(d[i]);
    }
    RowTextReadsBack(ErrorCells(m));
  }

  function ErrorRows(codes: seq<ErrorMessage>): string {
    Lines(codes, ErrorRow)
  }

  /** `gen_error_message_md`: the table head, then one row per code in order;
      an error getting the messages is returned as it is. */
  method GenErrorMessageMd(file: Result<seq<byte>, string>, parse: seq<byte> -> Result<ErrorMessages, string>)
    returns (r: Result<string, string>)
    ensures GetErrorMessages(file, parse).Failure? ==> r == Failure(GetErrorMessages(file, parse).error)
    ensures GetErrorMessages(file, parse).Success? ==> r == Success(ERROR_HEAD + ErrorRows(GetErrorMessages(file, parse).value.codes))
  {
    var definitions := GetErrorMessages(file, parse);
    if definitions.Failure? {
      return Failure(definitions.error);
    }
    var codes := definitions.value.codes;
    var rows := "";
    for i := 0 to |codes|
      invariant rows == ErrorRows(codes[..i])
    {
      LinesSnoc(codes, i, ErrorRow);
      rows := rows + ErrorRow(codes[i]);
    }
    assert codes[..|codes|] == codes;
    return Success(ERROR_HEAD + rows);
  }

  /** An empty error-code file documents exactly the placeholder row. */
  lemma EmptyErrorFileMd(parse: seq<byte> -> Result<ErrorMessages, string>)
    ensures GetErrorMessages(Success([]), parse).Success?
    ensures ERROR_HEAD + ErrorRows(GetErrorMessages(Success([]), parse).value.codes)
            == ERROR_HEAD + ErrorRow(ErrorMessage(0, "XXX", "Please populate error_codes.json", "None"))
  {
    var codes := DEFAULT_ERROR_MESSAGES.codes;
    assert codes[..0] == [];
  }
}
