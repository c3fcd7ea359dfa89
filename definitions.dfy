/** The definition files' vocabulary (`src/definitions.rs`): the kinds of
    definition a RON file holds, their validation, the Rust renderings of enum
    and struct elements, and the endpoint schema elements. The default derive
    lists of `Type` (`add_default_enum_derives`, `add_default_struct_derives`)
    belong to `endpoint_libs`, which is not part of this model; they are
    parameters. */
module Definitions {

  import opened Wrappers
  import opened Text
  import opened Sorting
  import opened Model
  import opened RustGen

  /** Missing flags deserialize to false. */
  datatype RustGenConfig = RustGenConfig(prefixEnum: bool, worktableSupport: bool)

  const DEFAULT_CONFIG: RustGenConfig := RustGenConfig(false, false)

  datatype EnumElement = EnumElement(config: RustGenConfig, inner: Type)

  datatype StructElement = StructElement(config: RustGenConfig, inner: Type)

  datatype EndpointSchemaElement = EndpointSchemaElement(frontendFacing: bool, schema: EndpointSchema)

  datatype EndpointSchemaDefinition = EndpointSchemaDefinition(serviceName: string, serviceId: nat, schema: EndpointSchemaElement)

  datatype EndpointSchemaListDefinition = EndpointSchemaListDefinition(serviceName: string, serviceId: nat, endpoints: seq<EndpointSchemaElement>)

  datatype Definition =
    | SchemaDefinition(schemaDef: EndpointSchemaDefinition)
    | SchemaListDefinition(listDef: EndpointSchemaListDefinition)
    | EnumDefinition(enumElement: EnumElement)
    | EnumListDefinition(enumElements: seq<EnumElement>)
    | StructDefinition(structElement: StructElement)
    | StructListDefinition(structElements: seq<StructElement>)

  /** A service of the generator: its name, id and endpoint elements. */
  datatype GenService = GenService(name: string, id: nat, endpoints: seq<EndpointSchemaElement>)

  /** `Type::add_default_enum_derives` and `Type::add_default_struct_derives`. */
  datatype DefaultDerives = DefaultDerives(enumDerives: string -> string, structDerives: string -> string)

  /** An endpoint schema element as deserialized: `frontend_facing` is true
      when the file does not set it. */
  function ElementOf(frontendFacing: Option<bool>, schema: EndpointSchema): (r: EndpointSchemaElement)
    ensures r.schema == schema
    ensures r.frontendFacing <==> (frontendFacing.None? || frontendFacing.value)
  {
    EndpointSchemaElement(if frontendFacing.Some? then frontendFacing.value else true, schema)
  }

  function ValidateEnum(e: EnumElement): (r: Outcome<string>)
    ensures r.Pass? <==> e.inner.Enum?
    ensures r.Fail? ==> r.error == "Expected enum type"
  {
    if e.inner.Enum? then Pass else Fail("Expected enum type")
  }

  function ValidateStruct(s: StructElement): (r: Outcome<string>)
    ensures r.Pass? <==> s.inner.Struct?
    ensures r.Fail? ==> r.error == "Expected struct type"
  {
    if s.inner.Struct? then Pass else Fail("Expected struct type")
  }

  /** The loop over an enum list: the first invalid item's error. */
  function ValidateEnums(list: seq<EnumElement>): (r: Outcome<string>)
    ensures r.Fail? ==> r.error == "Expected enum type"
    decreases |list|
  {
    if list == [] then Pass
    else if ValidateEnum(list[0]).Fail? then ValidateEnum(list[0])
    else ValidateEnums(list[1..])
  }

  function ValidateStructs(list: seq<StructElement>): (r: Outcome<string>)
    ensures r.Fail? ==> r.error == "Expected struct type"
    decreases |list|
  {
    if list == [] then Pass
    else if ValidateStruct(list[0]).Fail? then ValidateStruct(list[0])
    else ValidateStructs(list[1..])
  }

  /** `Definition::validate_self`: schema definitions always pass; enum
      definitions can only fail as enums, struct definitions as structs. */
  function ValidateSelf(d: Definition): (r: Outcome<string>)
    ensures d.SchemaDefinition? || d.SchemaListDefinition? ==> r.Pass?
    ensures (d.EnumDefinition? || d.EnumListDefinition?) && r.Fail? ==> r.error == "Expected enum type"
    ensures (d.StructDefinition? || d.StructListDefinition?) && r.Fail? ==> r.error == "Expected struct type"
  {
    match d
    case EnumDefinition(e) => ValidateEnum(e)
    case EnumListDefinition(list) => ValidateEnums(list)
    case StructDefinition(s) => ValidateStruct(s)
    case StructListDefinition(list) => ValidateStructs(list)
    case SchemaDefinition(_) => Pass
    case SchemaListDefinition(_) => Pass
  }

  /** An enum list is valid iff every item is an enum; otherwise the error is
      the one of the first item that is not. */
  lemma ValidateEnumsIff(list: seq<EnumElement>)
    ensures ValidateEnums(list).Pass? <==> forall i | 0 <= i < |list| :: list[i].inner.Enum?
    ensures ValidateEnums(list).Fail? ==>
      exists i | 0 <= i < |list| :: && !list[i].inner.Enum?
                                    && (forall j | 0 <= j < i :: list[j].inner.Enum?)
                                    && ValidateEnums(list) == ValidateEnum(list[i])
  {
    ValidateEnumsPass(list);
    if ValidateEnums(list).Fail? {
      ValidateEnumsFirst(list);
    }
  }

  lemma {:induction false} ValidateEnumsPass(list: seq<EnumElement>)
    ensures ValidateEnums(list).Pass? <==> forall i | 0 <= i < |list| :: list[i].inner.Enum?
    decreases |list|
  {
    if list != [] {
      ValidateEnumsPass(list[1..]);
      assert forall i | 1 <= i < |list| :: list[i] == list[1..][i - 1];
    }
  }

  lemma {:induction false} ValidateEnumsFirst(list: seq<EnumElement>)
    requires ValidateEnums(list).Fail?
    ensures exists i | 0 <= i < |list| :: && !list[i].inner.Enum?
                                          && (forall j | 0 <= j < i :: list[j].inner.Enum?)
                                          && ValidateEnums(list) == ValidateEnum(list[i])
    decreases |list|
  {
    if ValidateEnum(list[0]).Pass? {
      ValidateEnumsFirst(list[1..]);
      var i :| 0 <= i < |list[1..]| && !list[1..][i].inner.Enum? && (forall j | 0 <= j < i :: list[1..][j].inner.Enum?)
               && ValidateEnums(list[1..]) == ValidateEnum(list[1..][i]);
      forall j | 0 <= j < i + 1 ensures list[j].inner.Enum? {
        if j > 0 { assert list[j] == list[1..][j - 1]; }
      }
      assert list[i + 1] == list[1..][i];
    } else {
      assert !list[0].inner.Enum?;
    }
  }

  /** A struct list is valid iff every item is a struct; otherwise the error
      is the one of the first item that is not. */
  lemma ValidateStructsIff(list: seq<StructElement>)
    ensures ValidateStructs(list).Pass? <==> forall i | 0 <= i < |list| :: list[i].inner.Struct?
    ensures ValidateStructs(list).Fail? ==>
      exists i | 0 <= i < |list| :: && !list[i].inner.Struct?
                                    && (forall j | 0 <= j < i :: list[j].inner.Struct?)
                                    && ValidateStructs(list) == ValidateStruct(list[i])
  {
    ValidateStructsPass(list);
    if ValidateStructs(list).Fail? {
      ValidateStructsFirst(list);
    }
  }

  lemma {:induction false} ValidateStructsPass(list: seq<StructElement>)
    ensures ValidateStructs(list).Pass? <==> forall i | 0 <= i < |list| :: list[i].inner.Struct?
    decreases |list|
  {
    if list != [] {
      ValidateStructsPass(list[1..]);
      assert forall i | 1 <= i < |list| :: list[i] == list[1..][i - 1];
    }
  }

  lemma {:induction false} ValidateStructsFirst(list: seq<StructElement>)
    requires ValidateStructs(list).Fail?
    ensures exists i | 0 <= i < |list| :: && !list[i].inner.Struct?
                                          && (forall j | 0 <= j < i :: list[j].inner.Struct?)
                                          && ValidateStructs(list) == ValidateStruct(list[i])
    decreases |list|
  {
    if ValidateStruct(list[0]).Pass? {
      ValidateStructsFirst(list[1..]);
      var i :| 0 <= i < |list[1..]| && !list[1..][i].inner.Struct? && (forall j | 0 <= j < i :: list[1..][j].inner.Struct?)
               && ValidateStructs(list[1..]) == ValidateStruct(list[1..][i]);
      forall j | 0 <= j < i + 1 ensures list[j].inner.Struct? {
        if j > 0 { assert list[j] == list[1..][j - 1]; }
      }
      assert list[i + 1] == list[1..][i];
    } else {
      assert !list[0].inner.Struct?;
    }
  }


  /** What validation accepts: enum definitions whose every inner type is an
      enum, struct definitions whose every inner type is a struct, and every
      endpoint definition. */
  predicate WellFormed(d: Definition) {
    match d
    case EnumDefinition(e) => e.inner.Enum?
    case EnumListDefinition(list) => forall i | 0 <= i < |list| :: list[i].inner.Enum?
    case StructDefinition(s) => s.inner.Struct?
    case StructListDefinition(list) => forall i | 0 <= i < |list| :: list[i].inner.Struct?
    case SchemaDefinition(_) => true
    case SchemaListDefinition(_) => true
  }

  lemma ValidateSelfIff(d: Definition)
    ensures ValidateSelf(d).Pass? <==> WellFormed(d)
    ensures ValidateSelf(d).Fail? ==> ValidateSelf(d).error in {"Expected enum type", "Expected struct type"}
  {
    match d
    case EnumListDefinition(list) => ValidateEnumsIff(list);
    case StructListDefinition(list) => ValidateStructsIff(list);
    case _ =>
  }

  /** `EnumElement::to_rust_ref`: the Pascal case of the name, with an "Enum"
      prefix exactly when the config asks for it. */
  function EnumRustRef(e: EnumElement, casing: Casing): (r: string)
    requires e.inner.Enum?
    ensures e.config.prefixEnum ==> r == "Enum" + casing.pascal(e.inner.name)
    ensures !e.config.prefixEnum ==> r == casing.pascal(e.inner.name)
  {
    var name := casing.pascal(e.inner.name);
    if e.config.prefixEnum then "Enum" + name else name
  }

  /** With the prefix, an enum element is referred to as the plain `Type::Enum` is. */
  lemma EnumRustRefPrefixed(e: EnumElement, serdeWith: bool, casing: Casing)
    requires e.inner.Enum? && e.config.prefixEnum
    ensures EnumRustRef(e, casing) == ToRustRef(e.inner, serdeWith, casing)
  {
  }

  /** One rendered variant of an enum element: the doc comment, then the
      identifier and its value. */
  function VariantText(v: EnumVariant, casing: Casing): (r: string)
    requires |v.name| > 0
    ensures StartsWith(r, "\n    /// " + v.comment + "\n    ")
    ensures EndsWith(r, VariantLine(VariantIdent(v.name, casing), v.value))
  {
    var head := "\n    /// " + v.comment;
    var line := VariantLine(VariantIdent(v.name, casing), v.value);
    VariantLineIndented(VariantIdent(v.name, casing), v.value);
    IndentedAfter(head, line);
    SuffixOfConcat(head, line);
    head + line
  }

  /** The variant line of `Type`'s own enum declaration ends the same way. */
  lemma VariantTextMatchesTypeDecl(v: EnumVariant, casing: Casing)
    requires |v.name| > 0
    ensures EndsWith(VariantText(v, casing), VariantLine(VariantIdent(v.name, casing), v.value))
    ensures EndsWith(VariantDecl(v, casing), VariantLine(VariantIdent(v.name, casing), v.value))
  {
  }

  function VariantTexts(variants: seq<EnumVariant>, casing: Casing): (r: seq<string>)
    requires VariantsNamed(variants)
    ensures |r| == |variants|
    ensures forall i | 0 <= i < |variants| :: r[i] == VariantText(variants[i], casing)
  {
    seq(|variants|, i requires 0 <= i < |variants| => VariantText(variants[i], casing))
  }

  /** The length of the run of whitespace at the start of s. */
  function SpaceRun(s: string): (n: nat)
    ensures n <= |s|
    decreases |s|
  {
    if s != [] && IsWhitespace(s[0]) then 1 + SpaceRun(s[1..]) else 0
  }

  /** The length of the run of ASCII digits at the start of s. */
  function DigitRun(s: string): (n: nat)
    ensures n <= |s|
    ensures forall i | 0 <= i < n :: IsAsciiDigit(s[i])
    decreases |s|
  {
    if s != [] && IsAsciiDigit(s[0]) then 1 + DigitRun(s[1..]) else 0
  }

  /** The group captured by the first match of `=\s*(\d+)`: the digits after
      the leftmost '=' that is followed by optional whitespace and a digit. */
  function FirstCapture(s: string): (r: Option<string>)
    ensures r.Some? ==> |r.value| > 0 && AllDigits(r.value)
    decreases |s|
  {
    if s == [] then None
    else if s[0] == '=' && DigitRun(s[1 + SpaceRun(s[1..])..]) > 0 then
      var rest := s[1 + SpaceRun(s[1..])..];
      Some(rest[..DigitRun(rest)])
    else FirstCapture(s[1..])
  }

  const U64_LIMIT: nat := 0x1_0000_0000_0000_0000

  /** The sort key of a rendered variant: the captured number as a `u64`, and
      0 when there is no match or the number does not fit. */
  function SortKey(s: string): (k: nat)
    ensures k < U64_LIMIT
  {
    match FirstCapture(s)
    case None => 0
    case Some(d) => if DigitsValue(d) < U64_LIMIT then DigitsValue(d) else 0
  }

  function KeyLe(a: string, b: string): bool {
    SortKey(a) <= SortKey(b)
  }

  lemma KeyLeTotalPreorder()
    ensures TotalPreorder(KeyLe)
  {
  }

  /** The variants of an enum element in the order its declaration lists them. */
  function SortedVariants(variants: seq<EnumVariant>, casing: Casing): seq<string>
    requires VariantsNamed(variants)
  {
    SortBy(VariantTexts(variants, casing), KeyLe)
  }

  /** The listed variants are the rendered variants, reordered so their keys
      never decrease. */
  lemma SortedVariantsOrder(variants: seq<EnumVariant>, casing: Casing)
    requires VariantsNamed(variants)
    ensures multiset(SortedVariants(variants, casing)) == multiset(VariantTexts(variants, casing))
    ensures forall i, j | 0 <= i < j < |variants| :: SortKey(SortedVariants(variants, casing)[i]) <= SortKey(SortedVariants(variants, casing)[j])
  {
    KeyLeTotalPreorder();
    SortBySorted(VariantTexts(variants, casing), KeyLe);
  }

  /** Variants with the same key keep their relative order (`sorted_by` is stable). */
  lemma SortedVariantsStable(variants: seq<EnumVariant>, casing: Casing, c: nat)
    requires VariantsNamed(variants)
    ensures Filter(SortedVariants(variants, casing), (t: string) => SortKey(t) == c)
            == Filter(VariantTexts(variants, casing), (t: string) => SortKey(t) == c)
  {
    SortByStable(VariantTexts(variants, casing), KeyLe, (t: string) => SortKey(t) == c);
  }

  lemma {:induction false} FirstCaptureSkips(a: string, b: string)
    requires '=' !in a
    ensures FirstCapture(a + b) == FirstCapture(b)
    decreases |a|
  {
    if a != [] {
      assert (a + b)[0] == a[0];
      assert (a + b)[1..] == a[1..] + b;
      FirstCaptureSkips(a[1..], b);
    } else {
      assert a + b == b;
    }
  }

  lemma {:induction false} DigitRunOfDigits(d: string, rest: string)
    requires AllDigits(d)
    requires rest == [] || !IsAsciiDigit(rest[0])
    ensures DigitRun(d + rest) == |d|
    decreases |d|
  {
    if d != [] {
      assert (d + rest)[1..] == d[1..] + rest;
      DigitRunOfDigits(d[1..], rest);
    } else {
      assert d + rest == rest;
    }
  }

  /** "= " and a non-negative number's digits capture those digits. */
  lemma CaptureOfNat(n: nat)
    ensures FirstCapture("= " + NatToString(n) + "\n") == Some(NatToString(n))
  {
    var d := NatToString(n);
    NatToStringRoundTrip(n);
    var tail := d + "\n";
    var b := "= " + d + "\n";
    assert b[1..] == " " + tail;
    assert (" " + tail)[1..] == tail;
    assert !IsWhitespace(tail[0]);
    assert SpaceRun(tail) == 0;
    assert SpaceRun(b[1..]) == 1;
    assert b[2..] == tail;
    DigitRunOfDigits(d, "\n");
    assert tail[..|d|] == d;
    assert b[0] == '=';
  }

  /** "= -" and digits capture nothing: the '-' stops the match and no other
      '=' follows. */
  lemma CaptureOfNegative(n: nat)
    ensures FirstCapture("= -" + NatToString(n) + "\n") == None
  {
    var d := NatToString(n);
    NatToStringRoundTrip(n);
    var b := "= -" + d + "\n";
    var rest := " -" + d + "\n";
    assert b[1..] == rest;
    assert rest[1..] == "-" + d + "\n";
    assert SpaceRun(rest) == 1;
    assert b[2..] == "-" + d + "\n";
    assert DigitRun(b[2..]) == 0;
    assert '=' !in rest by {
      forall i | 0 <= i < |rest| ensures rest[i] != '=' {
        if 2 <= i < 2 + |d| { assert rest[i] == d[i - 2]; assert IsAsciiDigit(d[i - 2]); }
      }
    }
    FirstCaptureSkips(rest, "");
    assert rest + "" == rest;
  }

  /** A rendered variant is a part free of '=' (when the comment and the
      identifier are), followed by "= " and the value. */
  lemma VariantTextSplit(v: EnumVariant, casing: Casing)
    requires |v.name| > 0 && '=' !in v.comment && '=' !in VariantIdent(v.name, casing)
    ensures var a := "\n    /// " + v.comment + ("\n    " + VariantIdent(v.name, casing) + " ");
            && '=' !in a
            && VariantText(v, casing) == a + ("= " + IntToString(v.value) + "\n")
  {
    var p := "\n    /// " + v.comment;
    var q := "\n    " + VariantIdent(v.name, casing) + " ";
    var b := "= " + IntToString(v.value) + "\n";
    assert '=' !in p;
    assert '=' !in q;
    VariantLineSplit(VariantIdent(v.name, casing), v.value);
    assert VariantText(v, casing) == p + (q + b);
    assert p + (q + b) == (p + q) + b;
  }

  /** A variant line is the indented identifier and a space, then "= " and the value. */
  lemma VariantLineSplit(ident: string, value: int)
    ensures VariantLine(ident, value) == ("\n    " + ident + " ") + ("= " + IntToString(value) + "\n")
  {
    var v := IntToString(value);
    assert " = " == " " + "= ";
    assert "\n    " + ident + " = " + v + "\n" == "\n    " + ident + (" " + "= ") + v + "\n";
  }

  /** The key read from "= " and a value is that value when it fits in a
      `u64`, and 0 for a negative value. */
  lemma SortKeyOfValue(value: int)
    ensures 0 <= value < U64_LIMIT ==> SortKey("= " + IntToString(value) + "\n") == value
    ensures value < 0 ==> SortKey("= " + IntToString(value) + "\n") == 0
  {
    if value >= 0 {
      assert IntToString(value) == NatToString(value);
      CaptureOfNat(value);
      NatToStringRoundTrip(value);
    } else {
      assert "= " + IntToString(value) + "\n" == "= -" + NatToString(-value) + "\n";
      CaptureOfNegative(-value);
    }
  }

  /** The key of a rendered variant is its value, when neither its comment nor
      its identifier holds an '=' and the value fits in a `u64`; a negative
      value gives the key 0. */
  lemma SortKeyOfVariant(v: EnumVariant, casing: Casing)
    requires |v.name| > 0 && '=' !in v.comment && '=' !in VariantIdent(v.name, casing)
    ensures 0 <= v.value < U64_LIMIT ==> SortKey(VariantText(v, casing)) == v.value
    ensures v.value < 0 ==> SortKey(VariantText(v, casing)) == 0
  {
    var a := "\n    /// " + v.comment + ("\n    " + VariantIdent(v.name, casing) + " ");
    var b := "= " + IntToString(v.value) + "\n";
    VariantTextSplit(v, casing);
    FirstCaptureSkips(a, b);
    assert SortKey(VariantText(v, casing)) == SortKey(b);
    SortKeyOfValue(v.value);
  }

  const ENUM_WORKTABLE_HEAD: string :=
    "#[derive(\n"
    + "                    MemStat,\n"
    + "                    Archive,\n"
    + "                    Clone,\n"
    + "                    Copy,\n"
    + "                    Debug,\n"
    + "                    Display,\n"
    + "                    PartialEq,\n"
    + "                    PartialOrd,\n"
    + "                    Eq,\n"
    + "                    Hash,\n"
    + "                    Ord,\n"
    + "                    EnumString,\n"
    + "                    rkyv::Deserialize,\n"
    + "                    rkyv::Serialize,\n"
    + "                    serde::Serialize,\n"
    + "                    serde::Deserialize,\n"
    + "                )]\n"
    + "                #[rkyv(compare(PartialEq), derive(Debug))]\n"
    + "                #[repr(u8)]\n"
    + "                "
  const ENUM_WORKTABLE_TAIL: string := "\n            "
  const STRUCT_WORKTABLE_HEAD: string :=
    "#[derive(\n"
    + "                        Clone,\n"
    + "                        Copy,\n"
    + "                        Debug,\n"
    + "                        Default,\n"
    + "                        Eq,\n"
    + "                        Hash,\n"
    + "                        Ord,\n"
    + "                        PartialEq,\n"
    + "                        PartialOrd,\n"
    + "                        derive_more::Display,\n"
    + "                        derive_more::From,\n"
    + "                        derive_more::FromStr,\n"
    + "                        derive_more::Into,\n"
    + "                        MemStat,\n"
    + "                        rkyv::Archive,\n"
    + "                        SizeMeasure,\n"
    + "                        rkyv::Deserialize,\n"
    + "                        rkyv::Serialize,\n"
    + "                        serde::Serialize,\n"
    + "                        serde::Deserialize,\n"
    + "                    )]\n"
    + "                    #[rkyv(compare(PartialEq), derive(Debug, PartialOrd, PartialEq, Eq, Ord))]\n"
    + "                    "
  const STRUCT_WORKTABLE_TAIL: string := "\n                "

  /** `EnumElement::add_derives`: the worktable derive block around the input
      exactly when the config asks for worktable support, the default enum
      derives otherwise. */
  function EnumAddDerives(config: RustGenConfig, input: string, defaults: DefaultDerives): (r: string)
    ensures config.worktableSupport ==> StartsWith(r, ENUM_WORKTABLE_HEAD) && EndsWith(r, input + ENUM_WORKTABLE_TAIL)
    ensures !config.worktableSupport ==> r == defaults.enumDerives(input)
  {
    if config.worktableSupport then
      PrefixOfConcat(ENUM_WORKTABLE_HEAD, input + ENUM_WORKTABLE_TAIL);
      SuffixOfConcat(ENUM_WORKTABLE_HEAD, input + ENUM_WORKTABLE_TAIL);
      ENUM_WORKTABLE_HEAD + (input + ENUM_WORKTABLE_TAIL)
    else defaults.enumDerives(input)
  }

  /** `StructElement::add_derives`. */
  function StructAddDerives(config: RustGenConfig, input: string, defaults: DefaultDerives): (r: string)
    ensures config.worktableSupport ==> StartsWith(r, STRUCT_WORKTABLE_HEAD) && EndsWith(r, input + STRUCT_WORKTABLE_TAIL)
    ensures !config.worktableSupport ==> r == defaults.structDerives(input)
  {
    if config.worktableSupport then
      PrefixOfConcat(STRUCT_WORKTABLE_HEAD, input + STRUCT_WORKTABLE_TAIL);
      SuffixOfConcat(STRUCT_WORKTABLE_HEAD, input + STRUCT_WORKTABLE_TAIL);
      STRUCT_WORKTABLE_HEAD + (input + STRUCT_WORKTABLE_TAIL)
    else defaults.structDerives(input)
  }

  /** The enum declaration before derives: the element's reference name and
      the sorted variants. */
  function EnumBody(e: EnumElement, casing: Casing): (r: string)
    requires e.inner.Enum? && VariantsNamed(e.inner.variants)
    ensures StartsWith(r, "pub enum " + EnumRustRef(e, casing) + " {")
    ensures EndsWith(r, Join(SortedVariants(e.inner.variants, casing), ",") + "}")
  {
    var head := "pub enum " + EnumRustRef(e, casing) + " {";
    var tail := Join(SortedVariants(e.inner.variants, casing), ",") + "}";
    PrefixOfConcat(head, tail);
    SuffixOfConcat(head, tail);
    head + tail
  }

  /** `EnumElement::to_rust_decl`; an element that is not an enum is
      `unreachable!` after validation, and a variant with an empty name makes
      the source panic, so both are excluded here. */
  function EnumDecl(e: EnumElement, casing: Casing, defaults: DefaultDerives): (r: string)
    requires e.inner.Enum? && VariantsNamed(e.inner.variants)
    ensures e.config.worktableSupport ==> EndsWith(r, EnumBody(e, casing) + ENUM_WORKTABLE_TAIL)
    ensures !e.config.worktableSupport ==> r == defaults.enumDerives(EnumBody(e, casing))
  {
    EnumAddDerives(e.config, EnumBody(e, casing), defaults)
  }

  /** `StructElement::to_rust_ref`: the struct's name as written. */
  function StructRustRef(s: StructElement): (r: string)
    requires s.inner.Struct?
    ensures r == s.inner.name
  {
    s.inner.name
  }

  /** The struct declaration before derives: the Pascal-cased name and one
      field line per field, in order. */
  function StructBody(s: StructElement, serdeWith: bool, casing: Casing): (r: string)
    requires s.inner.Struct? && FieldsRustDefined(s.inner.fields)
    ensures StartsWith(r, "pub struct " + casing.pascal(s.inner.name) + " {")
    ensures EndsWith(r, Join(FieldDecls(s.inner.fields, serdeWith, casing), ",") + "}")
  {
    StructTypeDecl(casing.pascal(s.inner.name), s.inner.fields, serdeWith, casing)
  }

  /** `StructElement::to_rust_decl`. */
  function StructDecl(s: StructElement, serdeWith: bool, casing: Casing, defaults: DefaultDerives): (r: string)
    requires s.inner.Struct? && FieldsRustDefined(s.inner.fields)
    ensures s.config.worktableSupport ==> EndsWith(r, StructBody(s, serdeWith, casing) + STRUCT_WORKTABLE_TAIL)
    ensures !s.config.worktableSupport ==> r == defaults.structDerives(StructBody(s, serdeWith, casing))
  {
    StructAddDerives(s.config, StructBody(s, serdeWith, casing), defaults)
  }

  /** The element declares the name it is referred to by only when that name
      is already in Pascal case; the struct fields are written as `Type`'s
      declaration writes them. */
  lemma StructDeclAgreesWithType(s: StructElement, serdeWith: bool, casing: Casing)
    requires s.inner.Struct? && FieldsRustDefined(s.inner.fields)
    ensures RustDeclDefined(s.inner)
    ensures casing.pascal(s.inner.name) == s.inner.name ==>
      StructBody(s, serdeWith, casing) == ToRustDecl(s.inner, serdeWith, casing)
    ensures StartsWith(StructBody(s, serdeWith, casing), "pub struct " + StructRustRef(s) + " {")
            <== casing.pascal(s.inner.name) == s.inner.name
  {
  }

  /** `Into<EndpointSchema>`: every field of the element's schema, copied. */
  function IntoSchema(el: EndpointSchemaElement): (r: EndpointSchema)
    ensures r == el.schema
  {
    var s := el.schema;
    EndpointSchema(s.name, s.code, s.parameters, s.returnFields, s.streamResponse, s.description, s.jsonSchema, s.roles)
  }

  /** `FromIterator<EndpointSchemaElement> for Vec<EndpointSchema>`: the schemas, in order. */
  function SchemasOf(elements: seq<EndpointSchemaElement>): (r: seq<EndpointSchema>)
    ensures |r| == |elements|
    ensures forall i | 0 <= i < |elements| :: r[i] == elements[i].schema
    decreases |elements|
  {
    if elements == [] then [] else [elements[0].schema] + SchemasOf(elements[1..])
  }
}
