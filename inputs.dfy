/** The generator's front end (`src/main.rs`): selecting and loading the
    definition files, grouping the definitions into services, enums and
    structs, and the version compatibility check. Walking the directory,
    reading and parsing files and the semver crate are outside the model:
    the list of file paths, the loader and the version predicates are
    parameters. */
module Inputs {

  import opened Wrappers
  import opened Text
  import opened Sorting
  import opened Model
  import opened Definitions

  /** A path as its sequence of components. */
  type Path = seq<string>

  /** `Path::file_name`: the last component, unless it is "..". */
  function FileName(p: Path): (r: Option<string>)
    ensures r.Some? <==> |p| > 0 && p[|p| - 1] != ".."
    ensures r.Some? ==> r.value == p[|p| - 1]
  {
    if |p| > 0 && p[|p| - 1] != ".." then Some(p[|p| - 1]) else None
  }

  /** The position of the last '.' in s. */
  function LastDot(s: string): (r: Option<nat>)
    ensures r.Some? ==> r.value < |s|
    decreases |s|
  {
    if s == [] then None
    else if s[|s| - 1] == '.' then Some(|s| - 1)
    else LastDot(s[..|s| - 1])
  }

  /** The position found holds a dot and no dot follows it; none is found
      only in a string without dots. */
  lemma {:induction false} LastDotIsLast(s: string)
    ensures LastDot(s).Some? ==> s[LastDot(s).value] == '.' && forall j | LastDot(s).value < j < |s| :: s[j] != '.'
    ensures LastDot(s).None? ==> forall j | 0 <= j < |s| :: s[j] != '.'
    decreases |s|
  {
    if s != [] && s[|s| - 1] != '.' {
      var init := s[..|s| - 1];
      LastDotIsLast(init);
      assert forall j | 0 <= j < |init| :: init[j] == s[j];
    }
  }

  /** `OsStr` extension of a file name: what follows its last '.', unless
      that dot is the first character or the name is "..". */
  function Extension(name: string): Option<string>
  {
    if name == ".." then None
    else
      match LastDot(name)
      case None => None
      case Some(k) => if k == 0 then None else Some(name[k + 1..])
  }

  /** The extension is what follows a dot after the first character with no
      dot beyond it; there is none exactly for ".." and for names without such a dot. */
  lemma ExtensionAfterLastDot(name: string)
    ensures Extension(name).Some? ==> exists k | 0 < k < |name| :: && name[k] == '.' && name[k + 1..] == Extension(name).value
                                                                 && forall j | k < j < |name| :: name[j] != '.'
    ensures Extension(name).None? <==> name == ".." || forall k | 0 < k < |name| :: name[k] != '.'
  {
    LastDotIsLast(name);
  }

  /** A RON definition file: its file name has the extension "ron". */
  predicate IsRonFile(p: Path) {
    FileName(p).Some? && Extension(FileName(p).value) == Some("ron")
  }

  /** Any file name with a non-empty stem and the ".ron" ending is a RON file. */
  lemma RonNames(stem: string)
    requires stem != []
    ensures Extension(stem + ".ron") == Some("ron")
  {
    var name := stem + ".ron";
    assert name[..|stem| + 3] == stem + ".ro";
    assert (stem + ".ro")[..|stem| + 2] == stem + ".r";
    assert (stem + ".r")[..|stem| + 1] == stem + ".";
    assert LastDot(stem + ".") == Some(|stem|);
    assert LastDot(stem + ".r") == Some(|stem|);
    assert LastDot(stem + ".ro") == Some(|stem|);
    assert LastDot(name) == Some(|stem|);
    assert name[|stem| + 1..] == "ron";
  }

  /** version.toml is never a RON file. */
  lemma VersionTomlIsNotRon()
    ensures Extension("version.toml") == Some("toml")
  {
    var name := "version.toml";
    assert name[7] == '.';
    assert forall j | 7 < j < |name| :: name[j] != '.';
    var r := Extension(name);
    ExtensionAfterLastDot(name);
    assert r.Some?;
    var k :| 0 < k < |name| && name[k] == '.' && name[k + 1..] == r.value && forall j | k < j < |name| :: name[j] != '.';
    assert k == 7;
    assert name[8..] == "toml";
  }

  /** `process_file`: a RON file is read and parsed (`load`); every other
      file yields nothing. */
  function ProcessFile(p: Path, load: Path -> Result<Definition, string>): (r: Result<Option<Definition>, string>)
    ensures !IsRonFile(p) ==> r == Success(None)
    ensures IsRonFile(p) && load(p).Success? ==> r == Success(Some(load(p).value))
    ensures IsRonFile(p) && load(p).Failure? ==> r == Failure(load(p).error)
  {
    if IsRonFile(p) then
      match load(p)
      case Success(d) => Success(Some(d))
      case Failure(e) => Failure(e)
    else Success(None)
  }

  /** A version.toml beside the definitions can never make loading fail, so
      the branch that keeps quiet about it never runs. */
  lemma VersionTomlNeverFails(p: Path, load: Path -> Result<Definition, string>)
    requires FileName(p) == Some("version.toml")
    ensures ProcessFile(p, load) == Success(None)
  {
    VersionTomlIsNotRon();
  }

  /** The version file that may sit beside the definitions. */
  const VERSION_FILE: string := "version.toml"

  const NO_VALID_FILES: string := ("No valid RON config files found in given path, " + "aborting generation process")

  /** A file that failed to load, and why; the source writes it to stderr. */
  datatype Report = Report(path: Path, error: string)

  /** The definitions the visited files yield, in visiting order. */
  function Loaded(paths: seq<Path>, load: Path -> Result<Definition, string>): seq<Definition> {
    ConcatMap(paths, p => LoadedOf(p, load))
  }

  /** The definition one visited file yields, if any. */
  function LoadedOf(p: Path, load: Path -> Result<Definition, string>): seq<Definition> {
    match ProcessFile(p, load)
    case Success(Some(d)) => [d]
    case _ => []
  }

  /** A definition is loaded iff some visited RON file loads to it. */
  lemma LoadedMembership(paths: seq<Path>, load: Path -> Result<Definition, string>, d: Definition)
    ensures d in Loaded(paths, load) <==> exists i | 0 <= i < |paths| :: IsRonFile(paths[i]) && load(paths[i]) == Success(d)
  {
    var f := p => LoadedOf(p, load);
    if d in Loaded(paths, load) {
      ConcatMapSound(paths, f, d);
      var i :| 0 <= i < |paths| && d in LoadedOf(paths[i], load);
      assert IsRonFile(paths[i]) && load(paths[i]) == Success(d);
    }
    if exists i | 0 <= i < |paths| :: IsRonFile(paths[i]) && load(paths[i]) == Success(d) {
      var i :| 0 <= i < |paths| && IsRonFile(paths[i]) && load(paths[i]) == Success(d);
      assert d in LoadedOf(paths[i], load);
      ConcatMapComplete(paths, f, d, i);
    }
  }

  /** Whether a failure to load this file is reported. */
  predicate Reported(p: Path, load: Path -> Result<Definition, string>) {
    ProcessFile(p, load).Failure? && FileName(p).Some? && FileName(p).value != VERSION_FILE
  }

  /** The failures reported, in visiting order. */
  function Reports(paths: seq<Path>, load: Path -> Result<Definition, string>): seq<Report> {
    ConcatMap(paths, p => ReportOf(p, load))
  }

  /** The report one visited file adds, if any. */
  function ReportOf(p: Path, load: Path -> Result<Definition, string>): seq<Report> {
    if Reported(p, load) then [Report(p, ProcessFile(p, load).error)] else []
  }

  /** The report r is the failure of RON file p, which is not named version.toml. */
  predicate FailedFile(p: Path, load: Path -> Result<Definition, string>, r: Report) {
    && p == r.path && IsRonFile(r.path) && load(r.path) == Failure(r.error)
    && FileName(r.path).value != VERSION_FILE
  }

  lemma ReportOfMembership(p: Path, load: Path -> Result<Definition, string>, r: Report)
    ensures r in ReportOf(p, load) <==> FailedFile(p, load, r)
  {
  }

  /** Every reported failure is the failure of some visited file. */
  lemma ReportsSound(paths: seq<Path>, load: Path -> Result<Definition, string>, r: Report)
    requires r in Reports(paths, load)
    ensures exists i | 0 <= i < |paths| :: FailedFile(paths[i], load, r)
  {
    ConcatMapSound(paths, p => ReportOf(p, load), r);
    var i :| 0 <= i < |paths| && r in ReportOf(paths[i], load);
    ReportOfMembership(paths[i], load, r);
  }

  /** The failure of the i-th visited file is reported. */
  lemma ReportsComplete(paths: seq<Path>, load: Path -> Result<Definition, string>, r: Report, i: nat)
    requires i < |paths| && FailedFile(paths[i], load, r)
    ensures r in Reports(paths, load)
  {
    ReportOfMembership(paths[i], load, r);
    ConcatMapComplete(paths, p => ReportOf(p, load), r, i);
  }

  /** A failure is reported iff it is the failure of a visited RON file that is
      not named version.toml. */
  lemma ReportsMembership(paths: seq<Path>, load: Path -> Result<Definition, string>, r: Report)
    ensures r in Reports(paths, load) <==> exists i | 0 <= i < |paths| :: FailedFile(paths[i], load, r)
  {
    if r in Reports(paths, load) {
      ReportsSound(paths, load, r);
    }
    if exists i | 0 <= i < |paths| :: FailedFile(paths[i], load, r) {
      var i :| 0 <= i < |paths| && FailedFile(paths[i], load, r);
      ReportsComplete(paths, load, r, i);
    }
  }

  /** Files are visited in path order, and every file is visited once. */
  lemma VisitOrder(files: seq<Path>)
    ensures SortedBy(PathLe, SortBy(files, PathLe))
    ensures multiset(SortBy(files, PathLe)) == multiset(files)
  {
    PathLeTotalPreorder();
    SortBySorted(files, PathLe);
  }

  /** `process_input_files`: the files visited in sorted path order; each RON
      file's definition is kept, a failure is reported (except for a file
      named version.toml) and skipped; no definition at all is an error. */
  method ProcessInputFiles(files: seq<Path>, load: Path -> Result<Definition, string>)
    returns (r: Result<seq<Definition>, string>, reports: seq<Report>)
    ensures var visited := SortBy(files, PathLe);
      && reports == Reports(visited, load)
      && (Loaded(visited, load) == [] ==> r == Failure(NO_VALID_FILES))
      && (Loaded(visited, load) != [] ==> r == Success(Loaded(visited, load)))
  {
    var paths := SortBy(files, PathLe);
    var configs: seq<Definition> := [];
    var counter := 0;
    reports := [];
    for i := 0 to |paths|
      invariant configs == Loaded(paths[..i], load)
      invariant counter == |configs|
      invariant reports == Reports(paths[..i], load)
    {
      assert paths[..i + 1][..i] == paths[..i];
      assert Reports(paths[..i + 1], load) == reports + ReportOf(paths[i], load);
      assert Loaded(paths[..i + 1], load) == configs + LoadedOf(paths[i], load);
      match ProcessFile(paths[i], load) {
        case Success(config) =>
          if config.Some? {
            configs := configs + [config.value];
            counter := counter + 1;
          }
        case Failure(err) =>
          match FileName(paths[i]) {
            case Some(name) =>
              if name != VERSION_FILE {
                reports := reports + [Report(paths[i], err)];
              }
            case None =>
          }
      }
    }
    assert paths[..|paths|] == paths;
    if counter == 0 {
      return Failure(NO_VALID_FILES), reports;
    }
    return Success(configs), reports;
  }

  /** A service's identity: its name and id. */
  type Key = (string, nat)

  function KeyOf(s: GenService): Key {
    (s.name, s.id)
  }

  /** The service an endpoint definition belongs to. */
  function DefKey(d: Definition): Option<Key> {
    match d
    case SchemaDefinition(s) => Some((s.serviceName, s.serviceId))
    case SchemaListDefinition(l) => Some((l.serviceName, l.serviceId))
    case _ => None
  }

  /** The endpoint elements a definition contributes. */
  function DefSchemas(d: Definition): seq<EndpointSchemaElement> {
    match d
    case SchemaDefinition(s) => [s.schema]
    case SchemaListDefinition(l) => l.endpoints
    case _ => []
  }

  function DefEnums(d: Definition): seq<EnumElement> {
    match d
    case EnumDefinition(e) => [e]
    case EnumListDefinition(list) => list
    case _ => []
  }

  function DefStructs(d: Definition): seq<StructElement> {
    match d
    case StructDefinition(s) => [s]
    case StructListDefinition(list) => list
    case _ => []
  }

  /** The keys of all endpoint definitions, including lists with no endpoints. */
  function KeysOf(configs: seq<Definition>): set<Key>
    decreases |configs|
  {
    if configs == [] then {}
    else
      var d := configs[|configs| - 1];
      KeysOf(configs[..|configs| - 1]) + (if DefKey(d).Some? then {DefKey(d).value} else {})
  }

  /** The endpoints defined for one service, in definition order. */
  function SchemasFor(configs: seq<Definition>, k: Key): seq<EndpointSchemaElement>
    decreases |configs|
  {
    if configs == [] then []
    else
      var d := configs[|configs| - 1];
      SchemasFor(configs[..|configs| - 1], k) + (if DefKey(d) == Some(k) then DefSchemas(d) else [])
  }

  /** The number of endpoints all definitions supply. */
  function SchemaCount(configs: seq<Definition>): nat
    decreases |configs|
  {
    if configs == [] then 0 else SchemaCount(configs[..|configs| - 1]) + |DefSchemas(configs[|configs| - 1])|
  }

  function EnumsOf(configs: seq<Definition>): seq<EnumElement>
    decreases |configs|
  {
    if configs == [] then [] else EnumsOf(configs[..|configs| - 1]) + DefEnums(configs[|configs| - 1])
  }

  function StructsOf(configs: seq<Definition>): seq<StructElement>
    decreases |configs|
  {
    if configs == [] then [] else StructsOf(configs[..|configs| - 1]) + DefStructs(configs[|configs| - 1])
  }

  /** A service no definition names has no endpoints. */
  lemma {:induction false} SchemasForUnknown(configs: seq<Definition>, k: Key)
    requires k !in KeysOf(configs)
    ensures SchemasFor(configs, k) == []
    decreases |configs|
  {
    if configs != [] {
      SchemasForUnknown(configs[..|configs| - 1], k);
    }
  }

  /** The endpoint count of the services, summed. */
  function EndpointCount(services: seq<GenService>): nat
    decreases |services|
  {
    if services == [] then 0 else EndpointCount(services[..|services| - 1]) + |services[|services| - 1].endpoints|
  }

  /** The sizes of the map's entries for the given keys, summed. */
  ghost function SizeSum(m: map<Key, seq<EndpointSchemaElement>>, keys: set<Key>): nat
    requires keys <= m.Keys
    decreases keys
  {
    if keys == {} then 0 else var k :| k in keys; |m[k]| + SizeSum(m, keys - {k})
  }

  lemma {:induction false} SizeSumRemove(m: map<Key, seq<EndpointSchemaElement>>, keys: set<Key>, x: Key)
    requires keys <= m.Keys && x in keys
    ensures SizeSum(m, keys) == |m[x]| + SizeSum(m, keys - {x})
    decreases keys
  {
    var y :| y in keys && SizeSum(m, keys) == |m[y]| + SizeSum(m, keys - {y});
    if y != x {
      SizeSumRemove(m, keys - {y}, x);
      SizeSumRemove(m, keys - {x}, y);
      assert keys - {y} - {x} == keys - {x} - {y};
    }
  }

  lemma {:induction false} SizeSumAgree(m1: map<Key, seq<EndpointSchemaElement>>, m2: map<Key, seq<EndpointSchemaElement>>, keys: set<Key>)
    requires keys <= m1.Keys && keys <= m2.Keys
    requires forall k | k in keys :: m1[k] == m2[k]
    ensures SizeSum(m1, keys) == SizeSum(m2, keys)
    decreases keys
  {
    if keys != {} {
      var x :| x in keys;
      SizeSumRemove(m1, keys, x);
      SizeSumRemove(m2, keys, x);
      SizeSumAgree(m1, m2, keys - {x});
    }
  }

  /** Replacing one entry changes the sum by the difference in its size. */
  lemma SizeSumUpdate(m: map<Key, seq<EndpointSchemaElement>>, k: Key, v: seq<EndpointSchemaElement>)
    ensures SizeSum(m[k := v], m.Keys + {k}) + (if k in m then |m[k]| else 0) == SizeSum(m, m.Keys) + |v|
  {
    var m' := m[k := v];
    var keys := m.Keys;
    if k in m {
      assert m'.Keys == keys && keys + {k} == keys;
      SizeSumRemove(m', keys, k);
      SizeSumAgree(m', m, keys - {k});
      SizeSumRemove(m, keys, k);
    } else {
      assert m'.Keys == keys + {k};
      SizeSumRemove(m', keys + {k}, k);
      assert (keys + {k}) - {k} == keys;
      SizeSumAgree(m', m, keys);
    }
  }

  function IdLe(a: GenService, b: GenService): bool {
    a.id <= b.id
  }

  function CodeLe(a: EndpointSchemaElement, b: EndpointSchemaElement): bool {
    a.schema.code <= b.schema.code
  }

  lemma IdLeTotalPreorder()
    ensures TotalPreorder(IdLe)
  {
  }

  lemma CodeLeTotalPreorder()
    ensures TotalPreorder(CodeLe)
  {
  }

  /** Sorting services keeps every service, so it keeps the endpoint count. */
  lemma {:induction false} EndpointCountInsert(x: GenService, s: seq<GenService>, le: (GenService, GenService) -> bool)
    ensures EndpointCount(InsertBy(x, s, le)) == |x.endpoints| + EndpointCount(s)
    decreases |s|
  {
    var r := InsertBy(x, s, le);
    if s == [] {
      assert r == [x];
    } else if le(x, s[0]) {
      EndpointCountFront(x, s);
    } else {
      EndpointCountInsert(x, s[1..], le);
      EndpointCountFront(s[0], InsertBy(x, s[1..], le));
      EndpointCountFront(s[0], s[1..]);
      assert s == [s[0]] + s[1..];
    }
  }

  lemma {:induction false} EndpointCountFront(x: GenService, s: seq<GenService>)
    ensures EndpointCount([x] + s) == |x.endpoints| + EndpointCount(s)
    decreases |s|
  {
    if s != [] {
      var t := [x] + s;
      assert t[..|t| - 1] == [x] + s[..|s| - 1];
      assert t[|t| - 1] == s[|s| - 1];
      EndpointCountFront(x, s[..|s| - 1]);
    } else {
      assert [x] + s == [x];
      assert ([x] + s)[..0] == [];
    }
  }

  lemma {:induction false} EndpointCountSort(s: seq<GenService>, le: (GenService, GenService) -> bool)
    ensures EndpointCount(SortBy(s, le)) == EndpointCount(s)
    decreases |s|
  {
    if s != [] {
      EndpointCountSort(s[1..], le);
      EndpointCountInsert(s[0], SortBy(s[1..], le), le);
      EndpointCountFront(s[0], s[1..]);
      assert s == [s[0]] + s[1..];
    }
  }

  /** The same services with their endpoints sorted by code. */
  function WithSortedEndpoints(services: seq<GenService>): (r: seq<GenService>)
    ensures |r| == |services|
    ensures forall i | 0 <= i < |services| :: r[i] == services[i].(endpoints := SortBy(services[i].endpoints, CodeLe))
  {
    seq(|services|, i requires 0 <= i < |services| => services[i].(endpoints := SortBy(services[i].endpoints, CodeLe)))
  }

  /** Sorting each service's endpoints loses no endpoint. */
  lemma {:induction false} WithSortedEndpointsCount(services: seq<GenService>)
    ensures EndpointCount(WithSortedEndpoints(services)) == EndpointCount(services)
    decreases |services|
  {
    if services != [] {
      var init := services[..|services| - 1];
      var r := WithSortedEndpoints(services);
      WithSortedEndpointsCount(init);
      assert r[..|r| - 1] == WithSortedEndpoints(init);
      assert |r[|r| - 1].endpoints| == |services[|services| - 1].endpoints|;
    }
  }

  /** What `build_object_lists` returns. */
  datatype InputObjects = InputObjects(services: seq<GenService>, enums: seq<EnumElement>, structs: seq<StructElement>)

  /** The map after merging one more definition's endpoints into it. */
  function Merge(m: map<Key, seq<EndpointSchemaElement>>, d: Definition): map<Key, seq<EndpointSchemaElement>> {
    match DefKey(d)
    case None => m
    case Some(key) => m[key := (if key in m then m[key] else []) + DefSchemas(d)]
  }

  /** What the grouping map holds after the given definitions. */
  ghost predicate Grouped(m: map<Key, seq<EndpointSchemaElement>>, done: seq<Definition>) {
    && m.Keys == KeysOf(done)
    && (forall k | k in m :: m[k] == SchemasFor(done, k))
    && SizeSum(m, m.Keys) == SchemaCount(done)
  }

  lemma MergeStep(m: map<Key, seq<EndpointSchemaElement>>, done: seq<Definition>, d: Definition)
    requires Grouped(m, done)
    ensures Grouped(Merge(m, d), done + [d])
  {
    var next := done + [d];
    assert next[..|next| - 1] == done;
    assert next[|next| - 1] == d;
    MergeKeys(m, done, d);
    MergeContents(m, done, d);
    MergeCount(m, done, d);
  }

  lemma MergeKeys(m: map<Key, seq<EndpointSchemaElement>>, done: seq<Definition>, d: Definition)
    requires m.Keys == KeysOf(done)
    ensures Merge(m, d).Keys == KeysOf(done + [d])
  {
    var next := done + [d];
    assert next[..|next| - 1] == done;
    assert next[|next| - 1] == d;
  }

  lemma MergeContents(m: map<Key, seq<EndpointSchemaElement>>, done: seq<Definition>, d: Definition)
    requires m.Keys == KeysOf(done)
    requires forall k | k in m :: m[k] == SchemasFor(done, k)
    ensures forall k | k in Merge(m, d) :: Merge(m, d)[k] == SchemasFor(done + [d], k)
  {
    var next := done + [d];
    assert next[..|next| - 1] == done;
    assert next[|next| - 1] == d;
    var merged := Merge(m, d);
    forall k | k in merged ensures merged[k] == SchemasFor(next, k) {
      assert SchemasFor(next, k) == SchemasFor(done, k) + (if DefKey(d) == Some(k) then DefSchemas(d) else []);
      if DefKey(d) == Some(k) && k !in m {
        SchemasForUnknown(done, k);
      }
    }
  }

  lemma MergeCount(m: map<Key, seq<EndpointSchemaElement>>, done: seq<Definition>, d: Definition)
    requires Grouped(m, done)
    ensures SizeSum(Merge(m, d), Merge(m, d).Keys) == SchemaCount(done + [d])
  {
    var next := done + [d];
    assert next[..|next| - 1] == done;
    assert next[|next| - 1] == d;
    assert SchemaCount(next) == SchemaCount(done) + |DefSchemas(d)|;
    match DefKey(d) {
      case None =>
      case Some(key) =>
        var prior := if key in m then m[key] else [];
        if key !in m { SchemasForUnknown(done, key); }
        assert prior == SchemasFor(done, key);
        SizeSumUpdate(m, key, prior + DefSchemas(d));
        assert Merge(m, d).Keys == m.Keys + {key};
    }
  }

  /** One more definition: merged into the map, and its enums and structs appended. */
  lemma GroupStep(m: map<Key, seq<EndpointSchemaElement>>, configs: seq<Definition>, i: nat)
    requires i < |configs| && Grouped(m, configs[..i])
    ensures Grouped(Merge(m, configs[i]), configs[..i + 1])
    ensures EnumsOf(configs[..i + 1]) == EnumsOf(configs[..i]) + DefEnums(configs[i])
    ensures StructsOf(configs[..i + 1]) == StructsOf(configs[..i]) + DefStructs(configs[i])
  {
    var done := configs[..i];
    assert configs[..i + 1] == done + [configs[i]];
    MergeStep(m, done, configs[i]);
    assert configs[..i + 1][..i] == done;
  }

  /** The grouping loop of `build_object_lists`: the endpoint definitions
      merged per service key, in definition order, and the enum and struct
      elements collected in definition order. */
  method GroupDefinitions(configs: seq<Definition>)
    returns (m: map<Key, seq<EndpointSchemaElement>>, enums: seq<EnumElement>, structs: seq<StructElement>)
    ensures m.Keys == KeysOf(configs)
    ensures forall k | k in m :: m[k] == SchemasFor(configs, k)
    ensures SizeSum(m, m.Keys) == SchemaCount(configs)
    ensures enums == EnumsOf(configs) && structs == StructsOf(configs)
  {
    m := map[];
    enums := [];
    structs := [];
    for i := 0 to |configs|
      invariant Grouped(m, configs[..i])
      invariant enums == EnumsOf(configs[..i]) && structs == StructsOf(configs[..i])
    {
      var d := configs[i];
      GroupStep(m, configs, i);
      ghost var merged := Merge(m, d);
      match DefKey(d) {
        case Some(key) =>
          var prior := if key in m then m[key] else [];
          m := m[key := prior + DefSchemas(d)];
        case None =>
      }
      assert m == merged;
      enums := enums + DefEnums(d);
      structs := structs + DefStructs(d);
    }
    assert configs[..|configs|] == configs;
  }

  /** One service per key of the map, in the map's iteration order, which the
      source leaves unspecified: every key gives exactly one service carrying
      that key's endpoints. */
  method EmitServices(m: map<Key, seq<EndpointSchemaElement>>) returns (services: seq<GenService>)
    ensures OnePerKey(m, services)
    ensures EndpointCount(services) == SizeSum(m, m.Keys)
  {
    services := [];
    var remaining := m.Keys;
    EmitStart(m);
    while remaining != {}
      invariant EmittedSoFar(m, remaining, services)
      decreases |remaining|
    {
      var k :| k in remaining;
      EmitStep(m, remaining, services, k);
      services := services + [GenService(k.0, k.1, m[k])];
      remaining := remaining - {k};
    }
    EmitDone(m, services);
  }

  /** The loop of `EmitServices` so far: one service for each key no longer
      remaining, with that key's endpoints. */
  ghost predicate EmittedSoFar(m: map<Key, seq<EndpointSchemaElement>>, remaining: set<Key>, services: seq<GenService>) {
    && remaining <= m.Keys
    && (forall i | 0 <= i < |services| :: KeyOf(services[i]) in m - remaining && services[i].endpoints == m[KeyOf(services[i])])
    && (forall i, j | 0 <= i < j < |services| :: KeyOf(services[i]) != KeyOf(services[j]))
    && (forall k | k in m && k !in remaining :: exists i | 0 <= i < |services| :: KeyOf(services[i]) == k)
    && EndpointCount(services) + SizeSum(m, remaining) == SizeSum(m, m.Keys)
  }

  lemma EmitStart(m: map<Key, seq<EndpointSchemaElement>>)
    ensures EmittedSoFar(m, m.Keys, [])
  {
  }

  lemma EmitDone(m: map<Key, seq<EndpointSchemaElement>>, services: seq<GenService>)
    requires EmittedSoFar(m, {}, services)
    ensures OnePerKey(m, services) && EndpointCount(services) == SizeSum(m, m.Keys)
  {
    assert (m - {}).Keys == m.Keys;
    assert SizeSum(m, {}) == 0;
  }

  lemma EmitStep(m: map<Key, seq<EndpointSchemaElement>>, remaining: set<Key>, services: seq<GenService>, k: Key)
    requires EmittedSoFar(m, remaining, services) && k in remaining
    ensures EmittedSoFar(m, remaining - {k}, services + [GenService(k.0, k.1, m[k])])
  {
    SizeSumRemove(m, remaining, k);
    var next := services + [GenService(k.0, k.1, m[k])];
    assert next[..|next| - 1] == services;
    assert KeyOf(next[|services|]) == k;
    assert EndpointCount(next) == EndpointCount(services) + |m[k]|;
    forall i | 0 <= i < |next|
      ensures KeyOf(next[i]) in m - (remaining - {k}) && next[i].endpoints == m[KeyOf(next[i])]
    {
      if i < |services| {
        assert next[i] == services[i];
      }
    }
    forall i, j | 0 <= i < j < |next| ensures KeyOf(next[i]) != KeyOf(next[j]) {
      assert next[i] == services[i];
      if j < |services| {
        assert next[j] == services[j];
      }
    }
    forall x | x in m && x !in remaining - {k} ensures exists i | 0 <= i < |next| :: KeyOf(next[i]) == x {
      if x == k {
        assert KeyOf(next[|services|]) == x;
      } else {
        var i :| 0 <= i < |services| && KeyOf(services[i]) == x;
        assert next[i] == services[i];
      }
    }
  }

  /** The services hold exactly one service per key of the endpoint
      definitions, each with all of that key's endpoints, ordered by code. */
  predicate ServicesOf(configs: seq<Definition>, services: seq<GenService>) {
    && (forall i | 0 <= i < |services| ::
          && KeyOf(services[i]) in KeysOf(configs)
          && services[i].endpoints == SortBy(SchemasFor(configs, KeyOf(services[i])), CodeLe))
    && (forall i, j | 0 <= i < j < |services| :: KeyOf(services[i]) != KeyOf(services[j]))
    && (forall k | k in KeysOf(configs) :: exists i | 0 <= i < |services| :: KeyOf(services[i]) == k)
  }

  /** The emitted services, one per key with that key's endpoints. */
  predicate OnePerKey(m: map<Key, seq<EndpointSchemaElement>>, services: seq<GenService>) {
    && (forall i | 0 <= i < |services| :: KeyOf(services[i]) in m && services[i].endpoints == m[KeyOf(services[i])])
    && (forall i, j | 0 <= i < j < |services| :: KeyOf(services[i]) != KeyOf(services[j]))
    && (forall k | k in m :: exists i | 0 <= i < |services| :: KeyOf(services[i]) == k)
  }

  /** Reordering the services keeps one service per key. */
  lemma OnePerKeyPermuted(m: map<Key, seq<EndpointSchemaElement>>, s: seq<GenService>, t: seq<GenService>)
    requires OnePerKey(m, s) && multiset(t) == multiset(s)
    ensures OnePerKey(m, t)
  {
    forall i | 0 <= i < |t| ensures KeyOf(t[i]) in m && t[i].endpoints == m[KeyOf(t[i])] {
      assert t[i] in multiset(s);
    }
    forall i, j | 0 <= i < j < |t| ensures KeyOf(t[i]) != KeyOf(t[j]) {
      DistinctKeysSurviveSort(s, t, i, j);
    }
    forall k | k in m ensures exists i | 0 <= i < |t| :: KeyOf(t[i]) == k {
      var e :| 0 <= e < |s| && KeyOf(s[e]) == k;
      assert s[e] in multiset(t);
    }
  }

  /** Sorting each service's endpoints turns the grouped map into the
      services of the definitions. */
  lemma SortedEndpointsServices(configs: seq<Definition>, m: map<Key, seq<EndpointSchemaElement>>, s: seq<GenService>)
    requires m.Keys == KeysOf(configs) && (forall k | k in m :: m[k] == SchemasFor(configs, k))
    requires OnePerKey(m, s)
    ensures ServicesOf(configs, WithSortedEndpoints(s))
  {
    var r := WithSortedEndpoints(s);
    forall i | 0 <= i < |r|
      ensures KeyOf(r[i]) in KeysOf(configs)
      ensures r[i].endpoints == SortBy(SchemasFor(configs, KeyOf(r[i])), CodeLe)
    {
      assert r[i] == s[i].(endpoints := SortBy(s[i].endpoints, CodeLe));
      assert KeyOf(r[i]) == KeyOf(s[i]);
    }
    forall i, j | 0 <= i < j < |r| ensures KeyOf(r[i]) != KeyOf(r[j]) {
      assert KeyOf(r[i]) == KeyOf(s[i]) && KeyOf(r[j]) == KeyOf(s[j]);
    }
    forall k | k in KeysOf(configs) ensures exists i | 0 <= i < |r| :: KeyOf(r[i]) == k {
      var i :| 0 <= i < |s| && KeyOf(s[i]) == k;
      assert KeyOf(r[i]) == KeyOf(s[i]);
    }
  }

  /** `build_object_lists` after loading: every key of the endpoint
      definitions gives exactly one service, which holds all of that key's
      endpoints; none is lost or added; the services are ordered by id and
      each one's endpoints by code; the enums and structs are every element
      of their kind, sorted by their `Ord` (`enumLe`, `structLe`). */
  method BuildObjectLists(configs: seq<Definition>,
                          enumLe: (EnumElement, EnumElement) -> bool,
                          structLe: (StructElement, StructElement) -> bool)
    returns (objects: InputObjects)
    ensures ServicesOf(configs, objects.services)
    ensures EndpointCount(objects.services) == SchemaCount(configs)
    ensures SortedBy(IdLe, objects.services)
    ensures forall i | 0 <= i < |objects.services| :: SortedBy(CodeLe, objects.services[i].endpoints)
    ensures objects.enums == SortBy(EnumsOf(configs), enumLe)
    ensures objects.structs == SortBy(StructsOf(configs), structLe)
  {
    var m, enums, structs := GroupDefinitions(configs);
    var emitted := EmitServices(m);
    var byId := SortBy(emitted, IdLe);
    IdLeTotalPreorder();
    SortBySorted(emitted, IdLe);
    EndpointCountSort(emitted, IdLe);
    OnePerKeyPermuted(m, emitted, byId);
    var services := WithSortedEndpoints(byId);
    WithSortedEndpointsCount(byId);
    SortedEndpointsServices(configs, m, byId);
    CodeLeTotalPreorder();
    forall i | 0 <= i < |services| ensures SortedBy(CodeLe, services[i].endpoints) {
      SortBySorted(byId[i].endpoints, CodeLe);
    }
    assert SortedBy(IdLe, services) by {
      forall i, j | 0 <= i < j < |services| ensures IdLe(services[i], services[j]) {
        assert services[i].id == byId[i].id && services[j].id == byId[j].id;
      }
    }
    objects := InputObjects(services, SortBy(enums, enumLe), SortBy(structs, structLe));
  }

  /** A permutation of a sequence with distinct keys has distinct keys. */
  lemma DistinctKeysSurviveSort(s: seq<GenService>, t: seq<GenService>, i: nat, j: nat)
    requires multiset(t) == multiset(s)
    requires forall a, b | 0 <= a < b < |s| :: KeyOf(s[a]) != KeyOf(s[b])
    requires i < j < |t|
    ensures KeyOf(t[i]) != KeyOf(t[j])
  {
    assert t[i] in multiset(s) && t[j] in multiset(s);
    var a :| 0 <= a < |s| && s[a] == t[i];
    var b :| 0 <= b < |s| && s[b] == t[j];
    if a == b {
      TwoOccurrences(t, i, j);
      UniqueCount(s, a);
      assert false;
    }
  }

  /** Two positions holding the same element count it twice. */
  lemma TwoOccurrences(t: seq<GenService>, i: nat, j: nat)
    requires i < j < |t| && t[i] == t[j]
    ensures multiset(t)[t[i]] >= 2
  {
    assert t == t[..i] + [t[i]] + t[i + 1..j] + [t[j]] + t[j + 1..];
  }

  /** An element whose key no other element has occurs once. */
  lemma {:induction false} UniqueCount(s: seq<GenService>, a: nat)
    requires a < |s|
    requires forall x, y | 0 <= x < y < |s| :: KeyOf(s[x]) != KeyOf(s[y])
    ensures multiset(s)[s[a]] == 1
    decreases |s|
  {
    var last := |s| - 1;
    var init := s[..last];
    assert s == init + [s[last]];
    assert forall x | 0 <= x < last :: init[x] == s[x];
    if a == last {
      assert s[a] !in init by {
        forall x | 0 <= x < last ensures init[x] != s[a] { assert KeyOf(s[x]) != KeyOf(s[a]); }
      }
    } else {
      UniqueCount(init, a);
      assert KeyOf(s[last]) != KeyOf(s[a]);
    }
  }

  /** Endpoints of one service that share a code keep their definition order:
      the sort is stable. */
  lemma SameCodeKeepsDefinitionOrder(configs: seq<Definition>, k: Key, code: nat)
    ensures Filter(SortBy(SchemasFor(configs, k), CodeLe), (e: EndpointSchemaElement) => e.schema.code == code)
            == Filter(SchemasFor(configs, k), (e: EndpointSchemaElement) => e.schema.code == code)
  {
    SortByStable(SchemasFor(configs, k), CodeLe, (e: EndpointSchemaElement) => e.schema.code == code);
  }

  /** An element is among the enums iff some enum definition holds it. */
  lemma {:induction false} EnumsOfMembership(configs: seq<Definition>, e: EnumElement)
    ensures e in EnumsOf(configs) <==> exists i | 0 <= i < |configs| :: e in DefEnums(configs[i])
    decreases |configs|
  {
    if configs != [] {
      var init := configs[..|configs| - 1];
      EnumsOfMembership(init, e);
      assert forall i | 0 <= i < |init| :: init[i] == configs[i];
    }
  }

  lemma {:induction false} StructsOfMembership(configs: seq<Definition>, s: StructElement)
    ensures s in StructsOf(configs) <==> exists i | 0 <= i < |configs| :: s in DefStructs(configs[i])
    decreases |configs|
  {
    if configs != [] {
      var init := configs[..|configs| - 1];
      StructsOfMembership(init, s);
      assert forall i | 0 <= i < |init| :: init[i] == configs[i];
    }
  }

  /** With a total `Ord`, the enums and structs come out sorted, and none is
      lost or repeated. */
  lemma ElementListsSorted(configs: seq<Definition>,
                           enumLe: (EnumElement, EnumElement) -> bool,
                           structLe: (StructElement, StructElement) -> bool)
    requires TotalPreorder(enumLe) && TotalPreorder(structLe)
    ensures SortedBy(enumLe, SortBy(EnumsOf(configs), enumLe))
    ensures SortedBy(structLe, SortBy(StructsOf(configs), structLe))
    ensures multiset(SortBy(EnumsOf(configs), enumLe)) == multiset(EnumsOf(configs))
    ensures multiset(SortBy(StructsOf(configs), structLe)) == multiset(StructsOf(configs))
  {
    SortBySorted(EnumsOf(configs), enumLe);
    SortBySorted(StructsOf(configs), structLe);
  }

  /** `build_object_lists`: loading the files, then grouping; a loading
      error is returned unchanged, and otherwise the objects are those
      `BuildObjectLists` promises for the definitions loaded. */
  method BuildFromFiles(files: seq<Path>, load: Path -> Result<Definition, string>,
                        enumLe: (EnumElement, EnumElement) -> bool,
                        structLe: (StructElement, StructElement) -> bool)
    returns (r: Result<InputObjects, string>, reports: seq<Report>)
    ensures reports == Reports(SortBy(files, PathLe), load)
    ensures Loaded(SortBy(files, PathLe), load) == [] <==> r == Failure(NO_VALID_FILES)
    ensures Loaded(SortBy(files, PathLe), load) != [] <==> r.Success?
    ensures r.Success? ==> var configs := Loaded(SortBy(files, PathLe), load);
      && ServicesOf(configs, r.value.services)
      && EndpointCount(r.value.services) == SchemaCount(configs)
      && SortedBy(IdLe, r.value.services)
      && (forall i | 0 <= i < |r.value.services| :: SortedBy(CodeLe, r.value.services[i].endpoints))
      && r.value.enums == SortBy(EnumsOf(configs), enumLe)
      && r.value.structs == SortBy(StructsOf(configs), structLe)
  {
    var configs;
    configs, reports := ProcessInputFiles(files, load);
    if configs.Failure? {
      return Failure(configs.error), reports;
    }
    var objects := BuildObjectLists(configs.value, enumLe, structLe);
    return Success(objects), reports;
  }

  /** The version predicates of the semver crate: which requirement strings
      and version strings parse, whether a version meets a requirement, and
      the normalised text of a version. */
  datatype Semver = Semver(
    validReq: string -> bool,
    validVersion: string -> bool,
    matches: (string, string) -> bool,
    display: string -> string)

  const LIBS_REQUIREMENT: string := ">=1.0.3"

  const BINARY_MISMATCH: string := "Binary version constraint not satisfied."

  /** The report of a binary version that does not meet the requirement. */
  function BinaryMessage(binaryReq: string, crateVersion: string): string {
    BINARY_MISMATCH + (" Version: " + binaryReq
      + " is specified in version.toml. Current binary version is: " + crateVersion)
  }

  /** The outcome of `check_compatibility`; a requirement or a version that
      does not parse makes the source panic on `unwrap`. */
  datatype Compatibility = Compatible | Incompatible(message: string) | Panic(what: string)

  /** `check_compatibility` with the binary's own version `crateVersion` (which
      always parses): the binary requirement is checked first, then the
      endpoint-libs version against ">=1.0.3". */
  function CheckCompatibility(binaryReq: string, libsVersion: string, crateVersion: string, semver: Semver): (r: Compatibility)
    requires semver.validVersion(crateVersion) && semver.validReq(LIBS_REQUIREMENT)
    ensures r == Compatible <==>
      && semver.validReq(binaryReq) && semver.validVersion(libsVersion)
      && semver.matches(binaryReq, crateVersion) && semver.matches(LIBS_REQUIREMENT, libsVersion)
    ensures r.Panic? <==> !semver.validReq(binaryReq) || !semver.validVersion(libsVersion)
  {
    if !semver.validReq(binaryReq) then Panic("binary version requirement")
    else if !semver.validVersion(libsVersion) then Panic("endpoint-libs version")
    else if !semver.matches(binaryReq, crateVersion) then
      Incompatible(BinaryMessage(binaryReq, crateVersion))
    else if !semver.matches(LIBS_REQUIREMENT, libsVersion) then
      Incompatible("endpoint-libs version constraint not satisfied. Version: " + semver.display(libsVersion)
        + " is specified in version.toml. This version of endpoint-gen requires: " + LIBS_REQUIREMENT)
    else Compatible
  }

  /** When both constraints fail, the binary one is the one reported. */
  lemma BinaryCheckFirst(binaryReq: string, libsVersion: string, crateVersion: string, semver: Semver)
    requires semver.validVersion(crateVersion) && semver.validReq(LIBS_REQUIREMENT)
    requires semver.validReq(binaryReq) && semver.validVersion(libsVersion)
    requires !semver.matches(binaryReq, crateVersion)
    ensures CheckCompatibility(binaryReq, libsVersion, crateVersion, semver).Incompatible?
    ensures StartsWith(CheckCompatibility(binaryReq, libsVersion, crateVersion, semver).message, BINARY_MISMATCH)
  {
    PrefixOfConcat(BINARY_MISMATCH, " Version: " + binaryReq
        + " is specified in version.toml. Current binary version is: " + crateVersion);
  }
}
