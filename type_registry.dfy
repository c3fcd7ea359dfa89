/** The user type registry (`src/type_registry.rs`): a RON file's text cut
    into the sections that each start with a `ty: DataTable` marker. Reading
    the file is outside the model; its result arrives as a parameter. */
module TypeRegistry {

  import opened Wrappers
  import opened Text

  const MARKER: string := "ty: DataTable"

  /** The marker put back in front of each section. */
  function Prefixed(sections: seq<string>): (r: seq<string>)
    ensures |r| == |sections|
    ensures forall i | 0 <= i < |r| :: r[i] == MARKER + sections[i]
    decreases |sections|
  {
    if sections == [] then [] else [MARKER + sections[0]] + Prefixed(sections[1..])
  }

  /** The sections of the text: split at each marker; the part before the
      first marker is dropped when it is blank; every kept part has the
      marker put back in front. */
  function Sections(contents: string): (r: seq<string>)
    ensures forall i | 0 <= i < |r| :: StartsWith(r[i], MARKER)
  {
    var parts := Split(contents, MARKER);
    if IsBlank(parts[0]) then Prefixed(parts[1..]) else Prefixed(parts)
  }

  /** `UserTypeRegistry::from_ron_file`: a file that cannot be read is fatal. */
  function FromRonFile(contents: Result<string, string>): (r: Result<seq<string>, string>)
    ensures contents.Failure? ==> r == Failure("REASON: " + contents.error)
    ensures contents.Success? ==> r == Success(Sections(contents.value))
  {
    match contents
    case Failure(e) => Failure("REASON: " + e)
    case Success(text) => Success(Sections(text))
  }

  lemma {:induction false} ConcatPrefixed(parts: seq<string>)
    ensures Concat(Prefixed(parts)) == if parts == [] then "" else MARKER + Join(parts, MARKER)
    decreases |parts|
  {
    if parts != [] {
      var rest := parts[1..];
      var head := MARKER + parts[0];
      ConcatPrefixed(rest);
      assert Prefixed(parts) == [head] + Prefixed(rest);
      assert ([head] + Prefixed(rest))[1..] == Prefixed(rest);
      assert Concat(Prefixed(parts)) == head + Concat(Prefixed(rest));
      if rest != [] {
        assert Join(parts, MARKER) == parts[0] + MARKER + Join(rest, MARKER);
        assert head + (MARKER + Join(rest, MARKER)) == MARKER + (parts[0] + MARKER + Join(rest, MARKER));
      }
    }
  }

  /** Nothing of the text is lost: with a blank lead the dropped lead followed
      by the sections is the text; otherwise the sections are the text with
      one marker in front. */
  lemma SectionsRoundTrip(contents: string)
    ensures var parts := Split(contents, MARKER);
      if IsBlank(parts[0]) then parts[0] + Concat(Sections(contents)) == contents
      else Concat(Sections(contents)) == MARKER + contents
  {
    var parts := Split(contents, MARKER);
    JoinSplit(contents, MARKER);
    if IsBlank(parts[0]) {
      var rest := parts[1..];
      assert Sections(contents) == Prefixed(rest);
      ConcatPrefixed(rest);
      if rest == [] {
        assert Join(parts, MARKER) == parts[0];
      } else {
        var tail := Join(rest, MARKER);
        assert Join(parts, MARKER) == parts[0] + MARKER + tail;
        assert parts[0] + (MARKER + tail) == parts[0] + MARKER + tail;
      }
    } else {
      assert Sections(contents) == Prefixed(parts);
      ConcatPrefixed(parts);
    }
  }

  /** One section per marker, plus one for a non-blank lead. */
  lemma SectionsCount(contents: string)
    ensures |Sections(contents)| == CountOccurrences(contents, MARKER)
                                    + if IsBlank(Split(contents, MARKER)[0]) then 0 else 1
  {
    SplitCount(contents, MARKER);
  }
}
