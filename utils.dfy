/** Runtime helpers (`src/libs/utils.rs`): the compact request header
    encoding and hexadecimal decoding. The `hex` crate's decoder, URL encoding
    and the JSON text of a value stay uninterpreted: they are parameters. */
module Utils {

  import opened Wrappers
  import opened Text
  import opened Model

  /** `urlencoding::encode` and the `Display` text of a `serde_json::Value`. */
  datatype Encoders = Encoders(urlEncode: string -> string, jsonText: Json -> string)

  /** The piece of the header that parameter number i (0-based) contributes:
      an error naming the key when the value has no such member, nothing for
      a null member, otherwise ", " + (i + 1) + the URL-encoded text of the
      value with its double quotes removed. */
  function Segment(i: nat, f: Field, v: Json, casing: Casing, enc: Encoders): (r: Result<string, string>)
    ensures r.Failure? <==> Get(v, casing.camel(f.name)).None?
    ensures r.Failure? ==> r.error == "key: " + casing.camel(f.name)
    ensures r == Success("") <==> Get(v, casing.camel(f.name)) == Some(JNull)
    ensures r.Success? && r.value != "" ==> StartsWith(r.value, ", " + NatToString(i + 1))
  {
    var key := casing.camel(f.name);
    match Get(v, key)
    case None => Failure("key: " + key)
    case Some(JNull) => Success("")
    case Some(x) =>
      NatToStringRoundTrip(i + 1);
      Success(", " + NatToString(i + 1) + enc.urlEncode(RemoveChar(enc.jsonText(x), '"')))
  }

  /** The pieces of the first n parameters, or the first parameter's error. */
  function Segments(fields: seq<Field>, n: nat, v: Json, casing: Casing, enc: Encoders): (r: Result<string, string>)
    requires n <= |fields|
    decreases n
  {
    if n == 0 then Success("")
    else
      match Segments(fields, n - 1, v, casing, enc)
      case Failure(e) => Failure(e)
      case Success(s) =>
        match Segment(n - 1, fields[n - 1], v, casing, enc)
        case Failure(e) => Failure(e)
        case Success(t) => Success(s + t)
  }

  /** The header `encode_header` produces from the serialised request. */
  function Header(value: Result<Json, string>, schema: EndpointSchema, casing: Casing, enc: Encoders): (r: Result<string, string>)
    ensures value.Failure? ==> r == Failure(value.error)
    ensures r.Success? ==> StartsWith(r.value, "0" + AsciiLower(schema.name))
  {
    match value
    case Failure(e) => Failure(e)
    case Success(v) =>
      match Segments(schema.parameters, |schema.parameters|, v, casing, enc)
      case Failure(e) => Failure(e)
      case Success(s) => Success("0" + AsciiLower(schema.name) + s)
  }

  /** `encode_header`: the lower-cased endpoint name after a "0", then one
      piece per non-null parameter, stopping at the first missing key. */
  method EncodeHeader(value: Result<Json, string>, schema: EndpointSchema, casing: Casing, enc: Encoders)
    returns (r: Result<string, string>)
    ensures r == Header(value, schema, casing, enc)
  {
    var s := "0" + AsciiLower(schema.name);
    if value.Failure? {
      return Failure(value.error);
    }
    var v := value.value;
    var i := 0;
    while i < |schema.parameters|
      invariant 0 <= i <= |schema.parameters|
      invariant Segments(schema.parameters, i, v, casing, enc).Success?
      invariant s == "0" + AsciiLower(schema.name) + Segments(schema.parameters, i, v, casing, enc).value
    {
      var f := schema.parameters[i];
      var key := casing.camel(f.name);
      var member := Get(v, key);
      if member.None? {
        SegmentsFailureSticks(schema.parameters, i + 1, v, casing, enc);
        return Failure("key: " + key);
      }
      SegmentsNext(schema.parameters, i, v, casing, enc);
      i := i + 1;
      if member.value.JNull? {
        continue;
      }
      var piece := ", " + NatToString(i) + enc.urlEncode(RemoveChar(enc.jsonText(member.value), '"'));
      assert piece == PieceText(schema.parameters, i, v, casing, enc);
      s := s + piece;
    }
    return Success(s);
  }

  /** A further parameter whose key is present extends the pieces: by
      nothing when its value is null, by its piece otherwise. */
  lemma SegmentsNext(fields: seq<Field>, n: nat, v: Json, casing: Casing, enc: Encoders)
    requires n < |fields| && Segments(fields, n, v, casing, enc).Success?
    requires Get(v, casing.camel(fields[n].name)).Some?
    ensures Segments(fields, n + 1, v, casing, enc).Success?
    ensures Get(v, casing.camel(fields[n].name)).value == JNull ==>
      Segments(fields, n + 1, v, casing, enc).value == Segments(fields, n, v, casing, enc).value
    ensures Get(v, casing.camel(fields[n].name)).value != JNull ==>
      Segments(fields, n + 1, v, casing, enc).value == Segments(fields, n, v, casing, enc).value + PieceText(fields, n + 1, v, casing, enc)
  {
    var before := Segments(fields, n, v, casing, enc).value;
    var seg := Segment(n, fields[n], v, casing, enc);
    assert Segments(fields, n + 1, v, casing, enc) == Success(before + seg.value);
    if Get(v, casing.camel(fields[n].name)).value == JNull {
      assert before + "" == before;
    }
  }

  lemma {:induction false} SegmentsFailureSticks(fields: seq<Field>, n: nat, v: Json, casing: Casing, enc: Encoders)
    requires n <= |fields| && Segments(fields, n, v, casing, enc).Failure?
    ensures Segments(fields, |fields|, v, casing, enc) == Segments(fields, n, v, casing, enc)
    decreases |fields| - n
  {
    if n < |fields| {
      SegmentsFailureSticks(fields, n + 1, v, casing, enc);
    }
  }

  /** The pieces succeed exactly when every parameter's camel-case key is a
      member of the value; otherwise the error names the first missing key. */
  lemma {:induction false} SegmentsSucceedIffKeysPresent(fields: seq<Field>, n: nat, v: Json, casing: Casing, enc: Encoders)
    requires n <= |fields|
    ensures Segments(fields, n, v, casing, enc).Success? <==>
      forall i | 0 <= i < n :: Get(v, casing.camel(fields[i].name)).Some?
    ensures Segments(fields, n, v, casing, enc).Failure? ==>
      exists i | 0 <= i < n :: && Get(v, casing.camel(fields[i].name)).None?
                               && (forall j | 0 <= j < i :: Get(v, casing.camel(fields[j].name)).Some?)
                               && Segments(fields, n, v, casing, enc).error == "key: " + casing.camel(fields[i].name)
    decreases n
  {
    if n > 0 {
      SegmentsSucceedIffKeysPresent(fields, n - 1, v, casing, enc);
    }
  }

  /** A value whose parameters are all present and null encodes to the bare name. */
  lemma {:induction false} AllNullHeader(fields: seq<Field>, n: nat, v: Json, casing: Casing, enc: Encoders)
    requires n <= |fields|
    requires forall i | 0 <= i < n :: Get(v, casing.camel(fields[i].name)) == Some(JNull)
    ensures Segments(fields, n, v, casing, enc) == Success("")
    decreases n
  {
    if n > 0 {
      AllNullHeader(fields, n - 1, v, casing, enc);
      assert "" + "" == "";
    }
  }

  /** `encode_header` succeeds on a serialised value exactly when every
      parameter's key is present, and then starts with "0" and the
      lower-cased name. */
  lemma HeaderSucceedsIffKeysPresent(v: Json, schema: EndpointSchema, casing: Casing, enc: Encoders)
    ensures Header(Success(v), schema, casing, enc).Success? <==>
      forall i | 0 <= i < |schema.parameters| :: Get(v, casing.camel(schema.parameters[i].name)).Some?
  {
    SegmentsSucceedIffKeysPresent(schema.parameters, |schema.parameters|, v, casing, enc);
  }

  /** A parameter whose value is present and not null. */
  predicate Emits(fields: seq<Field>, i: nat, v: Json, casing: Casing)
    requires i < |fields|
  {
    Get(v, casing.camel(fields[i].name)).Some? && Get(v, casing.camel(fields[i].name)).value != JNull
  }

  /** The 1-based positions of the first n parameters that emit a piece, in order. */
  function Emitted(fields: seq<Field>, n: nat, v: Json, casing: Casing): (r: seq<nat>)
    requires n <= |fields|
    ensures forall k | 0 <= k < |r| :: 1 <= r[k] <= n
    decreases n
  {
    if n == 0 then []
    else Emitted(fields, n - 1, v, casing) + (if Emits(fields, n - 1, v, casing) then [n] else [])
  }

  /** The positions are exactly those of the emitting parameters, strictly increasing. */
  lemma EmittedPositions(fields: seq<Field>, n: nat, v: Json, casing: Casing)
    requires n <= |fields|
    ensures forall k | 0 <= k < |Emitted(fields, n, v, casing)| :: Emits(fields, Emitted(fields, n, v, casing)[k] - 1, v, casing)
    ensures forall k, l | 0 <= k < l < |Emitted(fields, n, v, casing)| :: Emitted(fields, n, v, casing)[k] < Emitted(fields, n, v, casing)[l]
    ensures forall i | 0 <= i < n && Emits(fields, i, v, casing) :: i + 1 in Emitted(fields, n, v, casing)
  {
    EmittedEmit(fields, n, v, casing);
    EmittedIncreasing(fields, n, v, casing);
    EmittedComplete(fields, n, v, casing);
  }

  lemma {:induction false} EmittedEmit(fields: seq<Field>, n: nat, v: Json, casing: Casing)
    requires n <= |fields|
    ensures forall k | 0 <= k < |Emitted(fields, n, v, casing)| :: Emits(fields, Emitted(fields, n, v, casing)[k] - 1, v, casing)
    decreases n
  {
    if n > 0 {
      EmittedEmit(fields, n - 1, v, casing);
      var prev := Emitted(fields, n - 1, v, casing);
      var r := Emitted(fields, n, v, casing);
      forall k | 0 <= k < |r|
        ensures Emits(fields, r[k] - 1, v, casing)
      {
        if k < |prev| {
          assert r[k] == prev[k];
        }
      }
    }
  }

  lemma {:induction false} EmittedIncreasing(fields: seq<Field>, n: nat, v: Json, casing: Casing)
    requires n <= |fields|
    ensures forall k, l | 0 <= k < l < |Emitted(fields, n, v, casing)| :: Emitted(fields, n, v, casing)[k] < Emitted(fields, n, v, casing)[l]
    decreases n
  {
    if n > 0 {
      EmittedIncreasing(fields, n - 1, v, casing);
      var prev := Emitted(fields, n - 1, v, casing);
      var r := Emitted(fields, n, v, casing);
      forall k, l | 0 <= k < l < |r|
        ensures r[k] < r[l]
      {
        assert r[k] == prev[k];
        if l < |prev| {
          assert r[l] == prev[l];
        }
      }
    }
  }

  lemma {:induction false} EmittedComplete(fields: seq<Field>, n: nat, v: Json, casing: Casing)
    requires n <= |fields|
    ensures forall i | 0 <= i < n && Emits(fields, i, v, casing) :: i + 1 in Emitted(fields, n, v, casing)
    decreases n
  {
    if n > 0 {
      EmittedComplete(fields, n - 1, v, casing);
      var prev := Emitted(fields, n - 1, v, casing);
      var r := Emitted(fields, n, v, casing);
      forall i | 0 <= i < n && Emits(fields, i, v, casing)
        ensures i + 1 in r
      {
        if i < n - 1 {
          var k :| 0 <= k < |prev| && prev[k] == i + 1;
          assert r[k] == prev[k];
        } else {
          assert r[|prev|] == n;
        }
      }
    }
  }

  /** The piece of the parameter at 1-based position k; nothing when its key is missing. */
  function PieceText(fields: seq<Field>, k: nat, v: Json, casing: Casing, enc: Encoders): string
    requires 1 <= k <= |fields|
  {
    match Get(v, casing.camel(fields[k - 1].name))
    case None => ""
    case Some(x) => ", " + NatToString(k) + enc.urlEncode(RemoveChar(enc.jsonText(x), '"'))
  }

  /** The pieces for the given 1-based positions, in order. */
  function Pieces(fields: seq<Field>, ks: seq<nat>, v: Json, casing: Casing, enc: Encoders): string
    requires forall k | 0 <= k < |ks| :: 1 <= ks[k] <= |fields|
    decreases |ks|
  {
    if ks == [] then ""
    else Pieces(fields, ks[..|ks| - 1], v, casing, enc) + PieceText(fields, ks[|ks| - 1], v, casing, enc)
  }

  /** Appending a position appends its piece. */
  lemma PiecesSnoc(fields: seq<Field>, ks: seq<nat>, k: nat, v: Json, casing: Casing, enc: Encoders)
    requires forall j | 0 <= j < |ks| :: 1 <= ks[j] <= |fields|
    requires 1 <= k <= |fields|
    ensures Pieces(fields, ks + [k], v, casing, enc) == Pieces(fields, ks, v, casing, enc) + PieceText(fields, k, v, casing, enc)
  {
    assert (ks + [k])[..|ks|] == ks;
  }

  /** When the header succeeds, its pieces are exactly those of the emitting
      parameters, numbered by their positions, in parameter order. */
  lemma {:induction false} SegmentsArePieces(fields: seq<Field>, n: nat, v: Json, casing: Casing, enc: Encoders)
    requires n <= |fields| && Segments(fields, n, v, casing, enc).Success?
    ensures Segments(fields, n, v, casing, enc).value == Pieces(fields, Emitted(fields, n, v, casing), v, casing, enc)
    decreases n
  {
    if n > 0 {
      SegmentsStep(fields, n, v, casing, enc);
      SegmentsArePieces(fields, n - 1, v, casing, enc);
      var prev := Emitted(fields, n - 1, v, casing);
      if Emits(fields, n - 1, v, casing) {
        assert Emitted(fields, n, v, casing) == prev + [n];
        PiecesSnoc(fields, prev, n, v, casing, enc);
      } else {
        assert Emitted(fields, n, v, casing) == prev;
      }
    }
  }

  /** One more parameter adds its segment: its piece when it emits one,
      nothing otherwise. */
  lemma SegmentsStep(fields: seq<Field>, n: nat, v: Json, casing: Casing, enc: Encoders)
    requires 0 < n <= |fields| && Segments(fields, n, v, casing, enc).Success?
    ensures Segments(fields, n - 1, v, casing, enc).Success?
    ensures Emits(fields, n - 1, v, casing) ==>
      Segments(fields, n, v, casing, enc).value == Segments(fields, n - 1, v, casing, enc).value + PieceText(fields, n, v, casing, enc)
    ensures !Emits(fields, n - 1, v, casing) ==>
      Segments(fields, n, v, casing, enc).value == Segments(fields, n - 1, v, casing, enc).value
  {
    var seg := Segment(n - 1, fields[n - 1], v, casing, enc);
    assert seg.Success?;
    if !Emits(fields, n - 1, v, casing) {
      assert seg.value == "";
      assert Segments(fields, n - 1, v, casing, enc).value + "" == Segments(fields, n - 1, v, casing, enc).value;
    }
  }

  /** `hex_decode`: one leading "0x" is dropped, the rest goes to the `hex`
      crate's decoder (`decode`), whose result, value or error, is returned. */
  function HexDecode(s: seq<byte>, decode: seq<byte> -> Result<seq<byte>, string>): (r: Result<seq<byte>, string>)
  {
    if HasHexPrefix(s) then decode(s[2..]) else decode(s)
  }

  predicate HasHexPrefix(s: seq<byte>) {
    |s| >= 2 && s[0] == '0' as byte && s[1] == 'x' as byte
  }

  /** With the prefix, decoding is the decoder applied to what follows it,
      even when that again starts with "0x"; without it, to the whole input. */
  lemma HexDecodeStripsOnePrefix(s: seq<byte>, decode: seq<byte> -> Result<seq<byte>, string>)
    ensures HexDecode(['0' as byte, 'x' as byte] + s, decode) == decode(s)
    ensures !HasHexPrefix(s) ==> HexDecode(s, decode) == decode(s)
  {
    assert (['0' as byte, 'x' as byte] + s)[2..] == s;
  }

  predicate IsHexDigit(c: byte) {
    ('0' as byte <= c <= '9' as byte) || ('a' as byte <= c <= 'f' as byte) || ('A' as byte <= c <= 'F' as byte)
  }

  /** Given a `hex` decoder that inverts an encoder writing only hex digits,
      both the bare and the "0x"-prefixed encoding decode to the original
      bytes: a bare encoding never starts with "0x", since 'x' is no digit. */
  lemma HexDecodeAcceptsBothForms(b: seq<byte>, encode: seq<byte> -> seq<byte>,
                                  decode: seq<byte> -> Result<seq<byte>, string>)
    requires forall x :: decode(encode(x)) == Success(x)
    requires forall x, i | 0 <= i < |encode(x)| :: IsHexDigit(encode(x)[i])
    ensures HexDecode(encode(b), decode) == Success(b)
    ensures HexDecode(['0' as byte, 'x' as byte] + encode(b), decode) == Success(b)
  {
    HexDecodeStripsOnePrefix(encode(b), decode);
    assert !HasHexPrefix(encode(b)) by {
      if |encode(b)| >= 2 {
        assert IsHexDigit(encode(b)[1]);
      }
    }
  }
}
