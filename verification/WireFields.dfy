/** The fields of Testnet v1 records: how each is written, and a reader that accepts exactly what is written. */
module WireFields {
  import opened Prelude
  import opened BigEndian
  import opened Content

  datatype ProtocolError =
    | Malformed(reason: string)
    | UnsupportedVersion(version: nat)
    | WrongNetwork(network: seq<Byte>)
    | UnsupportedCapability(code: nat)
    | UnknownMessage(kind: nat)
    | InvalidMessage(reason: string)
    | MessageTooLarge(limit: nat)

  // ----- UTF-8, by the table of well-formed byte sequences in section 4 of RFC 3629 -----

  predicate Tail(s: seq<Byte>, i: nat, low: Byte, high: Byte) {
    i < |s| && low <= s[i] <= high
  }

  /** Length of the well-formed sequence at the front, or 0. */
  function SequenceLength(s: seq<Byte>): (n: nat)
    ensures n <= |s|
  {
    if s == [] then 0
    else if s[0] < 0x80 then 1
    else if 0xC2 <= s[0] <= 0xDF && Tail(s, 1, 0x80, 0xBF) then 2
    else if 0xE0 <= s[0] <= 0xEF && Tail(s, 2, 0x80, 0xBF)
      && Tail(s, 1, if s[0] == 0xE0 then 0xA0 else 0x80, if s[0] == 0xED then 0x9F else 0xBF) then 3
    else if 0xF0 <= s[0] <= 0xF4 && Tail(s, 2, 0x80, 0xBF) && Tail(s, 3, 0x80, 0xBF)
      && Tail(s, 1, if s[0] == 0xF0 then 0x90 else 0x80, if s[0] == 0xF4 then 0x8F else 0xBF) then 4
    else 0
  }

  predicate Utf8(s: seq<Byte>)
    decreases |s|
  {
    s == [] || (SequenceLength(s) > 0 && Utf8(s[SequenceLength(s)..]))
  }

  lemma {:induction false} AsciiIsUtf8(s: seq<Byte>)
    requires forall i | 0 <= i < |s| :: s[i] < 0x80
    ensures Utf8(s)
  {
    if s != [] {
      AsciiIsUtf8(s[1..]);
    }
  }

  // ----- Written forms -----

  function PutBlob(x: seq<Byte>): seq<Byte> {
    Bytes(|x|, 4) + x
  }

  function PutText(x: seq<Byte>): seq<Byte> {
    Bytes(|x|, 2) + x
  }

  // ----- Lists: one written item after another -----

  function PutAll<T>(put: T -> seq<Byte>, list: seq<T>): seq<Byte> {
    if list == [] then [] else put(list[0]) + PutAll(put, list[1..])
  }

  predicate AllFit<T>(fits: T -> bool, list: seq<T>) {
    forall i | 0 <= i < |list| :: fits(list[i])
  }

  /** `r` is the fitting item written at the front of `s`, if there is one, and `rest` is what follows it. */
  ghost predicate ReadsOne<T(!new)>(
    put: T -> seq<Byte>, fits: T -> bool, s: seq<Byte>, r: Result<T, ProtocolError>, rest: seq<Byte>)
  {
    && (r.Ok? ==> fits(r.value) && s == put(r.value) + rest)
    && (forall x: T, t | s == put(x) + t && fits(x) :: r == Ok(x) && rest == t)
  }

  /** The same for a list of `count` items. */
  ghost predicate ReadsAll<T(!new)>(
    put: T -> seq<Byte>, fits: T -> bool, count: nat, s: seq<Byte>, r: Result<seq<T>, ProtocolError>, rest: seq<Byte>)
  {
    && (r.Ok? ==> |r.value| == count && AllFit(fits, r.value) && s == PutAll(put, r.value) + rest)
    && (forall v: seq<T>, t | s == PutAll(put, v) + t && |v| == count && AllFit(fits, v) :: r == Ok(v) && rest == t)
  }

  /** `values` have been read from `s`, and every list that `s` can start with agrees with them so far. */
  ghost predicate SoFar<T(!new)>(
    put: T -> seq<Byte>, fits: T -> bool, count: nat, s: seq<Byte>, values: seq<T>, rest: seq<Byte>)
  {
    && |values| <= count && AllFit(fits, values) && s == PutAll(put, values) + rest
    && (forall v: seq<T>, t | s == PutAll(put, v) + t && |v| == count && AllFit(fits, v) ::
          values == v[..|values|] && rest == PutAll(put, v[|values|..]) + t)
  }

  lemma {:induction false} PutAllAppend<T>(put: T -> seq<Byte>, list: seq<T>, x: T)
    ensures PutAll(put, list + [x]) == PutAll(put, list) + put(x)
  {
    if list == [] {
      assert [x][1..] == [];
    } else {
      assert (list + [x])[1..] == list[1..] + [x];
      PutAllAppend(put, list[1..], x);
    }
  }

  lemma {:induction false} PutAllFrom<T>(put: T -> seq<Byte>, list: seq<T>, i: nat, t: seq<Byte>)
    requires i < |list|
    ensures PutAll(put, list[i..]) + t == put(list[i]) + (PutAll(put, list[i + 1..]) + t)
    ensures list[..i + 1] == list[..i] + [list[i]]
  {
    assert list[i..][0] == list[i] && list[i..][1..] == list[i + 1..];
    assert put(list[i]) + PutAll(put, list[i + 1..]) + t == put(list[i]) + (PutAll(put, list[i + 1..]) + t);
  }

  lemma {:induction false} NothingYet<T(!new)>(put: T -> seq<Byte>, fits: T -> bool, count: nat, s: seq<Byte>)
    ensures SoFar(put, fits, count, s, [], s)
  {
    assert forall v: seq<T> :: v[0..] == v;
  }

  /** One item more. */
  lemma {:induction false} Advance<T(!new)>(
    put: T -> seq<Byte>, fits: T -> bool, count: nat, s: seq<Byte>, values: seq<T>, before: seq<Byte>,
    r: Result<T, ProtocolError>, rest: seq<Byte>)
    requires SoFar(put, fits, count, s, values, before) && |values| < count && ReadsOne(put, fits, before, r, rest)
    ensures r.Ok? ==> SoFar(put, fits, count, s, values + [r.value], rest)
    ensures r.Err? ==> ReadsAll(put, fits, count, s, Err(r.error), rest)
  {
    var i := |values|;
    forall v: seq<T>, t | s == PutAll(put, v) + t && |v| == count && AllFit(fits, v)
      ensures r == Ok(v[i]) && rest == PutAll(put, v[i + 1..]) + t && values + [v[i]] == v[..i + 1]
    {
      PutAllFrom(put, v, i, t);
    }
    if r.Ok? {
      PutAllAppend(put, values, r.value);
    }
  }

  lemma {:induction false} Finished<T(!new)>(
    put: T -> seq<Byte>, fits: T -> bool, count: nat, s: seq<Byte>, values: seq<T>, rest: seq<Byte>)
    requires SoFar(put, fits, count, s, values, rest) && |values| == count
    ensures ReadsAll(put, fits, count, s, Ok(values), rest)
  {
    forall v: seq<T>, t | s == PutAll(put, v) + t && |v| == count && AllFit(fits, v) ensures v == values && rest == t {
      assert v[..count] == v && v[count..] == [] && PutAll(put, []) + t == t;
    }
  }

  // Digests are written as they are.

  function PutDigest(d: Digest): seq<Byte> {
    d
  }

  predicate AnyDigest(d: Digest) {
    true
  }

  function PutDigests(ds: seq<Digest>): (r: seq<Byte>)
    ensures |r| == 32 * |ds|
  {
    DigestsLength(ds);
    PutAll(PutDigest, ds)
  }

  lemma {:induction false} DigestsLength(ds: seq<Digest>)
    ensures |PutAll(PutDigest, ds)| == 32 * |ds|
  {
    if ds != [] {
      DigestsLength(ds[1..]);
    }
  }

  // ----- Writing -----

  class Writer {
    var bytes: seq<Byte>

    constructor (header: seq<Byte>)
      ensures bytes == header
    {
      bytes := header;
    }

    method Raw(value: seq<Byte>)
      modifies this
      ensures bytes == old(bytes) + value
    {
      bytes := bytes + value;
    }

    method Blob(value: seq<Byte>) returns (r: Result<(), ProtocolError>)
      modifies this
      ensures r.Ok? <==> |value| <= U32_MAX
      ensures r.Ok? ==> bytes == old(bytes) + PutBlob(value)
    {
      if |value| > U32_MAX {
        return Err(Malformed("byte string too long"));
      }
      Raw(Bytes(|value|, 4));
      Raw(value);
      r := Ok(());
    }

    method Text(value: seq<Byte>) returns (r: Result<(), ProtocolError>)
      modifies this
      ensures r.Ok? <==> |value| <= U16_MAX
      ensures r.Ok? ==> bytes == old(bytes) + PutText(value)
    {
      if |value| > U16_MAX {
        return Err(Malformed("string too long"));
      }
      Raw(Bytes(|value|, 2));
      Raw(value);
      r := Ok(());
    }

    method Digests(values: seq<Digest>)
      modifies this
      ensures bytes == old(bytes) + PutDigests(values)
    {
      for i := 0 to |values|
        invariant old(bytes) + PutDigests(values) == bytes + PutDigests(values[i..])
      {
        assert values[i..][0] == values[i] && values[i..][1..] == values[i + 1..];
        Raw(values[i]);
      }
    }
  }

  // ----- Reading: a field is returned exactly when its written form comes next -----

  class Reader {
    const bytes: seq<Byte>
    var offset: nat

    ghost predicate Valid()
      reads this
    {
      offset <= |bytes|
    }

    ghost function Rest(): seq<Byte>
      requires Valid()
      reads this
    {
      bytes[offset..]
    }

    constructor (bytes: seq<Byte>)
      ensures this.bytes == bytes && Valid() && Rest() == bytes
    {
      this.bytes, offset := bytes, 0;
    }

    method Take(length: nat) returns (r: Result<seq<Byte>, ProtocolError>)
      requires Valid()
      modifies this
      ensures Valid() && (r.Ok? ==> |r.value| == length && old(Rest()) == r.value + Rest())
      ensures forall v, t | old(Rest()) == v + t && |v| == length :: r == Ok(v) && Rest() == t
    {
      if offset + length > |bytes| {
        return Err(Malformed("truncated input"));
      }
      r := Ok(bytes[offset..offset + length]);
      offset := offset + length;
      assert old(Rest()) == r.value + Rest();
      forall v, t | old(Rest()) == v + t && |v| == length ensures r == Ok(v) && Rest() == t {
        assert old(Rest())[..length] == v && old(Rest())[length..] == t;
      }
    }

    method Array() returns (r: Result<Digest, ProtocolError>)
      requires Valid()
      modifies this
      ensures Valid() && (r.Ok? ==> old(Rest()) == r.value + Rest())
      ensures forall v: Digest, t | old(Rest()) == v + t :: r == Ok(v) && Rest() == t
    {
      var value :- Take(32);
      r := Ok(value);
    }

    method Number(width: nat) returns (r: Result<nat, ProtocolError>)
      requires Valid()
      modifies this
      ensures Valid() && (r.Ok? ==> r.value < Pow2(8 * width) && old(Rest()) == Bytes(r.value, width) + Rest())
      ensures forall v: nat, t | old(Rest()) == Bytes(v, width) + t && v < Pow2(8 * width) :: r == Ok(v) && Rest() == t
    {
      var value :- Take(width);
      BytesOfValue(value);
      forall v: nat | v < Pow2(8 * width) ensures Value(Bytes(v, width)) == v {
        ValueOfBytes(v, width);
      }
      r := Ok(Value(value));
    }

    method U8() returns (r: Result<Byte, ProtocolError>)
      requires Valid()
      modifies this
      ensures Valid() && (r.Ok? ==> old(Rest()) == [r.value] + Rest())
      ensures forall v: Byte, t | old(Rest()) == [v] + t :: r == Ok(v) && Rest() == t
    {
      var value :- Take(1);
      r := Ok(value[0]);
    }

    method U16() returns (r: Result<nat, ProtocolError>)
      requires Valid()
      modifies this
      ensures Valid() && (r.Ok? ==> r.value <= U16_MAX && old(Rest()) == Bytes(r.value, 2) + Rest())
      ensures forall v: nat, t | old(Rest()) == Bytes(v, 2) + t && v <= U16_MAX :: r == Ok(v) && Rest() == t
    {
      Widths();
      r := Number(2);
    }

    method U32() returns (r: Result<nat, ProtocolError>)
      requires Valid()
      modifies this
      ensures Valid() && (r.Ok? ==> r.value <= U32_MAX && old(Rest()) == Bytes(r.value, 4) + Rest())
      ensures forall v: nat, t | old(Rest()) == Bytes(v, 4) + t && v <= U32_MAX :: r == Ok(v) && Rest() == t
    {
      Widths();
      r := Number(4);
    }

    method U64() returns (r: Result<nat, ProtocolError>)
      requires Valid()
      modifies this
      ensures Valid() && (r.Ok? ==> r.value <= U64_MAX && old(Rest()) == Bytes(r.value, 8) + Rest())
      ensures forall v: nat, t | old(Rest()) == Bytes(v, 8) + t && v <= U64_MAX :: r == Ok(v) && Rest() == t
    {
      Widths();
      r := Number(8);
    }

    method Blob(maximum: nat) returns (r: Result<seq<Byte>, ProtocolError>)
      requires Valid() && maximum <= U32_MAX
      modifies this
      ensures Valid() && (r.Ok? ==> |r.value| <= maximum && old(Rest()) == PutBlob(r.value) + Rest())
      ensures forall v, t | old(Rest()) == PutBlob(v) + t && |v| <= maximum :: r == Ok(v) && Rest() == t
    {
      assert forall v, t: seq<Byte> :: PutBlob(v) + t == Bytes(|v|, 4) + (v + t);
      var length :- U32();
      if length > maximum {
        return Err(InvalidMessage("byte string exceeds bound"));
      }
      r := Take(length);
    }

    method Text(maximum: nat) returns (r: Result<seq<Byte>, ProtocolError>)
      requires Valid() && maximum <= U16_MAX
      modifies this
      ensures Valid() && (r.Ok? ==> |r.value| <= maximum && Utf8(r.value) && old(Rest()) == PutText(r.value) + Rest())
      ensures forall v, t | old(Rest()) == PutText(v) + t && |v| <= maximum && Utf8(v) :: r == Ok(v) && Rest() == t
    {
      assert forall v, t: seq<Byte> :: PutText(v) + t == Bytes(|v|, 2) + (v + t);
      var length :- U16();
      if length > maximum {
        return Err(InvalidMessage("string exceeds bound"));
      }
      var value :- Take(length);
      if !Utf8(value) {
        return Err(Malformed("string is not UTF-8"));
      }
      r := Ok(value);
    }

    method Digests(count: nat) returns (r: Result<seq<Digest>, ProtocolError>)
      requires Valid()
      modifies this
      ensures Valid() && (r.Ok? ==> |r.value| == count && old(Rest()) == PutDigests(r.value) + Rest())
      ensures forall v: seq<Digest>, t | old(Rest()) == PutDigests(v) + t && |v| == count :: r == Ok(v) && Rest() == t
    {
      hide SoFar, ReadsOne;
      var values: seq<Digest> := [];
      NothingYet(PutDigest, AnyDigest, count, Rest());
      for i := 0 to count
        invariant Valid() && |values| == i && SoFar(PutDigest, AnyDigest, count, old(Rest()), values, Rest())
      {
        ghost var before := Rest();
        var value := Array();
        assert ReadsOne(PutDigest, AnyDigest, before, value, Rest()) by {
          ArrayReads(before, value, Rest());
        }
        Advance(PutDigest, AnyDigest, count, old(Rest()), values, before, value, Rest());
        if value.Err? {
          return Err(value.error);
        }
        values := values + [value.value];
      }
      Finished(PutDigest, AnyDigest, count, old(Rest()), values, Rest());
      r := Ok(values);
    }
  }

  lemma {:induction false} ArrayReads(s: seq<Byte>, r: Result<Digest, ProtocolError>, rest: seq<Byte>)
    requires r.Ok? ==> s == r.value + rest
    requires forall v: Digest, t | s == v + t :: r == Ok(v) && rest == t
    ensures ReadsOne(PutDigest, AnyDigest, s, r, rest)
  {
  }
}
