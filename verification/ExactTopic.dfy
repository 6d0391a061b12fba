/** Exact topics of magnet links: two spellings of one BitTorrent hash, one canonical form. */
module ExactTopic {
  import opened Prelude
  import opened Base32

  // ----- Hexadecimal -----

  function HexDigit(v: nat): Byte
    requires v < 16
  {
    if v < 10 then 48 + v else 97 + v - 10
  }

  function HexValue(b: Byte): (r: Option<nat>)
    ensures r.Some? ==> r.value < 16
  {
    if 48 <= b <= 57 then Some(b - 48)
    else if 97 <= b <= 102 then Some(b - 97 + 10)
    else if 65 <= b <= 70 then Some(b - 65 + 10)
    else None
  }

  function HexEncode(bytes: seq<Byte>): (r: seq<Byte>)
    ensures |r| == 2 * |bytes|
  {
    if bytes == [] then [] else [HexDigit(bytes[0] / 16), HexDigit(bytes[0] % 16)] + HexEncode(bytes[1..])
  }

  function HexDecode(s: seq<Byte>): (r: Option<seq<Byte>>)
    ensures r.Some? ==> |s| == 2 * |r.value|
  {
    if s == [] then Some([])
    else if |s| == 1 || HexValue(s[0]).None? || HexValue(s[1]).None? then None
    else
      var rest := HexDecode(s[2..]);
      if rest.None? then None else Some([16 * HexValue(s[0]).value + HexValue(s[1]).value] + rest.value)
  }

  /** `to_ascii_lowercase`. */
  function Lower(s: seq<Byte>): (r: seq<Byte>)
    ensures |r| == |s|
  {
    seq(|s|, i requires 0 <= i < |s| => if 65 <= s[i] <= 90 then s[i] + 32 else s[i])
  }

  predicate IsLower(s: seq<Byte>) {
    forall i | 0 <= i < |s| :: !(65 <= s[i] <= 90)
  }

  lemma {:induction false} HexPair(high: Byte, low: Byte, b: Byte)
    requires !(65 <= high <= 90) && !(65 <= low <= 90)
    ensures HexValue(high).Some? && HexValue(low).Some? && 16 * HexValue(high).value + HexValue(low).value == b
       <==> high == HexDigit(b / 16) && low == HexDigit(b % 16)
  {
  }

  /** On lower-case text the two directions undo each other. */
  lemma {:induction false} HexInverse(s: seq<Byte>, bytes: seq<Byte>)
    requires IsLower(s)
    ensures HexDecode(s) == Some(bytes) <==> s == HexEncode(bytes)
  {
    if |s| >= 2 && bytes != [] {
      HexInverse(s[2..], bytes[1..]);
      HexPair(s[0], s[1], bytes[0]);
      assert s == [s[0], s[1]] + s[2..] && bytes == [bytes[0]] + bytes[1..];
      assert HexEncode(bytes)[2..] == HexEncode(bytes[1..]);
      hide HexDigit, HexValue;
    }
  }

  lemma {:induction false} HexInjective(a: seq<Byte>, b: seq<Byte>)
    requires HexEncode(a) == HexEncode(b)
    ensures a == b
  {
    HexIsLower(a);
    HexInverse(HexEncode(a), a);
    HexInverse(HexEncode(a), b);
  }

  lemma {:induction false} HexIsLower(bytes: seq<Byte>)
    ensures IsLower(HexEncode(bytes))
  {
    if bytes != [] {
      HexIsLower(bytes[1..]);
    }
  }

  // ----- Topics -----

  const BTIH: seq<Byte> := [117, 114, 110, 58, 98, 116, 105, 104, 58]
  const BTMH: seq<Byte> := [117, 114, 110, 58, 98, 116, 109, 104, 58]

  datatype Topic = Btih(hash: seq<Byte>) | Btmh(hash: seq<Byte>) | Other(text: seq<Byte>)

  function BtihBytes(encoded: seq<Byte>): Option<seq<Byte>> {
    if |encoded| == 40 then HexDecode(encoded) else if |encoded| == 32 then Decoded(encoded) else None
  }

  function TopicOf(value: seq<Byte>): Result<Topic, MagnetError> {
    var lower := Lower(value);
    if BTIH <= lower then
      var bytes := BtihBytes(lower[9..]);
      if bytes.None? || |bytes.value| != 20 then Err(InvalidExactTopic) else Ok(Btih(HexEncode(bytes.value)))
    else if BTMH <= lower then
      var bytes := HexDecode(lower[9..]);
      if bytes.None? || |bytes.value| != 34 || bytes.value[..2] != [0x12, 0x20] then Err(InvalidExactTopic)
      else Ok(Btmh(HexEncode(bytes.value[2..])))
    else Ok(Other(value))
  }

  class Magnet {
    var btih: seq<seq<Byte>>
    var btmhSha256: seq<seq<Byte>>
    var otherExactTopics: seq<seq<Byte>>

    method ParseExactTopic(value: seq<Byte>) returns (r: Result<(), MagnetError>)
      modifies this
      ensures r.Err? <==> TopicOf(value).Err?
      ensures match TopicOf(value)
              case Err(_) => unchanged(this)
              case Ok(Btih(hash)) =>
                btih == old(btih) + [hash] && unchanged(`btmhSha256) && unchanged(`otherExactTopics)
              case Ok(Btmh(hash)) =>
                btmhSha256 == old(btmhSha256) + [hash] && unchanged(`btih) && unchanged(`otherExactTopics)
              case Ok(Other(text)) =>
                otherExactTopics == old(otherExactTopics) + [text] && unchanged(`btih) && unchanged(`btmhSha256)
    {
      var lower := Lower(value);
      if BTIH <= lower {
        var encoded := lower[9..];
        var bytes: Option<seq<Byte>> := None;
        if |encoded| == 40 {
          bytes := HexDecode(encoded);
        } else if |encoded| == 32 {
          var decoded := DecodeBase32(encoded);
          if decoded.Ok? {
            bytes := Some(decoded.value);
          }
        }
        if bytes.None? || |bytes.value| != 20 {
          return Err(InvalidExactTopic);
        }
        btih := btih + [HexEncode(bytes.value)];
      } else if BTMH <= lower {
        var bytes := HexDecode(lower[9..]);
        if bytes.None? || |bytes.value| != 34 || bytes.value[..2] != [0x12, 0x20] {
          return Err(InvalidExactTopic);
        }
        btmhSha256 := btmhSha256 + [HexEncode(bytes.value[2..])];
      } else {
        otherExactTopics := otherExactTopics + [value];
      }
      r := Ok(());
    }
  }

  // ----- One hash, its spellings -----

  lemma {:induction false} LowerTail(value: seq<Byte>)
    requires |value| >= 9
    ensures IsLower(Lower(value)[9..]) && Lower(value) == Lower(value)[..9] + Lower(value)[9..]
  {
  }

  /** The text after the prefix names a hash exactly in one of its two encodings. */
  lemma {:induction false} BtihSpellings(encoded: seq<Byte>, hash: seq<Byte>)
    requires IsLower(encoded) && |hash| == 20
    ensures BtihBytes(encoded) == Some(hash) <==> encoded == HexEncode(hash) || encoded == Encoded(hash)
  {
    HexInverse(encoded, hash);
    EncodedDecodes(hash);
    if BtihBytes(encoded) == Some(hash) && |encoded| == 32 {
      DecodedEncodes(encoded);
    }
  }

  /**
   * A v1 topic is recorded as a hash exactly when it spells that
   * hash in hexadecimal or in base32, in any letter case.
   */
  lemma {:induction false} BtihExactly(value: seq<Byte>, hash: seq<Byte>)
    requires |hash| == 20
    ensures TopicOf(value) == Ok(Btih(HexEncode(hash)))
       <==> Lower(value) == BTIH + HexEncode(hash) || Lower(value) == BTIH + Encoded(hash)
  {
    hide HexEncode, Encoded, BtihBytes, HexDecode;
    var lower := Lower(value);
    if BTIH <= lower {
      LowerTail(value);
      BtihSpellings(lower[9..], hash);
      if BtihBytes(lower[9..]).Some? && HexEncode(BtihBytes(lower[9..]).value) == HexEncode(hash) {
        HexInjective(BtihBytes(lower[9..]).value, hash);
      }
    }
  }

  /** A v2 topic is recorded as a SHA-256 hash exactly when it is the multihash of that hash in hexadecimal. */
  lemma {:induction false} BtmhExactly(value: seq<Byte>, hash: seq<Byte>)
    requires |hash| == 32
    ensures TopicOf(value) == Ok(Btmh(HexEncode(hash))) <==> Lower(value) == BTMH + HexEncode([0x12, 0x20] + hash)
  {
    hide HexEncode, HexDecode, BtihBytes;
    var lower := Lower(value);
    if BTMH <= lower {
      LowerTail(value);
      assert lower[6] == BTMH[6] != BTIH[6];
      var multihash := [0x12, 0x20] + hash;
      assert multihash[2..] == hash && (BTMH + HexEncode(multihash))[9..] == HexEncode(multihash);
      HexInverse(lower[9..], multihash);
      var bytes := HexDecode(lower[9..]);
      if bytes.Some? && |bytes.value| == 34 && bytes.value[..2] == [0x12, 0x20] {
        assert bytes.value == [0x12, 0x20] + bytes.value[2..];
        if HexEncode(bytes.value[2..]) == HexEncode(hash) {
          HexInjective(bytes.value[2..], hash);
        }
      }
    }
  }
}
