/**
 * Strict bencoding: the canonical encoding of a value, and the bounded parser that
 * accepts exactly canonical encodings while tracking each node's source range.
 */
module Bencode {
  import opened Prelude
  import opened Decimal
  import opened ByteOrder

  const MAX_DEPTH: nat := 64
  const MAX_INPUT: nat := 4_194_304
  const MAX_NODES: nat := 100_000

  const COLON: Byte := 58
  const D: Byte := 100
  const E: Byte := 101
  const I: Byte := 105
  const L: Byte := 108

  datatype Value =
    | Text(data: seq<Byte>)
    | Integer(n: int)
    | List(items: seq<Value>)
    | Dict(entries: seq<Entry>)

  datatype Entry = Entry(key: seq<Byte>, value: Value)

  /** A parsed value with its half-open byte range in the source. */
  datatype Node = Node(value: Parsed, start: nat, end: nat)

  datatype Parsed =
    | ParsedText(data: seq<Byte>)
    | ParsedInteger(n: int)
    | ParsedList(items: seq<Node>)
    | ParsedDict(entries: seq<ParsedEntry>)

  datatype ParsedEntry = ParsedEntry(key: seq<Byte>, node: Node)

  datatype BencodeError =
    | Truncated
    | Invalid(at: nat)
    | UnsortedDictionary(at: nat)
    | TrailingBytes(at: nat)
    | TooDeep
    | TooLarge
    | TooManyNodes

  // ----- The canonical encoding -----

  function EncodeText(data: seq<Byte>): seq<Byte> {
    Digits(|data|) + [COLON] + data
  }

  function Encode(v: Value): seq<Byte>
    decreases v
  {
    match v
    case Text(data) => EncodeText(data)
    case Integer(n) => [I] + Numeral(n) + [E]
    case List(items) => [L] + EncodeItems(items) + [E]
    case Dict(entries) => [D] + EncodeEntries(entries) + [E]
  }

  function EncodeItems(items: seq<Value>): seq<Byte>
    decreases items
  {
    if items == [] then [] else Encode(items[0]) + EncodeItems(items[1..])
  }

  function EncodeEntries(entries: seq<Entry>): seq<Byte>
    decreases entries
  {
    if entries == [] then [] else EncodeText(entries[0].key) + Encode(entries[0].value) + EncodeEntries(entries[1..])
  }

  predicate StrictlySorted(entries: seq<Entry>) {
    forall i | 0 <= i < |entries| - 1 :: Less(entries[i].key, entries[i + 1].key)
  }

  /** 64-bit integers and strictly sorted keys, all the way down. */
  predicate Canonical(v: Value)
    decreases v
  {
    match v
    case Text(_) => true
    case Integer(n) => I64_MIN <= n <= I64_MAX
    case List(items) => forall i | 0 <= i < |items| :: Canonical(items[i])
    case Dict(entries) => StrictlySorted(entries) && forall i | 0 <= i < |entries| :: Canonical(entries[i].value)
  }

  /** Values in the tree, dictionary keys not counted. */
  function Count(v: Value): nat
    decreases v
  {
    match v
    case Text(_) => 1
    case Integer(_) => 1
    case List(items) => 1 + CountItems(items)
    case Dict(entries) => 1 + CountEntries(entries)
  }

  function CountItems(items: seq<Value>): nat
    decreases items
  {
    if items == [] then 0 else Count(items[0]) + CountItems(items[1..])
  }

  function CountEntries(entries: seq<Entry>): nat
    decreases entries
  {
    if entries == [] then 0 else Count(entries[0].value) + CountEntries(entries[1..])
  }

  /** No value in the tree lies more than `levels` below the root. */
  predicate Within(v: Value, levels: int)
    decreases v
  {
    && levels >= 0
    && match v
       case Text(_) => true
       case Integer(_) => true
       case List(items) => forall i | 0 <= i < |items| :: Within(items[i], levels - 1)
       case Dict(entries) => forall i | 0 <= i < |entries| :: Within(entries[i].value, levels - 1)
  }

  /** A value the parser has room for when it meets it at `depth` with `nodes` already counted. */
  predicate Fits(v: Value, depth: nat, nodes: nat) {
    Canonical(v) && Within(v, MAX_DEPTH - depth) && nodes + Count(v) <= MAX_NODES
  }

  // ----- No encoding is a prefix of another -----

  /** The text up to the first `t` is determined by the whole. */
  lemma {:induction false} SameUpTo(a: seq<Byte>, b: seq<Byte>, t: Byte, s: seq<Byte>)
    requires a + [t] <= s && b + [t] <= s && t !in a && t !in b
    ensures a == b
  {
    var k := if |a| < |b| then |a| else |b|;
    assert (a + [t])[k] == s[k] == (b + [t])[k];
    assert a == (a + [t])[..|a|] == s[..|a|] && b == (b + [t])[..|b|] == s[..|b|];
  }

  lemma {:induction false} TextFree(a: seq<Byte>, b: seq<Byte>, s: seq<Byte>)
    requires EncodeText(a) <= s && EncodeText(b) <= s
    ensures a == b
  {
    var x, y := Digits(|a|), Digits(|b|);
    assert x + [COLON] <= s && y + [COLON] <= s;
    SameUpTo(x, y, COLON, s);
    ValueOfDigits(|a|);
    ValueOfDigits(|b|);
    assert a == EncodeText(a)[|x| + 1..] && b == EncodeText(b)[|y| + 1..];
    assert EncodeText(a) == s[..|EncodeText(a)|] && EncodeText(b) == s[..|EncodeText(b)|];
  }

  lemma {:induction false} IntegerFree(a: int, b: int, s: seq<Byte>)
    requires Encode(Integer(a)) <= s && Encode(Integer(b)) <= s
    ensures a == b
  {
    assert Numeral(a) + [E] == Encode(Integer(a))[1..] && Numeral(b) + [E] == Encode(Integer(b))[1..];
    SameUpTo(Numeral(a), Numeral(b), E, s[1..]);
    NumeralInjective(a, b);
  }

  /** The first byte tells the kind, and is never the terminator. */
  lemma {:induction false} FirstByte(v: Value)
    ensures Encode(v) != []
    ensures v.Text? <==> IsDigit(Encode(v)[0])
    ensures v.Integer? <==> Encode(v)[0] == I
    ensures v.List? <==> Encode(v)[0] == L
    ensures v.Dict? <==> Encode(v)[0] == D
    ensures Encode(v)[0] != E
  {
  }

  /** What stands between the brackets of a collection. */
  lemma {:induction false} Inside(v: Value, s: seq<Byte>)
    requires Encode(v) <= s
    ensures v.List? ==> EncodeItems(v.items) + [E] <= s[1..]
    ensures v.Dict? ==> EncodeEntries(v.entries) + [E] <= s[1..]
  {
    hide EncodeText, EncodeItems, EncodeEntries, Numeral;
    if v.List? {
      assert EncodeItems(v.items) + [E] == Encode(v)[1..];
    } else if v.Dict? {
      assert EncodeEntries(v.entries) + [E] == Encode(v)[1..];
    }
  }

  lemma {:induction false} PrefixFree(v: Value, w: Value, s: seq<Byte>)
    requires Encode(v) <= s && Encode(w) <= s
    ensures v == w
    decreases v
  {
    FirstByte(v);
    FirstByte(w);
    assert Encode(v)[0] == s[0] == Encode(w)[0];
    hide EncodeText, EncodeItems, EncodeEntries, Numeral;
    match v {
      case Text(a) => TextFree(a, w.data, s);
      case Integer(a) => IntegerFree(a, w.n, s);
      case List(items) =>
        Inside(v, s);
        Inside(w, s);
        ItemsFree(items, w.items, s[1..]);
      case Dict(entries) =>
        Inside(v, s);
        Inside(w, s);
        EntriesFree(entries, w.entries, s[1..]);
    }
  }

  /** Dropping a shared first part. */
  lemma {:induction false} AfterPrefix(a: seq<Byte>, b: seq<Byte>, s: seq<Byte>)
    requires a + b <= s
    ensures a <= s && b <= s[|a|..]
  {
    assert s[..|a|] == a;
    assert s[|a|..][..|b|] == b;
  }

  lemma {:induction false} ItemsFree(vs: seq<Value>, ws: seq<Value>, s: seq<Byte>)
    requires EncodeItems(vs) + [E] <= s && EncodeItems(ws) + [E] <= s
    ensures vs == ws
    decreases vs
  {
    if vs != [] {
      assert EncodeItems(vs) + [E] == Encode(vs[0]) + (EncodeItems(vs[1..]) + [E]);
      AfterPrefix(Encode(vs[0]), EncodeItems(vs[1..]) + [E], s);
      FirstByte(vs[0]);
    }
    if ws != [] {
      assert EncodeItems(ws) + [E] == Encode(ws[0]) + (EncodeItems(ws[1..]) + [E]);
      AfterPrefix(Encode(ws[0]), EncodeItems(ws[1..]) + [E], s);
      FirstByte(ws[0]);
    }
    if vs != [] && ws != [] {
      PrefixFree(vs[0], ws[0], s);
      ItemsFree(vs[1..], ws[1..], s[|Encode(vs[0])|..]);
    }
  }

  lemma {:induction false} EntriesFree(vs: seq<Entry>, ws: seq<Entry>, s: seq<Byte>)
    requires EncodeEntries(vs) + [E] <= s && EncodeEntries(ws) + [E] <= s
    ensures vs == ws
    decreases vs
  {
    if vs != [] {
      EntrySplit(vs, s);
    }
    if ws != [] {
      EntrySplit(ws, s);
    }
    if vs != [] && ws != [] {
      TextFree(vs[0].key, ws[0].key, s);
      var rest := s[|EncodeText(vs[0].key)|..];
      PrefixFree(vs[0].value, ws[0].value, rest);
      EntriesFree(vs[1..], ws[1..], rest[|Encode(vs[0].value)|..]);
    }
  }

  lemma {:induction false} EntrySplit(vs: seq<Entry>, s: seq<Byte>)
    requires vs != [] && EncodeEntries(vs) + [E] <= s
    ensures EncodeText(vs[0].key) <= s && s != [] && IsDigit(s[0])
    ensures var rest := s[|EncodeText(vs[0].key)|..];
            Encode(vs[0].value) <= rest && EncodeEntries(vs[1..]) + [E] <= rest[|Encode(vs[0].value)|..]
  {
    hide *;
    EntryShape(vs);
    var k, v, t := EncodeText(vs[0].key), Encode(vs[0].value), EncodeEntries(vs[1..]) + [E];
    AfterPrefix(k, v + t, s);
    AfterPrefix(v, t, s[|k|..]);
    assert k[0] == s[0];
  }

  lemma {:induction false} EntryShape(vs: seq<Entry>)
    requires vs != []
    ensures EncodeText(vs[0].key) != [] && IsDigit(EncodeText(vs[0].key)[0])
    ensures EncodeEntries(vs) + [E] == EncodeText(vs[0].key) + (Encode(vs[0].value) + (EncodeEntries(vs[1..]) + [E]))
  {
    hide Encode, Digits;
  }
}
