/** The strict parser: a cursor over the input and a count of the values met so far. */
module BencodeParser {
  import opened Prelude
  import opened Decimal
  import opened ByteOrder
  import opened Bencode

  // ----- Parsed nodes and the values they stand for -----

  function Strip(node: Node): Value
    decreases node
  {
    match node.value
    case ParsedText(data) => Text(data)
    case ParsedInteger(n) => Integer(n)
    case ParsedList(items) => List(StripItems(items))
    case ParsedDict(entries) => Dict(StripEntries(entries))
  }

  function StripItems(items: seq<Node>): (vs: seq<Value>)
    ensures |vs| == |items| && forall i | 0 <= i < |items| :: vs[i] == Strip(items[i])
    decreases items
  {
    if items == [] then [] else [Strip(items[0])] + StripItems(items[1..])
  }

  function StripEntries(entries: seq<ParsedEntry>): (vs: seq<Entry>)
    ensures |vs| == |entries| && forall i | 0 <= i < |entries| :: vs[i] == Entry(entries[i].key, Strip(entries[i].node))
    decreases entries
  {
    if entries == [] then [] else [Entry(entries[0].key, Strip(entries[0].node))] + StripEntries(entries[1..])
  }

  /** Every node's range, all the way down, is exactly the encoding of that node. */
  ghost predicate Ranged(input: seq<Byte>, node: Node)
    decreases node
  {
    && node.start <= node.end <= |input| && input[node.start..node.end] == Encode(Strip(node))
    && match node.value
       case ParsedText(_) => true
       case ParsedInteger(_) => true
       case ParsedList(items) => forall i | 0 <= i < |items| :: Ranged(input, items[i])
       case ParsedDict(entries) => forall i | 0 <= i < |entries| :: Ranged(input, entries[i].node)
  }

  // ----- Growing a list by one -----

  lemma {:induction false} ItemsAppend(vs: seq<Value>, v: Value)
    ensures EncodeItems(vs + [v]) == EncodeItems(vs) + Encode(v)
    ensures CountItems(vs + [v]) == CountItems(vs) + Count(v)
  {
    if vs == [] {
      assert [v][1..] == [];
    } else {
      assert (vs + [v])[1..] == vs[1..] + [v];
      ItemsAppend(vs[1..], v);
    }
  }

  lemma {:induction false} EntriesAppend(vs: seq<Entry>, e: Entry)
    ensures EncodeEntries(vs + [e]) == EncodeEntries(vs) + EncodeText(e.key) + Encode(e.value)
    ensures CountEntries(vs + [e]) == CountEntries(vs) + Count(e.value)
  {
    if vs == [] {
      assert [e][1..] == [];
    } else {
      assert (vs + [e])[1..] == vs[1..] + [e];
      EntriesAppend(vs[1..], e);
    }
  }

  // ----- A partly parsed collection against any complete one at the same place -----

  /** If what has been parsed is not followed by the terminator, every complete list here goes on with another item. */
  lemma {:induction false} ItemsAhead(vs: seq<Value>, ws: seq<Value>, s: seq<Byte>)
    requires EncodeItems(vs) <= s && EncodeItems(ws) + [E] <= s
    requires |EncodeItems(vs)| == |s| || s[|EncodeItems(vs)|] != E
    ensures |vs| < |ws| && Encode(ws[|vs|]) <= s[|EncodeItems(vs)|..]
    ensures CountItems(vs) + Count(ws[|vs|]) <= CountItems(ws)
    decreases vs
  {
    if ws != [] {
      assert EncodeItems(ws) + [E] == Encode(ws[0]) + (EncodeItems(ws[1..]) + [E]);
      AfterPrefix(Encode(ws[0]), EncodeItems(ws[1..]) + [E], s);
    }
    if vs != [] {
      AfterPrefix(Encode(vs[0]), EncodeItems(vs[1..]), s);
      FirstByte(vs[0]);
      PrefixFree(vs[0], ws[0], s);
      var n := |Encode(vs[0])|;
      ItemsAhead(vs[1..], ws[1..], s[n..]);
      assert s[n..][|EncodeItems(vs[1..])|..] == s[|EncodeItems(vs)|..];
    }
  }

  lemma {:induction false} EntriesUnfold(vs: seq<Entry>)
    requires vs != []
    ensures EncodeEntries(vs) == EncodeText(vs[0].key) + (Encode(vs[0].value) + EncodeEntries(vs[1..]))
  {
    hide Encode, EncodeText;
  }

  /** The first entry of a partly parsed dictionary, and what follows it. */
  lemma {:induction false} EntriesHead(vs: seq<Entry>, s: seq<Byte>)
    requires vs != [] && EncodeEntries(vs) <= s
    ensures EncodeText(vs[0].key) <= s
    ensures var n := |EncodeText(vs[0].key)|;
            && Encode(vs[0].value) <= s[n..]
            && EncodeEntries(vs[1..]) <= s[n..][|Encode(vs[0].value)|..]
            && |EncodeEntries(vs)| == n + |Encode(vs[0].value)| + |EncodeEntries(vs[1..])|
  {
    hide *;
    var k, v, t := EncodeText(vs[0].key), Encode(vs[0].value), EncodeEntries(vs[1..]);
    EntriesUnfold(vs);
    AfterPrefix(k, v + t, s);
    AfterPrefix(v, t, s[|k|..]);
  }

  /** The entry a complete dictionary must have next, where `rest` is the unparsed input. */
  ghost predicate NextEntry(e: Entry, rest: seq<Byte>) {
    EncodeText(e.key) <= rest && rest != [] && IsDigit(rest[0]) && Encode(e.value) <= rest[|EncodeText(e.key)|..]
  }

  lemma {:induction false} EntriesAhead(vs: seq<Entry>, ws: seq<Entry>, s: seq<Byte>)
    requires EncodeEntries(vs) <= s && EncodeEntries(ws) + [E] <= s
    requires |EncodeEntries(vs)| == |s| || s[|EncodeEntries(vs)|] != E
    ensures |vs| < |ws| && vs == ws[..|vs|] && NextEntry(ws[|vs|], s[|EncodeEntries(vs)|..])
    ensures CountEntries(vs) + Count(ws[|vs|].value) <= CountEntries(ws)
    decreases vs
  {
    hide Encode, EncodeText, Count;
    if ws != [] {
      EntrySplit(ws, s);
    }
    if vs != [] {
      EntriesHead(vs, s);
      EntryShape(vs);
      assert EncodeText(vs[0].key)[0] == s[0];
      assert ws != [];
      TextFree(vs[0].key, ws[0].key, s);
      var n, m := |EncodeText(vs[0].key)|, |Encode(vs[0].value)|;
      PrefixFree(vs[0].value, ws[0].value, s[n..]);
      var rest := s[n..][m..];
      EntriesAhead(vs[1..], ws[1..], rest);
      assert rest[|EncodeEntries(vs[1..])|..] == s[|EncodeEntries(vs)|..];
    }
  }

  // ----- The parser -----

  ghost predicate FitsItems(vs: seq<Value>, depth: nat, nodes: nat) {
    && (forall i | 0 <= i < |vs| :: Canonical(vs[i]) && Within(vs[i], MAX_DEPTH - depth))
    && nodes + CountItems(vs) <= MAX_NODES
  }

  ghost predicate FitsEntries(vs: seq<Entry>, depth: nat, nodes: nat) {
    && StrictlySorted(vs)
    && (forall i | 0 <= i < |vs| :: Canonical(vs[i].value) && Within(vs[i].value, MAX_DEPTH - depth))
    && nodes + CountEntries(vs) <= MAX_NODES
  }

  /** `node` was parsed from `pos` up to `pos'`, bringing the count to `nodes'`. */
  ghost predicate NodeOk(input: seq<Byte>, pos: nat, depth: nat, nodes: nat, node: Node, pos': nat, nodes': nat) {
    && node.start == pos && node.end == pos' && Ranged(input, node)
    && Fits(Strip(node), depth, nodes) && nodes' == nodes + Count(Strip(node))
  }

  /** No value there is room for is encoded at `pos`. */
  ghost predicate NoneFits(input: seq<Byte>, pos: nat, depth: nat, nodes: nat)
    requires pos <= |input|
  {
    forall v :: Fits(v, depth, nodes) ==> !(Encode(v) <= input[pos..])
  }

  ghost predicate ItemsOk(
    input: seq<Byte>, pos: nat, depth: nat, nodes: nat, items: seq<Node>, pos': nat, nodes': nat)
  {
    && pos <= pos' <= |input| && input[pos..pos'] == EncodeItems(StripItems(items))
    && (forall i | 0 <= i < |items| :: Ranged(input, items[i]))
    && FitsItems(StripItems(items), depth, nodes) && nodes' == nodes + CountItems(StripItems(items))
  }

  ghost predicate NoItemsFit(input: seq<Byte>, pos: nat, depth: nat, nodes: nat)
    requires pos <= |input|
  {
    forall ws :: FitsItems(ws, depth, nodes) ==> !(EncodeItems(ws) + [E] <= input[pos..])
  }

  ghost predicate EntriesOk(
    input: seq<Byte>, pos: nat, depth: nat, nodes: nat, entries: seq<ParsedEntry>, pos': nat, nodes': nat)
  {
    && pos <= pos' <= |input| && input[pos..pos'] == EncodeEntries(StripEntries(entries))
    && (forall i | 0 <= i < |entries| :: Ranged(input, entries[i].node))
    && FitsEntries(StripEntries(entries), depth, nodes) && nodes' == nodes + CountEntries(StripEntries(entries))
  }

  ghost predicate NoEntriesFit(input: seq<Byte>, pos: nat, depth: nat, nodes: nat)
    requires pos <= |input|
  {
    forall ws :: FitsEntries(ws, depth, nodes) ==> !(EncodeEntries(ws) + [E] <= input[pos..])
  }

  // Lists.

  lemma {:induction false} ItemsGrow(
    input: seq<Byte>, pos: nat, depth: nat, nodes: nat, items: seq<Node>, p: nat, n: nat, node: Node, p': nat, n': nat)
    requires ItemsOk(input, pos, depth, nodes, items, p, n) && NodeOk(input, p, depth, n, node, p', n')
    ensures ItemsOk(input, pos, depth, nodes, items + [node], p', n') && p < p'
  {
    hide Encode, EncodeItems, Canonical, Within, Count, CountItems, Strip;
    var vs, v := StripItems(items), Strip(node);
    assert StripItems(items + [node]) == vs + [v];
    ItemsAppend(vs, v);
    FirstByte(v);
    assert input[pos..p'] == input[pos..p] + input[p..p'];
    assert Ranged(input, node);
  }

  /** Any complete list that fits has, right here, another item that fits. */
  lemma {:induction false} ItemsNext(
    input: seq<Byte>, pos: nat, depth: nat, nodes: nat, items: seq<Node>, p: nat, n: nat, ws: seq<Value>)
    requires ItemsOk(input, pos, depth, nodes, items, p, n) && (p == |input| || input[p] != E)
    requires FitsItems(ws, depth, nodes) && EncodeItems(ws) + [E] <= input[pos..]
    ensures |items| < |ws| && Fits(ws[|items|], depth, n) && Encode(ws[|items|]) <= input[p..]
  {
    hide Encode, EncodeItems, Canonical, Within, Count, CountItems, Ranged, Strip, StripItems;
    var vs, s := StripItems(items), input[pos..];
    assert s[..p - pos] == EncodeItems(vs);
    ItemsAhead(vs, ws, s);
    assert s[|EncodeItems(vs)|..] == input[p..];
  }

  lemma {:induction false} ItemsStuck(
    input: seq<Byte>, pos: nat, depth: nat, nodes: nat, items: seq<Node>, p: nat, n: nat)
    requires ItemsOk(input, pos, depth, nodes, items, p, n)
    requires (p == |input| || input[p] != E) && NoneFits(input, p, depth, n)
    ensures NoItemsFit(input, pos, depth, nodes)
  {
    hide FitsItems, Fits, Encode, EncodeItems, StripItems, Ranged;
    forall ws | FitsItems(ws, depth, nodes) ensures !(EncodeItems(ws) + [E] <= input[pos..]) {
      if EncodeItems(ws) + [E] <= input[pos..] {
        ItemsNext(input, pos, depth, nodes, items, p, n, ws);
      }
    }
  }

  lemma {:induction false} ListOk(
    input: seq<Byte>, pos: nat, depth: nat, nodes: nat, items: seq<Node>, end: nat, n: nat)
    requires pos < |input| && input[pos] == L && depth <= MAX_DEPTH
    requires ItemsOk(input, pos + 1, depth + 1, nodes + 1, items, end, n) && end < |input| && input[end] == E
    ensures NodeOk(input, pos, depth, nodes, Node(ParsedList(items), pos, end + 1), end + 1, n)
  {
    assert input[pos..end + 1] == [L] + input[pos + 1..end] + [E];
  }

  lemma {:induction false} ListInside(input: seq<Byte>, pos: nat, depth: nat, nodes: nat, v: Value)
    requires pos < |input| && input[pos] == L && Fits(v, depth, nodes) && Encode(v) <= input[pos..]
    ensures v.List? && FitsItems(v.items, depth + 1, nodes + 1) && EncodeItems(v.items) + [E] <= input[pos + 1..]
  {
    FirstByte(v);
    assert Encode(v)[0] == input[pos..][0];
    assert EncodeItems(v.items) + [E] == Encode(v)[1..];
    assert input[pos..][1..] == input[pos + 1..];
  }

  lemma {:induction false} ListNone(input: seq<Byte>, pos: nat, depth: nat, nodes: nat)
    requires pos < |input| && input[pos] == L && NoItemsFit(input, pos + 1, depth + 1, nodes + 1)
    ensures NoneFits(input, pos, depth, nodes)
  {
    hide Fits, FitsItems;
    forall v | Fits(v, depth, nodes) ensures !(Encode(v) <= input[pos..]) {
      if Encode(v) <= input[pos..] {
        ListInside(input, pos, depth, nodes, v);
      }
    }
  }

  // Dictionaries.

  lemma {:induction false} EntriesGrow(
    input: seq<Byte>, pos: nat, depth: nat, nodes: nat, entries: seq<ParsedEntry>, p: nat, n: nat, key: seq<Byte>,
    q: nat, node: Node, p': nat, n': nat)
    requires EntriesOk(input, pos, depth, nodes, entries, p, n)
    requires p <= q <= |input| && input[p..q] == EncodeText(key) && NodeOk(input, q, depth, n, node, p', n')
    requires entries != [] ==> Less(entries[|entries| - 1].key, key)
    ensures EntriesOk(input, pos, depth, nodes, entries + [ParsedEntry(key, node)], p', n') && p < p'
  {
    hide Encode, EncodeText, EncodeEntries, Canonical, Within, Count, CountEntries, Less, Strip;
    var vs, e := StripEntries(entries), Entry(key, Strip(node));
    assert StripEntries(entries + [ParsedEntry(key, node)]) == vs + [e];
    EntriesAppend(vs, e);
    FirstByte(e.value);
    assert input[pos..p'] == input[pos..p] + input[p..q] + input[q..p'];
    assert Ranged(input, node);
  }

  /** Any complete dictionary that fits goes on, right here, with a larger key and a value that fits. */
  lemma {:induction false} EntriesNext(
    input: seq<Byte>, pos: nat, depth: nat, nodes: nat, entries: seq<ParsedEntry>, p: nat, n: nat, ws: seq<Entry>)
    requires EntriesOk(input, pos, depth, nodes, entries, p, n) && (p == |input| || input[p] != E)
    requires FitsEntries(ws, depth, nodes) && EncodeEntries(ws) + [E] <= input[pos..]
    ensures |entries| < |ws| && NextEntry(ws[|entries|], input[p..]) && Fits(ws[|entries|].value, depth, n)
    ensures entries != [] ==> Less(entries[|entries| - 1].key, ws[|entries|].key)
  {
    hide Encode, EncodeText, EncodeEntries, Canonical, Within, Count, CountEntries, Less, Strip, Ranged, NextEntry;
    var vs, s := StripEntries(entries), input[pos..];
    assert s[..p - pos] == EncodeEntries(vs);
    EntriesAhead(vs, ws, s);
    assert s[|EncodeEntries(vs)|..] == input[p..];
    if entries != [] {
      assert ws[..|vs|][|vs| - 1] == vs[|vs| - 1];
    }
  }

  /** The ways a dictionary can be stuck at `p`. */
  ghost predicate NoNextEntry(input: seq<Byte>, depth: nat, entries: seq<ParsedEntry>, p: nat, n: nat)
    requires p <= |input|
  {
    forall e: Entry ::
      NextEntry(e, input[p..]) && Fits(e.value, depth, n) ==> entries != [] && !Less(entries[|entries| - 1].key, e.key)
  }

  lemma {:induction false} EntriesStuck(
    input: seq<Byte>, pos: nat, depth: nat, nodes: nat, entries: seq<ParsedEntry>, p: nat, n: nat)
    requires EntriesOk(input, pos, depth, nodes, entries, p, n)
    requires (p == |input| || input[p] != E) && NoNextEntry(input, depth, entries, p, n)
    ensures NoEntriesFit(input, pos, depth, nodes)
  {
    hide FitsEntries, Fits, NextEntry, Encode, EncodeEntries, StripEntries, Ranged;
    forall ws | FitsEntries(ws, depth, nodes) ensures !(EncodeEntries(ws) + [E] <= input[pos..]) {
      if EncodeEntries(ws) + [E] <= input[pos..] {
        EntriesNext(input, pos, depth, nodes, entries, p, n, ws);
      }
    }
  }

  /** The key found at `p` is the only one there, so the value after it is the only candidate. */
  lemma {:induction false} KeyDecides(
    input: seq<Byte>, depth: nat, entries: seq<ParsedEntry>, p: nat, n: nat, key: seq<Byte>, q: nat)
    requires p <= q <= |input| && input[p..q] == EncodeText(key)
    requires NoneFits(input, q, depth, n) || (entries != [] && !Less(entries[|entries| - 1].key, key))
    ensures NoNextEntry(input, depth, entries, p, n)
  {
    hide Fits, Encode, EncodeText, Less;
    forall e: Entry | NextEntry(e, input[p..]) && Fits(e.value, depth, n)
      ensures entries != [] && !Less(entries[|entries| - 1].key, e.key)
    {
      assert input[p..][..q - p] == EncodeText(key);
      TextFree(e.key, key, input[p..]);
      assert input[p..][q - p..] == input[q..];
    }
  }

  lemma {:induction false} DictOk(
    input: seq<Byte>, pos: nat, depth: nat, nodes: nat, entries: seq<ParsedEntry>, end: nat, n: nat)
    requires pos < |input| && input[pos] == D && depth <= MAX_DEPTH
    requires EntriesOk(input, pos + 1, depth + 1, nodes + 1, entries, end, n) && end < |input| && input[end] == E
    ensures NodeOk(input, pos, depth, nodes, Node(ParsedDict(entries), pos, end + 1), end + 1, n)
  {
    assert input[pos..end + 1] == [D] + input[pos + 1..end] + [E];
  }

  lemma {:induction false} DictInside(input: seq<Byte>, pos: nat, depth: nat, nodes: nat, v: Value)
    requires pos < |input| && input[pos] == D && Fits(v, depth, nodes) && Encode(v) <= input[pos..]
    ensures v.Dict? && FitsEntries(v.entries, depth + 1, nodes + 1)
            && EncodeEntries(v.entries) + [E] <= input[pos + 1..]
  {
    FirstByte(v);
    assert Encode(v)[0] == input[pos..][0];
    assert EncodeEntries(v.entries) + [E] == Encode(v)[1..];
    assert input[pos..][1..] == input[pos + 1..];
  }

  lemma {:induction false} DictNone(input: seq<Byte>, pos: nat, depth: nat, nodes: nat)
    requires pos < |input| && input[pos] == D && NoEntriesFit(input, pos + 1, depth + 1, nodes + 1)
    ensures NoneFits(input, pos, depth, nodes)
  {
    hide Fits, FitsEntries;
    forall v | Fits(v, depth, nodes) ensures !(Encode(v) <= input[pos..]) {
      if Encode(v) <= input[pos..] {
        DictInside(input, pos, depth, nodes, v);
      }
    }
  }

  // Scalars.

  lemma {:induction false} ScalarNode(input: seq<Byte>, pos: nat, depth: nat, nodes: nat, value: Parsed, end: nat)
    requires (value.ParsedText? && pos <= end <= |input| && input[pos..end] == EncodeText(value.data))
          || (&& value.ParsedInteger? && pos <= end <= |input|
              && input[pos..end] == Encode(Integer(value.n)) && I64_MIN <= value.n <= I64_MAX)
    requires depth <= MAX_DEPTH && nodes < MAX_NODES
    ensures NodeOk(input, pos, depth, nodes, Node(value, pos, end), end, nodes + 1)
  {
  }

  lemma {:induction false} StartsWith(v: Value, input: seq<Byte>, pos: nat)
    requires pos <= |input| && Encode(v) <= input[pos..]
    ensures pos < |input|
    ensures v.Text? <==> IsDigit(input[pos])
    ensures v.Integer? <==> input[pos] == I
    ensures v.List? <==> input[pos] == L
    ensures v.Dict? <==> input[pos] == D
  {
    FirstByte(v);
    assert Encode(v)[0] == input[pos..][0];
  }

  /** Nothing at all starts here: an integer that does not parse, a text that does not parse, or a stray byte. */
  lemma {:induction false} ScalarNone(input: seq<Byte>, pos: nat, depth: nat, nodes: nat)
    requires pos <= |input|
    requires || pos == |input|
             || (input[pos] == I && forall n | I64_MIN <= n <= I64_MAX :: !(Encode(Integer(n)) <= input[pos..]))
             || (IsDigit(input[pos]) && forall data :: !(EncodeText(data) <= input[pos..]))
             || (input[pos] != I && input[pos] != L && input[pos] != D && !IsDigit(input[pos]))
    ensures NoneFits(input, pos, depth, nodes)
  {
    forall v | Fits(v, depth, nodes) ensures !(Encode(v) <= input[pos..]) {
      if Encode(v) <= input[pos..] {
        StartsWith(v, input, pos);
      }
    }
  }

  /** The errors that a value, as opposed to the whole input, can be refused with. */
  predicate Local(error: BencodeError) {
    error != TooLarge && !error.TrailingBytes?
  }

  class Parser {
    const input: seq<Byte>
    var position: nat
    var nodes: nat

    constructor (input: seq<Byte>)
      ensures this.input == input && position == 0 && nodes == 0
    {
      this.input := input;
      position, nodes := 0, 0;
    }

    ghost function Rest(): seq<Byte>
      requires position <= |input|
      reads this
    {
      input[position..]
    }

    method FindTerminator(token: Byte) returns (r: Result<nat, BencodeError>)
      requires position <= |input|
      ensures r.Ok? ==> position <= r.value < |input| && input[r.value] == token && token !in input[position..r.value]
      ensures r.Err? ==> token !in input[position..] && Local(r.error)
    {
      for p := position to |input|
        invariant token !in input[position..p]
      {
        if input[p] == token {
          return Ok(p);
        }
      }
      r := Err(Truncated);
    }

    method ParseInteger() returns (r: Result<int, BencodeError>)
      requires position < |input| && input[position] == I
      modifies `position
      ensures position <= |input|
      ensures r.Ok? ==>
                && I64_MIN <= r.value <= I64_MAX && old(position) <= position
                && input[old(position)..position] == Encode(Integer(r.value))
      ensures r.Err? ==>
                && Local(r.error)
                && forall n | I64_MIN <= n <= I64_MAX :: !(Encode(Integer(n)) <= input[old(position)..])
    {
      position := position + 1;
      var start := position;
      var end := FindTerminator(E);
      forall n | I64_MIN <= n <= I64_MAX && Encode(Integer(n)) <= input[old(position)..]
        ensures IntegerAt(input, start, n, end)
      {
        IntegerShape(input, start, n, end);
      }
      hide Encode, Numeral, ValueOf;
      if end.Err? {
        return Err(end.error);
      }
      var encoded := input[start..end.value];
      if !CanonicalInteger(encoded) {
        return Err(Invalid(start));
      }
      var value := ParseI64(encoded);
      if value.None? {
        return Err(Invalid(start));
      }
      IntegerParsed(input, start, end.value);
      position := end.value + 1;
      r := Ok(value.value);
    }

    method ParseText() returns (r: Result<seq<Byte>, BencodeError>)
      requires position <= |input| <= MAX_INPUT
      modifies `position
      ensures position <= |input|
      ensures r.Ok? ==> old(position) <= position && input[old(position)..position] == EncodeText(r.value)
      ensures r.Err? ==> Local(r.error) && forall data :: !(EncodeText(data) <= input[old(position)..])
    {
      var start := position;
      var colon := FindTerminator(COLON);
      forall data | EncodeText(data) <= input[start..] ensures TextAt(input, start, data, colon) {
        TextShape(input, start, data, colon);
      }
      if colon.Err? {
        return Err(colon.error);
      }
      var encoded := input[start..colon.value];
      if !CanonicalDigits(encoded) {
        return Err(Invalid(start));
      }
      var length := ValueOf(encoded);
      if length > U64_MAX {
        return Err(Invalid(start));
      }
      hide Digits, ValueOf;
      var valueStart := colon.value + 1;
      if valueStart + length > |input| {
        return Err(Truncated);
      }
      position := valueStart + length;
      r := Ok(input[valueStart..position]);
      DigitsOfValue(encoded);
    }

    /** Parses one value: exactly the ones there is room for, each with its range. */
    method ParseNode(depth: nat) returns (r: Result<Node, BencodeError>)
      requires position <= |input| <= MAX_INPUT
      modifies this
      ensures position <= |input|
      ensures r.Ok? ==> NodeOk(input, old(position), depth, old(nodes), r.value, position, nodes)
      ensures r.Err? ==> Local(r.error) && NoneFits(input, old(position), depth, old(nodes))
      decreases Max(MAX_DEPTH + 1 - depth, 0), 3
    {
      if depth > MAX_DEPTH {
        return Err(TooDeep);
      }
      nodes := nodes + 1;
      if nodes > MAX_NODES {
        NoRoom(input, position, depth, nodes - 1);
        return Err(TooManyNodes);
      }
      hide NodeOk, NoneFits;
      ghost var start := position;
      if position >= |input| {
        ScalarNone(input, start, depth, nodes - 1);
        return Err(Truncated);
      }
      var token := input[position];
      if token == I {
        r := IntegerNode(depth);
      } else if token == L {
        r := ListNode(depth);
      } else if token == D {
        r := DictionaryNode(depth);
      } else if IsDigit(token) {
        r := TextNode(depth);
      } else {
        ScalarNone(input, start, depth, nodes - 1);
        r := Err(Invalid(position));
      }
    }

    // The four kinds of value; `nodes` already counts the one being parsed.

    method IntegerNode(depth: nat) returns (r: Result<Node, BencodeError>)
      requires position < |input| <= MAX_INPUT && input[position] == I && depth <= MAX_DEPTH && 0 < nodes <= MAX_NODES
      modifies `position
      ensures position <= |input|
      ensures r.Ok? ==> NodeOk(input, old(position), depth, nodes - 1, r.value, position, nodes)
      ensures r.Err? ==> Local(r.error) && NoneFits(input, old(position), depth, nodes - 1)
    {
      hide NodeOk, NoneFits, Encode;
      var start := position;
      var n := ParseInteger();
      if n.Err? {
        ScalarNone(input, start, depth, nodes - 1);
        return Err(n.error);
      }
      ScalarNode(input, start, depth, nodes - 1, ParsedInteger(n.value), position);
      r := Ok(Node(ParsedInteger(n.value), start, position));
    }

    method TextNode(depth: nat) returns (r: Result<Node, BencodeError>)
      requires position < |input| <= MAX_INPUT && IsDigit(input[position]) && depth <= MAX_DEPTH
               && 0 < nodes <= MAX_NODES
      modifies `position
      ensures position <= |input|
      ensures r.Ok? ==> NodeOk(input, old(position), depth, nodes - 1, r.value, position, nodes)
      ensures r.Err? ==> Local(r.error) && NoneFits(input, old(position), depth, nodes - 1)
    {
      hide NodeOk, NoneFits, EncodeText;
      var start := position;
      var data := ParseText();
      if data.Err? {
        ScalarNone(input, start, depth, nodes - 1);
        return Err(data.error);
      }
      ScalarNode(input, start, depth, nodes - 1, ParsedText(data.value), position);
      r := Ok(Node(ParsedText(data.value), start, position));
    }

    method ListNode(depth: nat) returns (r: Result<Node, BencodeError>)
      requires position < |input| <= MAX_INPUT && input[position] == L && depth <= MAX_DEPTH && 0 < nodes <= MAX_NODES
      modifies this
      ensures position <= |input|
      ensures r.Ok? ==> NodeOk(input, old(position), depth, old(nodes) - 1, r.value, position, nodes)
      ensures r.Err? ==> Local(r.error) && NoneFits(input, old(position), depth, old(nodes) - 1)
      decreases Max(MAX_DEPTH + 1 - depth, 0), 2
    {
      hide NodeOk, NoneFits, NoItemsFit, ItemsOk;
      var start := position;
      var items := ParseList(depth);
      if items.Err? {
        ListNone(input, start, depth, old(nodes) - 1);
        return Err(items.error);
      }
      ListOk(input, start, depth, old(nodes) - 1, items.value, position - 1, nodes);
      r := Ok(Node(ParsedList(items.value), start, position));
    }

    method DictionaryNode(depth: nat) returns (r: Result<Node, BencodeError>)
      requires position < |input| <= MAX_INPUT && input[position] == D && depth <= MAX_DEPTH && 0 < nodes <= MAX_NODES
      modifies this
      ensures position <= |input|
      ensures r.Ok? ==> NodeOk(input, old(position), depth, old(nodes) - 1, r.value, position, nodes)
      ensures r.Err? ==> Local(r.error) && NoneFits(input, old(position), depth, old(nodes) - 1)
      decreases Max(MAX_DEPTH + 1 - depth, 0), 2
    {
      hide NodeOk, NoneFits, NoEntriesFit, EntriesOk;
      var start := position;
      var entries := ParseDictionary(depth);
      if entries.Err? {
        DictNone(input, start, depth, old(nodes) - 1);
        return Err(entries.error);
      }
      DictOk(input, start, depth, old(nodes) - 1, entries.value, position - 1, nodes);
      r := Ok(Node(ParsedDict(entries.value), start, position));
    }

    method ParseDictionary(depth: nat) returns (r: Result<seq<ParsedEntry>, BencodeError>)
      requires position < |input| <= MAX_INPUT && input[position] == D && depth <= MAX_DEPTH && nodes <= MAX_NODES
      modifies this
      ensures position <= |input|
      ensures r.Ok? ==> old(position) + 1 < position && input[position - 1] == E
      ensures r.Ok? ==> EntriesOk(input, old(position) + 1, depth + 1, old(nodes), r.value, position - 1, nodes)
      ensures r.Err? ==> Local(r.error) && NoEntriesFit(input, old(position) + 1, depth + 1, old(nodes))
      decreases Max(MAX_DEPTH + 1 - depth, 0), 1
    {
      position := position + 1;
      var entries := [];
      while position >= |input| || input[position] != E
        invariant EntriesOk(input, old(position) + 1, depth + 1, old(nodes), entries, position, nodes)
        decreases |input| - position
      {
        hide EntriesOk, NoEntriesFit;
        var entry := ParseEntry(depth, entries, old(position) + 1, old(nodes));
        if entry.Err? {
          return Err(entry.error);
        }
        entries := entries + [entry.value];
      }
      position := position + 1;
      r := Ok(entries);
    }

    /** One key and its value; the key must be larger than the one before. */
    method ParseEntry(
      depth: nat, entries: seq<ParsedEntry>, ghost begin: nat, ghost counted: nat)
      returns (r: Result<ParsedEntry, BencodeError>)
      requires position <= |input| <= MAX_INPUT && depth <= MAX_DEPTH && begin <= |input|
      requires position == |input| || input[position] != E
      requires EntriesOk(input, begin, depth + 1, counted, entries, position, nodes)
      modifies this
      ensures position <= |input|
      ensures r.Ok? ==>
                && EntriesOk(input, begin, depth + 1, counted, entries + [r.value], position, nodes)
                && old(position) < position
      ensures r.Err? ==> Local(r.error) && NoEntriesFit(input, begin, depth + 1, counted)
      decreases Max(MAX_DEPTH + 1 - depth, 0), 0
    {
      hide EntriesOk, NodeOk, NoneFits, NoEntriesFit, EncodeText;
      ghost var p, n := position, nodes;
      if position >= |input| || !IsDigit(input[position]) {
        EntriesStuck(input, begin, depth + 1, counted, entries, p, n);
        return Err(Invalid(position));
      }
      var keyStart := position;
      var key := ParseText();
      if key.Err? {
        EntriesStuck(input, begin, depth + 1, counted, entries, p, n);
        return Err(key.error);
      }
      ghost var q := position;
      if entries != [] && !Less(entries[|entries| - 1].key, key.value) {
        KeyDecides(input, depth + 1, entries, p, n, key.value, q);
        EntriesStuck(input, begin, depth + 1, counted, entries, p, n);
        return Err(UnsortedDictionary(keyStart));
      }
      var node := ParseNode(depth + 1);
      if node.Err? {
        KeyDecides(input, depth + 1, entries, p, n, key.value, q);
        EntriesStuck(input, begin, depth + 1, counted, entries, p, n);
        return Err(node.error);
      }
      EntriesGrow(input, begin, depth + 1, counted, entries, p, n, key.value, q, node.value, position, nodes);
      r := Ok(ParsedEntry(key.value, node.value));
    }

    method ParseList(depth: nat) returns (r: Result<seq<Node>, BencodeError>)
      requires position < |input| <= MAX_INPUT && input[position] == L && depth <= MAX_DEPTH && nodes <= MAX_NODES
      modifies this
      ensures position <= |input|
      ensures r.Ok? ==> old(position) + 1 < position && input[position - 1] == E
      ensures r.Ok? ==> ItemsOk(input, old(position) + 1, depth + 1, old(nodes), r.value, position - 1, nodes)
      ensures r.Err? ==> Local(r.error) && NoItemsFit(input, old(position) + 1, depth + 1, old(nodes))
      decreases Max(MAX_DEPTH + 1 - depth, 0), 0
    {
      position := position + 1;
      var items := [];
      while position >= |input| || input[position] != E
        invariant ItemsOk(input, old(position) + 1, depth + 1, old(nodes), items, position, nodes)
        decreases |input| - position
      {
        hide ItemsOk, NodeOk, NoneFits, NoItemsFit;
        ghost var p, n := position, nodes;
        var node := ParseNode(depth + 1);
        if node.Err? {
          ItemsStuck(input, old(position) + 1, depth + 1, old(nodes), items, p, n);
          return Err(node.error);
        }
        ItemsGrow(input, old(position) + 1, depth + 1, old(nodes), items, p, n, node.value, position, nodes);
        items := items + [node.value];
      }
      position := position + 1;
      r := Ok(items);
    }
  }

  // ----- The whole input -----

  /** A value within the parser's bounds starts the input. */
  ghost predicate Leads(v: Value, input: seq<Byte>) {
    Fits(v, 0, 0) && Encode(v) <= input
  }

  /** Accepts exactly the canonical encodings of values within the bounds, and returns that value with its ranges. */
  method ParseBencode(input: seq<Byte>) returns (r: Result<Node, BencodeError>)
    ensures r == Err(TooLarge) <==> |input| > MAX_INPUT
    ensures r.Ok? ==> Leads(Strip(r.value), input) && Encode(Strip(r.value)) == input && Ranged(input, r.value)
    ensures r.Ok? ==> r.value.start == 0 && r.value.end == |input|
    ensures |input| <= MAX_INPUT ==> forall v | Leads(v, input) ::
              if Encode(v) == input then r.Ok? && Strip(r.value) == v else r == Err(TrailingBytes(|Encode(v)|))
    ensures r.Err? && r.error.TrailingBytes? ==> exists v :: Leads(v, input) && Encode(v) < input
  {
    if |input| > MAX_INPUT {
      return Err(TooLarge);
    }
    var parser := new Parser(input);
    var node := parser.ParseNode(0);
    assert input[0..] == input;
    if node.Err? {
      return node;
    }
    ghost var v := Strip(node.value);
    assert input[0..parser.position] == Encode(v);
    assert Leads(v, input);
    forall w | Leads(w, input) ensures w == v {
      PrefixFree(w, v, input);
    }
    if parser.position != |input| {
      return Err(TrailingBytes(parser.position));
    }
    r := node;
  }

  lemma {:induction false} NoRoom(input: seq<Byte>, pos: nat, depth: nat, nodes: nat)
    requires pos <= |input| && nodes >= MAX_NODES
    ensures NoneFits(input, pos, depth, nodes)
  {
  }

  /** `n` is encoded just before `start`: its numeral runs up to the terminator. */
  ghost predicate IntegerAt(input: seq<Byte>, start: nat, n: int, end: Result<nat, BencodeError>)
    requires end.Ok? ==> start <= end.value < |input|
  {
    end.Ok? && CanonicalInteger(input[start..end.value]) && ParseI64(input[start..end.value]) == Some(n)
  }

  lemma {:induction false} IntegerShape(input: seq<Byte>, start: nat, n: int, end: Result<nat, BencodeError>)
    requires 0 < start <= |input| && I64_MIN <= n <= I64_MAX && Encode(Integer(n)) <= input[start - 1..]
    requires end.Ok? ==> start <= end.value < |input| && input[end.value] == E && E !in input[start..end.value]
    requires end.Err? ==> E !in input[start..]
    ensures IntegerAt(input, start, n, end)
  {
    var s := input[start..];
    assert Numeral(n) + [E] == Encode(Integer(n))[1..];
    assert input[start - 1..][1..] == s;
    assert s[|Numeral(n)|] == E;
    assert end.Ok?;
    assert input[start..end.value] == s[..end.value - start];
    SameUpTo(input[start..end.value], Numeral(n), E, s);
    NumeralIsAccepted(n);
  }

  lemma {:induction false} IntegerParsed(input: seq<Byte>, start: nat, end: nat)
    requires 0 < start <= end < |input| && input[start - 1] == I && input[end] == E
    requires CanonicalInteger(input[start..end]) && ParseI64(input[start..end]).Some?
    ensures input[start - 1..end + 1] == Encode(Integer(ParseI64(input[start..end]).value))
  {
    AcceptedIsNumeral(input[start..end]);
  }

  /** `data` is encoded at `start`: its length stands before the colon and its bytes after it. */
  ghost predicate TextAt(input: seq<Byte>, start: nat, data: seq<Byte>, colon: Result<nat, BencodeError>)
    requires colon.Ok? ==> start <= colon.value < |input|
  {
    && colon.Ok?
    && input[start..colon.value] == Digits(|data|) && CanonicalDigits(input[start..colon.value])
    && ValueOf(input[start..colon.value]) == |data|
    && colon.value + 1 + |data| <= |input|
  }

  lemma {:induction false} TextShape(input: seq<Byte>, start: nat, data: seq<Byte>, colon: Result<nat, BencodeError>)
    requires start <= |input| && EncodeText(data) <= input[start..]
    requires colon.Ok? ==>
               start <= colon.value < |input| && input[colon.value] == COLON && COLON !in input[start..colon.value]
    requires colon.Err? ==> COLON !in input[start..]
    ensures TextAt(input, start, data, colon)
  {
    var s := input[start..];
    var digits := Digits(|data|);
    assert digits + [COLON] <= EncodeText(data);
    assert s[|digits|] == COLON;
    assert colon.Ok?;
    assert input[start..colon.value] == s[..colon.value - start];
    SameUpTo(input[start..colon.value], digits, COLON, s);
    ValueOfDigits(|data|);
    assert |EncodeText(data)| == |digits| + 1 + |data|;
  }
}
