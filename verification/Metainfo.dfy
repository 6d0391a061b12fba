/** BitTorrent aliases of a metainfo file, taken from its validated raw `info` slice. */
module Metainfo {
  import opened Prelude
  import opened Decimal
  import opened ByteOrder
  import opened Bencode
  import opened BencodeParser

  type Sha = seq<Byte> -> seq<Byte>

  datatype Kind = V1 | V2 | Hybrid

  datatype Identity = Identity(kind: Kind, btih: Option<seq<Byte>>, btmh: Option<seq<Byte>>)

  datatype MetainfoError = Malformed(error: BencodeError) | MissingInfo | Unsupported | InvalidField(field: string)

  // ----- Lookup by binary search -----

  function Search(entries: seq<Entry>, key: seq<Byte>, lo: nat, hi: nat): (r: Option<nat>)
    requires lo <= hi <= |entries|
    ensures r.Some? ==> lo <= r.value < hi && entries[r.value].key == key
    decreases hi - lo
  {
    if lo == hi then None
    else
      var mid := lo + (hi - lo) / 2;
      if entries[mid].key == key then Some(mid)
      else if Less(entries[mid].key, key) then Search(entries, key, mid + 1, hi)
      else Search(entries, key, lo, mid)
  }

  lemma {:induction false} SortedPairs(entries: seq<Entry>, i: nat, j: nat)
    requires StrictlySorted(entries) && i < j < |entries|
    ensures Less(entries[i].key, entries[j].key)
    decreases j
  {
    if i < j - 1 {
      SortedPairs(entries, i, j - 1);
      LessTransitive(entries[i].key, entries[j - 1].key, entries[j].key);
    }
  }

  /** On strictly sorted keys the search misses nothing. */
  lemma {:induction false} SearchFinds(entries: seq<Entry>, key: seq<Byte>, lo: nat, hi: nat, k: nat)
    requires StrictlySorted(entries) && lo <= k < hi <= |entries| && entries[k].key == key
    ensures Search(entries, key, lo, hi) == Some(k)
    decreases hi - lo
  {
    var mid := lo + (hi - lo) / 2;
    LessIrreflexive(key);
    if mid < k {
      SortedPairs(entries, mid, k);
      SearchFinds(entries, key, mid + 1, hi, k);
    } else if k < mid {
      SortedPairs(entries, k, mid);
      if Less(entries[mid].key, key) {
        LessTransitive(key, entries[mid].key, key);
      }
      SearchFinds(entries, key, lo, mid, k);
    }
  }

  function Field(entries: seq<Entry>, name: string): Option<Value> {
    var i := Search(entries, Ascii(name), 0, |entries|);
    if i.Some? then Some(entries[i.value].value) else None
  }

  /** A field is what the dictionary holds under that key, if anything. */
  lemma {:induction false} FieldIsEntry(entries: seq<Entry>, name: string, v: Value)
    requires StrictlySorted(entries)
    ensures Field(entries, name) == Some(v) <==> Entry(Ascii(name), v) in entries
  {
    if Entry(Ascii(name), v) in entries {
      var k :| 0 <= k < |entries| && entries[k] == Entry(Ascii(name), v);
      SearchFinds(entries, Ascii(name), 0, |entries|, k);
    }
  }

  function TextField(entries: seq<Entry>, name: string): Option<seq<Byte>> {
    var v := Field(entries, name);
    if v.Some? && v.value.Text? then Some(v.value.data) else None
  }

  function IntegerField(entries: seq<Entry>, name: string): Option<int> {
    var v := Field(entries, name);
    if v.Some? && v.value.Integer? then Some(v.value.n) else None
  }

  function LengthField(entries: seq<Entry>): Option<nat> {
    var v := IntegerField(entries, "length");
    if v.Some? && v.value >= 0 then Some(v.value) else None
  }

  function CheckedAdd(a: nat, b: nat): Option<nat> {
    if a + b <= U64_MAX then Some(a + b) else None
  }

  // ----- The v1 payload length -----

  function FileLength(file: Value): Option<nat> {
    if !file.Dict? then None
    else
      var path := Field(file.entries, "path");
      if path.None? || !path.value.List? || path.value.items == [] then None
      else if exists part | part in path.value.items :: !part.Text? || part.data == [] then None
      else LengthField(file.entries)
  }

  function FilesFold(files: seq<Value>, total: nat): Option<nat> {
    if files == [] then Some(total)
    else
      var length := FileLength(files[0]);
      if length.None? then None
      else
        var sum := CheckedAdd(total, length.value);
        if sum.None? then None else FilesFold(files[1..], sum.value)
  }

  function V1PayloadLength(info: seq<Entry>): Option<nat> {
    var files := Field(info, "files");
    if Field(info, "length").Some? && files.None? then LengthField(info)
    else if Field(info, "length").None? && files.Some? && files.value.List? && files.value.items != [] then
      FilesFold(files.value.items, 0)
    else None
  }

  ghost predicate FilesOk(files: seq<Value>) {
    forall f | f in files :: FileLength(f).Some?
  }

  ghost function FilesSum(files: seq<Value>): nat {
    if files == [] then 0
    else (if FileLength(files[0]).Some? then FileLength(files[0]).value else 0) + FilesSum(files[1..])
  }

  /** The running checked sum overflows exactly when the true total does. */
  lemma {:induction false} FilesFoldIsSum(files: seq<Value>, total: nat)
    requires total <= U64_MAX
    ensures FilesFold(files, total)
         == if FilesOk(files) && total + FilesSum(files) <= U64_MAX then Some(total + FilesSum(files)) else None
  {
    if files != [] {
      assert files == [files[0]] + files[1..];
      assert FilesOk(files) <==> FileLength(files[0]).Some? && FilesOk(files[1..]);
      if FileLength(files[0]).Some? && total + FileLength(files[0]).value <= U64_MAX {
        FilesFoldIsSum(files[1..], total + FileLength(files[0]).value);
      }
    }
  }

  // ----- The v2 file tree -----

  predicate IsLeaf(entries: seq<Entry>) {
    |entries| == 1 && entries[0].key == []
  }

  function LeafLength(leaf: Value): Option<nat> {
    if !leaf.Dict? then None
    else
      var length, root := LengthField(leaf.entries), TextField(leaf.entries, "pieces root");
      if length.Some? && length.value > 0 && (root.None? || |root.value| != 32) then None else length
  }

  function V2TreeLength(entries: seq<Entry>): Option<nat>
    decreases entries, 1
  {
    if entries == [] then None
    else if IsLeaf(entries) then LeafLength(entries[0].value)
    else TreeFold(entries, 0)
  }

  function TreeFold(entries: seq<Entry>, total: nat): Option<nat>
    decreases entries, 0
  {
    if entries == [] then Some(total)
    else if entries[0].key == [] || !entries[0].value.Dict? then None
    else
      var child := V2TreeLength(entries[0].value.entries);
      if child.None? then None
      else
        var sum := CheckedAdd(total, child.value);
        if sum.None? then None else TreeFold(entries[1..], sum.value)
  }

  /** Every path through the tree ends in a well-formed leaf, and no name along it is empty. */
  ghost predicate TreeOk(entries: seq<Entry>)
    decreases entries, 1
  {
    entries != [] && if IsLeaf(entries) then LeafLength(entries[0].value).Some? else ForestOk(entries)
  }

  ghost predicate ForestOk(entries: seq<Entry>)
    decreases entries, 0
  {
    entries == []
    || (entries[0].key != [] && entries[0].value.Dict? && TreeOk(entries[0].value.entries) && ForestOk(entries[1..]))
  }

  /** The lengths of the files, in tree order. */
  ghost function Leaves(entries: seq<Entry>): seq<nat>
    decreases entries, 1
  {
    if entries != [] && IsLeaf(entries) then
      if LeafLength(entries[0].value).Some? then [LeafLength(entries[0].value).value] else []
    else ForestLeaves(entries)
  }

  ghost function ForestLeaves(entries: seq<Entry>): seq<nat>
    decreases entries, 0
  {
    if entries == [] then []
    else (if entries[0].value.Dict? then Leaves(entries[0].value.entries) else []) + ForestLeaves(entries[1..])
  }

  ghost function Sum(lengths: seq<nat>): nat {
    if lengths == [] then 0 else lengths[0] + Sum(lengths[1..])
  }

  lemma {:induction false} SumConcat(a: seq<nat>, b: seq<nat>)
    ensures Sum(a + b) == Sum(a) + Sum(b)
  {
    if a == [] {
      assert a + b == b;
    } else {
      assert (a + b)[1..] == a[1..] + b;
      SumConcat(a[1..], b);
    }
  }

  /** The length of a tree is the sum of its files' lengths, whatever the nesting, unless it exceeds 64 bits. */
  lemma {:induction false} TreeLengthIsSum(entries: seq<Entry>)
    requires forall e | e in entries :: Canonical(e.value)
    ensures V2TreeLength(entries)
         == if TreeOk(entries) && Sum(Leaves(entries)) <= U64_MAX then Some(Sum(Leaves(entries))) else None
    decreases entries, 1
  {
    if entries != [] && IsLeaf(entries) {
      LeafIsSmall(entries[0].value);
    } else {
      TreeFoldIsSum(entries, 0);
    }
  }

  lemma {:induction false} LeafIsSmall(leaf: Value)
    requires Canonical(leaf)
    ensures LeafLength(leaf).Some? ==> LeafLength(leaf).value <= U64_MAX
  {
  }

  lemma {:induction false} TreeFoldIsSum(entries: seq<Entry>, total: nat)
    requires total <= U64_MAX && forall e | e in entries :: Canonical(e.value)
    ensures var sum := total + Sum(ForestLeaves(entries));
            TreeFold(entries, total) == if ForestOk(entries) && sum <= U64_MAX then Some(sum) else None
    decreases entries, 0
  {
    hide V2TreeLength, Leaves, TreeOk, LeafLength, Less, Within;
    if entries != [] && entries[0].key != [] && entries[0].value.Dict? {
      var child := entries[0].value.entries;
      assert Canonical(entries[0].value);
      TreeLengthIsSum(child);
      SumConcat(Leaves(child), ForestLeaves(entries[1..]));
      var length := V2TreeLength(child);
      if length.Some? && total + length.value <= U64_MAX {
        TreeFoldIsSum(entries[1..], total + length.value);
      }
    }
  }

  // ----- The identity -----

  function V2Length(info: seq<Entry>): Option<nat> {
    var tree := Field(info, "file tree");
    if tree.Some? && tree.value.Dict? then V2TreeLength(tree.value.entries) else None
  }

  predicate IsV1(info: seq<Entry>, pieceLength: nat)
    requires pieceLength > 0
  {
    var pieces, length := TextField(info, "pieces"), V1PayloadLength(info);
    pieces.Some? && length.Some? && |pieces.value| == Min(20 * CeilDiv(length.value, pieceLength), U64_MAX)
  }

  predicate IsV2(info: seq<Entry>) {
    IntegerField(info, "meta version") == Some(2) && V2Length(info).Some?
  }

  function Classify(info: seq<Entry>): (r: Result<Kind, MetainfoError>)
    ensures r.Err? ==> !r.error.Malformed?
  {
    var pieceLength := IntegerField(info, "piece length");
    if pieceLength.None? || pieceLength.value <= 0 then Err(InvalidField("piece length"))
    else
      var v1, v2 := IsV1(info, pieceLength.value), IsV2(info);
      var version := IntegerField(info, "meta version");
      if version.Some? && version != Some(2) then Err(InvalidField("meta version"))
      else if TextField(info, "pieces").Some? && !v1 then Err(InvalidField("v1 pieces or file layout"))
      else if version.Some? && !v2 then Err(InvalidField("v2 file tree"))
      else if v1 && v2 && V1PayloadLength(info) != V2Length(info) then Err(InvalidField("hybrid payload length"))
      else if v1 && v2 then Ok(Hybrid)
      else if v1 then Ok(V1)
      else if v2 then Ok(V2)
      else Err(Unsupported)
  }

  function Identify(kind: Kind, raw: seq<Byte>, sha1: Sha, sha256: Sha): Identity {
    Identity(kind, if kind != V2 then Some(sha1(raw)) else None, if kind != V1 then Some(sha256(raw)) else None)
  }

  /** A well-formed single-file or multi-file v1 layout whose files hold `total` bytes in all. */
  ghost predicate V1Total(info: seq<Entry>, total: nat) {
    var files := Field(info, "files");
    if files.None? then LengthField(info) == Some(total)
    else
      && Field(info, "length").None? && files.value.List? && files.value.items != []
      && FilesOk(files.value.items) && total == FilesSum(files.value.items) <= U64_MAX
  }

  ghost predicate V2Total(info: seq<Entry>, total: nat) {
    var tree := Field(info, "file tree");
    && tree.Some? && tree.value.Dict? && TreeOk(tree.value.entries)
    && total == Sum(Leaves(tree.value.entries)) <= U64_MAX
  }

  lemma {:induction false} V1LengthIsTotal(info: seq<Entry>, total: nat)
    ensures V1PayloadLength(info) == Some(total) <==> V1Total(info, total)
  {
    var files := Field(info, "files");
    if files.Some? && files.value.List? {
      FilesFoldIsSum(files.value.items, 0);
    }
  }

  lemma {:induction false} V2LengthIsTotal(info: seq<Entry>, total: nat)
    requires Canonical(Dict(info))
    ensures V2Length(info) == Some(total) <==> V2Total(info, total)
  {
    var tree := Field(info, "file tree");
    if tree.Some? && tree.value.Dict? {
      assert Canonical(tree.value);
      TreeLengthIsSum(tree.value.entries);
    }
  }

  lemma {:induction false} EntryIsShorter(entries: seq<Entry>, k: nat)
    requires k < |entries|
    ensures |Encode(entries[k].value)| <= |EncodeEntries(entries)|
  {
    if k > 0 {
      EntryIsShorter(entries[1..], k - 1);
    }
  }

  /** One 20-byte digest for every piece of the payload, the last one possibly short. */
  ghost predicate PiecesCover(info: seq<Entry>, total: nat, pieceLength: nat)
    requires pieceLength > 0
  {
    TextField(info, "pieces").Some? && |TextField(info, "pieces").value| == 20 * CeilDiv(total, pieceLength)
  }

  lemma {:induction false} IsV1Means(info: seq<Entry>, pieceLength: nat)
    requires pieceLength > 0 && |Encode(Dict(info))| <= MAX_INPUT
    ensures IsV1(info, pieceLength) <==> exists total :: V1Total(info, total) && PiecesCover(info, total, pieceLength)
  {
    var k := Search(info, Ascii("pieces"), 0, |info|);
    if k.Some? {
      EntryIsShorter(info, k.value);
    }
    if V1PayloadLength(info).Some? {
      V1LengthIsTotal(info, V1PayloadLength(info).value);
    }
    forall total: nat | V1Total(info, total) ensures V1PayloadLength(info) == Some(total) {
      V1LengthIsTotal(info, total);
    }
  }

  ghost predicate HasPieceLength(info: seq<Entry>) {
    IntegerField(info, "piece length").Some? && IntegerField(info, "piece length").value > 0
  }

  /** Complete v1 metadata for a payload of `total` bytes. */
  ghost predicate V1For(info: seq<Entry>, total: nat) {
    HasPieceLength(info) && V1Total(info, total) && PiecesCover(info, total, IntegerField(info, "piece length").value)
  }

  /** Complete v2 metadata for a payload of `total` bytes. */
  ghost predicate V2For(info: seq<Entry>, total: nat) {
    HasPieceLength(info) && IntegerField(info, "meta version") == Some(2) && V2Total(info, total)
  }

  lemma {:induction false} IsV2Means(info: seq<Entry>)
    requires Canonical(Dict(info)) && HasPieceLength(info)
    ensures IsV2(info) <==> exists total :: V2For(info, total)
  {
    hide V2Length, V2Total;
    if IsV2(info) {
      V2LengthIsTotal(info, V2Length(info).value);
      assert V2For(info, V2Length(info).value);
    }
    forall total: nat | V2Total(info, total) ensures V2Length(info) == Some(total) {
      V2LengthIsTotal(info, total);
    }
  }

  lemma {:induction false} IsV1For(info: seq<Entry>)
    requires |Encode(Dict(info))| <= MAX_INPUT && HasPieceLength(info)
    ensures IsV1(info, IntegerField(info, "piece length").value) <==> exists total :: V1For(info, total)
  {
    hide IsV1, V1Total, PiecesCover;
    IsV1Means(info, IntegerField(info, "piece length").value);
    forall total: nat | V1Total(info, total) && PiecesCover(info, total, IntegerField(info, "piece length").value)
      ensures V1For(info, total)
    {
    }
  }

  /**
   * Exactly which dictionaries are recognised, and as what: the two forms of a hybrid describe payloads of one size.
   */
  lemma {:induction false} ClassifyExactly(info: seq<Entry>)
    requires Canonical(Dict(info)) && |Encode(Dict(info))| <= MAX_INPUT
    ensures Classify(info) == Ok(V1) <==>
              (exists total :: V1For(info, total)) && IntegerField(info, "meta version").None?
    ensures Classify(info) == Ok(V2) <==> (exists total :: V2For(info, total)) && TextField(info, "pieces").None?
    ensures Classify(info) == Ok(Hybrid) <==> exists total :: V1For(info, total) && V2For(info, total)
  {
    hide V1PayloadLength, V2Length, V1Total, V2Total, IsV1, IsV2;
    if HasPieceLength(info) {
      IsV1For(info);
      IsV2Means(info);
      forall total: nat ensures V1For(info, total) ==> V1PayloadLength(info) == Some(total) {
        V1LengthIsTotal(info, total);
      }
      forall total: nat ensures V2For(info, total) ==> V2Length(info) == Some(total) {
        V2LengthIsTotal(info, total);
      }
      V2Version(info);
    }
  }

  lemma {:induction false} V2Version(info: seq<Entry>)
    ensures IsV2(info) ==> IntegerField(info, "meta version") == Some(2)
  {
  }

  /** The aliases of a metainfo value: digests of the canonical encoding of its info dictionary, and of nothing else. */
  function IdentityOf(root: Value, sha1: Sha, sha256: Sha): Result<Identity, MetainfoError> {
    if !root.Dict? then Err(MissingInfo)
    else
      var info := Field(root.entries, "info");
      if info.None? || !info.value.Dict? then Err(MissingInfo)
      else
        var kind := Classify(info.value.entries);
        if kind.Err? then Err(kind.error) else Ok(Identify(kind.value, Encode(info.value), sha1, sha256))
  }

  method TorrentIdentity(metainfo: seq<Byte>, sha1: Sha, sha256: Sha) returns (r: Result<Identity, MetainfoError>)
    ensures r.Err? && r.error.Malformed? <==>
              |metainfo| > MAX_INPUT || forall v :: Fits(v, 0, 0) ==> Encode(v) != metainfo
    ensures forall v | Leads(v, metainfo) && Encode(v) == metainfo && |metainfo| <= MAX_INPUT ::
              r == IdentityOf(v, sha1, sha256)
  {
    hide IdentityOf, Encode, Fits, Strip, Ranged;
    var root := ParseBencode(metainfo);
    if root.Err? {
      return Err(Malformed(root.error));
    }
    ghost var v := Strip(root.value);
    assert Leads(v, metainfo);
    r := IdentityOfParsed(metainfo, root.value, sha1, sha256);
  }

  method IdentityOfParsed(
    metainfo: seq<Byte>, root: Node, sha1: Sha, sha256: Sha) returns (r: Result<Identity, MetainfoError>)
    requires Ranged(metainfo, root)
    ensures r == IdentityOf(Strip(root), sha1, sha256) && (r.Err? ==> !r.error.Malformed?)
  {
    hide Encode, Search, Classify;
    if !root.value.ParsedDict? {
      return Err(MissingInfo);
    }
    var entries := root.value.entries;
    var index := Search(StripEntries(entries), Ascii("info"), 0, |entries|);
    if index.None? {
      return Err(MissingInfo);
    }
    var info := entries[index.value].node;
    assert Ranged(metainfo, info);
    if !info.value.ParsedDict? {
      return Err(MissingInfo);
    }
    var kind := Classify(StripEntries(info.value.entries));
    if kind.Err? {
      return Err(kind.error);
    }
    r := Ok(Identify(kind.value, metainfo[info.start..info.end], sha1, sha256));
  }
}
