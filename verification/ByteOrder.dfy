/** The byte-lexicographic order, and maps kept in that order. */
module ByteOrder {
  import opened Prelude

  /** A proper prefix comes first. */
  predicate Less(a: seq<Byte>, b: seq<Byte>) {
    b != [] && (a == [] || a[0] < b[0] || (a[0] == b[0] && Less(a[1..], b[1..])))
  }

  lemma {:induction false} LessTransitive(a: seq<Byte>, b: seq<Byte>, c: seq<Byte>)
    requires Less(a, b) && Less(b, c)
    ensures Less(a, c)
  {
    if a != [] && a[0] == b[0] == c[0] {
      LessTransitive(a[1..], b[1..], c[1..]);
    }
  }

  lemma {:induction false} LessIrreflexive(a: seq<Byte>)
    ensures !Less(a, a)
  {
    if a != [] {
      LessIrreflexive(a[1..]);
    }
  }

  lemma {:induction false} LessTotal(a: seq<Byte>, b: seq<Byte>)
    requires a != b && !Less(a, b)
    ensures Less(b, a)
  {
    if a != [] && b != [] && a[0] == b[0] {
      assert a == [a[0]] + a[1..] && b == [b[0]] + b[1..];
      LessTotal(a[1..], b[1..]);
    }
  }

  // ----- Ordered maps -----

  datatype Item<V> = Item(key: seq<Byte>, value: V)

  ghost predicate Sorted<V>(m: seq<Item<V>>) {
    forall i, j | 0 <= i < j < |m| :: Less(m[i].key, m[j].key)
  }

  function Get<V>(m: seq<Item<V>>, k: seq<Byte>): Option<V> {
    if m == [] then None else if m[0].key == k then Some(m[0].value) else Get(m[1..], k)
  }

  predicate Has<V>(m: seq<Item<V>>, k: seq<Byte>) {
    Get(m, k).Some?
  }

  /** Insert or replace. */
  function Put<V>(m: seq<Item<V>>, k: seq<Byte>, v: V): seq<Item<V>> {
    if m == [] then [Item(k, v)]
    else if m[0].key == k then [Item(k, v)] + m[1..]
    else if Less(k, m[0].key) then [Item(k, v)] + m
    else [m[0]] + Put(m[1..], k, v)
  }

  function Remove<V>(m: seq<Item<V>>, k: seq<Byte>): seq<Item<V>> {
    if m == [] then [] else if m[0].key == k then m[1..] else [m[0]] + Remove(m[1..], k)
  }

  lemma {:induction false} GetIsMember<V>(m: seq<Item<V>>, k: seq<Byte>)
    ensures Has(m, k) ==> Item(k, Get(m, k).value) in m
    ensures !Has(m, k) ==> forall x | x in m :: x.key != k
  {
    if m != [] {
      GetIsMember(m[1..], k);
      assert m == [m[0]] + m[1..];
    }
  }

  lemma {:induction false} MemberIsGet<V>(m: seq<Item<V>>, i: nat)
    requires Sorted(m) && i < |m|
    ensures Get(m, m[i].key) == Some(m[i].value)
  {
    if i > 0 {
      LessIrreflexive(m[i].key);
      assert Less(m[0].key, m[i].key);
      SortedTail(m);
      MemberIsGet(m[1..], i - 1);
    }
  }

  lemma {:induction false} SortedTail<V>(m: seq<Item<V>>)
    requires Sorted(m) && m != []
    ensures Sorted(m[1..]) && forall x | x in m[1..] :: Less(m[0].key, x.key)
  {
  }

  lemma {:induction false} SortedCons<V>(x: Item<V>, m: seq<Item<V>>)
    requires Sorted(m) && forall y | y in m :: Less(x.key, y.key)
    ensures Sorted([x] + m)
  {
  }

  lemma {:induction false} BeforeAll<V>(m: seq<Item<V>>, k: seq<Byte>)
    requires Sorted(m) && m != [] && Less(k, m[0].key)
    ensures !Has(m, k) && forall y | y in m :: Less(k, y.key)
  {
    SortedTail(m);
    forall y | y in m ensures Less(k, y.key) {
      if y != m[0] {
        LessTransitive(k, m[0].key, y.key);
      }
    }
    LessIrreflexive(k);
    GetIsMember(m, k);
  }

  lemma {:induction false} PutKeys<V>(m: seq<Item<V>>, k: seq<Byte>, v: V)
    ensures forall x | x in Put(m, k, v) :: x == Item(k, v) || x in m
  {
    if m != [] && m[0].key != k && !Less(k, m[0].key) {
      PutKeys(m[1..], k, v);
    }
  }

  lemma {:induction false} PutSorted<V>(m: seq<Item<V>>, k: seq<Byte>, v: V)
    requires Sorted(m)
    ensures Sorted(Put(m, k, v))
    ensures |Put(m, k, v)| == if Has(m, k) then |m| else |m| + 1
  {
    if m == [] {
    } else {
      SortedTail(m);
      if m[0].key == k {
        SortedCons(Item(k, v), m[1..]);
      } else if Less(k, m[0].key) {
        BeforeAll(m, k);
        SortedCons(Item(k, v), m);
      } else {
        LessTotal(k, m[0].key);
        PutSorted(m[1..], k, v);
        PutKeys(m[1..], k, v);
        SortedCons(m[0], Put(m[1..], k, v));
      }
    }
  }

  lemma {:induction false} GetPut<V>(m: seq<Item<V>>, k: seq<Byte>, v: V, j: seq<Byte>)
    requires Sorted(m)
    ensures Get(Put(m, k, v), j) == if j == k then Some(v) else Get(m, j)
  {
    if m != [] {
      SortedTail(m);
      assert Put(m, k, v)[1..] == if m[0].key == k then m[1..] else if Less(k, m[0].key) then m else Put(m[1..], k, v);
      if m[0].key != k && !Less(k, m[0].key) {
        GetPut(m[1..], k, v, j);
      }
    }
  }

  lemma {:induction false} RemoveSorted<V>(m: seq<Item<V>>, k: seq<Byte>)
    requires Sorted(m)
    ensures Sorted(Remove(m, k)) && |Remove(m, k)| <= |m| && forall x | x in Remove(m, k) :: x in m
  {
    if m != [] {
      SortedTail(m);
      if m[0].key != k {
        RemoveSorted(m[1..], k);
        SortedCons(m[0], Remove(m[1..], k));
      }
    }
  }

  lemma {:induction false} GetRemove<V>(m: seq<Item<V>>, k: seq<Byte>, j: seq<Byte>)
    requires Sorted(m)
    ensures Get(Remove(m, k), j) == if j == k then None else Get(m, j)
  {
    if m != [] {
      SortedTail(m);
      if m[0].key == k {
        GetIsMember(m[1..], k);
        LessIrreflexive(k);
      } else {
        GetRemove(m[1..], k, j);
        assert Remove(m, k)[1..] == Remove(m[1..], k);
      }
    }
  }
}
