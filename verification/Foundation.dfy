/** Fixed-width numbers, byte strings, identities and checked counters. */
module Foundation {

  const MAX_U64: nat := 0xFFFF_FFFF_FFFF_FFFF
  const MAX_U32: nat := 0xFFFF_FFFF

  type u64 = n: nat | n <= MAX_U64
  type u32 = n: nat | n <= MAX_U32
  type i64 = n: int | -0x8000_0000_0000_0000 <= n < 0x8000_0000_0000_0000
  type byte = n: nat | n < 256

  /** A std::string: a sequence of bytes. */
  type Text = seq<byte>

  /** A StrongId. The empty text is the explicit UNKNOWN identity. */
  type Id = Text

  /** Milliseconds since the Unix epoch; only positive values are known instants. */
  type Timestamp = i64

  datatype Option<+T> = None | Some(value: T) {
    function GetOr(default: T): T {
      if Some? then value else default
    }
  }

  /** The bytes of an ASCII literal. */
  function Ascii(s: string): Text {
    seq(|s|, i requires 0 <= i < |s| => (s[i] as nat) % 256)
  }

  predicate IdentityByte(b: byte) {
    || '0' as nat <= b <= '9' as nat
    || 'a' as nat <= b <= 'z' as nat
    || 'A' as nat <= b <= 'Z' as nat
    || b == '-' as nat || b == '_' as nat || b == '.' as nat || b == ':' as nat || b == '@' as nat
  }

  const DOT: byte := '.' as nat

  /** validate_identity: bounded, over the identity alphabet, and free of "." and "..". */
  predicate IsIdentity(t: Text) {
    && 1 <= |t| <= 128
    && (forall i | 0 <= i < |t| :: IdentityByte(t[i]))
    && t != [DOT]
    && (forall i | 0 <= i < |t| - 1 :: !(t[i] == DOT && t[i + 1] == DOT))
  }

  /** validate_label: bounded, printable ASCII and not empty. */
  predicate IsLabel(t: Text) {
    1 <= |t| <= 128 && forall i | 0 <= i < |t| :: 0x20 <= t[i] <= 0x7E
  }

  /** StrongCounter::next: the successor, or nothing at the last representable value. */
  function Next(counter: u64): (r: Option<u64>)
    ensures r.Some? <==> counter < MAX_U64
    ensures r.Some? ==> r.value > counter && r.value != 0
  {
    if counter == MAX_U64 then None else Some(counter + 1)
  }
}

/** The byte-wise lexicographic order of std::string. */
module TextOrder {
  import opened Foundation

  predicate Less(a: Text, b: Text) {
    b != [] && (a == [] || a[0] < b[0] || (a[0] == b[0] && Less(a[1..], b[1..])))
  }

  lemma {:induction false} Irreflexive(a: Text)
    ensures !Less(a, a)
  {
    if a != [] { Irreflexive(a[1..]); }
  }

  lemma {:induction false} Transitive(a: Text, b: Text, c: Text)
    requires Less(a, b) && Less(b, c)
    ensures Less(a, c)
  {
    if a != [] && a[0] == b[0] == c[0] { Transitive(a[1..], b[1..], c[1..]); }
  }

  lemma {:induction false} Trichotomy(a: Text, b: Text)
    ensures Less(a, b) || a == b || Less(b, a)
  {
    if a != [] && b != [] && a[0] == b[0] {
      Trichotomy(a[1..], b[1..]);
      if a[1..] == b[1..] { assert a == [a[0]] + a[1..] == b; }
    }
  }
}

/** std::sort and std::unique over an arbitrary comparison. */
module Sorting {
  import opened Foundation
  import opened TextOrder

  ghost predicate StrictOrder<T(!new)>(lt: (T, T) -> bool) {
    && (forall a :: !lt(a, a))
    && (forall a, b, c :: lt(a, b) && lt(b, c) ==> lt(a, c))
    && (forall a, b, c :: lt(a, c) ==> lt(a, b) || lt(b, c))
  }

  ghost predicate Ascending<T>(s: seq<T>, lt: (T, T) -> bool) {
    forall i, j | 0 <= i < j < |s| :: lt(s[i], s[j])
  }

  ghost predicate NonDescending<T>(s: seq<T>, lt: (T, T) -> bool) {
    forall i, j | 0 <= i < j < |s| :: !lt(s[j], s[i])
  }

  /** Inserts x behind every element that is not greater. */
  function Insert<T>(x: T, s: seq<T>, lt: (T, T) -> bool): seq<T> {
    if s == [] || !lt(x, s[|s| - 1]) then s + [x]
    else Insert(x, s[..|s| - 1], lt) + [s[|s| - 1]]
  }

  function Sort<T>(s: seq<T>, lt: (T, T) -> bool): seq<T> {
    if s == [] then [] else Insert(s[|s| - 1], Sort(s[..|s| - 1], lt), lt)
  }

  /** std::unique on a sorted sequence: the first element of every run of equals. */
  function DropRepeats<T>(s: seq<T>, lt: (T, T) -> bool): seq<T> {
    if |s| <= 1 then s
    else if lt(s[|s| - 2], s[|s| - 1]) then DropRepeats(s[..|s| - 1], lt) + [s[|s| - 1]]
    else DropRepeats(s[..|s| - 1], lt)
  }

  function SortUnique<T>(s: seq<T>, lt: (T, T) -> bool): seq<T> {
    DropRepeats(Sort(s, lt), lt)
  }

  lemma {:induction false} InsertIsPermutation<T>(x: T, s: seq<T>, lt: (T, T) -> bool)
    ensures multiset(Insert(x, s, lt)) == multiset(s) + multiset{x}
  {
    if !(s == [] || !lt(x, s[|s| - 1])) {
      InsertIsPermutation(x, s[..|s| - 1], lt);
      assert s == s[..|s| - 1] + [s[|s| - 1]];
    }
  }

  lemma {:induction false} SortIsPermutation<T>(s: seq<T>, lt: (T, T) -> bool)
    ensures multiset(Sort(s, lt)) == multiset(s)
    ensures |Sort(s, lt)| == |s|
  {
    if s != [] {
      SortIsPermutation(s[..|s| - 1], lt);
      InsertIsPermutation(s[|s| - 1], Sort(s[..|s| - 1], lt), lt);
      assert s == s[..|s| - 1] + [s[|s| - 1]];
    }
    assert |multiset(Sort(s, lt))| == |multiset(s)|;
  }

  lemma {:induction false} InsertKeepsOrder<T(!new)>(x: T, s: seq<T>, lt: (T, T) -> bool)
    requires StrictOrder(lt) && NonDescending(s, lt)
    ensures NonDescending(Insert(x, s, lt), lt)
  {
    if s == [] {
    } else if !lt(x, s[|s| - 1]) {
      assert forall i | 0 <= i < |s| :: !lt(x, s[i]);
    } else {
      var rest := s[..|s| - 1];
      InsertKeepsOrder(x, rest, lt);
      InsertIsPermutation(x, rest, lt);
      var r := Insert(x, rest, lt);
      forall i | 0 <= i < |r| ensures !lt(s[|s| - 1], r[i]) {
        assert r[i] in multiset(r);
      }
    }
  }

  lemma {:induction false} SortOrders<T(!new)>(s: seq<T>, lt: (T, T) -> bool)
    requires StrictOrder(lt)
    ensures NonDescending(Sort(s, lt), lt)
  {
    if s != [] {
      SortOrders(s[..|s| - 1], lt);
      InsertKeepsOrder(s[|s| - 1], Sort(s[..|s| - 1], lt), lt);
    }
  }

  /** Unique keeps exactly one representative of every class and orders strictly. */
  lemma {:induction false} DropRepeatsIsStrict<T(!new)>(s: seq<T>, lt: (T, T) -> bool)
    requires StrictOrder(lt) && NonDescending(s, lt)
    ensures Ascending(DropRepeats(s, lt), lt)
    ensures |DropRepeats(s, lt)| <= |s|
    ensures s != [] ==> DropRepeats(s, lt) != []
    ensures s != [] ==> !lt(DropRepeats(s, lt)[|DropRepeats(s, lt)| - 1], s[|s| - 1])
                        && !lt(s[|s| - 1], DropRepeats(s, lt)[|DropRepeats(s, lt)| - 1])
    ensures forall x | x in DropRepeats(s, lt) :: x in s
    ensures forall x | x in s :: exists y | y in DropRepeats(s, lt) :: !lt(x, y) && !lt(y, x)
  {
    if |s| > 1 {
      var front, last := s[..|s| - 1], s[|s| - 1];
      DropRepeatsIsStrict(front, lt);
      var kept := DropRepeats(front, lt);
      assert s == front + [last];
      if lt(s[|s| - 2], last) {
        forall i | 0 <= i < |kept| ensures lt(kept[i], last) {
          assert !lt(kept[|kept| - 1], kept[i]) || i == |kept| - 1;
        }
      } else {
        var y := kept[|kept| - 1];
        assert !lt(last, y) && !lt(y, last);
      }
    }
  }

  ghost predicate Comparable<T>(a: T, b: T, lt: (T, T) -> bool) { lt(a, b) || lt(b, a) }

  ghost predicate PairwiseDistinct<T>(s: seq<T>, lt: (T, T) -> bool) {
    forall i, j | 0 <= i < j < |s| :: Comparable(s[i], s[j], lt)
  }

  lemma {:induction false} InsertIsStrict<T(!new)>(x: T, s: seq<T>, lt: (T, T) -> bool)
    requires StrictOrder(lt) && Ascending(s, lt) && forall y | y in s :: Comparable(x, y, lt)
    ensures Ascending(Insert(x, s, lt), lt)
  {
    if s != [] && lt(x, s[|s| - 1]) {
      var rest := s[..|s| - 1];
      InsertIsStrict(x, rest, lt);
      InsertIsPermutation(x, rest, lt);
      var r := Insert(x, rest, lt);
      forall i | 0 <= i < |r| ensures lt(r[i], s[|s| - 1]) {
        assert r[i] in multiset(r);
      }
    } else if s != [] {
      assert Comparable(x, s[|s| - 1], lt);
      forall i | 0 <= i < |s| ensures lt(s[i], x) {}
    }
  }

  /** Sorting pairwise distinct keys orders them strictly. */
  lemma {:induction false} SortIsStrict<T(!new)>(s: seq<T>, lt: (T, T) -> bool)
    requires StrictOrder(lt) && PairwiseDistinct(s, lt)
    ensures Ascending(Sort(s, lt), lt)
  {
    if s != [] {
      var front, last := s[..|s| - 1], s[|s| - 1];
      SortIsStrict(front, lt);
      SortIsPermutation(front, lt);
      forall y | y in Sort(front, lt) ensures Comparable(last, y, lt) {
        assert y in multiset(front);
        var i :| 0 <= i < |front| && front[i] == y;
        assert Comparable(s[i], s[|s| - 1], lt);
      }
      InsertIsStrict(last, Sort(front, lt), lt);
    }
  }

  /** push_back followed by sort: the same elements and the new one. */
  lemma SortAdds<T>(s: seq<T>, x: T, lt: (T, T) -> bool)
    ensures forall y :: y in Sort(s + [x], lt) <==> y in s || y == x
  {
    SortIsPermutation(s + [x], lt);
    forall y ensures y in Sort(s + [x], lt) <==> y in s || y == x {
      assert y in multiset(Sort(s + [x], lt)) <==> y in multiset(s + [x]);
    }
  }

  predicate Before(a: Text, b: Text) { Less(a, b) }

  lemma TextIsOrdered()
    ensures StrictOrder(Before)
    ensures forall a: Text, b: Text :: !Before(a, b) && !Before(b, a) ==> a == b
  {
    forall a: Text ensures !Before(a, a) { Irreflexive(a); }
    forall a: Text, b: Text, c: Text | Before(a, b) && Before(b, c) ensures Before(a, c) { Transitive(a, b, c); }
    forall a: Text, b: Text | !Before(a, b) && !Before(b, a) ensures a == b { Trichotomy(a, b); }
    forall a: Text, b: Text, c: Text | Before(a, c) ensures Before(a, b) || Before(b, c) {
      Trichotomy(a, b);
      if Before(b, a) { Transitive(b, a, c); }
    }
  }

  /** sort_unique on identities: strictly ascending, and the same members. */
  lemma SortUniqueIds(s: seq<Id>)
    ensures Ascending(SortUnique(s, Before), Before)
    ensures forall x :: x in SortUnique(s, Before) <==> x in s
    ensures |SortUnique(s, Before)| <= |s|
  {
    TextIsOrdered();
    SortIsPermutation(s, Before);
    SortOrders(s, Before);
    DropRepeatsIsStrict(Sort(s, Before), Before);
    forall x ensures x in Sort(s, Before) <==> x in s {
      assert x in multiset(Sort(s, Before)) <==> x in multiset(s);
    }
  }

  ghost predicate IsLeast(m: Text, keys: set<Text>) { m in keys && forall k | k in keys :: k == m || Before(m, k) }

  lemma {:induction false} LeastExists(keys: set<Text>) returns (m: Text)
    requires keys != {}
    ensures IsLeast(m, keys)
  {
    var x :| x in keys;
    if keys == {x} {
      m := x;
    } else {
      m := LeastExists(keys - {x});
      TextIsOrdered();
      if Before(x, m) {
        forall k | k in keys ensures k == x || Before(x, k) {
          if k != x { assert k in keys - {x}; }
        }
        m := x;
      } else {
        assert m == x || Before(m, x);
        assert forall k | k in keys :: k == x || k in keys - {x};
      }
    }
  }

  /** std::map iterates its keys in ascending order; Least is the first of them. */
  ghost function Least(keys: set<Text>): (m: Text)
    requires keys != {}
    ensures IsLeast(m, keys)
  {
    assert exists m :: IsLeast(m, keys) by { var m := LeastExists(keys); }
    var m :| IsLeast(m, keys);
    m
  }

  ghost function SortedKeys(keys: set<Text>): seq<Text> {
    if keys == {} then [] else [Least(keys)] + SortedKeys(keys - {Least(keys)})
  }

  lemma {:induction false} SortedKeysAscend(keys: set<Text>)
    ensures Ascending(SortedKeys(keys), Before)
    ensures forall k :: k in SortedKeys(keys) <==> k in keys
    ensures |SortedKeys(keys)| == |keys|
  {
    if keys != {} {
      var m := Least(keys);
      SortedKeysAscend(keys - {m});
      assert forall k | k in SortedKeys(keys - {m}) :: Before(m, k);
    }
  }

  /** An ascending list is determined by its elements. */
  lemma {:induction false} AscendingIsUnique(s: seq<Text>, keys: set<Text>)
    requires Ascending(s, Before) && forall k :: k in s <==> k in keys
    ensures s == SortedKeys(keys)
  {
    if s == [] {
      assert keys == {};
    } else {
      assert s[0] in keys;
      var m := Least(keys);
      assert m in s;
      var i :| 0 <= i < |s| && s[i] == m;
      if i > 0 {
        assert s[0] in keys && Less(s[0], m);
        Transitive(s[0], m, s[0]);
        Irreflexive(s[0]);
        assert false;
      }
      var rest := s[1..];
      forall k ensures k in rest <==> k in keys - {m} {
        if k in rest {
          var j :| 0 <= j < |rest| && rest[j] == k;
          assert Less(s[0], s[j + 1]);
          Irreflexive(m);
        }
        if k in keys - {m} { assert k in s; assert s == [s[0]] + rest; }
      }
      AscendingIsUnique(rest, keys - {m});
    }
  }
}
