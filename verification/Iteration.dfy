/** Walking a std::map: its keys, in ascending order. */
module Iteration {
  import opened Foundation
  import opened TextOrder
  import opened Sorting

  method SmallestOf(keys: set<Text>) returns (least: Text)
    requires keys != {}
    ensures least in keys && IsLeast(least, keys)
  {
    TextIsOrdered();
    least :| least in keys;
    var rest := keys - {least};
    while rest != {}
      invariant rest <= keys && least in keys
      invariant forall k | k in keys && k !in rest :: k == least || Before(least, k)
      decreases rest
    {
      var k :| k in rest;
      if Less(k, least) { least := k; }
      rest := rest - {k};
    }
  }

  method KeysInOrder<V>(m: map<Text, V>) returns (keys: seq<Text>)
    ensures keys == SortedKeys(m.Keys)
  {
    TextIsOrdered();
    keys := [];
    var rest := m.Keys;
    while rest != {}
      invariant rest <= m.Keys && Ascending(keys, Before)
      invariant forall k :: k in keys <==> k in m.Keys && k !in rest
      invariant forall k, l | k in keys && l in rest :: Before(k, l)
      decreases rest
    {
      var least := SmallestOf(rest);
      keys := keys + [least];
      rest := rest - {least};
    }
    AscendingIsUnique(keys, m.Keys);
  }

  /** A loop over a map that looks for an entry; it goes on to the end, as the source's loops do. */
  method Finds<V>(m: map<Text, V>, wanted: (Text, V) -> bool) returns (found: bool)
    ensures found <==> exists k | k in m :: wanted(k, m[k])
  {
    hide IsLeast;
    found := false;
    var rest := m.Keys;
    while rest != {}
      invariant rest <= m.Keys
      invariant found <==> exists k | k in m && k !in rest :: wanted(k, m[k])
      decreases rest
    {
      var k := SmallestOf(rest);
      if wanted(k, m[k]) { found := true; }
      rest := rest - {k};
    }
  }

  function Chosen<V>(m: map<Text, V>, seen: set<Text>, wanted: V -> bool): set<Text> {
    set k | k in m && k in seen && wanted(m[k])
  }

  lemma ChosenGrows<V>(m: map<Text, V>, seen: set<Text>, k: Text, wanted: V -> bool)
    requires k in m && k !in seen
    ensures |Chosen(m, seen + {k}, wanted)| == |Chosen(m, seen, wanted)| + if wanted(m[k]) then 1 else 0
  {
    if wanted(m[k]) {
      assert Chosen(m, seen + {k}, wanted) == Chosen(m, seen, wanted) + {k};
    } else {
      assert Chosen(m, seen + {k}, wanted) == Chosen(m, seen, wanted);
    }
  }
}
