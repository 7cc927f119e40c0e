/** The synthetic generator's draws: exact for every stream of random numbers. */
module Sampler {

  const MAX_DOMAINS: nat := 16384

  function Reduced(x: nat, bound: nat): (r: nat)
    requires bound > 0
    ensures r < bound
  {
    x % bound
  }

  /** The generator; its output is an arbitrary stream. */
  class Generator {
    const stream: nat -> nat
    var position: nat

    constructor (stream: nat -> nat)
      ensures this.stream == stream && position == 0
    {
      this.stream, this.position := stream, 0;
    }

    method Below(bound: nat) returns (value: nat)
      modifies this
      ensures bound > 0 ==> value < bound
      ensures position == old(position) + if bound == 0 then 0 else 1
      ensures value == if bound == 0 then 0 else Reduced(stream(old(position)), bound)
    {
      if bound == 0 { return 0; }
      value := stream(position) % bound;
      position := position + 1;
    }
  }

  // ---- partial Fisher-Yates --------------------------------------------------------------

  predicate Distinct<T(==)>(s: seq<T>) { forall i, j | 0 <= i < j < |s| :: s[i] != s[j] }

  predicate Swapped<T(==)>(a: seq<T>, b: seq<T>, i: nat, j: nat)
    requires i < |a| && j < |a|
  {
    b == a[i := a[j]][j := a[i]]
  }

  lemma SwapPermutes<T>(a: seq<T>, b: seq<T>, i: nat, j: nat)
    requires i < |a| && j < |a| && Swapped(a, b, i, j)
    ensures multiset(b) == multiset(a) && (Distinct(a) ==> Distinct(b))
  {}

  lemma PrefixOf<T>(a: seq<T>, was: seq<T>, count: nat)
    requires count <= |a| && multiset(a) == multiset(was)
    ensures Distinct(a) ==> Distinct(a[..count])
    ensures forall x | x in a[..count] :: x in was
  {
    forall x | x in a[..count] ensures x in was { assert x in multiset(a); }
  }

  function Exchanged<T>(s: seq<T>, i: nat, j: nat): (r: seq<T>)
    requires i < |s| && j < |s|
    ensures |r| == |s| && r[i] == s[j] && r[j] == s[i] && forall k | 0 <= k < |s| && k != i && k != j :: r[k] == s[k]
  {
    s[i := s[j]][j := s[i]]
  }

  /** Each offset stays within what is left behind its position. */
  predicate Fits(offsets: seq<nat>, n: nat, i: nat) { forall k | 0 <= k < |offsets| :: offsets[k] < n - i - k }

  /** From position i on, every position takes an element from itself or behind. */
  function Shuffle(s: seq<nat>, i: nat, offsets: seq<nat>): (r: seq<nat>)
    requires Fits(offsets, |s|, i)
    ensures |r| == |s|
    decreases |offsets|
  {
    if offsets == [] then s else
      assert offsets[0] < |s| - i;
      assert Fits(offsets[1..], |s|, i + 1);
      Shuffle(Exchanged(s, i, i + offsets[0]), i + 1, offsets[1..])
  }

  /** The offsets a stream gives from a position on. */
  function Offsets(stream: nat -> nat, at: nat, n: nat, count: nat): (r: seq<nat>)
    requires count <= n
    ensures |r| == count && Fits(r, n, 0)
  {
    if count == 0 then []
    else Offsets(stream, at, n, count - 1) + [Reduced(stream(at + count - 1), n - (count - 1))]
  }

  lemma {:induction false} ShuffleExtends(s: seq<nat>, i: nat, offsets: seq<nat>, last: nat)
    requires Fits(offsets, |s|, i) && last < |s| - i - |offsets|
    ensures Fits(offsets + [last], |s|, i)
    ensures Shuffle(s, i, offsets + [last])
      == Exchanged(Shuffle(s, i, offsets), i + |offsets|, i + |offsets| + last)
    decreases |offsets|
  {
    assert Fits(offsets + [last], |s|, i);
    if offsets == [] {
      assert (offsets + [last])[1..] == [];
    } else {
      assert (offsets + [last])[1..] == offsets[1..] + [last];
      assert offsets[0] < |s| - i;
      ShuffleExtends(Exchanged(s, i, i + offsets[0]), i + 1, offsets[1..], last);
    }
  }

  /** Positions before the first one shuffled stay. */
  lemma {:induction false} ShuffleKeepsFront(s: seq<nat>, i: nat, offsets: seq<nat>)
    requires Fits(offsets, |s|, i) && i <= |s|
    ensures Shuffle(s, i, offsets)[..i] == s[..i]
    decreases |offsets|
  {
    if offsets != [] {
      assert offsets[0] < |s| - i;
      var t := Exchanged(s, i, i + offsets[0]);
      ShuffleKeepsFront(t, i + 1, offsets[1..]);
      var r := Shuffle(t, i + 1, offsets[1..]);
      forall k | 0 <= k < i ensures r[k] == s[k] { assert r[..i + 1][k] == t[..i + 1][k]; }
    }
  }

  lemma {:induction false} ShuffledFirst(s: seq<nat>, i: nat, offsets: seq<nat>)
    requires offsets != [] && Fits(offsets, |s|, i)
    ensures offsets[0] < |s| - i && Shuffle(s, i, offsets)[i] == s[i + offsets[0]]
  {
    assert offsets[0] < |s| - i;
    var t := Exchanged(s, i, i + offsets[0]);
    ShuffleKeepsFront(t, i + 1, offsets[1..]);
    var r := Shuffle(t, i + 1, offsets[1..]);
    assert r[..i + 1][i] == t[..i + 1][i];
  }

  lemma ExchangeKeepsDistinct(s: seq<nat>, i: nat, j: nat)
    requires i < |s| && j < |s| && Distinct(s)
    ensures Distinct(Exchanged(s, i, j)) && forall x :: x in Exchanged(s, i, j) <==> x in s
  {
    var r := Exchanged(s, i, j);
    SwapPermutes(s, r, i, j);
    assert forall x :: x in r <==> x in multiset(r);
  }

  /** Different offsets choose differently: no ordered selection is drawn in two ways. */
  lemma {:induction false} OffsetsAreUnique(s: seq<nat>, i: nat, a: seq<nat>, b: seq<nat>)
    requires Distinct(s) && |a| == |b| && i + |a| <= |s| && Fits(a, |s|, i) && Fits(b, |s|, i)
    requires Shuffle(s, i, a)[..i + |a|] == Shuffle(s, i, b)[..i + |a|]
    ensures a == b
    decreases |a|
  {
    if a != [] {
      ShuffledFirst(s, i, a);
      ShuffledFirst(s, i, b);
      assert Shuffle(s, i, a)[..i + |a|][i] == Shuffle(s, i, b)[..i + |a|][i];
      assert a[0] == b[0];
      ExchangeKeepsDistinct(s, i, i + a[0]);
      OffsetsAreUnique(Exchanged(s, i, i + a[0]), i + 1, a[1..], b[1..]);
      assert a == [a[0]] + a[1..] && b == [b[0]] + b[1..];
    }
  }

  lemma {:induction false} ShuffleBegins(s: seq<nat>, i: nat, first: nat, rest: seq<nat>)
    requires first < |s| - i && Fits(rest, |s|, i + 1)
    ensures Fits([first] + rest, |s|, i)
    ensures Shuffle(s, i, [first] + rest) == Shuffle(Exchanged(s, i, i + first), i + 1, rest)
  {
    hide Exchanged;
    var offsets := [first] + rest;
    assert offsets[1..] == rest && offsets[0] == first;
    assert Fits(offsets, |s|, i) by {
      hide Shuffle;
      forall k | 0 <= k < |offsets| ensures offsets[k] < |s| - i - k { assert k > 0 ==> offsets[k] == rest[k - 1]; }
    }
  }

  /** Every ordered selection without repetition is drawn by some offsets. */
  lemma {:induction false} EverySelectionIsDrawn(s: seq<nat>, i: nat, want: seq<nat>) returns (offsets: seq<nat>)
    requires Distinct(s) && Distinct(want) && i <= |want| <= |s| && s[..i] == want[..i]
    requires forall x | x in want :: x in s
    ensures |offsets| == |want| - i && Fits(offsets, |s|, i) && Shuffle(s, i, offsets)[..|want|] == want
    decreases |want| - i
  {
    hide Exchanged;
    if i == |want| {
      offsets := [];
    } else {
      assert want[i] in want;
      var j :| 0 <= j < |s| && s[j] == want[i];
      assert forall k | 0 <= k < i :: s[k] == s[..i][k] == want[..i][k] == want[k];
      assert j >= i;
      var t := Exchanged(s, i, j);
      ExchangeKeepsDistinct(s, i, j);
      assert t[..i + 1] == want[..i + 1];
      var rest := EverySelectionIsDrawn(t, i + 1, want);
      offsets := [j - i] + rest;
      ShuffleBegins(s, i, j - i, rest);
    }
  }

  lemma OffsetsStart(s: seq<nat>, stream: nat -> nat, at: nat)
    ensures Shuffle(s, 0, Offsets(stream, at, |s|, 0)) == s
  {}

  lemma {:induction false} OffsetsGoOn(stream: nat -> nat, at: nat, n: nat, i: nat)
    requires i < n
    ensures Offsets(stream, at, n, i + 1) == Offsets(stream, at, n, i) + [Reduced(stream(at + i), n - i)]
  {}

  /** One turn of the loop draws one more offset. */
  lemma {:induction false} DrawnOnce(was: seq<nat>, offsets: seq<nat>, offset: nat, after: seq<nat>)
    requires Fits(offsets, |was|, 0) && offset < |was| - |offsets| && |after| == |was|
    requires var before, i, j := Shuffle(was, 0, offsets), |offsets|, |offsets| + offset;
      && after[i] == before[j] && after[j] == before[i]
      && forall k | 0 <= k < |was| && k != i && k != j :: after[k] == before[k]
    ensures Fits(offsets + [offset], |was|, 0) && after == Shuffle(was, 0, offsets + [offset])
  {
    hide Shuffle; hide Fits; hide Exchanged;
    ShuffleExtends(was, 0, offsets, offset);
    assert after == Exchanged(Shuffle(was, 0, offsets), |offsets|, |offsets| + offset);
  }

  lemma {:induction false} ShufflePermutes(s: seq<nat>, i: nat, offsets: seq<nat>)
    requires Fits(offsets, |s|, i)
    ensures multiset(Shuffle(s, i, offsets)) == multiset(s) && (Distinct(s) ==> Distinct(Shuffle(s, i, offsets)))
    decreases |offsets|
  {
    hide Distinct; hide Exchanged;
    if offsets != [] {
      assert offsets[0] < |s| - i;
      var t := Exchanged(s, i, i + offsets[0]);
      ExchangePermutes(s, i, i + offsets[0]);
      ShufflePermutes(t, i + 1, offsets[1..]);
    }
  }

  lemma ExchangePermutes(s: seq<nat>, i: nat, j: nat)
    requires i < |s| && j < |s|
    ensures multiset(Exchanged(s, i, j)) == multiset(s) && (Distinct(s) ==> Distinct(Exchanged(s, i, j)))
  {
    SwapPermutes(s, Exchanged(s, i, j), i, j);
  }

  lemma SelectionIsProper(was: seq<nat>, offsets: seq<nat>, after: seq<nat>, count: nat)
    requires Fits(offsets, |was|, 0) && after == Shuffle(was, 0, offsets) && count <= |was|
    ensures multiset(after) == multiset(was) && (Distinct(was) ==> Distinct(after[..count]))
    ensures forall x | x in after[..count] :: x in was
  {
    ShufflePermutes(was, 0, offsets);
    PrefixOf(after, was, count);
  }

  /** The loop: each position takes an element from itself or behind, by the next draw. */
  method DrawInPlace(candidates: array<nat>, count: nat, rng: Generator)
    requires count <= candidates.Length
    modifies candidates, rng
    ensures rng.position == old(rng.position) + count
    ensures candidates[..]
      == Shuffle(old(candidates[..]), 0, Offsets(rng.stream, old(rng.position), candidates.Length, count))
  {
    hide Shuffle; hide Reduced; hide Fits; hide Offsets;
    ghost var was, n, at := candidates[..], candidates.Length, rng.position;
    OffsetsStart(was, rng.stream, at);
    for i := 0 to count
      invariant rng.position == at + i && candidates[..] == Shuffle(was, 0, Offsets(rng.stream, at, n, i))
    {
      var span := candidates.Length - i;
      var offset := rng.Below(span);
      ghost var before, offsets := candidates[..], Offsets(rng.stream, at, n, i);
      candidates[i], candidates[i + offset] := candidates[i + offset], candidates[i];
      ghost var after := candidates[..];
      assert after[i] == before[i + offset] && after[i + offset] == before[i];
      OffsetsGoOn(rng.stream, at, n, i);
      DrawnOnce(was, offsets, offset, after);
    }
  }

  /**
   * select_subset: exactly the requested number of candidates, no position used twice, drawn by the offsets that the
   * generator gives.
   */
  method SelectSubset(candidates: array<nat>, count: nat, rng: Generator) returns (chosen: seq<nat>)
    modifies candidates, rng
    ensures |chosen| == if count >= candidates.Length then candidates.Length else count
    ensures multiset(candidates[..]) == multiset(old(candidates[..])) && chosen == candidates[..|chosen|]
    ensures Distinct(old(candidates[..])) ==> Distinct(chosen)
    ensures forall x | x in chosen :: x in old(candidates[..])
    ensures count >= candidates.Length ==> chosen == old(candidates[..]) && rng.position == old(rng.position)
    ensures count < candidates.Length ==>
      && rng.position == old(rng.position) + count
      && candidates[..]
         == Shuffle(old(candidates[..]), 0, Offsets(rng.stream, old(rng.position), candidates.Length, count))
  {
    if count >= candidates.Length {
      chosen := candidates[..];
      return;
    }
    hide Distinct; hide Shuffle; hide Offsets; hide Fits;
    ghost var was, at := candidates[..], rng.position;
    DrawInPlace(candidates, count, rng);
    chosen := candidates[..count];
    SelectionIsProper(was, Offsets(rng.stream, at, |was|, count), candidates[..], count);
    assert candidates[..][..count] == chosen;
  }

  // ---- selection sampling of pairs -------------------------------------------------------

  type Pair = (nat, nat)

  predicate PairBefore(a: Pair, b: Pair) { a.0 < b.0 || (a.0 == b.0 && a.1 < b.1) }

  /** Pairs (x, y) with x < i, in row-major order of all pairs x < y < n. */
  function RowStart(i: nat, n: nat): nat
    requires i <= n
  {
    if i == 0 then 0 else RowStart(i - 1, n) + (n - i)
  }

  lemma {:induction false} RowsAddUp(i: nat, n: nat)
    requires i <= n
    ensures 2 * RowStart(i, n) == i * (2 * n - 1 - i)
  {
    if i > 0 {
      RowsAddUp(i - 1, n);
      assert (i - 1) * (2 * n - i) + 2 * (n - i) == i * (2 * n - 1 - i);
    }
  }

  function TotalPairs(n: nat): nat { if n > 1 then n * (n - 1) / 2 else 0 }

  lemma AllRows(n: nat)
    ensures RowStart(n, n) == TotalPairs(n)
  {
    RowsAddUp(n, n);
    assert n * (2 * n - 1 - n) == n * (n - 1);
    if n <= 1 { assert n == 0 || n == 1; }
  }

  /** Pairs below the bound, each i < j, strictly ascending and so never twice. */
  predicate Proper(pairs: seq<Pair>, n: nat) {
    && (forall k | 0 <= k < |pairs| :: pairs[k].0 < pairs[k].1 < n)
    && (forall k, l | 0 <= k < l < |pairs| :: PairBefore(pairs[k], pairs[l]))
  }

  predicate Precede(pairs: seq<Pair>, next: Pair) { forall k | 0 <= k < |pairs| :: PairBefore(pairs[k], next) }

  lemma ProperExtends(pairs: seq<Pair>, n: nat, next: Pair)
    requires Proper(pairs, n) && Precede(pairs, next) && next.0 < next.1 < n
    ensures Proper(pairs + [next], n) && Precede(pairs + [next], (next.0, next.1 + 1))
  {}

  /** The place of (i, j) among all pairs in row-major order; (i, n) stands for the start of the next row. */
  function Ordinal(i: nat, j: nat, n: nat): nat
    requires i < j <= n
  {
    RowStart(i, n) + (j - i - 1)
  }

  /**
   * What selection sampling picks from (i, j) on: a pair is taken if the draw below the number of pairs left falls
   * below the number still wanted.
   */
  function Picked(stream: nat -> nat, at: nat, n: nat, i: nat, j: nat, wanted: nat): seq<Pair>
    requires i <= n && (i < n ==> i < j <= n)
    decreases n - i, n - j
  {
    if wanted == 0 || i == n then []
    else if j == n then Picked(stream, at, n, i + 1, i + 2, wanted)
    else
      var left := TotalPairs(n) - Ordinal(i, j, n);
      if left <= 0 then Picked(stream, at, n, i, j + 1, wanted)
      else if Reduced(stream(at), left) < wanted then [(i, j)] + Picked(stream, at + 1, n, i, j + 1, wanted - 1)
      else Picked(stream, at + 1, n, i, j + 1, wanted)
  }

  /** One row of the link loop. Never fewer pairs are left than are still wanted. */
  method SampleRow(i: nat, n: nat, pairs: seq<Pair>, wanted: nat, rng: Generator)
    returns (selected: seq<Pair>, remaining: nat)
    requires i < n && Proper(pairs, n) && Precede(pairs, (i, i + 1)) && RowStart(i, n) + wanted <= TotalPairs(n)
    modifies rng
    ensures Proper(selected, n) && Precede(selected, (i + 1, i + 2))
    ensures |selected| + remaining == |pairs| + wanted
    ensures remaining == 0 || RowStart(i + 1, n) + remaining <= TotalPairs(n)
    ensures selected + Picked(rng.stream, rng.position, n, i + 1, i + 2, remaining)
      == pairs + Picked(rng.stream, old(rng.position), n, i, i + 1, wanted)
  {
    hide Reduced;
    selected, remaining := pairs, wanted;
    var j, ordinal := i + 1, RowStart(i, n);
    while j < n && remaining > 0
      invariant i + 1 <= j <= n && ordinal == RowStart(i, n) + (j - i - 1)
      invariant Proper(selected, n) && Precede(selected, (i, j))
      invariant |selected| + remaining == |pairs| + wanted
      invariant ordinal + remaining <= TotalPairs(n)
      invariant selected + Picked(rng.stream, rng.position, n, i, j, remaining)
        == pairs + Picked(rng.stream, old(rng.position), n, i, i + 1, wanted)
    {
      var left := TotalPairs(n) - ordinal;
      var draw := left;
      ghost var rest := Picked(rng.stream, rng.position, n, i, j, remaining);
      ghost var before := selected;
      if left != 0 { draw := rng.Below(left); }
      if left != 0 && draw < remaining {
        ProperExtends(selected, n, (i, j));
        selected := selected + [(i, j)];
        remaining := remaining - 1;
        assert rest == [(i, j)] + Picked(rng.stream, rng.position, n, i, j + 1, remaining);
        assert before + rest == selected + Picked(rng.stream, rng.position, n, i, j + 1, remaining);
      }
      ordinal := ordinal + 1;
      j := j + 1;
    }
  }

  /** The link loop selects exactly the target number of distinct pairs: those that the draws pick. */
  method SamplePairs(n: nat, target: nat, rng: Generator) returns (pairs: seq<Pair>)
    requires target <= TotalPairs(n)
    modifies rng
    ensures |pairs| == target && Proper(pairs, n)
    ensures pairs == Picked(rng.stream, old(rng.position), n, 0, 1, target)
  {
    pairs := [];
    var remaining, i := target, 0;
    while i < n && remaining > 0
      invariant i <= n && Proper(pairs, n) && Precede(pairs, (i, i + 1)) && |pairs| + remaining == target
      invariant remaining == 0 || RowStart(i, n) + remaining <= TotalPairs(n)
      invariant pairs + Picked(rng.stream, rng.position, n, i, i + 1, remaining)
        == Picked(rng.stream, old(rng.position), n, 0, 1, target)
    {
      pairs, remaining := SampleRow(i, n, pairs, remaining, rng);
      i := i + 1;
    }
    AllRows(n);
  }

  // ---- every set of pairs can be drawn ---------------------------------------------------

  lemma {:induction false} RowsAscend(i: nat, j: nat, n: nat)
    requires i < j <= n
    ensures RowStart(i, n) + (n - i - 1) <= RowStart(j, n)
    decreases j
  {
    if i + 1 < j { RowsAscend(i, j - 1, n); }
  }

  lemma OrdinalsAscend(a: Pair, b: Pair, n: nat)
    requires a.0 < a.1 < n && b.0 < b.1 < n && PairBefore(a, b)
    ensures Ordinal(a.0, a.1, n) < Ordinal(b.0, b.1, n)
  {
    if a.0 < b.0 { RowsAscend(a.0, b.0, n); }
  }

  lemma OrdinalIsBelowTotal(a: Pair, n: nat)
    requires a.0 < a.1 < n
    ensures Ordinal(a.0, a.1, n) < TotalPairs(n)
  {
    RowsAscend(a.0, n, n);
    AllRows(n);
  }

  /** The last pairs of a proper list leave room for those before them. */
  lemma {:induction false} OrdinalsSpread(want: seq<Pair>, n: nat, k: nat)
    requires Proper(want, n) && k < |want|
    ensures Ordinal(want[k].0, want[k].1, n) + (|want| - k) <= TotalPairs(n)
    decreases |want| - k
  {
    OrdinalIsBelowTotal(want[k], n);
    if k + 1 < |want| {
      OrdinalsSpread(want, n, k + 1);
      OrdinalsAscend(want[k], want[k + 1], n);
    }
  }

  predicate Hit(want: seq<Pair>, n: nat, o: nat)
    requires Proper(want, n)
  {
    exists k | 0 <= k < |want| :: Ordinal(want[k].0, want[k].1, n) == o
  }

  /** Draws that take exactly the wanted pairs: zero at each of them, the highest draw elsewhere. */
  function Aiming(want: seq<Pair>, n: nat): nat -> nat
    requires Proper(want, n)
  {
    (o: nat) => if Hit(want, n, o) || o >= TotalPairs(n) then 0 else TotalPairs(n) - o - 1
  }

  /** The first k pairs lie before (i, j), the others do not. */
  predicate Splits(want: seq<Pair>, k: nat, i: nat, j: nat) {
    && k <= |want| && (forall l | 0 <= l < k :: PairBefore(want[l], (i, j)))
    && (forall l | k <= l < |want| :: !PairBefore(want[l], (i, j)))
  }

  lemma AimedHit(want: seq<Pair>, n: nat, i: nat, j: nat, k: nat)
    requires Proper(want, n) && i < j < n && Splits(want, k, i, j) && k < |want|
    ensures Hit(want, n, Ordinal(i, j, n)) <==> want[k] == (i, j)
    ensures want[k] != (i, j) ==> PairBefore((i, j), want[k])
    ensures Splits(want, if want[k] == (i, j) then k + 1 else k, i, j + 1)
  {
    if want[k] != (i, j) {
      forall l | 0 <= l < |want| ensures Ordinal(want[l].0, want[l].1, n) != Ordinal(i, j, n) {
        assert !PairBefore(want[k], (i, j));
        if l < k { OrdinalsAscend(want[l], (i, j), n); }
        else {
          assert l > k ==> PairBefore(want[k], want[l]);
          OrdinalsAscend((i, j), want[l], n);
        }
      }
    }
  }

  lemma SmallIsKept(x: nat, bound: nat)
    requires x < bound
    ensures Reduced(x, bound) == x
  {}

  /** What the aiming draw does at one pair. */
  lemma AimedDraw(want: seq<Pair>, n: nat, i: nat, j: nat, k: nat)
    requires Proper(want, n) && i < j < n && Splits(want, k, i, j) && k < |want|
    ensures var left := TotalPairs(n) - Ordinal(i, j, n);
      left > 0 && (Reduced(Aiming(want, n)(Ordinal(i, j, n)), left) < |want| - k <==> want[k] == (i, j))
  {
    hide Reduced; hide RowStart; hide TotalPairs; hide Ordinal;
    var o := Ordinal(i, j, n);
    AimedHit(want, n, i, j, k);
    hide Hit; hide Splits; hide PairBefore;
    OrdinalIsBelowTotal((i, j), n);
    OrdinalsSpread(want, n, k);
    if want[k] != (i, j) { OrdinalsAscend((i, j), want[k], n); }
    SmallIsKept(Aiming(want, n)(o), TotalPairs(n) - o);
  }

  lemma {:induction false} AimedFrom(want: seq<Pair>, n: nat, i: nat, j: nat, k: nat)
    requires Proper(want, n) && i <= n && (i < n ==> i < j <= n) && Splits(want, k, i, j)
    ensures i < n ==> Picked(Aiming(want, n), Ordinal(i, j, n), n, i, j, |want| - k) == want[k..]
    ensures i == n ==> k == |want|
    decreases n - i, n - j
  {
    hide Reduced; hide TotalPairs; hide Aiming;
    if i == n {
      assert forall l | 0 <= l < |want| :: PairBefore(want[l], (n, j));
    } else if k < |want| {
      if j == n {
        assert Splits(want, k, i + 1, i + 2) by { NextRow(want, n, k, i); }
        AimedFrom(want, n, i + 1, i + 2, k);
      } else {
        AimedHit(want, n, i, j, k);
        AimedDraw(want, n, i, j, k);
        hide Splits; hide PairBefore; hide Hit; hide RowStart;
        if want[k] == (i, j) {
          AimedFrom(want, n, i, j + 1, k + 1);
          assert want[k..] == [(i, j)] + want[k + 1..];
        } else {
          AimedFrom(want, n, i, j + 1, k);
        }
      }
    }
  }

  lemma NextRow(want: seq<Pair>, n: nat, k: nat, i: nat)
    requires Proper(want, n) && i < n && Splits(want, k, i, n)
    ensures Splits(want, k, i + 1, i + 2)
  {
    forall l | k <= l < |want| ensures !PairBefore(want[l], (i + 1, i + 2)) {
      assert want[l].0 < want[l].1 < n && !PairBefore(want[l], (i, n));
    }
  }

  /** Whatever proper list of pairs is wanted, some stream of draws makes the link loop select it. */
  lemma EveryLinkSetIsDrawn(n: nat, want: seq<Pair>)
    requires Proper(want, n)
    ensures |want| <= TotalPairs(n)
    ensures exists stream: nat -> nat :: Picked(stream, 0, n, 0, 1, |want|) == want
  {
    if n == 0 {
      assert |want| == 0;
      assert Picked((o: nat) => o, 0, n, 0, 1, |want|) == want;
    } else {
      assert Splits(want, 0, 0, 1);
      AimedFrom(want, n, 0, 1, 0);
      assert want[0..] == want;
      if want != [] { OrdinalsSpread(want, n, 0); }
      assert Picked(Aiming(want, n), 0, n, 0, 1, |want|) == want;
    }
  }

  // ---- grouping --------------------------------------------------------------------------

  function EffectiveGroup(requested: nat, items: nat, limit: nat): (group: nat)
    ensures group > 0
  {
    var group := if requested == 0 then 1 else requested;
    if items == 0 || limit == 0 then group
    else
      var minimum := (items + limit - 1) / limit;
      if minimum > group then minimum else group
  }

  function GroupCount(items: nat, group: nat): nat {
    if items == 0 || group == 0 then 0 else (items + group - 1) / group
  }

  lemma RoundingUp(items: nat, group: nat, bound: nat)
    requires group > 0 && items <= group * bound
    ensures (items + group - 1) / group <= bound
  {
    var q := (items + group - 1) / group;
    assert q * group <= items + group - 1;
    assert (bound + 1) * group == bound * group + group;
    if q > bound { MulMonotone(bound + 1, q, group); }
  }

  lemma MulMonotone(a: nat, b: nat, c: nat)
    requires a <= b
    ensures a * c <= b * c
  {}

  /** Grouping with the effective size stays within the limit, and the groups cover every item. */
  lemma GroupsFit(requested: nat, items: nat, limit: nat)
    requires limit > 0
    ensures var group := EffectiveGroup(requested, items, limit);
      GroupCount(items, group) <= limit && items <= group * GroupCount(items, group)
  {
    var group := EffectiveGroup(requested, items, limit);
    if items > 0 {
      var minimum := (items + limit - 1) / limit;
      Covers(items, limit);
      MulMonotone(minimum, group, limit);
      assert items <= group * limit;
      RoundingUp(items, group, limit);
      Covers(items, group);
    }
  }

  lemma Covers(items: nat, group: nat)
    requires group > 0
    ensures items <= group * ((items + group - 1) / group)
  {
    var q, r := (items + group - 1) / group, (items + group - 1) % group;
    assert items + group - 1 == group * q + r;
  }

  /** The effective size is the requested one, or the least that fits. */
  lemma GroupIsLeast(requested: nat, items: nat, limit: nat)
    requires limit > 0
    ensures var group, asked := EffectiveGroup(requested, items, limit), if requested == 0 then 1 else requested;
      && group >= asked && (GroupCount(items, asked) <= limit ==> group == asked)
      && (group > asked ==> forall g: nat | 0 < g < group :: GroupCount(items, g) > limit)
  {
    var group, asked := EffectiveGroup(requested, items, limit), if requested == 0 then 1 else requested;
    if items > 0 {
      var minimum := (items + limit - 1) / limit;
      forall g: nat | 0 < g < minimum ensures GroupCount(items, g) > limit {
        MulMonotone(g + 1, minimum, limit);
        assert limit * minimum <= items + limit - 1;
        assert limit * g < items;
        Covers(items, g);
        if GroupCount(items, g) <= limit { MulMonotone(GroupCount(items, g), limit, g); }
      }
    }
  }

  /** The doubling loop leaves the failure and availability domains together within the class limit. */
  method FailureGroups(requested: nat, items: nat) returns (group: nat, failures: nat, availability: nat)
    requires items <= MAX_DOMAINS
    ensures group > 0 && failures == GroupCount(items, group) && availability == GroupCount(failures, 2)
    ensures failures + availability <= MAX_DOMAINS
    ensures var asked := if requested == 0 then 1 else requested;
      group == if GroupCount(items, asked) + GroupCount(GroupCount(items, asked), 2) <= MAX_DOMAINS then asked
               else 2 * asked
  {
    group := if requested == 0 then 1 else requested;
    ghost var asked := group;
    failures := GroupCount(items, group);
    availability := GroupCount(failures, 2);
    var guard := 0;
    while guard < 64 && items != 0 && failures + availability > MAX_DOMAINS
      invariant group > 0 && failures == GroupCount(items, group) && availability == GroupCount(failures, 2)
      invariant guard > 0 ==> failures + availability <= MAX_DOMAINS && group == 2 * asked
      invariant guard == 0 ==> group == asked
      invariant guard > 0 ==> GroupCount(items, asked) + GroupCount(GroupCount(items, asked), 2) > MAX_DOMAINS
      decreases 64 - guard
    {
      group := group * 2;
      failures := GroupCount(items, group);
      availability := GroupCount(failures, 2);
      HalvedGroupsFit(items, group);
      guard := guard + 1;
    }
  }

  lemma HalvedGroupsFit(items: nat, group: nat)
    requires items <= MAX_DOMAINS && group >= 2
    ensures GroupCount(items, group) + GroupCount(GroupCount(items, group), 2) <= MAX_DOMAINS
  {
    MulMonotone(2, group, MAX_DOMAINS / 2);
    RoundingUp(items, group, MAX_DOMAINS / 2);
    RoundingUp(GroupCount(items, group), 2, MAX_DOMAINS / 4);
  }
}
