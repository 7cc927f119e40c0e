/** Little-endian primitives: what ByteWriter appends and what ByteReader takes back. */
module Wire {
  import opened Foundation

  const MAX_TEXT: nat := 4096

  /** The bytes written so far in front of a tail; None once the writer has failed. */
  type Out = Option<seq<byte>>

  datatype Read<+T> = Got(value: T, rest: seq<byte>) | Fail {
    predicate IsFailure() { Fail? }
    function PropagateFailure<U>(): Read<U> requires Fail? { Fail }
    function Extract(): (T, seq<byte>) requires Got? { (value, rest) }
  }

  function Prepend(bytes: seq<byte>, tail: Out): Out {
    if tail.None? then None else Some(bytes + tail.value)
  }

  // ---- numbers ---------------------------------------------------------------------------

  function Pow256(n: nat): (r: nat)
    ensures r > 0
  {
    if n == 0 then 1 else 256 * Pow256(n - 1)
  }

  function LE(n: nat, v: nat): seq<byte> {
    if n == 0 then [] else [v % 256] + LE(n - 1, v / 256)
  }

  function FromLE(b: seq<byte>): nat {
    if b == [] then 0 else b[0] + 256 * FromLE(b[1..])
  }

  lemma {:induction false} LEInverts(n: nat, v: nat)
    requires v < Pow256(n)
    ensures |LE(n, v)| == n && FromLE(LE(n, v)) == v
  {
    if n > 0 {
      LEInverts(n - 1, v / 256);
      assert LE(n, v)[1..] == LE(n - 1, v / 256);
    }
  }

  lemma {:induction false} LEIsOnto(b: seq<byte>)
    ensures FromLE(b) < Pow256(|b|) && LE(|b|, FromLE(b)) == b
  {
    if b != [] {
      LEIsOnto(b[1..]);
      assert b == [b[0]] + b[1..];
      assert FromLE(b) % 256 == b[0] && FromLE(b) / 256 == FromLE(b[1..]);
    }
  }

  lemma Widths()
    ensures Pow256(1) == 256 && Pow256(2) == 0x1_0000 && Pow256(4) == 0x1_0000_0000
    ensures Pow256(8) == 0x1_0000_0000_0000_0000
  {
    assert Pow256(2) == 256 * Pow256(1);
    assert Pow256(3) == 256 * Pow256(2);
    assert Pow256(4) == 256 * Pow256(3);
    assert Pow256(5) == 256 * Pow256(4);
    assert Pow256(6) == 256 * Pow256(5);
    assert Pow256(7) == 256 * Pow256(6);
  }

  function GetLE(n: nat, b: seq<byte>): Read<nat> {
    if |b| < n then Fail else Got(FromLE(b[..n]), b[n..])
  }

  lemma GetLEInverts(n: nat, v: nat, tail: seq<byte>)
    requires v < Pow256(n)
    ensures GetLE(n, LE(n, v) + tail) == Got(v, tail)
  {
    LEInverts(n, v);
    hide LE; hide FromLE;
    assert (LE(n, v) + tail)[..n] == LE(n, v) && (LE(n, v) + tail)[n..] == tail;
  }

  function PutU8(v: byte, tail: Out): Out { Prepend([v], tail) }
  function PutU32(v: u32, tail: Out): Out { Prepend(LE(4, v), tail) }
  function PutU64(v: u64, tail: Out): Out { Prepend(LE(8, v), tail) }

  function GetU8(b: seq<byte>): Read<byte> {
    if b == [] then Fail else Got(b[0], b[1..])
  }

  function GetU32(b: seq<byte>): Read<u32> {
    var (v, rest) :- GetLE(4, b);
    if v > MAX_U32 then Fail else Got(v, rest)
  }

  function GetU64(b: seq<byte>): Read<u64> {
    var (v, rest) :- GetLE(8, b);
    if v > MAX_U64 then Fail else Got(v, rest)
  }

  /** Two's complement. */
  function PutI64(v: i64, tail: Out): Out { PutU64(if v < 0 then v + 0x1_0000_0000_0000_0000 else v, tail) }

  function GetI64(b: seq<byte>): Read<i64> {
    var (v, rest) :- GetU64(b);
    Got(if v >= 0x8000_0000_0000_0000 then v - 0x1_0000_0000_0000_0000 else v, rest)
  }

  function PutBool(v: bool, tail: Out): Out { PutU8(if v then 1 else 0, tail) }

  function GetBool(b: seq<byte>): Read<bool> {
    var (v, rest) :- GetU8(b);
    if v > 1 then Fail else Got(v == 1, rest)
  }

  /** An enumerator code with its decoder bound. */
  function GetCode(max: nat, b: seq<byte>): (r: Read<byte>)
    ensures r.Got? ==> r.value <= max
  {
    var (v, rest) :- GetU8(b);
    if v > max then Fail else Got(v, rest)
  }

  // ---- text ------------------------------------------------------------------------------

  function PutText(t: Text, tail: Out): Out {
    if |t| > MAX_TEXT then None else PutU32(|t|, Prepend(t, tail))
  }

  function GetText(b: seq<byte>): Read<Text> {
    var (n, rest) :- GetU32(b);
    if n > MAX_TEXT || n > |rest| then Fail else Got(rest[..n], rest[n..])
  }

  /** An identity is written as text and parsed on the way back. */
  function GetId(b: seq<byte>): Read<Id> {
    var (t, rest) :- GetText(b);
    if IsIdentity(t) then Got(t, rest) else Fail
  }

  // ---- optionals -------------------------------------------------------------------------

  function PutOptId(t: Option<Id>, tail: Out): Out {
    PutBool(t.Some?, if t.Some? then PutText(t.value, tail) else tail)
  }

  function GetOptId(b: seq<byte>): Read<Option<Id>> {
    var (present, rest) :- GetBool(b);
    if !present then Got(None, rest)
    else
      var (t, rest') :- GetId(rest);
      Got(Some(t), rest')
  }

  /** Optional numbers always occupy their width; an absent one is written as zero and ignored. */
  function PutOptU32(v: Option<u32>, tail: Out): Out { PutBool(v.Some?, PutU32(v.GetOr(0), tail)) }

  function GetOptU32(b: seq<byte>): Read<Option<u32>> {
    var (present, rest) :- GetBool(b);
    var (v, rest') :- GetU32(rest);
    Got(if present then Some(v) else None, rest')
  }

  function PutOptU64(v: Option<u64>, tail: Out): Out { PutBool(v.Some?, PutU64(v.GetOr(0), tail)) }

  function GetOptU64(b: seq<byte>): Read<Option<u64>> {
    var (present, rest) :- GetBool(b);
    var (v, rest') :- GetU64(rest);
    Got(if present then Some(v) else None, rest')
  }

  // ---- what is written is read back ------------------------------------------------------

  /** The outcome of reading x written in front of a tail: exactly x, or a refusal. */
  function Answer<T>(accepted: bool, x: T, tail: seq<byte>): Read<T> {
    if accepted then Got(x, tail) else Fail
  }

  lemma TripCode(max: nat, v: byte, tail: Out)
    ensures PutU8(v, tail).Some? <==> tail.Some?
    ensures tail.Some? ==> GetCode(max, PutU8(v, tail).value) == Answer(v <= max, v, tail.value)
  {}

  lemma TripU32(v: u32, tail: Out)
    ensures PutU32(v, tail).Some? <==> tail.Some?
    ensures tail.Some? ==> GetU32(PutU32(v, tail).value) == Got(v, tail.value)
  {
    Widths();
    hide LE; hide Pow256;
    if tail.Some? { GetLEInverts(4, v, tail.value); }
  }

  lemma TripU64(v: u64, tail: Out)
    ensures PutU64(v, tail).Some? <==> tail.Some?
    ensures tail.Some? ==> GetU64(PutU64(v, tail).value) == Got(v, tail.value)
  {
    Widths();
    hide LE; hide Pow256;
    if tail.Some? { GetLEInverts(8, v, tail.value); }
  }

  lemma TripI64(v: i64, tail: Out)
    ensures PutI64(v, tail).Some? <==> tail.Some?
    ensures tail.Some? ==> GetI64(PutI64(v, tail).value) == Got(v, tail.value)
  {
    hide PutU64; hide GetU64;
    TripU64(if v < 0 then v + 0x1_0000_0000_0000_0000 else v, tail);
  }

  lemma TripBool(v: bool, tail: Out)
    ensures PutBool(v, tail).Some? <==> tail.Some?
    ensures tail.Some? ==> GetBool(PutBool(v, tail).value) == Got(v, tail.value)
  {}

  lemma TripText(t: Text, tail: Out)
    ensures PutText(t, tail).Some? <==> tail.Some? && |t| <= MAX_TEXT
    ensures PutText(t, tail).Some? ==> GetText(PutText(t, tail).value) == Got(t, tail.value)
  {
    hide PutU32; hide GetU32;
    if PutText(t, tail).Some? || (tail.Some? && |t| <= MAX_TEXT) { TripU32(|t|, Prepend(t, tail)); }
  }

  lemma TripId(t: Id, tail: Out)
    ensures PutText(t, tail).Some? <==> tail.Some? && |t| <= MAX_TEXT
    ensures PutText(t, tail).Some? ==> GetId(PutText(t, tail).value) == Answer(IsIdentity(t), t, tail.value)
  {
    hide PutText; hide GetText;
    TripText(t, tail);
  }

  predicate AcceptsOptId(t: Option<Id>) { t.Some? ==> IsIdentity(t.value) }

  lemma TripOptId(t: Option<Id>, tail: Out)
    ensures PutOptId(t, tail).Some? ==> tail.Some?
    ensures PutOptId(t, tail).Some? ==>
      GetOptId(PutOptId(t, tail).value) == Answer(AcceptsOptId(t), t, tail.value)
  {
    hide PutText; hide GetId; hide PutBool; hide GetBool; hide IsIdentity;
    TripBool(t.Some?, if t.Some? then PutText(t.value, tail) else tail);
    if t.Some? { TripId(t.value, tail); }
  }

  lemma TripOptU32(v: Option<u32>, tail: Out)
    ensures PutOptU32(v, tail).Some? <==> tail.Some?
    ensures tail.Some? ==> GetOptU32(PutOptU32(v, tail).value) == Got(v, tail.value)
  {
    hide PutBool; hide GetBool; hide PutU32; hide GetU32;
    TripU32(v.GetOr(0), tail);
    TripBool(v.Some?, PutU32(v.GetOr(0), tail));
  }

  lemma TripOptU64(v: Option<u64>, tail: Out)
    ensures PutOptU64(v, tail).Some? <==> tail.Some?
    ensures tail.Some? ==> GetOptU64(PutOptU64(v, tail).value) == Got(v, tail.value)
  {
    hide PutBool; hide GetBool; hide PutU64; hide GetU64;
    TripU64(v.GetOr(0), tail);
    TripBool(v.Some?, PutU64(v.GetOr(0), tail));
  }

  /** Reading is not canonical: whatever number stands behind an absent flag is skipped. */
  lemma AbsentNumberIsIgnored(v: u64, tail: seq<byte>)
    ensures GetOptU64([0] + LE(8, v) + tail) == Got(None, tail)
  {
    var b := [0] + LE(8, v) + tail;
    assert b[1..] == LE(8, v) + tail;
    Widths();
    hide LE; hide Pow256;
    GetLEInverts(8, v, tail);
  }

  // ---- counted lists ---------------------------------------------------------------------

  function PutItems<T>(items: seq<T>, put: (T, Out) -> Out, tail: Out): Out {
    if items == [] then tail else put(items[0], PutItems(items[1..], put, tail))
  }

  /** A list too long for its count cannot fit the size limit either; it fails the same way. */
  function PutList<T>(items: seq<T>, put: (T, Out) -> Out, tail: Out): Out {
    if |items| > MAX_U32 then None else PutU32(|items|, PutItems(items, put, tail))
  }

  function GetItems<T>(n: nat, get: seq<byte> -> Read<T>, b: seq<byte>): Read<seq<T>>
    decreases n
  {
    if n == 0 then Got([], b)
    else
      var (x, rest) :- get(b);
      var (xs, rest') :- GetItems(n - 1, get, rest);
      Got([x] + xs, rest')
  }

  function GetList<T>(bound: nat, get: seq<byte> -> Read<T>, b: seq<byte>): Read<seq<T>> {
    var (n, rest) :- GetU32(b);
    if n > bound then Fail else GetItems(n, get, rest)
  }

  /** One element goes through unharmed, or is refused. */
  ghost predicate Trips<T(!new)>(put: (T, Out) -> Out, get: seq<byte> -> Read<T>, accepts: T -> bool) {
    forall x: T, tail: Out ::
      put(x, tail).Some? ==> tail.Some? && get(put(x, tail).value) == Answer(accepts(x), x, tail.value)
  }

  predicate All<T>(items: seq<T>, accepts: T -> bool) { forall i | 0 <= i < |items| :: accepts(items[i]) }

  lemma {:induction false} TripItems<T(!new)>(
      items: seq<T>, put: (T, Out) -> Out, get: seq<byte> -> Read<T>, accepts: T -> bool, tail: Out)
    requires Trips(put, get, accepts) && PutItems(items, put, tail).Some?
    ensures tail.Some?
    ensures GetItems(|items|, get, PutItems(items, put, tail).value) == Answer(All(items, accepts), items, tail.value)
  {
    if items != [] {
      var rest := PutItems(items[1..], put, tail);
      assert put(items[0], rest).Some?;
      TripItems(items[1..], put, get, accepts, tail);
      assert items == [items[0]] + items[1..];
      assert All(items, accepts) <==> accepts(items[0]) && All(items[1..], accepts);
    }
  }

  predicate AcceptsList<T>(items: seq<T>, bound: nat, accepts: T -> bool) { |items| <= bound && All(items, accepts) }

  lemma TripList<T(!new)>(
      items: seq<T>, bound: nat, put: (T, Out) -> Out, get: seq<byte> -> Read<T>, accepts: T -> bool, tail: Out)
    requires Trips(put, get, accepts)
    ensures PutList(items, put, tail).Some? ==> tail.Some?
    ensures PutList(items, put, tail).Some? ==>
      GetList(bound, get, PutList(items, put, tail).value)
      == Answer(AcceptsList(items, bound, accepts), items, tail.value)
  {
    hide PutU32; hide GetU32; hide Trips;
    if PutList(items, put, tail).Some? {
      TripU32(|items|, PutItems(items, put, tail));
      TripItems(items, put, get, accepts, tail);
    }
  }
}
