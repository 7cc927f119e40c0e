/** Bytes as integers and as the low eight bits of a 32-bit word. */
module Octets {
  import opened Foundation

  /** The eight binary digits of a byte, least significant first. */
  datatype Octet = Octet(b0: bool, b1: bool, b2: bool, b3: bool, b4: bool, b5: bool, b6: bool, b7: bool)

  function Digit(on: bool, rest: nat): nat { 2 * rest + if on then 1 else 0 }

  function Value(o: Octet): (r: byte) {
    Digit(o.b0, Digit(o.b1, Digit(o.b2, Digit(o.b3, Digit(o.b4, Digit(o.b5, Digit(o.b6, Digit(o.b7, 0))))))))
  }

  function Digits(b: byte): Octet {
    var q1 := b / 2; var q2 := q1 / 2; var q3 := q2 / 2; var q4 := q3 / 2;
    var q5 := q4 / 2; var q6 := q5 / 2; var q7 := q6 / 2;
    Octet(b % 2 == 1, q1 % 2 == 1, q2 % 2 == 1, q3 % 2 == 1, q4 % 2 == 1, q5 % 2 == 1, q6 % 2 == 1, q7 % 2 == 1)
  }

  lemma DigitStep(on: bool, rest: nat)
    ensures Digit(on, rest) / 2 == rest && (Digit(on, rest) % 2 == 1) == on
  {}

  lemma DigitBack(q: nat)
    ensures Digit(q % 2 == 1, q / 2) == q
  {}

  lemma DigitsOfValue(o: Octet)
    ensures Digits(Value(o)) == o
  {
    var r7 := Digit(o.b7, 0); var r6 := Digit(o.b6, r7); var r5 := Digit(o.b5, r6); var r4 := Digit(o.b4, r5);
    var r3 := Digit(o.b3, r4); var r2 := Digit(o.b2, r3); var r1 := Digit(o.b1, r2);
    DigitStep(o.b7, 0); DigitStep(o.b6, r7); DigitStep(o.b5, r6); DigitStep(o.b4, r5);
    DigitStep(o.b3, r4); DigitStep(o.b2, r3); DigitStep(o.b1, r2); DigitStep(o.b0, r1);
  }

  lemma ValueOfDigits(b: byte)
    ensures Value(Digits(b)) == b
  {
    var q1 := b / 2; var q2 := q1 / 2; var q3 := q2 / 2; var q4 := q3 / 2;
    var q5 := q4 / 2; var q6 := q5 / 2; var q7 := q6 / 2;
    assert q7 / 2 == 0;
    DigitBack(b); DigitBack(q1); DigitBack(q2); DigitBack(q3);
    DigitBack(q4); DigitBack(q5); DigitBack(q6); DigitBack(q7);
    hide Digit;
  }

  // ---- words -----------------------------------------------------------------------------

  function Flag(on: bool, mask: bv32): bv32 { if on then mask else 0 }

  function Pack(o: Octet): bv32 {
    Flag(o.b0, 1) | Flag(o.b1, 2) | Flag(o.b2, 4) | Flag(o.b3, 8)
    | Flag(o.b4, 16) | Flag(o.b5, 32) | Flag(o.b6, 64) | Flag(o.b7, 128)
  }

  function Unpack(c: bv32): Octet {
    Octet(c & 1 == 1, c & 2 == 2, c & 4 == 4, c & 8 == 8, c & 16 == 16, c & 32 == 32, c & 64 == 64, c & 128 == 128)
  }

  lemma UnpackPack(o: Octet)
    ensures Unpack(Pack(o)) == o
  {}

  lemma PackUnpack(c: bv32)
    ensures Pack(Unpack(c)) == c & 0xFF
  {}

  /** static_cast<std::uint32_t> of a byte. */
  function Widen(b: byte): bv32 { Pack(Digits(b)) }

  /** static_cast<std::uint8_t> of a word. */
  function Narrow(c: bv32): byte { Value(Unpack(c)) }

  lemma NarrowWiden(b: byte)
    ensures Narrow(Widen(b)) == b
  {
    hide Pack; hide Unpack; hide Digits; hide Value;
    UnpackPack(Digits(b));
    ValueOfDigits(b);
  }

  lemma WidenNarrow(c: bv32)
    ensures Widen(Narrow(c)) == c & 0xFF
  {
    hide Pack; hide Unpack; hide Digits; hide Value;
    DigitsOfValue(Unpack(c));
    PackUnpack(c);
  }

  predicate IsNarrow(w: bv32) { w & 0xFFFFFF00 == 0 }

  lemma PackIsNarrow(o: Octet)
    ensures IsNarrow(Pack(o))
  {}

  lemma WidenIsNarrow(b: byte)
    ensures IsNarrow(Widen(b))
  {
    hide Pack; hide Digits;
    PackIsNarrow(Digits(b));
  }

  lemma WidenIsInjective(a: byte, b: byte)
    requires Widen(a) == Widen(b)
    ensures a == b
  {
    hide Widen; hide Narrow;
    NarrowWiden(a);
    NarrowWiden(b);
  }

  // ---- four bytes, least significant first -----------------------------------------------

  function Word(b: seq<byte>): bv32
    requires |b| == 4
  {
    Place3(Place2(Place1(Widen(b[0]), Widen(b[1])), Widen(b[2])), Widen(b[3]))
  }

  function Place1(x: bv32, w: bv32): bv32 { x | (w << 8) }

  function Place2(x: bv32, w: bv32): bv32 { x | (w << 16) }

  function Place3(x: bv32, w: bv32): bv32 { x | (w << 24) }

  function Bytes(c: bv32): (r: seq<byte>)
    ensures |r| == 4
  {
    [Narrow(c), Narrow(c >> 8), Narrow(c >> 16), Narrow(c >> 24)]
  }

  lemma Joined(c: bv32)
    ensures (c & 0xFF) | (((c >> 8) & 0xFF) << 8) | (((c >> 16) & 0xFF) << 16) | (((c >> 24) & 0xFF) << 24) == c
  {}

  lemma WordOfBytes(c: bv32)
    ensures Word(Bytes(c)) == c
  {
    hide Widen; hide Narrow;
    WidenNarrow(c); WidenNarrow(c >> 8); WidenNarrow(c >> 16); WidenNarrow(c >> 24);
    Joined(c);
  }

  lemma Parted(w0: bv32, w1: bv32, w2: bv32, w3: bv32)
    requires IsNarrow(w0) && IsNarrow(w1) && IsNarrow(w2) && IsNarrow(w3)
    ensures var c := w0 | (w1 << 8) | (w2 << 16) | (w3 << 24);
      c & 0xFF == w0 && (c >> 8) & 0xFF == w1 && (c >> 16) & 0xFF == w2 && (c >> 24) & 0xFF == w3
  {}

  lemma WordIsInjective(a: seq<byte>, b: seq<byte>)
    requires |a| == |b| == 4 && Word(a) == Word(b)
    ensures a == b
  {
    hide Widen;
    WidenIsNarrow(a[0]); WidenIsNarrow(a[1]); WidenIsNarrow(a[2]); WidenIsNarrow(a[3]);
    WidenIsNarrow(b[0]); WidenIsNarrow(b[1]); WidenIsNarrow(b[2]); WidenIsNarrow(b[3]);
    Parted(Widen(a[0]), Widen(a[1]), Widen(a[2]), Widen(a[3]));
    Parted(Widen(b[0]), Widen(b[1]), Widen(b[2]), Widen(b[3]));
    WidenIsInjective(a[0], b[0]); WidenIsInjective(a[1], b[1]);
    WidenIsInjective(a[2], b[2]); WidenIsInjective(a[3], b[3]);
  }
}

/** The reflected CRC-32 of section 8 of RFC 1952, one bit at a time and one table entry at a time. */
module Crc {
  import opened Foundation
  import opened Octets

  function BitStep(c: bv32): bv32 { if c & 1 == 1 then (c >> 1) ^ 0xEDB88320 else c >> 1 }

  function BitSteps(n: nat, c: bv32): bv32 {
    if n == 0 then c else BitStep(BitSteps(n - 1, c))
  }

  function Xor(a: bv32, b: bv32): bv32 { a ^ b }

  /** One byte, by definition: its bits are added to the register and shifted out. */
  function Step(c: bv32, b: byte): bv32 { BitSteps(8, Xor(c, Widen(b))) }

  function Fold(c: bv32, bytes: seq<byte>): bv32 {
    if bytes == [] then c else Step(Fold(c, bytes[..|bytes| - 1]), bytes[|bytes| - 1])
  }

  function Checksum(bytes: seq<byte>): bv32 { Xor(Fold(0xFFFFFFFF, bytes), 0xFFFFFFFF) }

  // ---- bit steps are linear and lose nothing ---------------------------------------------

  lemma ShiftXor(x: bv32, y: bv32)
    ensures (x ^ y) >> 1 == (x >> 1) ^ (y >> 1)
  {}

  lemma LowXor(x: bv32, y: bv32)
    ensures (x ^ y) & 1 == (x & 1) ^ (y & 1)
  {}

  lemma LowCases(x: bv32)
    ensures x & 1 == 0 || x & 1 == 1
  {}

  lemma XorBoth(a: bv32, b: bv32, p: bv32)
    ensures (a ^ p) ^ (b ^ p) == a ^ b
  {}

  lemma XorLeft(a: bv32, b: bv32, p: bv32)
    ensures (a ^ p) ^ b == (a ^ b) ^ p
  {}

  lemma XorRight(a: bv32, b: bv32, p: bv32)
    ensures a ^ (b ^ p) == (a ^ b) ^ p
  {}

  lemma BitStepIsLinear(x: bv32, y: bv32)
    ensures BitStep(Xor(x, y)) == Xor(BitStep(x), BitStep(y))
  {
    ShiftXor(x, y);
    LowXor(x, y);
    LowCases(x);
    LowCases(y);
    XorBoth(x >> 1, y >> 1, 0xEDB88320);
    XorLeft(x >> 1, y >> 1, 0xEDB88320);
    XorRight(x >> 1, y >> 1, 0xEDB88320);
  }

  lemma {:induction false} BitStepsAreLinear(n: nat, x: bv32, y: bv32)
    ensures BitSteps(n, Xor(x, y)) == Xor(BitSteps(n, x), BitSteps(n, y))
  {
    if n > 0 {
      hide BitStep; hide Xor;
      BitStepsAreLinear(n - 1, x, y);
      BitStepIsLinear(BitSteps(n - 1, x), BitSteps(n - 1, y));
    }
  }

  /** The polynomial has its top bit set, so a step can be undone. */
  lemma BitStepIsInjective(x: bv32, y: bv32)
    requires BitStep(x) == BitStep(y)
    ensures x == y
  {}

  lemma {:induction false} BitStepsAreInjective(n: nat, x: bv32, y: bv32)
    requires BitSteps(n, x) == BitSteps(n, y)
    ensures x == y
  {
    if n > 0 {
      hide BitStep;
      BitStepIsInjective(BitSteps(n - 1, x), BitSteps(n - 1, y));
      BitStepsAreInjective(n - 1, x, y);
    }
  }

  lemma XorCancels(c: bv32, x: bv32, y: bv32)
    requires Xor(c, x) == Xor(c, y)
    ensures x == y
  {}

  lemma XorCancelsRight(c: bv32, d: bv32, x: bv32)
    requires Xor(c, x) == Xor(d, x)
    ensures c == d
  {}

  /** A step is injective in the register for a fixed byte and in the byte for a fixed register. */
  lemma {:induction false} StepIsInjective(c: bv32, a: byte, d: bv32, b: byte)
    requires Step(c, a) == Step(d, b)
    ensures a == b ==> c == d
    ensures c == d ==> a == b
  {
    hide BitSteps; hide Widen; hide Xor;
    BitStepsAreInjective(8, Xor(c, Widen(a)), Xor(d, Widen(b)));
    if a == b { XorCancelsRight(c, d, Widen(a)); }
    if c == d {
      XorCancels(c, Widen(a), Widen(b));
      WidenIsInjective(a, b);
    }
  }

  lemma {:induction false} FoldIsInjective(c: bv32, d: bv32, bytes: seq<byte>)
    requires Fold(c, bytes) == Fold(d, bytes)
    ensures c == d
  {
    if bytes != [] {
      hide Step;
      var front, last := bytes[..|bytes| - 1], bytes[|bytes| - 1];
      StepIsInjective(Fold(c, front), last, Fold(d, front), last);
      FoldIsInjective(c, d, front);
    }
  }

  lemma {:induction false} FoldConcat(c: bv32, a: seq<byte>, b: seq<byte>)
    ensures Fold(c, a + b) == Fold(Fold(c, a), b)
  {
    if b == [] {
      assert a + b == a;
    } else {
      hide Step;
      var front := b[..|b| - 1];
      FoldConcat(c, a, front);
      assert (a + b)[..|a + b| - 1] == a + front;
      assert Fold(c, a + b) == Step(Fold(c, a + front), b[|b| - 1]);
    }
  }

  lemma {:induction false} FoldOne(c: bv32, b: byte)
    ensures Fold(c, [b]) == Step(c, b)
  {
    hide Step;
    assert [b][..0] == [];
    assert Fold(c, []) == c;
  }

  /** Whatever byte is replaced by another value, wherever it stands, the register differs at the end. */
  lemma {:induction false} ReplacedByteShows(c: bv32, bytes: seq<byte>, at: nat, value: byte)
    requires at < |bytes| && bytes[at] != value
    ensures Fold(c, bytes) != Fold(c, bytes[at := value])
  {
    hide Step; hide Fold;
    var front, rest := bytes[..at], bytes[at + 1..];
    assert bytes == (front + [bytes[at]]) + rest;
    assert bytes[at := value] == (front + [value]) + rest;
    forall b: byte ensures Fold(c, (front + [b]) + rest) == Fold(Step(Fold(c, front), b), rest) {
      FoldConcat(c, front + [b], rest);
      FoldConcat(c, front, [b]);
      FoldOne(Fold(c, front), b);
    }
    var x, y := Step(Fold(c, front), bytes[at]), Step(Fold(c, front), value);
    if Fold(x, rest) == Fold(y, rest) {
      FoldIsInjective(x, y, rest);
      StepIsInjective(Fold(c, front), bytes[at], Fold(c, front), value);
    }
  }

  lemma {:induction false} ReplacedByteChangesChecksum(bytes: seq<byte>, at: nat, value: byte)
    requires at < |bytes| && bytes[at] != value
    ensures Checksum(bytes) != Checksum(bytes[at := value])
  {
    hide Fold; hide Xor;
    ReplacedByteShows(0xFFFFFFFF, bytes, at, value);
    var other := bytes[at := value];
    if Checksum(bytes) == Checksum(other) {
      XorCancelsRight(Fold(0xFFFFFFFF, bytes), Fold(0xFFFFFFFF, other), 0xFFFFFFFF);
    }
  }

  // ---- table entries---------------------------------------------------------------------

  function Entry(index: byte): bv32 { BitSteps(8, Widen(index)) }

  function High(c: bv32): bv32 { c & 0xFFFFFF00 }

  function Low(c: bv32): bv32 { c & 0xFF }

  function Down(c: bv32): bv32 { c >> 8 }

  lemma HighShifts(h: bv32)
    requires h & 0xFF == 0
    ensures BitStep(BitStep(BitStep(BitStep(BitStep(BitStep(BitStep(BitStep(h)))))))) == h >> 8
  {}

  lemma {:induction false} HighShift(h: bv32)
    requires Low(h) == 0
    ensures BitSteps(8, h) == Down(h)
  {
    HighShifts(h);
    hide BitStep; hide Down;
    assert BitSteps(1, h) == BitStep(BitSteps(0, h)) && BitSteps(2, h) == BitStep(BitSteps(1, h));
    assert BitSteps(4, h) == BitStep(BitStep(BitSteps(2, h)));
    assert BitSteps(6, h) == BitStep(BitStep(BitSteps(4, h)));
  }

  lemma HighLow(c: bv32)
    ensures c == Xor(High(c), Low(c))
  {}

  lemma HighOnly(c: bv32)
    ensures Low(High(c)) == 0 && Down(High(c)) == Down(c)
  {}

  lemma NarrowXorKeepsHigh(c: bv32, w: bv32)
    requires IsNarrow(w)
    ensures Down(Xor(c, w)) == Down(c)
  {}

  /** Eight bit steps at once: the high bits shift down and the low byte selects a table entry. */
  lemma {:induction false} TableStep(c: bv32, b: byte)
    ensures Step(c, b) == Xor(Down(c), Entry(Narrow(Xor(c, Widen(b)))))
  {
    var x := Xor(c, Widen(b));
    WidenIsNarrow(b);
    NarrowXorKeepsHigh(c, Widen(b));
    LowEntry(x);
    hide BitSteps; hide Widen; hide Narrow; hide Xor; hide High; hide Low; hide Down;
    HighLow(x);
    BitStepsAreLinear(8, High(x), Low(x));
    HighOnly(x);
    HighShift(High(x));
  }

  lemma {:induction false} LowEntry(x: bv32)
    ensures Entry(Narrow(x)) == BitSteps(8, Low(x))
  {
    hide BitSteps; hide Widen; hide Narrow;
    WidenNarrow(x);
  }

  // ---- bursts ----------------------------------------------------------------------------

  lemma {:induction false} BitStepsCompose(m: nat, n: nat, c: bv32)
    ensures BitSteps(m + n, c) == BitSteps(m, BitSteps(n, c))
  {
    if m > 0 {
      hide BitStep;
      BitStepsCompose(m - 1, n, c);
    }
  }

  function Up(c: bv32): bv32 { c << 8 }

  lemma UpDown(w: bv32)
    requires w & 0xFF000000 == 0
    ensures Low(Up(w)) == 0 && Down(Up(w)) == w
  {}

  lemma {:induction false} UpUndone(v: bv32)
    requires v & 0xFF000000 == 0
    ensures BitSteps(8, Up(v)) == v
  {
    UpDown(v);
    HighShift(Up(v));
  }

  function Lifted(k: nat, w: bv32): bv32 { if k == 0 then w else Up(Lifted(k - 1, w)) }

  lemma {:induction false} LiftedIsLow(k: nat, w: bv32)
    requires k <= 2 && IsNarrow(w)
    ensures Lifted(k, w) & 0xFF000000 == 0
  {
    Ups(w);
    assert Lifted(1, w) == Up(Lifted(0, w)) && Lifted(2, w) == Up(Lifted(1, w));
  }

  lemma {:induction false} LiftedComesDown(k: nat, w: bv32)
    requires k <= 3 && IsNarrow(w)
    ensures BitSteps(8 * k, Lifted(k, w)) == w
  {
    if k > 0 {
      LiftedIsLow(k - 1, w);
      UpUndone(Lifted(k - 1, w));
      LiftedComesDown(k - 1, w);
      BitStepsCompose(8 * (k - 1), 8, Lifted(k, w));
    }
  }

  /** A byte that arrives n bit steps later might as well stand n bits higher now. */
  lemma {:induction false} LaterByte(n: nat, x: bv32, w: bv32, high: bv32)
    requires BitSteps(n, high) == w
    ensures BitSteps(8, Xor(BitSteps(n, x), w)) == BitSteps(8 + n, Xor(x, high))
  {
    hide BitSteps; hide Xor;
    BitStepsAreLinear(n, x, high);
    BitStepsCompose(8, n, Xor(x, high));
  }

  lemma Ups(w: bv32)
    requires IsNarrow(w)
    ensures w & 0xFF000000 == 0 && Up(w) & 0xFF000000 == 0 && Up(Up(w)) & 0xFF000000 == 0
  {}

  lemma XorAssociates(a: bv32, b: bv32, c: bv32)
    ensures Xor(Xor(a, b), c) == Xor(a, Xor(b, c))
  {}

  predicate Below16(x: bv32) { x & 0xFFFF0000 == 0 }

  predicate Below24(x: bv32) { x & 0xFF000000 == 0 }

  lemma Place1Xor(x: bv32, w: bv32)
    requires IsNarrow(x) && IsNarrow(w)
    ensures Place1(x, w) == Xor(x, Up(w)) && Below16(Place1(x, w))
  {}

  lemma Place2Xor(x: bv32, w: bv32)
    requires Below16(x) && IsNarrow(w)
    ensures Place2(x, w) == Xor(x, Up(Up(w))) && Below24(Place2(x, w))
  {}

  lemma Place3Xor(x: bv32, w: bv32)
    requires Below24(x) && IsNarrow(w)
    ensures Place3(x, w) == Xor(x, Up(Up(Up(w))))
  {}

  lemma {:induction false} WordAsLifted(b: seq<byte>)
    requires |b| == 4
    ensures Word(b)
      == Xor(Xor(Xor(Widen(b[0]), Lifted(1, Widen(b[1]))), Lifted(2, Widen(b[2]))), Lifted(3, Widen(b[3])))
  {
    hide Widen;
    WidenIsNarrow(b[0]); WidenIsNarrow(b[1]); WidenIsNarrow(b[2]); WidenIsNarrow(b[3]);
    LiftedOut(Widen(b[1])); LiftedOut(Widen(b[2])); LiftedOut(Widen(b[3]));
    hide Xor; hide Up; hide IsNarrow; hide Lifted; hide Place1; hide Place2; hide Place3; hide Below16; hide Below24;
    var x1 := Place1(Widen(b[0]), Widen(b[1]));
    Place1Xor(Widen(b[0]), Widen(b[1]));
    Place2Xor(x1, Widen(b[2]));
    Place3Xor(Place2(x1, Widen(b[2])), Widen(b[3]));
  }

  lemma {:induction false} LiftedOut(w: bv32)
    ensures Lifted(1, w) == Up(w) && Lifted(2, w) == Up(Up(w)) && Lifted(3, w) == Up(Up(Up(w)))
  {
    hide Up;
    assert Lifted(1, w) == Up(Lifted(0, w)) && Lifted(2, w) == Up(Lifted(1, w));
  }

  lemma {:induction false} WordAsXor(c: bv32, b: seq<byte>)
    requires |b| == 4
    ensures Xor(Xor(Xor(Xor(c, Widen(b[0])), Lifted(1, Widen(b[1]))), Lifted(2, Widen(b[2]))), Lifted(3, Widen(b[3])))
            == Xor(c, Word(b))
  {
    hide Widen; hide Xor; hide Lifted; hide Word;
    WordAsLifted(b);
    var w0, w1, w2, w3 := Widen(b[0]), Lifted(1, Widen(b[1])), Lifted(2, Widen(b[2])), Lifted(3, Widen(b[3]));
    XorAssociates(c, w0, w1);
    XorAssociates(c, Xor(w0, w1), w2);
    XorAssociates(c, Xor(Xor(w0, w1), w2), w3);
  }

  lemma {:induction false} StepAfter(k: nat, x: bv32, b: byte)
    requires k <= 3
    ensures Step(BitSteps(8 * k, x), b) == BitSteps(8 + 8 * k, Xor(x, Lifted(k, Widen(b))))
  {
    WidenIsNarrow(b);
    LiftedComesDown(k, Widen(b));
    hide Widen; hide BitSteps; hide Xor; hide Lifted; hide IsNarrow;
    LaterByte(8 * k, x, Widen(b), Lifted(k, Widen(b)));
  }

  /** Four byte steps are thirty-two bit steps of the register combined with one word. */
  lemma {:induction false} FourSteps(c: bv32, b: seq<byte>)
    requires |b| == 4
    ensures Fold(c, b) == BitSteps(32, Xor(c, Word(b)))
  {
    hide Widen; hide BitSteps; hide Xor; hide Lifted; hide Word; hide Fold;
    WordAsXor(c, b);
    FoldFour(c, b);
    var x0 := Xor(c, Widen(b[0]));
    var x1 := Xor(x0, Lifted(1, Widen(b[1])));
    var x2 := Xor(x1, Lifted(2, Widen(b[2])));
    assert Step(c, b[0]) == BitSteps(8, x0);
    hide Step;
    StepAfter(1, x0, b[1]);
    StepAfter(2, x1, b[2]);
    StepAfter(3, x2, b[3]);
  }

  lemma {:induction false} FoldFour(c: bv32, b: seq<byte>)
    requires |b| == 4
    ensures Fold(c, b) == Step(Step(Step(Step(c, b[0]), b[1]), b[2]), b[3])
  {
    hide Step;
    assert b[..3][..2] == b[..2] && b[..2][..1] == b[..1] && b[..1][..0] == [];
    assert Fold(c, b[..1]) == Step(Fold(c, []), b[0]);
    assert Fold(c, b[..2]) == Step(Fold(c, b[..1]), b[1]);
    assert Fold(c, b[..3]) == Step(Fold(c, b[..2]), b[2]);
  }

  /** Any change confined to four consecutive bytes, so any burst of up to 25 bits, shows as well. */
  lemma {:induction false} BurstShows(c: bv32, front: seq<byte>, a: seq<byte>, b: seq<byte>, rest: seq<byte>)
    requires |a| == |b| == 4 && a != b
    ensures Fold(c, front + a + rest) != Fold(c, front + b + rest)
  {
    hide Fold; hide BitSteps; hide Xor; hide Word;
    var d := Fold(c, front);
    FoldConcat(c, front + a, rest); FoldConcat(c, front, a);
    FoldConcat(c, front + b, rest); FoldConcat(c, front, b);
    if Fold(Fold(d, a), rest) == Fold(Fold(d, b), rest) {
      FoldIsInjective(Fold(d, a), Fold(d, b), rest);
      FourSteps(d, a);
      FourSteps(d, b);
      BitStepsAreInjective(32, Xor(d, Word(a)), Xor(d, Word(b)));
      XorCancels(d, Word(a), Word(b));
      WordIsInjective(a, b);
    }
  }

  // ---- the polynomial --------------------------------------------------------------------

  /** The exponents of the generator, as section 3.2.9 of IEEE 802.3 lists them. */
  const GENERATOR: seq<nat> := [32, 26, 23, 22, 16, 12, 11, 10, 8, 7, 5, 4, 2, 1, 0]

  /** A polynomial over two elements is the set of its exponents; addition keeps what only one of them has. */
  type Polynomial = set<nat>

  function Plus(p: Polynomial, q: Polynomial): Polynomial { (p - q) + (q - p) }

  function TimesX(p: Polynomial): Polynomial { set i | i in p :: i + 1 }

  /** What is left of a polynomial of degree at most 32. */
  function Modulo(p: Polynomial): Polynomial { if 32 in p then Plus(p, set i | i in GENERATOR) else p }

  /** The register is reflected: its top bit is the coefficient of x to the power 0. */
  function Mask(i: nat): bv32 { if i == 0 then 0x8000_0000 else Half(Mask(i - 1)) }

  predicate Has(c: bv32, i: nat) { Meets(c, Mask(i)) }

  function Poly(c: bv32): Polynomial { set i: nat | i < 32 && Has(c, i) }

  predicate Single(m: bv32) { m != 0 && m & (m - 1) == 0 }

  function Half(m: bv32): bv32 { m >> 1 }

  predicate Meets(c: bv32, m: bv32) { c & m != 0 }

  lemma ShiftedBit(c: bv32, m: bv32)
    requires Single(m) && m != 1
    ensures (c >> 1) & (m >> 1) != 0 <==> c & m != 0
    ensures Single(m >> 1)
  {}

  function Both(a: bv32, m: bv32): bv32 { a & m }

  lemma BothXor(a: bv32, b: bv32, m: bv32)
    ensures Both(Xor(a, b), m) == Xor(Both(a, m), Both(b, m))
  {}

  lemma BothSingle(a: bv32, m: bv32)
    requires Single(m)
    ensures Both(a, m) == 0 || Both(a, m) == m
  {}

  lemma XorOfEnds(m: bv32)
    ensures Xor(m, m) == 0 && Xor(m, 0) == m && Xor(0, m) == m && Xor(0, 0) == 0
  {}

  lemma XorBit(a: bv32, b: bv32, m: bv32)
    requires Single(m)
    ensures Meets(Xor(a, b), m) <==> Meets(a, m) != Meets(b, m)
  {
    assert m != 0;
    assert forall x :: Meets(x, m) == (Both(x, m) != 0);
    hide Meets; hide Both; hide Xor; hide Single;
    BothXor(a, b, m);
    BothSingle(a, m);
    BothSingle(b, m);
    XorOfEnds(m);
  }

  lemma StepCases(c: bv32)
    ensures BitStep(c) == if Meets(c, 1) then Xor(Half(c), 0xEDB8_8320) else Half(c)
  {
    LowCases(c);
  }

  lemma HalvedMask(c: bv32, m: bv32)
    requires Single(m) && m != 1
    ensures Single(Half(m)) && (Meets(Half(c), Half(m)) <==> Meets(c, m))
  {
    ShiftedBit(c, m);
  }

  /** One coefficient of a step: its neighbour, and the generator's if the last coefficient was set. */
  lemma StepAtMask(c: bv32, m: bv32)
    requires Single(m) && m != 1
    ensures Meets(BitStep(c), Half(m)) <==> Meets(c, m) != (Meets(c, 1) && Meets(0xEDB8_8320, Half(m)))
  {
    hide BitStep; hide Meets; hide Xor; hide Half; hide Single;
    HalvedMask(c, m);
    StepCases(c);
    XorBit(Half(c), 0xEDB8_8320, Half(m));
  }

  lemma StepAtTop(c: bv32)
    ensures Meets(BitStep(c), 0x8000_0000) <==> Meets(c, 1)
  {}

  /** The thirty-two masks, one power of two each. */
  lemma Masks()
    ensures Mask(0) == 0x80000000 && Mask(1) == 0x40000000 && Mask(2) == 0x20000000 && Mask(3) == 0x10000000
    ensures Mask(4) == 0x8000000 && Mask(5) == 0x4000000 && Mask(6) == 0x2000000 && Mask(7) == 0x1000000
    ensures Mask(8) == 0x800000 && Mask(9) == 0x400000 && Mask(10) == 0x200000 && Mask(11) == 0x100000
    ensures Mask(12) == 0x80000 && Mask(13) == 0x40000 && Mask(14) == 0x20000 && Mask(15) == 0x10000
    ensures Mask(16) == 0x8000 && Mask(17) == 0x4000 && Mask(18) == 0x2000 && Mask(19) == 0x1000
    ensures Mask(20) == 0x800 && Mask(21) == 0x400 && Mask(22) == 0x200 && Mask(23) == 0x100
    ensures Mask(24) == 0x80 && Mask(25) == 0x40 && Mask(26) == 0x20 && Mask(27) == 0x10
    ensures Mask(28) == 0x8 && Mask(29) == 0x4 && Mask(30) == 0x2 && Mask(31) == 0x1
  {
    assert Mask(1) == Half(Mask(0));
    assert Mask(2) == Half(Mask(1));
    assert Mask(3) == Half(Mask(2));
    assert Mask(4) == Half(Mask(3));
    assert Mask(5) == Half(Mask(4));
    assert Mask(6) == Half(Mask(5));
    assert Mask(7) == Half(Mask(6));
    assert Mask(8) == Half(Mask(7));
    assert Mask(9) == Half(Mask(8));
    assert Mask(10) == Half(Mask(9));
    assert Mask(11) == Half(Mask(10));
    assert Mask(12) == Half(Mask(11));
    assert Mask(13) == Half(Mask(12));
    assert Mask(14) == Half(Mask(13));
    assert Mask(15) == Half(Mask(14));
    assert Mask(16) == Half(Mask(15));
    assert Mask(17) == Half(Mask(16));
    assert Mask(18) == Half(Mask(17));
    assert Mask(19) == Half(Mask(18));
    assert Mask(20) == Half(Mask(19));
    assert Mask(21) == Half(Mask(20));
    assert Mask(22) == Half(Mask(21));
    assert Mask(23) == Half(Mask(22));
    assert Mask(24) == Half(Mask(23));
    assert Mask(25) == Half(Mask(24));
    assert Mask(26) == Half(Mask(25));
    assert Mask(27) == Half(Mask(26));
    assert Mask(28) == Half(Mask(27));
    assert Mask(29) == Half(Mask(28));
    assert Mask(30) == Half(Mask(29));
    assert Mask(31) == Half(Mask(30));
  }

  lemma {:induction false} MaskIsSingle(i: nat)
    requires i < 32
    ensures Single(Mask(i)) && (Mask(i) == 1 <==> i == 31)
  {
    Masks();
    hide Mask;
  }

  /** The constant of the source, read as a polynomial: the generator without its leading term. */
  lemma {:induction false} ConstantIsGenerator(i: nat)
    requires i < 32
    ensures Has(0xEDB8_8320, i) <==> i in GENERATOR
  {
    Masks();
    hide Mask;
  }

  lemma {:induction false} StepBit(c: bv32, i: nat)
    requires i < 32
    ensures Has(BitStep(c), i) <==> (i > 0 && Has(c, i - 1)) != (Has(c, 31) && i in GENERATOR)
  {
    assert Mask(31) == 1 by { Masks(); }
    hide BitStep; hide Meets; hide Half; hide Single;
    if i == 0 {
      StepAtTop(c);
    } else {
      MaskIsSingle(i - 1);
      ConstantIsGenerator(i);
      StepAtMask(c, Mask(i - 1));
    }
  }

  lemma {:induction false} Shifted(p: Polynomial, i: nat)
    ensures i in TimesX(p) <==> i > 0 && i - 1 in p
  {
    if i > 0 && i - 1 in p { assert (i - 1) + 1 in TimesX(p); }
  }

  /** One bit step multiplies the register by x, modulo the generator. */
  lemma BitStepMultiplies(c: bv32)
    ensures Poly(BitStep(c)) == Modulo(TimesX(Poly(c)))
  {
    hide BitStep; hide Has; hide TimesX;
    Shifted(Poly(c), 32);
    forall i: nat ensures i in Poly(BitStep(c)) <==> i in Modulo(TimesX(Poly(c))) {
      Shifted(Poly(c), i);
      if i < 32 { StepBit(c, i); }
    }
  }

  // ---- the residue -----------------------------------------------------------------------

  /** The checksum of nothing is zero, so the register starts at what the end takes off again. */
  lemma EmptyChecksum()
    ensures Checksum([]) == 0
  {}

  lemma Ones8()
    ensures BitStep(BitStep(BitStep(BitStep(BitStep(BitStep(BitStep(BitStep(0xFFFFFFFF)))))))) == 0x2DFD1072
  {
    assert BitStep(0xFFFFFFFF) == 0x92477CDF;
    assert BitStep(0x92477CDF) == 0xA49B3D4F;
    assert BitStep(0xA49B3D4F) == 0xBFF51D87;
    assert BitStep(0xBFF51D87) == 0xB2420DE3;
    assert BitStep(0xB2420DE3) == 0xB49985D1;
    assert BitStep(0xB49985D1) == 0xB7F441C8;
    assert BitStep(0xB7F441C8) == 0x5BFA20E4;
    assert BitStep(0x5BFA20E4) == 0x2DFD1072;
    hide BitStep;
  }

  lemma Ones16()
    ensures BitStep(BitStep(BitStep(BitStep(BitStep(BitStep(BitStep(BitStep(0x2DFD1072)))))))) == 0xBE26ED00
  {
    assert BitStep(0x2DFD1072) == 0x16FE8839;
    assert BitStep(0x16FE8839) == 0xE6C7C73C;
    assert BitStep(0xE6C7C73C) == 0x7363E39E;
    assert BitStep(0x7363E39E) == 0x39B1F1CF;
    assert BitStep(0x39B1F1CF) == 0xF1607BC7;
    assert BitStep(0xF1607BC7) == 0x9508BEC3;
    assert BitStep(0x9508BEC3) == 0xA73CDC41;
    assert BitStep(0xA73CDC41) == 0xBE26ED00;
    hide BitStep;
  }

  lemma Ones24()
    ensures BitStep(BitStep(BitStep(BitStep(BitStep(BitStep(BitStep(BitStep(0xBE26ED00)))))))) == 0xBE26ED
  {
    assert BitStep(0xBE26ED00) == 0x5F137680;
    assert BitStep(0x5F137680) == 0x2F89BB40;
    assert BitStep(0x2F89BB40) == 0x17C4DDA0;
    assert BitStep(0x17C4DDA0) == 0xBE26ED0;
    assert BitStep(0xBE26ED0) == 0x5F13768;
    assert BitStep(0x5F13768) == 0x2F89BB4;
    assert BitStep(0x2F89BB4) == 0x17C4DDA;
    assert BitStep(0x17C4DDA) == 0xBE26ED;
    hide BitStep;
  }

  lemma Ones32()
    ensures BitStep(BitStep(BitStep(BitStep(BitStep(BitStep(BitStep(BitStep(0xBE26ED)))))))) == 0xDEBB20E3
  {
    assert BitStep(0xBE26ED) == 0xEDE79056;
    assert BitStep(0xEDE79056) == 0x76F3C82B;
    assert BitStep(0x76F3C82B) == 0xD6C16735;
    assert BitStep(0xD6C16735) == 0x86D830BA;
    assert BitStep(0x86D830BA) == 0x436C185D;
    assert BitStep(0x436C185D) == 0xCC0E8F0E;
    assert BitStep(0xCC0E8F0E) == 0x66074787;
    assert BitStep(0x66074787) == 0xDEBB20E3;
    hide BitStep;
  }

  lemma {:induction false} EightSteps(c: bv32)
    ensures BitSteps(8, c) == BitStep(BitStep(BitStep(BitStep(BitStep(BitStep(BitStep(BitStep(c))))))))
  {
    hide BitStep;
    assert BitSteps(1, c) == BitStep(BitSteps(0, c)) && BitSteps(2, c) == BitStep(BitSteps(1, c));
    assert BitSteps(4, c) == BitStep(BitStep(BitSteps(2, c)));
    assert BitSteps(6, c) == BitStep(BitStep(BitSteps(4, c)));
  }

  lemma {:induction false} OnesThrough()
    ensures BitSteps(32, 0xFFFF_FFFF) == 0xDEBB_20E3
  {
    EightSteps(0xFFFFFFFF); EightSteps(0x2DFD1072); EightSteps(0xBE26ED00); EightSteps(0xBE26ED);
    Ones8(); Ones16(); Ones24(); Ones32();
    hide BitSteps; hide BitStep;
    BitStepsCompose(8, 8, 0xFFFF_FFFF);
    BitStepsCompose(8, 16, 0xFFFF_FFFF);
    BitStepsCompose(8, 24, 0xFFFF_FFFF);
  }

  lemma XorOfInverse(c: bv32)
    ensures Xor(c, Xor(c, 0xFFFF_FFFF)) == 0xFFFF_FFFF
  {}

  /** Whatever the bytes, appending their own checksum leaves the register at the one residue of this polynomial. */
  lemma {:induction false} ResidueIsConstant(bytes: seq<byte>)
    ensures Fold(0xFFFF_FFFF, bytes + Bytes(Checksum(bytes))) == 0xDEBB_20E3
  {
    hide Fold; hide BitSteps; hide Xor; hide Word; hide Bytes;
    var c, tail := Fold(0xFFFF_FFFF, bytes), Bytes(Checksum(bytes));
    FoldConcat(0xFFFF_FFFF, bytes, tail);
    FourSteps(c, tail);
    WordOfBytes(Checksum(bytes));
    XorOfInverse(c);
    OnesThrough();
  }

  // ---- the loops -------------------------------------------------------------------------

  predicate IsTable(table: array<bv32>)
    reads table
  {
    table.Length == 256 && forall i: byte :: table[i] == Entry(i)
  }

  method MakeTable() returns (table: array<bv32>)
    ensures fresh(table) && IsTable(table)
  {
    hide Widen; hide BitStep;
    table := new bv32[256];
    for index := 0 to 256
      invariant forall i: byte | i < index :: table[i] == Entry(i)
    {
      var crc := Widen(index);
      for bit := 0 to 8
        invariant crc == BitSteps(bit, Widen(index))
      {
        crc := BitStep(crc);
      }
      table[index] := crc;
    }
  }

  /** The table-driven loop computes the bitwise definition. */
  method Extend(table: array<bv32>, start: bv32, bytes: seq<byte>) returns (crc: bv32)
    requires IsTable(table)
    ensures crc == Fold(start, bytes)
  {
    hide Widen; hide Narrow; hide Step; hide Entry; hide Xor; hide Down;
    crc := start;
    for i := 0 to |bytes|
      invariant crc == Fold(start, bytes[..i])
    {
      var index := Narrow(Xor(crc, Widen(bytes[i])));
      TableStep(crc, bytes[i]);
      crc := Xor(Down(crc), table[index]);
      assert bytes[..i + 1][..i] == bytes[..i];
    }
    assert bytes[..|bytes|] == bytes;
  }

  method Crc32(table: array<bv32>, bytes: seq<byte>) returns (crc: bv32)
    requires IsTable(table)
    ensures crc == Checksum(bytes)
  {
    crc := Extend(table, 0xFFFFFFFF, bytes);
    crc := Xor(crc, 0xFFFFFFFF);
  }
}
