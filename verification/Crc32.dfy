/** CRC-32 with the reflected polynomial 0xEDB88320, the checksum of every log structure. */
module Crc32 {
  import opened Prelude
  import opened Bitwise

  const POLYNOMIAL: U32 := 0xEDB8_8320

  function Shift(c: U32): U32 {
    XorFits(c / 2, POLYNOMIAL);
    if c % 2 == 1 then Xor(c / 2, POLYNOMIAL) else c / 2
  }

  function Absorb(c: U32, b: Byte): U32 {
    XorFits(c, b);
    Shift(Shift(Shift(Shift(Shift(Shift(Shift(Shift(Xor(c, b)))))))))
  }

  function Fold(c: U32, bytes: seq<Byte>): U32
    decreases |bytes|
  {
    if bytes == [] then c else Fold(Absorb(c, bytes[0]), bytes[1..])
  }

  function Checksum(bytes: seq<Byte>): U32 { U32_MAX - Fold(U32_MAX, bytes) }

  // ------------------------------------------------------------ what it detects

  lemma XorApart(a: nat, b: nat, c: nat)
    ensures Xor(a, b) == Xor(a, c) ==> b == c
  {
    XorCancels(a, b);
    XorCancels(a, c);
  }

  lemma {:induction false} XorSwap(a: nat, b: nat)
    ensures Xor(a, b) == Xor(b, a)
    decreases a + b
  {
    if a != 0 || b != 0 { XorSwap(a / 2, b / 2); }
  }

  lemma PowerOf31()
    ensures Power(31) == 0x8000_0000 && Power(32) == 0x1_0000_0000
  {
    PowerOf32();
    assert Power(32) == 2 * Power(31);
  }

  /** A shift loses nothing: its highest bit tells which way it went. */
  lemma ShiftApart(c: U32, d: U32)
    ensures Shift(c) == Shift(d) ==> c == d
  {
    PowerOf31();
    hide Power, Xor;
    XorHigh(c / 2, POLYNOMIAL, 31);
    XorHigh(d / 2, POLYNOMIAL, 31);
    XorSwap(c / 2, POLYNOMIAL);
    XorSwap(d / 2, POLYNOMIAL);
    XorApart(POLYNOMIAL, c / 2, d / 2);
  }

  lemma ShiftsApart(c: U32, d: U32, n: nat)
    ensures Shifted(c, n) == Shifted(d, n) ==> c == d
    decreases n
  {
    hide Shift;
    if n > 0 {
      ShiftsApart(c, d, n - 1);
      ShiftApart(Shifted(c, n - 1), Shifted(d, n - 1));
    }
  }

  function Shifted(c: U32, n: nat): U32 { if n == 0 then c else Shift(Shifted(c, n - 1)) }

  lemma AbsorbIs(c: U32, b: Byte)
    ensures Xor(c, b) <= U32_MAX && Absorb(c, b) == Shifted(Xor(c, b), 8)
  {
    hide Shift, Xor;
    XorFits(c, b);
    var x := Xor(c, b);
    assert Shifted(x, 2) == Shift(Shift(x)) by { assert Shifted(x, 1) == Shift(Shifted(x, 0)); }
    assert Shifted(x, 4) == Shift(Shift(Shifted(x, 2))) by { assert Shifted(x, 3) == Shift(Shifted(x, 2)); }
    assert Shifted(x, 6) == Shift(Shift(Shifted(x, 4))) by { assert Shifted(x, 5) == Shift(Shifted(x, 4)); }
    assert Shifted(x, 8) == Shift(Shift(Shifted(x, 6))) by { assert Shifted(x, 7) == Shift(Shifted(x, 6)); }
  }

  lemma AbsorbApart(c: U32, b: Byte, d: U32, e: Byte)
    requires c == d || b == e
    ensures Absorb(c, b) == Absorb(d, e) ==> c == d && b == e
  {
    hide Absorb, Xor, Shifted;
    AbsorbIs(c, b);
    AbsorbIs(d, e);
    ShiftsApart(Xor(c, b), Xor(d, e), 8);
    XorApart(c, b, e);
    XorSwap(c, b);
    XorSwap(d, b);
    XorApart(b, c, d);
  }

  lemma {:induction false} FoldApart(c: U32, d: U32, bytes: seq<Byte>)
    ensures Fold(c, bytes) == Fold(d, bytes) ==> c == d
    decreases |bytes|
  {
    hide Absorb;
    if bytes != [] {
      FoldApart(Absorb(c, bytes[0]), Absorb(d, bytes[0]), bytes[1..]);
      AbsorbApart(c, bytes[0], d, bytes[0]);
    }
  }

  /** No byte can change alone: the checksum tells the two contents apart. */
  lemma OneByteDetected(before: seq<Byte>, x: Byte, y: Byte, after: seq<Byte>)
    requires x != y
    ensures Checksum(before + [x] + after) != Checksum(before + [y] + after)
  {
    hide Absorb;
    var c := Fold(U32_MAX, before);
    FoldSplit(U32_MAX, before + [x], after);
    FoldSplit(U32_MAX, before + [y], after);
    FoldSplit(U32_MAX, before, [x]);
    FoldSplit(U32_MAX, before, [y]);
    assert Fold(c, [x]) == Absorb(c, x) && Fold(c, [y]) == Absorb(c, y) by {
      assert [x][1..] == [] && [y][1..] == [];
    }
    FoldApart(Absorb(c, x), Absorb(c, y), after);
    AbsorbApart(c, x, c, y);
  }

  lemma ByteDetected(bytes: seq<Byte>, i: nat, x: Byte)
    requires i < |bytes| && bytes[i] != x
    ensures Checksum(bytes[i := x]) != Checksum(bytes)
  {
    hide Fold;
    var before, after := bytes[..i], bytes[i + 1..];
    assert bytes == before + [bytes[i]] + after && bytes[i := x] == before + [x] + after;
    OneByteDetected(before, bytes[i], x, after);
  }

  /** Hashing a file chunk by chunk gives the checksum of the whole file. */
  lemma {:induction false} FoldSplit(c: U32, a: seq<Byte>, b: seq<Byte>)
    ensures Fold(c, a + b) == Fold(Fold(c, a), b)
    decreases |a|
  {
    hide Absorb;
    if a == [] {
      assert a + b == b;
    } else {
      assert (a + b)[1..] == a[1..] + b;
      FoldSplit(Absorb(c, a[0]), a[1..], b);
    }
  }
}
