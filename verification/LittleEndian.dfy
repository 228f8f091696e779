/** Little-endian integers of a fixed width, as every byte layout of the engine stores them. */
module LittleEndian {
  import opened Prelude
  import Bitwise

  function Le(n: nat, width: nat): seq<Byte> {
    if width == 0 then [] else [n % 256] + Le(n / 256, width - 1)
  }

  function FromLe(bs: seq<Byte>): nat {
    if bs == [] then 0 else bs[0] + 256 * FromLe(bs[1..])
  }

  function Capacity(width: nat): nat { if width == 0 then 1 else 256 * Capacity(width - 1) }

  lemma {:induction false} LeInverse(n: nat, bs: seq<Byte>)
    ensures n == FromLe(bs) <==> n < Capacity(|bs|) && Le(n, |bs|) == bs
  {
    if bs != [] {
      LeInverse(n / 256, bs[1..]);
      assert n == FromLe(bs) <==> n % 256 == bs[0] && n / 256 == FromLe(bs[1..]);
      hide FromLe;
      assert bs == [bs[0]] + bs[1..];
      assert n < Capacity(|bs|) <==> n / 256 < Capacity(|bs| - 1);
      assert Le(n, |bs|)[0] == n % 256 && Le(n, |bs|)[1..] == Le(n / 256, |bs| - 1);
    }
  }

  lemma {:induction false} LeLength(n: nat, width: nat)
    ensures |Le(n, width)| == width
  {
    if width > 0 { LeLength(n / 256, width - 1); }
  }

  /** Each byte is one digit to base 256, the lowest first. */
  lemma {:induction false} LeDigit(n: nat, width: nat, i: nat)
    requires i < width
    ensures |Le(n, width)| == width && Capacity(i) > 0
    ensures Le(n, width)[i] == (n / Capacity(i)) % 256
    decreases width
  {
    LeLength(n, width);
    PositiveCapacity(i);
    if i > 0 {
      LeDigit(n / 256, width - 1, i - 1);
      DivideOn(n, Capacity(i - 1));
    }
  }

  lemma {:induction false} PositiveCapacity(width: nat)
    ensures Capacity(width) > 0
  {
    if width > 0 { PositiveCapacity(width - 1); }
  }

  lemma DivideOn(n: nat, p: nat)
    requires p > 0
    ensures n / (256 * p) == (n / 256) / p
  {
    var q, r := (n / 256) / p, (n / 256) % p;
    assert n / 256 == q * p + r && n == 256 * (q * p + r) + n % 256;
    assert n == q * (256 * p) + (256 * r + n % 256);
    Bitwise.Quotient(n, 256 * p, q, 256 * r + n % 256);
  }

  lemma WidthCapacities()
    ensures Capacity(1) == U8_MAX + 1 && Capacity(2) == U16_MAX + 1
    ensures Capacity(4) == U32_MAX + 1 && Capacity(8) == U64_MAX + 1
  {
    assert Capacity(4) == 256 * Capacity(3);
    assert Capacity(6) == 256 * Capacity(5);
    assert Capacity(7) == 256 * Capacity(6);
  }
}
