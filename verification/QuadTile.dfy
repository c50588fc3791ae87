/** Quad tiles: the interleaved tile number, the tiles of an area, and the query that uses them as an index. */
module QuadTile {
  const TILES: nat := 0x1_0000_0000

  // ---------- xy2tile ----------

  /** `n >> i` */
  function Shr(n: nat, i: nat): nat { if i == 0 then n else Shr(n, i - 1) / 2 }

  function Bit(n: nat, i: nat): nat { Shr(n, i) % 2 }

  function Pow2(k: nat): nat { if k == 0 then 1 else 2 * Pow2(k - 1) }

  function Pow4(k: nat): nat { if k == 0 then 1 else 4 * Pow4(k - 1) }

  /** The low `k` bits of `x` and `y` interleaved, `x` first. */
  function Interleave(x: nat, y: nat, k: nat): nat
    decreases k, x
  {
    if k == 0 then 0 else 4 * Interleave(x / 2, y / 2, k - 1) + 2 * (x % 2) + y % 2
  }

  function Tile(x: nat, y: nat): nat { Interleave(x, y, 16) }

  method Xy2Tile(x: nat, y: nat) returns (tile: nat)
    ensures tile == Tile(x, y)
  {
    tile := 0;
    var i := 15;
    while i >= 0
      invariant -1 <= i <= 15
      invariant tile == Interleave(Shr(x, i + 1), Shr(y, i + 1), 15 - i)
    {
      tile := 2 * tile + Bit(x, i);
      tile := 2 * tile + Bit(y, i);
      i := i - 1;
    }
  }

  /** Coordinates back from the low `k` pairs of bits. */
  function OddBits(t: nat, k: nat): nat
    decreases k, t
  {
    if k == 0 then 0 else 2 * OddBits(t / 4, k - 1) + t / 2 % 2
  }

  function EvenBits(t: nat, k: nat): nat
    decreases k, t
  {
    if k == 0 then 0 else 2 * EvenBits(t / 4, k - 1) + t % 2
  }

  function TileX(t: nat): nat { OddBits(t, 16) }

  function TileY(t: nat): nat { EvenBits(t, 16) }

  lemma {:induction false} TwoBits(q: nat, b1: nat, b0: nat)
    requires b1 < 2 && b0 < 2
    ensures var t := 4 * q + 2 * b1 + b0; t / 4 == q && t / 2 % 2 == b1 && t % 2 == b0
  {
    var t := 4 * q + 2 * b1 + b0;
    assert t / 2 == 2 * q + b1;
  }

  lemma {:induction false} OneBit(h: nat, b: nat)
    requires b < 2
    ensures (2 * h + b) / 2 == h && (2 * h + b) % 2 == b
  {
  }

  lemma {:induction false} LastTwoBits(t: nat)
    ensures t == 4 * (t / 4) + 2 * (t / 2 % 2) + t % 2
  {
  }

  lemma {:induction false} SplitInterleaved(x: nat, y: nat, k: nat)
    requires x < Pow2(k) && y < Pow2(k)
    ensures OddBits(Interleave(x, y, k), k) == x && EvenBits(Interleave(x, y, k), k) == y
    decreases k
  {
    if k > 0 {
      TwoBits(Interleave(x / 2, y / 2, k - 1), x % 2, y % 2);
      SplitInterleaved(x / 2, y / 2, k - 1);
    }
  }

  lemma {:induction false} InterleaveSplit(t: nat, k: nat)
    requires t < Pow4(k)
    ensures Interleave(OddBits(t, k), EvenBits(t, k), k) == t
    ensures OddBits(t, k) < Pow2(k) && EvenBits(t, k) < Pow2(k)
    decreases k
  {
    if k > 0 {
      InterleaveSplit(t / 4, k - 1);
      OneBit(OddBits(t / 4, k - 1), t / 2 % 2);
      OneBit(EvenBits(t / 4, k - 1), t % 2);
      LastTwoBits(t);
    }
  }

  lemma {:induction false} InterleaveBound(x: nat, y: nat, k: nat)
    ensures Interleave(x, y, k) < Pow4(k)
    decreases k
  {
    if k > 0 {
      InterleaveBound(x / 2, y / 2, k - 1);
    }
  }

  lemma {:induction false} Widths()
    ensures Pow2(16) == 0x1_0000 && Pow4(16) == TILES
  {
    assert Pow2(8) == 0x100;
    assert Pow4(4) == 0x100;
    assert Pow4(8) == 0x1_0000;
    assert Pow4(12) == 0x100_0000;
  }

  /** On 16-bit coordinates the tile number is a bijection onto the 32-bit numbers. */
  lemma {:induction false} TileIsBijective(x: nat, y: nat, t: nat)
    ensures x < 0x1_0000 && y < 0x1_0000 ==> Tile(x, y) < TILES && TileX(Tile(x, y)) == x && TileY(Tile(x, y)) == y
    ensures t < TILES ==> Tile(TileX(t), TileY(t)) == t && TileX(t) < 0x1_0000 && TileY(t) < 0x1_0000
  {
    Widths();
    if x < 0x1_0000 && y < 0x1_0000 {
      InterleaveBound(x, y, 16);
      SplitInterleaved(x, y, 16);
    }
    if t < TILES {
      InterleaveSplit(t, 16);
    }
  }

  /** Bit `i` of each coordinate stands at its place in the tile number. */
  lemma {:induction false} InterleaveBits(x: nat, y: nat, k: nat, i: nat)
    requires i < k
    ensures Bit(Interleave(x, y, k), 2 * i) == Bit(y, i) && Bit(Interleave(x, y, k), 2 * i + 1) == Bit(x, i)
    decreases k
  {
    var t := Interleave(x, y, k);
    LowBits(x, y, k);
    if i == 0 {
      assert Shr(t, 1) == Shr(t, 0) / 2;
    } else {
      InterleaveBits(x / 2, y / 2, k - 1, i - 1);
      ShrHalf(x, i);
      ShrHalf(y, i);
      ShrQuarter(t, 2 * i);
      ShrQuarter(t, 2 * i + 1);
    }
  }

  lemma {:induction false} LowBits(x: nat, y: nat, k: nat)
    requires k > 0
    ensures var t := Interleave(x, y, k);
      t % 2 == y % 2 && t / 2 % 2 == x % 2 && t / 4 == Interleave(x / 2, y / 2, k - 1)
  {
  }

  lemma {:induction false} ShrQuarter(n: nat, i: nat)
    requires i > 1
    ensures Shr(n, i) == Shr(n / 4, i - 2)
  {
    ShrHalf(n, i);
    ShrHalf(n / 2, i - 1);
    assert n / 2 / 2 == n / 4;
  }

  lemma {:induction false} ShrHalf(n: nat, i: nat)
    requires i > 0
    ensures Shr(n, i) == Shr(n / 2, i - 1)
  {
    if i > 1 {
      ShrHalf(n, i - 1);
    }
  }

  /** Monotone in both coordinates together, hence strictly monotone in each where it is injective. */
  lemma {:induction false} InterleaveMonotone(x0: nat, y0: nat, x1: nat, y1: nat, k: nat)
    requires x0 <= x1 < Pow2(k) && y0 <= y1 < Pow2(k)
    ensures Interleave(x0, y0, k) <= Interleave(x1, y1, k)
    ensures (x0, y0) != (x1, y1) ==> Interleave(x0, y0, k) < Interleave(x1, y1, k)
    decreases k
  {
    if k > 0 {
      InterleaveMonotone(x0 / 2, y0 / 2, x1 / 2, y1 / 2, k - 1);
    }
  }

  lemma {:induction false} TileStrictlyMonotone(x0: nat, y0: nat, x1: nat, y1: nat)
    requires x0 <= x1 < 0x1_0000 && y0 <= y1 < 0x1_0000 && (x0, y0) != (x1, y1)
    ensures Tile(x0, y0) < Tile(x1, y1)
  {
    Widths();
    InterleaveMonotone(x0, y0, x1, y1, 16);
  }
}
