/**
 The SHA-1 block transform of ext4_utils/sha1.c against section 6.1 of FIPS 180-4.
 */
module Sha1Block {

  /* The standard. */

  // Section 4.1.1.
  function F(t: nat, x: bv32, y: bv32, z: bv32): bv32 {
    if t < 20 then (x & y) ^ (!x & z)
    else if t < 40 then x ^ y ^ z
    else if t < 60 then (x & y) ^ (x & z) ^ (y & z)
    else x ^ y ^ z
  }

  // Section 4.2.1.
  function K(t: nat): bv32 {
    if t < 20 then 0x5A827999 else if t < 40 then 0x6ED9EBA1 else if t < 60 then 0x8F1BBCDC else 0xCA62C1D6
  }

  // k is the integer part of 2^30 times the square root of n, for the n and k below 2^32 at hand.
  predicate IsRoot(k: bv64, n: bv64) {
    k < 0xFFFF_FFFF && n <= 15 && k * k <= n << 60 < (k + 1) * (k + 1)
  }

  lemma RootOf2()
    ensures IsRoot(0x5A827999, 2)
  {
  }

  lemma RootOf3()
    ensures IsRoot(0x6ED9EBA1, 3)
  {
  }

  lemma RootOf5()
    ensures IsRoot(0x8F1BBCDC, 5)
  {
  }

  lemma RootOf10()
    ensures IsRoot(0xCA62C1D6, 10)
  {
  }

  // The constants are 2^30 times the square roots of 2, 3, 5 and 10.
  lemma KIsRoot(t: nat)
    ensures IsRoot(K(t) as bv64, if t < 20 then 2 else if t < 40 then 3 else if t < 60 then 5 else 10)
  {
    hide IsRoot;
    RootOf2();
    RootOf3();
    RootOf5();
    RootOf10();
  }

  type Block = b: seq<bv8> | |b| == 64 witness seq(64, _ => 0)

  function BigEndian(b0: bv8, b1: bv8, b2: bv8, b3: bv8): bv32 {
    ((b0 as bv32) << 24) | ((b1 as bv32) << 16) | ((b2 as bv32) << 8) | (b3 as bv32)
  }

  // The message schedule, section 6.1.2 step 1.
  function W(block: Block, t: nat): bv32 {
    if t < 16 then BigEndian(block[4 * t], block[4 * t + 1], block[4 * t + 2], block[4 * t + 3])
    else Mixed(W(block, t - 3), W(block, t - 8), W(block, t - 14), W(block, t - 16))
  }

  function Mixed(p: bv32, q: bv32, r: bv32, s: bv32): bv32 {
    (p ^ q ^ r ^ s).RotateLeft(1)
  }

  datatype Regs = Regs(a: bv32, b: bv32, c: bv32, d: bv32, e: bv32)

  // Section 6.1.2 step 3.
  function Round(r: Regs, t: nat, w: bv32): Regs {
    Regs(Total(r.a.RotateLeft(5), F(t, r.b, r.c, r.d), r.e, K(t), w), r.a, r.b.RotateLeft(30), r.c, r.d)
  }

  function Total(r: bv32, f: bv32, e: bv32, k: bv32, w: bv32): bv32 {
    r + f + e + k + w
  }

  function Rounds(block: Block, r: Regs, n: nat): Regs {
    if n == 0 then r else Round(Rounds(block, r, n - 1), n - 1, W(block, n - 1))
  }

  // Section 6.1.2 step 4.
  function Plus(h: Regs, r: Regs): Regs {
    Regs(Sum(r.a, h.a), Sum(r.b, h.b), Sum(r.c, h.c), Sum(r.d, h.d), Sum(r.e, h.e))
  }

  function Sum(x: bv32, y: bv32): bv32 {
    x + y
  }

  // The hash value after one more block.
  function Compress(h: Regs, block: Block): Regs {
    Plus(h, Rounds(block, h, 80))
  }

  /* The code. */

  // Rotations by the amounts that occur.
  function Rol(x: bv32, n: nat): bv32
    requires n == 1 || n == 5 || n == 8 || n == 24 || n == 30
  {
    if n == 1 then (x << 1) | (x >> 31)
    else if n == 5 then (x << 5) | (x >> 27)
    else if n == 8 then (x << 8) | (x >> 24)
    else if n == 24 then (x << 24) | (x >> 8)
    else (x << 30) | (x >> 2)
  }

  lemma RolRotates(x: bv32)
    ensures Rol(x, 1) == x.RotateLeft(1) && Rol(x, 5) == x.RotateLeft(5) && Rol(x, 30) == x.RotateLeft(30)
  {
  }

  // The constants of the macros.
  function Literal(i: nat): bv32 {
    if i < 20 then 0x5A827999 else if i < 40 then 0x6ED9EBA1 else if i < 60 then 0x8F1BBCDC else 0xCA62C1D6
  }

  lemma LiteralIsK(i: nat)
    ensures Literal(i) == K(i)
  {
  }

  // A word as the little-endian machine loads it.
  function LittleEndian(b0: bv8, b1: bv8, b2: bv8, b3: bv8): bv32 {
    ((b3 as bv32) << 24) | ((b2 as bv32) << 16) | ((b1 as bv32) << 8) | (b0 as bv32)
  }

  function Swap(x: bv32): bv32 {
    (Rol(x, 24) & 0xFF00FF00) | (Rol(x, 8) & 0x00FF00FF)
  }

  // Two rotations and masks swap the bytes of a word.
  lemma SwapBytes(b0: bv8, b1: bv8, b2: bv8, b3: bv8)
    ensures Swap(LittleEndian(b0, b1, b2, b3)) == BigEndian(b0, b1, b2, b3)
  {
    hide LittleEndian, BigEndian;
    SwapShifts(b0, b1, b2, b3);
  }

  lemma SwapShifts(b0: bv8, b1: bv8, b2: bv8, b3: bv8)
    ensures var x := LittleEndian(b0, b1, b2, b3);
            (((x << 24) | (x >> 8)) & 0xFF00FF00) | (((x << 8) | (x >> 24)) & 0x00FF00FF) == BigEndian(b0, b1, b2, b3)
  {
  }

  // The forms of the functions that the code uses.
  function Mix(t: nat, w: bv32, x: bv32, y: bv32): bv32 {
    if t < 20 then (w & (x ^ y)) ^ y
    else if t < 40 then w ^ x ^ y
    else if t < 60 then ((w | x) & y) | (w & x)
    else w ^ x ^ y
  }

  lemma ChooseForm(w: bv32, x: bv32, y: bv32)
    ensures (w & (x ^ y)) ^ y == (w & x) ^ (!w & y)
  {
  }

  lemma MajorityForm(w: bv32, x: bv32, y: bv32)
    ensures ((w | x) & y) | (w & x) == (w & x) ^ (w & y) ^ (x & y)
  {
  }

  lemma MixIsF(t: nat, w: bv32, x: bv32, y: bv32)
    ensures Mix(t, w, x, y) == F(t, w, x, y)
  {
    ChooseForm(w, x, y);
    MajorityForm(w, x, y);
  }

  function Bump(z: bv32, f: bv32, m: bv32, k: bv32, r: bv32): bv32 {
    z + (f + m + k + r)
  }

  lemma SumOrder(z: bv32, f: bv32, m: bv32, k: bv32, r: bv32)
    ensures Bump(z, f, m, k, r) == Total(r, f, z, k, m)
  {
  }

  // The word of the 16-word buffer that step t uses.
  function Slot(l: seq<bv32>, t: nat): bv32
    requires |l| == 16
  {
    l[t % 16]
  }

  function Loaded(block: Block, t: nat): bv32
    requires t < 16
  {
    LittleEndian(block[4 * t], block[4 * t + 1], block[4 * t + 2], block[4 * t + 3])
  }

  // After i steps the buffer holds the last 16 words of the schedule, or words as loaded that are still to come
  // (section 6.1.3).
  predicate Rolling(l: seq<bv32>, block: Block, i: nat) {
    && |l| == 16
    && (forall t :: 0 <= t && i - 16 <= t < i ==> Slot(l, t) == W(block, t))
    && (forall t :: i <= t < 16 ==> l[t] == Loaded(block, t))
  }

  lemma FirstWords(l: seq<bv32>, block: Block, i: nat)
    requires Rolling(l, block, i) && i < 16
    ensures Rolling(l[i := Swap(l[i])], block, i + 1)
  {
    hide BigEndian, LittleEndian, Swap;
    var l' := l[i := Swap(l[i])];
    SwapBytes(block[4 * i], block[4 * i + 1], block[4 * i + 2], block[4 * i + 3]);
    forall t | 0 <= t && i + 1 - 16 <= t < i + 1 ensures Slot(l', t) == W(block, t) {
      assert t < i ==> Slot(l, t) == W(block, t);
    }
  }

  function Expand(p: bv32, q: bv32, r: bv32, s: bv32): bv32 {
    Rol(p ^ q ^ r ^ s, 1)
  }

  lemma ExpandIsMixed(p: bv32, q: bv32, r: bv32, s: bv32)
    ensures Expand(p, q, r, s) == Mixed(p, q, r, s)
  {
    hide Rol;
    RolRotates(p ^ q ^ r ^ s);
  }

  lemma LaterWords(l: seq<bv32>, block: Block, i: nat)
    requires Rolling(l, block, i) && i >= 16
    ensures Rolling(l[i % 16 := Expand(l[(i + 13) % 16], l[(i + 8) % 16], l[(i + 2) % 16], l[i % 16])], block, i + 1)
  {
    hide Expand, Mixed, Loaded, BigEndian;
    var l' := l[i % 16 := Expand(l[(i + 13) % 16], l[(i + 8) % 16], l[(i + 2) % 16], l[i % 16])];
    SlotsBack(l, i);
    ExpandIsMixed(l[(i + 13) % 16], l[(i + 8) % 16], l[(i + 2) % 16], l[i % 16]);
    forall t | 0 <= t && i + 1 - 16 <= t < i + 1 ensures Slot(l', t) == W(block, t) {
      if t < i {
        OtherSlot(t, i);
        assert Slot(l, t) == W(block, t);
      }
    }
  }

  lemma SlotsBack(l: seq<bv32>, i: nat)
    requires |l| == 16 && i >= 16
    ensures Slot(l, i - 3) == l[(i + 13) % 16] && Slot(l, i - 8) == l[(i + 8) % 16]
    ensures Slot(l, i - 14) == l[(i + 2) % 16] && Slot(l, i - 16) == l[i % 16]
  {
  }

  lemma OtherSlot(t: nat, i: nat)
    requires i - 16 < t < i
    ensures t % 16 != i % 16
  {
  }

  // One of the R macros: changes two of the five variables and one word of the buffer.
  method Step(v: bv32, w: bv32, x: bv32, y: bv32, z: bv32, i: nat, l: array<bv32>, ghost block: Block)
    returns (w': bv32, z': bv32)
    requires Rolling(l[..], block, i)
    modifies l
    ensures Rolling(l[..], block, i + 1)
    ensures Regs(z', v, w', x, y) == Round(Regs(v, w, x, y, z), i, W(block, i))
  {
    hide Rol, F, Mix, K, Literal, W, Rolling, Swap, Expand, Total, Bump;
    ghost var before := l[..];
    RollingLength(before, block, i);
    if i < 16 {
      FirstWords(before, block, i);
      l[i] := Swap(l[i]);
      assert l[..] == before[i := Swap(before[i])];
    } else {
      LaterWords(before, block, i);
      l[i % 16] := Expand(l[(i + 13) % 16], l[(i + 8) % 16], l[(i + 2) % 16], l[i % 16]);
      assert l[..] == before[i % 16 :=
                              Expand(before[(i + 13) % 16], before[(i + 8) % 16], before[(i + 2) % 16], before[i % 16])];
    }
    RollingLast(l[..], block, i);
    z' := Bump(z, Mix(i, w, x, y), l[i % 16], Literal(i), Rol(v, 5));
    w' := Rol(w, 30);
    MixIsF(i, w, x, y);
    LiteralIsK(i);
    RolRotates(v);
    RolRotates(w);
    SumOrder(z, Mix(i, w, x, y), l[i % 16], Literal(i), Rol(v, 5));
  }

  lemma RollingLength(l: seq<bv32>, block: Block, i: nat)
    requires Rolling(l, block, i)
    ensures |l| == 16
  {
  }

  lemma RollingLast(l: seq<bv32>, block: Block, i: nat)
    requires Rolling(l, block, i + 1)
    ensures |l| == 16 && l[i % 16] == W(block, i)
  {
    assert Slot(l, i) == W(block, i);
  }

  method Transform(h: Regs, buffer: Block) returns (r: Regs)
    ensures r == Compress(h, buffer)
  {
    hide Rolling, Round, W, Loaded, Plus, AddTo;
    var l := Load(buffer);
    var a, b, c, d, e := h.a, h.b, h.c, h.d, h.e;
    var i := 0;
    while i < 80
      invariant i % 5 == 0 && 0 <= i <= 80 && fresh(l)
      invariant Rolling(l[..], buffer, i) && Regs(a, b, c, d, e) == Rounds(buffer, h, i)
    {
      b, e := Step(a, b, c, d, e, i, l, buffer);
      a, d := Step(e, a, b, c, d, i + 1, l, buffer);
      e, c := Step(d, e, a, b, c, i + 2, l, buffer);
      d, b := Step(c, d, e, a, b, i + 3, l, buffer);
      c, a := Step(b, c, d, e, a, i + 4, l, buffer);
      FiveRounds(buffer, h, i);
      i := i + 5;
    }
    AddToIsPlus(h, Regs(a, b, c, d, e));
    return AddTo(h, a, b, c, d, e);
  }

  // The working variables are added into the state.
  function AddTo(h: Regs, a: bv32, b: bv32, c: bv32, d: bv32, e: bv32): Regs {
    Regs(Increased(h.a, a), Increased(h.b, b), Increased(h.c, c), Increased(h.d, d), Increased(h.e, e))
  }

  function Increased(x: bv32, more: bv32): bv32 {
    x + more
  }

  lemma IncreasedIsSum(x: bv32, more: bv32)
    ensures Increased(x, more) == Sum(more, x)
  {
  }

  lemma AddToIsPlus(h: Regs, r: Regs)
    ensures AddTo(h, r.a, r.b, r.c, r.d, r.e) == Plus(h, r)
  {
    hide Increased, Sum;
    IncreasedIsSum(h.a, r.a);
    IncreasedIsSum(h.b, r.b);
    IncreasedIsSum(h.c, r.c);
    IncreasedIsSum(h.d, r.d);
    IncreasedIsSum(h.e, r.e);
  }

  lemma FiveRounds(block: Block, h: Regs, i: nat)
    ensures Rounds(block, h, i + 5)
            == Round(Round(Round(Round(Round(Rounds(block, h, i), i, W(block, i)), i + 1, W(block, i + 1)),
                                 i + 2, W(block, i + 2)), i + 3, W(block, i + 3)), i + 4, W(block, i + 4))
  {
    hide Round, W;
    assert Rounds(block, h, i + 1) == Round(Rounds(block, h, i), i, W(block, i));
    assert Rounds(block, h, i + 2) == Round(Rounds(block, h, i + 1), i + 1, W(block, i + 1));
    assert Rounds(block, h, i + 3) == Round(Rounds(block, h, i + 2), i + 2, W(block, i + 2));
    assert Rounds(block, h, i + 4) == Round(Rounds(block, h, i + 3), i + 3, W(block, i + 3));
  }

  // Copies the block into words.
  method Load(buffer: Block) returns (l: array<bv32>)
    ensures fresh(l) && Rolling(l[..], buffer, 0)
  {
    l := new bv32[16];
    for t := 0 to 16
      invariant forall s :: 0 <= s < t ==> l[s] == Loaded(buffer, s)
    {
      l[t] := LittleEndian(buffer[4 * t], buffer[4 * t + 1], buffer[4 * t + 2], buffer[4 * t + 3]);
    }
  }
}
