/**
 Where the entries of a new directory go (ext4_utils/contents.c): the pass that computes its size, and the
 places and record lengths that the writer gives to the entries.
 */
module DirLayout {
  import Arith

  type Byte = x: nat | x < 256

  datatype Entry = Entry(inode: nat, recLen: nat, name: seq<Byte>, fileType: Byte)

  // An entry and its place in the directory.
  datatype Placed = Placed(at: nat, entry: Entry)

  // Block sizes a 16-bit record length can span.
  predicate BlockSize(bs: nat) {
    1024 <= bs < 65536 && bs % 4 == 0
  }

  predicate Name(name: seq<Byte>) {
    0 < |name| <= 255
  }

  function RecLen(name: seq<Byte>): (r: nat)
    ensures Name(name) ==> |name| + 8 <= r <= 264 && 12 <= r
  {
    8 + (|name| + 3) / 4 * 4
  }

  function End(p: Placed): nat {
    p.at + p.entry.recLen
  }

  // The place after the first k entries.
  function Start(ps: seq<Placed>, offset: nat, k: nat): nat {
    if k < |ps| then ps[k].at else offset
  }

  // An entry has room for its name and lies in one block.
  predicate InBlock(p: Placed, bs: nat)
    requires bs > 0
  {
    && Name(p.entry.name) && RecLen(p.entry.name) <= p.entry.recLen
    && p.at / bs == (End(p) - 1) / bs
  }

  predicate Follows(ps: seq<Placed>, offset: nat, k: nat)
    requires k < |ps|
  {
    End(ps[k]) == Start(ps, offset, k + 1)
  }

  // Each entry starts where the one before it ends, from 0 up to `offset`.
  predicate Chain(ps: seq<Placed>, offset: nat, bs: nat)
    requires bs > 0
  {
    && Start(ps, offset, 0) == 0
    && (forall k :: 0 <= k < |ps| ==> Follows(ps, offset, k))
    && (forall k :: 0 <= k < |ps| ==> InBlock(ps[k], bs))
  }

  // What the pass that computes the size adds for a name.
  function SizeStep(len: nat, name: seq<Byte>, bs: nat): nat
    requires bs > 0
  {
    (if len % bs + RecLen(name) > bs then len + (bs - len % bs) else len) + RecLen(name)
  }

  function Size(names: seq<seq<Byte>>, bs: nat): nat
    requires bs > 0
  {
    if |names| == 0 then 24 else SizeStep(Size(names[..|names| - 1], bs), names[|names| - 1], bs)
  }

  // The writer: whether an entry would cross into another block, and where it goes then.
  function EndBlock(offset: nat, name: seq<Byte>, bs: nat): nat
    requires bs > 0
  {
    (offset + RecLen(name) - 1) / bs
  }

  function PlaceOf(offset: nat, name: seq<Byte>, bs: nat): nat
    requires bs > 0
  {
    if offset / bs != EndBlock(offset, name, bs) then EndBlock(offset, name, bs) * bs else offset
  }

  // The last entry takes up the bytes between `offset` and `to`.
  function Pad(ps: seq<Placed>, offset: nat, to: nat): seq<Placed>
    requires offset <= to
  {
    if |ps| == 0 then ps
    else ps[|ps| - 1 := Placed(ps[|ps| - 1].at, ps[|ps| - 1].entry.(recLen := ps[|ps| - 1].entry.recLen + (to - offset)))]
  }

  lemma Blocks(n: nat, bs: nat)
    requires bs > 0
    ensures n == bs * (n / bs) + n % bs
  {
  }

  // The pass and the writer agree on the place of every entry.
  lemma PassAgrees(offset: nat, name: seq<Byte>, bs: nat)
    requires BlockSize(bs) && Name(name)
    ensures offset <= PlaceOf(offset, name, bs) && PlaceOf(offset, name, bs) + RecLen(name) == SizeStep(offset, name, bs)
    ensures PlaceOf(offset, name, bs) / bs == (PlaceOf(offset, name, bs) + RecLen(name) - 1) / bs
    ensures PlaceOf(offset, name, bs) > offset ==>
              && offset % bs > 0 && PlaceOf(offset, name, bs) == bs * (offset / bs + 1)
              && (PlaceOf(offset, name, bs) - 1) / bs == offset / bs
  {
    var q, m, rl := offset / bs, offset % bs, RecLen(name);
    Blocks(offset, bs);
    if m + rl > bs {
      Arith.QuotientUnique(offset + rl - 1, bs, q + 1, m + rl - 1 - bs);
      Arith.QuotientUnique(bs * (q + 1), bs, q + 1, 0);
      Arith.QuotientUnique(bs * (q + 1) + rl - 1, bs, q + 1, rl - 1);
      Arith.QuotientUnique(bs * (q + 1) - 1, bs, q, bs - 1);
    } else {
      Arith.QuotientUnique(offset + rl - 1, bs, q, m + rl - 1);
    }
  }

  // Padding up to the end of the last entry's block keeps the chain.
  lemma PadChain(ps: seq<Placed>, offset: nat, to: nat, bs: nat)
    requires bs > 0 && Chain(ps, offset, bs) && offset <= to && |ps| > 0
    requires (to - 1) / bs == (offset - 1) / bs
    ensures Chain(Pad(ps, offset, to), to, bs)
  {
    var n := |ps| - 1;
    var ps' := Pad(ps, offset, to);
    assert Follows(ps, offset, n) && InBlock(ps[n], bs);
    forall k | 0 <= k < |ps'| ensures Follows(ps', to, k) && InBlock(ps'[k], bs) {
      assert Follows(ps, offset, k) && InBlock(ps[k], bs);
    }
  }

  lemma AppendChain(ps: seq<Placed>, offset: nat, p: Placed, bs: nat)
    requires bs > 0 && Chain(ps, offset, bs) && p.at == offset && InBlock(p, bs)
    ensures Chain(ps + [p], End(p), bs)
  {
    var ps' := ps + [p];
    forall k | 0 <= k < |ps'| ensures Follows(ps', End(p), k) && InBlock(ps'[k], bs) {
      if k < |ps| {
        assert Follows(ps, offset, k) && InBlock(ps[k], bs);
      }
    }
  }

  // One more entry.
  function Add(ps: seq<Placed>, offset: nat, e: Entry, bs: nat): seq<Placed>
    requires BlockSize(bs) && Name(e.name)
  {
    PassAgrees(offset, e.name, bs);
    Pad(ps, offset, PlaceOf(offset, e.name, bs)) + [Placed(PlaceOf(offset, e.name, bs), e)]
  }

  lemma LastOffset(ps: seq<Placed>, offset: nat, bs: nat)
    requires bs > 0 && Chain(ps, offset, bs)
    ensures |ps| == 0 ==> offset == 0
    ensures |ps| > 0 ==> End(ps[|ps| - 1]) == offset && offset >= 12
  {
    if |ps| > 0 {
      assert Follows(ps, offset, |ps| - 1) && InBlock(ps[|ps| - 1], bs);
    }
  }

  lemma AddChain(ps: seq<Placed>, offset: nat, e: Entry, bs: nat)
    requires BlockSize(bs) && Chain(ps, offset, bs) && Name(e.name) && e.recLen == RecLen(e.name)
    ensures Chain(Add(ps, offset, e, bs), SizeStep(offset, e.name, bs), bs)
    ensures PlaceOf(offset, e.name, bs) > offset ==> |ps| > 0
  {
    hide Chain, PlaceOf, SizeStep, RecLen, Pad;
    PassAgrees(offset, e.name, bs);
    LastOffset(ps, offset, bs);
    var to := PlaceOf(offset, e.name, bs);
    if to > offset {
      NotFirst(offset, bs);
      BlockBefore(offset, bs);
      PadChain(ps, offset, to, bs);
    } else {
      PadNone(ps, offset);
    }
    AppendChain(Pad(ps, offset, to), to, Placed(to, e), bs);
  }

  lemma PadNone(ps: seq<Placed>, offset: nat)
    ensures Pad(ps, offset, offset) == ps
  {
  }

  lemma NotFirst(offset: nat, bs: nat)
    requires bs > 0 && offset % bs > 0
    ensures offset > 0
  {
  }

  lemma BlockBefore(offset: nat, bs: nat)
    requires bs > 0 && offset % bs > 0
    ensures (offset - 1) / bs == offset / bs
  {
    Blocks(offset, bs);
    Arith.QuotientUnique(offset - 1, bs, offset / bs, offset % bs - 1);
  }

  /* How the records are packed. */

  // The bytes that a name needs: its header, itself, and up to the next multiple of 4.
  function Need(name: seq<Byte>): (r: nat)
    ensures r % 4 == 0 && 8 + |name| <= r < 8 + |name| + 4
  {
    8 + |name| + (4 - |name| % 4) % 4
  }

  // A record is aligned and as long as its name needs, or reaches to the end of its block because the next one
  // would not have fitted there.
  predicate Snug(ps: seq<Placed>, k: nat, bs: nat)
    requires bs > 0 && k < |ps|
  {
    var p, need := ps[k], Need(ps[k].entry.name);
    && p.at % 4 == 0 && p.entry.recLen % 4 == 0 && need <= p.entry.recLen
    && (p.entry.recLen > need ==>
          End(p) % bs == 0 && (k + 1 < |ps| ==> p.entry.recLen - need < 8 + |ps[k + 1].entry.name|))
  }

  predicate Packed(ps: seq<Placed>, bs: nat)
    requires bs > 0
  {
    forall k :: 0 <= k < |ps| ==> Snug(ps, k, bs)
  }

  // Nothing was added to the last record yet.
  predicate LastExact(ps: seq<Placed>) {
    |ps| > 0 ==> ps[|ps| - 1].entry.recLen == Need(ps[|ps| - 1].entry.name)
  }

  lemma RecLenIsNeed(name: seq<Byte>)
    ensures RecLen(name) == Need(name)
  {
  }

  lemma WholeBlocks(k: nat, bs: nat)
    requires bs > 0 && bs % 4 == 0
    ensures bs * k % 4 == 0 && bs * k % bs == 0
  {
    var q := bs / 4;
    assert bs == 4 * q;
    assert bs * k == 4 * (q * k);
    Arith.QuotientUnique(bs * k, 4, q * k, 0);
    Arith.QuotientUnique(bs * k, bs, k, 0);
  }

  lemma AlignedEnd(ps: seq<Placed>, offset: nat, bs: nat)
    requires bs > 0 && Chain(ps, offset, bs) && Packed(ps, bs)
    ensures offset % 4 == 0
  {
    hide InBlock, Need, Snug;
    if |ps| > 0 {
      var n := |ps| - 1;
      assert Follows(ps, offset, n) && Snug(ps, n, bs);
      SnugEnd(ps, n, bs);
    }
  }

  lemma SnugEnd(ps: seq<Placed>, k: nat, bs: nat)
    requires bs > 0 && k < |ps| && Snug(ps, k, bs)
    ensures End(ps[k]) % 4 == 0
  {
    hide Need;
    SumAligned(ps[k].at, ps[k].entry.recLen);
  }

  lemma SumAligned(a: nat, b: nat)
    requires a % 4 == 0 && b % 4 == 0
    ensures (a + b) % 4 == 0 && (b <= a ==> (a - b) % 4 == 0)
  {
    hide *;
  }

  // The last record may reach to the end of its block, and the next one starts there.
  lemma PadPacked(ps: seq<Placed>, offset: nat, to: nat, bs: nat)
    requires BlockSize(bs) && Chain(ps, offset, bs) && Packed(ps, bs) && LastExact(ps) && offset <= to
    requires offset < to ==> to % bs == 0 && to % 4 == 0
    ensures Packed(Pad(ps, offset, to), bs)
  {
    hide InBlock, Need;
    AlignedEnd(ps, offset, bs);
    var ps' := Pad(ps, offset, to);
    if offset < to {
      SumAligned(to, offset);
    }
    forall k | 0 <= k < |ps'| ensures Snug(ps', k, bs) {
      assert Snug(ps, k, bs) && Follows(ps, offset, k);
      if k == |ps| - 1 {
        SumAligned(ps[k].entry.recLen, to - offset);
      }
    }
  }

  // The space left in the block is too small for the record that goes to the next one.
  lemma TooSmall(offset: nat, name: seq<Byte>, bs: nat)
    requires BlockSize(bs) && Name(name) && PlaceOf(offset, name, bs) > offset && offset % 4 == 0
    ensures var to := PlaceOf(offset, name, bs); to % bs == 0 && to % 4 == 0 && to - offset < 8 + |name|
  {
    hide PlaceOf, RecLen, Need;
    PassAgrees(offset, name, bs);
    RecLenIsNeed(name);
    WholeBlocks(offset / bs + 1, bs);
    SpaceLeft(offset, name, bs);
    SumAligned(PlaceOf(offset, name, bs), offset);
    Below(PlaceOf(offset, name, bs) - offset, Need(name), 8 + |name|);
  }

  lemma SpaceLeft(offset: nat, name: seq<Byte>, bs: nat)
    requires BlockSize(bs) && Name(name) && PlaceOf(offset, name, bs) > offset
    ensures PlaceOf(offset, name, bs) - offset < RecLen(name)
  {
    hide RecLen;
    Blocks(offset + RecLen(name) - 1, bs);
  }

  // Among multiples of 4, less than the least that is enough is less than enough.
  lemma Below(a: nat, need: nat, least: nat)
    requires a % 4 == 0 && need % 4 == 0 && a < need < least + 4
    ensures a < least
  {
    hide *;
  }

  lemma AddPacked(ps: seq<Placed>, offset: nat, e: Entry, bs: nat)
    requires BlockSize(bs) && Chain(ps, offset, bs) && Name(e.name) && e.recLen == RecLen(e.name)
    requires Packed(ps, bs) && LastExact(ps)
    ensures Packed(Add(ps, offset, e, bs), bs) && LastExact(Add(ps, offset, e, bs))
  {
    hide Chain, PlaceOf, RecLen;
    AlignedEnd(ps, offset, bs);
    RecLenIsNeed(e.name);
    PassAgrees(offset, e.name, bs);
    var to, all := PlaceOf(offset, e.name, bs), Add(ps, offset, e, bs);
    if to > offset {
      TooSmall(offset, e.name, bs);
    }
    PadPacked(ps, offset, to, bs);
    forall k | 0 <= k < |all| ensures Snug(all, k, bs) {
      if k < |ps| {
        assert Snug(ps, k, bs) && Snug(Pad(ps, offset, to), k, bs);
      }
    }
  }

  // The length of a directory: its size rounded up to whole blocks.
  function Rounded(size: nat, bs: nat): nat
    requires bs > 0
  {
    (size + bs - 1) / bs * bs
  }

  lemma RoundedSame(size: nat, bs: nat)
    requires bs > 0 && size > 0
    ensures size <= Rounded(size, bs) && Rounded(size, bs) % bs == 0 && (Rounded(size, bs) - 1) / bs == (size - 1) / bs
  {
    hide Rounded;
    var q := RoundedUp(size, bs);
    Arith.QuotientUnique(bs * (q + 1), bs, q + 1, 0);
    Arith.QuotientUnique(bs * (q + 1) - 1, bs, q, bs - 1);
  }

  lemma RoundedUp(size: nat, bs: nat) returns (q: nat)
    requires bs > 0 && size > 0
    ensures q == (size - 1) / bs && Rounded(size, bs) == bs * (q + 1) == bs * q + bs >= size
  {
    q := (size - 1) / bs;
    Blocks(size - 1, bs);
    Arith.QuotientUnique(size + bs - 1, bs, q + 1, (size - 1) % bs);
  }

  // Every block of a finished directory starts with an entry, so the records tile each block.
  lemma {:induction false} BlockStarts(ps: seq<Placed>, offset: nat, bs: nat, b: nat) returns (k: nat)
    requires bs > 0 && Chain(ps, offset, bs) && bs * b < offset
    ensures k < |ps| && ps[k].at == bs * b
  {
    k := EntryAt(ps, offset, bs, bs * b, |ps|);
    assert InBlock(ps[k], bs);
    Arith.QuotientUnique(bs * b, bs, b, 0);
    SameBlockStart(ps[k].at, bs * b, End(ps[k]) - 1, bs);
  }

  lemma SameBlockStart(a: nat, x: nat, c: nat, bs: nat)
    requires bs > 0 && a <= x <= c && a / bs == c / bs && x % bs == 0
    ensures a == x
  {
    Arith.DivMonotone(a, x, bs);
    Arith.DivMonotone(x, c, bs);
    Blocks(a, bs);
    Blocks(x, bs);
  }

  lemma {:induction false} EntryAt(ps: seq<Placed>, offset: nat, bs: nat, x: nat, n: nat) returns (k: nat)
    requires bs > 0 && Chain(ps, offset, bs) && n <= |ps| && x < Start(ps, offset, n)
    ensures k < n && ps[k].at <= x < End(ps[k])
  {
    assert n > 0;
    assert Follows(ps, offset, n - 1);
    if ps[n - 1].at <= x {
      k := n - 1;
    } else {
      k := EntryAt(ps, offset, bs, x, n - 1);
    }
  }
}
