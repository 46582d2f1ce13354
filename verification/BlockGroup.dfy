/**
 One block group of ext4_utils/allocate.c: its bitmap bytes, its free count and its list of chunks,
 changed in place.
 */
module BlockGroups {
  import opened BlockPool
  import opened Bits

  predicate BitAt(bytes: seq<bv8>, b: nat)
    requires b < 8 * |bytes|
  {
    BitOf(bytes[b / 8], b % 8)
  }

  function BitsOf(bytes: seq<bv8>): (r: seq<bool>)
    ensures |r| == 8 * |bytes|
    ensures forall b :: 0 <= b < |r| ==> r[b] == BitAt(bytes, b)
  {
    seq(8 * |bytes|, b requires 0 <= b < 8 * |bytes| => BitAt(bytes, b))
  }

  // Block b is the binary digit of weight 2^(b mod 8) of byte b / 8.
  lemma BlockIsDigit(bytes: seq<bv8>, b: nat)
    requires b < 8 * |bytes|
    ensures BitsOf(bytes)[b] <==> bytes[b / 8] as nat / Pow2(b % 8) % 2 == 1
  {
    hide BitOf, Pow2;
    BitIsDigit(bytes[b / 8], b % 8);
  }

  function SetIn(byte: bv8, k: nat): bv8
    requires k < 8
  {
    byte | Mask(k)
  }

  function ClearIn(byte: bv8, k: nat): bv8
    requires k < 8
  {
    byte & !Mask(k)
  }

  lemma SetOne(byte: bv8, k: nat, j: nat)
    requires k < 8 && j < 8
    ensures BitOf(SetIn(byte, k), j) == (j == k || BitOf(byte, j))
  {
  }

  lemma ClearOne(byte: bv8, k: nat, j: nat)
    requires k < 8 && j < 8
    ensures BitOf(ClearIn(byte, k), j) == (j != k && BitOf(byte, j))
  {
  }

  lemma AllOnes(j: nat)
    requires j < 8
    ensures BitOf(0xFF, j)
  {
  }

  lemma ZeroByte(byte: bv8)
    ensures byte == 0 <==> forall j :: 0 <= j < 8 ==> !BitOf(byte, j)
  {
    assert byte != 0 ==> BitOf(byte, 0) || BitOf(byte, 1) || BitOf(byte, 2) || BitOf(byte, 3)
                         || BitOf(byte, 4) || BitOf(byte, 5) || BitOf(byte, 6) || BitOf(byte, 7);
  }

  // Changing a byte changes its eight bits only.
  lemma BitsAfterByte(bytes: seq<bv8>, i: nat, byte: bv8, b: nat)
    requires i < |bytes| && b < 8 * |bytes|
    ensures BitAt(bytes[i := byte], b) == if b / 8 == i then BitOf(byte, b % 8) else BitAt(bytes, b)
  {
  }

  lemma BitIs(bytes: seq<bv8>, bit: nat)
    requires bit < 8 * |bytes|
    ensures BitsOf(bytes)[bit] == BitOf(bytes[bit / 8], bit % 8)
  {
  }

  lemma SetBitBits(bytes: seq<bv8>, bit: nat)
    requires bit < 8 * |bytes|
    ensures BitsOf(bytes[bit / 8 := SetIn(bytes[bit / 8], bit % 8)]) == Fill(BitsOf(bytes), bit, 1, true)
  {
    hide SetIn, BitOf;
    var after := bytes[bit / 8 := SetIn(bytes[bit / 8], bit % 8)];
    forall b | 0 <= b < 8 * |bytes| ensures BitsOf(after)[b] == Fill(BitsOf(bytes), bit, 1, true)[b] {
      BitsAfterByte(bytes, bit / 8, after[bit / 8], b);
      SetOne(bytes[bit / 8], bit % 8, b % 8);
    }
  }

  lemma ClearBitBits(bytes: seq<bv8>, bit: nat)
    requires bit < 8 * |bytes|
    ensures BitsOf(bytes[bit / 8 := ClearIn(bytes[bit / 8], bit % 8)]) == Fill(BitsOf(bytes), bit, 1, false)
  {
    hide ClearIn, BitOf;
    var after := bytes[bit / 8 := ClearIn(bytes[bit / 8], bit % 8)];
    forall b | 0 <= b < 8 * |bytes| ensures BitsOf(after)[b] == Fill(BitsOf(bytes), bit, 1, false)[b] {
      BitsAfterByte(bytes, bit / 8, after[bit / 8], b);
      ClearOne(bytes[bit / 8], bit % 8, b % 8);
    }
  }

  lemma SetByteBits(bytes: seq<bv8>, bit: nat)
    requires bit % 8 == 0 && bit + 8 <= 8 * |bytes|
    ensures BitsOf(bytes[bit / 8 := 0xFF]) == Fill(BitsOf(bytes), bit, 8, true)
    ensures bytes[bit / 8] == 0 <==> AllAre(BitsOf(bytes), bit, 8, false)
  {
    var after := bytes[bit / 8 := 0xFF];
    forall b | 0 <= b < 8 * |bytes| ensures BitsOf(after)[b] == Fill(BitsOf(bytes), bit, 8, true)[b] {
      BitsAfterByte(bytes, bit / 8, 0xFF, b);
      AllOnes(b % 8);
    }
    ZeroByte(bytes[bit / 8]);
    forall j | 0 <= j < 8 ensures BitsOf(bytes)[bit + j] == BitOf(bytes[bit / 8], j) {
      assert (bit + j) / 8 == bit / 8 && (bit + j) % 8 == j;
    }
    if bytes[bit / 8] != 0 {
      var j :| 0 <= j < 8 && BitOf(bytes[bit / 8], j);
      assert BitsOf(bytes)[bit + j];
    } else {
      forall b | bit <= b < bit + 8 ensures !BitsOf(bytes)[b] {
        assert !BitOf(bytes[bit / 8], b - bit);
      }
    }
  }

  // What the bitmap holds once the first `done` blocks of a reservation went through.
  predicate Reserving(bits: seq<bool>, now: seq<bool>, start: nat, done: nat) {
    && start + done <= |bits| && AllAre(bits, start, done, false)
    && now == Fill(bits, start, done, true)
  }

  lemma ReserveMore(bits: seq<bool>, now: seq<bool>, start: nat, done: nat, more: nat)
    requires Reserving(bits, now, start, done) && AllAre(now, start + done, more, false)
    ensures Reserving(bits, Fill(now, start + done, more, true), start, done + more)
  {
    forall b | start <= b < start + done + more ensures !bits[b] {
      assert b < start + done || !now[b];
    }
    assert Fill(now, start + done, more, true) == Fill(bits, start, done + more, true);
  }

  lemma Reserved(bits: seq<bool>, now: seq<bool>, start: nat, num: nat)
    requires Reserving(bits, now, start, num)
    ensures start + num <= |bits| && AllAre(bits, start, num, false) && now == Fill(bits, start, num, true)
  {
  }

  lemma Eights(num: nat)
    ensures num / 8 * 8 <= num
  {
  }

  lemma EightMore(block: nat)
    ensures (block + 8) % 8 == block % 8
  {
  }

  lemma ReserveFails(bits: seq<bool>, now: seq<bool>, start: nat, done: nat, more: nat, num: nat)
    requires Reserving(bits, now, start, done) && done + more <= num && start + num <= |bits|
    requires !AllAre(now, start + done, more, false)
    ensures !AllAre(bits, start, num, false)
  {
    var b :| start + done <= b < start + done + more && now[b];
    assert bits[b];
  }

  lemma ClearMore(bits: seq<bool>, block: nat, num: nat)
    requires block + 1 + num <= |bits|
    ensures Fill(Fill(bits, block + 1, num, false), block, 1, false) == Fill(bits, block, num + 1, false)
  {
  }

  // Whether the search for the chunk of some freed blocks stops at chunk i.
  predicate StopsAt(chunks: seq<Chunk>, i: nat, block: nat, num: nat) {
    && i < |chunks| && chunks[i].len >= num && chunks[i].block <= block
    && forall k :: i < k < |chunks| ==> chunks[k].len < num || chunks[k].block > block
  }

  // The chunks once some blocks are freed.
  ghost predicate Freed(before: seq<Chunk>, after: seq<Chunk>, block: nat, num: nat) {
    && (forall i: nat :: StopsAt(before, i, block, num) ==> after == Shrink(before, i, block, num))
    && ((forall i: nat :: !StopsAt(before, i, block, num)) ==> after == before)
  }

  class BlockGroup {
    const bitmap: array<bv8>
    const headerBlocks: nat
    // The first block past the end of the filesystem, or the size of the group.
    const limit: nat
    var freeBlocks: int
    var chunks: seq<Chunk>

    ghost function View(): (g: Group)
      reads this, bitmap
    {
      Group(BitsOf(bitmap[..]), chunks, freeBlocks, headerBlocks, limit)
    }

    // Marks a block used; says whether it already was.
    method SetBit(bit: nat) returns (was: bool)
      requires bit < 8 * bitmap.Length
      modifies bitmap
      ensures was == old(BitsOf(bitmap[..]))[bit]
      ensures BitsOf(bitmap[..]) == if was then old(BitsOf(bitmap[..])) else Fill(old(BitsOf(bitmap[..])), bit, 1, true)
    {
      hide BitsOf, Fill, SetIn, BitOf;
      was := BitOf(bitmap[bit / 8], bit % 8);
      ghost var before := bitmap[..];
      BitIs(before, bit);
      if !was {
        SetBitBits(before, bit);
        bitmap[bit / 8] := SetIn(bitmap[bit / 8], bit % 8);
        assert bitmap[..] == before[bit / 8 := SetIn(before[bit / 8], bit % 8)];
      }
    }

    // Marks eight blocks used; says whether one of them already was.
    method Set8Bits(bit: nat) returns (was: bool)
      requires bit % 8 == 0 && bit + 8 <= 8 * bitmap.Length
      modifies bitmap
      ensures was <==> !AllAre(old(BitsOf(bitmap[..])), bit, 8, false)
      ensures BitsOf(bitmap[..]) == Fill(old(BitsOf(bitmap[..])), bit, 8, true)
    {
      SetByteBits(bitmap[..], bit);
      ghost var before := bitmap[..];
      was := bitmap[bit / 8] != 0;
      bitmap[bit / 8] := 0xFF;
      assert bitmap[..] == before[bit / 8 := 0xFF];
    }

    // Marks blocks used one by one up to a byte boundary, then byte by byte, then one by one. Fails
    // exactly when one of them is in use already.
    method ReserveBlocks(start: nat, num: nat) returns (ok: bool)
      requires start + num <= 8 * bitmap.Length
      modifies bitmap, this`freeBlocks
      ensures ok <==> AllAre(old(BitsOf(bitmap[..])), start, num, false)
      ensures ok ==> BitsOf(bitmap[..]) == Fill(old(BitsOf(bitmap[..])), start, num, true)
      ensures freeBlocks == old(freeBlocks) - if ok then num else 0
    {
      hide BitsOf, Fill, AllAre, Reserving;
      ghost var bits := BitsOf(bitmap[..]);
      ReserveNone(bits, start);
      Eights(num);
      var i, block := 0, start;
      while i < num && block % 8 != 0
        modifies bitmap
        invariant 0 <= i <= num && block == start + i
        invariant Reserving(bits, BitsOf(bitmap[..]), start, i)
      {
        ok := ReserveOne(bits, start, i, num);
        if !ok {
          return;
        }
        i, block := i + 1, block + 1;
      }
      while i + 8 <= num / 8 * 8
        modifies bitmap
        invariant 0 <= i <= num && block == start + i && (i + 8 <= num ==> block % 8 == 0)
        invariant Reserving(bits, BitsOf(bitmap[..]), start, i)
      {
        ok := ReserveEight(bits, start, i, num);
        if !ok {
          return;
        }
        EightMore(block);
        i, block := i + 8, block + 8;
      }
      while i < num
        modifies bitmap
        invariant 0 <= i <= num && block == start + i
        invariant Reserving(bits, BitsOf(bitmap[..]), start, i)
      {
        ok := ReserveOne(bits, start, i, num);
        if !ok {
          return;
        }
        i, block := i + 1, block + 1;
      }
      Reserved(bits, BitsOf(bitmap[..]), start, num);
      freeBlocks := freeBlocks - num;
      return true;
    }

    // One round of the loops above.
    method ReserveOne(ghost bits: seq<bool>, start: nat, i: nat, ghost num: nat) returns (ok: bool)
      requires i < num && start + num <= 8 * bitmap.Length == |bits| && Reserving(bits, BitsOf(bitmap[..]), start, i)
      modifies bitmap
      ensures if ok then Reserving(bits, BitsOf(bitmap[..]), start, i + 1) else !AllAre(bits, start, num, false)
    {
      ghost var now := BitsOf(bitmap[..]);
      var was := SetBit(start + i);
      if was {
        ReserveFails(bits, now, start, i, 1, num);
      } else {
        ReserveMore(bits, now, start, i, 1);
      }
      return !was;
    }

    method ReserveEight(ghost bits: seq<bool>, start: nat, i: nat, ghost num: nat) returns (ok: bool)
      requires i + 8 <= num && start + num <= 8 * bitmap.Length == |bits| && Reserving(bits, BitsOf(bitmap[..]), start, i)
      requires (start + i) % 8 == 0
      modifies bitmap
      ensures if ok then Reserving(bits, BitsOf(bitmap[..]), start, i + 8) else !AllAre(bits, start, num, false)
    {
      ghost var now := BitsOf(bitmap[..]);
      var was := Set8Bits(start + i);
      if was {
        ReserveFails(bits, now, start, i, 8, num);
      } else {
        ReserveMore(bits, now, start, i, 8);
      }
      return !was;
    }

    // Gives back the `num` blocks that end with `last`.
    method FreeBlocks(last: nat, num: nat)
      requires num <= last + 1 && last < 8 * bitmap.Length
      modifies bitmap, this`freeBlocks, this`chunks
      ensures BitsOf(bitmap[..]) == Fill(old(BitsOf(bitmap[..])), last + 1 - num, num, false)
      ensures freeBlocks == old(freeBlocks) + num
      ensures num > 0 ==> Freed(old(chunks), chunks, last + 1 - num, num)
    {
      hide BitsOf, Fill, StopsAt, Shrink;
      ghost var bits := BitsOf(bitmap[..]);
      FillNone(bits, last + 1, false);
      if num == 0 {
        return;
      }
      var i, block: int := 0, last;
      while i < num
        modifies bitmap
        invariant 0 <= i <= num && block == last - i
        invariant BitsOf(bitmap[..]) == Fill(bits, block + 1, i, false)
      {
        ClearBit(block);
        ClearMore(bits, block, i);
        i, block := i + 1, block - 1;
      }
      freeBlocks := freeBlocks + num;
      TrimChunk(block + 1, num);
    }

    method ClearBit(bit: nat)
      requires bit < 8 * bitmap.Length
      modifies bitmap
      ensures BitsOf(bitmap[..]) == Fill(old(BitsOf(bitmap[..])), bit, 1, false)
    {
      hide BitsOf, Fill, ClearIn;
      ClearBitBits(bitmap[..], bit);
      ghost var before := bitmap[..];
      bitmap[bit / 8] := ClearIn(bitmap[bit / 8], bit % 8);
      assert bitmap[..] == before[bit / 8 := ClearIn(before[bit / 8], bit % 8)];
    }

    // Takes freed blocks off the end of the chunk that holds them; the second loop of FreeBlocks.
    method TrimChunk(block: nat, num: nat)
      modifies this`chunks
      ensures Freed(old(chunks), chunks, block, num)
    {
      var k := |chunks|;
      ghost var list := chunks;
      while k > 0
        invariant 0 <= k <= |chunks| && chunks == list
        invariant forall j :: k <= j < |chunks| ==> chunks[j].len < num || chunks[j].block > block
      {
        k := k - 1;
        if chunks[k].len >= num && chunks[k].block <= block {
          var c := chunks[k];
          if c.block == block {
            chunks := chunks[k := Chunk(c.block + num, c.len - num)];
          } else if c.block + c.len == block + num {
            chunks := chunks[k := Chunk(c.block, c.len - num)];
          }
          assert chunks == Shrink(list, k, block, num);
          assert StopsAt(list, k, block, num) && forall i: nat :: StopsAt(list, i, block, num) ==> i == k;
          return;
        }
      }
    }

    // A group of 8 * bytes blocks whose first `header` blocks and whose blocks from `limit` on are taken.
    constructor (bytes: nat, header: nat, limit: nat)
      requires bytes > 0 && header <= limit <= 8 * bytes && header < 8 * bytes
      ensures fresh(bitmap) && bitmap.Length == bytes && headerBlocks == header && this.limit == limit
      ensures GroupOk(View()) && freeBlocks == limit - header
      ensures chunks == NewChunks(bytes, header, limit)
    {
      hide BitsOf, Fill, AllAre, GroupOk, Clear;
      bitmap := new bv8[bytes](_ => 0);
      headerBlocks, this.limit, freeBlocks, chunks := header, limit, 8 * bytes, [];
      new;
      ghost var zero := BitsOf(bitmap[..]);
      ZeroClear(bitmap[..]);
      StartsOk(zero, header, limit);
      var ok := ReserveBlocks(0, header);
      chunks := [Chunk(header, 0)];
      if limit < 8 * bytes {
        ok := ReserveBlocks(limit, 8 * bytes - limit);
        chunks := chunks + [Chunk(limit, 0)];
        assert chunks == [Chunk(header, 0), Chunk(limit, 0)] && freeBlocks == limit - header;
      } else {
        chunks := chunks + [Chunk(8 * bytes - 1, 0)];
        assert chunks == [Chunk(header, 0), Chunk(8 * bytes - 1, 0)];
      }
    }
  }

  // An empty chunk on either side of the blocks that can be handed out.
  function NewChunks(bytes: nat, header: nat, limit: nat): seq<Chunk>
    requires bytes > 0
  {
    [Chunk(header, 0), Chunk(if limit < 8 * bytes then limit else 8 * bytes - 1, 0)]
  }

  // The bits and chunks of a new group.
  lemma StartsOk(zero: seq<bool>, header: nat, limit: nat)
    requires AllAre(zero, 0, |zero|, false) && header <= limit <= |zero| && header < |zero|
    ensures AllAre(zero, 0, header, false)
    ensures var bits := Fill(zero, 0, header, true);
            if limit < |zero| then
              && AllAre(bits, limit, |zero| - limit, false)
              && GroupOk(Group(Fill(bits, limit, |zero| - limit, true), [Chunk(header, 0), Chunk(limit, 0)],
                               limit - header, header, limit))
            else GroupOk(Group(bits, [Chunk(header, 0), Chunk(|zero| - 1, 0)], limit - header, header, limit))
  {
    var bits := Fill(zero, 0, header, true);
    AllClear(zero);
    ClearAfterFill(zero, 0, header, true);
    ClearAfterFill(bits, limit, |zero| - limit, true);
    assert limit == |zero| ==> Fill(bits, limit, 0, true) == bits;
  }

  lemma ZeroClear(bytes: seq<bv8>)
    requires forall i :: 0 <= i < |bytes| ==> bytes[i] == 0
    ensures AllAre(BitsOf(bytes), 0, 8 * |bytes|, false)
  {
  }

  lemma FillNone(bits: seq<bool>, start: nat, value: bool)
    requires start <= |bits|
    ensures Fill(bits, start, 0, value) == bits
  {
  }

  lemma ReserveNone(bits: seq<bool>, start: nat)
    requires start <= |bits|
    ensures Reserving(bits, bits, start, 0)
  {
    FillNone(bits, start, true);
  }

  lemma {:induction false} AllClear(bits: seq<bool>)
    requires AllAre(bits, 0, |bits|, false)
    ensures Clear(bits) == |bits|
  {
    if |bits| > 0 {
      AllClear(bits[..|bits| - 1]);
    }
  }
}
