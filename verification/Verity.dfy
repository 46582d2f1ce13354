/**
 Verification of a hash tree and reads gated by it (libfec/fec_verity.cpp, libfec/fec_read.cpp). The
 salted hash is any function; the Reed-Solomon decoder is any function of the disk; the disk may hold
 anything, and any of its blocks may be unreadable.
 */
module Verity {
  import opened Options
  import opened VerityLayout

  newtype Byte = x: int | 0 <= x < 256

  type Block = b: seq<Byte> | |b| == BLOCK witness seq(BLOCK, _ => 0)

  type Digest = d: seq<Byte> | |d| == DIGEST witness seq(DIGEST, _ => 0)

  type Hash = Block -> Digest

  // A block of the disk; None cannot be read.
  type Disk = seq<Option<Block>>

  const ZEROS: Block := seq(BLOCK, _ => 0)

  function Piece(b: Block, j: nat): Digest
    requires j < FANOUT
  {
    b[j * DIGEST..j * DIGEST + DIGEST]
  }

  // The j-th hash of a level.
  function DigestAt(level: seq<Block>, j: nat): Digest
    requires j < |level| * FANOUT
  {
    Piece(level[j / FANOUT], j % FANOUT)
  }

  // Byte k of the j-th hash of a level is byte 32 j + k of the level.
  lemma DigestPlace(level: seq<Block>, j: nat, k: nat)
    requires j < |level| * FANOUT && k < DIGEST
    ensures (32 * j + k) / 4096 < |level| && DigestAt(level, j)[k] == level[(32 * j + k) / 4096][(32 * j + k) % 4096]
  {
    var q, m := j / FANOUT, j % FANOUT;
    Arith.QuotientUnique(32 * j + k, 4096, q, 32 * m + k);
  }

  // Every block of `level` has the hash that the level above gives for it.
  predicate Matches(h: Hash, above: seq<Block>, level: seq<Block>) {
    forall j :: 0 <= j < |level| ==> j < |above| * FANOUT && DigestAt(above, j) == h(level[j])
  }

  /* The image that the root hash was built from. */

  // `levels` is the tree over `data`, from the root block down to the data hashes.
  ghost predicate IsTree(h: Hash, data: seq<Block>, levels: seq<seq<Block>>) {
    var n, l := |data|, |levels|;
    && n > 0 && IsLevels(n, l)
    && (forall i :: 0 <= i < l ==> |levels[i]| == Blocks(n, l, i))
    && (forall i :: 0 < i < l ==> Matches(h, levels[i - 1], levels[i]))
    && Matches(h, levels[l - 1], data)
  }

  // No other block has the hash of x.
  ghost predicate Secure(h: Hash, x: Block) {
    forall y: Block :: h(y) == h(x) ==> y == x
  }

  ghost predicate SecureAll(h: Hash, xs: seq<Block>) {
    forall j :: 0 <= j < |xs| ==> Secure(h, xs[j])
  }

  /* What verify_tree finds out about the disk. */

  predicate Readable(disk: Disk, first: nat, count: nat) {
    first + count <= |disk| && forall i :: first <= i < first + count ==> disk[i].Some?
  }

  function BlocksOf(disk: Disk, first: nat, count: nat): (r: seq<Block>)
    requires Readable(disk, first, count)
    ensures |r| == count
    ensures forall j :: 0 <= j < count ==> r[j] == disk[first + j].value
  {
    seq(count, j requires 0 <= j < count && Readable(disk, first, count) => disk[first + j].value)
  }

  // The disks agree but for blocks from lo up to hi.
  predicate SameBut(disk: Disk, disk': Disk, lo: nat, hi: nat) {
    |disk'| == |disk| && forall i :: 0 <= i < |disk| && !(lo <= i < hi) ==> disk'[i] == disk[i]
  }

  // The disk has the blocks, from `first` on.
  predicate Copied(disk: Disk, first: nat, blocks: seq<Block>) {
    first + |blocks| <= |disk| && forall k :: 0 <= k < |blocks| ==> disk[first + k] == Some(blocks[k])
  }

  // The first i levels of the tree that lies at `start`, as the disk holds them.
  predicate Chained(h: Hash, disk: Disk, start: nat, n: nat, l: nat, root: Digest, i: nat)
    requires i <= l
  {
    if i == 0 then true
    else
      && Chained(h, disk, start, n, l, root, i - 1)
      && Readable(disk, start + Start(n, l, i - 1), Blocks(n, l, i - 1))
      && var level := BlocksOf(disk, start + Start(n, l, i - 1), Blocks(n, l, i - 1));
         if i == 1 then |level| == 1 && h(level[0]) == root
         else
           && Readable(disk, start + Start(n, l, i - 2), Blocks(n, l, i - 2))
           && Matches(h, BlocksOf(disk, start + Start(n, l, i - 2), Blocks(n, l, i - 2)), level)
  }

  lemma SecureUse(h: Hash, x: Block, y: Block)
    requires Secure(h, x) && h(y) == h(x)
    ensures y == x
  {
  }

  lemma SameHashes(h: Hash, above: seq<Block>, level: seq<Block>, want: seq<Block>)
    requires Matches(h, above, level) && Matches(h, above, want) && |level| == |want| && SecureAll(h, want)
    ensures level == want
  {
    forall j | 0 <= j < |want| ensures level[j] == want[j] {
      SecureUse(h, want[j], level[j]);
    }
  }

  lemma ChainUnfold(h: Hash, disk: Disk, start: nat, n: nat, l: nat, root: Digest, i: nat)
    requires i < l && Chained(h, disk, start, n, l, root, i + 1)
    ensures Chained(h, disk, start, n, l, root, i)
    ensures Readable(disk, start + Start(n, l, i), Blocks(n, l, i))
    ensures i == 0 ==> var top := BlocksOf(disk, start + Start(n, l, 0), Blocks(n, l, 0)); |top| == 1 && h(top[0]) == root
    ensures i > 0 ==> Readable(disk, start + Start(n, l, i - 1), Blocks(n, l, i - 1))
    ensures i > 0 ==> Matches(h, BlocksOf(disk, start + Start(n, l, i - 1), Blocks(n, l, i - 1)),
                              BlocksOf(disk, start + Start(n, l, i), Blocks(n, l, i)))
  {
  }

  // A chain that starts at the root hash of an image holds the tree of that image, level by level.
  lemma {:induction false} ChainIsTree(h: Hash, disk: Disk, start: nat, data: seq<Block>, levels: seq<seq<Block>>, i: nat)
    requires IsTree(h, data, levels) && i < |levels|
    requires |levels[0]| == 1 && Chained(h, disk, start, |data|, |levels|, h(levels[0][0]), i + 1)
    requires forall k :: 0 <= k < |levels| ==> SecureAll(h, levels[k])
    ensures Readable(disk, start + Start(|data|, |levels|, i), Blocks(|data|, |levels|, i))
    ensures BlocksOf(disk, start + Start(|data|, |levels|, i), Blocks(|data|, |levels|, i)) == levels[i]
  {
    hide Chained, Start, Hashes, IsLevels;
    var n, l := |data|, |levels|;
    ChainUnfold(h, disk, start, n, l, h(levels[0][0]), i);
    var level := BlocksOf(disk, start + Start(n, l, i), Blocks(n, l, i));
    if i == 0 {
      assert SecureAll(h, levels[0]);
      SecureUse(h, levels[0][0], level[0]);
    } else {
      ChainIsTree(h, disk, start, data, levels, i - 1);
      assert Matches(h, levels[i - 1], levels[i]);
      SameHashes(h, levels[i - 1], level, levels[i]);
    }
  }

  /* An undamaged image. */

  ghost predicate HoldsTree(disk: Disk, start: nat, n: nat, levels: seq<seq<Block>>) {
    forall i :: 0 <= i < |levels| ==>
                  && Readable(disk, start + Start(n, |levels|, i), Blocks(n, |levels|, i))
                  && BlocksOf(disk, start + Start(n, |levels|, i), Blocks(n, |levels|, i)) == levels[i]
  }

  predicate HoldsData(disk: Disk, data: seq<Block>) {
    |data| <= |disk| && forall j :: 0 <= j < |data| ==> disk[j] == Some(data[j])
  }

  lemma {:induction false} TreeIsChained(h: Hash, disk: Disk, start: nat, data: seq<Block>, levels: seq<seq<Block>>, i: nat)
    requires IsTree(h, data, levels) && HoldsTree(disk, start, |data|, levels) && i <= |levels| && |levels[0]| == 1
    ensures Chained(h, disk, start, |data|, |levels|, h(levels[0][0]), i)
  {
    hide Start, Hashes, IsLevels;
    if i > 0 {
      TreeIsChained(h, disk, start, data, levels, i - 1);
      assert BlocksOf(disk, start + Start(|data|, |levels|, i - 1), Blocks(|data|, |levels|, i - 1)) == levels[i - 1];
      if i > 1 {
        assert Matches(h, levels[i - 2], levels[i - 1]);
        assert BlocksOf(disk, start + Start(|data|, |levels|, i - 2), Blocks(|data|, |levels|, i - 2)) == levels[i - 2];
      }
    }
  }

  // The copied hashes are those of the data, and no other data has them.
  ghost predicate Vouches(h: Hash, hash: seq<Block>, data: seq<Block>) {
    && |data| <= |hash| * FANOUT
    && forall j :: 0 <= j < |data| ==> DigestAt(hash, j) == h(data[j]) && Secure(h, data[j])
  }

  // The bytes are those of the data at that offset, as far as the data goes.
  predicate IsPartOf(bytes: seq<Byte>, offset: nat, data: seq<Block>) {
    forall k :: 0 <= k < |bytes| && (offset + k) / BLOCK < |data| ==>
                  bytes[k] == data[(offset + k) / BLOCK][(offset + k) % BLOCK]
  }

  lemma ExtendPart(h: Hash, hash: seq<Block>, data: seq<Block>, dest: seq<Byte>, offset: nat, curr: nat, coff: nat,
                   copy: nat, block: Block)
    requires Vouches(h, hash, data) && curr < |hash| * FANOUT && h(block) == DigestAt(hash, curr)
    requires coff + copy <= BLOCK && curr * BLOCK + coff == offset + |dest| && IsPartOf(dest, offset, data)
    ensures IsPartOf(dest + block[coff..coff + copy], offset, data)
  {
    var more := dest + block[coff..coff + copy];
    if curr < |data| {
      SecureUse(h, data[curr], block);
    }
    forall k | |dest| <= k < |more| && (offset + k) / BLOCK < |data|
      ensures more[k] == data[(offset + k) / BLOCK][(offset + k) % BLOCK]
    {
      Arith.QuotientUnique(offset + k, BLOCK, curr, coff + k - |dest|);
    }
  }

  lemma LevelsUnique(n: nat, l: nat, m: nat)
    requires IsLevels(n, l) && IsLevels(n, m)
    ensures l == m
  {
  }

  // What a verified chain says about the image: its copied hashes vouch for the data.
  lemma ChainVouches(h: Hash, disk: Disk, start: nat, data: seq<Block>, levels: seq<seq<Block>>, l: nat, hash: seq<Block>)
    requires IsTree(h, data, levels) && |levels| == l && |levels[0]| == 1
    requires SecureAll(h, data) && forall k :: 0 <= k < l ==> SecureAll(h, levels[k])
    requires Chained(h, disk, start, |data|, l, h(levels[0][0]), l)
    requires Readable(disk, start + Start(|data|, l, l - 1), Blocks(|data|, l, l - 1))
    requires hash == BlocksOf(disk, start + Start(|data|, l, l - 1), Blocks(|data|, l, l - 1))
    ensures Vouches(h, hash, data)
  {
    hide Chained, Start, Hashes;
    ChainIsTree(h, disk, start, data, levels, l - 1);
    MatchesVouches(h, levels[l - 1], data);
  }

  lemma MatchesVouches(h: Hash, hash: seq<Block>, data: seq<Block>)
    requires Matches(h, hash, data) && SecureAll(h, data)
    ensures Vouches(h, hash, data)
  {
    if |data| > 0 {
      var last := data[|data| - 1];
    }
  }

  // Block j of a level has the hash that the level above gives for it.
  predicate Fits(h: Hash, disk: Disk, above: nat, first: nat, j: nat)
    requires above + j / FANOUT < |disk| && first + j < |disk|
  {
    && disk[above + j / FANOUT].Some? && disk[first + j].Some?
    && Piece(disk[above + j / FANOUT].value, j % FANOUT) == h(disk[first + j].value)
  }

  // At most block j of a level and its hash in the level above were rewritten.
  predicate Rewritten(disk: Disk, disk': Disk, above: nat, first: nat, j: nat)
    requires above + j / FANOUT < |disk| && first + j < |disk|
  {
    var p := above + j / FANOUT;
    && |disk'| == |disk| && (forall i :: 0 <= i < |disk| && i != p && i != first + j ==> disk'[i] == disk[i])
    && (disk[p].Some? <==> disk'[p].Some?)
    && (disk[p].Some? ==>
          forall i :: 0 <= i < FANOUT && i != j % FANOUT ==> Piece(disk'[p].value, i) == Piece(disk[p].value, i))
  }

  // The blocks before it keep their hashes.
  lemma FitsStill(h: Hash, disk: Disk, disk': Disk, above: nat, aboveCount: nat, first: nat, j: nat, k: nat)
    requires k < j < aboveCount * FANOUT && above + aboveCount <= first && first + j < |disk|
    requires Rewritten(disk, disk', above, first, j) && Fits(h, disk, above, first, k)
    ensures Fits(h, disk', above, first, k) && disk'[first + k] == disk[first + k]
  {
    hide Piece;
    assert k / FANOUT <= j / FANOUT < aboveCount;
  }

  // A level matches the one above it if and only if each of its blocks does.
  lemma FitsAll(h: Hash, disk: Disk, above: nat, aboveCount: nat, first: nat, count: nat)
    requires Readable(disk, above, aboveCount) && first + count <= |disk| && count <= aboveCount * FANOUT
    ensures (forall j :: 0 <= j < count ==> Fits(h, disk, above, first, j)) <==>
              Readable(disk, first, count)
              && Matches(h, BlocksOf(disk, above, aboveCount), BlocksOf(disk, first, count))
  {
    if forall j :: 0 <= j < count ==> Fits(h, disk, above, first, j) {
      forall i | first <= i < first + count ensures disk[i].Some? {
        assert Fits(h, disk, above, first, i - first);
      }
      var up, level := BlocksOf(disk, above, aboveCount), BlocksOf(disk, first, count);
      forall j | 0 <= j < count ensures DigestAt(up, j) == h(level[j]) {
        assert Fits(h, disk, above, first, j);
      }
    }
    if Readable(disk, first, count) && Matches(h, BlocksOf(disk, above, aboveCount), BlocksOf(disk, first, count)) {
      var up, level := BlocksOf(disk, above, aboveCount), BlocksOf(disk, first, count);
      forall j | 0 <= j < count ensures Fits(h, disk, above, first, j) {
        assert DigestAt(up, j) == h(level[j]);
      }
    }
  }

  lemma FitsHas(h: Hash, disk: Disk, above: nat, first: nat, j: nat)
    requires above + j / FANOUT < |disk| && first + j < |disk|
    ensures Fits(h, disk, above, first, j) ==> disk[first + j].Some?
  {
  }

  lemma {:induction false} ChainPrefix(h: Hash, disk: Disk, start: nat, n: nat, l: nat, root: Digest, i: nat, k: nat)
    requires k <= i <= l && Chained(h, disk, start, n, l, root, i)
    ensures Chained(h, disk, start, n, l, root, k)
    decreases i
  {
    if k < i {
      ChainPrefix(h, disk, start, n, l, root, i - 1, k);
    }
  }

  class FecHandle {
    const h: Hash
    // What error correction makes of a block: anything, or nothing.
    const ecc: (Disk, nat, bool) -> Option<Block>
    const hasEcc: bool
    const readWrite: bool
    // Whether `mode & O_RDONLY` holds; O_RDONLY is 0, so it never does.
    const skipZeros: bool
    // The blocks that can be written.
    const writable: nat -> bool
    const dataSize: nat
    const dataBlocks: nat
    const hashStart: nat
    var disk: Disk
    var hash: Option<seq<Block>>
    var hashDataBlocks: nat

    constructor (h: Hash, ecc: (Disk, nat, bool) -> Option<Block>, hasEcc: bool, readWrite: bool, skipZeros: bool,
                 writable: nat -> bool, dataSize: nat, dataBlocks: nat, hashStart: nat, disk: Disk)
      ensures this.disk == disk && hash.None? && hashDataBlocks == 0 && this.h == h
      ensures this.dataSize == dataSize && this.dataBlocks == dataBlocks && this.hashStart == hashStart
    {
      this.h, this.ecc, this.hasEcc, this.readWrite, this.skipZeros := h, ecc, hasEcc, readWrite, skipZeros;
      this.writable, this.dataSize, this.dataBlocks, this.hashStart := writable, dataSize, dataBlocks, hashStart;
      this.disk, hash, hashDataBlocks := disk, None, 0;
    }

    method WriteBlock(i: nat, b: Block) returns (ok: bool)
      requires i < |disk|
      modifies this`disk
      ensures ok == writable(i) && disk == if ok then old(disk)[i := Some(b)] else old(disk)
    {
      ok := writable(i);
      if ok {
        disk := disk[i := Some(b)];
      }
    }

    // Reads and verifies the root block.
    method VerifyRoot(root: Digest) returns (ok: bool, corrected: bool)
      requires hashStart < |disk|
      modifies this`disk
      ensures |disk| == |old(disk)| && (!corrected ==> disk == old(disk))
      ensures ok && !corrected <==> old(disk)[hashStart].Some? && h(old(disk)[hashStart].value) == root
      ensures ok && corrected <==> RootCorrected(old(disk), root)
      ensures disk == if ok && corrected && readWrite then old(disk)[hashStart := ecc(old(disk), hashStart, false)]
                      else old(disk)
    {
      if disk[hashStart].Some? && h(disk[hashStart].value) == root {
        return true, false;
      }
      corrected := true;
      var fixed := ecc(disk, hashStart, false);
      ok := fixed.Some? && h(fixed.value) == root;
      if ok && readWrite {
        ok := WriteBlock(hashStart, fixed.value);
      }
    }

    // The root block has to be decoded, decodes to what it should be, and can be written if it has to be.
    predicate RootCorrected(disk: Disk, root: Digest)
      requires hashStart < |disk|
    {
      var fixed := ecc(disk, hashStart, false);
      && !(disk[hashStart].Some? && h(disk[hashStart].value) == root)
      && fixed.Some? && h(fixed.value) == root && (readWrite ==> writable(hashStart))
    }

    // Verifies block j of a level against its hash in the level above, which starts at `above`.
    method VerifyHashBlock(above: nat, first: nat, j: nat) returns (ok: bool, corrected: bool, data: Block)
      requires above + j / FANOUT < |disk| && first + j < |disk|
      modifies this`disk
      ensures |disk| == |old(disk)| && (!corrected ==> disk == old(disk))
      ensures ok && !corrected <==> Fits(h, old(disk), above, first, j)
      ensures ok && !corrected ==> data == disk[first + j].value
      ensures !readWrite ==> disk == old(disk)
      ensures above + j / FANOUT != first + j ==> Rewritten(old(disk), disk, above, first, j)
      ensures above + j / FANOUT != first + j && ok && readWrite ==>
                Fits(h, disk, above, first, j) && disk[first + j] == Some(data)
      ensures ok && corrected <==> Corrected(old(disk), above, first, j)
      ensures ok && corrected ==> Some(data) == ecc(old(disk), first + j, false)
    {
      hide Piece, Patch;
      data := ZEROS;
      var parent, child := disk[above + j / FANOUT], disk[first + j];
      if parent.None? || child.None? {
        return false, false, data;
      }
      data := child.value;
      if Piece(parent.value, j % FANOUT) == h(data) {
        return true, false, data;
      }
      corrected := true;
      parent, child := ecc(disk, above + j / FANOUT, false), ecc(disk, first + j, false);
      ok := parent.Some? && child.Some? && Piece(parent.value, j % FANOUT) == h(child.value);
      if ok {
        data := child.value;
        if readWrite {
          // only the hash itself is rewritten in the parent block
          PatchPieces(disk[above + j / FANOUT].value, j % FANOUT, Piece(parent.value, j % FANOUT));
          var held := disk[above + j / FANOUT].value;
          ok := WriteBlock(above + j / FANOUT, Patch(held, j % FANOUT, Piece(parent.value, j % FANOUT)));
          if ok {
            ok := WriteBlock(first + j, data);
          }
        }
      }
    }

    // Both blocks can be read but do not match, decode to a hash and a block that has it, and can be written if they
    // have to be.
    predicate Corrected(disk: Disk, above: nat, first: nat, j: nat)
      requires above + j / FANOUT < |disk| && first + j < |disk|
    {
      var parent, child := ecc(disk, above + j / FANOUT, false), ecc(disk, first + j, false);
      && disk[above + j / FANOUT].Some? && disk[first + j].Some? && !Fits(h, disk, above, first, j)
      && parent.Some? && child.Some? && Piece(parent.value, j % FANOUT) == h(child.value)
      && (readWrite ==> writable(above + j / FANOUT) && writable(first + j))
    }

    // Verifies all the blocks of a level. `sound` says that the level above is as it was verified.
    method VerifyLevel(above: nat, ghost aboveCount: nat, first: nat, count: nat, ghost sound: bool)
      returns (ok: bool, corrected: bool, blocks: seq<Block>)
      requires above + aboveCount <= first && first + count <= |disk| && count <= aboveCount * FANOUT
      requires sound ==> Readable(disk, above, aboveCount)
      modifies this`disk
      ensures |disk| == |old(disk)| && (!corrected ==> disk == old(disk))
      ensures ok ==> |blocks| == count
      ensures sound ==>
                (ok && !corrected <==>
                 Readable(old(disk), first, count)
                 && Matches(h, BlocksOf(old(disk), above, aboveCount), BlocksOf(old(disk), first, count)))
      ensures ok && !corrected && sound ==> blocks == BlocksOf(disk, first, count)
      ensures (!readWrite ==> disk == old(disk)) && SameBut(old(disk), disk, above, first + count)
      ensures ok && readWrite ==>
                Copied(disk, first, blocks) && forall k :: 0 <= k < count ==> Fits(h, disk, above, first, k)
    {
      hide Matches, Piece, Fits, Readable;
      blocks := [];
      corrected := false;
      var j := 0;
      ghost var disk0 := disk;
      if sound {
        FitsAll(h, disk0, above, aboveCount, first, count);
      }
      while j < count
        invariant 0 <= j == |blocks| <= count
        invariant |disk| == |disk0| && (!corrected ==> disk == disk0)
        invariant !corrected <==> forall k :: 0 <= k < j ==> Fits(h, disk0, above, first, k)
        invariant !corrected ==> forall k :: 0 <= k < j ==> disk0[first + k] == Some(blocks[k])
        invariant (!readWrite ==> disk == disk0) && SameBut(disk0, disk, above, first + count)
        invariant readWrite ==> Copied(disk, first, blocks) && forall k :: 0 <= k < j ==> Fits(h, disk, above, first, k)
      {
        var data, fixed;
        ghost var disk1 := disk;
        assert j / FANOUT < aboveCount;
        ok, fixed, data := VerifyHashBlock(above, first, j);
        if readWrite {
          forall k | 0 <= k < j ensures Fits(h, disk, above, first, k) && disk[first + k] == disk1[first + k] {
            FitsStill(h, disk1, disk, above, aboveCount, first, j, k);
          }
        }
        if !ok {
          corrected := corrected || fixed;
          return;
        }
        FitsHas(h, disk0, above, first, j);
        corrected := corrected || fixed;
        blocks := blocks + [data];
        j := j + 1;
      }
      ok := true;
    }

    // Validates the tree on disk against the root hash and keeps a copy of its data hashes. `l` is the
    // number of levels.
    method VerifyTree(root: Digest) returns (ok: bool, corrected: bool, ghost l: nat)
      requires dataSize <= |disk| * BLOCK && Tree(dataBlocks) * BLOCK < 0x1_0000_0000
      modifies this
      ensures |disk| == |old(disk)| && (!corrected ==> disk == old(disk))
      ensures IsLevels(dataBlocks, l)
      ensures dataBlocks <= FANOUT ==> !ok
      ensures ok ==> hash.Some? && |hash.value| == hashDataBlocks == HashBlocks(dataBlocks)
      ensures ok && !corrected <==> Whole(old(disk), root, l)
      ensures ok && !corrected ==> ChainedTo(root, l, l, hash.value)
      ensures !readWrite ==> disk == old(disk)
      ensures SameBut(old(disk), disk, hashStart, hashStart + if dataBlocks == 0 then 1 else Tree(dataBlocks))
      ensures ok && readWrite ==> l > 0 && Copied(disk, hashStart + Start(dataBlocks, l, l - 1), hash.value)
    {
      hide Chained, Total, Start, Tree, Hashes, IsLevels;
      corrected := false;
      ghost var disk0 := disk;
      assert dataBlocks * BLOCK / BLOCK == dataBlocks;
      var size, levels, hashes := VerityGetSize(dataBlocks * BLOCK);
      l := levels;
      TreeHasRoot(dataBlocks);
      if hashStart * BLOCK + size > dataSize || hashStart >= |disk| {
        return false, false, l;
      }
      ChainTop(h, disk, hashStart, dataBlocks, l, root);
      ok, corrected := VerifyRoot(root);
      if !ok {
        return;
      }
      hashDataBlocks := 0;
      var i := 1;
      while i < levels
        invariant 1 <= i <= levels
        invariant hashDataBlocks == if i == 1 then 0 else Blocks(dataBlocks, l, i - 1)
        modifies this`hashDataBlocks
      {
        hashDataBlocks := hashes[levels - i];
        i := i + 1;
      }
      if hashDataBlocks == 0 {
        NoDataHashes(dataBlocks, l);
        return false, corrected, l;
      }
      var copy;
      BottomBlocks(dataBlocks, l);
      assert hashStart + Total(dataBlocks, levels) <= |disk|;
      ghost var fixed := corrected;
      ok, corrected, copy := VerifyLevels(root, levels, hashes, corrected);
      assert !fixed ==> (ok && !corrected <==> Chained(h, disk0, hashStart, dataBlocks, l, root, l));
      if ok {
        hash := Some(copy);
      }
    }

    // Validates the levels below the root block, each against the one above it.
    method VerifyLevels(ghost root: Digest, levels: nat, hashes: seq<nat>, before: bool)
      returns (ok: bool, corrected: bool, copy: seq<Block>)
      requires |hashes| == levels > 1 && IsLevels(dataBlocks, levels)
      requires forall k :: 0 <= k < levels ==> hashes[k] == Hashes(dataBlocks, k)
      requires hashDataBlocks == Blocks(dataBlocks, levels, levels - 1)
      requires hashStart + Total(dataBlocks, levels) <= |disk| && hashStart < |disk|
      requires !before ==> disk[hashStart].Some? && h(disk[hashStart].value) == root
      modifies this`disk
      ensures |disk| == |old(disk)| && (before ==> corrected) && (!corrected ==> disk == old(disk))
      ensures ok ==> |copy| == hashDataBlocks
      ensures !before ==> (ok && !corrected <==> Chained(h, old(disk), hashStart, dataBlocks, levels, root, levels))
      ensures ok && !corrected ==> ChainedTo(root, levels, levels, copy)
      ensures !readWrite ==> disk == old(disk)
      ensures SameBut(old(disk), disk, hashStart, hashStart + Total(dataBlocks, levels))
      ensures ok && readWrite ==> Copied(disk, hashStart + Start(dataBlocks, levels, levels - 1), copy)
    {
      ghost var disk0 := disk;
      corrected, copy := before, [];
      var i, above, first := 1, hashStart, hashStart + 1;
      RootLevel(dataBlocks, levels);
      if !before {
        ChainRoot(h, disk, hashStart, dataBlocks, levels, root);
        copy := [disk[hashStart].value];
      }
      ghost var last := copy;
      hide Total, Start, Hashes, IsLevels, ChainedTo;
      while i < levels
        invariant 1 <= i <= levels
        invariant above == hashStart + Start(dataBlocks, levels, i - 1)
        invariant first == hashStart + Start(dataBlocks, levels, i)
        invariant |disk| == |old(disk)| && (before ==> corrected) && (!corrected ==> disk == old(disk))
        invariant !corrected ==> ChainedTo(root, levels, i, last)
        invariant corrected ==> before || !Chained(h, disk0, hashStart, dataBlocks, levels, root, levels)
        invariant i == levels ==> |copy| == hashDataBlocks && copy == last
        invariant (!readWrite ==> disk == disk0) && SameBut(disk0, disk, hashStart, hashStart + Total(dataBlocks, levels))
        invariant 1 < i && readWrite ==> Copied(disk, above, last)
      {
        LevelStep(dataBlocks, levels, i);
        var fixed, blocks;
        var count := hashes[levels - i];
        ok, fixed, blocks := VerifyNext(root, levels, i, above, first, count, last, !corrected);
        if !corrected && (!ok || fixed) {
          BrokenChain(h, disk0, hashStart, dataBlocks, levels, root, i + 1);
        }
        corrected := corrected || fixed;
        if !ok {
          return;
        }
        last := blocks;
        if count == hashDataBlocks {
          copy := blocks;
        }
        above := first;
        first := first + count;
        i := i + 1;
      }
      ok := true;
    }

    // The tree fits and lies on the disk, unbroken from the root hash down; it has more than one level.
    ghost predicate Whole(disk: Disk, root: Digest, l: nat) {
      && dataBlocks > FANOUT && (hashStart + Tree(dataBlocks)) * BLOCK <= dataSize
      && Chained(h, disk, hashStart, dataBlocks, l, root, l)
    }

    // The first i levels are verified, and `last` is the lowest of them.
    ghost predicate ChainedTo(root: Digest, l: nat, i: nat, last: seq<Block>)
      requires 0 < i <= l
      reads this`disk
    {
      && Chained(h, disk, hashStart, dataBlocks, l, root, i)
      && Readable(disk, hashStart + Start(dataBlocks, l, i - 1), Blocks(dataBlocks, l, i - 1))
      && last == BlocksOf(disk, hashStart + Start(dataBlocks, l, i - 1), Blocks(dataBlocks, l, i - 1))
    }

    method VerifyNext(ghost root: Digest, ghost l: nat, ghost i: nat, above: nat, first: nat, count: nat,
                      ghost last: seq<Block>, ghost sound: bool)
      returns (ok: bool, corrected: bool, blocks: seq<Block>)
      requires 0 < i < l && IsLevels(dataBlocks, l) && count == Blocks(dataBlocks, l, i)
      requires above == hashStart + Start(dataBlocks, l, i - 1) && first == hashStart + Start(dataBlocks, l, i)
      requires hashStart + Total(dataBlocks, l) <= |disk|
      requires sound ==> ChainedTo(root, l, i, last)
      modifies this`disk
      ensures |disk| == |old(disk)| && (!corrected ==> disk == old(disk))
      ensures ok ==> |blocks| == count
      ensures sound ==> (ok && !corrected <==> Chained(h, old(disk), hashStart, dataBlocks, l, root, i + 1))
      ensures ok && !corrected && sound ==> ChainedTo(root, l, i + 1, blocks)
      ensures (!readWrite ==> disk == old(disk)) && SameBut(old(disk), disk, hashStart, hashStart + Total(dataBlocks, l))
      ensures ok && readWrite ==> Copied(disk, first, blocks)
    {
      hide Chained, Total, Start, Hashes, Matches, IsLevels;
      LevelStep(dataBlocks, l, i);
      if sound {
        ChainNext(h, disk, hashStart, dataBlocks, l, root, i);
      }
      ok, corrected, blocks := VerifyLevel(above, Blocks(dataBlocks, l, i - 1), first, count, sound);
    }

    // Whether the block is known to be all zeros.
    predicate IsZero(curr: nat)
      reads this
    {
      && hash.Some? && curr * BLOCK < dataSize && curr < |hash.value| * FANOUT
      && DigestAt(hash.value, curr) == h(ZEROS)
    }

    // The block on disk has its hash.
    predicate Intact(curr: nat)
      requires hash.Some? && curr < |hash.value| * FANOUT && curr < |disk|
      reads this
    {
      disk[curr].Some? && h(disk[curr].value) == DigestAt(hash.value, curr)
    }

    // A block can be returned if it is intact, known to be zero, or decoded to what it should be.
    predicate Served(curr: nat)
      requires hash.Some? && curr < |hash.value| * FANOUT && curr < |disk|
      reads this
    {
      var zero := curr * BLOCK < dataSize && DigestAt(hash.value, curr) == h(ZEROS);
      || Intact(curr) || (skipZeros && zero)
      || (disk[curr].Some? && (readWrite ==> writable(curr)) && (zero || Decoded(curr, false) || Decoded(curr, true)))
    }

    predicate Decoded(curr: nat, erasures: bool)
      requires hash.Some? && curr < |hash.value| * FANOUT && curr < |disk|
      reads this
    {
      hasEcc && ecc(disk, curr, erasures).Some? && h(ecc(disk, curr, erasures).value) == DigestAt(hash.value, curr)
    }

    // Reads one data block: raw, or zeros if that is what it must be, or corrected; never unverified.
    method ReadBlock(curr: nat) returns (r: Option<Block>)
      requires hash.Some? && curr < |hash.value| * FANOUT && curr < |disk|
      modifies this`disk
      ensures |disk| == |old(disk)|
      ensures r.Some? ==> h(r.value) == DigestAt(hash.value, curr)
      ensures r.Some? <==> old(Served(curr))
      ensures old(Intact(curr)) || !readWrite ==> disk == old(disk)
      ensures disk == old(disk) || (r.Some? && disk == old(disk)[curr := r])
      ensures curr * BLOCK < dataSize && DigestAt(hash.value, curr) == h(ZEROS) ==>
                r.Some? && (skipZeros || !old(Intact(curr))) ==> forall k :: 0 <= k < BLOCK ==> r.value[k] == 0
      ensures r.Some? && readWrite && !old(Intact(curr)) && !(skipZeros && old(IsZero(curr))) ==> disk[curr] == r
    {
      var want := DigestAt(hash.value, curr);
      var expectZeros := IsZero(curr);
      if skipZeros && expectZeros {
        return Some(ZEROS);
      }
      if disk[curr].None? {
        return None;
      }
      var data := disk[curr].value;
      if want == h(data) {
        return Some(data);
      }
      if expectZeros {
        data := ZEROS;
      } else {
        if !hasEcc {
          return None;
        }
        var fixed := ecc(disk, curr, false);
        if fixed.None? || h(fixed.value) != want {
          fixed := ecc(disk, curr, true);
          if fixed.None? || h(fixed.value) != want {
            return None;
          }
        }
        data := fixed.value;
      }
      if readWrite {
        var ok := WriteBlock(curr, data);
        if !ok {
          return None;
        }
      }
      return Some(data);
    }

    // All blocks before an offset have their hashes.
    ghost predicate IntactTo(end: nat)
      requires hash.Some?
      reads this
    {
      forall c :: 0 <= c && c * BLOCK < end ==> c < |hash.value| * FANOUT && c < |disk| && Intact(c)
    }

    // Every block that changed is one of those from `first` up to byte `end`, and now has its hash.
    ghost predicate RepairsOnly(before: Disk, first: nat, end: nat)
      requires hash.Some? && |disk| == |before|
      reads this
    {
      forall c :: 0 <= c < |disk| && disk[c] != before[c] ==>
                    first <= c && c * BLOCK < end && c < |hash.value| * FANOUT && Intact(c)
    }

    // The block has its hash, or is known to be zero and not looked at.
    predicate Settled(c: nat)
      reads this
    {
      && hash.Some? && c < |disk| && c < |hash.value| * FANOUT
      && (Intact(c) || (skipZeros && IsZero(c)))
    }

    predicate SettledBetween(first: nat, curr: nat)
      reads this
    {
      forall c :: first <= c < curr ==> Settled(c)
    }

    // Reads the next block of a range.
    method ReadNext(curr: nat, ghost before: Disk, ghost first: nat, ghost end: nat) returns (r: Option<Block>)
      requires hash.Some? && curr < |hash.value| * FANOUT && curr < |disk| == |before|
      requires first <= curr && curr * BLOCK < end && RepairsOnly(before, first, end)
      modifies this`disk
      ensures |disk| == |old(disk)| && (old(Intact(curr)) || !readWrite ==> disk == old(disk))
      ensures r.Some? ==> h(r.value) == DigestAt(hash.value, curr)
      ensures r.Some? <==> old(Served(curr))
      ensures RepairsOnly(before, first, end)
      ensures r.Some? && readWrite && old(SettledBetween(first, curr)) ==> SettledBetween(first, curr + 1)
    {
      hide DigestAt;
      r := ReadBlock(curr);
      forall c | first <= c < curr && old(Settled(c)) ensures Settled(c) {
      }
    }

    // Reads `count` bytes from `offset`. Every byte it returns from the data is the byte of the image.
    method VerityRead(offset: nat, count: nat, ghost data: seq<Block>) returns (r: Option<seq<Byte>>)
      requires dataSize <= |disk| * BLOCK
      requires hash.Some? ==> |hash.value| == hashDataBlocks && Vouches(h, hash.value, data)
      modifies this`disk
      ensures |disk| == |old(disk)|
      ensures r.Some? ==> offset < dataSize && offset + count <= dataSize && hash.Some?
      ensures r.Some? ==> |r.value| == count && IsPartOf(r.value, offset, data)
      ensures offset < dataSize && offset + count <= dataSize && hash.Some? && old(IntactTo(offset + count)) ==> r.Some?
      ensures hash.None? || !readWrite ==> disk == old(disk)
      ensures hash.Some? ==> RepairsOnly(old(disk), offset / BLOCK, offset + count)
      ensures r.Some? && readWrite && count > 0 ==>
                forall c :: offset / BLOCK <= c && c * BLOCK < offset + count ==> Settled(c)
    {
      if offset >= dataSize || offset + count > dataSize || hash.None? {
        return None;
      }
      var curr, coff, left := offset / BLOCK, offset % BLOCK, count;
      var dest: seq<Byte> := [];
      while left > 0
        invariant |disk| == |old(disk)| && 0 <= left && left + |dest| == count && 0 <= coff < BLOCK
        invariant 0 <= curr && (left > 0 ==> curr * BLOCK + coff == offset + |dest|)
        invariant IsPartOf(dest, offset, data)
        invariant old(IntactTo(offset + count)) || !readWrite ==> disk == old(disk)
        invariant RepairsOnly(old(disk), offset / BLOCK, offset + count)
        invariant offset / BLOCK <= curr && (left == 0 && count > 0 ==> offset + count <= curr * BLOCK)
        invariant readWrite ==> SettledBetween(offset / BLOCK, curr)
      {
        // the last hash that the copied blocks hold
        if hashDataBlocks == 0 || curr > (hashDataBlocks * BLOCK - DIGEST) / DIGEST {
          return None;
        }
        assert curr < |disk| && curr < |hash.value| * FANOUT;
        var block := ReadNext(curr, old(disk), offset / BLOCK, offset + count);
        if block.None? {
          return None;
        }
        var copy := if BLOCK - coff > left then left else BLOCK - coff;
        ExtendPart(h, hash.value, data, dest, offset, curr, coff, copy, block.value);
        dest := dest + block.value[coff..coff + copy];
        left := left - copy;
        coff := 0;
        curr := curr + 1;
      }
      return Some(dest);
    }

    // From a root hash to bytes: a tree accepted as it lies on disk, then a read.
    method VerifyAndRead(root: Digest, offset: nat, count: nat, ghost data: seq<Block>, ghost levels: seq<seq<Block>>)
      returns (r: Option<seq<Byte>>, corrected: bool)
      requires dataSize <= |disk| * BLOCK && Tree(dataBlocks) * BLOCK < 0x1_0000_0000 && hash.None?
      requires dataBlocks == |data| && IsTree(h, data, levels) && |levels[0]| == 1 && root == h(levels[0][0])
      requires SecureAll(h, data) && forall k :: 0 <= k < |levels| ==> SecureAll(h, levels[k])
      modifies this
      ensures r.Some? && !corrected ==> |r.value| == count && IsPartOf(r.value, offset, data)
      ensures |data| <= FANOUT ==> r.None?
      ensures old(Undamaged(data, levels)) && Within(offset, count, |data|) ==> r.Some?
    {
      hide IsLevels, Chained, Start, Hashes, Total, Tree, HoldsTree, Vouches;
      var ok;
      ghost var l;
      ghost var disk0 := disk;
      ok, corrected, l := VerifyTree(root);
      LevelsUnique(|data|, l, |levels|);
      if HoldsTree(disk0, hashStart, |data|, levels) {
        TreeIsChained(h, disk0, hashStart, data, levels, |levels|);
      }
      if !ok || corrected {
        return None, corrected;
      }
      ChainVouches(h, disk, hashStart, data, levels, l, hash.value);
      if HoldsData(disk0, data) && offset + count <= |data| * BLOCK {
        DataIntact(data, offset + count);
      }
      r := VerityRead(offset, count, data);
    }

    // A range of bytes of the data, in an image that has room for its tree and more than one level of it.
    predicate Within(offset: nat, count: nat, n: nat) {
      && n > FANOUT && (hashStart + Tree(dataBlocks)) * BLOCK <= dataSize
      && offset < dataSize && offset + count <= dataSize && offset + count <= n * BLOCK
    }

    // The image and its tree are on the disk as they should be.
    ghost predicate Undamaged(data: seq<Block>, levels: seq<seq<Block>>)
      reads this
    {
      HoldsTree(disk, hashStart, |data|, levels) && HoldsData(disk, data)
    }

    lemma DataIntact(data: seq<Block>, end: nat)
      requires hash.Some? && Vouches(h, hash.value, data) && HoldsData(disk, data) && end <= |data| * BLOCK
      ensures IntactTo(end)
    {
    }
  }

  lemma RootLevel(n: nat, l: nat)
    requires IsLevels(n, l) && l > 1
    ensures Start(n, l, 0) == 0 && Start(n, l, 1) == 1 && Blocks(n, l, 0) == 1
  {
    assert Pow(1) < n;
    TopAndBottom(n, l);
    assert Start(n, l, 1) == Start(n, l, 0) + Blocks(n, l, 0);
  }

  lemma ChainRoot(h: Hash, disk: Disk, start: nat, n: nat, l: nat, root: Digest)
    requires l > 1 && start < |disk| && disk[start].Some? && h(disk[start].value) == root
    requires Start(n, l, 0) == 0 && Blocks(n, l, 0) == 1
    ensures Chained(h, disk, start, n, l, root, 1)
    ensures Readable(disk, start + Start(n, l, 0), Blocks(n, l, 0))
  {
  }

  lemma TreeHasRoot(n: nat)
    ensures Tree(n) > 0 || n == 0
  {
  }

  // One level more.
  lemma ChainNext(h: Hash, disk: Disk, start: nat, n: nat, l: nat, root: Digest, i: nat)
    requires 0 < i < l && Chained(h, disk, start, n, l, root, i)
    ensures Readable(disk, start + Start(n, l, i - 1), Blocks(n, l, i - 1))
    ensures Chained(h, disk, start, n, l, root, i + 1) <==>
              Readable(disk, start + Start(n, l, i), Blocks(n, l, i))
              && Matches(h, BlocksOf(disk, start + Start(n, l, i - 1), Blocks(n, l, i - 1)),
                         BlocksOf(disk, start + Start(n, l, i), Blocks(n, l, i)))
  {
  }

  lemma BrokenChain(h: Hash, disk: Disk, start: nat, n: nat, l: nat, root: Digest, i: nat)
    requires i <= l && !Chained(h, disk, start, n, l, root, i)
    ensures !Chained(h, disk, start, n, l, root, l)
  {
    if Chained(h, disk, start, n, l, root, l) {
      ChainPrefix(h, disk, start, n, l, root, l, i);
    }
  }

  // A chain starts with a block that has the root hash.
  lemma ChainTop(h: Hash, disk: Disk, start: nat, n: nat, l: nat, root: Digest)
    requires IsLevels(n, l) && start < |disk|
    ensures Chained(h, disk, start, n, l, root, l) && n > FANOUT ==> disk[start].Some? && h(disk[start].value) == root
  {
    if Chained(h, disk, start, n, l, root, l) && n > FANOUT {
      TopAndBottom(n, l);
      RootLevel(n, l);
      ChainPrefix(h, disk, start, n, l, root, l, 1);
      ChainUnfold(h, disk, start, n, l, root, 0);
    }
  }

  lemma BottomBlocks(n: nat, l: nat)
    requires IsLevels(n, l) && l > 1
    ensures Blocks(n, l, l - 1) == HashBlocks(n) && n > FANOUT
  {
    assert Pow(1) < n;
    TopAndBottom(n, l);
  }

  lemma LevelStep(n: nat, l: nat, i: nat)
    requires IsLevels(n, l) && 0 < i < l
    ensures Start(n, l, i - 1) + Blocks(n, l, i - 1) == Start(n, l, i)
    ensures Start(n, l, i) + Blocks(n, l, i) == Start(n, l, i + 1) <= Total(n, l)
    ensures Blocks(n, l, i) <= Blocks(n, l, i - 1) * FANOUT
    ensures Blocks(n, l, i) == Blocks(n, l, l - 1) <==> i == l - 1
  {
    StartMonotone(n, l, i - 1);
    StartMonotone(n, l, i);
    OnlyBottomLevelIsCopied(n, l, i);
    if Blocks(n, l, i) > 0 {
      ParentInside(n, l, i, Blocks(n, l, i) - 1);
    }
  }

  // A tree of one level has no data hashes to copy, and is turned down.
  lemma NoDataHashes(n: nat, l: nat)
    requires IsLevels(n, l) && (l > 1 ==> Blocks(n, l, l - 1) == 0)
    ensures n <= FANOUT
  {
    if n > 0 {
      TopAndBottom(n, l);
    }
  }

  lemma PatchPieces(b: Block, j: nat, d: Digest)
    requires j < FANOUT
    ensures forall i :: 0 <= i < FANOUT ==> Piece(Patch(b, j, d), i) == if i == j then d else Piece(b, i)
  {
  }

  // A block with one of its hashes replaced.
  function Patch(b: Block, j: nat, d: Digest): Block
    requires j < FANOUT
  {
    b[..j * DIGEST] + d + b[j * DIGEST + DIGEST..]
  }
}
