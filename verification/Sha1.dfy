/**
 The streaming SHA-1 of ext4_utils/sha1.c: any way to feed a message gives the digest of section 6.1 of
 FIPS 180-4, with the padding of section 5.1.1.
 */
module Sha1 {
  import opened Sha1Block
  import Arith

  const U32 := 0x1_0000_0000

  /* The standard. */

  // Section 5.3.1.
  const INIT := Regs(0x67452301, 0xEFCDAB89, 0x98BADCFE, 0x10325476, 0xC3D2E1F0)

  // The words of the bytes 01, 23, ... and of the same bytes backwards, lowest byte first.
  lemma InitWords()
    ensures INIT.a == LittleEndian(0x01, 0x23, 0x45, 0x67) && INIT.b == LittleEndian(0x89, 0xAB, 0xCD, 0xEF)
    ensures INIT.c == LittleEndian(0xFE, 0xDC, 0xBA, 0x98) && INIT.d == LittleEndian(0x76, 0x54, 0x32, 0x10)
    ensures INIT.e == LittleEndian(0xF0, 0xE1, 0xD2, 0xC3)
  {
  }

  // The hash value after the blocks of a message.
  function Absorb(msg: seq<bv8>): Regs
    requires |msg| % 64 == 0
  {
    if |msg| == 0 then INIT else Compress(Absorb(msg[..|msg| - 64]), msg[|msg| - 64..])
  }

  // The number of zero bytes of the padding: the least that leaves 8 bytes free in the last block.
  function ZeroCount(n: nat): (z: nat)
    ensures z < 64 && (n + 1 + z) % 64 == 56
  {
    (119 - n % 64) % 64
  }

  function Zeros(n: nat): (r: seq<bv8>)
    ensures |r| == n
  {
    seq(n, _ => 0)
  }

  function Byte(n: nat): bv8 {
    (n % 256) as bv8
  }

  // The k low bytes of a number, the highest first.
  function Bytes(n: nat, k: nat): (r: seq<bv8>)
    ensures |r| == k
  {
    if k == 0 then [] else Bytes(n / 256, k - 1) + [Byte(n)]
  }

  // The number that bytes stand for, the highest first.
  function Number(bytes: seq<bv8>): nat {
    if |bytes| == 0 then 0 else 256 * Number(bytes[..|bytes| - 1]) + bytes[|bytes| - 1] as nat
  }

  lemma ByteOf(b: bv8)
    ensures (b as nat) as bv8 == b
  {
  }

  lemma NextByte(n: nat, b: bv8)
    ensures Byte(256 * n + b as nat) == b && (256 * n + b as nat) / 256 == n
  {
    ByteOf(b);
    assert (256 * n + b as nat) % 256 == b as nat;
  }

  // The bytes of a number are the ones that stand for it.
  lemma {:induction false} BytesOfNumber(bytes: seq<bv8>)
    ensures Bytes(Number(bytes), |bytes|) == bytes
  {
    hide Byte;
    if |bytes| > 0 {
      var n := |bytes| - 1;
      BytesOfNumber(bytes[..n]);
      NextByte(Number(bytes[..n]), bytes[n]);
    }
  }

  // Section 5.1.1, with the eight bytes of the length given.
  function PaddedWith(msg: seq<bv8>, length: seq<bv8>): (r: seq<bv8>)
    requires |length| == 8
    ensures |r| % 64 == 0
  {
    msg + [0x80] + Zeros(ZeroCount(|msg|)) + length
  }

  function Padded(msg: seq<bv8>): (r: seq<bv8>)
    ensures |r| % 64 == 0
  {
    PaddedWith(msg, Bytes(8 * |msg|, 8))
  }

  // Twenty bytes that are the five words.
  predicate IsDigest(d: seq<bv8>, r: Regs) {
    && |d| == 20
    && BigEndian(d[0], d[1], d[2], d[3]) == r.a && BigEndian(d[4], d[5], d[6], d[7]) == r.b
    && BigEndian(d[8], d[9], d[10], d[11]) == r.c && BigEndian(d[12], d[13], d[14], d[15]) == r.d
    && BigEndian(d[16], d[17], d[18], d[19]) == r.e
  }

  /* Counting bits in two words. */

  lemma LowCount(n: nat, len: nat)
    ensures (8 * n % U32 + 8 * len % U32) % U32 == 8 * (n + len) % U32
  {
  }

  lemma InBuffer(n: nat)
    ensures 8 * n % U32 / 8 % 64 == n % 64
  {
    EightTimes(n);
    DivEight(n % 0x2000_0000);
    ModMod(n);
  }

  lemma DivEight(m: nat)
    ensures 8 * m / 8 == m
  {
  }

  lemma ModMod(n: nat)
    ensures n % 0x2000_0000 % 64 == n % 64
  {
  }

  lemma EightTimes(n: nat)
    ensures 8 * n % U32 == 8 * (n % 0x2000_0000)
  {
  }

  // Whether adding the length carries out of the low word.
  predicate Carries(n: nat, len: nat) {
    8 * n % U32 + 8 * len % U32 >= U32
  }

  lemma HighCount(n: nat, len: nat)
    ensures 8 * (n + len) / U32 == 8 * n / U32 + 8 * len / U32 + if Carries(n, len) then 1 else 0
    ensures 8 * len / U32 == len / 0x2000_0000
    ensures ((8 * n % U32 + 8 * len % U32) % U32 < 8 * n % U32) == Carries(n, len)
  {
  }

  // The high word after an update: what the length adds to it is added only if the low word carries.
  function HighAfter(n: nat, len: nat, high: nat): nat {
    if Carries(n, len) then (high + len / 0x2000_0000 + 1) % U32 else high
  }

  // The high word is right after an update if and only if it is below 2^29 bytes or carries.
  lemma CountIff(n: nat, len: nat, high: nat)
    requires len < U32 && high == 8 * n / U32 % U32
    ensures HighAfter(n, len, high) == 8 * (n + len) / U32 % U32 <==> len < 0x2000_0000 || Carries(n, len)
  {
    HighCount(n, len);
    var a, b := 8 * n / U32, len / 0x2000_0000;
    ModAdd(a, b);
    ModAdd(a, b + 1);
  }

  lemma ModAdd(a: nat, b: nat)
    requires b < U32
    ensures (a % U32 + b) % U32 == (a + b) % U32
    ensures a % U32 == (a + b) % U32 <==> b == 0
  {
  }

  /* Blocks of a message. */

  // The bytes of whole blocks.
  function Full(n: nat): (r: nat)
    ensures r <= n && r % 64 == 0 && n - r == n % 64
  {
    n - n % 64
  }

  lemma AbsorbNext(msg: seq<bv8>, k: nat)
    requires k % 64 == 0 && k + 64 <= |msg|
    ensures Absorb(msg[..k + 64]) == Compress(Absorb(msg[..k]), msg[k..k + 64])
  {
    var m := msg[..k + 64];
    assert m[..|m| - 64] == msg[..k] && m[|m| - 64..] == msg[k..k + 64];
  }

  method CopyIn(buffer: array<bv8>, j: nat, data: seq<bv8>)
    requires j + |data| <= buffer.Length
    modifies buffer
    ensures buffer[..] == old(buffer[..j]) + data + old(buffer[j + |data|..])
  {
    for i := 0 to |data|
      invariant buffer[..] == old(buffer[..j]) + data[..i] + old(buffer[j + i..])
    {
      buffer[j + i] := data[i];
    }
  }

  // The state has taken in the whole blocks of a message and the buffer holds the rest.
  predicate Streams(state: Regs, buf: seq<bv8>, msg: seq<bv8>) {
    && |buf| == 64 && state == Absorb(msg[..Full(|msg|)])
    && buf[..|msg| % 64] == msg[Full(|msg|)..]
  }

  // The data fits in the buffer.
  lemma FitsIn(state: Regs, buf: seq<bv8>, msg: seq<bv8>, data: seq<bv8>)
    requires Streams(state, buf, msg) && |msg| % 64 + |data| <= 63
    ensures Streams(state, buf[..|msg| % 64] + data + buf[|msg| % 64 + |data|..], msg + data)
  {
    hide Absorb;
    var all := msg + data;
    assert Full(|all|) == Full(|msg|);
    assert all[..Full(|msg|)] == msg[..Full(|msg|)];
    assert all[Full(|msg|)..] == msg[Full(|msg|)..] + data;
  }

  // The data fills up the buffer.
  lemma FillsUp(state: Regs, buf: seq<bv8>, msg: seq<bv8>, data: seq<bv8>)
    requires Streams(state, buf, msg) && |msg| % 64 + |data| > 63
    ensures var i, all := 64 - |msg| % 64, msg + data;
            && (|msg| + i) % 64 == 0 && |buf[..|msg| % 64] + data[..i] + buf[64..]| == 64
            && Compress(state, buf[..|msg| % 64] + data[..i] + buf[64..]) == Absorb(all[..|msg| + i])
  {
    hide Absorb, Compress;
    var i, all, full := 64 - |msg| % 64, msg + data, Full(|msg|);
    AbsorbNext(all, full);
    assert all[..full] == msg[..full];
    assert all[full..full + 64] == msg[full..] + data[..i];
    assert buf[..|msg| % 64] + data[..i] + buf[64..] == msg[full..] + data[..i];
  }

  lemma WithinData(msg: seq<bv8>, data: seq<bv8>, i: nat)
    requires i + 64 <= |data|
    ensures (msg + data)[|msg| + i..|msg| + i + 64] == data[i..i + 64]
  {
    hide *;
  }

  lemma BlockOf(msg: seq<bv8>, data: seq<bv8>, i: nat)
    requires i + 64 <= |data| && (|msg| + i) % 64 == 0
    ensures Absorb((msg + data)[..|msg| + i + 64]) == Compress(Absorb((msg + data)[..|msg| + i]), data[i..i + 64])
  {
    hide Absorb, Compress;
    AbsorbNext(msg + data, |msg| + i);
    WithinData(msg, data, i);
  }

  lemma LeftOver(state: Regs, buf: seq<bv8>, msg: seq<bv8>, data: seq<bv8>, i: nat)
    requires |buf| == 64 && i <= |data| && |data| - i < 64 && (|msg| + i) % 64 == 0
    requires state == Absorb((msg + data)[..|msg| + i])
    ensures Streams(state, data[i..] + buf[|data| - i..], msg + data)
  {
    hide Absorb;
    var all := msg + data;
    Remainder(|msg| + i, |data| - i);
    assert Full(|all|) == |msg| + i;
    assert all[|msg| + i..] == data[i..];
  }

  lemma Remainder(a: nat, b: nat)
    requires a % 64 == 0 && b < 64
    ensures (a + b) % 64 == b
  {
  }

  class Context {
    var state: Regs
    // The number of bits, low word and high word.
    var count0: nat
    var count1: nat
    const buffer: array<bv8>
    // All that was fed in.
    ghost var msg: seq<bv8>

    ghost predicate Valid()
      reads this, buffer
    {
      count0 == 8 * |msg| % U32 && Streams(state, buffer[..], msg)
    }

    // The high word counts too.
    ghost predicate CountOk()
      reads this
    {
      count1 == 8 * |msg| / U32 % U32
    }

    constructor ()
      ensures Valid() && CountOk() && msg == [] && fresh(buffer)
    {
      state := Regs(0x67452301, 0xEFCDAB89, 0x98BADCFE, 0x10325476, 0xC3D2E1F0);
      count0, count1, msg := 0, 0, [];
      buffer := new bv8[64];
    }

    // Adds to the number of bits; returns how many bytes the buffer holds.
    method AddCount(len: nat, ghost n: nat) returns (j: nat)
      requires len < U32 && count0 == 8 * n % U32
      modifies this`count0, this`count1
      ensures count0 == 8 * (n + len) % U32 && j == n % 64
      ensures old(count1) == 8 * n / U32 % U32 ==>
                (count1 == 8 * (n + len) / U32 % U32 <==> len < 0x2000_0000 || Carries(n, len))
    {
      LowCount(n, len);
      HighCount(n, len);
      InBuffer(n);
      if count1 == 8 * n / U32 % U32 {
        CountIff(n, len, count1);
      }
      j := count0;
      count0 := (count0 + 8 * len % U32) % U32;
      if count0 < j {
        count1 := (count1 + len / 0x2000_0000 + 1) % U32;
      }
      j := j / 8 % 64;
    }

    // Takes in whole blocks: the first completes the buffer, the others come straight from the data.
    method TakeBlocks(data: seq<bv8>, j: nat) returns (i: nat)
      requires Streams(state, buffer[..], msg) && j == |msg| % 64 && j + |data| > 63
      modifies this`state, buffer
      ensures i <= |data| && |data| - i < 64 && (|msg| + i) % 64 == 0 && state == Absorb((msg + data)[..|msg| + i])
    {
      hide Streams, Absorb, Compress;
      i := 64 - j;
      StreamsLength(state, buffer[..], msg);
      FillsUp(state, buffer[..], msg, data);
      CopyIn(buffer, j, data[..i]);
      state := Transform(state, buffer[..]);
      while i + 63 < |data|
        invariant i <= |data| && (|msg| + i) % 64 == 0 && state == Absorb((msg + data)[..|msg| + i])
      {
        BlockOf(msg, data, i);
        state := Transform(state, data[i..i + 64]);
        i := i + 64;
      }
    }

    method Update(data: seq<bv8>)
      requires Valid() && |data| < U32 - 64
      modifies this, buffer
      ensures Valid() && msg == old(msg) + data
      ensures old(CountOk()) ==> (CountOk() <==> |data| < 0x2000_0000 || Carries(|old(msg)|, |data|))
    {
      hide Streams, Absorb, Compress, Carries;
      var j := AddCount(|data|, |msg|);
      var i := 0;
      StreamsLength(state, buffer[..], msg);
      if j + |data| > 63 {
        i := TakeBlocks(data, j);
        j := 0;
        LeftOver(state, buffer[..], msg, data, i);
        assert data[i..] + buffer[|data| - i..] == buffer[..0] + data[i..] + buffer[|data| - i..];
      } else {
        FitsIn(state, buffer[..], msg, data);
        assert data[0..] == data;
      }
      assert Streams(state, buffer[..j] + data[i..] + buffer[j + |data| - i..], msg + data);
      CopyIn(buffer, j, data[i..]);
      msg := msg + data;
    }

    // The eight bytes of the count, high word first.
    method FinalCount() returns (finalCount: seq<bv8>)
      ensures finalCount == Bytes(count1, 4) + Bytes(count0, 4)
    {
      hide Shifted, Bytes;
      finalCount := [];
      for i := 0 to 8
        invariant |finalCount| == i
        invariant forall k :: 0 <= k < i ==> finalCount[k] == Shifted(if k >= 4 then count0 else count1, 3 - k % 4)
      {
        finalCount := finalCount + [Shifted(if i >= 4 then count0 else count1, 3 - i % 4)];
      }
      FourBytes(count1);
      FourBytes(count0);
      assert finalCount == [Shifted(count1, 3), Shifted(count1, 2), Shifted(count1, 1), Shifted(count1, 0),
                            Shifted(count0, 3), Shifted(count0, 2), Shifted(count0, 1), Shifted(count0, 0)];
    }

    // Feeds the padding, with the count taken before it.
    method Pad()
      requires Valid()
      modifies this, buffer
      ensures Valid() && msg == PaddedWith(old(msg), Bytes(old(count1), 4) + Bytes(old(count0), 4))
    {
      hide Streams, Carries, ZeroCount;
      ghost var before := msg;
      var finalCount := FinalCount();
      Update([0x80]);
      ghost var z := 0;
      InBuffer(|msg|);
      assert msg == before + [0x80] + Zeros(0);
      while count0 / 8 % 64 * 8 != 448
        invariant Valid() && z <= ZeroCount(|before|) && msg == before + [0x80] + Zeros(z)
        invariant count0 / 8 % 64 == (|before| + 1 + z) % 64
        decreases ZeroCount(|before|) - z
      {
        NotYetFull(|before|, z);
        Update([0]);
        assert Zeros(z) + [0] == Zeros(z + 1);
        z := z + 1;
        InBuffer(|msg|);
      }
      FullAt(|before|, z);
      Update(finalCount);
    }

    method Final() returns (digest: seq<bv8>)
      requires Valid()
      modifies this, buffer
      ensures IsDigest(digest, Absorb(PaddedWith(old(msg), Bytes(old(count1), 4) + Bytes(old(count0), 4))))
      ensures old(CountOk()) && |old(msg)| < 0x2000_0000_0000_0000 ==> IsDigest(digest, Absorb(Padded(old(msg))))
    {
      hide Streams, Absorb, IsDigest, PaddedWith, Bytes, WordByte;
      ghost var before, high, low := msg, count1, count0;
      Pad();
      WholeBlocks(state, buffer[..], msg);
      if high == 8 * |before| / U32 % U32 && |before| < 0x2000_0000_0000_0000 {
        CountBytes(|before|, high, low);
      }
      digest := [];
      var words := [state.a, state.b, state.c, state.d, state.e];
      for i := 0 to 20
        invariant |digest| == i && forall k :: 0 <= k < i ==> digest[k] == WordByte(words[k / 4], k % 4)
      {
        digest := digest + [WordByte(words[i / 4], i % 4)];
      }
      DigestBytes(digest, state);
    }
  }

  // The byte of a word that is k bytes up.
  function Shifted(n: nat, k: nat): bv8
    requires k < 4
  {
    Byte(if k == 0 then n else if k == 1 then n / 256 else if k == 2 then n / 65536 else n / 16777216)
  }

  lemma Shifts(n: nat)
    ensures n / 256 / 256 == n / 65536 && n / 65536 / 256 == n / 16777216 && n / 16777216 / 256 == n / U32
  {
  }

  lemma FourBytes(n: nat)
    ensures Bytes(n, 4) == [Shifted(n, 3), Shifted(n, 2), Shifted(n, 1), Shifted(n, 0)]
  {
    UpperBytes(n, 0);
    assert Bytes(n / U32, 0) == [];
  }

  // The count in two words is the 64-bit length of section 5.1.1.
  lemma CountBytes(n: nat, high: nat, low: nat)
    requires n < 0x2000_0000_0000_0000 && high == 8 * n / U32 % U32 && low == 8 * n % U32
    ensures Bytes(high, 4) + Bytes(low, 4) == Bytes(8 * n, 8)
  {
    assert high == 8 * n / U32;
    TwoWords(8 * n);
  }

  lemma TwoWords(n: nat)
    ensures Bytes(n, 8) == Bytes(n / U32, 4) + Bytes(n % U32, 4)
  {
    hide Bytes, Shifted;
    FourBytes(n % U32);
    UpperBytes(n, 4);
    LowBytes(n);
  }

  // The low bytes come last.
  lemma UpperBytes(n: nat, k: nat)
    ensures Bytes(n, k + 4) == Bytes(n / U32, k) + [Shifted(n, 3), Shifted(n, 2), Shifted(n, 1), Shifted(n, 0)]
  {
    hide Byte;
    Shifts(n);
    var q1, q2, q3 := n / 256, n / 65536, n / 16777216;
    LastByte(n, k + 4);
    LastByte(q1, k + 3);
    LastByte(q2, k + 2);
    LastByte(q3, k + 1);
  }

  lemma LastByte(n: nat, k: nat)
    requires k > 0
    ensures Bytes(n, k) == Bytes(n / 256, k - 1) + [Byte(n)]
  {
  }

  lemma LowBytes(n: nat)
    ensures forall k :: 0 <= k < 4 ==> Shifted(n % U32, k) == Shifted(n, k)
  {
    hide Byte;
    var h, l := n / U32, n % U32;
    LowByte(h, l, 16777216, 256);
    LowByte(h, l, 65536, 65536);
    LowByte(h, l, 256, 16777216);
    LowByte(h, l, 1, U32);
    SameByte(n / 16777216, l / 16777216);
    SameByte(n / 65536, l / 65536);
    SameByte(n / 256, l / 256);
    SameByte(n, l);
  }

  lemma SameByte(a: nat, b: nat)
    requires a % 256 == b % 256
    ensures Byte(a) == Byte(b)
  {
  }

  // A higher word does not change the bytes of the lower one.
  lemma LowByte(h: nat, l: nat, s: nat, m: nat)
    requires s > 0 && m % 256 == 0 && s * m == U32
    ensures (U32 * h + l) / s % 256 == l / s % 256
  {
    var q, r := l / s, l % s;
    assert l == s * q + r;
    Regroup(h, s, m, q);
    Arith.QuotientUnique(U32 * h + l, s, m * h + q, r);
    WholeBytes(m, h, q);
  }

  lemma Regroup(h: nat, s: nat, m: nat, q: nat)
    requires s * m == U32
    ensures U32 * h + s * q == s * (m * h + q)
  {
    assert s * (m * h) == s * m * h;
  }

  lemma WholeBytes(m: nat, h: nat, q: nat)
    requires m % 256 == 0
    ensures (m * h + q) % 256 == q % 256
  {
    var c := m / 256;
    assert m * h == 256 * (c * h);
    Multiple(c * h, q);
  }

  lemma Multiple(x: nat, q: nat)
    ensures (256 * x + q) % 256 == q % 256
  {
  }

  lemma NotYetFull(n: nat, z: nat)
    requires z <= ZeroCount(n) && (n + 1 + z) % 64 * 8 != 448
    ensures z < ZeroCount(n)
  {
  }

  lemma FullAt(n: nat, z: nat)
    requires z <= ZeroCount(n) && (n + 1 + z) % 64 * 8 == 448
    ensures z == ZeroCount(n)
  {
  }

  lemma WholeBlocks(state: Regs, buf: seq<bv8>, msg: seq<bv8>)
    requires Streams(state, buf, msg) && |msg| % 64 == 0
    ensures state == Absorb(msg)
  {
    assert msg[..Full(|msg|)] == msg;
  }

  // Byte k of a word, the highest first.
  function WordByte(w: bv32, k: nat): bv8
    requires k < 4
  {
    if k == 0 then ((w >> 24) & 255) as bv8
    else if k == 1 then ((w >> 16) & 255) as bv8
    else if k == 2 then ((w >> 8) & 255) as bv8
    else (w & 255) as bv8
  }

  lemma WordFromBytes(w: bv32)
    ensures BigEndian(WordByte(w, 0), WordByte(w, 1), WordByte(w, 2), WordByte(w, 3)) == w
  {
  }

  lemma DigestBytes(digest: seq<bv8>, r: Regs)
    requires |digest| == 20
    requires var words := [r.a, r.b, r.c, r.d, r.e]; forall k :: 0 <= k < 20 ==> digest[k] == WordByte(words[k / 4], k % 4)
    ensures IsDigest(digest, r)
  {
    hide WordByte, BigEndian;
    WordFromBytes(r.a);
    WordFromBytes(r.b);
    WordFromBytes(r.c);
    WordFromBytes(r.d);
    WordFromBytes(r.e);
  }

  function Concat(parts: seq<seq<bv8>>): seq<bv8> {
    if |parts| == 0 then [] else Concat(parts[..|parts| - 1]) + parts[|parts| - 1]
  }

  // However a message is cut into updates below 2^29 bytes, the digest is that of the whole message.
  method HashParts(parts: seq<seq<bv8>>) returns (digest: seq<bv8>)
    requires (forall i :: 0 <= i < |parts| ==> |parts[i]| < 0x2000_0000) && |Concat(parts)| < 0x2000_0000_0000_0000
    ensures IsDigest(digest, Absorb(Padded(Concat(parts))))
  {
    hide IsDigest, Absorb, Padded, PaddedWith, Bytes, Carries, Streams;
    var context := new Context();
    for i := 0 to |parts|
      invariant context.Valid() && context.CountOk() && context.msg == Concat(parts[..i]) && fresh(context.buffer)
    {
      assert parts[..i + 1][..i] == parts[..i];
      context.Update(parts[i]);
    }
    assert parts[..|parts|] == parts;
    digest := context.Final();
  }

  // A context fed 2^29 bytes at once counts none of the bits in its high word, which should be 1.
  method LongUpdate(data: seq<bv8>) returns (context: Context)
    requires |data| == 0x2000_0000
    ensures context.Valid() && context.msg == data && 8 * |data| / U32 % U32 == 1 && context.count1 != 1
  {
    hide Streams;
    context := new Context();
    context.Update(data);
    assert [] + data == data;
  }

  lemma StreamsLength(state: Regs, buf: seq<bv8>, msg: seq<bv8>)
    requires Streams(state, buf, msg)
    ensures |buf| == 64
  {
  }
}
