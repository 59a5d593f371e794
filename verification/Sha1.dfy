/** SHA-1 as FIPS 180-4 defines it. */
module Sha1Standard {
  type Word = bv32

  type Byte = b: int | 0 <= b < 256

  datatype State = State(a: Word, b: Word, c: Word, d: Word, e: Word)

  /** The rotation of section 3.2. */
  function RotL(x: Word, n: nat): Word
    requires n < 32
  {
    (x << n) | (x >> (32 - n))
  }

  // Section 4.1.1.

  function Ch(x: Word, y: Word, z: Word): Word {
    (x & y) ^ (!x & z)
  }

  function Parity(x: Word, y: Word, z: Word): Word {
    x ^ y ^ z
  }

  function Maj(x: Word, y: Word, z: Word): Word {
    (x & y) ^ (x & z) ^ (y & z)
  }

  function RoundFunction(t: nat, x: Word, y: Word, z: Word): Word {
    if t < 20 then Ch(x, y, z) else if t < 40 then Parity(x, y, z) else if t < 60 then Maj(x, y, z) else Parity(x, y, z)
  }

  /** Section 4.2.1. */
  function RoundConstant(t: nat): Word {
    if t < 20 then 0x5a827999 else if t < 40 then 0x6ed9eba1 else if t < 60 then 0x8f1bbcdc else 0xca62c1d6
  }

  /** Section 5.3.1. */
  function InitialHash(): State {
    State(0x67452301, 0xefcdab89, 0x98badcfe, 0x10325476, 0xc3d2e1f0)
  }

  /** Four bytes as a word, most significant first. */
  function WordOf(b0: Byte, b1: Byte, b2: Byte, b3: Byte): Word {
    ((b0 as Word) << 24) | ((b1 as Word) << 16) | ((b2 as Word) << 8) | (b3 as Word)
  }

  /** The first `n` words of the message schedule of section 6.1.2, step 1. */
  function Schedule(block: seq<Byte>, n: nat): (w: seq<Word>)
    requires |block| == 64
    ensures |w| == n
    decreases n, |block|
  {
    if n == 0 then [] else
      var w := Schedule(block, n - 1);
      var t := n - 1;
      w + [if t < 16 then WordOf(block[4 * t], block[4 * t + 1], block[4 * t + 2], block[4 * t + 3])
           else Stretch(w[t - 3], w[t - 8], w[t - 14], w[t - 16])]
  }

  function Stretch(w3: Word, w8: Word, w14: Word, w16: Word): Word {
    RotL(w3 ^ w8 ^ w14 ^ w16, 1)
  }

  /** One round of step 3. */
  function Round(s: State, t: nat, w: Word): State {
    State(Mix(s.a, RoundFunction(t, s.b, s.c, s.d), s.e, RoundConstant(t), w), s.a, RotL(s.b, 30), s.c, s.d)
  }

  function Mix(a: Word, f: Word, e: Word, k: Word, w: Word): Word {
    RotL(a, 5) + f + e + k + w
  }

  /** The state after `t` rounds over the words `w`. */
  function Rounds(s: State, w: seq<Word>, t: nat): State
    requires t <= |w|
    decreases t, |w|
  {
    if t == 0 then s else Round(Rounds(s, w, t - 1), t - 1, w[t - 1])
  }

  /** Step 4: the rounds' result added to the hash, word by word. */
  function Compress(s: State, block: seq<Byte>): State
    requires |block| == 64
  {
    Added(s, Rounds(s, Schedule(block, 80), 80))
  }

  function Added(s: State, r: State): State {
    State(s.a + r.a, s.b + r.b, s.c + r.c, s.d + r.d, s.e + r.e)
  }

  /** The hash of whole blocks; a shorter remainder is left alone. */
  function HashBlocks(s: State, bytes: seq<Byte>): State
    decreases |bytes|
  {
    if |bytes| < 64 then s else HashBlocks(Compress(s, bytes[..64]), bytes[64..])
  }

  lemma HashOne(s: State, block: seq<Byte>)
    requires |block| == 64
    ensures HashBlocks(s, block) == Compress(s, block)
  {
    assert block[..64] == block && block[64..] == [];
  }

  /** `count` bytes, most significant first. */
  function BigEndian(x: nat, count: nat): (r: seq<Byte>)
    ensures |r| == count
    decreases count, x
  {
    if count == 0 then [] else BigEndian(x / 256, count - 1) + [x % 256]
  }

  function Zeros(n: nat): (r: seq<Byte>)
    ensures |r| == n && forall i :: 0 <= i < n ==> r[i] == 0
  {
    seq(n, _ => 0)
  }

  /** How many zero bytes section 5.1.1 inserts: the fewest that leave room for the length in the last block. */
  function ZeroCount(length: nat): (k: nat)
    ensures k < 64 && (length + 1 + k + 8) % 64 == 0
  {
    (119 - length % 64) % 64
  }

  /** The padded message of section 5.1.1; the standard allows fewer than 2^64 bits. */
  function Padded(m: seq<Byte>): (r: seq<Byte>)
    ensures |r| % 64 == 0 && |r| == |m| + ZeroCount(|m|) + 9
  {
    m + [0x80] + Zeros(ZeroCount(|m|)) + BigEndian(8 * |m|, 8)
  }

  /** The low byte of a word. */
  function LowByte(w: Word): Byte {
    (w & 0xff) as int
  }

  function WordBytes(w: Word): (r: seq<Byte>)
    ensures |r| == 4
  {
    [LowByte(w >> 24), LowByte(w >> 16), LowByte(w >> 8), LowByte(w)]
  }

  function Digest(s: State): (r: seq<Byte>)
    ensures |r| == 20
  {
    WordBytes(s.a) + WordBytes(s.b) + WordBytes(s.c) + WordBytes(s.d) + WordBytes(s.e)
  }

  /** Section 6.1.2 over all blocks of the padded message. */
  function Sha1(m: seq<Byte>): (r: seq<Byte>)
    ensures |r| == 20
  {
    Digest(HashBlocks(InitialHash(), Padded(m)))
  }

  /** The number bytes stand for, most significant first. */
  function Number(bytes: seq<Byte>): nat {
    if bytes == [] then 0 else Number(bytes[..|bytes| - 1]) * 256 + bytes[|bytes| - 1]
  }

  function Range(count: nat): (r: nat)
    ensures r > 0
  {
    if count == 0 then 1 else 256 * Range(count - 1)
  }

  lemma {:induction false} BigEndianReadsBack(x: nat, count: nat)
    requires x < Range(count)
    ensures Number(BigEndian(x, count)) == x
  {
    if count > 0 {
      BigEndianReadsBack(x / 256, count - 1);
      var r := BigEndian(x, count);
      assert r[..|r| - 1] == BigEndian(x / 256, count - 1);
    }
  }

  /** Padding is injective: the length field tells messages of different length apart. */
  lemma PaddingInjective(m: seq<Byte>, m': seq<Byte>)
    requires |m| < 0x2000_0000_0000_0000 && |m'| < 0x2000_0000_0000_0000 && Padded(m) == Padded(m')
    ensures m == m'
  {
    var p := Padded(m);
    assert p[|p| - 8..] == BigEndian(8 * |m|, 8);
    assert p[|p| - 8..] == BigEndian(8 * |m'|, 8) by {
      assert Padded(m')[|p| - 8..] == BigEndian(8 * |m'|, 8);
    }
    assert Range(8) == 0x1_0000_0000_0000_0000;
    BigEndianReadsBack(8 * |m|, 8);
    BigEndianReadsBack(8 * |m'|, 8);
    assert p[..|m|] == m && Padded(m')[..|m'|] == m';
  }
}

/** The streaming form of the benchmark: one block buffer, reused for every block and for the padding. */
module Sha1Streaming {
  import opened MachineWords
  import opened Tiling
  import opened Sha1Standard

  // The round functions as the code writes them.

  lemma ChooseAgrees(x: Word, y: Word, z: Word)
    ensures (x & y) | (!x & z) == (x & y) ^ (!x & z)
  {
  }

  lemma MajorityAgrees(x: Word, y: Word, z: Word)
    ensures (x & y) | (x & z) | (y & z) == (x & y) ^ (x & z) ^ (y & z)
  {
  }

  method Choose(x: Word, y: Word, z: Word) returns (f: Word)
    ensures f == Ch(x, y, z)
  {
    f := (x & y) | (!x & z);
    ChooseAgrees(x, y, z);
  }

  method Majority(x: Word, y: Word, z: Word) returns (f: Word)
    ensures f == Maj(x, y, z)
  {
    f := (x & y) | (x & z) | (y & z);
    MajorityAgrees(x, y, z);
  }

  method RoundInputs(i: nat, b: Word, c: Word, d: Word) returns (f: Word, k: Word)
    ensures f == RoundFunction(i, b, c, d) && k == RoundConstant(i)
  {
    if i < 20 {
      f := Choose(b, c, d);
      k := 0x5A827999;
    } else if i < 40 {
      f := Parity(b, c, d);
      k := 0x6ED9EBA1;
    } else if i < 60 {
      f := Majority(b, c, d);
      k := 0x8F1BBCDC;
    } else {
      f := Parity(b, c, d);
      k := 0xCA62C1D6;
    }
  }

  /** One round: the five working variables move along. */
  method RoundStep(s: State, i: nat, w: Word) returns (r: State)
    ensures r == Round(s, i, w)
  {
    var a, b, c, d, e := s.a, s.b, s.c, s.d, s.e;
    var f, k := RoundInputs(i, b, c, d);
    var t := Mix(a, f, e, k, w);
    e := d;
    d := c;
    c := RotL(b, 30);
    b := a;
    a := t;
    r := State(a, b, c, d, e);
  }

  lemma ScheduleLoads(bytes: seq<Byte>, i: nat)
    requires |bytes| == 64 && i < 16
    ensures Schedule(bytes, i + 1) == Schedule(bytes, i) + [WordOf(bytes[4 * i], bytes[4 * i + 1], bytes[4 * i + 2], bytes[4 * i + 3])]
  {
  }

  method LoadWords(block: array<Byte>, w: array<Word>)
    requires block.Length == 64 && w.Length == 80
    modifies w
    ensures w[..16] == Schedule(block[..], 16)
  {
    ghost var bytes := block[..];
    for i := 0 to 16
      invariant bytes == block[..] && w[..i] == Schedule(bytes, i)
    {
      ScheduleLoads(bytes, i);
      w[i] := WordOf(block[4 * i], block[4 * i + 1], block[4 * i + 2], block[4 * i + 3]);
      assert w[..i + 1] == w[..i] + [w[i]];
    }
  }

  method StretchWords(w: array<Word>, ghost bytes: seq<Byte>)
    requires |bytes| == 64 && w.Length == 80 && w[..16] == Schedule(bytes, 16)
    modifies w
    ensures w[..80] == Schedule(bytes, 80)
  {
    for i := 16 to 80
      invariant w[..i] == Schedule(bytes, i)
    {
      assert w[i - 3] == w[..i][i - 3] && w[i - 8] == w[..i][i - 8] && w[i - 14] == w[..i][i - 14] && w[i - 16] == w[..i][i - 16];
      w[i] := Stretch(w[i - 3], w[i - 8], w[i - 14], w[i - 16]);
      assert w[..i + 1] == w[..i] + [w[i]];
    }
  }

  /** The message schedule in an array: sixteen words of the block, the others stretched from them. */
  method Expand(block: array<Byte>) returns (w: array<Word>)
    requires block.Length == 64
    ensures fresh(w) && w[..] == Schedule(block[..], 80)
  {
    w := new Word[80](_ => 0);
    LoadWords(block, w);
    StretchWords(w, block[..]);
    assert w[..80] == w[..];
  }

  method RunRounds(h: State, w: array<Word>, n: nat) returns (v: State)
    requires n <= w.Length
    ensures v == Rounds(h, w[..], n)
  {
    v := h;
    for i := 0 to n
      invariant v == Rounds(h, w[..], i)
    {
      v := RoundStep(v, i, w[i]);
    }
  }

  /** Folds one block into the running hash. */
  method Sha1Compress(h: State, block: array<Byte>) returns (r: State)
    requires block.Length == 64
    ensures r == Compress(h, block[..])
  {
    var w := Expand(block);
    var v := RunRounds(h, w, 80);
    r := Added(h, v);
  }

  lemma {:induction false} HashConcat(s: State, a: seq<Byte>, b: seq<Byte>)
    requires |a| % 64 == 0
    ensures HashBlocks(s, a + b) == HashBlocks(HashBlocks(s, a), b)
    decreases |a|
  {
    if a == [] {
      assert a + b == b;
    } else {
      assert (a + b)[..64] == a[..64] && (a + b)[64..] == a[64..] + b;
      HashConcat(Compress(s, a[..64]), a[64..], b);
    }
  }

  /** memcpy into the front of the block buffer. */
  method CopyIn(block: array<Byte>, data: seq<Byte>, pos: nat, n: nat)
    requires block.Length == 64 && n <= 64 && pos + n <= |data|
    modifies block
    ensures block[..n] == data[pos..pos + n] && block[n..] == old(block[n..])
  {
    for i := 0 to n
      invariant forall k :: 0 <= k < 64 ==> block[k] == if k < i then data[pos + k] else old(block[k])
    {
      block[i] := data[pos + i];
    }
  }

  method FillZero(block: array<Byte>)
    requires block.Length == 64
    modifies block
    ensures block[..] == Zeros(64)
  {
    forall i | 0 <= i < 64 {
      block[i] := 0;
    }
  }

  /** The byte of `totalBits` that a right shift by 8 * k brings down. */
  function LengthByte(totalBits: nat, k: nat): Byte {
    totalBits / Range(k) % 256
  }

  lemma BigEndianAt(x: nat, count: nat, i: nat)
    requires i < count
    ensures BigEndian(x, count)[i] == LengthByte(x, count - 1 - i)
  {
    if i < count - 1 {
      BigEndianAt(x / 256, count - 1, i);
      DivideTwice(x, Range(count - 2 - i));
    }
  }

  lemma DivideTwice(x: nat, d: nat)
    requires d > 0
    ensures x / 256 / d == x / (256 * d)
  {
    var q := Quotient(x / 256, d);
    assert q * (256 * d) <= x < q * (256 * d) + 256 * d;
    var p := Quotient(x, 256 * d);
    QuotientOrder(p, q, x, x, 256 * d);
    QuotientOrder(q, p, x, x, 256 * d);
  }

  /** What the two final blocks, or the one, must contain: the rest of the message and its padding. */
  function Tail(m: seq<Byte>, pos: nat): (r: seq<Byte>)
    requires pos <= |m|
  {
    Framed(m[pos..], ZeroCount(|m|), 8 * |m|)
  }

  /** The end of a message, the marker byte, zero bytes and the length in bits. */
  function Framed(rest: seq<Byte>, zeros: nat, bits: nat): seq<Byte> {
    rest + [0x80] + Zeros(zeros) + BigEndian(bits, 8)
  }

  lemma TailSplits(m: seq<Byte>, pos: nat)
    requires pos <= |m| && pos % 64 == 0
    ensures Padded(m) == m[..pos] + Tail(m, pos)
    ensures HashBlocks(InitialHash(), Padded(m)) == HashBlocks(HashBlocks(InitialHash(), m[..pos]), Tail(m, pos))
  {
    assert m == m[..pos] + m[pos..];
    assert Padded(m) == m[..pos] + Tail(m, pos);
    HashConcat(InitialHash(), m[..pos], Tail(m, pos));
  }

  lemma RemainderOf(length: nat, pos: nat)
    requires pos % 64 == 0 && pos <= length < pos + 64
    ensures length % 64 == length - pos
  {
  }

  /** The zero bytes fill the block up to its last eight bytes, or the next one. */
  lemma TailLength(length: nat, pos: nat)
    requires pos % 64 == 0 && pos <= length < pos + 64
    ensures ZeroCount(length) == if length - pos < 56 then 55 - (length - pos) else 119 - (length - pos)
  {
    RemainderOf(length, pos);
  }

  /** Stores the bit length, most significant byte first. */
  method StoreLength(block: array<Byte>, totalBits: nat)
    requires block.Length == 64
    modifies block
    ensures block[..56] == old(block[..56]) && block[56..] == BigEndian(totalBits, 8)
  {
    for i := 0 to 8
      invariant forall k :: 0 <= k < 64 && !(56 <= k < 56 + i) ==> block[k] == old(block[k])
      invariant forall k :: 0 <= k < i ==> block[56 + k] == BigEndian(totalBits, 8)[k]
    {
      block[56 + i] := LengthByte(totalBits, 7 - i);
      BigEndianAt(totalBits, 8, i);
    }
  }

  /** The remainder of the message and the marker byte, in a zeroed block. */
  method LoadRemainder(data: seq<Byte>, pos: nat, block: array<Byte>)
    requires pos <= |data| < pos + 64 && block.Length == 64
    modifies block
    ensures block[..] == data[pos..] + [0x80] + Zeros(63 - (|data| - pos))
  {
    FillZero(block);
    var rem := |data| - pos;
    if rem != 0 {
      CopyIn(block, data, pos, rem);
    }
    assert block[..rem] == data[pos..] && block[rem..] == Zeros(64)[rem..];
    block[rem] := 0x80;
  }

  /** Cutting a loaded block where its length goes leaves fewer zero bytes. */
  lemma LoadedFront(rest: seq<Byte>, loaded: seq<Byte>)
    requires |rest| < 56 && loaded == rest + [0x80] + Zeros(63 - |rest|)
    ensures loaded[..56] == rest + [0x80] + Zeros(55 - |rest|)
  {
    ZerosCut(63 - |rest|, 55 - |rest|);
    CutAfter(rest + [0x80], Zeros(63 - |rest|), 55 - |rest|);
  }

  lemma ZerosCut(n: nat, k: nat)
    requires k <= n
    ensures Zeros(n)[..k] == Zeros(k)
  {
  }

  lemma CutAfter(x: seq<Byte>, y: seq<Byte>, k: nat)
    requires k <= |y|
    ensures (x + y)[..|x| + k] == x + y[..k]
  {
  }

  lemma Halved(block: seq<Byte>, k: nat)
    requires k <= |block|
    ensures block == block[..k] + block[k..]
  {
  }

  lemma OneBlockHolds(rest: seq<Byte>, bits: nat, loaded: seq<Byte>, block: seq<Byte>)
    requires |rest| < 56 && |block| >= 56 && loaded == rest + [0x80] + Zeros(63 - |rest|)
    requires block[..56] == loaded[..56] && block[56..] == BigEndian(bits, 8)
    ensures block == Framed(rest, 55 - |rest|, bits)
  {
    LoadedFront(rest, loaded);
    Halved(block, 56);
  }

  lemma OneBlockFramed(rest: seq<Byte>, bits: nat, loaded: seq<Byte>, block: seq<Byte>, zeros: nat)
    requires |rest| < 56 && |block| >= 56 && loaded == rest + [0x80] + Zeros(63 - |rest|) && zeros == 55 - |rest|
    requires block[..56] == loaded[..56] && block[56..] == BigEndian(bits, 8)
    ensures block == Framed(rest, zeros, bits)
  {
    OneBlockHolds(rest, bits, loaded, block);
  }

  lemma OneBlockLeft(m: seq<Byte>, pos: nat, loaded: seq<Byte>, block: seq<Byte>)
    requires pos <= |m| < pos + 56 && pos % 64 == 0 && |block| == 64
    requires loaded == m[pos..] + [0x80] + Zeros(63 - (|m| - pos))
    requires block[..56] == loaded[..56] && block[56..] == BigEndian(8 * |m|, 8)
    ensures block == Tail(m, pos)
  {
    TailLength(|m|, pos);
    OneBlockFramed(m[pos..], 8 * |m|, loaded, block, ZeroCount(|m|));
  }

  lemma ZerosContinue(n: nat, spare: nat)
    requires spare <= 64
    ensures Zeros(n) + Zeros(64)[..spare] == Zeros(n + spare)
  {
  }

  lemma TwoBlocksLeft(m: seq<Byte>, pos: nat, loaded: seq<Byte>, block: seq<Byte>)
    requires pos + 56 <= |m| < pos + 64 && pos % 64 == 0 && |block| == 64
    requires loaded == m[pos..] + [0x80] + Zeros(63 - (|m| - pos))
    requires block[..56] == Zeros(64)[..56] && block[56..] == BigEndian(8 * |m|, 8)
    ensures loaded + block == Tail(m, pos)
  {
    TailLength(|m|, pos);
    ZerosContinue(63 - (|m| - pos), 56);
    assert block == Zeros(64)[..56] + BigEndian(8 * |m|, 8) by {
      assert block == block[..56] + block[56..];
    }
  }

  /** The final blocks, from the remainder of the message on: one, or two when the length no longer fits. */
  method FinishBlocks(h: State, data: seq<Byte>, pos: nat, block: array<Byte>) returns (r: State)
    requires pos <= |data| < pos + 64 && pos % 64 == 0 && block.Length == 64 && |data| < 0x2000_0000_0000_0000
    modifies block
    ensures r == HashBlocks(h, Tail(data, pos))
  {
    r := h;
    var totalBits := Wrap(8 * |data|);
    WrapSmall(8 * |data|);
    LoadRemainder(data, pos, block);
    ghost var loaded := block[..];
    assert |loaded| == 64;
    if |data| - pos >= 56 {
      r := Sha1Compress(r, block);
      HashOne(h, loaded);
      FillZero(block);
    }
    ghost var r1 := r;
    StoreLength(block, totalBits);
    r := Sha1Compress(r, block);
    HashOne(r1, block[..]);
    if |data| - pos >= 56 {
      TwoBlocksLeft(data, pos, loaded, block[..]);
      HashConcat(h, loaded, block[..]);
    } else {
      OneBlockLeft(data, pos, loaded, block[..]);
    }
  }

  /** Absorbs the next whole block. */
  method AbsorbBlock(h: State, data: seq<Byte>, pos: nat, block: array<Byte>) returns (r: State)
    requires pos + 64 <= |data| && pos % 64 == 0 && block.Length == 64 && h == HashBlocks(InitialHash(), data[..pos])
    modifies block
    ensures r == HashBlocks(InitialHash(), data[..pos + 64])
  {
    CopyIn(block, data, pos, 64);
    r := Sha1Compress(h, block);
    assert block[..] == data[pos..pos + 64];
    HashOne(h, data[pos..pos + 64]);
    HashConcat(InitialHash(), data[..pos], data[pos..pos + 64]);
    assert data[..pos + 64] == data[..pos] + data[pos..pos + 64];
  }

  /** The one-shot hash is SHA-1 for every message the standard covers. */
  method Sha1Compute(data: seq<Byte>) returns (out: seq<Byte>)
    requires |data| < 0x2000_0000_0000_0000
    ensures out == Sha1(data)
  {
    var h := InitialHash();
    var block := new Byte[64](_ => 0);
    var pos := 0;
    while |data| - pos >= 64
      invariant pos <= |data| && pos % 64 == 0
      invariant h == HashBlocks(InitialHash(), data[..pos])
    {
      h := AbsorbBlock(h, data, pos, block);
      pos := pos + 64;
    }
    TailSplits(data, pos);
    h := FinishBlocks(h, data, pos, block);
    out := Digest(h);
  }
}
