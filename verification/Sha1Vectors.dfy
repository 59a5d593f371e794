/** Laws of SHA-1 that do not mention how the words are computed: the schedule and the round functions bit by bit. */
module Sha1Laws {
  import opened Sha1Standard

  /** The word with only bit `i` set, bit 0 being the lowest. */
  function Mask(i: nat): Word {
    if i == 0 then 1 else Mask(i - 1) << 1
  }

  predicate Bit(x: Word, i: nat) {
    x & Mask(i) != 0
  }

  predicate OneBit(m: Word) {
    m != 0 && m & (m - 1) == 0
  }

  lemma LastMask()
    ensures Mask(31) == 0x8000_0000
  {
    assert Mask(6) == 0x40;
    assert Mask(12) == 0x1000;
    assert Mask(18) == 0x4_0000;
    assert Mask(24) == 0x100_0000;
    assert Mask(28) == 0x1000_0000;
  }

  lemma {:induction false} MaskNonZero(i: nat)
    requires i <= 31
    ensures Mask(i) != 0
    decreases 31 - i
  {
    if i < 31 {
      MaskNonZero(i + 1);
    } else {
      LastMask();
    }
  }

  lemma ShiftOne(m: Word)
    requires OneBit(m) && m << 1 != 0
    ensures OneBit(m << 1)
  {
  }

  lemma {:induction false} MaskOneBit(i: nat)
    requires i <= 31
    ensures OneBit(Mask(i))
  {
    if i > 0 {
      MaskOneBit(i - 1);
      MaskNonZero(i);
      ShiftOne(Mask(i - 1));
    }
  }

  /** Below the top bit a rotation by one moves what a mask selects one place up; the top bit becomes the lowest. */
  lemma Turned(x: Word, y: Word, m: Word)
    requires y == RotL(x, 1)
    ensures m & 0x8000_0000 == 0 ==> y & (m << 1) == (x & m) << 1
    ensures y & 1 == x >> 31
  {
  }

  lemma LowBit(m: Word)
    requires OneBit(m) && m << 1 != 0
    ensures m & 0x8000_0000 == 0
  {
  }

  lemma LowMask(i: nat, m: Word, n: Word)
    requires i < 31 && m == Mask(i) && n == Mask(i + 1)
    ensures m & 0x8000_0000 == 0 && n == m << 1
  {
    MaskOneBit(i);
    MaskNonZero(i + 1);
    LowBit(m);
  }

  lemma LowPart(x: Word, m: Word)
    requires m & 0x8000_0000 == 0
    ensures (x & m) & 0x8000_0000 == 0
  {
  }

  lemma ShiftedZero(p: Word, q: Word)
    requires p & 0x8000_0000 == 0 && q == p << 1
    ensures q != 0 <==> p != 0
  {
  }

  lemma LowPartMoves(x: Word, y: Word, i: nat, m: Word, n: Word, p: Word, q: Word)
    requires i < 31 && y == RotL(x, 1) && m == Mask(i) && n == Mask(i + 1) && p == x & m && q == y & n
    ensures q != 0 <==> p != 0
  {
    LowMask(i, m, n);
    Turned(x, y, m);
    LowPart(x, m);
    ShiftedZero(p, q);
  }

  lemma LowBitMoves(x: Word, y: Word, i: nat, m: Word, n: Word)
    requires i < 31 && y == RotL(x, 1) && m == Mask(i) && n == Mask(i + 1)
    ensures y & n != 0 <==> x & m != 0
  {
    LowPartMoves(x, y, i, m, n, x & m, y & n);
  }

  lemma TopOrLowest(x: Word, y: Word)
    requires y & 1 == x >> 31
    ensures y & 1 != 0 <==> x & 0x8000_0000 != 0
  {
  }

  lemma TopBitMoves(x: Word, y: Word, m: Word, n: Word)
    requires y == RotL(x, 1) && m == Mask(31) && n == Mask(0)
    ensures y & n != 0 <==> x & m != 0
  {
    LastMask();
    Turned(x, y, 0);
    TopOrLowest(x, y);
  }

  lemma BitMoves(x: Word, y: Word, i: nat, m: Word, n: Word)
    requires i < 32 && y == RotL(x, 1) && m == Mask(i) && n == Mask((i + 1) % 32)
    ensures y & n != 0 <==> x & m != 0
  {
    if i < 31 {
      LowBitMoves(x, y, i, m, n);
    } else {
      TopBitMoves(x, y, m, n);
    }
  }

  lemma XorAt(a: Word, b: Word, m: Word)
    requires OneBit(m)
    ensures (a ^ b) & m != 0 <==> (a & m != 0) != (b & m != 0)
  {
  }

  lemma ScheduleGrows(block: seq<Byte>, n: nat)
    requires |block| == 64
    ensures Schedule(block, n) <= Schedule(block, n + 1)
  {
  }

  lemma PrefixOfPrefix<T>(a: seq<T>, b: seq<T>, c: seq<T>)
    requires a <= b <= c
    ensures a <= c
  {
  }

  /** Later words leave the earlier ones alone. */
  lemma {:induction false} WordsStay(block: seq<Byte>, m: nat, n: nat)
    requires |block| == 64 && m <= n
    ensures Schedule(block, m) <= Schedule(block, n)
    decreases n
  {
    if m < n {
      WordsStay(block, m, n - 1);
      ScheduleGrows(block, n - 1);
      PrefixOfPrefix(Schedule(block, m), Schedule(block, n - 1), Schedule(block, n));
    }
  }

  lemma PrefixAt<T>(v: seq<T>, w: seq<T>, t: nat, x: T)
    requires v <= w && t < |v| && v[t] == x
    ensures w[t] == x
  {
  }

  /** The first sixteen words are the block's bytes, most significant first. */
  lemma LoadedWord(block: seq<Byte>, n: nat, t: nat)
    requires |block| == 64 && t < n && t < 16
    ensures Schedule(block, n)[t] == WordOf(block[4 * t], block[4 * t + 1], block[4 * t + 2], block[4 * t + 3])
  {
    WordsStay(block, t + 1, n);
    PrefixAt(Schedule(block, t + 1), Schedule(block, n), t,
      WordOf(block[4 * t], block[4 * t + 1], block[4 * t + 2], block[4 * t + 3]));
  }

  lemma LastWord(block: seq<Byte>, t: nat)
    requires |block| == 64 && 16 <= t
    ensures var v := Schedule(block, t); Schedule(block, t + 1) == v + [Stretch(v[t - 3], v[t - 8], v[t - 14], v[t - 16])]
  {
  }

  lemma StepLater<T>(f: (T, T, T, T) -> T, v: seq<T>, w: seq<T>, t: nat)
    requires 16 <= t == |v| && v + [f(v[t - 3], v[t - 8], v[t - 14], v[t - 16])] <= w
    ensures w[t] == f(w[t - 3], w[t - 8], w[t - 14], w[t - 16])
  {
  }

  /** The others are stretched from four earlier ones. */
  lemma StretchedWord(block: seq<Byte>, n: nat, t: nat)
    requires |block| == 64 && 16 <= t < n
    ensures var w := Schedule(block, n); w[t] == Stretch(w[t - 3], w[t - 8], w[t - 14], w[t - 16])
  {
    LastWord(block, t);
    WordsStay(block, t + 1, n);
    StepLater(Stretch, Schedule(block, t), Schedule(block, n), t);
  }

  lemma StretchTurns(w3: Word, w8: Word, w14: Word, w16: Word, x: Word, y: Word)
    requires x == w3 ^ w8 ^ w14 ^ w16 && y == Stretch(w3, w8, w14, w16)
    ensures y == RotL(x, 1)
  {
  }

  lemma ScheduleTurns(block: seq<Byte>, t: nat, x: Word, y: Word)
    requires |block| == 64 && 16 <= t < 80 && y == Schedule(block, 80)[t]
    requires var w := Schedule(block, 80); x == w[t - 3] ^ w[t - 8] ^ w[t - 14] ^ w[t - 16]
    ensures y == RotL(x, 1)
  {
    var w := Schedule(block, 80);
    StretchedWord(block, 80, t);
    StretchTurns(w[t - 3], w[t - 8], w[t - 14], w[t - 16], x, y);
  }

  /**
   * The stretched words bit by bit, with m and n the masks of bits i and (i + 1) % 32: bit i of the exclusive or of the
   * four earlier words is bit (i + 1) % 32 of the new one.
   */
  lemma ScheduleBits(block: seq<Byte>, t: nat, x: Word, y: Word, i: nat, m: Word, n: Word)
    requires |block| == 64 && 16 <= t < 80 && y == Schedule(block, 80)[t]
    requires var w := Schedule(block, 80); x == w[t - 3] ^ w[t - 8] ^ w[t - 14] ^ w[t - 16]
    requires i < 32 && m == Mask(i) && n == Mask((i + 1) % 32)
    ensures y & n != 0 <==> x & m != 0
  {
    ScheduleTurns(block, t, x, y);
    BitMoves(x, y, i, m, n);
  }

  lemma AndAt(a: Word, b: Word, m: Word)
    requires OneBit(m)
    ensures (a & b) & m != 0 <==> a & m != 0 && b & m != 0
  {
  }

  lemma ChooseFirst(x: Word, y: Word, z: Word, m: Word)
    requires OneBit(m) && x & m != 0
    ensures Ch(x, y, z) & m == y & m
  {
  }

  lemma ChooseSecond(x: Word, y: Word, z: Word, m: Word)
    requires OneBit(m) && x & m == 0
    ensures Ch(x, y, z) & m == z & m
  {
  }

  lemma ChooseAt(x: Word, y: Word, z: Word, m: Word)
    requires OneBit(m)
    ensures Ch(x, y, z) & m == if x & m != 0 then y & m else z & m
  {
    if x & m != 0 {
      ChooseFirst(x, y, z, m);
    } else {
      ChooseSecond(x, y, z, m);
    }
  }

  lemma ChooseBit(x: Word, y: Word, z: Word, i: nat)
    requires i < 32
    ensures Bit(Ch(x, y, z), i) == if Bit(x, i) then Bit(y, i) else Bit(z, i)
  {
    MaskOneBit(i);
    ChooseAt(x, y, z, Mask(i));
  }

  lemma ParityBit(x: Word, y: Word, z: Word, i: nat)
    requires i < 32
    ensures Bit(Parity(x, y, z), i) == ((Bit(x, i) != Bit(y, i)) != Bit(z, i))
  {
    var m := Mask(i);
    MaskOneBit(i);
    XorAt(x, y, m);
    XorAt(x ^ y, z, m);
  }

  lemma MajorityBit(x: Word, y: Word, z: Word, i: nat)
    requires i < 32
    ensures Bit(Maj(x, y, z), i) == if Bit(x, i) == Bit(y, i) then Bit(x, i) else Bit(z, i)
  {
    var m := Mask(i);
    MaskOneBit(i);
    AndAt(x, y, m);
    AndAt(x, z, m);
    AndAt(y, z, m);
    XorAt(x & y, x & z, m);
    XorAt((x & y) ^ (x & z), y & z, m);
  }

  /** Rounds 0 to 19 choose by the first word, rounds 40 to 59 take the majority, the others the parity of the three. */
  lemma RoundFunctionBits(t: nat, x: Word, y: Word, z: Word, i: nat)
    requires t < 80 && i < 32
    ensures Bit(RoundFunction(t, x, y, z), i) ==
      if t < 20 then (if Bit(x, i) then Bit(y, i) else Bit(z, i))
      else if 40 <= t < 60 then (if Bit(x, i) == Bit(y, i) then Bit(x, i) else Bit(z, i))
      else ((Bit(x, i) != Bit(y, i)) != Bit(z, i))
  {
    if t < 20 {
      ChooseBit(x, y, z, i);
    } else if 40 <= t < 60 {
      MajorityBit(x, y, z, i);
    } else {
      ParityBit(x, y, z, i);
    }
  }

  /** The constants are 2^30 times the square roots of 2, 3, 5 and 10, rounded down. */
  lemma ConstantsAreRoots(t: nat)
    requires t < 80
    ensures var c, k := if t < 20 then 2 else if t < 40 then 3 else if t < 60 then 5 else 10, RoundConstant(t) as nat;
      k * k <= c * 0x1000_0000_0000_0000 < (k + 1) * (k + 1)
  {
    if t < 20 {
      assert RoundConstant(t) as nat == 0x5a827999;
    } else if t < 40 {
      assert RoundConstant(t) as nat == 0x6ed9eba1;
    } else if t < 60 {
      assert RoundConstant(t) as nat == 0x8f1bbcdc;
    } else {
      assert RoundConstant(t) as nat == 0xca62c1d6;
    }
  }
}

/** Two digests worked out round by round: a message of one block and one whose padding needs a second block. */
module Sha1Vectors {
  import opened Sha1Standard
  import opened Sha1Laws

  /** Sixteen consecutive words of a schedule. */
  predicate Sixteen(w: seq<Word>, i: nat, x0: Word, x1: Word, x2: Word, x3: Word, x4: Word, x5: Word, x6: Word, x7: Word,
    x8: Word, x9: Word, x10: Word, x11: Word, x12: Word, x13: Word, x14: Word, x15: Word)
    requires i + 16 <= |w|
  {
    && w[i] == x0 && w[i + 1] == x1 && w[i + 2] == x2 && w[i + 3] == x3
    && w[i + 4] == x4 && w[i + 5] == x5 && w[i + 6] == x6 && w[i + 7] == x7
    && w[i + 8] == x8 && w[i + 9] == x9 && w[i + 10] == x10 && w[i + 11] == x11
    && w[i + 12] == x12 && w[i + 13] == x13 && w[i + 14] == x14 && w[i + 15] == x15
  }

  lemma WordIs(block: seq<Byte>, w: seq<Word>, t: nat, x: Word)
    requires |block| == 64 && w == Schedule(block, 80) && 16 <= t < 80
    requires Stretch(w[t - 3], w[t - 8], w[t - 14], w[t - 16]) == x
    ensures w[t] == x
  {
    StretchedWord(block, 80, t);
  }

  lemma RoundIs(h: State, w: seq<Word>, t: nat, a: Word, c: Word)
    requires t < |w|
    requires var s := Rounds(h, w, t);
      Mix(s.a, RoundFunction(t, s.b, s.c, s.d), s.e, RoundConstant(t), w[t]) == a && RotL(s.b, 30) == c
    ensures var s := Rounds(h, w, t); Rounds(h, w, t + 1) == State(a, s.a, c, s.c, s.d)
  {
  }

  // The single block of the message abc.

  lemma AbcWords16(block: seq<Byte>, w: seq<Word>)
    requires |block| == 64 && w == Schedule(block, 80)
    requires
      Sixteen(w, 0, 0x61626380, 0x00000000, 0x00000000, 0x00000000, 0x00000000, 0x00000000, 0x00000000, 0x00000000,
        0x00000000, 0x00000000, 0x00000000, 0x00000000, 0x00000000, 0x00000000, 0x00000000, 0x00000018)
    ensures
      Sixteen(w, 16, 0xc2c4c700, 0x00000000, 0x00000030, 0x85898e01, 0x00000000, 0x00000060, 0x0b131c03, 0x00000030,
        0x85898ec1, 0x16263806, 0x00000000, 0x00000180, 0x2c4c700c, 0x000000f0, 0x93afb507, 0x5898e048)
  {
    WordIs(block, w, 16, 0xc2c4c700); WordIs(block, w, 17, 0x00000000);
    WordIs(block, w, 18, 0x00000030); WordIs(block, w, 19, 0x85898e01);
    WordIs(block, w, 20, 0x00000000); WordIs(block, w, 21, 0x00000060);
    WordIs(block, w, 22, 0x0b131c03); WordIs(block, w, 23, 0x00000030);
    WordIs(block, w, 24, 0x85898ec1); WordIs(block, w, 25, 0x16263806);
    WordIs(block, w, 26, 0x00000000); WordIs(block, w, 27, 0x00000180);
    WordIs(block, w, 28, 0x2c4c700c); WordIs(block, w, 29, 0x000000f0);
    WordIs(block, w, 30, 0x93afb507); WordIs(block, w, 31, 0x5898e048);
  }

  lemma AbcWords32(block: seq<Byte>, w: seq<Word>)
    requires |block| == 64 && w == Schedule(block, 80)
    requires
      Sixteen(w, 16, 0xc2c4c700, 0x00000000, 0x00000030, 0x85898e01, 0x00000000, 0x00000060, 0x0b131c03, 0x00000030,
        0x85898ec1, 0x16263806, 0x00000000, 0x00000180, 0x2c4c700c, 0x000000f0, 0x93afb507, 0x5898e048)
    ensures
      Sixteen(w, 32, 0x8e9a9202, 0x00000600, 0xb131c0f0, 0x16263bc6, 0x4ebed41e, 0x626380a1, 0x16263806, 0x000018c0,
        0xd2e138c4, 0x00000f00, 0x3afb5079, 0x898e04e5, 0xe2ba3c2b, 0x000060c0, 0x053a37cd, 0x74458547)
  {
    WordIs(block, w, 32, 0x8e9a9202); WordIs(block, w, 33, 0x00000600);
    WordIs(block, w, 34, 0xb131c0f0); WordIs(block, w, 35, 0x16263bc6);
    WordIs(block, w, 36, 0x4ebed41e); WordIs(block, w, 37, 0x626380a1);
    WordIs(block, w, 38, 0x16263806); WordIs(block, w, 39, 0x000018c0);
    WordIs(block, w, 40, 0xd2e138c4); WordIs(block, w, 41, 0x00000f00);
    WordIs(block, w, 42, 0x3afb5079); WordIs(block, w, 43, 0x898e04e5);
    WordIs(block, w, 44, 0xe2ba3c2b); WordIs(block, w, 45, 0x000060c0);
    WordIs(block, w, 46, 0x053a37cd); WordIs(block, w, 47, 0x74458547);
  }

  lemma AbcWords48(block: seq<Byte>, w: seq<Word>)
    requires |block| == 64 && w == Schedule(block, 80)
    requires
      Sixteen(w, 32, 0x8e9a9202, 0x00000600, 0xb131c0f0, 0x16263bc6, 0x4ebed41e, 0x626380a1, 0x16263806, 0x000018c0,
        0xd2e138c4, 0x00000f00, 0x3afb5079, 0x898e04e5, 0xe2ba3c2b, 0x000060c0, 0x053a37cd, 0x74458547)
    ensures
      Sixteen(w, 48, 0xda9415ed, 0x26380a16, 0x626383a1, 0x4ebf54de, 0x3835b44b, 0x0000f600, 0x1e84c7a3, 0x98e04d98,
        0x651d16a0, 0x62658ca1, 0x458544d6, 0x44584cb7, 0x7ba06619, 0x6380aea2, 0x0ae55269, 0x627b49a1)
  {
    WordIs(block, w, 48, 0xda9415ed); WordIs(block, w, 49, 0x26380a16);
    WordIs(block, w, 50, 0x626383a1); WordIs(block, w, 51, 0x4ebf54de);
    WordIs(block, w, 52, 0x3835b44b); WordIs(block, w, 53, 0x0000f600);
    WordIs(block, w, 54, 0x1e84c7a3); WordIs(block, w, 55, 0x98e04d98);
    WordIs(block, w, 56, 0x651d16a0); WordIs(block, w, 57, 0x62658ca1);
    WordIs(block, w, 58, 0x458544d6); WordIs(block, w, 59, 0x44584cb7);
    WordIs(block, w, 60, 0x7ba06619); WordIs(block, w, 61, 0x6380aea2);
    WordIs(block, w, 62, 0x0ae55269); WordIs(block, w, 63, 0x627b49a1);
  }

  lemma AbcWords64(block: seq<Byte>, w: seq<Word>)
    requires |block| == 64 && w == Schedule(block, 80)
    requires
      Sixteen(w, 48, 0xda9415ed, 0x26380a16, 0x626383a1, 0x4ebf54de, 0x3835b44b, 0x0000f600, 0x1e84c7a3, 0x98e04d98,
        0x651d16a0, 0x62658ca1, 0x458544d6, 0x44584cb7, 0x7ba06619, 0x6380aea2, 0x0ae55269, 0x627b49a1)
    ensures
      Sixteen(w, 64, 0x7cd45c9d, 0x000f0000, 0xfb50753a, 0xec6765e8, 0xba3c2be2, 0x0060c000, 0x3a37cd05, 0x458546f4,
        0xb8599dd6, 0x380a1a26, 0x01e02203, 0xe7cc3456, 0xe6e60b69, 0x00f60a00, 0x5795ef4f, 0x822e0879)
  {
    WordIs(block, w, 64, 0x7cd45c9d); WordIs(block, w, 65, 0x000f0000);
    WordIs(block, w, 66, 0xfb50753a); WordIs(block, w, 67, 0xec6765e8);
    WordIs(block, w, 68, 0xba3c2be2); WordIs(block, w, 69, 0x0060c000);
    WordIs(block, w, 70, 0x3a37cd05); WordIs(block, w, 71, 0x458546f4);
    WordIs(block, w, 72, 0xb8599dd6); WordIs(block, w, 73, 0x380a1a26);
    WordIs(block, w, 74, 0x01e02203); WordIs(block, w, 75, 0xe7cc3456);
    WordIs(block, w, 76, 0xe6e60b69); WordIs(block, w, 77, 0x00f60a00);
    WordIs(block, w, 78, 0x5795ef4f); WordIs(block, w, 79, 0x822e0879);
  }

  lemma AbcRounds0(h: State, w: seq<Word>)
    requires |w| == 80
    requires Rounds(h, w, 0) == State(0x67452301, 0xefcdab89, 0x98badcfe, 0x10325476, 0xc3d2e1f0)
    requires
      Sixteen(w, 0, 0x61626380, 0x00000000, 0x00000000, 0x00000000, 0x00000000, 0x00000000, 0x00000000, 0x00000000,
        0x00000000, 0x00000000, 0x00000000, 0x00000000, 0x00000000, 0x00000000, 0x00000000, 0x00000018)
    ensures Rounds(h, w, 16) == State(0x20bdd62f, 0x196bee77, 0x644a3da5, 0x1181ed99, 0x18c623f9)
  {
    RoundIs(h, w, 0, 0x0116fc33, 0x7bf36ae2); RoundIs(h, w, 1, 0x8990536d, 0x59d148c0);
    RoundIs(h, w, 2, 0xa1390f08, 0xc045bf0c); RoundIs(h, w, 3, 0xcdd8e11b, 0x626414db);
    RoundIs(h, w, 4, 0xcfd499de, 0x284e43c2); RoundIs(h, w, 5, 0x3fc7ca40, 0xf3763846);
    RoundIs(h, w, 6, 0x993e30c1, 0xb3f52677); RoundIs(h, w, 7, 0x9e8c07d4, 0x0ff1f290);
    RoundIs(h, w, 8, 0x4b6ae328, 0x664f8c30); RoundIs(h, w, 9, 0x8351f929, 0x27a301f5);
    RoundIs(h, w, 10, 0xfbda9e89, 0x12dab8ca); RoundIs(h, w, 11, 0x63188fe4, 0x60d47e4a);
    RoundIs(h, w, 12, 0x4607b664, 0x7ef6a7a2); RoundIs(h, w, 13, 0x9128f695, 0x18c623f9);
    RoundIs(h, w, 14, 0x196bee77, 0x1181ed99); RoundIs(h, w, 15, 0x20bdd62f, 0x644a3da5);
  }

  lemma AbcRounds16(h: State, w: seq<Word>)
    requires |w| == 80
    requires Rounds(h, w, 16) == State(0x20bdd62f, 0x196bee77, 0x644a3da5, 0x1181ed99, 0x18c623f9)
    requires
      Sixteen(w, 16, 0xc2c4c700, 0x00000000, 0x00000030, 0x85898e01, 0x00000000, 0x00000060, 0x0b131c03, 0x00000030,
        0x85898ec1, 0x16263806, 0x00000000, 0x00000180, 0x2c4c700c, 0x000000f0, 0x93afb507, 0x5898e048)
    ensures Rounds(h, w, 32) == State(0x3b845d33, 0x1267b407, 0x717eebd7, 0xa0dc2d4b, 0xd2aa1365)
  {
    RoundIs(h, w, 16, 0x4e925823, 0xc65afb9d); RoundIs(h, w, 17, 0x82aa6728, 0xc82f758b);
    RoundIs(h, w, 18, 0xdc64901d, 0xd3a49608); RoundIs(h, w, 19, 0xfd9e1d7d, 0x20aa99ca);
    RoundIs(h, w, 20, 0x1a37b0ca, 0x77192407); RoundIs(h, w, 21, 0x33a23bfc, 0x7f67875f);
    RoundIs(h, w, 22, 0x21283486, 0x868dec32); RoundIs(h, w, 23, 0xd541f12d, 0x0ce88eff);
    RoundIs(h, w, 24, 0xc7567dc6, 0x884a0d21); RoundIs(h, w, 25, 0x48413ba4, 0x75507c4b);
    RoundIs(h, w, 26, 0xbe35fbd5, 0xb1d59f71); RoundIs(h, w, 27, 0x4aa84d97, 0x12104ee9);
    RoundIs(h, w, 28, 0x8370b52e, 0x6f8d7ef5); RoundIs(h, w, 29, 0xc5fbaf5d, 0xd2aa1365);
    RoundIs(h, w, 30, 0x1267b407, 0xa0dc2d4b); RoundIs(h, w, 31, 0x3b845d33, 0x717eebd7);
  }

  lemma AbcRounds32(h: State, w: seq<Word>)
    requires |w| == 80
    requires Rounds(h, w, 32) == State(0x3b845d33, 0x1267b407, 0x717eebd7, 0xa0dc2d4b, 0xd2aa1365)
    requires
      Sixteen(w, 32, 0x8e9a9202, 0x00000600, 0xb131c0f0, 0x16263bc6, 0x4ebed41e, 0x626380a1, 0x16263806, 0x000018c0,
        0xd2e138c4, 0x00000f00, 0x3afb5079, 0x898e04e5, 0xe2ba3c2b, 0x000060c0, 0x053a37cd, 0x74458547)
    ensures Rounds(h, w, 48) == State(0xbead02ca, 0xa01b846c, 0x8714787c, 0x503ca382, 0xfb86c6ab)
  {
    RoundIs(h, w, 32, 0x046faa0a, 0xc499ed01); RoundIs(h, w, 33, 0x2c0ebc11, 0xcee1174c);
    RoundIs(h, w, 34, 0x21796ad4, 0x811bea82); RoundIs(h, w, 35, 0xdcbbb0cb, 0x4b03af04);
    RoundIs(h, w, 36, 0x0f511fd8, 0x085e5ab5); RoundIs(h, w, 37, 0xdc63973f, 0xf72eec32);
    RoundIs(h, w, 38, 0x4c986405, 0x03d447f6); RoundIs(h, w, 39, 0x32de1cba, 0xf718e5cf);
    RoundIs(h, w, 40, 0xfc87dedf, 0x53261901); RoundIs(h, w, 41, 0x970a0d5c, 0x8cb7872e);
    RoundIs(h, w, 42, 0x7f193dc5, 0xff21f7b7); RoundIs(h, w, 43, 0xee1b1aaf, 0x25c28357);
    RoundIs(h, w, 44, 0x40f28e09, 0x5fc64f71); RoundIs(h, w, 45, 0x1c51e1f2, 0xfb86c6ab);
    RoundIs(h, w, 46, 0xa01b846c, 0x503ca382); RoundIs(h, w, 47, 0xbead02ca, 0x8714787c);
  }

  lemma AbcRounds48(h: State, w: seq<Word>)
    requires |w| == 80
    requires Rounds(h, w, 48) == State(0xbead02ca, 0xa01b846c, 0x8714787c, 0x503ca382, 0xfb86c6ab)
    requires
      Sixteen(w, 48, 0xda9415ed, 0x26380a16, 0x626383a1, 0x4ebf54de, 0x3835b44b, 0x0000f600, 0x1e84c7a3, 0x98e04d98,
        0x651d16a0, 0x62658ca1, 0x458544d6, 0x44584cb7, 0x7ba06619, 0x6380aea2, 0x0ae55269, 0x627b49a1)
    ensures Rounds(h, w, 64) == State(0x6b61c9e1, 0xb66c020b, 0x9523272c, 0xf5d5b051, 0x8fd4b796)
  {
    RoundIs(h, w, 48, 0xbaf39337, 0x2806e11b); RoundIs(h, w, 49, 0x120731c5, 0xafab40b2);
    RoundIs(h, w, 50, 0x641db2ce, 0xeebce4cd); RoundIs(h, w, 51, 0x3847ad66, 0x4481cc71);
    RoundIs(h, w, 52, 0xe490436d, 0x99076cb3); RoundIs(h, w, 53, 0x27e9f1d8, 0x8e11eb59);
    RoundIs(h, w, 54, 0x7b71f76d, 0x792410db); RoundIs(h, w, 55, 0x5e6456af, 0x09fa7c76);
    RoundIs(h, w, 56, 0xc846093f, 0x5edc7ddb); RoundIs(h, w, 57, 0xd262ff50, 0xd79915ab);
    RoundIs(h, w, 58, 0x09d785fd, 0xf211824f); RoundIs(h, w, 59, 0x3f52de5a, 0x3498bfd4);
    RoundIs(h, w, 60, 0xd756c147, 0x4275e17f); RoundIs(h, w, 61, 0x548c9cb2, 0x8fd4b796);
    RoundIs(h, w, 62, 0xb66c020b, 0xf5d5b051); RoundIs(h, w, 63, 0x6b61c9e1, 0x9523272c);
  }

  lemma AbcRounds64(h: State, w: seq<Word>)
    requires |w| == 80
    requires Rounds(h, w, 64) == State(0x6b61c9e1, 0xb66c020b, 0x9523272c, 0xf5d5b051, 0x8fd4b796)
    requires
      Sixteen(w, 64, 0x7cd45c9d, 0x000f0000, 0xfb50753a, 0xec6765e8, 0xba3c2be2, 0x0060c000, 0x3a37cd05, 0x458546f4,
        0xb8599dd6, 0x380a1a26, 0x01e02203, 0xe7cc3456, 0xe6e60b69, 0x00f60a00, 0x5795ef4f, 0x822e0879)
    ensures Rounds(h, w, 80) == State(0x42541b35, 0x5738d5e1, 0x21834873, 0x681e6df6, 0xd8fdf6ad)
  {
    RoundIs(h, w, 64, 0x19dfa7ac, 0xed9b0082); RoundIs(h, w, 65, 0x101655f9, 0x5ad87278);
    RoundIs(h, w, 66, 0x0c3df2b4, 0x0677e9eb); RoundIs(h, w, 67, 0x78dd4d2b, 0x4405957e);
    RoundIs(h, w, 68, 0x497093c0, 0x030f7cad); RoundIs(h, w, 69, 0x3f2588c2, 0xde37534a);
    RoundIs(h, w, 70, 0xc199f8c7, 0x125c24f0); RoundIs(h, w, 71, 0x39859de7, 0x8fc96230);
    RoundIs(h, w, 72, 0xedb42de4, 0xf0667e31); RoundIs(h, w, 73, 0x11793f6f, 0xce616779);
    RoundIs(h, w, 74, 0x5ee76897, 0x3b6d0b79); RoundIs(h, w, 75, 0x63f7dab7, 0xc45e4fdb);
    RoundIs(h, w, 76, 0xa079b7d9, 0xd7b9da25); RoundIs(h, w, 77, 0x860d21cc, 0xd8fdf6ad);
    RoundIs(h, w, 78, 0x5738d5e1, 0x681e6df6); RoundIs(h, w, 79, 0x42541b35, 0x21834873);
  }

  lemma AbcCompressed(block: seq<Byte>)
    requires |block| == 64
    requires var w := Schedule(block, 80);
      Sixteen(w, 0, 0x61626380, 0x00000000, 0x00000000, 0x00000000, 0x00000000, 0x00000000, 0x00000000, 0x00000000,
        0x00000000, 0x00000000, 0x00000000, 0x00000000, 0x00000000, 0x00000000, 0x00000000, 0x00000018)
    ensures Compress(State(0x67452301, 0xefcdab89, 0x98badcfe, 0x10325476, 0xc3d2e1f0), block) ==
      State(0xa9993e36, 0x4706816a, 0xba3e2571, 0x7850c26c, 0x9cd0d89d)
  {
    var h, w := State(0x67452301, 0xefcdab89, 0x98badcfe, 0x10325476, 0xc3d2e1f0), Schedule(block, 80);
    AbcWords16(block, w);
    AbcWords32(block, w);
    AbcWords48(block, w);
    AbcWords64(block, w);
    AbcRounds0(h, w);
    AbcRounds16(h, w);
    AbcRounds32(h, w);
    AbcRounds48(h, w);
    AbcRounds64(h, w);
  }

  // The first block of the 56-byte message.

  lemma FirstWords16(block: seq<Byte>, w: seq<Word>)
    requires |block| == 64 && w == Schedule(block, 80)
    requires
      Sixteen(w, 0, 0x61626364, 0x62636465, 0x63646566, 0x64656667, 0x65666768, 0x66676869, 0x6768696a, 0x68696a6b,
        0x696a6b6c, 0x6a6b6c6d, 0x6b6c6d6e, 0x6c6d6e6f, 0x6d6e6f70, 0x6e6f7071, 0x80000000, 0x00000000)
    ensures
      Sixteen(w, 16, 0x0a063a3e, 0xd8dadcdf, 0xdadcdec0, 0xc8d2b4be, 0x6f757b5b, 0x757b5967, 0x8da16d70, 0xdaeefaba,
        0xfaf6cab6, 0xa6fb675a, 0x0c604cc8, 0x604cc02c, 0x49c0e6e2, 0x2ee8cbbc, 0xcfd72ec4, 0x97e9810e)
  {
    WordIs(block, w, 16, 0x0a063a3e); WordIs(block, w, 17, 0xd8dadcdf);
    WordIs(block, w, 18, 0xdadcdec0); WordIs(block, w, 19, 0xc8d2b4be);
    WordIs(block, w, 20, 0x6f757b5b); WordIs(block, w, 21, 0x757b5967);
    WordIs(block, w, 22, 0x8da16d70); WordIs(block, w, 23, 0xdaeefaba);
    WordIs(block, w, 24, 0xfaf6cab6); WordIs(block, w, 25, 0xa6fb675a);
    WordIs(block, w, 26, 0x0c604cc8); WordIs(block, w, 27, 0x604cc02c);
    WordIs(block, w, 28, 0x49c0e6e2); WordIs(block, w, 29, 0x2ee8cbbc);
    WordIs(block, w, 30, 0xcfd72ec4); WordIs(block, w, 31, 0x97e9810e);
  }

  lemma FirstWords32(block: seq<Byte>, w: seq<Word>)
    requires |block| == 64 && w == Schedule(block, 80)
    requires
      Sixteen(w, 16, 0x0a063a3e, 0xd8dadcdf, 0xdadcdec0, 0xc8d2b4be, 0x6f757b5b, 0x757b5967, 0x8da16d70, 0xdaeefaba,
        0xfaf6cab6, 0xa6fb675a, 0x0c604cc8, 0x604cc02c, 0x49c0e6e2, 0x2ee8cbbc, 0xcfd72ec4, 0x97e9810e)
    ensures
      Sixteen(w, 32, 0x0989cbe8, 0xf24843fe, 0x5c40d0ba, 0xa8d9cc3b, 0xb2b9666e, 0xba7b71b7, 0x20b28a72, 0xb28af500,
        0x8ac87842, 0x289addf4, 0x56d51f21, 0xd96b7fd2, 0x3868e778, 0xab5e4848, 0x7f0e2118, 0xde87a111)
  {
    WordIs(block, w, 32, 0x0989cbe8); WordIs(block, w, 33, 0xf24843fe);
    WordIs(block, w, 34, 0x5c40d0ba); WordIs(block, w, 35, 0xa8d9cc3b);
    WordIs(block, w, 36, 0xb2b9666e); WordIs(block, w, 37, 0xba7b71b7);
    WordIs(block, w, 38, 0x20b28a72); WordIs(block, w, 39, 0xb28af500);
    WordIs(block, w, 40, 0x8ac87842); WordIs(block, w, 41, 0x289addf4);
    WordIs(block, w, 42, 0x56d51f21); WordIs(block, w, 43, 0xd96b7fd2);
    WordIs(block, w, 44, 0x3868e778); WordIs(block, w, 45, 0xab5e4848);
    WordIs(block, w, 46, 0x7f0e2118); WordIs(block, w, 47, 0xde87a111);
  }

  lemma FirstWords48(block: seq<Byte>, w: seq<Word>)
    requires |block| == 64 && w == Schedule(block, 80)
    requires
      Sixteen(w, 32, 0x0989cbe8, 0xf24843fe, 0x5c40d0ba, 0xa8d9cc3b, 0xb2b9666e, 0xba7b71b7, 0x20b28a72, 0xb28af500,
        0x8ac87842, 0x289addf4, 0x56d51f21, 0xd96b7fd2, 0x3868e778, 0xab5e4848, 0x7f0e2118, 0xde87a111)
    ensures
      Sixteen(w, 48, 0xe8be56b0, 0x1a0ae652, 0xcd5611c8, 0x46ef29dc, 0x60d3da6d, 0xddf3ba6e, 0x2737f5e9, 0x4888a710,
        0xd2a1177b, 0x9999633b, 0xd6c69d03, 0xccf6127b, 0x7c58fe6d, 0xfdd99c68, 0xf8e32074, 0xe0ba3c7d)
  {
    WordIs(block, w, 48, 0xe8be56b0); WordIs(block, w, 49, 0x1a0ae652);
    WordIs(block, w, 50, 0xcd5611c8); WordIs(block, w, 51, 0x46ef29dc);
    WordIs(block, w, 52, 0x60d3da6d); WordIs(block, w, 53, 0xddf3ba6e);
    WordIs(block, w, 54, 0x2737f5e9); WordIs(block, w, 55, 0x4888a710);
    WordIs(block, w, 56, 0xd2a1177b); WordIs(block, w, 57, 0x9999633b);
    WordIs(block, w, 58, 0xd6c69d03); WordIs(block, w, 59, 0xccf6127b);
    WordIs(block, w, 60, 0x7c58fe6d); WordIs(block, w, 61, 0xfdd99c68);
    WordIs(block, w, 62, 0xf8e32074); WordIs(block, w, 63, 0xe0ba3c7d);
  }

  lemma FirstWords64(block: seq<Byte>, w: seq<Word>)
    requires |block| == 64 && w == Schedule(block, 80)
    requires
      Sixteen(w, 48, 0xe8be56b0, 0x1a0ae652, 0xcd5611c8, 0x46ef29dc, 0x60d3da6d, 0xddf3ba6e, 0x2737f5e9, 0x4888a710,
        0xd2a1177b, 0x9999633b, 0xd6c69d03, 0xccf6127b, 0x7c58fe6d, 0xfdd99c68, 0xf8e32074, 0xe0ba3c7d)
    ensures
      Sixteen(w, 64, 0x152198d6, 0x7b3f1982, 0x37f2d5b7, 0x8596323e, 0x810790d6, 0xbea0a942, 0x11c7e1b1, 0x6158d101,
        0x5fcd77d9, 0x7f2f12e6, 0xf868cfb1, 0xd6e997e9, 0xf526b852, 0xb7578dcc, 0x55d99df4, 0x1ff69958)
  {
    WordIs(block, w, 64, 0x152198d6); WordIs(block, w, 65, 0x7b3f1982);
    WordIs(block, w, 66, 0x37f2d5b7); WordIs(block, w, 67, 0x8596323e);
    WordIs(block, w, 68, 0x810790d6); WordIs(block, w, 69, 0xbea0a942);
    WordIs(block, w, 70, 0x11c7e1b1); WordIs(block, w, 71, 0x6158d101);
    WordIs(block, w, 72, 0x5fcd77d9); WordIs(block, w, 73, 0x7f2f12e6);
    WordIs(block, w, 74, 0xf868cfb1); WordIs(block, w, 75, 0xd6e997e9);
    WordIs(block, w, 76, 0xf526b852); WordIs(block, w, 77, 0xb7578dcc);
    WordIs(block, w, 78, 0x55d99df4); WordIs(block, w, 79, 0x1ff69958);
  }

  lemma FirstRounds0(h: State, w: seq<Word>)
    requires |w| == 80
    requires Rounds(h, w, 0) == State(0x67452301, 0xefcdab89, 0x98badcfe, 0x10325476, 0xc3d2e1f0)
    requires
      Sixteen(w, 0, 0x61626364, 0x62636465, 0x63646566, 0x64656667, 0x65666768, 0x66676869, 0x6768696a, 0x68696a6b,
        0x696a6b6c, 0x6a6b6c6d, 0x6b6c6d6e, 0x6c6d6e6f, 0x6d6e6f70, 0x6e6f7071, 0x80000000, 0x00000000)
    ensures Rounds(h, w, 16) == State(0x42637e39, 0xb2e7a8be, 0x4cbe52a1, 0xa180d207, 0xb867b2a8)
  {
    RoundIs(h, w, 0, 0x0116fc17, 0x7bf36ae2); RoundIs(h, w, 1, 0xebf3b452, 0x59d148c0);
    RoundIs(h, w, 2, 0x5109913a, 0xc045bf05); RoundIs(h, w, 3, 0x2c4f6eac, 0xbafced14);
    RoundIs(h, w, 4, 0x33f4ae5b, 0x9442644e); RoundIs(h, w, 5, 0x96b85189, 0x0b13dbab);
    RoundIs(h, w, 6, 0xdb04cb58, 0xccfd2b96); RoundIs(h, w, 7, 0x45833f0f, 0x65ae1462);
    RoundIs(h, w, 8, 0xc565c35e, 0x36c132d6); RoundIs(h, w, 9, 0x6350afda, 0xd160cfc3);
    RoundIs(h, w, 10, 0x8993ea77, 0xb15970d7); RoundIs(h, w, 11, 0xe19ecaa2, 0x98d42bf6);
    RoundIs(h, w, 12, 0x8603481e, 0xe264fa9d); RoundIs(h, w, 13, 0x32f94a85, 0xb867b2a8);
    RoundIs(h, w, 14, 0xb2e7a8be, 0xa180d207); RoundIs(h, w, 15, 0x42637e39, 0x4cbe52a1);
  }

  lemma FirstRounds16(h: State, w: seq<Word>)
    requires |w| == 80
    requires Rounds(h, w, 16) == State(0x42637e39, 0xb2e7a8be, 0x4cbe52a1, 0xa180d207, 0xb867b2a8)
    requires
      Sixteen(w, 16, 0x0a063a3e, 0xd8dadcdf, 0xdadcdec0, 0xc8d2b4be, 0x6f757b5b, 0x757b5967, 0x8da16d70, 0xdaeefaba,
        0xfaf6cab6, 0xa6fb675a, 0x0c604cc8, 0x604cc02c, 0x49c0e6e2, 0x2ee8cbbc, 0xcfd72ec4, 0x97e9810e)
    ensures Rounds(h, w, 32) == State(0x52e31f60, 0xa9c84bec, 0x816d15ec, 0x78448908, 0x3549a991)
  {
    RoundIs(h, w, 16, 0x6b068048, 0xacb9ea2f); RoundIs(h, w, 17, 0x426b9c35, 0x5098df8e);
    RoundIs(h, w, 18, 0x944b1bd1, 0x1ac1a012); RoundIs(h, w, 19, 0x6c445652, 0x509ae70d);
    RoundIs(h, w, 20, 0x95836da5, 0x6512c6f4); RoundIs(h, w, 21, 0x09511177, 0x9b111594);
    RoundIs(h, w, 22, 0xe2b92dc4, 0x6560db69); RoundIs(h, w, 23, 0xfd224575, 0xc254445d);
    RoundIs(h, w, 24, 0xeeb82d9a, 0x38ae4b71); RoundIs(h, w, 25, 0x5a142c1a, 0x7f48915d);
    RoundIs(h, w, 26, 0x2972f7c7, 0xbbae0b66); RoundIs(h, w, 27, 0xd526a644, 0x96850b06);
    RoundIs(h, w, 28, 0xe1122421, 0xca5cbdf1); RoundIs(h, w, 29, 0x05b457b2, 0x3549a991);
    RoundIs(h, w, 30, 0xa9c84bec, 0x78448908); RoundIs(h, w, 31, 0x52e31f60, 0x816d15ec);
  }

  lemma FirstRounds32(h: State, w: seq<Word>)
    requires |w| == 80
    requires Rounds(h, w, 32) == State(0x52e31f60, 0xa9c84bec, 0x816d15ec, 0x78448908, 0x3549a991)
    requires
      Sixteen(w, 32, 0x0989cbe8, 0xf24843fe, 0x5c40d0ba, 0xa8d9cc3b, 0xb2b9666e, 0xba7b71b7, 0x20b28a72, 0xb28af500,
        0x8ac87842, 0x289addf4, 0x56d51f21, 0xd96b7fd2, 0x3868e778, 0xab5e4848, 0x7f0e2118, 0xde87a111)
    ensures Rounds(h, w, 48) == State(0xc8a69090, 0xa2ad4f02, 0xb1ba8907, 0x26307a99, 0x58cfa558)
  {
    RoundIs(h, w, 32, 0x5af3242c, 0x2a7212fb); RoundIs(h, w, 33, 0x31c756a9, 0x14b8c7d8);
    RoundIs(h, w, 34, 0xe9ac987c, 0x16bcc90b); RoundIs(h, w, 35, 0xab7c32ee, 0x4c71d5aa);
    RoundIs(h, w, 36, 0x5933fc99, 0x3a6b261f); RoundIs(h, w, 37, 0x43f87ae9, 0xaadf0cbb);
    RoundIs(h, w, 38, 0x24957f22, 0x564cff26); RoundIs(h, w, 39, 0xadeb7478, 0x50fe1eba);
    RoundIs(h, w, 40, 0xd70e5010, 0x89255fc8); RoundIs(h, w, 41, 0x79bcfb08, 0x2b7add1e);
    RoundIs(h, w, 42, 0xf9bcb8de, 0x35c39404); RoundIs(h, w, 43, 0x633e9561, 0x1e6f3ec2);
    RoundIs(h, w, 44, 0x98c1ea64, 0xbe6f2e37); RoundIs(h, w, 45, 0xc6ea241e, 0x58cfa558);
    RoundIs(h, w, 46, 0xa2ad4f02, 0x26307a99); RoundIs(h, w, 47, 0xc8a69090, 0xb1ba8907);
  }

  lemma FirstRounds48(h: State, w: seq<Word>)
    requires |w| == 80
    requires Rounds(h, w, 48) == State(0xc8a69090, 0xa2ad4f02, 0xb1ba8907, 0x26307a99, 0x58cfa558)
    requires
      Sixteen(w, 48, 0xe8be56b0, 0x1a0ae652, 0xcd5611c8, 0x46ef29dc, 0x60d3da6d, 0xddf3ba6e, 0x2737f5e9, 0x4888a710,
        0xd2a1177b, 0x9999633b, 0xd6c69d03, 0xccf6127b, 0x7c58fe6d, 0xfdd99c68, 0xf8e32074, 0xe0ba3c7d)
    ensures Rounds(h, w, 64) == State(0x513f9ca0, 0x2bfaf7a8, 0x10203537, 0xcd8952c4, 0xe7bddd70)
  {
    RoundIs(h, w, 48, 0x88341600, 0xa8ab53c0); RoundIs(h, w, 49, 0x7e846f58, 0x3229a424);
    RoundIs(h, w, 50, 0x86e358ba, 0x220d0580); RoundIs(h, w, 51, 0x8d2e76c8, 0x1fa11bd6);
    RoundIs(h, w, 52, 0xce892e10, 0xa1b8d62e); RoundIs(h, w, 53, 0xedea95b1, 0x234b9db2);
    RoundIs(h, w, 54, 0x36d1230a, 0x33a24b84); RoundIs(h, w, 55, 0x776c3910, 0x7b7aa56c);
    RoundIs(h, w, 56, 0xa681b723, 0x8db448c2); RoundIs(h, w, 57, 0xac0a794f, 0x1ddb0e44);
    RoundIs(h, w, 58, 0xf03d3782, 0xe9a06dc8); RoundIs(h, w, 59, 0x9ef775c3, 0xeb029e53);
    RoundIs(h, w, 60, 0x36254b13, 0xbc0f4de0); RoundIs(h, w, 61, 0x4080d4dc, 0xe7bddd70);
    RoundIs(h, w, 62, 0x2bfaf7a8, 0xcd8952c4); RoundIs(h, w, 63, 0x513f9ca0, 0x10203537);
  }

  lemma FirstRounds64(h: State, w: seq<Word>)
    requires |w| == 80
    requires Rounds(h, w, 64) == State(0x513f9ca0, 0x2bfaf7a8, 0x10203537, 0xcd8952c4, 0xe7bddd70)
    requires
      Sixteen(w, 64, 0x152198d6, 0x7b3f1982, 0x37f2d5b7, 0x8596323e, 0x810790d6, 0xbea0a942, 0x11c7e1b1, 0x6158d101,
        0x5fcd77d9, 0x7f2f12e6, 0xf868cfb1, 0xd6e997e9, 0xf526b852, 0xb7578dcc, 0x55d99df4, 0x1ff69958)
    ensures Rounds(h, w, 80) == State(0x8ce34517, 0xd3ad7c25, 0x6b4e1883, 0x74351cd2, 0x86838382)
  {
    RoundIs(h, w, 64, 0xe5895c81, 0x0afebdea); RoundIs(h, w, 65, 0x1037d2d5, 0x144fe728);
    RoundIs(h, w, 66, 0x14a82da9, 0x79625720); RoundIs(h, w, 67, 0x6d17c9fd, 0x440df4b5);
    RoundIs(h, w, 68, 0x2c7b07bd, 0x452a0b6a); RoundIs(h, w, 69, 0xfdf6efff, 0x5b45f27f);
    RoundIs(h, w, 70, 0x112b96e3, 0x4b1ec1ef); RoundIs(h, w, 71, 0x84065712, 0xff7dbbff);
    RoundIs(h, w, 72, 0xab89fb71, 0xc44ae5b8); RoundIs(h, w, 73, 0xc5210e35, 0xa10195c4);
    RoundIs(h, w, 74, 0x352d9f4b, 0x6ae27edc); RoundIs(h, w, 75, 0x1a0e0e0a, 0x7148438d);
    RoundIs(h, w, 76, 0xd0d47349, 0xcd4b67d2); RoundIs(h, w, 77, 0xad38620d, 0x86838382);
    RoundIs(h, w, 78, 0xd3ad7c25, 0x74351cd2); RoundIs(h, w, 79, 0x8ce34517, 0x6b4e1883);
  }

  lemma FirstCompressed(block: seq<Byte>)
    requires |block| == 64
    requires var w := Schedule(block, 80);
      Sixteen(w, 0, 0x61626364, 0x62636465, 0x63646566, 0x64656667, 0x65666768, 0x66676869, 0x6768696a, 0x68696a6b,
        0x696a6b6c, 0x6a6b6c6d, 0x6b6c6d6e, 0x6c6d6e6f, 0x6d6e6f70, 0x6e6f7071, 0x80000000, 0x00000000)
    ensures Compress(State(0x67452301, 0xefcdab89, 0x98badcfe, 0x10325476, 0xc3d2e1f0), block) ==
      State(0xf4286818, 0xc37b27ae, 0x0408f581, 0x84677148, 0x4a566572)
  {
    var h, w := State(0x67452301, 0xefcdab89, 0x98badcfe, 0x10325476, 0xc3d2e1f0), Schedule(block, 80);
    FirstWords16(block, w);
    FirstWords32(block, w);
    FirstWords48(block, w);
    FirstWords64(block, w);
    FirstRounds0(h, w);
    FirstRounds16(h, w);
    FirstRounds32(h, w);
    FirstRounds48(h, w);
    FirstRounds64(h, w);
  }

  // Its second block.

  lemma LastWords16(block: seq<Byte>, w: seq<Word>)
    requires |block| == 64 && w == Schedule(block, 80)
    requires
      Sixteen(w, 0, 0x00000000, 0x00000000, 0x00000000, 0x00000000, 0x00000000, 0x00000000, 0x00000000, 0x00000000,
        0x00000000, 0x00000000, 0x00000000, 0x00000000, 0x00000000, 0x00000000, 0x00000000, 0x000001c0)
    ensures
      Sixteen(w, 16, 0x00000000, 0x00000000, 0x00000380, 0x00000000, 0x00000000, 0x00000700, 0x00000000, 0x00000380,
        0x00000e00, 0x00000000, 0x00000000, 0x00001c00, 0x00000000, 0x00000d80, 0x00003800, 0x00000480)
  {
    WordIs(block, w, 16, 0x00000000); WordIs(block, w, 17, 0x00000000);
    WordIs(block, w, 18, 0x00000380); WordIs(block, w, 19, 0x00000000);
    WordIs(block, w, 20, 0x00000000); WordIs(block, w, 21, 0x00000700);
    WordIs(block, w, 22, 0x00000000); WordIs(block, w, 23, 0x00000380);
    WordIs(block, w, 24, 0x00000e00); WordIs(block, w, 25, 0x00000000);
    WordIs(block, w, 26, 0x00000000); WordIs(block, w, 27, 0x00001c00);
    WordIs(block, w, 28, 0x00000000); WordIs(block, w, 29, 0x00000d80);
    WordIs(block, w, 30, 0x00003800); WordIs(block, w, 31, 0x00000480);
  }

  lemma LastWords32(block: seq<Byte>, w: seq<Word>)
    requires |block| == 64 && w == Schedule(block, 80)
    requires
      Sixteen(w, 16, 0x00000000, 0x00000000, 0x00000380, 0x00000000, 0x00000000, 0x00000700, 0x00000000, 0x00000380,
        0x00000e00, 0x00000000, 0x00000000, 0x00001c00, 0x00000000, 0x00000d80, 0x00003800, 0x00000480)
    ensures
      Sixteen(w, 32, 0x00000000, 0x00007000, 0x00000e00, 0x00003600, 0x0000e000, 0x00000e00, 0x00000000, 0x0001ce00,
        0x00000000, 0x0000d800, 0x00038000, 0x00004f00, 0x00000000, 0x00070e00, 0x0000ee00, 0x00037500)
  {
    WordIs(block, w, 32, 0x00000000); WordIs(block, w, 33, 0x00007000);
    WordIs(block, w, 34, 0x00000e00); WordIs(block, w, 35, 0x00003600);
    WordIs(block, w, 36, 0x0000e000); WordIs(block, w, 37, 0x00000e00);
    WordIs(block, w, 38, 0x00000000); WordIs(block, w, 39, 0x0001ce00);
    WordIs(block, w, 40, 0x00000000); WordIs(block, w, 41, 0x0000d800);
    WordIs(block, w, 42, 0x00038000); WordIs(block, w, 43, 0x00004f00);
    WordIs(block, w, 44, 0x00000000); WordIs(block, w, 45, 0x00070e00);
    WordIs(block, w, 46, 0x0000ee00); WordIs(block, w, 47, 0x00037500);
  }

  lemma LastWords48(block: seq<Byte>, w: seq<Word>)
    requires |block| == 64 && w == Schedule(block, 80)
    requires
      Sixteen(w, 32, 0x00000000, 0x00007000, 0x00000e00, 0x00003600, 0x0000e000, 0x00000e00, 0x00000000, 0x0001ce00,
        0x00000000, 0x0000d800, 0x00038000, 0x00004f00, 0x00000000, 0x00070e00, 0x0000ee00, 0x00037500)
    ensures
      Sixteen(w, 48, 0x000e0000, 0x0000e000, 0x00003600, 0x001cee00, 0x00000000, 0x000df000, 0x00380000, 0x0004c600,
        0x0000e000, 0x0070ee00, 0x000ee000, 0x00369e00, 0x00e00000, 0x000ed600, 0x0000e000, 0x01cea600)
  {
    WordIs(block, w, 48, 0x000e0000); WordIs(block, w, 49, 0x0000e000);
    WordIs(block, w, 50, 0x00003600); WordIs(block, w, 51, 0x001cee00);
    WordIs(block, w, 52, 0x00000000); WordIs(block, w, 53, 0x000df000);
    WordIs(block, w, 54, 0x00380000); WordIs(block, w, 55, 0x0004c600);
    WordIs(block, w, 56, 0x0000e000); WordIs(block, w, 57, 0x0070ee00);
    WordIs(block, w, 58, 0x000ee000); WordIs(block, w, 59, 0x00369e00);
    WordIs(block, w, 60, 0x00e00000); WordIs(block, w, 61, 0x000ed600);
    WordIs(block, w, 62, 0x0000e000); WordIs(block, w, 63, 0x01cea600);
  }

  lemma LastWords64(block: seq<Byte>, w: seq<Word>)
    requires |block| == 64 && w == Schedule(block, 80)
    requires
      Sixteen(w, 48, 0x000e0000, 0x0000e000, 0x00003600, 0x001cee00, 0x00000000, 0x000df000, 0x00380000, 0x0004c600,
        0x0000e000, 0x0070ee00, 0x000ee000, 0x00369e00, 0x00e00000, 0x000ed600, 0x0000e000, 0x01cea600)
    ensures
      Sixteen(w, 64, 0x00000000, 0x00d80000, 0x0380e000, 0x004f0000, 0x00000000, 0x070e0000, 0x00ee0000, 0x03751c00,
        0x0e000000, 0x00e0e000, 0x00363800, 0x1cee9000, 0x00000000, 0x0df09000, 0x3800e000, 0x04c77400)
  {
    WordIs(block, w, 64, 0x00000000); WordIs(block, w, 65, 0x00d80000);
    WordIs(block, w, 66, 0x0380e000); WordIs(block, w, 67, 0x004f0000);
    WordIs(block, w, 68, 0x00000000); WordIs(block, w, 69, 0x070e0000);
    WordIs(block, w, 70, 0x00ee0000); WordIs(block, w, 71, 0x03751c00);
    WordIs(block, w, 72, 0x0e000000); WordIs(block, w, 73, 0x00e0e000);
    WordIs(block, w, 74, 0x00363800); WordIs(block, w, 75, 0x1cee9000);
    WordIs(block, w, 76, 0x00000000); WordIs(block, w, 77, 0x0df09000);
    WordIs(block, w, 78, 0x3800e000); WordIs(block, w, 79, 0x04c77400);
  }

  lemma LastRounds0(h: State, w: seq<Word>)
    requires |w| == 80
    requires Rounds(h, w, 0) == State(0xf4286818, 0xc37b27ae, 0x0408f581, 0x84677148, 0x4a566572)
    requires
      Sixteen(w, 0, 0x00000000, 0x00000000, 0x00000000, 0x00000000, 0x00000000, 0x00000000, 0x00000000, 0x00000000,
        0x00000000, 0x00000000, 0x00000000, 0x00000000, 0x00000000, 0x00000000, 0x00000000, 0x000001c0)
    ensures Rounds(h, w, 16) == State(0xd9772360, 0x258b0baa, 0x2898132a, 0xffb35eef, 0xd0e89e4b)
  {
    RoundIs(h, w, 0, 0x2df257e9, 0xb0dec9eb); RoundIs(h, w, 1, 0x4d3dc58f, 0x3d0a1a06);
    RoundIs(h, w, 2, 0xc352bb05, 0x4b7c95fa); RoundIs(h, w, 3, 0xeef743c6, 0xd34f7163);
    RoundIs(h, w, 4, 0x41e34277, 0x70d4aec1); RoundIs(h, w, 5, 0x5443915c, 0xbbbdd0f1);
    RoundIs(h, w, 6, 0xe7fa0377, 0xd078d09d); RoundIs(h, w, 7, 0xc6946813, 0x1510e457);
    RoundIs(h, w, 8, 0xfdde1de1, 0xf9fe80dd); RoundIs(h, w, 9, 0xb8538aca, 0xf1a51a04);
    RoundIs(h, w, 10, 0x6ba94f63, 0x7f778778); RoundIs(h, w, 11, 0x43a2792f, 0xae14e2b2);
    RoundIs(h, w, 12, 0xfecd7bbf, 0xdaea53d8); RoundIs(h, w, 13, 0xa2604ca8, 0xd0e89e4b);
    RoundIs(h, w, 14, 0x258b0baa, 0xffb35eef); RoundIs(h, w, 15, 0xd9772360, 0x2898132a);
  }

  lemma LastRounds16(h: State, w: seq<Word>)
    requires |w| == 80
    requires Rounds(h, w, 16) == State(0xd9772360, 0x258b0baa, 0x2898132a, 0xffb35eef, 0xd0e89e4b)
    requires
      Sixteen(w, 16, 0x00000000, 0x00000000, 0x00000380, 0x00000000, 0x00000000, 0x00000700, 0x00000000, 0x00000380,
        0x00000e00, 0x00000000, 0x00000000, 0x00001c00, 0x00000000, 0x00000d80, 0x00003800, 0x00000480)
    ensures Rounds(h, w, 32) == State(0x8a4af384, 0x17986223, 0x028bec42, 0xc90a6f97, 0xd7105b6b)
  {
    RoundIs(h, w, 16, 0x5507db6e, 0x8962c2ea); RoundIs(h, w, 17, 0xa51b58bc, 0x365dc8d8);
    RoundIs(h, w, 18, 0xc2eb709f, 0x9541f6db); RoundIs(h, w, 19, 0xd8992153, 0x2946d62f);
    RoundIs(h, w, 20, 0x37482f5f, 0xf0badc27); RoundIs(h, w, 21, 0xee8700bd, 0xf6264854);
    RoundIs(h, w, 22, 0x9ad594b9, 0xcdd20bd7); RoundIs(h, w, 23, 0x8fbaa5b9, 0x7ba1c02f);
    RoundIs(h, w, 24, 0x88fb5867, 0x66b5652e); RoundIs(h, w, 25, 0xeec50521, 0x63eea96e);
    RoundIs(h, w, 26, 0x50bce434, 0xe23ed619); RoundIs(h, w, 27, 0x5c416daf, 0x7bb14148);
    RoundIs(h, w, 28, 0x2429be5f, 0x142f390d); RoundIs(h, w, 29, 0x0a2fb108, 0xd7105b6b);
    RoundIs(h, w, 30, 0x17986223, 0xc90a6f97); RoundIs(h, w, 31, 0x8a4af384, 0x028bec42);
  }

  lemma LastRounds32(h: State, w: seq<Word>)
    requires |w| == 80
    requires Rounds(h, w, 32) == State(0x8a4af384, 0x17986223, 0x028bec42, 0xc90a6f97, 0xd7105b6b)
    requires
      Sixteen(w, 32, 0x00000000, 0x00007000, 0x00000e00, 0x00003600, 0x0000e000, 0x00000e00, 0x00000000, 0x0001ce00,
        0x00000000, 0x0000d800, 0x00038000, 0x00004f00, 0x00000000, 0x00070e00, 0x0000ee00, 0x00037500)
    ensures Rounds(h, w, 48) == State(0x46f93b68, 0x7316056a, 0xb0f40cfa, 0xcf2bb5eb, 0x7b074f58)
  {
    RoundIs(h, w, 32, 0x6b629993, 0xc5e61888); RoundIs(h, w, 33, 0xf15f04f3, 0x2292bce1);
    RoundIs(h, w, 34, 0x295cc25b, 0xdad8a664); RoundIs(h, w, 35, 0x696da404, 0xfc57c13c);
    RoundIs(h, w, 36, 0xcef5ae12, 0xca573096); RoundIs(h, w, 37, 0x87d5b80c, 0x1a5b6901);
    RoundIs(h, w, 38, 0x84e2a5f2, 0xb3bd6b84); RoundIs(h, w, 39, 0x03bb6310, 0x21f56e03);
    RoundIs(h, w, 40, 0xc2d8f75f, 0xa138a97c); RoundIs(h, w, 41, 0xbfb25768, 0x00eed8c4);
    RoundIs(h, w, 42, 0x28589152, 0xf0b63dd7); RoundIs(h, w, 43, 0xec1d3d61, 0x2fec95da);
    RoundIs(h, w, 44, 0x3caed7af, 0x8a162454); RoundIs(h, w, 45, 0xc3d033ea, 0x7b074f58);
    RoundIs(h, w, 46, 0x7316056a, 0xcf2bb5eb); RoundIs(h, w, 47, 0x46f93b68, 0xb0f40cfa);
  }

  lemma LastRounds48(h: State, w: seq<Word>)
    requires |w| == 80
    requires Rounds(h, w, 48) == State(0x46f93b68, 0x7316056a, 0xb0f40cfa, 0xcf2bb5eb, 0x7b074f58)
    requires
      Sixteen(w, 48, 0x000e0000, 0x0000e000, 0x00003600, 0x001cee00, 0x00000000, 0x000df000, 0x00380000, 0x0004c600,
        0x0000e000, 0x0070ee00, 0x000ee000, 0x00369e00, 0x00e00000, 0x000ed600, 0x0000e000, 0x01cea600)
    ensures Rounds(h, w, 64) == State(0xd504902b, 0xf66d9bf4, 0x24d85327, 0xdeaac406, 0xe996063d)
  {
    RoundIs(h, w, 48, 0xdc8e7f26, 0x9cc5815a); RoundIs(h, w, 49, 0x850d411c, 0x11be4eda);
    RoundIs(h, w, 50, 0x7e4672c0, 0xb7239fc9); RoundIs(h, w, 51, 0x89fbd41d, 0x21435047);
    RoundIs(h, w, 52, 0x1797e228, 0x1f919cb0); RoundIs(h, w, 53, 0x431d65bc, 0x627ef507);
    RoundIs(h, w, 54, 0x2bdbb8cb, 0x05e5f88a); RoundIs(h, w, 55, 0x6da72e7f, 0x10c7596f);
    RoundIs(h, w, 56, 0xa8495a9b, 0xcaf6ee32); RoundIs(h, w, 57, 0xe785655a, 0xdb69cb9f);
    RoundIs(h, w, 58, 0x5b086c42, 0xea1256a6); RoundIs(h, w, 59, 0xa65818f7, 0xb9e15956);
    RoundIs(h, w, 60, 0x7aab101b, 0x96c21b10); RoundIs(h, w, 61, 0x93614c9c, 0xe996063d);
    RoundIs(h, w, 62, 0xf66d9bf4, 0xdeaac406); RoundIs(h, w, 63, 0xd504902b, 0x24d85327);
  }

  lemma LastRounds64(h: State, w: seq<Word>)
    requires |w| == 80
    requires Rounds(h, w, 64) == State(0xd504902b, 0xf66d9bf4, 0x24d85327, 0xdeaac406, 0xe996063d)
    requires
      Sixteen(w, 64, 0x00000000, 0x00d80000, 0x0380e000, 0x004f0000, 0x00000000, 0x070e0000, 0x00ee0000, 0x03751c00,
        0x0e000000, 0x00e0e000, 0x00363800, 0x1cee9000, 0x00000000, 0x0df09000, 0x3800e000, 0x04c77400)
    ensures Rounds(h, w, 80) == State(0x906fd62c, 0x58c0aac0, 0xb6a55520, 0x74e9b89d, 0x9af00b7f)
  {
    RoundIs(h, w, 64, 0x60a9da62, 0x3d9b66fd); RoundIs(h, w, 65, 0x8b687819, 0xf541240a);
    RoundIs(h, w, 66, 0x083e90c3, 0x982a7698); RoundIs(h, w, 67, 0xf6226bbf, 0x62da1e06);
    RoundIs(h, w, 68, 0x76c0563b, 0xc20fa430); RoundIs(h, w, 69, 0x989dd165, 0xfd889aef);
    RoundIs(h, w, 70, 0x8b2c7573, 0xddb0158e); RoundIs(h, w, 71, 0xae1b8e7b, 0x66277459);
    RoundIs(h, w, 72, 0xca1840de, 0xe2cb1d5c); RoundIs(h, w, 73, 0x16f3babb, 0xeb86e39e);
    RoundIs(h, w, 74, 0xd28d83ad, 0xb2861037); RoundIs(h, w, 75, 0x6bc02dfe, 0xc5bceeae);
    RoundIs(h, w, 76, 0xd3a6e275, 0x74a360eb); RoundIs(h, w, 77, 0xda955482, 0x9af00b7f);
    RoundIs(h, w, 78, 0x58c0aac0, 0x74e9b89d); RoundIs(h, w, 79, 0x906fd62c, 0xb6a55520);
  }

  lemma LastCompressed(block: seq<Byte>)
    requires |block| == 64
    requires var w := Schedule(block, 80);
      Sixteen(w, 0, 0x00000000, 0x00000000, 0x00000000, 0x00000000, 0x00000000, 0x00000000, 0x00000000, 0x00000000,
        0x00000000, 0x00000000, 0x00000000, 0x00000000, 0x00000000, 0x00000000, 0x00000000, 0x000001c0)
    ensures Compress(State(0xf4286818, 0xc37b27ae, 0x0408f581, 0x84677148, 0x4a566572), block) ==
      State(0x84983e44, 0x1c3bd26e, 0xbaae4aa1, 0xf95129e5, 0xe54670f1)
  {
    var h, w := State(0xf4286818, 0xc37b27ae, 0x0408f581, 0x84677148, 0x4a566572), Schedule(block, 80);
    LastWords16(block, w);
    LastWords32(block, w);
    LastWords48(block, w);
    LastWords64(block, w);
    LastRounds0(h, w);
    LastRounds16(h, w);
    LastRounds32(h, w);
    LastRounds48(h, w);
    LastRounds64(h, w);
  }

  // The digests.

  lemma BitsOf24()
    ensures BigEndian(24, 8) == [0, 0, 0, 0, 0, 0, 0, 24]
  {
  }

  lemma BitsOf448()
    ensures BigEndian(448, 8) == [0, 0, 0, 0, 0, 0, 1, 0xc0]
  {
  }

  lemma LoadIs(block: seq<Byte>, w: seq<Word>, t: nat, b0: Byte, b1: Byte, b2: Byte, b3: Byte, x: Word)
    requires |block| == 64 && w == Schedule(block, 80) && t < 16 && WordOf(b0, b1, b2, b3) == x
    requires block[4 * t] == b0 && block[4 * t + 1] == b1 && block[4 * t + 2] == b2 && block[4 * t + 3] == b3
    ensures w[t] == x
  {
    LoadedWord(block, 80, t);
  }

  lemma ZeroWords(block: seq<Byte>, w: seq<Word>, lo: nat, hi: nat)
    requires |block| == 64 && w == Schedule(block, 80) && lo <= hi <= 16
    requires forall k :: 4 * lo <= k < 4 * hi ==> block[k] == 0
    ensures forall t :: lo <= t < hi ==> w[t] == 0
  {
    forall t | lo <= t < hi ensures w[t] == 0 {
      LoadIs(block, w, t, 0, 0, 0, 0, 0);
    }
  }

  function Abc(): seq<Byte> {
    [0x61, 0x62, 0x63]
  }

  lemma AbcPadded(p: seq<Byte>)
    requires p == Padded(Abc())
    ensures |p| == 64 && p[0] == 0x61 && p[1] == 0x62 && p[2] == 0x63 && p[3] == 0x80
    ensures (forall k :: 4 <= k < 63 ==> p[k] == 0) && p[63] == 24
  {
    BitsOf24();
  }

  lemma AbcLoaded(p: seq<Byte>, w: seq<Word>)
    requires p == Padded(Abc()) && |p| == 64 && w == Schedule(p, 80)
    ensures
      Sixteen(w, 0, 0x61626380, 0x00000000, 0x00000000, 0x00000000, 0x00000000, 0x00000000, 0x00000000, 0x00000000,
        0x00000000, 0x00000000, 0x00000000, 0x00000000, 0x00000000, 0x00000000, 0x00000000, 0x00000018)
  {
    AbcPadded(p);
    LoadIs(p, w, 0, 0x61, 0x62, 0x63, 0x80, 0x61626380);
    ZeroWords(p, w, 1, 15);
    LoadIs(p, w, 15, 0, 0, 0, 24, 0x00000018);
  }

  lemma AbcHash()
    ensures HashBlocks(InitialHash(), Padded(Abc())) ==
      State(0xa9993e36, 0x4706816a, 0xba3e2571, 0x7850c26c, 0x9cd0d89d)
  {
    var p := Padded(Abc());
    AbcPadded(p);
    AbcLoaded(p, Schedule(p, 80));
    AbcCompressed(p);
    HashOne(InitialHash(), p);
  }

  lemma AbcBytes()
    ensures Digest(State(0xa9993e36, 0x4706816a, 0xba3e2571, 0x7850c26c, 0x9cd0d89d)) ==
      [0xa9, 0x99, 0x3e, 0x36, 0x47, 0x06, 0x81, 0x6a, 0xba, 0x3e,
       0x25, 0x71, 0x78, 0x50, 0xc2, 0x6c, 0x9c, 0xd0, 0xd8, 0x9d]
  {
  }

  /** The digest of abc. */
  lemma AbcDigest()
    ensures Sha1(Abc()) ==
      [0xa9, 0x99, 0x3e, 0x36, 0x47, 0x06, 0x81, 0x6a, 0xba, 0x3e,
       0x25, 0x71, 0x78, 0x50, 0xc2, 0x6c, 0x9c, 0xd0, 0xd8, 0x9d]
  {
    AbcHash();
    AbcBytes();
  }

  /** The letters abcd, bcde, cdef and so on up to nopq. */
  function Letters(): (r: seq<Byte>)
    ensures |r| == 56
  {
    seq(56, k requires 0 <= k < 56 => 0x61 + k / 4 + k % 4)
  }

  lemma LettersPadded()
    ensures var p := Padded(Letters());
      && |p| == 128 && (forall k :: 0 <= k < 56 ==> p[k] == 0x61 + k / 4 + k % 4) && p[56] == 0x80
      && (forall k :: 57 <= k < 126 ==> p[k] == 0) && p[126] == 1 && p[127] == 0xc0
  {
    BitsOf448();
    var p := Padded(Letters());
    assert |p| == 128 && p[56] == 0x80;
  }

  lemma LettersAt(p: seq<Byte>, t: nat)
    requires p == Padded(Letters()) && |p| == 128 && t < 14
    ensures p[4 * t] == 0x61 + t && p[4 * t + 1] == 0x62 + t && p[4 * t + 2] == 0x63 + t && p[4 * t + 3] == 0x64 + t
  {
    LettersPadded();
  }

  lemma LettersWord(p: seq<Byte>, block: seq<Byte>, w: seq<Word>, t: nat, b0: Byte, b1: Byte, b2: Byte, b3: Byte, x: Word)
    requires p == Padded(Letters()) && |p| == 128 && block == p[..64] && w == Schedule(block, 80) && t < 14
    requires b0 == 0x61 + t && b1 == b0 + 1 && b2 == b0 + 2 && b3 == b0 + 3 && WordOf(b0, b1, b2, b3) == x
    ensures w[t] == x
  {
    LettersAt(p, t);
    LoadIs(block, w, t, b0, b1, b2, b3, x);
  }

  lemma FirstLettersLoaded(p: seq<Byte>, block: seq<Byte>, w: seq<Word>)
    requires p == Padded(Letters()) && |p| == 128 && block == p[..64] && w == Schedule(block, 80)
    ensures
      w[0] == 0x61626364 && w[1] == 0x62636465 && w[2] == 0x63646566 && w[3] == 0x64656667 && w[4] == 0x65666768 && w[5] == 0x66676869 && w[6] == 0x6768696a && w[7] == 0x68696a6b && w[8] == 0x696a6b6c && w[9] == 0x6a6b6c6d && w[10] == 0x6b6c6d6e && w[11] == 0x6c6d6e6f && w[12] == 0x6d6e6f70 && w[13] == 0x6e6f7071
  {
    LettersWord(p, block, w, 0, 0x61, 0x62, 0x63, 0x64, 0x61626364);
    LettersWord(p, block, w, 1, 0x62, 0x63, 0x64, 0x65, 0x62636465);
    LettersWord(p, block, w, 2, 0x63, 0x64, 0x65, 0x66, 0x63646566);
    LettersWord(p, block, w, 3, 0x64, 0x65, 0x66, 0x67, 0x64656667);
    LettersWord(p, block, w, 4, 0x65, 0x66, 0x67, 0x68, 0x65666768);
    LettersWord(p, block, w, 5, 0x66, 0x67, 0x68, 0x69, 0x66676869);
    LettersWord(p, block, w, 6, 0x67, 0x68, 0x69, 0x6a, 0x6768696a);
    LettersWord(p, block, w, 7, 0x68, 0x69, 0x6a, 0x6b, 0x68696a6b);
    LettersWord(p, block, w, 8, 0x69, 0x6a, 0x6b, 0x6c, 0x696a6b6c);
    LettersWord(p, block, w, 9, 0x6a, 0x6b, 0x6c, 0x6d, 0x6a6b6c6d);
    LettersWord(p, block, w, 10, 0x6b, 0x6c, 0x6d, 0x6e, 0x6b6c6d6e);
    LettersWord(p, block, w, 11, 0x6c, 0x6d, 0x6e, 0x6f, 0x6c6d6e6f);
    LettersWord(p, block, w, 12, 0x6d, 0x6e, 0x6f, 0x70, 0x6d6e6f70);
    LettersWord(p, block, w, 13, 0x6e, 0x6f, 0x70, 0x71, 0x6e6f7071);
  }

  lemma FirstLoaded(p: seq<Byte>, block: seq<Byte>, w: seq<Word>)
    requires p == Padded(Letters()) && |p| == 128 && block == p[..64] && w == Schedule(block, 80)
    ensures
      Sixteen(w, 0, 0x61626364, 0x62636465, 0x63646566, 0x64656667, 0x65666768, 0x66676869, 0x6768696a, 0x68696a6b,
        0x696a6b6c, 0x6a6b6c6d, 0x6b6c6d6e, 0x6c6d6e6f, 0x6d6e6f70, 0x6e6f7071, 0x80000000, 0x00000000)
  {
    FirstLettersLoaded(p, block, w);
    LettersPadded();
    LoadIs(block, w, 14, 0x80, 0, 0, 0, 0x80000000);
    LoadIs(block, w, 15, 0, 0, 0, 0, 0);
  }

  lemma LastLoaded(p: seq<Byte>, block: seq<Byte>, w: seq<Word>)
    requires p == Padded(Letters()) && |p| == 128 && block == p[64..] && w == Schedule(block, 80)
    ensures
      Sixteen(w, 0, 0x00000000, 0x00000000, 0x00000000, 0x00000000, 0x00000000, 0x00000000, 0x00000000, 0x00000000,
        0x00000000, 0x00000000, 0x00000000, 0x00000000, 0x00000000, 0x00000000, 0x00000000, 0x000001c0)
  {
    LettersPadded();
    ZeroWords(block, w, 0, 15);
    LoadIs(block, w, 15, 0, 0, 1, 0xc0, 0x000001c0);
  }

  lemma LettersHash()
    ensures HashBlocks(InitialHash(), Padded(Letters())) ==
      State(0x84983e44, 0x1c3bd26e, 0xbaae4aa1, 0xf95129e5, 0xe54670f1)
  {
    var p := Padded(Letters());
    LettersPadded();
    var first, last := p[..64], p[64..];
    FirstLoaded(p, first, Schedule(first, 80));
    FirstCompressed(first);
    LastLoaded(p, last, Schedule(last, 80));
    LastCompressed(last);
    HashOne(Compress(InitialHash(), first), last);
  }

  lemma LettersBytes()
    ensures Digest(State(0x84983e44, 0x1c3bd26e, 0xbaae4aa1, 0xf95129e5, 0xe54670f1)) ==
      [0x84, 0x98, 0x3e, 0x44, 0x1c, 0x3b, 0xd2, 0x6e, 0xba, 0xae,
       0x4a, 0xa1, 0xf9, 0x51, 0x29, 0xe5, 0xe5, 0x46, 0x70, 0xf1]
  {
  }

  /** The digest of the 56-byte message, over two blocks. */
  lemma LettersDigest()
    ensures Sha1(Letters()) ==
      [0x84, 0x98, 0x3e, 0x44, 0x1c, 0x3b, 0xd2, 0x6e, 0xba, 0xae,
       0x4a, 0xa1, 0xf9, 0x51, 0x29, 0xe5, 0xe5, 0x46, 0x70, 0xf1]
  {
    LettersHash();
    LettersBytes();
  }
}
