/** The blocks as FIPS 46-3 describes them: the program keeps both halves rotated by one bit, and exchanges bits in
    groups. */
module DesStandard {
  import opened Des

  /** Bit 'n' of a block, counted from 1 at the left. */
  function Nth(p: Pair, n: bv8): bv32
    requires 1 <= n <= 64
  {
    if n <= 32 then (p.x >> (32 - n)) & 1 else (p.y >> (64 - n)) & 1
  }

  /** A row of the table IP: the bits 'n', 'n' - 8, and so on. */
  function Row(p: Pair, n: bv8): bv32
    requires 57 <= n <= 64
  {
    (Nth(p, n) << 7) | (Nth(p, n - 8) << 6) | (Nth(p, n - 16) << 5) | (Nth(p, n - 24) << 4)
    | (Nth(p, n - 32) << 3) | (Nth(p, n - 40) << 2) | (Nth(p, n - 48) << 1) | Nth(p, n - 56)
  }

  function Rows(a: bv32, b: bv32, c: bv32, d: bv32): bv32 {
    (a << 24) | (b << 16) | (c << 8) | d
  }

  /** The table IP of FIPS 46-3. */
  function IP(p: Pair): Pair {
    Pair(Rows(Row(p, 58), Row(p, 60), Row(p, 62), Row(p, 64)), Rows(Row(p, 57), Row(p, 59), Row(p, 61), Row(p, 63)))
  }

  lemma Words4(x: bv32, y: bv32)
    ensures Xor(x, Up(4, And(Xor(Down(4, x), y), Mask(4)))) == (x & 0x0F0F0F0F) | ((y & 0x0F0F0F0F) << 4)
    ensures Xor(y, And(Xor(Down(4, x), y), Mask(4))) == (y & 0xF0F0F0F0) | ((x >> 4) & 0x0F0F0F0F)
  {
  }

  lemma Exchanged4(p: Pair)
    ensures Exchange(4, p) ==
      Pair((p.x & 0x0F0F0F0F) | ((p.y & 0x0F0F0F0F) << 4), (p.y & 0xF0F0F0F0) | ((p.x >> 4) & 0x0F0F0F0F))
  {
    hide Xor, And, Up, Down, Mask;
    Words4(p.x, p.y);
  }

  lemma Words16(x: bv32, y: bv32)
    ensures Xor(x, Up(16, And(Xor(Down(16, x), y), Mask(16)))) == (x & 0x0000FFFF) | ((y & 0x0000FFFF) << 16)
    ensures Xor(y, And(Xor(Down(16, x), y), Mask(16))) == (y & 0xFFFF0000) | ((x >> 16) & 0x0000FFFF)
  {
  }

  lemma Exchanged16(p: Pair)
    ensures Exchange(16, p) ==
      Pair((p.x & 0x0000FFFF) | ((p.y & 0x0000FFFF) << 16), (p.y & 0xFFFF0000) | ((p.x >> 16) & 0x0000FFFF))
  {
    hide Xor, And, Up, Down, Mask;
    Words16(p.x, p.y);
  }

  lemma Words2(x: bv32, y: bv32)
    ensures Xor(x, Up(2, And(Xor(Down(2, x), y), Mask(2)))) == (x & 0x33333333) | ((y & 0x33333333) << 2)
    ensures Xor(y, And(Xor(Down(2, x), y), Mask(2))) == (y & 0xCCCCCCCC) | ((x >> 2) & 0x33333333)
  {
  }

  lemma Exchanged2(p: Pair)
    ensures Exchange(2, p) ==
      Pair((p.x & 0x33333333) | ((p.y & 0x33333333) << 2), (p.y & 0xCCCCCCCC) | ((p.x >> 2) & 0x33333333))
  {
    hide Xor, And, Up, Down, Mask;
    Words2(p.x, p.y);
  }

  lemma Words8(x: bv32, y: bv32)
    ensures Xor(x, Up(8, And(Xor(Down(8, x), y), Mask(8)))) == (x & 0x00FF00FF) | ((y & 0x00FF00FF) << 8)
    ensures Xor(y, And(Xor(Down(8, x), y), Mask(8))) == (y & 0xFF00FF00) | ((x >> 8) & 0x00FF00FF)
  {
  }

  lemma Exchanged8(p: Pair)
    ensures Exchange(8, p) ==
      Pair((p.x & 0x00FF00FF) | ((p.y & 0x00FF00FF) << 8), (p.y & 0xFF00FF00) | ((p.x >> 8) & 0x00FF00FF))
  {
    hide Xor, And, Up, Down, Mask;
    Words8(p.x, p.y);
  }

  /** DES_IP is the table IP, with both halves rotated by one bit. */
  lemma InitialIsIP(p: Pair)
    ensures InitialPermutation(p) == Pair(Left1(IP(p).x), Left1(IP(p).y))
  {
    hide Exchange;
    var a := Exchange(4, p);
    var b := Flip(Exchange(16, a));
    var c := Exchange(2, b);
    var d := Flip(Exchange(8, c));
    Exchanged4(p);
    Exchanged16(a);
    Exchanged2(b);
    Exchanged8(c);
  }

  // ----- the rounds -----

  function Bit(v: bv32, n: bv8): bv32
    requires 1 <= n <= 32
  {
    (v >> (32 - n)) & 1
  }

  /** A row of the table E. */
  function Selected(v: bv32, a: bv8, b: bv8, c: bv8, d: bv8, e: bv8, f: bv8): bv6
    requires 1 <= a <= 32 && 1 <= b <= 32 && 1 <= c <= 32 && 1 <= d <= 32 && 1 <= e <= 32 && 1 <= f <= 32
  {
    ((Bit(v, a) << 5) | (Bit(v, b) << 4) | (Bit(v, c) << 3) | (Bit(v, d) << 2) | (Bit(v, e) << 1) | Bit(v, f)) as bv6
  }

  /** Six bits of a word of the key. */
  function Part(k: bv32, n: bv8): bv6
    requires n <= 24
  {
    ((k >> n) & 0x3F) as bv6
  }

  /** The rows of the table E with even numbers, with the bits of the key, go through their tables. */
  function EvenTables(sb: Tables, r: bv32, k: bv32): bv32 {
    sb.sb8(Selected(r, 28, 29, 30, 31, 32, 1) ^ Part(k, 0)) ^ sb.sb6(Selected(r, 20, 21, 22, 23, 24, 25) ^ Part(k, 8))
    ^ sb.sb4(Selected(r, 12, 13, 14, 15, 16, 17) ^ Part(k, 16)) ^ sb.sb2(Selected(r, 4, 5, 6, 7, 8, 9) ^ Part(k, 24))
  }

  function OddTables(sb: Tables, r: bv32, k: bv32): bv32 {
    sb.sb7(Selected(r, 24, 25, 26, 27, 28, 29) ^ Part(k, 0)) ^ sb.sb5(Selected(r, 16, 17, 18, 19, 20, 21) ^ Part(k, 8))
    ^ sb.sb3(Selected(r, 8, 9, 10, 11, 12, 13) ^ Part(k, 16)) ^ sb.sb1(Selected(r, 32, 1, 2, 3, 4, 5) ^ Part(k, 24))
  }

  /** The cipher function. */
  function F(sb: Tables, r: bv32, k1: bv32, k2: bv32): bv32 {
    Xor(EvenTables(sb, r, k1), OddTables(sb, r, k2))
  }

  lemma EvenRows(r: bv32, k: bv32)
    ensures var t := k ^ Left1(r);
      && (t & 0x3F) as bv6 == Selected(r, 28, 29, 30, 31, 32, 1) ^ Part(k, 0)
      && ((t >> 8) & 0x3F) as bv6 == Selected(r, 20, 21, 22, 23, 24, 25) ^ Part(k, 8)
      && ((t >> 16) & 0x3F) as bv6 == Selected(r, 12, 13, 14, 15, 16, 17) ^ Part(k, 16)
      && ((t >> 24) & 0x3F) as bv6 == Selected(r, 4, 5, 6, 7, 8, 9) ^ Part(k, 24)
  {
  }

  lemma OddRows(r: bv32, k: bv32)
    ensures var u := k ^ Right4(Left1(r));
      && (u & 0x3F) as bv6 == Selected(r, 24, 25, 26, 27, 28, 29) ^ Part(k, 0)
      && ((u >> 8) & 0x3F) as bv6 == Selected(r, 16, 17, 18, 19, 20, 21) ^ Part(k, 8)
      && ((u >> 16) & 0x3F) as bv6 == Selected(r, 8, 9, 10, 11, 12, 13) ^ Part(k, 16)
      && ((u >> 24) & 0x3F) as bv6 == Selected(r, 32, 1, 2, 3, 4, 5) ^ Part(k, 24)
  {
  }

  lemma EvenLooked(sb: Tables, r: bv32, k: bv32)
    ensures LookedEven(sb, k ^ Left1(r)) == EvenTables(sb, r, k)
  {
    hide Left1, Selected, Part, Xor;
    EvenRows(r, k);
  }

  lemma OddLooked(sb: Tables, r: bv32, k: bv32)
    ensures LookedOdd(sb, k ^ Right4(Left1(r))) == OddTables(sb, r, k)
  {
    hide Left1, Selected, Part, Xor, Right4;
    OddRows(r, k);
  }

  /** What DES_ROUND adds is the cipher function of the half that is not rotated. */
  lemma ScrambleIsF(sb: Tables, r: bv32, k1: bv32, k2: bv32)
    ensures Scramble(sb, Left1(r), k1, k2) == F(sb, r, k1, k2)
  {
    hide Left1, Right4, EvenTables, OddTables, LookedEven, LookedOdd;
    EvenLooked(sb, r, k1);
    OddLooked(sb, r, k2);
  }

  // ----- the whole block -----

  /** The tables as the program has them: their values rotated like the halves. */
  function Rotated(sb: Tables): Tables {
    Tables(v => Left1(sb.sb1(v)), v => Left1(sb.sb2(v)), v => Left1(sb.sb3(v)), v => Left1(sb.sb4(v)),
           v => Left1(sb.sb5(v)), v => Left1(sb.sb6(v)), v => Left1(sb.sb7(v)), v => Left1(sb.sb8(v)))
  }

  lemma RotatesXor(a: bv32, b: bv32)
    ensures Xor(Left1(a), Left1(b)) == Left1(Xor(a, b))
  {
  }

  function Sum(a: bv32, b: bv32, c: bv32, d: bv32): bv32 {
    a ^ b ^ c ^ d
  }

  lemma RotatesSum(a: bv32, b: bv32, c: bv32, d: bv32)
    ensures Sum(Left1(a), Left1(b), Left1(c), Left1(d)) == Left1(Sum(a, b, c, d))
  {
  }

  lemma EvenSum(sb: Tables, r: bv32, k: bv32)
    ensures EvenTables(sb, r, k) ==
      Sum(sb.sb8(Selected(r, 28, 29, 30, 31, 32, 1) ^ Part(k, 0)),
        sb.sb6(Selected(r, 20, 21, 22, 23, 24, 25) ^ Part(k, 8)),
        sb.sb4(Selected(r, 12, 13, 14, 15, 16, 17) ^ Part(k, 16)),
        sb.sb2(Selected(r, 4, 5, 6, 7, 8, 9) ^ Part(k, 24)))
  {
    hide Selected, Part;
  }

  lemma OddSum(sb: Tables, r: bv32, k: bv32)
    ensures OddTables(sb, r, k) ==
      Sum(sb.sb7(Selected(r, 24, 25, 26, 27, 28, 29) ^ Part(k, 0)),
        sb.sb5(Selected(r, 16, 17, 18, 19, 20, 21) ^ Part(k, 8)),
        sb.sb3(Selected(r, 8, 9, 10, 11, 12, 13) ^ Part(k, 16)),
        sb.sb1(Selected(r, 32, 1, 2, 3, 4, 5) ^ Part(k, 24)))
  {
    hide Selected, Part;
  }

  lemma TablesRotate(sb: Tables, v: bv6)
    ensures Rotated(sb).sb1(v) == Left1(sb.sb1(v)) && Rotated(sb).sb2(v) == Left1(sb.sb2(v))
    ensures Rotated(sb).sb3(v) == Left1(sb.sb3(v)) && Rotated(sb).sb4(v) == Left1(sb.sb4(v))
    ensures Rotated(sb).sb5(v) == Left1(sb.sb5(v)) && Rotated(sb).sb6(v) == Left1(sb.sb6(v))
    ensures Rotated(sb).sb7(v) == Left1(sb.sb7(v)) && Rotated(sb).sb8(v) == Left1(sb.sb8(v))
  {
    hide Left1;
  }

  lemma EvenRotates(sb: Tables, r: bv32, k: bv32)
    ensures EvenTables(Rotated(sb), r, k) == Left1(EvenTables(sb, r, k))
  {
    hide *;
    var a, b := Selected(r, 28, 29, 30, 31, 32, 1) ^ Part(k, 0), Selected(r, 20, 21, 22, 23, 24, 25) ^ Part(k, 8);
    var c, d := Selected(r, 12, 13, 14, 15, 16, 17) ^ Part(k, 16), Selected(r, 4, 5, 6, 7, 8, 9) ^ Part(k, 24);
    EvenSum(sb, r, k);
    EvenSum(Rotated(sb), r, k);
    TablesRotate(sb, a);
    TablesRotate(sb, b);
    TablesRotate(sb, c);
    TablesRotate(sb, d);
    RotatesSum(sb.sb8(a), sb.sb6(b), sb.sb4(c), sb.sb2(d));
  }

  lemma OddRotates(sb: Tables, r: bv32, k: bv32)
    ensures OddTables(Rotated(sb), r, k) == Left1(OddTables(sb, r, k))
  {
    hide *;
    var a, b := Selected(r, 24, 25, 26, 27, 28, 29) ^ Part(k, 0), Selected(r, 16, 17, 18, 19, 20, 21) ^ Part(k, 8);
    var c, d := Selected(r, 8, 9, 10, 11, 12, 13) ^ Part(k, 16), Selected(r, 32, 1, 2, 3, 4, 5) ^ Part(k, 24);
    OddSum(sb, r, k);
    OddSum(Rotated(sb), r, k);
    TablesRotate(sb, a);
    TablesRotate(sb, b);
    TablesRotate(sb, c);
    TablesRotate(sb, d);
    RotatesSum(sb.sb7(a), sb.sb5(b), sb.sb3(c), sb.sb1(d));
  }

  /** DES_ROUND with halves and tables rotated is the round of the standard. */
  lemma ScrambleRotates(sb: Tables, l: bv32, r: bv32, k1: bv32, k2: bv32)
    ensures Xor(Left1(l), Scramble(Rotated(sb), Left1(r), k1, k2)) == Left1(Xor(l, F(sb, r, k1, k2)))
  {
    hide Left1, Scramble, EvenTables, OddTables, Rotated, Xor;
    ScrambleIsF(Rotated(sb), r, k1, k2);
    EvenRotates(sb, r, k1);
    OddRotates(sb, r, k2);
    RotatesXor(EvenTables(sb, r, k1), OddTables(sb, r, k2));
    RotatesXor(l, F(sb, r, k1, k2));
  }

  /** The rounds of the standard: the right half moves to the left, and what was there is changed. */
  function StandardRounds(sb: Tables, k: Subkeys, i: int, p: Pair): Pair
    requires 0 <= i <= 16
    decreases 16 - i
  {
    if i == 16 then p
    else StandardRounds(sb, k, i + 1, Pair(p.y, Xor(p.x, F(sb, p.y, k[2 * i], k[2 * i + 1]))))
  }

  function BothLeft(p: Pair): Pair {
    Pair(Left1(p.x), Left1(p.y))
  }

  /** How the program keeps the halves after 'i' rounds: it does not move them. */
  function Kept(i: int, p: Pair): Pair {
    if i % 2 == 0 then BothLeft(p) else Flip(BothLeft(p))
  }

  lemma RoundIsStandard(sb: Tables, k: Subkeys, i: int, p: Pair)
    requires 0 <= i < 16
    ensures Round(Rotated(sb), k, i, Kept(i, p)) ==
      Kept(i + 1, Pair(p.y, Xor(p.x, F(sb, p.y, k[2 * i], k[2 * i + 1]))))
  {
    ScrambleRotates(sb, p.x, p.y, k[2 * i], k[2 * i + 1]);
    hide Xor, Left1, F, Scramble, Rotated;
  }

  lemma {:induction false} RoundsAreStandard(sb: Tables, k: Subkeys, i: int, p: Pair)
    requires 0 <= i <= 16
    ensures Rounds(Rotated(sb), k, i, Kept(i, p)) == BothLeft(StandardRounds(sb, k, i, p))
    decreases 16 - i
  {
    hide Xor, BothLeft, F, Rotated, Round;
    if i < 16 {
      RoundIsStandard(sb, k, i, p);
      RoundsAreStandard(sb, k, i + 1, Pair(p.y, Xor(p.x, F(sb, p.y, k[2 * i], k[2 * i + 1]))));
    }
  }

  lemma LeftIsOneToOne(p: Pair, q: Pair)
    requires BothLeft(p) == BothLeft(q)
    ensures p == q
  {
    RotationsUndo(p.x);
    RotationsUndo(p.y);
    RotationsUndo(q.x);
    RotationsUndo(q.y);
    hide Left1, Right1;
  }

  /** des_crypt is the algorithm of the standard: under the table IP the result is what its sixteen rounds make of
      the block under IP, with the halves exchanged. */
  lemma CryptIsStandard(sb: Tables, k: Subkeys, b: Block)
    ensures IP(Load(DesCrypt(Rotated(sb), k, b))) == Flip(StandardRounds(sb, k, 0, IP(Load(b))))
  {
    hide *;
    var p := Load(b);
    var r := Rounds(Rotated(sb), k, 0, InitialPermutation(p));
    CryptUnderIP(sb, k, b);
    InitialIsBothLeft(p);
    InitialIsBothLeft(Load(DesCrypt(Rotated(sb), k, b)));
    RoundsAreStandard(sb, k, 0, IP(p));
    KeptAtFirst(IP(p));
    FlipsBothLeft(StandardRounds(sb, k, 0, IP(p)));
    LeftIsOneToOne(IP(Load(DesCrypt(Rotated(sb), k, b))), Flip(StandardRounds(sb, k, 0, IP(p))));
  }

  lemma KeptAtFirst(p: Pair)
    ensures Kept(0, p) == BothLeft(p)
  {
  }

  lemma FlipsBothLeft(p: Pair)
    ensures Flip(BothLeft(p)) == BothLeft(Flip(p))
  {
  }

  lemma InitialIsBothLeft(p: Pair)
    ensures InitialPermutation(p) == BothLeft(IP(p))
  {
    InitialIsIP(p);
    hide InitialPermutation, IP, Left1;
  }

  lemma CryptUnderIP(sb: Tables, k: Subkeys, b: Block)
    ensures InitialPermutation(Load(DesCrypt(Rotated(sb), k, b))) ==
      Flip(Rounds(Rotated(sb), k, 0, InitialPermutation(Load(b))))
  {
    hide InitialPermutation, FinalPermutation, Rounds, Rotated, Load, Store;
    var q := Flip(Rounds(Rotated(sb), k, 0, InitialPermutation(Load(b))));
    LoadStore(FinalPermutation(q), b);
    InitialUndoesFinal(q);
  }

  lemma WordBytes(a: bv8, b: bv8, c: bv8, d: bv8)
    ensures var w := Word(a, b, c, d);
      && w >> 24 == a as bv32 && (w >> 16) & 0xFF == b as bv32
      && (w >> 8) & 0xFF == c as bv32 && w & 0xFF == d as bv32
  {
  }

  /** The bits of a block are those of its bytes, the first byte at the left. */
  lemma BlockBytes(b: Block)
    ensures var p := Load(b);
      && p.x >> 24 == b[0] as bv32 && (p.x >> 16) & 0xFF == b[1] as bv32
      && (p.x >> 8) & 0xFF == b[2] as bv32 && p.x & 0xFF == b[3] as bv32
      && p.y >> 24 == b[4] as bv32 && (p.y >> 16) & 0xFF == b[5] as bv32
      && (p.y >> 8) & 0xFF == b[6] as bv32 && p.y & 0xFF == b[7] as bv32
  {
    hide Word;
    WordBytes(b[0], b[1], b[2], b[3]);
    WordBytes(b[4], b[5], b[6], b[7]);
  }

  /** A text is padded with 0x80 and zeros, up to the next whole block. */
  lemma PaddedIs(text: seq<bv8>)
    ensures Padded(text) == text + [0x80] + seq(7 - |text| % 8, _ => 0)
  {
    var n := |text| / 8 * 8;
    assert text[..n] + text[n..] == text;
    assert Padded(text) == text[..n] + (text[n..] + [0x80] + seq(7 - |text[n..]|, _ => 0));
  }

  /** The enciphered text, block by block. */
  lemma {:induction false} BlockByBlock(sb: Tables, k: Subkeys, text: seq<bv8>, i: nat)
    requires i * 8 + 8 <= |text|
    ensures |CryptAll(sb, k, text)| >= i * 8 + 8
    ensures CryptAll(sb, k, text)[i * 8..i * 8 + 8] == DesCrypt(sb, k, text[i * 8..i * 8 + 8])
    decreases i
  {
    hide DesCrypt;
    var first, rest: seq<bv8> := DesCrypt(sb, k, text[..8]), CryptAll(sb, k, text[8..]);
    assert CryptAll(sb, k, text) == first + rest;
    if i > 0 {
      BlockByBlock(sb, k, text[8..], i - 1);
      assert text[8..][(i - 1) * 8..(i - 1) * 8 + 8] == text[i * 8..i * 8 + 8];
      assert (first + rest)[i * 8..i * 8 + 8] == rest[(i - 1) * 8..(i - 1) * 8 + 8];
    } else {
      assert (first + rest)[..8] == first;
    }
  }
}
