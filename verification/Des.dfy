/** DES blocks, and texts of any length padded to whole blocks; see the section on deciphering of FIPS 46-3. */
module Des {

  datatype Option<T> = None | Some(value: T)

  /** The eight substitution tables, any ones; each is looked up with six bits. */
  datatype Tables = Tables(sb1: bv6 -> bv32, sb2: bv6 -> bv32, sb3: bv6 -> bv32, sb4: bv6 -> bv32,
                           sb5: bv6 -> bv32, sb6: bv6 -> bv32, sb7: bv6 -> bv32, sb8: bv6 -> bv32)

  /** Two halves of a block. */
  datatype Pair = Pair(x: bv32, y: bv32)

  // ----- the permutations -----

  function Xor(a: bv32, b: bv32): bv32 {
    a ^ b
  }

  function And(a: bv32, b: bv32): bv32 {
    a & b
  }

  predicate Step(n: int) {
    n == 2 || n == 4 || n == 8 || n == 16
  }

  function Mask(n: int): bv32
    requires Step(n)
  {
    if n == 2 then 0x33333333 else if n == 4 then 0x0F0F0F0F else if n == 8 then 0x00FF00FF else 0x0000FFFF
  }

  function Up(n: int, v: bv32): bv32
    requires Step(n)
  {
    if n == 2 then v << 2 else if n == 4 then v << 4 else if n == 8 then v << 8 else v << 16
  }

  function Down(n: int, v: bv32): bv32
    requires Step(n)
  {
    if n == 2 then v >> 2 else if n == 4 then v >> 4 else if n == 8 then v >> 8 else v >> 16
  }

  /** A line of the permutations: the bits of the one word, shifted down, that differ from those of the other
      under the mask are exchanged between the two. */
  function Exchange(n: int, p: Pair): Pair
    requires Step(n)
  {
    var t := And(Xor(Down(n, p.x), p.y), Mask(n));
    Pair(Xor(p.x, Up(n, t)), Xor(p.y, t))
  }

  function Flip(p: Pair): Pair {
    Pair(p.y, p.x)
  }

  /** The line without a shift: every second bit is exchanged. */
  function Exchange1(p: Pair): Pair {
    var t := (p.x ^ p.y) & 0xAAAAAAAA;
    Pair(p.x ^ t, p.y ^ t)
  }

  function Left1(v: bv32): bv32 {
    (v << 1) | (v >> 31)
  }

  function Right1(v: bv32): bv32 {
    (v << 31) | (v >> 1)
  }

  /** DES_IP. */
  function InitialPermutation(p: Pair): Pair {
    var q := Flip(Exchange(8, Exchange(2, Flip(Exchange(16, Exchange(4, p))))));
    var r := Exchange1(Pair(q.x, Left1(q.y)));
    Pair(Left1(r.x), r.y)
  }

  /** DES_FP. */
  function FinalPermutation(p: Pair): Pair {
    var q := Exchange1(Pair(Right1(p.x), p.y));
    Exchange(4, Exchange(16, Flip(Exchange(2, Exchange(8, Flip(Pair(q.x, Right1(q.y))))))))
  }

  lemma XorLaws(a: bv32, b: bv32, t: bv32)
    ensures Xor(Xor(a, t), t) == a && Xor(Xor(a, t), Xor(b, t)) == Xor(a, b)
  {
  }

  lemma MaskTwice(n: int, v: bv32)
    requires Step(n)
    ensures And(And(v, Mask(n)), Mask(n)) == And(v, Mask(n))
  {
  }

  predicate ShiftsBack(n: int, v: bv32, t: bv32)
    requires Step(n)
  {
    And(t, Mask(n)) == t ==> Down(n, Xor(v, Up(n, t))) == Xor(Down(n, v), t)
  }

  lemma ShiftsBack2(v: bv32, t: bv32)
    ensures ShiftsBack(2, v, t)
  {
  }

  lemma ShiftsBack4(v: bv32, t: bv32)
    ensures ShiftsBack(4, v, t)
  {
  }

  lemma ShiftsBack8(v: bv32, t: bv32)
    ensures ShiftsBack(8, v, t)
  {
  }

  lemma DownXor16(v: bv32, w: bv32)
    ensures (v ^ w) >> 16 == (v >> 16) ^ (w >> 16)
  {
  }

  lemma UpDown16(t: bv32)
    ensures t & 0xFFFF == t ==> (t << 16) >> 16 == t
  {
  }

  lemma ShiftsBack16(v: bv32, t: bv32)
    ensures ShiftsBack(16, v, t)
  {
    DownXor16(v, t << 16);
    UpDown16(t);
  }

  lemma Shifted(n: int, v: bv32, t: bv32)
    requires Step(n)
    ensures ShiftsBack(n, v, t)
  {
    hide ShiftsBack;
    ShiftsBack2(v, t);
    ShiftsBack4(v, t);
    ShiftsBack8(v, t);
    ShiftsBack16(v, t);
  }

  lemma ExchangeUndoes(n: int, p: Pair)
    requires Step(n)
    ensures Exchange(n, Exchange(n, p)) == p
  {
    hide Xor, And, Up, Down, Mask;
    var t := And(Xor(Down(n, p.x), p.y), Mask(n));
    MaskTwice(n, Xor(Down(n, p.x), p.y));
    Shifted(n, p.x, t);
    XorLaws(Down(n, p.x), p.y, t);
    XorLaws(p.x, p.y, Up(n, t));
    XorLaws(p.y, p.x, t);
  }

  lemma Exchange1Undoes(p: Pair)
    ensures Exchange1(Exchange1(p)) == p
  {
  }

  lemma RotationsUndo(v: bv32)
    ensures Right1(Left1(v)) == v && Left1(Right1(v)) == v
  {
  }

  /** DES_FP undoes DES_IP. */
  lemma FinalUndoesInitial(p: Pair)
    ensures FinalPermutation(InitialPermutation(p)) == p
  {
    hide Exchange, Exchange1, Left1, Right1;
    var a := Exchange(4, p);
    var b := Flip(Exchange(16, a));
    var c := Exchange(2, b);
    var d := Flip(Exchange(8, c));
    var e := Pair(d.x, Left1(d.y));
    ExchangeUndoes(4, p);
    ExchangeUndoes(16, a);
    ExchangeUndoes(2, b);
    ExchangeUndoes(8, c);
    Exchange1Undoes(e);
    RotationsUndo(d.y);
    RotationsUndo(Exchange1(e).x);
  }

  /** DES_IP undoes DES_FP. */
  lemma InitialUndoesFinal(p: Pair)
    ensures InitialPermutation(FinalPermutation(p)) == p
  {
    hide Exchange, Exchange1, Left1, Right1;
    var a := Pair(Right1(p.x), p.y);
    var b := Exchange1(a);
    var c := Flip(Pair(b.x, Right1(b.y)));
    var d := Exchange(8, c);
    var e := Flip(Exchange(2, d));
    var f := Exchange(16, e);
    Exchange1Undoes(a);
    ExchangeUndoes(8, c);
    ExchangeUndoes(2, d);
    ExchangeUndoes(16, e);
    ExchangeUndoes(4, f);
    RotationsUndo(p.x);
    RotationsUndo(b.y);
  }

  // ----- the rounds -----

  function Right4(v: bv32): bv32 {
    (v << 28) | (v >> 4)
  }

  function LookedEven(sb: Tables, t: bv32): bv32 {
    sb.sb8((t & 0x3F) as bv6) ^ sb.sb6(((t >> 8) & 0x3F) as bv6)
    ^ sb.sb4(((t >> 16) & 0x3F) as bv6) ^ sb.sb2(((t >> 24) & 0x3F) as bv6)
  }

  function LookedOdd(sb: Tables, u: bv32): bv32 {
    sb.sb7((u & 0x3F) as bv6) ^ sb.sb5(((u >> 8) & 0x3F) as bv6)
    ^ sb.sb3(((u >> 16) & 0x3F) as bv6) ^ sb.sb1(((u >> 24) & 0x3F) as bv6)
  }

  /** What DES_ROUND adds to one half, from the other and two words of the key. */
  function Scramble(sb: Tables, v: bv32, k1: bv32, k2: bv32): bv32 {
    Xor(LookedEven(sb, k1 ^ v), LookedOdd(sb, k2 ^ Right4(v)))
  }

  type Subkeys = k: seq<bv32> | |k| == 32 witness seq(32, _ => 0)

  /** Round 'i': the even ones are DES_ROUND(Y, X), the odd ones DES_ROUND(X, Y). */
  function Round(sb: Tables, k: Subkeys, i: int, p: Pair): Pair
    requires 0 <= i < 16
  {
    if i % 2 == 0 then Pair(Xor(p.x, Scramble(sb, p.y, k[2 * i], k[2 * i + 1])), p.y)
    else Pair(p.x, Xor(p.y, Scramble(sb, p.x, k[2 * i], k[2 * i + 1])))
  }

  /** Rounds 'i' to 15. */
  function Rounds(sb: Tables, k: Subkeys, i: int, p: Pair): Pair
    requires 0 <= i <= 16
    decreases 16 - i
  {
    if i == 16 then p else Rounds(sb, k, i + 1, Round(sb, k, i, p))
  }

  /** The subkeys in the order for deciphering. */
  function Reversed(k: Subkeys): Subkeys {
    seq(32, i requires 0 <= i < 32 => if i % 2 == 0 then k[30 - i] else k[32 - i])
  }

  /** A round of the deciphering takes back the round of the enciphering with the same key words. */
  lemma RoundUndoes(sb: Tables, k: Subkeys, i: int, p: Pair)
    requires 0 <= i < 16
    ensures Round(sb, Reversed(k), 15 - i, Flip(Round(sb, k, i, p))) == Flip(p)
  {
    hide Xor, Scramble;
    XorLaws(p.x, p.y, Scramble(sb, p.y, k[2 * i], k[2 * i + 1]));
    XorLaws(p.y, p.x, Scramble(sb, p.x, k[2 * i], k[2 * i + 1]));
  }

  lemma RoundsStep(sb: Tables, k: Subkeys, i: int, p: Pair)
    requires 0 <= i < 16
    ensures Rounds(sb, k, i, p) == Rounds(sb, k, i + 1, Round(sb, k, i, p))
  {
  }

  /** Sixteen rounds with the reversed keys undo sixteen rounds. */
  lemma {:induction false} RoundsUndo(sb: Tables, k: Subkeys, i: int, p: Pair)
    requires 0 <= i <= 16
    ensures Rounds(sb, Reversed(k), 0, Flip(Rounds(sb, k, i, p))) == Rounds(sb, Reversed(k), 16 - i, Flip(p))
    decreases 16 - i
  {
    hide Round, Rounds, Reversed;
    if i < 16 {
      var q := Round(sb, k, i, p);
      RoundsStep(sb, k, i, p);
      RoundsUndo(sb, k, i + 1, q);
      RoundUndoes(sb, k, i, p);
      RoundsStep(sb, Reversed(k), 15 - i, Flip(q));
    } else {
      RoundsEnd(sb, k, p);
    }
  }

  // ----- blocks -----

  type Block = b: seq<bv8> | |b| == 8 witness [0, 0, 0, 0, 0, 0, 0, 0]

  /** GET_UINT32. */
  function Word(a: bv8, b: bv8, c: bv8, d: bv8): bv32 {
    ((a as bv32) << 24) | ((b as bv32) << 16) | ((c as bv32) << 8) | (d as bv32)
  }

  /** PUT_UINT32. */
  function Bytes(v: bv32): seq<bv8> {
    [((v >> 24) & 0xFF) as bv8, ((v >> 16) & 0xFF) as bv8, ((v >> 8) & 0xFF) as bv8, (v & 0xFF) as bv8]
  }

  lemma BytesOfWord(a: bv8, b: bv8, c: bv8, d: bv8)
    ensures Bytes(Word(a, b, c, d)) == [a, b, c, d]
  {
  }

  lemma WordOfBytes(v: bv32)
    ensures Word(Bytes(v)[0], Bytes(v)[1], Bytes(v)[2], Bytes(v)[3]) == v
  {
  }

  function Load(b: Block): Pair {
    Pair(Word(b[0], b[1], b[2], b[3]), Word(b[4], b[5], b[6], b[7]))
  }

  function Store(p: Pair): Block {
    Bytes(p.x) + Bytes(p.y)
  }

  lemma LoadStore(p: Pair, b: Block)
    ensures Load(Store(p)) == p && Store(Load(b)) == b
  {
    hide Word, Bytes;
    BytesSize(p.x);
    BytesSize(p.y);
    WordOfBytes(p.x);
    WordOfBytes(p.y);
    BytesOfWord(b[0], b[1], b[2], b[3]);
    BytesOfWord(b[4], b[5], b[6], b[7]);
  }

  lemma BytesSize(v: bv32)
    ensures |Bytes(v)| == 4
  {
  }

  /** des_crypt. */
  function DesCrypt(sb: Tables, k: Subkeys, b: Block): Block {
    Store(FinalPermutation(Flip(Rounds(sb, k, 0, InitialPermutation(Load(b))))))
  }

  /** Deciphering undoes enciphering, whatever the tables and the key words are. */
  lemma BlockRoundTrip(sb: Tables, k: Subkeys, b: Block)
    ensures DesCrypt(sb, Reversed(k), DesCrypt(sb, k, b)) == b
  {
    hide Load, Store, FinalPermutation, InitialPermutation, Reversed, Rounds;
    var p := InitialPermutation(Load(b));
    var q := Rounds(sb, k, 0, p);
    LoadStore(FinalPermutation(Flip(q)), b);
    InitialUndoesFinal(Flip(q));
    RoundsUndo(sb, k, 0, p);
    RoundsEnd(sb, Reversed(k), Flip(p));
    FinalUndoesInitial(Load(b));
    assert Flip(Flip(p)) == p;
  }

  lemma RoundsEnd(sb: Tables, k: Subkeys, p: Pair)
    ensures Rounds(sb, k, 16, p) == p
  {
  }

  // ----- texts -----

  /** The text block by block, as long as there are whole blocks. */
  function CryptAll(sb: Tables, k: Subkeys, text: seq<bv8>): (r: seq<bv8>)
    ensures |r| == |text| / 8 * 8
  {
    if |text| < 8 then [] else DesCrypt(sb, k, text[..8]) + CryptAll(sb, k, text[8..])
  }

  /** The last, incomplete block: 0x80 and zeros up to eight bytes. */
  function Tail(rest: seq<bv8>): Block
    requires |rest| < 8
  {
    rest + [0x80] + seq(7 - |rest|, _ => 0)
  }

  function Padded(text: seq<bv8>): (r: seq<bv8>)
    ensures |r| == (|text| + 8) / 8 * 8
  {
    var n := |text| / 8 * 8;
    text[..n] + Tail(text[n..])
  }

  lemma {:induction false} CryptAllAppend(sb: Tables, k: Subkeys, a: seq<bv8>, b: seq<bv8>)
    requires |a| % 8 == 0
    ensures CryptAll(sb, k, a + b) == CryptAll(sb, k, a) + CryptAll(sb, k, b)
    decreases |a|
  {
    if a == [] {
      assert a + b == b;
    } else {
      assert (a + b)[..8] == a[..8] && (a + b)[8..] == a[8..] + b;
      CryptAllAppend(sb, k, a[8..], b);
    }
  }

  lemma OneBlock(sb: Tables, k: Subkeys, b: Block)
    ensures CryptAll(sb, k, b) == DesCrypt(sb, k, b)
  {
    hide DesCrypt;
    assert b[..8] == b && b[8..] == [];
  }

  lemma NextBlock(sb: Tables, k: Subkeys, text: seq<bv8>, i: nat)
    requires i + 8 <= |text| && i % 8 == 0
    ensures CryptAll(sb, k, text[..i + 8]) == CryptAll(sb, k, text[..i]) + DesCrypt(sb, k, text[i..i + 8])
  {
    hide DesCrypt, CryptAll;
    OneBlock(sb, k, text[i..i + 8]);
    CryptAllAppend(sb, k, text[..i], text[i..i + 8]);
    assert text[..i + 8] == text[..i] + text[i..i + 8];
  }

  lemma LastBlock(sb: Tables, k: Subkeys, text: seq<bv8>, i: nat, tail: Block)
    requires i == |text| / 8 * 8 && tail == Tail(text[i..])
    ensures CryptAll(sb, k, Padded(text)) == CryptAll(sb, k, text[..i]) + DesCrypt(sb, k, tail)
  {
    hide DesCrypt, CryptAll;
    OneBlock(sb, k, tail);
    CryptAllAppend(sb, k, text[..i], tail);
  }

  lemma TailIs(rest: seq<bv8>, tail: seq<bv8>)
    requires |rest| < 8 && |tail| == 8
    requires forall n :: 0 <= n < 8 ==> tail[n] == if n < |rest| then rest[n] else if n == |rest| then 0x80 else 0
    ensures tail == Tail(rest)
  {
  }

  /** ldesencode. */
  method DesEncode(sb: Tables, k: Subkeys, text: seq<bv8>) returns (r: seq<bv8>)
    ensures r == CryptAll(sb, k, Padded(text))
  {
    hide DesCrypt, CryptAll, Tail, Padded;
    r := [];
    var i := 0;
    NoBlocks(sb, k);
    while i < |text| - 7
      invariant 0 <= i <= |text| && i % 8 == 0 && r == CryptAll(sb, k, text[..i])
    {
      NextBlock(sb, k, text, i);
      r := r + DesCrypt(sb, k, text[i..i + 8]);
      i := i + 8;
    }
    var bytes := |text| - i;
    var tail: seq<bv8> := [];
    for j := 0 to 8
      invariant |tail| == j
      invariant forall n :: 0 <= n < j ==> tail[n] == if n < bytes then text[i..][n] else if n == bytes then 0x80 else 0
    {
      tail := tail + [if j < bytes then text[i + j] else if j == bytes then 0x80 else 0];
    }
    TailIs(text[i..], tail);
    LastBlock(sb, k, text, i, tail);
    r := r + DesCrypt(sb, k, tail);
  }

  lemma NoBlocks(sb: Tables, k: Subkeys)
    ensures CryptAll(sb, k, []) == []
  {
  }

  /** How many zeros a text ends with. */
  function Zeros(s: seq<bv8>): (n: nat)
    ensures n <= |s|
  {
    if s == [] || s[|s| - 1] != 0 then 0 else 1 + Zeros(s[..|s| - 1])
  }

  /** The text without its padding, when the last block ends in 0x80 and zeros. */
  function Unpadded(s: seq<bv8>): Option<seq<bv8>>
    requires |s| >= 8
  {
    var z := Zeros(s[|s| - 8..]);
    if z < 8 && s[|s| - 1 - z] == 0x80 then Some(s[..|s| - 1 - z]) else None
  }

  /** What ldesdecode comes to: a text, an error, or a read before the beginning of its buffer. */
  datatype Decoded = Text(text: seq<bv8>) | Invalid | Outside

  /** An int as a size_t, which it is compared with. */
  function Unsigned(i: int): int
  {
    if i < 0 then i + 0x1_0000_0000_0000_0000 else i
  }

  /** Whether the scan for the padding leaves the buffer: with a single block that is all zeros. */
  predicate LeavesBuffer(s: seq<bv8>) {
    |s| == 8 && forall i :: 0 <= i < 8 ==> s[i] == 0
  }

  function Stripped(s: seq<bv8>): Decoded
    requires |s| >= 8
  {
    if LeavesBuffer(s) then Outside
    else match Unpadded(s) case Some(t) => Text(t) case None => Invalid
  }

  lemma {:induction false} AllZeros(s: seq<bv8>)
    ensures Zeros(s) == |s| <==> forall i :: 0 <= i < |s| ==> s[i] == 0
  {
    if s != [] {
      AllZeros(s[..|s| - 1]);
    }
  }

  /** The end of ldesdecode: takes the padding off. The index is an int and the bound a size_t: below zero
      the comparison still holds, and the scan goes on outside. */
  method StripPadding(buffer: seq<bv8>) returns (r: Decoded)
    requires |buffer| >= 8
    ensures r == Stripped(buffer)
  {
    var padding := 1;
    var i := |buffer| - 1;
    ghost var n, last := |buffer|, buffer[|buffer| - 8..];
    assert last[..8] == last;
    AllZeros(last);
    while Unsigned(i) >= |buffer| - 8
      invariant n - 9 <= i < n && padding == n - i
      invariant Zeros(last) == n - 1 - i + Zeros(last[..i - (n - 8) + 1])
      decreases i + 1
    {
      if i < 0 {
        return Outside;
      }
      ghost var l := last[..i - (n - 8) + 1];
      assert l[|l| - 1] == buffer[i] && l[..|l| - 1] == last[..i - (n - 8)];
      if buffer[i] == 0 {
        padding := padding + 1;
      } else if buffer[i] == 0x80 {
        return Text(buffer[..|buffer| - padding]);
      } else {
        return Invalid;
      }
      i := i - 1;
    }
    return Invalid;
  }

  /** ldesdecode, with the subkeys of ldesencode. It leaves its buffer if and only if the text is one block
      that deciphers to zeros. */
  method DesDecode(sb: Tables, esk: Subkeys, text: seq<bv8>) returns (r: Decoded)
    ensures |text| == 0 || |text| % 8 != 0 ==> r == Invalid
    ensures |text| > 0 && |text| % 8 == 0 ==> r == Stripped(CryptAll(sb, Reversed(esk), text))
    ensures r == Outside <==> |text| == 8 && DesCrypt(sb, Reversed(esk), text) == seq(8, _ => 0)
  {
    hide DesCrypt, CryptAll, Stripped;
    var k := Reversed(esk);
    hide Reversed;
    if |text| % 8 != 0 || |text| == 0 {
      return Invalid;
    }
    var buffer: seq<bv8> := [];
    var i := 0;
    NoBlocks(sb, k);
    while i < |text|
      invariant 0 <= i <= |text| && i % 8 == 0 && buffer == CryptAll(sb, k, text[..i])
    {
      NextBlock(sb, k, text, i);
      buffer := buffer + DesCrypt(sb, k, text[i..i + 8]);
      i := i + 8;
    }
    assert text[..|text|] == text;
    r := StripPadding(buffer);
    OutsideExactly(sb, k, text);
  }

  lemma OutsideExactly(sb: Tables, k: Subkeys, text: seq<bv8>)
    requires |text| > 0 && |text| % 8 == 0
    ensures Stripped(CryptAll(sb, k, text)) == Outside <==> |text| == 8 && DesCrypt(sb, k, text) == seq(8, _ => 0)
  {
    hide DesCrypt, Unpadded;
    if |text| == 8 {
      OneBlock(sb, k, text);
    }
  }

  /** There is such a text for every key: the block that zeros are enciphered to. */
  method ReadsOutside(sb: Tables, k: Subkeys) returns (text: seq<bv8>, r: Decoded)
    ensures |text| == 8 && r == Outside
  {
    var zeros: Block := seq(8, _ => 0);
    BlockRoundTrip(sb, k, zeros);
    text := DesCrypt(sb, k, zeros);
    hide DesCrypt;
    r := DesDecode(sb, k, text);
  }

  // ----- the round trip -----

  lemma {:induction false} CryptAllUndoes(sb: Tables, k: Subkeys, text: seq<bv8>)
    requires |text| % 8 == 0
    ensures CryptAll(sb, Reversed(k), CryptAll(sb, k, text)) == text
    decreases |text|
  {
    hide DesCrypt, Reversed;
    if text == [] {
    } else {
      var b, rest := text[..8], text[8..];
      var c: seq<bv8>, d: seq<bv8> := DesCrypt(sb, k, b), CryptAll(sb, k, rest);
      assert (c + d)[..8] == c && (c + d)[8..] == d;
      BlockRoundTrip(sb, k, b);
      CryptAllUndoes(sb, k, rest);
    }
  }

  lemma {:induction false} ZerosAfter(s: seq<bv8>, n: nat)
    requires s != [] ==> s[|s| - 1] != 0
    ensures Zeros(s + seq(n, _ => 0)) == n
  {
    var t := s + seq(n, _ => 0);
    if n > 0 {
      assert t[..|t| - 1] == s + seq(n - 1, _ => 0);
      ZerosAfter(s, n - 1);
    } else {
      assert t == s;
    }
  }

  /** The padding comes off exactly, whatever the text ends with. */
  lemma PaddingComesOff(text: seq<bv8>)
    ensures Unpadded(Padded(text)) == Some(text)
  {
    var n := |text| / 8 * 8;
    var rest, p := text[n..], Padded(text);
    assert p[|p| - 8..] == Tail(rest);
    ZerosAfter(rest + [0x80], 7 - |rest|);
    assert p[..|p| - 1 - (7 - |rest|)] == text;
    assert p[|p| - 1 - (7 - |rest|)] == 0x80;
  }

  lemma PaddedStays(text: seq<bv8>)
    ensures !LeavesBuffer(Padded(text))
  {
    PaddingComesOff(text);
    var p := Padded(text);
    AllZeros(p[|p| - 8..]);
    if |p| == 8 {
      assert p[|p| - 8..] == p;
    }
  }

  /** For all texts, key words and tables: deciphering what was enciphered gives the text back. */
  method RoundTrip(sb: Tables, k: Subkeys, text: seq<bv8>) returns (r: Decoded)
    ensures r == Text(text)
  {
    hide CryptAll, Reversed, Padded, Unpadded;
    var secret := DesEncode(sb, k, text);
    CryptAllUndoes(sb, k, Padded(text));
    PaddingComesOff(text);
    PaddedStays(text);
    r := DesDecode(sb, k, secret);
  }
}
