/** Character sets as bitmaps of 32 bytes. */
module CharsetBits {

  import opened PegTree
  import opened CodeGen

  const CHARSETSIZE := 32

  type Bits = s: seq<bv8> | |s| == CHARSETSIZE witness seq(CHARSETSIZE, _ => 0)

  function Mask(k: int): bv8
    requires 0 <= k < 8
  {
    if k == 0 then 1 else if k == 1 then 2 else if k == 2 then 4 else if k == 3 then 8
    else if k == 4 then 16 else if k == 5 then 32 else if k == 6 then 64 else 128
  }

  predicate HasBit(b: bv8, k: int)
    requires 0 <= k < 8
  {
    b & Mask(k) != 0
  }

  predicate InBits(cs: Bits, c: Byte) {
    HasBit(cs[c / 8], c % 8)
  }

  ghost function SetOf(cs: Bits): Charset {
    set c: Byte | 0 <= c < 256 && InBits(cs, c)
  }

  lemma EmptyByte(b: bv8)
    ensures b == 0 <==> forall k :: 0 <= k < 8 ==> !HasBit(b, k)
  {
    if b != 0 {
      assert HasBit(b, 0) || HasBit(b, 1) || HasBit(b, 2) || HasBit(b, 3) || HasBit(b, 4) || HasBit(b, 5)
        || HasBit(b, 6) || HasBit(b, 7);
    }
  }

  lemma FullByte(b: bv8)
    ensures b == 0xFF <==> forall k :: 0 <= k < 8 ==> HasBit(b, k)
  {
    if b != 0xFF {
      assert !HasBit(b, 0) || !HasBit(b, 1) || !HasBit(b, 2) || !HasBit(b, 3) || !HasBit(b, 4) || !HasBit(b, 5)
        || !HasBit(b, 6) || !HasBit(b, 7);
    }
  }

  /** The search by halves that charsettype makes for the only bit of a byte. */
  function BitIndex(b: bv8): int {
    var i4 := b & 0xF0 != 0;
    var b4 := if i4 then b >> 4 else b;
    var i2 := b4 & 0x0C != 0;
    var b2 := if i2 then b4 >> 2 else b4;
    (if i4 then 4 else 0) + (if i2 then 2 else 0) + (if b2 & 0x02 != 0 then 1 else 0)
  }

  lemma OneBit(b: bv8)
    requires b != 0 && b & (b - 1) == 0
    ensures 0 <= BitIndex(b) < 8 && b == Mask(BitIndex(b))
    ensures forall k :: 0 <= k < 8 ==> (HasBit(b, k) <==> k == BitIndex(b))
  {
    assert b == 1 || b == 2 || b == 4 || b == 8 || b == 16 || b == 32 || b == 64 || b == 128;
  }

  /** A byte with some but not all bits, and not just one, has two bits and lacks one. */
  lemma OtherByte(b: bv8)
    requires b != 0 && b != 0xFF && b & (b - 1) != 0
    ensures exists j, k :: 0 <= j < k < 8 && HasBit(b, j) && HasBit(b, k)
  {
    var c := b & (b - 1);
    EmptyByte(c);
    var k :| 0 <= k < 8 && HasBit(c, k);
    assert c & b == c;
    assert HasBit(b, k);
    var d := b ^ c;
    assert d != 0 && d & (d - 1) == 0 && d & c == 0 && d & b == d;
    OneBit(d);
    var j := BitIndex(d);
    assert HasBit(d, j) && HasBit(b, j) && !HasBit(c, j);
    assert j != k;
    if j < k {
      assert HasBit(b, j) && HasBit(b, k);
    } else {
      assert HasBit(b, k) && HasBit(b, j);
    }
  }

  /** Byte 'i', bit 'k'. */
  predicate BitAt(cs: Bits, i: int, k: int)
    requires 0 <= i < CHARSETSIZE && 0 <= k < 8
  {
    HasBit(cs[i], k)
  }

  lemma AtBit(cs: Bits, i: int, k: int)
    requires 0 <= i < CHARSETSIZE && 0 <= k < 8
    ensures 0 <= 8 * i + k < 256 && (InBits(cs, 8 * i + k) <==> BitAt(cs, i, k))
  {
    assert (8 * i + k) / 8 == i && (8 * i + k) % 8 == k;
  }

  /** Two members and a non-member make a set that is neither empty, nor full, nor a singleton. */
  lemma NeitherOf(cs: Bits, x: Byte, y: Byte, z: Byte)
    requires InBits(cs, x) && InBits(cs, y) && x != y && !InBits(cs, z)
    ensures Classify(SetOf(cs)).GeneralSet?
  {
    assert x in SetOf(cs) && y in SetOf(cs) && z in FULLSET && z !in SetOf(cs);
  }

  /** What charsettype has found out after 'i' bytes. */
  ghost predicate Counted(cs: Bits, i: int, count: int, candidate: int)
    requires 0 <= i <= CHARSETSIZE
  {
    if count == 0 then forall c: Byte :: c < 8 * i ==> !InBits(cs, c)
    else if count == 1 then
      0 <= candidate < i && cs[candidate] != 0 && cs[candidate] & (cs[candidate] - 1) == 0
      && forall c: Byte :: c < 8 * i ==> (InBits(cs, c) <==> c == 8 * candidate + BitIndex(cs[candidate]))
    else count == 8 * i && forall c: Byte :: c < 8 * i ==> InBits(cs, c)
  }

  lemma EmptyAfterFull(cs: Bits, i: int, count: int, candidate: int)
    requires 0 <= i < CHARSETSIZE && Counted(cs, i, count, candidate) && cs[i] == 0 && count > 1
    ensures Classify(SetOf(cs)).GeneralSet?
  {
    AtBit(cs, i, 0);
    EmptyByte(cs[i]);
    NeitherOf(cs, 0, 1, 8 * i);
  }

  lemma FullAfterOther(cs: Bits, i: int, count: int, candidate: int)
    requires 0 <= i < CHARSETSIZE && Counted(cs, i, count, candidate) && cs[i] == 0xFF && count < 8 * i
    ensures Classify(SetOf(cs)).GeneralSet?
  {
    AtBit(cs, i, 0);
    AtBit(cs, i, 1);
    FullByte(cs[i]);
    assert HasBit(cs[i], 0) && HasBit(cs[i], 1);
    NeitherOf(cs, 8 * i, 8 * i + 1, if InBits(cs, 0) then 1 else 0);
  }

  lemma SecondBit(cs: Bits, i: int, count: int, candidate: int)
    requires 0 <= i < CHARSETSIZE && Counted(cs, i, count, candidate) && count > 0
    requires cs[i] != 0 && cs[i] & (cs[i] - 1) == 0
    ensures Classify(SetOf(cs)).GeneralSet?
  {
    OneBit(cs[i]);
    var k := BitIndex(cs[i]);
    var n := if k == 0 then 1 else 0;
    AtBit(cs, i, k);
    AtBit(cs, i, n);
    assert HasBit(cs[i], k) && !HasBit(cs[i], n);
    if count == 1 {
      OneBit(cs[candidate]);
      NeitherOf(cs, 8 * candidate + BitIndex(cs[candidate]), 8 * i + k, 8 * i + n);
    } else {
      NeitherOf(cs, 0, 1, 8 * i + n);
    }
  }

  lemma MixedByte(cs: Bits, i: int)
    requires 0 <= i < CHARSETSIZE && cs[i] != 0 && cs[i] != 0xFF && cs[i] & (cs[i] - 1) != 0
    ensures Classify(SetOf(cs)).GeneralSet?
  {
    OtherByte(cs[i]);
    FullByte(cs[i]);
    var j, k :| 0 <= j < k < 8 && HasBit(cs[i], j) && HasBit(cs[i], k);
    var n :| 0 <= n < 8 && !HasBit(cs[i], n);
    AtBit(cs, i, j);
    AtBit(cs, i, k);
    AtBit(cs, i, n);
    NeitherOf(cs, 8 * i + j, 8 * i + k, 8 * i + n);
  }

  /** The characters of one more byte. */
  lemma CountedMore(cs: Bits, i: int, count: int, candidate: int)
    requires 0 <= i < CHARSETSIZE && Counted(cs, i, count, candidate)
    ensures cs[i] == 0 && count <= 1 ==> Counted(cs, i + 1, count, candidate)
    ensures cs[i] == 0xFF && count >= 8 * i ==> Counted(cs, i + 1, count + 8, candidate)
    ensures cs[i] != 0 && cs[i] & (cs[i] - 1) == 0 && count == 0 ==> Counted(cs, i + 1, 1, i)
  {
    EmptyByte(cs[i]);
    FullByte(cs[i]);
    if cs[i] != 0 && cs[i] & (cs[i] - 1) == 0 {
      OneBit(cs[i]);
    }
    forall c: Byte | 8 * i <= c < 8 * i + 8 ensures InBits(cs, c) <==> HasBit(cs[i], c - 8 * i) {
      AtBit(cs, i, c - 8 * i);
    }
  }

  /** The next byte: the answer is known, or what was counted goes on. */
  lemma NextByte(cs: Bits, i: int, count: int, candidate: int)
    requires 0 <= i < CHARSETSIZE && Counted(cs, i, count, candidate)
    ensures cs[i] == 0 ==>
      if count > 1 then Classify(SetOf(cs)).GeneralSet? else Counted(cs, i + 1, count, candidate)
    ensures cs[i] == 0xFF ==>
      if count < 8 * i then Classify(SetOf(cs)).GeneralSet? else Counted(cs, i + 1, count + 8, candidate)
    ensures cs[i] != 0 && cs[i] != 0xFF && cs[i] & (cs[i] - 1) == 0 ==>
      if count > 0 then Classify(SetOf(cs)).GeneralSet? else Counted(cs, i + 1, 1, i)
    ensures cs[i] != 0 && cs[i] != 0xFF && cs[i] & (cs[i] - 1) != 0 ==> Classify(SetOf(cs)).GeneralSet?
  {
    assert count >= 0;
    CountedMore(cs, i, count, candidate);
    if cs[i] == 0 && count > 1 {
      EmptyAfterFull(cs, i, count, candidate);
    } else if cs[i] == 0xFF && count < 8 * i {
      FullAfterOther(cs, i, count, candidate);
    } else if cs[i] != 0 && cs[i] != 0xFF && cs[i] & (cs[i] - 1) == 0 && count > 0 {
      SecondBit(cs, i, count, candidate);
    } else if cs[i] != 0 && cs[i] != 0xFF && cs[i] & (cs[i] - 1) != 0 {
      MixedByte(cs, i);
    }
  }

  /** charsettype. */
  method CharsetType(cs: Bits) returns (r: CharsetType)
    ensures r == Classify(SetOf(cs))
  {
    var count, candidate := 0, -1;
    for i := 0 to CHARSETSIZE
      invariant Counted(cs, i, count, candidate)
    {
      var b := cs[i];
      NextByte(cs, i, count, candidate);
      hide Counted, Classify;
      if b == 0 {
        if count > 1 {
          return GeneralSet;
        }
      } else if b == 0xFF {
        if count < i * 8 {
          return GeneralSet;
        }
        count := count + 8;
      } else if b & (b - 1) == 0 {
        if count > 0 {
          return GeneralSet;
        }
        count, candidate := count + 1, i;
      } else {
        return GeneralSet;
      }
    }
    if count == 0 {
      return EmptySet;
    } else if count == 1 {
      return Singleton(candidate * 8 + BitIndex(cs[candidate]));
    } else {
      assert count == CHARSETSIZE * 8;
      return FullSet;
    }
  }

  /** cs_complement, in place. */
  method Complement(cs: array<bv8>)
    requires cs.Length == CHARSETSIZE
    modifies cs
    ensures SetOf(cs[..]) == FULLSET - SetOf(old(cs[..]))
  {
    ghost var was: Bits := cs[..];
    for i := 0 to CHARSETSIZE
      invariant forall j :: 0 <= j < CHARSETSIZE ==> cs[j] == if j < i then !was[j] else was[j]
    {
      cs[i] := !cs[i];
    }
    forall c: Byte ensures InBits(cs[..], c) <==> !InBits(was, c) {
      Flip(was[c / 8], c % 8);
    }
  }

  lemma Flip(b: bv8, k: int)
    requires 0 <= k < 8
    ensures HasBit(!b, k) <==> !HasBit(b, k)
  {
  }

  /** cs_equal. */
  method Equal(cs1: Bits, cs2: Bits) returns (r: bool)
    ensures r <==> SetOf(cs1) == SetOf(cs2)
  {
    for i := 0 to CHARSETSIZE
      invariant cs1[..i] == cs2[..i]
    {
      if cs1[i] != cs2[i] {
        Differ(cs1, cs2, i);
        return false;
      }
    }
    assert cs1 == cs1[..CHARSETSIZE] == cs2[..CHARSETSIZE] == cs2;
    return true;
  }

  lemma Differ(cs1: Bits, cs2: Bits, i: int)
    requires 0 <= i < CHARSETSIZE && cs1[i] != cs2[i]
    ensures SetOf(cs1) != SetOf(cs2)
  {
    EmptyByte(cs1[i] ^ cs2[i]);
    var k :| 0 <= k < 8 && HasBit(cs1[i] ^ cs2[i], k);
    assert HasBit(cs1[i], k) != HasBit(cs2[i], k);
    AtBit(cs1, i, k);
    AtBit(cs2, i, k);
    var c: Byte := 8 * i + k;
    assert c in SetOf(cs1) <==> c !in SetOf(cs2);
  }

  /** cs_disjoint. */
  method DisjointSets(cs1: Bits, cs2: Bits) returns (r: bool)
    ensures r <==> Disjoint(SetOf(cs1), SetOf(cs2))
  {
    for i := 0 to CHARSETSIZE
      invariant forall j :: 0 <= j < i ==> cs1[j] & cs2[j] == 0
    {
      if cs1[i] & cs2[i] != 0 {
        Meet(cs1, cs2, i);
        return false;
      }
    }
    forall c: Byte ensures !(InBits(cs1, c) && InBits(cs2, c)) {
      assert cs1[c / 8] & cs2[c / 8] == 0;
    }
    return true;
  }

  lemma Meet(cs1: Bits, cs2: Bits, i: int)
    requires 0 <= i < CHARSETSIZE && cs1[i] & cs2[i] != 0
    ensures !Disjoint(SetOf(cs1), SetOf(cs2))
  {
    EmptyByte(cs1[i] & cs2[i]);
    var k :| 0 <= k < 8 && HasBit(cs1[i] & cs2[i], k);
    AtBit(cs1, i, k);
    AtBit(cs2, i, k);
    var c: Byte := 8 * i + k;
    assert c in SetOf(cs1) * SetOf(cs2);
  }
}
