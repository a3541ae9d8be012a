/** Packing into chained blocks of bytes, and unpacking with a cursor. */
module SerialBlocks {

  import opened Serial

  const BLOCK_SIZE := 128

  function Concat(blocks: seq<seq<Byte>>): seq<Byte> {
    if blocks == [] then [] else Concat(blocks[..|blocks| - 1]) + blocks[|blocks| - 1]
  }

  lemma ConcatLast(front: seq<seq<Byte>>, last: seq<Byte>)
    ensures Concat(front + [last]) == Concat(front) + last
  {
    assert (front + [last])[..|front|] == front;
  }

  lemma {:induction false} ConcatSize(blocks: seq<seq<Byte>>)
    requires forall i :: 0 <= i < |blocks| ==> |blocks[i]| == BLOCK_SIZE
    ensures |Concat(blocks)| == |blocks| * BLOCK_SIZE
  {
    if blocks != [] {
      ConcatSize(blocks[..|blocks| - 1]);
    }
  }

  /** Whether the nesting of tables stays within the limit. */
  predicate Packs(v: Value, depth: nat)
    decreases v
  {
    && depth <= MAX_DEPTH
    && (v.Table? ==>
          (forall k :: 0 <= k < |v.arr| ==> Packs(v.arr[k], depth + 1))
          && (forall k :: 0 <= k < |v.pairs| ==> PacksEntry(v.pairs[k], depth + 1)))
  }

  predicate PacksEntry(e: Entry, depth: nat)
    decreases e
  {
    Packs(e.key, depth) && Packs(e.value, depth)
  }

  class WriteBlock {
    /** All blocks but the last one are full. */
    var blocks: seq<seq<Byte>>
    var len: nat

    ghost predicate Valid()
      reads this
    {
      && |blocks| > 0 && |blocks[|blocks| - 1]| <= BLOCK_SIZE
      && (forall i :: 0 <= i < |blocks| - 1 ==> |blocks[i]| == BLOCK_SIZE)
      && len == |Concat(blocks)|
    }

    ghost function Contents(): seq<Byte>
      reads this
    {
      Concat(blocks)
    }

    /** wb_init. */
    constructor ()
      ensures Valid() && Contents() == []
    {
      blocks, len := [[]], 0;
      new;
      ConcatLast([], []);
    }

    /** Copies bytes behind those of the last block. */
    method Copy(b: seq<Byte>)
      requires Valid() && |blocks[|blocks| - 1]| + |b| <= BLOCK_SIZE
      modifies this
      ensures Valid() && Contents() == old(Contents()) + b
      ensures |blocks| == old(|blocks|) && |blocks[|blocks| - 1]| == old(|blocks[|blocks| - 1]|) + |b|
    {
      ghost var front, last := blocks[..|blocks| - 1], blocks[|blocks| - 1];
      assert blocks == front + [last];
      ConcatLast(front, last);
      ConcatLast(front, last + b);
      blocks := blocks[|blocks| - 1 := blocks[|blocks| - 1] + b];
      assert blocks == front + [last + b];
      len := len + |b|;
    }

    /** A new block after a full one. */
    method NextBlock()
      requires Valid() && |blocks[|blocks| - 1]| == BLOCK_SIZE
      modifies this
      ensures Valid() && Contents() == old(Contents()) && blocks[|blocks| - 1] == []
    {
      ConcatLast(blocks, []);
      blocks := blocks + [[]];
    }

    /** wb_push: bytes that do not fit go on in new blocks. */
    method Push(buffer: seq<Byte>)
      requires Valid()
      modifies this
      ensures Valid() && Contents() == old(Contents()) + buffer
    {
      var b := buffer;
      if |blocks[|blocks| - 1]| == BLOCK_SIZE {
        NextBlock();
      }
      while |blocks[|blocks| - 1]| > BLOCK_SIZE - |b|
        invariant Valid() && Contents() + b == old(Contents()) + buffer
        invariant |blocks[|blocks| - 1]| < BLOCK_SIZE
        decreases |b|
      {
        var copy := BLOCK_SIZE - |blocks[|blocks| - 1]|;
        Copy(b[..copy]);
        b := b[copy..];
        NextBlock();
      }
      Copy(b);
    }

    /** A type byte and what belongs to it. */
    method PushTyped(t: nat, cookie: nat, bytes: seq<Byte>)
      requires Valid() && t < 8 && cookie < MAX_COOKIE
      modifies this
      ensures Valid() && Contents() == old(Contents()) + ([Combine(t, cookie)] + bytes)
    {
      hide Concat, Contents, Valid;
      ghost var was := Contents();
      Push([Combine(t, cookie)]);
      Push(bytes);
      assert (was + [Combine(t, cookie)]) + bytes == was + ([Combine(t, cookie)] + bytes);
    }

    /** wb_integer. */
    method PushInteger(v: int)
      requires Valid() && -0x8000_0000_0000_0000 <= v < 0x8000_0000_0000_0000
      modifies this
      ensures Valid() && Contents() == old(Contents()) + EncInteger(v)
    {
      hide Le, Concat, Contents, Valid;
      if v == 0 {
        Push([Combine(2, 0)]);
      } else if !(-0x8000_0000 <= v < 0x8000_0000) {
        PushTyped(2, 6, Le(v % 0x1_0000_0000_0000_0000, 8));
      } else if v < 0 {
        PushTyped(2, 4, Le(v % 0x1_0000_0000, 4));
      } else if v < 0x100 {
        PushTyped(2, 1, Le(v, 1));
      } else if v < 0x1_0000 {
        PushTyped(2, 2, Le(v, 2));
      } else {
        PushTyped(2, 4, Le(v, 4));
      }
    }

    /** A long string after its length in 'k' bytes. */
    method PushLong(k: nat, s: seq<Byte>)
      requires Valid() && k < MAX_COOKIE
      modifies this
      ensures Valid() && Contents() == old(Contents()) + ([Combine(5, k)] + Le(|s|, k) + s)
    {
      hide Le, Concat, Contents, Valid;
      Push([Combine(5, k)]);
      Push(Le(|s|, k));
      Push(s);
    }

    /** wb_string. */
    method PushString(s: seq<Byte>)
      requires Valid() && |s| < 0x8000_0000
      modifies this
      ensures Valid() && Contents() == old(Contents()) + EncString(s)
    {
      hide Le, Concat, Contents, Valid;
      if |s| < MAX_COOKIE {
        if |s| > 0 {
          PushTyped(4, |s|, s);
        } else {
          Push([Combine(4, 0)]);
        }
      } else if |s| < 0x1_0000 {
        PushLong(2, s);
      } else {
        PushLong(4, s);
      }
    }

    /** The type byte of a table, with the size of its array part or followed by it. */
    method PushSize(n: nat)
      requires Valid() && n < 0x8000_0000
      modifies this
      ensures Valid() && Contents() == old(Contents()) + EncSize(n)
    {
      hide EncInteger, Concat, Contents, Valid;
      if n >= MAX_COOKIE - 1 {
        Push([Combine(6, MAX_COOKIE - 1)]);
        PushInteger(n);
      } else {
        Push([Combine(6, n)]);
      }
    }

    /** wb_table_array. */
    method PushArray(arr: seq<Value>, depth: nat) returns (ok: bool)
      requires Valid() && |arr| < 0x8000_0000 && forall k :: 0 <= k < |arr| ==> Good(arr[k])
      modifies this
      ensures Valid() && (ok <==> forall k :: 0 <= k < |arr| ==> Packs(arr[k], depth))
      ensures ok ==> Contents() == old(Contents()) + EncSize(|arr|) + EncAll(arr)
      decreases arr, 0
    {
      hide Enc, EncSize, Concat, Contents, Valid, Packs, Good;
      PushSize(|arr|);
      ghost var start := old(Contents()) + EncSize(|arr|);
      assert Contents() == start + EncAll(arr[..0]);
      for i := 0 to |arr|
        invariant Valid() && Contents() == start + EncAll(arr[..i]) && forall k :: 0 <= k < i ==> Packs(arr[k], depth)
      {
        var fits := PackOne(arr[i], depth);
        if !fits {
          return false;
        }
        AllMore(arr, i);
      }
      assert arr[..|arr|] == arr;
      return true;
    }

    /** wb_table_hash. */
    method PushPairs(pairs: seq<Entry>, depth: nat) returns (ok: bool)
      requires Valid() && forall k :: 0 <= k < |pairs| ==> Good(pairs[k].key) && Good(pairs[k].value)
      modifies this
      ensures Valid() && (ok <==> forall k :: 0 <= k < |pairs| ==> PacksEntry(pairs[k], depth))
      ensures ok ==> Contents() == old(Contents()) + EncPairs(pairs) + [Combine(0, 0)]
      decreases pairs, 1
    {
      hide Enc, Concat, Contents, Valid, Packs, Good, EncEntry;
      ghost var start := Contents();
      assert start == start + EncPairs(pairs[..0]);
      for i := 0 to |pairs|
        invariant Valid() && Contents() == start + EncPairs(pairs[..i])
        invariant forall k :: 0 <= k < i ==> PacksEntry(pairs[k], depth)
      {
        var fits := PushEntry(pairs[i], depth);
        if !fits {
          return false;
        }
        PairsMore(pairs, i);
      }
      assert pairs[..|pairs|] == pairs;
      Push([Combine(0, 0)]);
      return true;
    }

    method PushEntry(e: Entry, depth: nat) returns (ok: bool)
      requires Valid() && Good(e.key) && Good(e.value)
      modifies this
      ensures Valid() && (ok <==> PacksEntry(e, depth))
      ensures ok ==> Contents() == old(Contents()) + EncEntry(e)
      decreases e, 0
    {
      hide Enc, Concat, Contents, Valid, Packs, Good;
      ok := PackOne(e.key, depth);
      if ok {
        ok := PackOne(e.value, depth);
      }
    }

    /** pack_one: fails when tables are nested too deep. */
    method PackOne(v: Value, depth: nat) returns (ok: bool)
      requires Valid() && Good(v)
      modifies this
      ensures Valid() && (ok <==> Packs(v, depth))
      ensures ok ==> Contents() == old(Contents()) + Enc(v)
      decreases v, 1
    {
      hide Concat, Contents, Valid, EncInteger, EncString, EncSize, EncAll, EncPairs;
      if depth > MAX_DEPTH {
        return false;
      }
      match v {
        case Nil => Push([Combine(0, 0)]);
        case Bool(b) => Push([Combine(1, if b then 1 else 0)]);
        case Integer(i) => PushInteger(i);
        case Real(bytes) => PushTyped(2, 8, bytes);
        case Pointer(bytes) => PushTyped(3, 0, bytes);
        case Str(s) => PushString(s);
        case Table(arr, pairs) =>
          ok := PushArray(arr, depth + 1);
          if ok {
            ok := PushPairs(pairs, depth + 1);
          }
          return;
      }
      return true;
    }

    /** seri: the blocks one after the other. */
    method Seri() returns (buffer: seq<Byte>)
      requires Valid()
      ensures buffer == Contents()
    {
      buffer := [];
      var left, i := len, 0;
      Sizes(blocks, 0);
      hide Concat;
      assert blocks[..0] == [];
      while left > 0
        invariant i <= |blocks| && buffer == Concat(blocks[..i])
        invariant LeftIs(blocks, i, left)
        decreases left
      {
        OneBlock(blocks, i, left);
        if left >= BLOCK_SIZE {
          buffer := buffer + blocks[i];
          left := left - BLOCK_SIZE;
          i := i + 1;
        } else {
          buffer := buffer + blocks[i][..left];
          return;
        }
      }
      Rest(blocks, i);
    }
  }

  /** A reader did what the specification says, or failed or left the buffer where that does. */
  ghost predicate Follows<T>(r: Read<T>, ok: bool, outside: bool, v: T, rest: seq<Byte>) {
    if ok then r == Got(v, rest) && !outside else if outside then r.Outside? else r.Bad?
  }

  class ReadBlock {
    const buffer: seq<Byte>
    var len: int
    var ptr: int
    /** Memory outside the buffer has been read. */
    var outside: bool

    ghost predicate Valid()
      reads this
    {
      0 <= ptr && 0 <= len && ptr + len == |buffer| && !outside
    }

    /** The bytes not read yet. */
    ghost function Left(): seq<Byte>
      reads this
    {
      if 0 <= ptr <= |buffer| then buffer[ptr..] else []
    }

    /** rball_init. */
    constructor (buffer: seq<Byte>)
      ensures Valid() && Left() == buffer
    {
      this.buffer, len, ptr, outside := buffer, |buffer|, 0, false;
    }

    /** rb_read: a negative size passes the test and moves the cursor back. */
    method Read(sz: int) returns (ok: bool, bytes: seq<Byte>)
      requires Valid()
      modifies this
      ensures sz >= 0 ==> Valid() && len <= old(len) && Follows(Take(old(Left()), sz), ok, outside, bytes, Left())
      ensures sz < 0 ==> ok && bytes == [] && ptr == old(ptr) + sz && len == old(len) - sz && outside == old(outside)
    {
      if len < sz {
        return false, [];
      }
      var p := ptr;
      ptr := ptr + sz;
      len := len - sz;
      if sz < 0 {
        return true, [];
      }
      bytes := buffer[p..p + sz];
      assert buffer[p..][..sz] == bytes && buffer[p..][sz..] == buffer[ptr..];
      return true, bytes;
    }

    /** get_buffer, for a length that is cut down to an int. */
    method GetBuffer(n: nat) returns (ok: bool, v: Value)
      requires Valid()
      modifies this
      ensures ok ==> Valid() && len <= old(len)
      ensures Follows(DecString(old(Left()), n), ok, outside, v, Left())
    {
      hide Take;
      var size := Int32(n);
      var bytes;
      ok, bytes := Read(size);
      v := Str(bytes);
      if size < 0 {
        outside := !TooBig(SizeT(size));
        return false, Nil;
      }
    }

    /** get_integer. */
    method GetInteger(cookie: nat) returns (ok: bool, v: int)
      requires Valid()
      modifies this
      ensures ok ==> Valid() && len <= old(len)
      ensures Follows(DecInteger(old(Left()), cookie), ok, outside, v, Left())
    {
      hide Take, UnLe;
      if cookie == 0 {
        return true, 0;
      }
      if cookie !in {1, 2, 4, 6} {
        return false, 0;
      }
      var bytes;
      ok, bytes := Read(if cookie == 6 then 8 else cookie);
      v := UnLe(bytes);
      if cookie == 4 {
        v := Signed(v, 0x8000_0000);
      } else if cookie == 6 {
        v := Signed(v, 0x8000_0000_0000_0000);
      }
    }

    /** unpack_one. */
    method UnpackOne() returns (ok: bool, v: Value)
      requires Valid()
      modifies this
      ensures ok ==> Valid() && len <= old(len)
      ensures Follows(Dec(old(Left())), ok, outside, v, Left())
      decreases len, 0, 0
    {
      hide DecAs;
      if len == 0 {
        return false, Nil;
      }
      assert buffer[ptr..][1..] == buffer[ptr + 1..];
      var t := buffer[ptr];
      ptr, len := ptr + 1, len - 1;
      ok, v := PushValue(t % 8, t / 8);
    }

    /** push_value. */
    method PushValue(t: nat, cookie: nat) returns (ok: bool, v: Value)
      requires Valid()
      modifies this
      ensures ok ==> Valid() && len <= old(len)
      ensures Follows(DecAs(old(Left()), t, cookie), ok, outside, v, Left())
      decreases len, 3, 0
    {
      hide Dec, DecInteger, DecSize, DecMany, DecPairs, Take, UnLe;
      v := Nil;
      if t == 0 {
        return true, Nil;
      } else if t == 1 {
        return true, Bool(cookie != 0);
      } else if t == 2 && cookie != 8 {
        var i;
        ok, i := GetInteger(cookie);
        v := Integer(i);
      } else if t == 2 || t == 3 {
        var bytes;
        ok, bytes := Read(8);
        v := if t == 2 then Real(bytes) else Pointer(bytes);
      } else if t == 4 {
        var bytes;
        ok, bytes := Read(cookie);
        v := Str(bytes);
      } else if t == 5 {
        if cookie != 2 && cookie != 4 {
          return false, Nil;
        }
        var bytes;
        ok, bytes := Read(cookie);
        if ok {
          ok, v := GetBuffer(UnLe(bytes));
        }
      } else if t == 6 {
        ok, v := UnpackTable(cookie);
      } else {
        return false, Nil;
      }
    }

    /** The size of the array part, from the type byte or after it. */
    method GetSize(cookie: nat) returns (ok: bool, n: int)
      requires Valid()
      modifies this
      ensures ok ==> Valid() && len <= old(len)
      ensures Follows(DecSize(old(Left()), cookie), ok, outside, n, Left())
    {
      hide DecInteger;
      if cookie != MAX_COOKIE - 1 {
        return true, cookie;
      }
      if len == 0 || buffer[ptr] % 8 != 2 || buffer[ptr] / 8 == 8 {
        return false, 0;
      }
      assert buffer[ptr..][1..] == buffer[ptr + 1..];
      var c := buffer[ptr] / 8;
      ptr, len := ptr + 1, len - 1;
      ok, n := GetInteger(c);
      n := Int32(n);
    }

    /** unpack_table. */
    method UnpackTable(cookie: nat) returns (ok: bool, v: Value)
      requires Valid()
      modifies this
      ensures ok ==> Valid() && len <= old(len)
      ensures Follows(DecAs(old(Left()), 6, cookie), ok, outside, v, Left())
      decreases len, 2, 0
    {
      hide Dec, DecInteger, DecSize, DecMany, DecPairs;
      v := Nil;
      var n, arr, pairs;
      ok, n := GetSize(cookie);
      if ok {
        ok, arr := UnpackArray(if n < 0 then 0 else n);
        if ok {
          ok, pairs := UnpackPairs();
          if ok {
            v := Table(arr, pairs);
          }
        }
      }
    }

    /** The loop of unpack_table over the array part. */
    method UnpackArray(n: nat) returns (ok: bool, arr: seq<Value>)
      requires Valid()
      modifies this
      ensures ok ==> Valid() && len <= old(len)
      ensures Follows(DecMany(old(Left()), n), ok, outside, arr, Left())
      decreases len, 1, n
    {
      hide Dec, DecMany, Prepend;
      ghost var s := Left();
      arr := [];
      PrependNothing(DecMany(s, n));
      for i := 0 to n
        invariant Valid() && |arr| == i && len <= old(len)
        invariant DecMany(s, n) == Prepend(arr, DecMany(Left(), n - i))
      {
        ghost var before := Left();
        var v;
        ok, v := UnpackOne();
        ManyStep(before, n - i, v, Left());
        if !ok {
          PrependBad(arr, DecMany(before, n - i));
          return false, [];
        }
        PrependMore(arr, v, DecMany(Left(), n - i - 1));
        arr := arr + [v];
      }
      NoneLeft(Left());
      PrependEnd(arr, Left());
      return true, arr;
    }

    /** The loop of unpack_table over the other pairs. */
    method UnpackPairs() returns (ok: bool, pairs: seq<Entry>)
      requires Valid()
      modifies this
      ensures ok ==> Valid() && len <= old(len)
      ensures Follows(DecPairs(old(Left())), ok, outside, pairs, Left())
      decreases len, 1, 0
    {
      hide Dec, DecPairs, Prepend;
      ghost var s := Left();
      pairs := [];
      PrependNothing(DecPairs(s));
      while true
        invariant Valid() && len <= old(len)
        invariant DecPairs(s) == Prepend(pairs, DecPairs(Left()))
        decreases len
      {
        ghost var before := Left();
        var k, v;
        ok, k := UnpackOne();
        ghost var middle := Left();
        PairsStep(before, k, middle, Nil, []);
        if !ok {
          PrependBad(pairs, DecPairs(before));
          return false, [];
        }
        if k == Nil {
          PrependEnd(pairs, middle);
          return true, pairs;
        }
        ok, v := UnpackOne();
        PairsStep(before, k, middle, v, Left());
        if !ok {
          PrependBad(pairs, DecPairs(before));
          return false, [];
        }
        if IsNan(k) {
          PrependBad(pairs, DecPairs(before));
          return false, [];
        }
        PrependMore(pairs, Entry(k, v), DecPairs(Left()));
        pairs := pairs + [Entry(k, v)];
      }
    }

    /** _luaseri_unpack. */
    method Unpack() returns (ok: bool, vs: seq<Value>)
      requires Valid()
      modifies this
      ensures ok ==> Valid() && len <= old(len)
      ensures Follows(DecToEnd(old(Left())), ok, outside, vs, Left())
    {
      hide Dec, DecToEnd, Prepend;
      ghost var s := Left();
      vs := [];
      PrependNothing(DecToEnd(s));
      while len > 0
        invariant Valid() && len <= old(len) && DecToEnd(s) == Prepend(vs, DecToEnd(Left()))
        decreases len
      {
        ghost var before := Left();
        var v;
        ok, v := UnpackOne();
        EndStep(before, v, Left());
        if !ok {
          PrependBad(vs, DecToEnd(before));
          return false, [];
        }
        PrependMore(vs, v, DecToEnd(Left()));
        vs := vs + [v];
      }
      NoneLeft(Left());
      PrependEnd(vs, Left());
      return true, vs;
    }
  }

  /** Packing and unpacking: values that are not nested too deep come back unchanged. */
  method PackUnpack(vs: seq<Value>) returns (packed: bool, ok: bool, r: seq<Value>)
    requires forall k :: 0 <= k < |vs| ==> Good(vs[k])
    ensures packed <==> forall k :: 0 <= k < |vs| ==> Packs(vs[k], 0)
    ensures packed ==> ok && r == vs
  {
    hide Enc, Dec, Good, Packs;
    var wb := new WriteBlock();
    assert wb.Contents() == EncAll(vs[..0]);
    for i := 0 to |vs|
      invariant wb.Valid() && fresh(wb) && wb.Contents() == EncAll(vs[..i])
      invariant forall k :: 0 <= k < i ==> Packs(vs[k], 0)
    {
      packed := wb.PackOne(vs[i], 0);
      if !packed {
        return false, false, [];
      }
      AllMore(vs, i);
    }
    assert vs[..|vs|] == vs;
    var buffer := wb.Seri();
    AllRoundTrip(vs);
    var rb := new ReadBlock(buffer);
    ok, r := rb.Unpack();
    return true, ok, r;
  }

  /** The values read before, and those read after. */
  function Prepend<T>(front: seq<T>, r: Read<seq<T>>): Read<seq<T>> {
    if r.Got? then Got(front + r.value, r.rest) else r
  }

  lemma PrependNothing<T>(r: Read<seq<T>>)
    ensures Prepend([], r) == r
  {
    assert r.Got? ==> [] + r.value == r.value;
  }

  lemma PrependMore<T>(front: seq<T>, x: T, r: Read<seq<T>>)
    ensures Prepend(front, Prepend([x], r)) == Prepend(front + [x], r)
  {
    assert r.Got? ==> front + ([x] + r.value) == (front + [x]) + r.value;
  }

  lemma PrependBad<T>(front: seq<T>, r: Read<seq<T>>)
    ensures !r.Got? ==> Prepend(front, r) == r
  {
  }

  lemma NoneLeft(s: seq<Byte>)
    ensures DecMany(s, 0) == Got([], s) && (s == [] ==> DecToEnd(s) == Got([], []))
  {
  }

  lemma PrependEnd<T>(front: seq<T>, rest: seq<Byte>)
    ensures Prepend(front, Got([], rest)) == Got(front, rest)
  {
    assert front + [] == front;
  }

  lemma ManyStep(s: seq<Byte>, n: nat, v: Value, rest: seq<Byte>)
    requires n > 0
    ensures !Dec(s).Got? ==> DecMany(s, n) == Fails(Dec(s))
    ensures Dec(s) == Got(v, rest) ==> DecMany(s, n) == Prepend([v], DecMany(rest, n - 1))
  {
    hide Dec;
  }

  lemma PairsStep(s: seq<Byte>, k: Value, m: seq<Byte>, v: Value, rest: seq<Byte>)
    ensures !Dec(s).Got? ==> DecPairs(s) == Fails(Dec(s))
    ensures Dec(s) == Got(k, m) && k == Nil ==> DecPairs(s) == Got([], m)
    ensures Dec(s) == Got(k, m) && k != Nil && !Dec(m).Got? ==> DecPairs(s) == Fails(Dec(m))
    ensures Dec(s) == Got(k, m) && Dec(m) == Got(v, rest) && k != Nil && IsNan(k) ==> DecPairs(s) == Bad
    ensures Dec(s) == Got(k, m) && Dec(m) == Got(v, rest) && IsKey(k) ==>
      DecPairs(s) == Prepend([Entry(k, v)], DecPairs(rest))
  {
    hide Dec, IsNan;
  }

  lemma EndStep(s: seq<Byte>, v: Value, rest: seq<Byte>)
    requires s != []
    ensures !Dec(s).Got? ==> DecToEnd(s) == Fails(Dec(s))
    ensures Dec(s) == Got(v, rest) ==> DecToEnd(s) == Prepend([v], DecToEnd(rest))
  {
    hide Dec;
  }

  lemma Sizes(blocks: seq<seq<Byte>>, i: nat)
    requires i < |blocks| && forall j :: 0 <= j < |blocks| - 1 ==> |blocks[j]| == BLOCK_SIZE
    ensures |Concat(blocks[..i])| == i * BLOCK_SIZE
    ensures |Concat(blocks)| == (|blocks| - 1) * BLOCK_SIZE + |blocks[|blocks| - 1]|
  {
    ConcatSize(blocks[..i]);
    ConcatSize(blocks[..|blocks| - 1]);
  }

  /** How much there is in the blocks from the 'i'th on. */
  predicate LeftIs(blocks: seq<seq<Byte>>, i: nat, left: int) {
    if i < |blocks| then left == (|blocks| - 1 - i) * BLOCK_SIZE + |blocks[|blocks| - 1]| else left == 0
  }

  lemma OneBlock(blocks: seq<seq<Byte>>, i: nat, left: nat)
    requires i <= |blocks| && |blocks| > 0 && LeftIs(blocks, i, left) && left > 0
    requires |blocks[|blocks| - 1]| <= BLOCK_SIZE && forall j :: 0 <= j < |blocks| - 1 ==> |blocks[j]| == BLOCK_SIZE
    ensures i < |blocks| && Concat(blocks[..i + 1]) == Concat(blocks[..i]) + blocks[i]
    ensures if left >= BLOCK_SIZE then LeftIs(blocks, i + 1, left - BLOCK_SIZE)
      else left == |blocks[i]| && blocks[..i + 1] == blocks
  {
    ConcatLast(blocks[..i], blocks[i]);
    assert blocks[..i + 1] == blocks[..i] + [blocks[i]];
    hide Concat;
  }

  lemma Rest(blocks: seq<seq<Byte>>, i: nat)
    requires |blocks| > 0 && i <= |blocks| && LeftIs(blocks, i, 0)
    ensures Concat(blocks[..i]) == Concat(blocks)
  {
    hide Concat;
    if i == |blocks| {
      assert blocks[..i] == blocks;
    } else {
      var front, last := blocks[..i], blocks[i];
      assert |last| == 0 && blocks == front + [last];
      ConcatLast(front, last);
      assert Concat(front) + last == Concat(front);
    }
  }

  lemma AllMore(vs: seq<Value>, i: nat)
    requires i < |vs|
    ensures EncAll(vs[..i + 1]) == EncAll(vs[..i]) + Enc(vs[i])
  {
    EncAllAppend(vs[..i], [vs[i]]);
    assert vs[..i + 1] == vs[..i] + [vs[i]];
  }

  lemma {:induction false} EncAllAppend(a: seq<Value>, b: seq<Value>)
    ensures EncAll(a + b) == EncAll(a) + EncAll(b)
  {
    if a == [] {
      assert a + b == b;
    } else {
      assert (a + b)[1..] == a[1..] + b;
      EncAllAppend(a[1..], b);
    }
  }

  lemma PairsMore(ps: seq<Entry>, i: nat)
    requires i < |ps|
    ensures EncPairs(ps[..i + 1]) == EncPairs(ps[..i]) + EncEntry(ps[i])
  {
    EncPairsAppend(ps[..i], [ps[i]]);
    assert ps[..i + 1] == ps[..i] + [ps[i]];
  }

  lemma {:induction false} EncPairsAppend(a: seq<Entry>, b: seq<Entry>)
    ensures EncPairs(a + b) == EncPairs(a) + EncPairs(b)
  {
    if a == [] {
      assert a + b == b;
    } else {
      assert (a + b)[1..] == a[1..] + b;
      EncPairsAppend(a[1..], b);
    }
  }
}
