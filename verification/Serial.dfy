/** The byte form of Lua values, and reading it back. */
module Serial {

  type Byte = b: int | 0 <= b < 256

  /** A real and a pointer are their bytes. A table is its array part and the other pairs, in the
      order in which they are visited. */
  datatype Value =
    | Nil
    | Bool(b: bool)
    | Integer(i: int)
    | Real(bytes: seq<Byte>)
    | Pointer(bytes: seq<Byte>)
    | Str(s: seq<Byte>)
    | Table(arr: seq<Value>, pairs: seq<Entry>)

  datatype Entry = Entry(key: Value, value: Value)

  const MAX_SIZE := 0x7FFF_FFFF_FFFF_FFFF
  const SIZE_OF_STRING := 24
  const MAX_COOKIE := 32
  const MAX_DEPTH := 32

  /** A real that is not a number: all bits of the exponent are set, and not all of the rest are zero. */
  predicate IsNan(v: Value) {
    && v.Real? && |v.bytes| == 8
    && v.bytes[7] % 128 == 127 && v.bytes[6] / 16 == 15
    && (v.bytes[6] % 16 != 0 || exists k :: 0 <= k < 6 && v.bytes[k] != 0)
  }

  /** What can be a key of a table. */
  predicate IsKey(v: Value) {
    v != Nil && !IsNan(v)
  }

  /** What Lua guarantees of a value. */
  ghost predicate Good(v: Value) {
    match v
    case Integer(i) => -0x8000_0000_0000_0000 <= i < 0x8000_0000_0000_0000
    case Real(bytes) => |bytes| == 8
    case Pointer(bytes) => |bytes| == 8
    case Str(s) => |s| < 0x8000_0000
    case Table(arr, pairs) =>
      && |arr| < 0x8000_0000
      && (forall k :: 0 <= k < |arr| ==> Good(arr[k]))
      && (forall k :: 0 <= k < |pairs| ==> IsKey(pairs[k].key) && Good(pairs[k].key) && Good(pairs[k].value))
    case _ => true
  }

  // ----- numbers as bytes -----

  function Le(n: nat, k: nat): (s: seq<Byte>)
    ensures |s| == k
  {
    if k == 0 then [] else [n % 256] + Le(n / 256, k - 1)
  }

  function UnLe(s: seq<Byte>): nat {
    if s == [] then 0 else s[0] + 256 * UnLe(s[1..])
  }

  function Pow256(k: nat): nat {
    if k == 0 then 1 else 256 * Pow256(k - 1)
  }

  lemma {:induction false} UnLeLe(n: nat, k: nat)
    requires n < Pow256(k)
    ensures UnLe(Le(n, k)) == n
  {
    if k > 0 {
      UnLeLe(n / 256, k - 1);
      assert Le(n, k)[1..] == Le(n / 256, k - 1);
    }
  }

  lemma Powers()
    ensures Pow256(1) == 0x100 && Pow256(2) == 0x1_0000 && Pow256(4) == 0x1_0000_0000
    ensures Pow256(8) == 0x1_0000_0000_0000_0000
  {
    assert Pow256(2) == 256 * Pow256(1);
    assert Pow256(3) == 256 * Pow256(2);
    assert Pow256(4) == 256 * Pow256(3);
    assert Pow256(5) == 256 * Pow256(4);
    assert Pow256(6) == 256 * Pow256(5);
    assert Pow256(7) == 256 * Pow256(6);
  }

  function Signed(n: int, m: nat): int {
    if n >= m then n - 2 * m else n
  }

  // ----- writing -----

  function Combine(t: nat, v: nat): Byte
    requires t < 8 && v < MAX_COOKIE
  {
    t + 8 * v
  }

  function EncInteger(i: int): seq<Byte> {
    if i == 0 then [Combine(2, 0)]
    else if !(-0x8000_0000 <= i < 0x8000_0000) then [Combine(2, 6)] + Le(i % 0x1_0000_0000_0000_0000, 8)
    else if i < 0 then [Combine(2, 4)] + Le(i % 0x1_0000_0000, 4)
    else if i < 0x100 then [Combine(2, 1)] + Le(i, 1)
    else if i < 0x1_0000 then [Combine(2, 2)] + Le(i, 2)
    else [Combine(2, 4)] + Le(i, 4)
  }

  function EncString(s: seq<Byte>): seq<Byte> {
    if |s| < MAX_COOKIE then [Combine(4, |s|)] + s
    else if |s| < 0x1_0000 then [Combine(5, 2)] + Le(|s|, 2) + s
    else [Combine(5, 4)] + Le(|s|, 4) + s
  }

  function EncSize(n: nat): seq<Byte> {
    if n >= MAX_COOKIE - 1 then [Combine(6, MAX_COOKIE - 1)] + EncInteger(n) else [Combine(6, n)]
  }

  function Enc(v: Value): seq<Byte> {
    match v
    case Nil => [Combine(0, 0)]
    case Bool(b) => [Combine(1, if b then 1 else 0)]
    case Integer(i) => EncInteger(i)
    case Real(bytes) => [Combine(2, 8)] + bytes
    case Pointer(bytes) => [Combine(3, 0)] + bytes
    case Str(s) => EncString(s)
    case Table(arr, pairs) => EncSize(|arr|) + EncAll(arr) + EncPairs(pairs) + [Combine(0, 0)]
  }

  function EncAll(vs: seq<Value>): seq<Byte> {
    if vs == [] then [] else Enc(vs[0]) + EncAll(vs[1..])
  }

  function EncPairs(ps: seq<Entry>): seq<Byte> {
    if ps == [] then [] else EncEntry(ps[0]) + EncPairs(ps[1..])
  }

  function EncEntry(e: Entry): seq<Byte> {
    Enc(e.key) + Enc(e.value)
  }

  // ----- reading -----

  /** An error, a read outside the buffer, or a value and the bytes after it. */
  datatype Read<T> = Bad | Outside | Got(value: T, rest: seq<Byte>)

  function Fails<A, B>(r: Read<A>): (f: Read<B>)
    ensures !f.Got?
  {
    if r.Outside? then Outside else Bad
  }

  function Take(s: seq<Byte>, n: nat): Read<seq<Byte>> {
    if |s| < n then Bad else Got(s[..n], s[n..])
  }

  /** The bytes of an integer, the lowest first, read as the integer of their width. */
  function OfWidth(cookie: nat, u: nat): int {
    if cookie == 4 then Signed(u, 0x8000_0000) else if cookie == 6 then Signed(u, 0x8000_0000_0000_0000) else u
  }

  /** get_integer. */
  function DecInteger(s: seq<Byte>, cookie: nat): (r: Read<int>)
    ensures !r.Outside? && (r.Got? ==> |r.rest| <= |s|)
  {
    if cookie == 0 then Got(0, s)
    else
      var n := if cookie == 1 then 1 else if cookie == 2 then 2 else if cookie == 4 then 4 else 8;
      if !(cookie in {1, 2, 4, 6}) then Bad
      else
        var t := Take(s, n);
        if t.Bad? then Bad
        else
          var u := UnLe(t.value);
          Got(OfWidth(cookie, u), t.rest)
  }

  /** The integer that the size of an array is cut down to. */
  function Int32(i: int): int {
    Signed(i % 0x1_0000_0000, 0x8000_0000)
  }

  function DecSize(s: seq<Byte>, cookie: nat): (r: Read<int>)
    ensures !r.Outside? && (r.Got? ==> |r.rest| <= |s|)
  {
    if cookie != MAX_COOKIE - 1 then Got(cookie, s)
    else if s == [] || s[0] % 8 != 2 || s[0] / 8 == 8 then Bad
    else
      var r := DecInteger(s[1..], s[0] / 8);
      if r.Bad? then Bad else Got(Int32(r.value), r.rest)
  }

  function DecBytes(s: seq<Byte>, n: nat, make: seq<Byte> -> Value): (r: Read<Value>)
    ensures r.Got? ==> |r.rest| <= |s|
  {
    var t := Take(s, n);
    if t.Bad? then Bad else Got(make(t.value), t.rest)
  }

  /** unpack_one. */
  function Dec(s: seq<Byte>): (r: Read<Value>)
    ensures r.Got? ==> |r.rest| < |s|
    decreases |s|, 0, 0
  {
    if s == [] then Bad else DecAs(s[1..], s[0] % 8, s[0] / 8)
  }

  /** An int that becomes a size_t. */
  function SizeT(i: int): int {
    if i < 0 then i + 0x1_0000_0000_0000_0000 else i
  }

  /** The test of luaS_newlstr, in which the size plus one may wrap around to zero. */
  predicate TooBig(size: int) {
    (size + 1) % 0x1_0000_0000_0000_0000 > MAX_SIZE - SIZE_OF_STRING
  }

  /** get_buffer, for a length read from the bytes: as an int it may be negative. Then rb_read finds nothing
      wrong, and the size is too big for a string, or all of memory is to be copied. */
  function DecString(s: seq<Byte>, n: nat): (r: Read<Value>)
    ensures r.Got? ==> |r.rest| <= |s|
  {
    var size := Int32(n);
    if size >= 0 then DecBytes(s, size, b => Str(b))
    else if TooBig(SizeT(size)) then Bad
    else Outside
  }

  /** push_value. */
  function DecAs(s: seq<Byte>, t: nat, cookie: nat): (r: Read<Value>)
    ensures r.Got? ==> |r.rest| <= |s|
    decreases |s|, 3, 0
  {
    if t == 0 then Got(Nil, s)
    else if t == 1 then Got(Bool(cookie != 0), s)
    else if t == 2 then
      if cookie == 8 then DecBytes(s, 8, b => Real(b))
      else
        var r := DecInteger(s, cookie);
        if !r.Got? then Fails(r) else Got(Integer(r.value), r.rest)
    else if t == 3 then DecBytes(s, 8, b => Pointer(b))
    else if t == 4 then DecBytes(s, cookie, b => Str(b))
    else if t == 5 then
      if cookie != 2 && cookie != 4 then Bad
      else
        var l := Take(s, cookie);
        if !l.Got? then Fails(l) else DecString(l.rest, UnLe(l.value))
    else if t == 6 then
      var n := DecSize(s, cookie);
      if !n.Got? then Fails(n)
      else
        var a := DecMany(n.rest, if n.value < 0 then 0 else n.value);
        if !a.Got? then Fails(a)
        else
          var p := DecPairs(a.rest);
          if !p.Got? then Fails(p) else Got(Table(a.value, p.value), p.rest)
    else Bad
  }

  /** The array part of a table. */
  function DecMany(s: seq<Byte>, n: nat): (r: Read<seq<Value>>)
    ensures r.Got? ==> |r.rest| <= |s|
    decreases |s|, 2, n
  {
    if n == 0 then Got([], s)
    else
      var v := Dec(s);
      if !v.Got? then Fails(v)
      else
        var more := DecMany(v.rest, n - 1);
        if !more.Got? then Fails(more) else Got([v.value] + more.value, more.rest)
  }

  /** The other pairs of a table, up to a nil key. lua_rawset refuses a key that is not a number. */
  function DecPairs(s: seq<Byte>): (r: Read<seq<Entry>>)
    ensures r.Got? ==> |r.rest| <= |s|
    decreases |s|, 1, 0
  {
    var k := Dec(s);
    if !k.Got? then Fails(k)
    else if k.value == Nil then Got([], k.rest)
    else
      var v := Dec(k.rest);
      if !v.Got? then Fails(v)
      else if IsNan(k.value) then Bad
      else
        var more := DecPairs(v.rest);
        if !more.Got? then Fails(more) else Got([Entry(k.value, v.value)] + more.value, more.rest)
  }

  /** _luaseri_unpack: values up to the end. */
  function DecToEnd(s: seq<Byte>): Read<seq<Value>>
    decreases |s|
  {
    if s == [] then Got([], [])
    else
      var v := Dec(s);
      if !v.Got? then Fails(v)
      else
        var more := DecToEnd(v.rest);
        if !more.Got? then Fails(more) else Got([v.value] + more.value, more.rest)
  }

  // ----- the round trip -----

  lemma TakeFront(a: seq<Byte>, rest: seq<Byte>)
    ensures Take(a + rest, |a|) == Got(a, rest)
  {
    assert (a + rest)[..|a|] == a && (a + rest)[|a|..] == rest;
  }

  /** The bytes after the type byte read back as the integer. */
  lemma ReadsInteger(cookie: nat, n: nat, k: nat, rest: seq<Byte>)
    requires (cookie == 1 && k == 1) || (cookie == 2 && k == 2) || (cookie == 4 && k == 4) || (cookie == 6 && k == 8)
    requires n < Pow256(k)
    ensures DecInteger(Le(n, k) + rest, cookie) == Got(OfWidth(cookie, n), rest)
  {
    TakeFront(Le(n, k), rest);
    UnLeLe(n, k);
    hide Le, UnLe, Take;
  }

  lemma ReadsZero(rest: seq<Byte>)
    ensures DecInteger(rest, 0) == Got(0, rest)
  {
  }

  lemma IntegerRoundTrip(i: int, rest: seq<Byte>)
    requires -0x8000_0000_0000_0000 <= i < 0x8000_0000_0000_0000
    ensures var e := EncInteger(i);
      |e| > 0 && e[0] % 8 == 2 && e[0] / 8 != 8 && DecInteger(e[1..] + rest, e[0] / 8) == Got(i, rest)
  {
    var e := EncInteger(i);
    Powers();
    hide Le, DecInteger, Pow256;
    if i == 0 {
      assert e[1..] + rest == rest;
      ReadsZero(rest);
    } else if !(-0x8000_0000 <= i < 0x8000_0000) {
      var n := i % 0x1_0000_0000_0000_0000;
      assert e[1..] == Le(n, 8);
      ReadsInteger(6, n, 8, rest);
    } else if i < 0 {
      var n := i % 0x1_0000_0000;
      assert e[1..] == Le(n, 4);
      ReadsInteger(4, n, 4, rest);
    } else if i < 0x100 {
      assert e[1..] == Le(i, 1);
      ReadsInteger(1, i, 1, rest);
    } else if i < 0x1_0000 {
      assert e[1..] == Le(i, 2);
      ReadsInteger(2, i, 2, rest);
    } else {
      assert e[1..] == Le(i, 4);
      ReadsInteger(4, i, 4, rest);
    }
  }

  /** A type byte, then what it announces. */
  lemma DecTyped(t: nat, c: nat, body: seq<Byte>, rest: seq<Byte>)
    requires t < 8 && c < MAX_COOKIE
    ensures Dec(([Combine(t, c)] + body) + rest) == DecAs(body + rest, t, c)
  {
    hide DecAs;
    var s := ([Combine(t, c)] + body) + rest;
    assert s[1..] == body + rest;
  }

  lemma DecSplit(e: seq<Byte>, rest: seq<Byte>)
    requires e != []
    ensures Dec(e + rest) == DecAs(e[1..] + rest, e[0] % 8, e[0] / 8)
  {
    assert (e + rest)[1..] == e[1..] + rest;
  }

  lemma ShortString(s: seq<Byte>, rest: seq<Byte>)
    requires |s| < MAX_COOKIE
    ensures Dec(([Combine(4, |s|)] + s) + rest) == Got(Str(s), rest)
  {
    DecTyped(4, |s|, s, rest);
    TakeFront(s, rest);
  }

  lemma StringAfterSize(k: nat, s: seq<Byte>, rest: seq<Byte>)
    requires (k == 2 || k == 4) && |s| < Pow256(k) && |s| < 0x8000_0000
    ensures Dec((([Combine(5, k)] + Le(|s|, k)) + s) + rest) == Got(Str(s), rest)
  {
    LongString(k, s, rest);
    DecTyped(5, k, Le(|s|, k) + s, rest);
    hide Le, Dec, DecAs, Combine;
    Regroup([Combine(5, k)], Le(|s|, k), s, rest);
  }

  lemma StringRoundTrip(s: seq<Byte>, rest: seq<Byte>)
    requires |s| < 0x8000_0000
    ensures Dec(EncString(s) + rest) == Got(Str(s), rest)
  {
    Powers();
    if |s| < MAX_COOKIE {
      ShortString(s, rest);
    } else if |s| < 0x1_0000 {
      StringAfterSize(2, s, rest);
    } else {
      StringAfterSize(4, s, rest);
    }
    hide Dec, Le, Combine;
  }

  lemma PlainSize(s: seq<Byte>, n: nat)
    requires n < 0x8000_0000
    ensures DecString(s, n) == DecBytes(s, n, b => Str(b))
  {
  }

  /** Of the lengths that are negative as an int only -1 gets past the test: reading a string leaves the buffer
      if and only if its four length bytes are all 255. */
  lemma OutsideExactly(s: seq<Byte>)
    ensures DecAs(s, 5, 4) == Outside <==> |s| >= 4 && UnLe(s[..4]) == 0xFFFF_FFFF
    ensures DecAs(s, 5, 4) == Outside <==> |s| >= 4 && s[0] == s[1] == s[2] == s[3] == 255
  {
    if |s| >= 4 {
      UnLeFour(s[..4]);
      OnlyMinusOne(s[4..], UnLe(s[..4]));
    }
    hide UnLe, DecString;
  }

  lemma OnlyMinusOne(s: seq<Byte>, n: nat)
    requires n < 0x1_0000_0000
    ensures DecString(s, n) == Outside <==> n == 0xFFFF_FFFF
  {
  }

  lemma UnLeFour(b: seq<Byte>)
    requires |b| == 4
    ensures UnLe(b) == (b[0] as int) + 256 * (b[1] as int) + 0x1_0000 * (b[2] as int) + 0x100_0000 * (b[3] as int)
  {
    assert b[1..][1..] == b[2..] && b[2..][1..] == b[3..] && b[3..][1..] == [];
    assert UnLe(b[3..]) == b[3];
    assert UnLe(b[2..]) == (b[2] as int) + 256 * (b[3] as int);
  }

  /** Five such bytes. */
  lemma ReadsOutside()
    ensures Dec([0x25, 0xFF, 0xFF, 0xFF, 0xFF]) == Outside
  {
    var s: seq<Byte> := [0x25, 0xFF, 0xFF, 0xFF, 0xFF];
    OutsideExactly(s[1..]);
  }

  /** A table whose only pair has a key that is not a number is refused, whatever else its bytes say. */
  lemma NanKeyRefused(bytes: seq<Byte>, value: seq<Byte>)
    requires |bytes| == 8 && IsNan(Real(bytes))
    ensures !DecPairs([Combine(2, 8)] + (bytes + value)).Got?
  {
    DecTyped(2, 8, bytes, value);
    TakeFront(bytes, value);
    hide IsNan;
  }

  lemma LongString(k: nat, s: seq<Byte>, rest: seq<Byte>)
    requires (k == 2 || k == 4) && |s| < Pow256(k) && |s| < 0x8000_0000
    ensures DecAs(Le(|s|, k) + (s + rest), 5, k) == Got(Str(s), rest)
  {
    TakeFront(Le(|s|, k), s + rest);
    UnLeLe(|s|, k);
    PlainSize(s + rest, |s|);
    TakeFront(s, rest);
    hide Le, UnLe, Take;
  }

  lemma SizeRoundTrip(n: nat, rest: seq<Byte>)
    requires n < 0x8000_0000
    ensures var e := EncSize(n); |e| > 0 && e[0] % 8 == 6 && DecSize(e[1..] + rest, e[0] / 8) == Got(n, rest)
  {
    var e := EncSize(n);
    if n >= MAX_COOKIE - 1 {
      var f := EncInteger(n);
      IntegerRoundTrip(n, rest);
      assert e[1..] == f && (f + rest)[1..] == f[1..] + rest;
      hide EncInteger, DecInteger;
    } else {
      assert e[1..] + rest == rest;
    }
  }

  lemma EncNotEmpty(v: Value)
    requires Good(v)
    ensures Enc(v) != []
  {
    if v.Integer? {
      IntegerRoundTrip(v.i, []);
    } else if v.Table? {
      SizeRoundTrip(|v.arr|, []);
    }
  }

  lemma DecTable(s: seq<Byte>, cookie: nat, arr: seq<Value>, pairs: seq<Entry>, m1: seq<Byte>, m2: seq<Byte>,
        rest: seq<Byte>)
    requires DecSize(s, cookie) == Got(|arr|, m1) && DecMany(m1, |arr|) == Got(arr, m2)
    requires DecPairs(m2) == Got(pairs, rest)
    ensures DecAs(s, 6, cookie) == Got(Table(arr, pairs), rest)
  {
    hide DecMany, DecPairs, DecSize, Dec;
  }

  lemma EncTable(arr: seq<Value>, pairs: seq<Entry>, rest: seq<Byte>)
    ensures Enc(Table(arr, pairs)) + rest
      == EncSize(|arr|) + (EncAll(arr) + (EncPairs(pairs) + ([Combine(0, 0)] + rest)))
  {
    var e, a, p, z := EncSize(|arr|), EncAll(arr), EncPairs(pairs), [Combine(0, 0)];
    hide EncSize, EncAll, EncPairs;
    assert (e + a + p + z) + rest == e + (a + (p + (z + rest)));
  }

  lemma TableRoundTrip(arr: seq<Value>, pairs: seq<Entry>, rest: seq<Byte>)
    requires |arr| < 0x8000_0000
    requires forall r :: DecMany(EncAll(arr) + r, |arr|) == Got(arr, r)
    requires DecPairs(EncPairs(pairs) + ([Combine(0, 0)] + rest)) == Got(pairs, rest)
    ensures Dec(Enc(Table(arr, pairs)) + rest) == Got(Table(arr, pairs), rest)
  {
    hide Enc, EncSize, EncAll, EncPairs, DecMany, DecPairs, DecSize, Dec, DecAs;
    var e, m2 := EncSize(|arr|), EncPairs(pairs) + ([Combine(0, 0)] + rest);
    var m1 := EncAll(arr) + m2;
    EncTable(arr, pairs, rest);
    SizeRoundTrip(|arr|, m1);
    DecSplit(e, m1);
    DecTable(e[1..] + m1, e[0] / 8, arr, pairs, m1, m2, rest);
  }

  /** Reading the byte form of a value gives the value back and takes exactly its bytes. */
  lemma {:induction false} RoundTrip(v: Value, rest: seq<Byte>)
    requires Good(v)
    ensures Dec(Enc(v) + rest) == Got(v, rest)
    decreases v, 1
  {
    match v {
      case Nil => DecTyped(0, 0, [], rest); assert [Combine(0, 0)] + [] == Enc(v) && [] + rest == rest;
      case Bool(b) =>
        var cookie := if b then 1 else 0;
        DecTyped(1, cookie, [], rest);
        assert [Combine(1, cookie)] + [] == Enc(v) && [] + rest == rest;
      case Integer(i) => IntegerRoundTrip(i, rest); DecSplit(EncInteger(i), rest);
      case Real(bytes) => DecTyped(2, 8, bytes, rest); TakeFront(bytes, rest);
      case Pointer(bytes) => DecTyped(3, 0, bytes, rest); TakeFront(bytes, rest);
      case Str(s) => StringRoundTrip(s, rest);
      case Table(arr, pairs) =>
        forall r ensures DecMany(EncAll(arr) + r, |arr|) == Got(arr, r) {
          ManyRoundTrip(arr, r);
        }
        PairsRoundTrip(pairs, rest);
        TableRoundTrip(arr, pairs, rest);
    }
  }

  lemma {:induction false} ManyRoundTrip(vs: seq<Value>, rest: seq<Byte>)
    requires forall k :: 0 <= k < |vs| ==> Good(vs[k])
    ensures DecMany(EncAll(vs) + rest, |vs|) == Got(vs, rest)
    decreases vs, 0
  {
    if vs == [] {
      assert EncAll(vs) + rest == rest;
    } else {
      var more := EncAll(vs[1..]) + rest;
      assert EncAll(vs) + rest == Enc(vs[0]) + more;
      RoundTrip(vs[0], more);
      ManyRoundTrip(vs[1..], rest);
      hide Enc, EncAll, Dec, Good;
      assert [vs[0]] + vs[1..] == vs;
    }
  }

  lemma {:induction false} PairsRoundTrip(ps: seq<Entry>, rest: seq<Byte>)
    requires forall k :: 0 <= k < |ps| ==> IsKey(ps[k].key) && Good(ps[k].key) && Good(ps[k].value)
    ensures DecPairs(EncPairs(ps) + ([Combine(0, 0)] + rest)) == Got(ps, rest)
    decreases ps, 0
  {
    if ps == [] {
      assert EncPairs(ps) + ([Combine(0, 0)] + rest) == Enc(Nil) + rest;
      RoundTripNil(rest);
    } else {
      var e, end := ps[0], [Combine(0, 0)] + rest;
      var more := EncPairs(ps[1..]) + end;
      EncFirst(ps, end);
      EntryRoundTrip(e, more);
      PairsRoundTrip(ps[1..], rest);
      DecEntry(e, Enc(e.key) + (Enc(e.value) + more), Enc(e.value) + more, more);
      hide Enc, EncPairs, Dec, Good, DecPairs, IsKey;
      assert [e] + ps[1..] == ps;
    }
  }

  lemma Regroup(a: seq<Byte>, b: seq<Byte>, c: seq<Byte>, d: seq<Byte>)
    ensures ((a + b) + c) + d == a + (b + (c + d)) == (a + (b + c)) + d
    ensures (b + c) + d == b + (c + d)
  {
  }

  lemma EncFirst(ps: seq<Entry>, end: seq<Byte>)
    requires ps != []
    ensures EncPairs(ps) + end == Enc(ps[0].key) + (Enc(ps[0].value) + (EncPairs(ps[1..]) + end))
  {
    Regroup(Enc(ps[0].key), Enc(ps[0].value), EncPairs(ps[1..]), end);
    hide Enc;
  }

  lemma DecEntry(e: Entry, s: seq<Byte>, m: seq<Byte>, more: seq<Byte>)
    requires IsKey(e.key) && Dec(s) == Got(e.key, m) && Dec(m) == Got(e.value, more)
    ensures DecPairs(more).Got? ==>
      DecPairs(s) == Got([e] + DecPairs(more).value, DecPairs(more).rest)
  {
    hide Dec;
  }

  lemma {:induction false} EntryRoundTrip(e: Entry, more: seq<Byte>)
    requires Good(e.key) && Good(e.value)
    ensures Dec(Enc(e.key) + (Enc(e.value) + more)) == Got(e.key, Enc(e.value) + more)
    ensures Dec(Enc(e.value) + more) == Got(e.value, more)
    decreases e, 0
  {
    RoundTrip(e.key, Enc(e.value) + more);
    RoundTrip(e.value, more);
  }

  lemma RoundTripNil(rest: seq<Byte>)
    ensures Dec(Enc(Nil) + rest) == Got(Nil, rest)
  {
    DecTyped(0, 0, [], rest);
    assert [Combine(0, 0)] + [] == Enc(Nil) && [] + rest == rest;
  }

  /** Unpacking what was packed gives the same values, in order, and nothing is left over. */
  lemma {:induction false} AllRoundTrip(vs: seq<Value>)
    requires forall k :: 0 <= k < |vs| ==> Good(vs[k])
    ensures DecToEnd(EncAll(vs)) == Got(vs, [])
    decreases |vs|
  {
    if vs != [] {
      RoundTrip(vs[0], EncAll(vs[1..]));
      EncNotEmpty(vs[0]);
      AllRoundTrip(vs[1..]);
      hide Enc, Dec, Good;
      assert [vs[0]] + vs[1..] == vs;
    }
  }
}
