/** The bytes of each form, written out: the type is in the low three bits of the first byte, what else it says in
    the other five; numbers have their lowest byte first. */
module SerialForms {
  import opened Serial

  function Two(n: nat): seq<Byte> {
    [n % 0x100, n / 0x100 % 0x100]
  }

  function Four(n: nat): seq<Byte> {
    [n % 0x100, n / 0x100 % 0x100, n / 0x1_0000 % 0x100, n / 0x100_0000 % 0x100]
  }

  function Eight(n: nat): seq<Byte> {
    Four(n) + Four(n / 0x1_0000_0000)
  }

  lemma LeTwo(n: nat)
    ensures Le(n, 2) == Two(n)
  {
    LeNext(n, 2);
    LeNext(n / 256, 1);
    LeNone(n / 256 / 256);
  }

  lemma LeNext(n: nat, k: nat)
    requires k > 0
    ensures Le(n, k) == [n % 256] + Le(n / 256, k - 1)
  {
  }

  lemma LeNone(n: nat)
    ensures Le(n, 0) == []
  {
  }

  lemma Quotients(n: nat)
    ensures n / 256 / 256 == n / 0x1_0000 && n / 256 / 256 / 256 == n / 0x100_0000
    ensures n / 256 / 256 / 256 / 256 == n / 0x1_0000_0000
  {
  }

  /** The lowest four bytes, and the others. */
  lemma LeFour(n: nat, k: nat)
    requires k >= 4
    ensures Le(n, k) == Four(n) + Le(n / 0x1_0000_0000, k - 4)
  {
    LeNext(n, k);
    LeNext(n / 256, k - 1);
    LeNext(n / 256 / 256, k - 2);
    LeNext(n / 256 / 256 / 256, k - 3);
    Quotients(n);
    hide Le;
  }

  lemma LeEight(n: nat)
    ensures Le(n, 8) == Eight(n)
  {
    LeFour(n, 8);
    LeFour(n / 0x1_0000_0000, 4);
    LeNone(n / 0x1_0000_0000 / 0x1_0000_0000);
    hide Le, Four;
    assert Four(n / 0x1_0000_0000) + [] == Four(n / 0x1_0000_0000);
  }

  /** Integers take the least width of one, two, four and eight bytes, negative ones four or eight; zero takes
      none. */
  lemma IntegerForm(i: int)
    requires -0x8000_0000_0000_0000 <= i < 0x8000_0000_0000_0000
    ensures Enc(Integer(i)) ==
      if i == 0 then [2]
      else if 0 < i < 0x100 then [10, i]
      else if 0 < i < 0x1_0000 then [18] + Two(i)
      else if 0 < i < 0x8000_0000 then [34] + Four(i)
      else if -0x8000_0000 <= i < 0 then [34] + Four(i + 0x1_0000_0000)
      else if i < 0 then [50] + Eight(i + 0x1_0000_0000_0000_0000)
      else [50] + Eight(i)
  {
    if 0 <= i < 0x1_0000 {
      NarrowForm(i);
    } else if -0x8000_0000 <= i < 0x8000_0000 {
      WideForm(i);
    } else {
      WidestForm(i);
    }
  }

  lemma NarrowForm(i: nat)
    requires i < 0x1_0000
    ensures EncInteger(i) == if i == 0 then [2] else if i < 0x100 then [10, i] else [18] + Two(i)
  {
    LeTwo(i);
    LeNext(i, 1);
    LeNone(i / 256);
    hide Le, Two;
  }

  lemma WideForm(i: int)
    requires -0x8000_0000 <= i < 0 || 0x1_0000 <= i < 0x8000_0000
    ensures EncInteger(i) == [34] + Four(if i < 0 then i + 0x1_0000_0000 else i)
  {
    var u := if i < 0 then i + 0x1_0000_0000 else i;
    assert u == i % 0x1_0000_0000;
    LeFour(u, 4);
    LeNone(u / 0x1_0000_0000);
    hide Le, Four;
    assert Four(u) + [] == Four(u);
  }

  lemma Wraps64(i: int, u: nat)
    requires 0 <= u < 0x1_0000_0000_0000_0000 && (u == i || u == i + 0x1_0000_0000_0000_0000)
    ensures i % 0x1_0000_0000_0000_0000 == u
  {
  }

  lemma WidestForm(i: int)
    requires -0x8000_0000_0000_0000 <= i < -0x8000_0000 || 0x8000_0000 <= i < 0x8000_0000_0000_0000
    ensures EncInteger(i) == [50] + Eight(if i < 0 then i + 0x1_0000_0000_0000_0000 else i)
  {
    var u := if i < 0 then i + 0x1_0000_0000_0000_0000 else i;
    Wraps64(i, u);
    LeEight(u);
    hide Le, Eight;
  }

  /** A string has its length in its first byte, or in two or four bytes after it. */
  lemma StringForm(s: seq<Byte>)
    requires |s| < 0x8000_0000
    ensures Enc(Str(s)) ==
      if |s| < 32 then [4 + 8 * |s|] + s
      else if |s| < 0x1_0000 then [21] + Two(|s|) + s
      else [37] + Four(|s|) + s
  {
    LeTwo(|s|);
    LeFour(|s|, 4);
    LeNone(|s| / 0x1_0000_0000);
    assert Four(|s|) + [] == Four(|s|);
    hide Le, Two, Four;
  }

  lemma NilForm()
    ensures Enc(Nil) == [0]
  {
  }

  lemma BoolForm(b: bool)
    ensures Enc(Bool(b)) == if b then [9] else [1]
  {
  }

  /** A real and a pointer are eight bytes behind the first one. */
  lemma RealForm(bytes: seq<Byte>)
    ensures Enc(Real(bytes)) == [66] + bytes
  {
  }

  lemma PointerForm(bytes: seq<Byte>)
    ensures Enc(Pointer(bytes)) == [3] + bytes
  {
  }

  function Concat(ss: seq<seq<Byte>>): seq<Byte> {
    if ss == [] then [] else ss[0] + Concat(ss[1..])
  }

  function Forms(vs: seq<Value>): seq<seq<Byte>> {
    seq(|vs|, k requires 0 <= k < |vs| => Enc(vs[k]))
  }

  function PairForms(ps: seq<Entry>): seq<seq<Byte>> {
    seq(|ps|, k requires 0 <= k < |ps| => Enc(ps[k].key) + Enc(ps[k].value))
  }

  lemma {:induction false} AllIsConcat(vs: seq<Value>)
    ensures EncAll(vs) == Concat(Forms(vs))
    decreases |vs|
  {
    if vs != [] {
      AllIsConcat(vs[1..]);
      assert Forms(vs)[1..] == Forms(vs[1..]);
      hide Enc;
    }
  }

  lemma {:induction false} PairsIsConcat(ps: seq<Entry>)
    ensures EncPairs(ps) == Concat(PairForms(ps))
    decreases |ps|
  {
    if ps != [] {
      PairsIsConcat(ps[1..]);
      assert PairForms(ps)[1..] == PairForms(ps[1..]);
      hide Enc;
    }
  }

  /** A table is its size, the forms of its array part, those of its pairs, key before value, and a nil. */
  lemma TableForm(arr: seq<Value>, pairs: seq<Entry>)
    ensures Enc(Table(arr, pairs)) ==
      (if |arr| < 31 then [6 + 8 * |arr|] else [254] + Enc(Integer(|arr|)))
      + Concat(Forms(arr)) + Concat(PairForms(pairs)) + [0]
  {
    AllIsConcat(arr);
    PairsIsConcat(pairs);
    hide EncInteger, EncAll, EncPairs, EncString, Concat, Forms, PairForms;
  }
}
