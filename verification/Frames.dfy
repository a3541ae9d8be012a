/** A byte stream of packages, each after its length in two bytes, the high one first. */
module Frames {

  type Byte = b: int | 0 <= b < 256

  function Length(hi: Byte, lo: Byte): nat {
    hi * 256 + lo
  }

  /** The packages at the front of a stream, and the bytes that are not a package yet. */
  datatype Parsed = Parsed(packages: seq<seq<Byte>>, rest: seq<Byte>)

  /** Whether the stream begins with a whole package. */
  predicate Whole(s: seq<Byte>) {
    |s| >= 2 && |s| - 2 >= Length(s[0], s[1])
  }

  function First(s: seq<Byte>): seq<Byte>
    requires Whole(s)
  {
    s[2..2 + Length(s[0], s[1])]
  }

  function After(s: seq<Byte>): (r: seq<Byte>)
    requires Whole(s)
    ensures |r| < |s|
  {
    s[2 + Length(s[0], s[1])..]
  }

  function Parse(s: seq<Byte>): (p: Parsed)
    ensures !Whole(p.rest)
  {
    if Whole(s) then
      var p := Parse(After(s));
      Parsed([First(s)] + p.packages, p.rest)
    else Parsed([], s)
  }

  function Framed1(p: seq<Byte>): seq<Byte>
    requires |p| < 0x10000
  {
    [|p| / 256, |p| % 256] + p
  }

  /** What a sender puts on the wire for some packages. */
  function Framed(packages: seq<seq<Byte>>): seq<Byte>
    requires forall k :: 0 <= k < |packages| ==> |packages[k]| < 0x10000
  {
    if packages == [] then []
    else Framed1(packages[0]) + Framed(packages[1..])
  }

  lemma WholeAppend(s: seq<Byte>, t: seq<Byte>)
    requires Whole(s)
    ensures Whole(s + t) && First(s + t) == First(s) && After(s + t) == After(s) + t
  {
    var n := 2 + Length(s[0], s[1]);
    assert (s + t)[2..n] == s[2..n];
    assert (s + t)[n..] == s[n..] + t;
  }

  /** Parsing a stream in two parts: the bytes left over go before the second part. */
  lemma {:induction false} ParseAppend(s: seq<Byte>, t: seq<Byte>)
    ensures var p, q := Parse(s), Parse(Parse(s).rest + t);
      Parse(s + t) == Parsed(p.packages + q.packages, q.rest)
    decreases |s|
  {
    if Whole(s) {
      WholeAppend(s, t);
      ParseFirst(s);
      ParseFirst(s + t);
      hide *;
      ParseAppend(After(s), t);
      var a, p := First(s), Parse(After(s));
      AheadOf(a, p.packages, Parse(p.rest + t).packages);
    } else {
      NotWhole(s);
      hide *;
      AheadOfAll(Parse(s + t).packages);
    }
  }

  lemma AheadOf(a: seq<Byte>, b: seq<seq<Byte>>, c: seq<seq<Byte>>)
    ensures [a] + (b + c) == ([a] + b) + c
  {
  }

  lemma AheadOfAll(c: seq<seq<Byte>>)
    ensures [] + c == c
  {
  }

  lemma NotWhole(s: seq<Byte>)
    requires !Whole(s)
    ensures Parse(s) == Parsed([], s)
  {
  }

  lemma FramedFirst(p: seq<Byte>, tail: seq<Byte>)
    requires |p| < 0x10000
    ensures var s := Framed1(p) + tail; Whole(s) && First(s) == p && After(s) == tail
  {
    var s := Framed1(p) + tail;
    assert s[0] == |p| / 256 && s[1] == |p| % 256 && Length(s[0], s[1]) == |p|;
    assert s[2..2 + |p|] == p && s[2 + |p|..] == tail;
  }

  /** The parse of what a sender puts on the wire is what it sent. */
  lemma {:induction false} ParseFramed(packages: seq<seq<Byte>>, more: seq<Byte>)
    requires forall k :: 0 <= k < |packages| ==> |packages[k]| < 0x10000
    ensures Parse(Framed(packages) + more) == Parsed(packages + Parse(more).packages, Parse(more).rest)
    decreases |packages|
  {
    if packages == [] {
      assert Framed(packages) + more == more;
      hide *;
      AheadOfAll(Parse(more).packages);
    } else {
      hide *;
      ParseFramed(packages[1..], more);
      ParseOneMore(packages, more);
    }
  }

  lemma ParseOneMore(packages: seq<seq<Byte>>, more: seq<Byte>)
    requires packages != [] && forall k :: 0 <= k < |packages| ==> |packages[k]| < 0x10000
    requires Parse(Framed(packages[1..]) + more) == Parsed(packages[1..] + Parse(more).packages, Parse(more).rest)
    ensures Parse(Framed(packages) + more) == Parsed(packages + Parse(more).packages, Parse(more).rest)
  {
    hide *;
    var tail := Framed(packages[1..]) + more;
    FramedSplit(packages, more);
    FramedFirst(packages[0], tail);
    ParseFirst(Framed1(packages[0]) + tail);
    Regroup(packages, Parse(more).packages);
  }

  lemma Regroup(packages: seq<seq<Byte>>, more: seq<seq<Byte>>)
    requires packages != []
    ensures [packages[0]] + (packages[1..] + more) == packages + more
  {
  }

  lemma FramedSplit(packages: seq<seq<Byte>>, more: seq<Byte>)
    requires packages != [] && forall k :: 0 <= k < |packages| ==> |packages[k]| < 0x10000
    ensures Framed(packages) + more == Framed1(packages[0]) + (Framed(packages[1..]) + more)
  {
    var a, b := Framed1(packages[0]), Framed(packages[1..]);
    assert (a + b) + more == a + (b + more);
  }

  lemma ParseFirst(s: seq<Byte>)
    requires Whole(s)
    ensures Parse(s) == Parsed([First(s)] + Parse(After(s)).packages, Parse(After(s)).rest)
  {
  }
}
