/** Reading a capture list: the captures of a match, with their extents, come out of the flat list again. */
module CaptureReading {
  import opened PegTree
  import opened Analyses
  import opened Machine
  import opened CaptureList
  import opened CaptureSearch

  /** closeaddr, of a full capture and of a close mark. */
  function CloseAddr(c: Capture): int {
    c.s + c.siz - 1
  }

  /** A capture as it is read: where it ends may be anything before it is known what was written. */
  datatype Value = Value(kind: nat, key: nat, start: nat, end: int, nested: seq<Value>)

  datatype Reading = Reading(values: seq<Value>, next: nat)

  /** The captures from entry 'i' on, up to a close mark or the end of the list: a full entry is a capture without
      others inside; behind an open one come those inside it, and then its close mark. */
  function Read(caps: seq<Capture>, i: nat): (r: Reading)
    requires i <= |caps|
    ensures i <= r.next <= |caps| && (r.next < |caps| ==> IsCloseCap(caps[r.next]))
    decreases |caps| - i
  {
    if i == |caps| || IsCloseCap(caps[i]) then Reading([], i)
    else if IsFullCap(caps[i]) then
      var rest := Read(caps, i + 1);
      Reading([Value(caps[i].kind, caps[i].idx, caps[i].s, CloseAddr(caps[i]), [])] + rest.values, rest.next)
    else
      var inner := Read(caps, i + 1);
      if inner.next == |caps| then Reading(inner.values, inner.next)
      else
        var rest := Read(caps, inner.next + 1);
        var end := CloseAddr(caps[inner.next]);
        Reading([Value(caps[i].kind, caps[i].idx, caps[i].s, end, inner.values)] + rest.values, rest.next)
  }

  /** What should be read. */
  function ValueOf(t: CapTree): Value
    decreases t, 0
  {
    Value(t.kind, t.key, t.start, t.end, ValuesOf(t.nested))
  }

  function ValuesOf(ts: seq<CapTree>): (vs: seq<Value>)
    ensures |vs| == |ts|
    decreases ts, 1
  {
    if ts == [] then [] else [ValueOf(ts[0])] + ValuesOf(ts[1..])
  }

  lemma {:induction false} ReadsOne(caps: seq<Capture>, i: nat, t: CapTree)
    requires Proper(t) && LiesAt(caps, i, FlattenOne(t))
    ensures i + |FlattenOne(t)| <= |caps|
    ensures var rest := Read(caps, i + |FlattenOne(t)|);
      Read(caps, i) == Reading([ValueOf(t)] + rest.values, rest.next)
    decreases t, 0
  {
    assert caps[i] == FlattenOne(t)[0];
    if |FlattenOne(t)| > 1 {
      BracketParts(caps, i, t);
      assert AllProper(t.nested) && t.kind != CCLOSE;
      hide LiesAt, Flatten, FlattenOne, Proper, AllProper;
      ReadsThrough(caps, i + 1, t.nested);
      ReadsBracket(caps, i, i + 1 + |Flatten(t.nested)|, t);
    }
  }

  lemma ReadsBracket(caps: seq<Capture>, i: nat, close: nat, t: CapTree)
    requires i < close < |caps| && t.kind != CCLOSE
    requires caps[i] == Capture(t.start, t.key, t.kind, 0) && caps[close] == Capture(t.end, 0, CCLOSE, 1)
    requires var rest := Read(caps, close); Read(caps, i + 1) == Reading(ValuesOf(t.nested) + rest.values, rest.next)
    ensures var rest := Read(caps, close + 1); Read(caps, i) == Reading([ValueOf(t)] + rest.values, rest.next)
  {
    assert Read(caps, close) == Reading([], close);
    assert ValuesOf(t.nested) + [] == ValuesOf(t.nested);
    hide ValuesOf;
  }

  lemma ReadsTwice(a: Reading, b: Reading, c: Reading, ts: seq<CapTree>)
    requires ts != [] && a == Reading([ValueOf(ts[0])] + b.values, b.next)
    requires b == Reading(ValuesOf(ts[1..]) + c.values, c.next)
    ensures a == Reading(ValuesOf(ts) + c.values, c.next)
  {
    var x, y, z := [ValueOf(ts[0])], ValuesOf(ts[1..]), c.values;
    assert x + (y + z) == (x + y) + z;
    hide ValueOf;
  }

  /** Behind complete captures, reading goes on with what follows them. */
  lemma {:induction false} ReadsThrough(caps: seq<Capture>, i: nat, ts: seq<CapTree>)
    requires AllProper(ts) && LiesAt(caps, i, Flatten(ts))
    ensures i + |Flatten(ts)| <= |caps|
    ensures var rest := Read(caps, i + |Flatten(ts)|);
      Read(caps, i) == Reading(ValuesOf(ts) + rest.values, rest.next)
    decreases ts, 1
  {
    hide *;
    LiesInside(caps, i, Flatten(ts));
    PartsOf(ts);
    if ts == [] {
      ReadsNothing(Read(caps, i));
    } else {
      var one, more := FlattenOne(ts[0]), Flatten(ts[1..]);
      LieApart(caps, i, one, more);
      ReadsOne(caps, i, ts[0]);
      ReadsThrough(caps, i + |one|, ts[1..]);
      ReadsTwice(Read(caps, i), Read(caps, i + |one|), Read(caps, i + |one + more|), ts);
    }
  }

  lemma LiesInside(caps: seq<Capture>, i: nat, f: seq<Capture>)
    requires LiesAt(caps, i, f)
    ensures i + |f| <= |caps|
  {
  }

  lemma PartsOf(ts: seq<CapTree>)
    requires AllProper(ts)
    ensures Flatten(ts) == if ts == [] then [] else FlattenOne(ts[0]) + Flatten(ts[1..])
    ensures ts != [] ==> Proper(ts[0]) && AllProper(ts[1..])
  {
  }

  lemma ReadsNothing(r: Reading)
    ensures r == Reading(ValuesOf([]) + r.values, r.next)
  {
  }

  /** The captures of a match, followed by the close mark that the end of a match writes, are read as they are. */
  lemma ReadsBack(ts: seq<CapTree>, mark: Capture)
    requires AllProper(ts) && IsCloseCap(mark)
    ensures Read(Flatten(ts) + [mark], 0) == Reading(ValuesOf(ts), |Flatten(ts)|)
  {
    var caps := Flatten(ts) + [mark];
    ReadsThrough(caps, 0, ts);
    assert ValuesOf(ts) + [] == ValuesOf(ts);
    hide Flatten, ValuesOf;
  }

  /** The first entry of a capture says where it starts and of what kind it is, the last one where it ends. */
  lemma FirstAndLast(t: CapTree)
    ensures var f := FlattenOne(t);
      f != [] && f[0].s == t.start && f[0].kind == t.kind && f[0].idx == t.key && CloseAddr(f[|f| - 1]) == t.end
  {
  }

  /** The size of an entry fits in the byte that it is kept in. */
  lemma {:induction false} SizesFit(ts: seq<CapTree>)
    ensures forall c :: c in Flatten(ts) ==> c.siz <= 255
    decreases ts, 1
  {
    if ts != [] {
      SizeFits(ts[0]);
      SizesFit(ts[1..]);
    }
  }

  lemma {:induction false} SizeFits(t: CapTree)
    ensures forall c :: c in FlattenOne(t) ==> c.siz <= 255
    decreases t, 0
  {
    SizesFit(t.nested);
  }

  // ----- where captures lie -----

  /** One behind the other from 'i' to 'j', and those inside each of them within its extent. */
  predicate InOrder(vs: seq<Value>, i: int, j: int) {
    if vs == [] then i <= j
    else i <= vs[0].start && InOrder(vs[0].nested, vs[0].start, vs[0].end) && InOrder(vs[1..], vs[0].end, j)
  }

  lemma {:induction false} OrderStretches(vs: seq<Value>, a: int, i: int, j: int, b: int)
    requires a <= i && InOrder(vs, i, j) && j <= b
    ensures InOrder(vs, a, b)
    decreases |vs|
  {
    if vs != [] {
      OrderStretches(vs[1..], vs[0].end, vs[0].end, j, b);
    }
  }

  lemma {:induction false} OrderJoins(vs: seq<Value>, ws: seq<Value>, i: int, j: int, k: int)
    requires InOrder(vs, i, j) && InOrder(ws, j, k)
    ensures InOrder(vs + ws, i, k)
    decreases |vs|
  {
    if vs == [] {
      assert vs + ws == ws;
      OrderStretches(ws, i, j, k, k);
    } else {
      assert (vs + ws)[1..] == vs[1..] + ws;
      OrderJoins(vs[1..], ws, vs[0].end, j, k);
    }
  }

  lemma {:induction false} ValuesJoin(a: seq<CapTree>, b: seq<CapTree>)
    ensures ValuesOf(a + b) == ValuesOf(a) + ValuesOf(b)
    decreases |a|
  {
    if a == [] {
      assert a + b == b;
    } else {
      assert (a + b)[1..] == a[1..] + b;
      ValuesJoin(a[1..], b);
    }
  }

  /** The captures of a match lie between its start and its end, in order, and those made inside a capture lie
      inside it. */
  lemma {:induction false} CapturesInOrder(t: Tree, s: Subject, i: nat)
    requires i <= |s|
    ensures var m := Peg(t, s, i); m.Success? ==> InOrder(ValuesOf(m.caps), i, m.pos)
    decreases t, |s| - i
  {
    match t
    case TSeq(p1, p2) =>
      CapturesInOrder(p1, s, i);
      var m := Peg(p1, s, i);
      if m.Success? {
        CapturesInOrder(p2, s, m.pos);
        var rest := Peg(p2, s, m.pos);
        if rest.Success? {
          ValuesJoin(m.caps, rest.caps);
          OrderJoins(ValuesOf(m.caps), ValuesOf(rest.caps), i, m.pos, rest.pos);
        }
      }
    case TChoice(p1, p2) =>
      CapturesInOrder(p1, s, i);
      CapturesInOrder(p2, s, i);
    case TRep(body) =>
      CapturesInOrder(body, s, i);
      var m := Peg(body, s, i);
      if m.Success? && m.pos > i {
        CapturesInOrder(t, s, m.pos);
        var rest := Peg(t, s, m.pos);
        if rest.Success? {
          ValuesJoin(m.caps, rest.caps);
          OrderJoins(ValuesOf(m.caps), ValuesOf(rest.caps), i, m.pos, rest.pos);
        }
      }
    case TCapture(kind, key, body) =>
      CapturesInOrder(body, s, i);
      var m := Peg(body, s, i);
      if m.Success? {
        var c := CapTree(kind, key, i, m.pos, m.caps);
        assert ValuesOf([c]) == [ValueOf(c)];
        assert [ValueOf(c)][1..] == [];
      }
    case _ =>
  }
}
