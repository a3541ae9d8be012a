/** The flat capture list of the machine as an encoding of nested captures, and the two
    searches over it. */
module CaptureList {
  import opened PegTree
  import opened Machine

  /** Short captures without nested ones take a single entry; the others are an open
      entry, the nested captures and a close mark. */
  function FlattenOne(t: CapTree): seq<Capture>
    decreases t, 0
  {
    if t.nested == [] && t.start <= t.end < t.start + UCHAR_MAX then
      [Capture(t.start, t.key, t.kind, t.end - t.start + 1)]
    else
      [Capture(t.start, t.key, t.kind, 0)] + Flatten(t.nested) + [Capture(t.end, 0, CCLOSE, 1)]
  }

  function Flatten(ts: seq<CapTree>): seq<Capture>
    decreases ts, 1
  {
    if ts == [] then [] else FlattenOne(ts[0]) + Flatten(ts[1..])
  }

  lemma {:induction false} FlattenAppend(a: seq<CapTree>, b: seq<CapTree>)
    ensures Flatten(a + b) == Flatten(a) + Flatten(b)
    decreases |a|
  {
    hide FlattenOne;
    if a == [] {
      assert a + b == b;
    } else {
      FlattenAppend(a[1..], b);
      assert (a + b)[1..] == a[1..] + b;
    }
  }

  /** Captures made in two steps on top of those already there. */
  lemma FlattenTwice(caps: seq<Capture>, a: seq<CapTree>, b: seq<CapTree>)
    ensures caps + Flatten(a) + Flatten(b) == caps + Flatten(a + b)
  {
    FlattenAppend(a, b);
  }

  lemma FlattenNone(caps: seq<Capture>)
    ensures caps + Flatten([]) == caps
  {
  }

  lemma FlattenSingle(t: CapTree)
    ensures Flatten([t]) == FlattenOne(t)
  {
    assert Flatten([t]) == FlattenOne(t) + Flatten([]);
  }

  /** The last entry of a flattened list is never an open one. */
  lemma {:induction false} LastIsClosed(ts: seq<CapTree>)
    requires ts != []
    ensures Flatten(ts) != [] && Flatten(ts)[|Flatten(ts)| - 1].siz != 0
    decreases |ts|
  {
    if |ts| == 1 {
      FlattenSingle(ts[0]);
      assert ts == [ts[0]];
    } else {
      LastIsClosed(ts[1..]);
    }
  }
}
