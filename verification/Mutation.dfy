/** What a store into objects does to the collector's invariants, and how a barrier restores them. */
module Mutation {

  import opened ObjectGraph
  import opened Sweeping
  import opened CollectorInvariants

  /** The value 'v' was stored into the objects 'ps', possibly over other references. */
  ghost predicate Stored(h: Heap, k: Heap, ps: iset<Id>, v: Option<Id>) {
    && h.Keys == k.Keys
    && (forall a :: a in h ==> k[a].kind == h[a].kind && k[a].colour == h[a].colour && WellMade(k[a]))
    && (forall a, b :: a in k && k[a].PointsTo(b) ==> h[a].PointsTo(b) || (a in ps && v == Some(b)))
  }

  ghost predicate Usable(h: Heap, current: bool, seen: iset<Id>, v: Option<Id>) {
    v.Some? ==> Live(h, current, v.value) && v.value in seen
  }

  /** The marking invariant, but for references to 'v' from the objects 'ps'. */
  ghost predicate Owing(h: Heap, gray: seq<Id>, again: seq<Id>, current: bool, mainthread: Id, seen: iset<Id>,
        ps: iset<Id>, v: Id)
  {
    && (forall a :: a in h ==> Live(h, current, a))
    && Listed(h, gray, again) && NoBlackThreads(h) && NoStrays(h, gray, again)
    && (forall a, b :: Marked(h, a) && a !in gray && a !in again && h[a].PointsTo(b) ==>
         Marked(h, b) || (a in ps && b == v))
    && Marked(h, mainthread) && (forall a :: Marked(h, a) ==> a in seen)
  }

  lemma StoreKeepsBase(h: Heap, k: Heap, ps: iset<Id>, v: Option<Id>, allgc: seq<Id>, mainthread: Id, running: Id,
        current: bool, roots: set<Id>, seen: iset<Id>)
    requires Base(h, allgc, mainthread, running, current, roots, seen) && Stored(h, k, ps, v)
    requires Usable(h, current, seen, v)
    ensures Base(k, allgc, mainthread, running, current, roots, seen)
  {
    forall a ensures Live(h, current, a) <==> Live(k, current, a) {
      assert a in h <==> a in k;
    }
    forall a, b | Live(k, current, a) && k[a].PointsTo(b) ensures Live(k, current, b) {
      assert h[a].PointsTo(b) || v == Some(b);
    }
    forall a, b | a in k && a in seen && k[a].PointsTo(b) ensures b in seen {
      assert h[a].PointsTo(b) || v == Some(b);
    }
    forall a ensures a in k <==> a in allgc || a == mainthread {
      assert a in h <==> a in k;
    }
  }

  lemma StoreKeepsSweeping(h: Heap, k: Heap, ps: iset<Id>, v: Option<Id>, allgc: seq<Id>, left: nat, current: bool,
        seen: iset<Id>)
    requires SweepingOk(h, allgc, left, current, seen) && Stored(h, k, ps, v)
    ensures SweepingOk(k, allgc, left, current, seen)
  {
    forall a | Live(k, current, a) ensures a in seen {
      assert a in h;
    }
  }

  lemma StoreOwes(h: Heap, k: Heap, ps: iset<Id>, v: Id, gray: seq<Id>, again: seq<Id>, current: bool,
        mainthread: Id, seen: iset<Id>)
    requires MarkingOk(h, gray, again, current, mainthread, seen) && Stored(h, k, ps, Some(v))
    ensures Owing(k, gray, again, current, mainthread, seen, ps, v)
  {
    forall a ensures a in h <==> a in k {
    }
    forall a, b | Marked(k, a) && a !in gray && a !in again && k[a].PointsTo(b)
      ensures Marked(k, b) || (a in ps && b == v)
    {
      assert Marked(h, a);
      if h[a].PointsTo(b) {
        assert Marked(h, b);
      }
    }
  }

  /** Without a barrier: nothing white was stored, or nothing black was stored into. */
  lemma StoreOwesNothing(h: Heap, k: Heap, ps: iset<Id>, v: Option<Id>, gray: seq<Id>, again: seq<Id>, current: bool,
        mainthread: Id, seen: iset<Id>)
    requires MarkingOk(h, gray, again, current, mainthread, seen) && Stored(h, k, ps, v)
    requires v.Some? ==> Marked(h, v.value) || forall p :: p in ps && p in h ==> !h[p].colour.Black?
    ensures MarkingOk(k, gray, again, current, mainthread, seen)
  {
    forall a ensures a in h <==> a in k {
    }
    forall a, b | Marked(k, a) && a !in gray && a !in again && k[a].PointsTo(b) ensures Marked(k, b) {
      assert Marked(h, a) && h[a].colour.Black?;
      if h[a].PointsTo(b) {
        assert Marked(h, b);
      }
    }
  }

  /** The forward barrier marks the value. */
  lemma ForwardPays(h: Heap, gray: seq<Id>, again: seq<Id>, current: bool, mainthread: Id, seen: iset<Id>,
        ps: iset<Id>, v: Id, k: Heap, now: seq<Id>)
    requires Owing(h, gray, again, current, mainthread, seen, ps, v) && Marks(h, gray, k, now, None) && AllWellMade(k)
    requires Marked(k, v) && (forall a :: Marked(k, a) ==> Marked(h, a) || a in seen)
    ensures MarkingOk(k, now, again, current, mainthread, seen) && Grown(h, k) && NoBlackThreads(k) && |gray| <= |now|
  {
    MarksKeepListed(h, gray, k, now, again);
    MarksKeepStrays(h, gray, k, now, again);
    assert Settled(h, gray, again, ps) by {
    }
    MarksKeepSettled(h, gray, k, now, again, ps);
    forall a, b | Marked(k, a) && a !in now && a !in again && k[a].PointsTo(b) ensures Marked(k, b) {
      assert !NewlyGray(h, k, a);
      assert a !in gray && h[a].PointsTo(b);
      if Marked(h, a) {
        assert Marked(h, b) || b == v;
      }
    }
    forall a | a in k ensures Live(k, current, a) {
      assert a in h;
      if Unmarked(k, a) {
        assert k[a].colour == h[a].colour;
      }
    }
  }

  lemma InFront(p: Id, again: seq<Id>)
    ensures forall a :: a in [p] + again <==> a == p || a in again
  {
  }

  /** The backward barrier puts the object back among those to visit. */
  lemma BackwardPays(h: Heap, gray: seq<Id>, again: seq<Id>, current: bool, mainthread: Id, seen: iset<Id>, p: Id,
        v: Id)
    requires Owing(h, gray, again, current, mainthread, seen, iset{p}, v)
    requires p in h && h[p].colour.Black? && !Visited(h[p].kind)
    ensures MarkingOk(Paint(h, p, Gray), gray, [p] + again, current, mainthread, seen)
  {
    var k := Paint(h, p, Gray);
    assert p !in gray && p !in again;
    DistinctConcat([p], again);
    InFront(p, again);
    forall a, b | Marked(k, a) && a !in gray && a !in [p] + again && k[a].PointsTo(b) ensures Marked(k, b) {
      assert a !in again && a != p && a !in iset{p};
      assert h[a].PointsTo(b) && Marked(h, a);
      assert Marked(h, b) && b in k;
    }
    forall a | a in k && k[a].colour.Gray? ensures a in gray || a in [p] + again {
    }
  }

  /** In a sweep the object stored into is swept at once, or made gray without need. */
  lemma SweepPaints(h: Heap, allgc: seq<Id>, left: nat, mainthread: Id, running: Id, current: bool, roots: set<Id>,
        seen: iset<Id>, p: Id, c: Colour)
    requires Base(h, allgc, mainthread, running, current, roots, seen) && SweepingOk(h, allgc, left, current, seen)
    requires p in h && h[p].colour.Black? && (c == Gray || c == White(current))
    ensures Base(Paint(h, p, c), allgc, mainthread, running, current, roots, seen)
    ensures SweepingOk(Paint(h, p, c), allgc, left, current, seen)
  {
    RecolourKeepsBase(h, Paint(h, p, c), allgc, mainthread, running, current, roots, seen);
    assert p !in allgc[..|allgc| - left];
  }

  /** Between collections nothing is black. */
  lemma NoBlackAtRest(h: Heap, allgc: seq<Id>, mainthread: Id, running: Id, current: bool, roots: set<Id>,
        seen: iset<Id>, p: Id)
    requires Base(h, allgc, mainthread, running, current, roots, seen) && SweepingOk(h, allgc, 0, current, seen)
    requires p in h && h[mainthread].colour == White(current)
    ensures h[p].colour == White(current)
  {
    assert allgc[..|allgc| - 0] == allgc;
  }

  // ----- new objects -----

  lemma NewKeepsBase(h: Heap, x: Id, o: Object, allgc: seq<Id>, mainthread: Id, running: Id, current: bool,
        roots: set<Id>, seen: iset<Id>)
    requires Base(h, allgc, mainthread, running, current, roots, seen) && x !in h
    requires WellMade(o) && o.colour == White(current) && (forall b :: !o.PointsTo(b))
    ensures Base(h[x := o], [x] + allgc, mainthread, running, current, roots, seen + iset{x})
  {
    var k := h[x := o];
    DistinctConcat([x], allgc);
    forall a, b | Live(k, current, a) && k[a].PointsTo(b) ensures Live(k, current, b) {
      assert a != x;
      assert Live(h, current, b);
    }
  }

  lemma NewKeepsMarking(h: Heap, x: Id, o: Object, gray: seq<Id>, again: seq<Id>, current: bool, mainthread: Id,
        seen: iset<Id>)
    requires MarkingOk(h, gray, again, current, mainthread, seen) && x !in h && o.colour == White(current)
    ensures MarkingOk(h[x := o], gray, again, current, mainthread, seen + iset{x})
  {
    var k := h[x := o];
    forall a, b | Marked(k, a) && a !in gray && a !in again && k[a].PointsTo(b) ensures Marked(k, b) {
      assert Marked(h, a) && Marked(h, b);
    }
  }

  lemma NewKeepsSweeping(h: Heap, x: Id, o: Object, allgc: seq<Id>, left: nat, current: bool, seen: iset<Id>)
    requires SweepingOk(h, allgc, left, current, seen) && x !in h && o.colour == White(current)
    ensures SweepingOk(h[x := o], [x] + allgc, left, current, seen + iset{x})
  {
    assert ([x] + allgc)[..|allgc| + 1 - left] == [x] + allgc[..|allgc| - left];
  }

  // ----- strings found again -----

  /** A dead short string turns white again. */
  function Resurrected(h: Heap, x: Id, current: bool): Heap
    requires x in h
  {
    if h[x].colour == White(!current) then Paint(h, x, White(current)) else h
  }

  lemma InternKeepsBase(h: Heap, x: Id, allgc: seq<Id>, mainthread: Id, running: Id, current: bool, roots: set<Id>,
        seen: iset<Id>)
    requires Base(h, allgc, mainthread, running, current, roots, seen) && x in h && h[x].kind.ShortString?
    ensures Base(Resurrected(h, x, current), allgc, mainthread, running, current, roots, seen + iset{x})
    ensures Usable(Resurrected(h, x, current), current, seen + iset{x}, Some(x))
  {
    var k := Resurrected(h, x, current);
    assert WellMade(h[x]);
    forall a, b | Live(k, current, a) && k[a].PointsTo(b) ensures Live(k, current, b) {
      assert a != x && h[a].PointsTo(b);
      assert Live(h, current, b);
    }
  }

  lemma InternKeepsMarking(h: Heap, x: Id, gray: seq<Id>, again: seq<Id>, current: bool, mainthread: Id,
        seen: iset<Id>)
    requires MarkingOk(h, gray, again, current, mainthread, seen) && x in h
    ensures MarkingOk(Resurrected(h, x, current), gray, again, current, mainthread, seen + iset{x})
  {
    assert Live(h, current, x);
    hide Working, NoStrays;
  }

  lemma InternKeepsSweeping(h: Heap, x: Id, allgc: seq<Id>, left: nat, current: bool, seen: iset<Id>)
    requires SweepingOk(h, allgc, left, current, seen) && x in h
    ensures SweepingOk(Resurrected(h, x, current), allgc, left, current, seen + iset{x})
  {
  }

  lemma OwingReady(h: Heap, allgc: seq<Id>, mainthread: Id, running: Id, current: bool, roots: set<Id>,
        seen: iset<Id>, gray: seq<Id>, again: seq<Id>, ps: iset<Id>, v: Id)
    requires Base(h, allgc, mainthread, running, current, roots, seen)
    requires Owing(h, gray, again, current, mainthread, seen, ps, v)
    ensures Ready(h, seen) && NoBlackThreads(h) && (forall a :: a in h ==> Live(h, current, a))
    ensures forall a :: Marked(h, a) ==> a in seen
  {
    MarkingReady(h, allgc, mainthread, running, current, roots, seen);
  }

  lemma StoresReference(h: Heap, a: Id, o: Object, v: Option<Id>)
    requires a in h && o.kind == h[a].kind && o.colour == h[a].colour && WellMade(o) && AllWellMade(h)
    requires forall b :: o.PointsTo(b) ==> h[a].PointsTo(b) || v == Some(b)
    ensures Stored(h, h[a := o], iset{a}, v)
  {
  }

  lemma BaseMade(h: Heap, allgc: seq<Id>, mainthread: Id, running: Id, current: bool, roots: set<Id>, seen: iset<Id>)
    requires Base(h, allgc, mainthread, running, current, roots, seen)
    ensures AllWellMade(h) && running in h && h[running].kind.Thread? && !h[running].colour.Black?
  {
  }

  function WithUpvalue(h: Heap, cells: map<Id, nat>, v: Option<Id>): Heap
    requires forall a :: a in cells ==> a in h && cells[a] < |h[a].slots|
  {
    map a | a in h :: if a in cells then h[a].(slots := h[a].slots[cells[a] := v]) else h[a]
  }

  lemma StoresUpvalue(h: Heap, cells: map<Id, nat>, v: Option<Id>)
    requires AllWellMade(h)
    requires forall a :: a in cells ==> a in h && h[a].kind.LuaClosure? && cells[a] < |h[a].slots|
    ensures Stored(h, WithUpvalue(h, cells, v), (iset a | a in cells), v)
  {
  }

  lemma UsableAfter(h: Heap, k: Heap, ps: iset<Id>, v: Option<Id>, current: bool, seen: iset<Id>)
    requires Stored(h, k, ps, v) && Usable(h, current, seen, v)
    ensures Usable(k, current, seen, v)
  {
  }

  function Fresh(kind: Kind, n: nat, current: bool): Object {
    var slots := if kind.ShortString? then [] else if kind.Userdata? then [None] else seq(n, _ => None);
    Object(kind, None, slots, White(current))
  }

  lemma NewKeepsThreads(h: Heap, x: Id, o: Object, allgc: seq<Id>, mainthread: Id, running: Id, current: bool,
        roots: set<Id>, seen: iset<Id>)
    requires Base(h, allgc, mainthread, running, current, roots, seen) && x !in h
    ensures running in h && running != x && mainthread in h && mainthread != x && h[running].kind.Thread?
    ensures !h[running].colour.Black?
  {
  }

  lemma RootsKeepBase(h: Heap, allgc: seq<Id>, mainthread: Id, was: Id, running: Id, current: bool, roots: set<Id>,
        now: set<Id>, seen: iset<Id>, v: Option<Id>)
    requires Base(h, allgc, mainthread, was, current, roots, seen) && Usable(h, current, seen, v)
    requires forall r :: r in now ==> r in roots || v == Some(r)
    requires running in now && mainthread in now && (running == was || (running in h && h[running].kind.Thread?))
    ensures Base(h, allgc, mainthread, running, current, now, seen)
  {
  }
}
