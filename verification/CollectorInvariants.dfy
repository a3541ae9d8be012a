/** What holds of the collector's state between steps, and what keeps it. */
module CollectorInvariants {

  import opened ObjectGraph
  import opened Sweeping

  /** In every phase: what the program can reach is alive, and in the set 'seen'. */
  ghost predicate Base(h: Heap, allgc: seq<Id>, mainthread: Id, running: Id, current: bool, roots: set<Id>,
        seen: iset<Id>)
  {
    && Listing(h, allgc, mainthread) && AllWellMade(h) && NoBlackThreads(h) && Sound(h, current)
    && (forall r :: r in roots ==> Live(h, current, r) && r in seen) && Closed(h, seen)
    && mainthread in h && h[mainthread].kind.Thread? && mainthread in roots
    && running in h && h[running].kind.Thread? && running in roots
  }

  /** While marking: nothing is dead, and a black object does not point to a white one. */
  ghost predicate MarkingOk(h: Heap, gray: seq<Id>, again: seq<Id>, current: bool, mainthread: Id, seen: iset<Id>) {
    && (forall a :: a in h ==> Live(h, current, a))
    && Working(h, gray, again) && NoStrays(h, gray, again)
    && Marked(h, mainthread) && (forall a :: Marked(h, a) ==> a in seen)
  }

  /** While sweeping: white up to where the sweep stands, and what may live was once reachable. */
  ghost predicate SweepingOk(h: Heap, allgc: seq<Id>, left: nat, current: bool, seen: iset<Id>) {
    && left <= |allgc| && AllWhite(h, current, allgc[..|allgc| - left])
    && (forall a :: Live(h, current, a) ==> a in seen)
  }

  /** No black object points to a white one while the collector is marking. */
  lemma NoBlackToWhite(h: Heap, gray: seq<Id>, again: seq<Id>, current: bool, mainthread: Id, seen: iset<Id>, a: Id,
        b: Id)
    requires MarkingOk(h, gray, again, current, mainthread, seen)
    requires a in h && h[a].colour.Black? && h[a].PointsTo(b)
    ensures Marked(h, b)
  {
    assert a !in gray && a !in again;
  }

  lemma {:induction false} DistinctOnce(l: seq<Id>, a: Id)
    requires Distinct(l)
    ensures multiset(l)[a] == if a in l then 1 else 0
  {
    if l != [] {
      var t, last := l[..|l| - 1], l[|l| - 1];
      assert l == t + [last];
      assert last !in t;
      DistinctOnce(t, a);
    }
  }

  /** A gray object waits in exactly one of the two lists, once; no other object waits. */
  lemma GrayWaitsOnce(h: Heap, gray: seq<Id>, again: seq<Id>, current: bool, mainthread: Id, seen: iset<Id>, a: Id)
    requires MarkingOk(h, gray, again, current, mainthread, seen)
    ensures multiset(gray)[a] + multiset(again)[a] == if a in h && h[a].colour.Gray? then 1 else 0
  {
    DistinctOnce(gray, a);
    DistinctOnce(again, a);
  }

  /** What the program can reach is allocated and not dead, whatever the phase. */
  lemma ReachableIsLive(h: Heap, allgc: seq<Id>, mainthread: Id, running: Id, current: bool, roots: set<Id>,
        seen: iset<Id>)
    requires Base(h, allgc, mainthread, running, current, roots, seen)
    ensures forall a :: Reachable(h, roots, a) ==> Live(h, current, a) && a in seen
  {
    assert Closed(h, LiveSet(h, current));
    ReachableInside(h, roots, LiveSet(h, current));
    ReachableInside(h, roots, seen);
  }

  lemma MarkingReady(h: Heap, allgc: seq<Id>, mainthread: Id, running: Id, current: bool, roots: set<Id>,
        seen: iset<Id>)
    requires Base(h, allgc, mainthread, running, current, roots, seen) && (forall a :: a in h ==> Live(h, current, a))
    ensures Ready(h, seen)
  {
    forall a, b | a in h && h[a].PointsTo(b) ensures b in h {
      assert Live(h, current, b);
    }
  }

  /** Recolouring that makes nothing dead keeps what holds in every phase. */
  lemma RecolourKeepsBase(h: Heap, k: Heap, allgc: seq<Id>, mainthread: Id, running: Id, current: bool,
        roots: set<Id>, seen: iset<Id>)
    requires Base(h, allgc, mainthread, running, current, roots, seen) && SameShape(h, k) && NoBlackThreads(k)
    requires forall a :: Live(h, current, a) <==> Live(k, current, a)
    ensures Base(k, allgc, mainthread, running, current, roots, seen)
  {
    forall a, b | Live(k, current, a) && k[a].PointsTo(b) ensures Live(k, current, b) {
      assert h[a].PointsTo(b);
    }
    forall a, b | a in k && a in seen && k[a].PointsTo(b) ensures b in seen {
      assert h[a].PointsTo(b);
    }
    assert h.Keys == k.Keys;
    forall a ensures a in k <==> a in allgc || a == mainthread {
      assert a in h <==> a in k;
    }
  }

  lemma GrownKeepsBase(h: Heap, k: Heap, allgc: seq<Id>, mainthread: Id, running: Id, current: bool, roots: set<Id>,
        seen: iset<Id>)
    requires Base(h, allgc, mainthread, running, current, roots, seen) && Grown(h, k) && NoBlackThreads(k)
    requires forall a :: a in h ==> Live(h, current, a)
    ensures Base(k, allgc, mainthread, running, current, roots, seen) && (forall a :: a in k ==> Live(k, current, a))
  {
    forall a ensures Live(h, current, a) <==> Live(k, current, a) {
      if a in k && k[a].colour.White? {
        assert Unmarked(k, a);
      }
    }
    RecolourKeepsBase(h, k, allgc, mainthread, running, current, roots, seen);
  }

  /** When all reachable objects are marked and nothing is dead, the white can flip. */
  lemma FlipKeepsBase(h: Heap, allgc: seq<Id>, mainthread: Id, running: Id, current: bool, roots: set<Id>,
        seen: iset<Id>)
    requires Base(h, allgc, mainthread, running, current, roots, seen) && (forall a :: a in h ==> Live(h, current, a))
    requires Settled(h, [], [], iset{}) && (forall r :: r in roots ==> Marked(h, r))
    ensures Base(h, allgc, mainthread, running, !current, roots, seen)
    ensures forall a :: Live(h, !current, a) <==> Marked(h, a)
  {
    forall a ensures Live(h, !current, a) <==> Marked(h, a) {
      if Unmarked(h, a) {
        assert Live(h, current, a);
      }
    }
    forall a, b | Live(h, !current, a) && h[a].PointsTo(b) ensures Live(h, !current, b) {
      assert Marked(h, a);
      assert Marked(h, b);
    }
  }

  lemma StaysClosed(h: Heap, k: Heap, seen: iset<Id>)
    requires Closed(h, seen) && forall a :: a in k ==> a in h && k[a] == h[a].(colour := k[a].colour)
    ensures Closed(k, seen)
  {
    forall a, b | a in k && a in seen && k[a].PointsTo(b) ensures b in seen {
      assert h[a].PointsTo(b);
    }
  }

  lemma SweptFront(h: Heap, list: seq<Id>, current: bool, i: nat, j: nat)
    requires i <= j <= |list|
    ensures var l, front := SweptList(h, list, current, i, j), list[..i] + Survivors(h, current, list[i..j]);
      |l| == |front| + |list| - j && l[..|front|] == front
  {
  }

  /** A sweep of at most 'count' of the last 'left' objects of the list. */
  lemma SweepKeepsBase(h: Heap, list: seq<Id>, mainthread: Id, running: Id, current: bool, roots: set<Id>,
        seen: iset<Id>, left: nat, count: nat, k: Heap, l: seq<Id>)
    requires Base(h, list, mainthread, running, current, roots, seen) && SweepingOk(h, list, left, current, seen)
    requires SweptUpTo(h, list, current, left, count, k, l)
    ensures Base(k, l, mainthread, running, current, roots, seen) && Listing(k, l, mainthread)
    ensures SweepingOk(k, l, if count < left then left - count else 0, current, seen)
    ensures count < left ==> left - count <= |l|
    ensures Kept(h, k, roots) && mainthread in k && k[mainthread] == h[mainthread]
    ensures forall r :: r in roots ==> r in k && k[r].kind == h[r].kind
  {
    var i := |list| - left;
    var j := i + if count < left then count else left;
    SweepKeepsHeap(h, list[i..j], current, k);
    SweepKeepsListing(h, list, mainthread, current, i, j, k);
    ReachableIsLive(h, list, mainthread, running, current, roots, seen);
    SweptFront(h, list, current, i, j);
    StaysClosed(h, k, seen);
    hide Distinct, Survivors, Swept, SweptList, Listing, Reachable, Closed;
    hide AllWellMade, Sound, NoBlackThreads, AllWhite;
  }

  // ----- what a step keeps of the heap -----

  /** Objects may be recoloured and unreachable ones may go. */
  ghost predicate Kept(h: Heap, k: Heap, roots: set<Id>) {
    && (forall a :: a in k ==> a in h && k[a] == h[a].(colour := k[a].colour))
    && (forall a :: Reachable(h, roots, a) ==> a in k)
  }

  lemma {:induction false} PathKept(h: Heap, k: Heap, roots: set<Id>, path: seq<Id>)
    requires Kept(h, k, roots) && IsPath(h, roots, path)
    ensures IsPath(k, roots, path)
    decreases |path|
  {
    if |path| > 1 {
      var less := path[..|path| - 1];
      PathKept(h, k, roots, less);
      assert Leads(h, roots, less, path[|path| - 2]);
    }
  }

  lemma {:induction false} PathBack(h: Heap, k: Heap, roots: set<Id>, path: seq<Id>)
    requires Kept(h, k, roots) && IsPath(k, roots, path)
    ensures IsPath(h, roots, path)
    decreases |path|
  {
    if |path| > 1 {
      PathBack(h, k, roots, path[..|path| - 1]);
      var a := path[|path| - 2];
      assert a in k && k[a].meta == h[a].meta && k[a].slots == h[a].slots;
    }
  }

  lemma KeptSameReach(h: Heap, k: Heap, roots: set<Id>)
    requires Kept(h, k, roots)
    ensures ReachableSet(h, roots) == ReachableSet(k, roots)
  {
    forall a ensures a in ReachableSet(h, roots) <==> a in ReachableSet(k, roots) {
      if Reachable(h, roots, a) {
        var path :| Leads(h, roots, path, a);
        PathKept(h, k, roots, path);
        assert Leads(k, roots, path, a);
      }
      if Reachable(k, roots, a) {
        var path :| Leads(k, roots, path, a);
        PathBack(h, k, roots, path);
        assert Leads(h, roots, path, a);
      }
    }
  }

  lemma KeptTrans(h: Heap, k: Heap, m: Heap, roots: set<Id>)
    requires Kept(h, k, roots) && Kept(k, m, roots)
    ensures Kept(h, m, roots)
  {
    KeptSameReach(h, k, roots);
    forall a | Reachable(h, roots, a) ensures a in m {
      assert a in ReachableSet(k, roots);
    }
  }

  lemma SameShapeKept(h: Heap, k: Heap, allgc: seq<Id>, mainthread: Id, running: Id, current: bool, roots: set<Id>,
        seen: iset<Id>)
    requires Base(h, allgc, mainthread, running, current, roots, seen) && SameShape(h, k)
    ensures Kept(h, k, roots)
  {
    ReachableIsLive(h, allgc, mainthread, running, current, roots, seen);
  }

  lemma BaseListing(h: Heap, allgc: seq<Id>, mainthread: Id, running: Id, current: bool, roots: set<Id>, seen: iset<Id>)
    requires Base(h, allgc, mainthread, running, current, roots, seen)
    ensures Listing(h, allgc, mainthread) && mainthread in h
  {
  }

  /** With all objects white, a collection can start from what is reachable. */
  lemma BeforeMarking(h: Heap, allgc: seq<Id>, mainthread: Id, running: Id, current: bool, roots: set<Id>,
        seen: iset<Id>)
    requires Base(h, allgc, mainthread, running, current, roots, seen) && SweepingOk(h, allgc, 0, current, seen)
    requires mainthread in h && h[mainthread].colour == White(current)
    ensures Working(h, [], []) && NoStrays(h, [], [])
    ensures forall a :: a in h ==> h[a].colour == White(current) && Live(h, current, a)
    ensures var r := ReachableSet(h, roots);
      Base(h, allgc, mainthread, running, current, roots, r) && Ready(h, r) && mainthread in h && mainthread in r
      && (forall x :: x in roots ==> x in h && x in r)
  {
    assert allgc[..|allgc| - 0] == allgc;
    RootsReachable(h, roots);
    ReachableClosed(h, roots);
    MarkingReady(h, allgc, mainthread, running, current, roots, ReachableSet(h, roots));
  }

  /** After the first marks of a collection. */
  lemma BeginsMarking(h: Heap, k: Heap, gray: seq<Id>, allgc: seq<Id>, mainthread: Id, running: Id, current: bool,
        roots: set<Id>, seen: iset<Id>)
    requires Base(h, allgc, mainthread, running, current, roots, seen) && (forall a :: a in h ==> Live(h, current, a))
    requires Working(k, gray, []) && NoStrays(k, gray, []) && Grown(h, k)
    requires Marked(k, mainthread) && (forall a :: Marked(k, a) ==> a in seen)
    ensures Base(k, allgc, mainthread, running, current, roots, seen)
    ensures MarkingOk(k, gray, [], current, mainthread, seen)
    ensures gray != [] && Kept(h, k, roots)
  {
    GrownKeepsBase(h, k, allgc, mainthread, running, current, roots, seen);
    SameShapeKept(h, k, allgc, mainthread, running, current, roots, seen);
    assert k[mainthread].kind.Thread? && k[mainthread].colour.Gray?;
  }

  lemma MarkingGrows(h: Heap, k: Heap, gray: seq<Id>, again: seq<Id>, allgc: seq<Id>, mainthread: Id, running: Id,
        current: bool, roots: set<Id>, seen: iset<Id>)
    requires Base(h, allgc, mainthread, running, current, roots, seen) && (forall a :: a in h ==> Live(h, current, a))
    requires Marked(h, mainthread) && Grown(h, k) && Working(k, gray, again) && NoStrays(k, gray, again)
    requires forall a :: Marked(k, a) ==> a in seen
    ensures Base(k, allgc, mainthread, running, current, roots, seen)
    ensures MarkingOk(k, gray, again, current, mainthread, seen)
    ensures Kept(h, k, roots)
  {
    GrownKeepsBase(h, k, allgc, mainthread, running, current, roots, seen);
    SameShapeKept(h, k, allgc, mainthread, running, current, roots, seen);
  }

  lemma NoStraysMeans(h: Heap, gray: seq<Id>, later: seq<Id>)
    requires NoStrays(h, gray, later)
    ensures forall a :: a in h && h[a].colour.Gray? ==> a in gray || a in later
    ensures StraysAreThreads(h, gray, later)
  {
  }

  lemma NoOtherStrays(h: Heap, gray: seq<Id>, later: seq<Id>)
    requires forall a :: a in h && h[a].colour.Gray? ==> a in gray || a in later
    ensures NoStrays(h, gray, later)
  {
  }

  lemma BaseRoots(h: Heap, allgc: seq<Id>, mainthread: Id, running: Id, current: bool, roots: set<Id>, seen: iset<Id>)
    requires Base(h, allgc, mainthread, running, current, roots, seen)
    ensures forall r :: r in roots ==> r in h && r in seen
  {
  }

  /** The atomic phase leaves what a sweep may start from. */
  lemma AtomicEnds(h: Heap, k: Heap, allgc: seq<Id>, mainthread: Id, running: Id, current: bool, roots: set<Id>,
        seen: iset<Id>)
    requires Base(h, allgc, mainthread, running, current, roots, seen) && (forall a :: a in h ==> Live(h, current, a))
    requires Grown(h, k) && NoBlackThreads(k) && Settled(k, [], [], iset{})
    requires (forall r :: r in roots ==> Marked(k, r)) && (forall a :: Marked(k, a) ==> a in seen)
    ensures Base(k, allgc, mainthread, running, !current, roots, seen) && SweepingOk(k, allgc, |allgc|, !current, seen)
    ensures Kept(h, k, roots)
  {
    GrownKeepsBase(h, k, allgc, mainthread, running, current, roots, seen);
    FlipKeepsBase(k, allgc, mainthread, running, current, roots, seen);
    SameShapeKept(h, k, allgc, mainthread, running, current, roots, seen);
  }

  lemma PaintMain(h: Heap, allgc: seq<Id>, mainthread: Id, running: Id, current: bool, roots: set<Id>, seen: iset<Id>)
    requires Base(h, allgc, mainthread, running, current, roots, seen)
    requires SweepingOk(h, allgc, 0, current, seen) && mainthread in h
    ensures var k := Paint(h, mainthread, White(current));
      Base(k, allgc, mainthread, running, current, roots, seen) && SweepingOk(k, allgc, 0, current, seen)
        && Kept(h, k, roots)
  {
    var k := Paint(h, mainthread, White(current));
    assert mainthread !in allgc && mainthread in roots;
    RecolourKeepsBase(h, k, allgc, mainthread, running, current, roots, seen);
    SameShapeKept(h, k, allgc, mainthread, running, current, roots, seen);
  }

  /** A collection can be given up by sweeping at once: as the white has not changed, nothing is dead. */
  lemma MarkingSweeps(h: Heap, gray: seq<Id>, again: seq<Id>, allgc: seq<Id>, mainthread: Id, running: Id,
        current: bool, roots: set<Id>, seen: iset<Id>)
    requires Base(h, allgc, mainthread, running, current, roots, seen)
    requires MarkingOk(h, gray, again, current, mainthread, seen)
    ensures Base(h, allgc, mainthread, running, current, roots, (iset a | a in h))
    ensures SweepingOk(h, allgc, |allgc|, current, (iset a | a in h))
  {
    forall a, b | a in h && h[a].PointsTo(b) ensures b in h {
      assert Live(h, current, a) && Live(h, current, b);
    }
  }

  lemma ReachableLeft(h: Heap, k: Heap, roots: set<Id>, seen: iset<Id>)
    requires Kept(h, k, roots) && seen == ReachableSet(h, roots) && (forall a :: a in k ==> a in seen)
    ensures forall a :: a in k <==> Reachable(h, roots, a)
    ensures forall a :: a in k ==> a in h && k[a] == h[a].(colour := k[a].colour)
  {
  }
}
