/** Sweeping a list of objects: the dead are freed, the others turn white. */
module Sweeping {

  import opened ObjectGraph

  /** What sweeping the objects 'ids' does to a heap. */
  ghost predicate Swept(h: Heap, ids: seq<Id>, current: bool, k: Heap) {
    && (forall a :: a in k <==> a in h && (a in ids ==> Live(h, current, a)))
    && (forall a :: a in k ==> k[a] == if a in ids then h[a].(colour := White(current)) else h[a])
  }

  function Survivors(h: Heap, current: bool, ids: seq<Id>): (r: seq<Id>)
    ensures forall a :: a in r <==> a in ids && Live(h, current, a)
  {
    if ids == [] then [] else
      var last := ids[|ids| - 1];
      assert ids == ids[..|ids| - 1] + [last];
      Survivors(h, current, ids[..|ids| - 1]) + if Live(h, current, last) then [last] else []
  }

  lemma {:induction false} SurvivorsDistinct(h: Heap, current: bool, ids: seq<Id>)
    requires Distinct(ids)
    ensures Distinct(Survivors(h, current, ids)) && |Survivors(h, current, ids)| <= |ids|
  {
    if ids != [] {
      SurvivorsDistinct(h, current, ids[..|ids| - 1]);
    }
  }

  lemma SurvivorsLast(h: Heap, current: bool, x: seq<Id>, e: Id)
    ensures Survivors(h, current, x + [e]) == Survivors(h, current, x) + if Live(h, current, e) then [e] else []
  {
    assert (x + [e])[..|x|] == x;
  }

  lemma SplitLast(x: seq<Id>, z: seq<Id>, e: Id)
    ensures x + (z + [e]) == (x + z) + [e]
  {
  }

  lemma {:induction false} SurvivorsAppend(h: Heap, current: bool, x: seq<Id>, y: seq<Id>)
    ensures Survivors(h, current, x + y) == Survivors(h, current, x) + Survivors(h, current, y)
  {
    if y == [] {
      assert x + y == x;
    } else {
      var z, e := y[..|y| - 1], y[|y| - 1];
      assert y == z + [e];
      hide Survivors;
      SurvivorsAppend(h, current, x, z);
      SurvivorsLast(h, current, x + z, e);
      SurvivorsLast(h, current, z, e);
      SplitLast(x, z, e);
      if Live(h, current, e) {
        SplitLast(Survivors(h, current, x), Survivors(h, current, z), e);
      } else {
        assert Survivors(h, current, z) + [] == Survivors(h, current, z);
      }
    }
  }

  lemma {:induction false} SurvivorsElsewhere(h: Heap, current: bool, k: Heap, ids: seq<Id>)
    requires forall a :: a in ids ==> (Live(h, current, a) <==> Live(k, current, a))
    ensures Survivors(h, current, ids) == Survivors(k, current, ids)
  {
    if ids != [] {
      SurvivorsElsewhere(h, current, k, ids[..|ids| - 1]);
    }
  }

  lemma DistinctParts(x: seq<Id>, y: seq<Id>)
    requires Distinct(x + y)
    ensures Distinct(x) && Distinct(y) && (forall a :: a in x ==> a !in y)
  {
    forall i, j | 0 <= i < |x| && 0 <= j < |y| ensures x[i] != y[j] {
      assert (x + y)[i] != (x + y)[|x| + j];
    }
    forall i, j | 0 <= i < j < |x| ensures x[i] != x[j] {
      assert (x + y)[i] != (x + y)[j];
    }
    forall i, j | 0 <= i < j < |y| ensures y[i] != y[j] {
      assert (x + y)[|x| + i] != (x + y)[|x| + j];
    }
  }

  lemma SweptTwice(h: Heap, x: seq<Id>, k: Heap, y: seq<Id>, m: Heap, current: bool)
    requires Swept(h, x, current, k) && Swept(k, y, current, m) && Distinct(x + y)
    ensures Swept(h, x + y, current, m)
    ensures Survivors(h, current, x + y) == Survivors(h, current, x) + Survivors(k, current, y)
  {
    DistinctParts(x, y);
    SurvivorsAppend(h, current, x, y);
    SurvivorsElsewhere(h, current, k, y);
  }

  lemma SweepOne(h: Heap, x: Id, current: bool)
    requires x in h
    ensures Swept(h, [x], current, if Live(h, current, x) then Paint(h, x, White(current)) else h - {x})
    ensures Survivors(h, current, [x]) == if Live(h, current, x) then [x] else []
  {
    assert [x][..0] == [];
  }

  // ----- what sweeping keeps -----

  /** The list of all objects holds everything but the main thread. */
  ghost predicate Listing(h: Heap, allgc: seq<Id>, mainthread: Id) {
    && Distinct(allgc) && mainthread !in allgc
    && (forall a :: a in h <==> a in allgc || a == mainthread)
  }

  /** No object that may live points to a dead or a freed one. */
  ghost predicate Sound(h: Heap, current: bool) {
    forall a, b :: Live(h, current, a) && h[a].PointsTo(b) ==> Live(h, current, b)
  }

  ghost predicate AllWhite(h: Heap, current: bool, ids: seq<Id>) {
    forall a :: a in ids ==> a in h && h[a].colour == White(current)
  }

  function SweptList(h: Heap, allgc: seq<Id>, current: bool, i: nat, j: nat): seq<Id>
    requires i <= j <= |allgc|
  {
    allgc[..i] + Survivors(h, current, allgc[i..j]) + allgc[j..]
  }

  /** Sweeping frees the dead and nothing that may live. */
  lemma SweepKeepsHeap(h: Heap, ids: seq<Id>, current: bool, k: Heap)
    requires Sound(h, current) && AllWellMade(h) && NoBlackThreads(h) && Swept(h, ids, current, k)
    ensures Sound(k, current) && AllWellMade(k) && NoBlackThreads(k)
    ensures forall a :: Live(k, current, a) <==> Live(h, current, a)
    ensures forall a :: a in k ==> a in h && k[a] == h[a].(colour := k[a].colour)
  {
    forall a, b | Live(k, current, a) && k[a].PointsTo(b) ensures Live(k, current, b) {
      assert h[a].PointsTo(b) && Live(h, current, a);
      assert Live(h, current, b) && b in k;
    }
  }

  lemma SurvivorsBetween(h: Heap, current: bool, a: seq<Id>, b: seq<Id>, c: seq<Id>)
    requires Distinct((a + b) + c)
    ensures Distinct((a + Survivors(h, current, b)) + c)
    ensures forall x :: x in b ==> x !in a && x !in c
  {
    DistinctParts(a + b, c);
    DistinctParts(a, b);
    SurvivorsDistinct(h, current, b);
    hide Distinct;
    assert forall x :: x in a || x in b ==> x in a + b;
    DistinctConcat(a, Survivors(h, current, b));
    DistinctConcat(a + Survivors(h, current, b), c);
  }

  /** After sweeping positions 'i' to 'j' of the list: it lists what is left, white up to there. */
  lemma SweepKeepsListing(h: Heap, allgc: seq<Id>, mainthread: Id, current: bool, i: nat, j: nat, k: Heap)
    requires i <= j <= |allgc| && Listing(h, allgc, mainthread) && Swept(h, allgc[i..j], current, k)
    ensures Listing(k, SweptList(h, allgc, current, i, j), mainthread)
    ensures mainthread in k && k[mainthread] == h[mainthread]
    ensures AllWhite(h, current, allgc[..i]) ==> AllWhite(k, current, allgc[..i] + Survivors(h, current, allgc[i..j]))
  {
    var a, b, c := allgc[..i], allgc[i..j], allgc[j..];
    assert allgc == (a + b) + c;
    SurvivorsBetween(h, current, a, b, c);
    InThree(a, b, c);
    InThree(a, Survivors(h, current, b), c);
    SweptListListing(h, allgc, mainthread, current, a, b, c, k);
    forall x | AllWhite(h, current, a) && x in a + Survivors(h, current, b) ensures k[x].colour == White(current) {
      assert x in a || x in b;
    }
  }

  lemma InThree(a: seq<Id>, b: seq<Id>, c: seq<Id>)
    ensures forall x :: x in (a + b) + c <==> x in a || x in b || x in c
  {
  }

  lemma SweptListListing(h: Heap, allgc: seq<Id>, mainthread: Id, current: bool, a: seq<Id>, b: seq<Id>, c: seq<Id>,
        k: Heap)
    requires allgc == (a + b) + c && Listing(h, allgc, mainthread) && Swept(h, b, current, k)
    requires Distinct((a + Survivors(h, current, b)) + c) && forall x :: x in b ==> x !in a && x !in c
    ensures Listing(k, (a + Survivors(h, current, b)) + c, mainthread) && mainthread in k
    ensures k[mainthread] == h[mainthread]
  {
    InThree(a, b, c);
    InThree(a, Survivors(h, current, b), c);
    hide Distinct;
  }

  ghost predicate Parts(l: seq<Id>, a: seq<Id>, b: seq<Id>, c: seq<Id>) {
    l == (a + b) + c
  }

  lemma PartsStart(l: seq<Id>, n: nat)
    requires n <= |l|
    ensures Parts(l, l[..n], [], l[n..])
  {
    assert l[..n] + [] == l[..n];
  }

  lemma PartsNext(l: seq<Id>, a: seq<Id>, b: seq<Id>, c: seq<Id>)
    requires Parts(l, a, b, c) && c != []
    ensures Parts(l, a, b + [c[0]], c[1..]) && |l| >= |c| && l[|l| - |c|] == c[0]
  {
    assert l == (a + (b + [c[0]])) + c[1..];
  }

  lemma PartsDrop(l: seq<Id>, a: seq<Id>, b: seq<Id>, c: seq<Id>)
    requires Parts(l, a, b, c) && c != []
    ensures var i := |l| - |c|; i >= 0 && Parts(l[..i] + l[i + 1..], a, b, c[1..])
  {
    assert l[..|l| - |c|] == a + b;
    assert l[|l| - |c| + 1..] == c[1..];
  }

  lemma PartsAre(l: seq<Id>, a: seq<Id>, b: seq<Id>, c: seq<Id>)
    requires Parts(l, a, b, c)
    ensures l[..|a|] == a && l[|a|..|a| + |b|] == b && l[|a| + |b|..] == c && |l| == |a| + |b| + |c|
  {
  }

  /** Sweeping the next object: it is freed, or stays and turns white. */
  lemma SweepsNext(h: Heap, list: seq<Id>, pre: seq<Id>, mid: seq<Id>, post: seq<Id>, mainthread: Id, current: bool,
        k: Heap)
    requires Parts(list, pre, mid, post) && post != [] && Listing(h, list, mainthread) && Swept(h, mid, current, k)
    ensures post[0] in k
    ensures var x, s := post[0], Survivors(h, current, mid);
      if Live(k, current, x) then Swept(h, mid + [x], current, Paint(k, x, White(current)))
        && Survivors(h, current, mid + [x]) == s + [x]
      else Swept(h, mid + [x], current, k - {x}) && Survivors(h, current, mid + [x]) == s
  {
    var x := post[0];
    PartsNext(list, pre, mid, post);
    DistinctParts(pre + (mid + [x]), post[1..]);
    DistinctParts(pre, mid + [x]);
    DistinctParts(mid, [x]);
    assert x in [x];
    assert x in list;
    hide Parts, Listing, Distinct;
    SweepOne(k, x, current);
    SweptTwice(h, mid, k, [x], if Live(k, current, x) then Paint(k, x, White(current)) else k - {x}, current);
  }

  lemma SweptNothing(h: Heap, current: bool)
    ensures Swept(h, [], current, h) && Survivors(h, current, []) == []
  {
  }

  /** Heap and list after sweeping at most 'count' of the last 'left' objects. */
  ghost predicate SweptUpTo(h: Heap, list: seq<Id>, current: bool, left: nat, count: nat, k: Heap, l: seq<Id>) {
    left <= |list|
    && var i := |list| - left;
       var j := i + if count < left then count else left;
       Swept(h, list[i..j], current, k) && l == SweptList(h, list, current, i, j)
  }

  /** In the middle of sweeping: 'mid' is swept, 'post' is to come. */
  ghost predicate SweepGoes(h: Heap, list: seq<Id>, pre: seq<Id>, mid: seq<Id>, post: seq<Id>, current: bool,
        k: Heap, l: seq<Id>)
  {
    Parts(list, pre, mid, post) && Parts(l, pre, Survivors(h, current, mid), post) && Swept(h, mid, current, k)
  }

  lemma SweepStarts(h: Heap, list: seq<Id>, current: bool, n: nat)
    requires n <= |list|
    ensures SweepGoes(h, list, list[..n], [], list[n..], current, h, list)
  {
    SweptNothing(h, current);
    PartsStart(list, n);
  }

  /** One turn of the loop of sweeplist. */
  lemma SweepTurn(h: Heap, list: seq<Id>, pre: seq<Id>, mid: seq<Id>, post: seq<Id>, mainthread: Id, current: bool,
        k: Heap, l: seq<Id>)
    requires SweepGoes(h, list, pre, mid, post, current, k, l) && post != [] && Listing(h, list, mainthread)
    ensures |l| >= |post| && l[|l| - |post|] == post[0] && post[0] in k
    ensures var x, i := post[0], |l| - |post|;
      if k[x].colour == White(!current)
      then SweepGoes(h, list, pre, mid + [x], post[1..], current, k - {x}, l[..i] + l[i + 1..])
      else SweepGoes(h, list, pre, mid + [x], post[1..], current, Paint(k, x, White(current)), l)
  {
    hide Swept, Listing, Survivors, Parts;
    SweepsNext(h, list, pre, mid, post, mainthread, current, k);
    PartsNext(list, pre, mid, post);
    PartsNext(l, pre, Survivors(h, current, mid), post);
    PartsDrop(l, pre, Survivors(h, current, mid), post);
  }

  lemma SweepDone(h: Heap, list: seq<Id>, current: bool, pre: seq<Id>, mid: seq<Id>, post: seq<Id>, left: nat,
        count: nat, k: Heap, l: seq<Id>)
    requires SweepGoes(h, list, pre, mid, post, current, k, l)
    requires |mid| + |post| == left && |mid| == if count < left then count else left
    ensures SweptUpTo(h, list, current, left, count, k, l)
  {
    PartsAre(list, pre, mid, post);
  }
}
