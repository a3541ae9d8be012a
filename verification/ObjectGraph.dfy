/** The collectable objects of a Lua state, their colours, and what the program can reach. */
module ObjectGraph {

  datatype Option<T> = None | Some(value: T)

  type Id = int

  datatype Kind = ShortString | Userdata | LuaClosure | CClosure | Table | Thread | Proto

  /** There are two whites, so that objects made during a sweep differ from the dead. */
  datatype Colour = White(bit: bool) | Gray | Black

  /** 'slots' is a table's array and hash, a closure's upvalues, a thread's stack, or the one
      user value; None stands for a value that is not collectable. */
  datatype Object = Object(kind: Kind, meta: Option<Id>, slots: seq<Option<Id>>, colour: Colour) {
    predicate PointsTo(b: Id) {
      meta == Some(b) || Some(b) in slots
    }
  }

  type Heap = map<Id, Object>

  predicate Unmarked(h: Heap, a: Id) {
    a in h && h[a].colour.White?
  }

  predicate Marked(h: Heap, a: Id) {
    a in h && !h[a].colour.White?
  }

  /** Not of the white that is about to be swept. */
  predicate Live(h: Heap, current: bool, a: Id) {
    a in h && h[a].colour != White(!current)
  }

  predicate Visited(kind: Kind) {
    kind.ShortString? || kind.Userdata?
  }

  predicate WellMade(o: Object) {
    && (o.kind.ShortString? ==> o.meta.None? && o.slots == [])
    && (o.kind.Userdata? ==> |o.slots| == 1)
  }

  ghost predicate AllWellMade(h: Heap) {
    forall a :: a in h ==> WellMade(h[a])
  }

  ghost predicate NoBlackThreads(h: Heap) {
    forall a :: a in h && h[a].kind.Thread? ==> !h[a].colour.Black?
  }

  ghost predicate Closed(h: Heap, s: iset<Id>) {
    forall a, b :: a in s && a in h && h[a].PointsTo(b) ==> b in s
  }

  ghost function LiveSet(h: Heap, current: bool): iset<Id> {
    iset a | Live(h, current, a)
  }

  /** A path along references, starting from a root. */
  predicate IsPath(h: Heap, roots: set<Id>, path: seq<Id>) {
    |path| > 0
    && if |path| == 1 then path[0] in roots
       else
         && IsPath(h, roots, path[..|path| - 1]) && path[|path| - 2] in h
         && h[path[|path| - 2]].PointsTo(path[|path| - 1])
  }

  predicate Leads(h: Heap, roots: set<Id>, path: seq<Id>, a: Id) {
    IsPath(h, roots, path) && path[|path| - 1] == a
  }

  ghost predicate Reachable(h: Heap, roots: set<Id>, a: Id) {
    exists path :: Leads(h, roots, path, a)
  }

  ghost function ReachableSet(h: Heap, roots: set<Id>): iset<Id> {
    iset a | Reachable(h, roots, a)
  }

  lemma {:induction false} PathStaysInside(h: Heap, roots: set<Id>, s: iset<Id>, path: seq<Id>)
    requires Closed(h, s) && (forall r :: r in roots ==> r in s)
    requires IsPath(h, roots, path)
    ensures path[|path| - 1] in s
    decreases |path|
  {
    if |path| > 1 {
      PathStaysInside(h, roots, s, path[..|path| - 1]);
      var a, b := path[|path| - 2], path[|path| - 1];
      assert path[..|path| - 1][|path| - 2] == a;
      assert a in s;
      assert h[a].PointsTo(b);
      assert b in s;
    } else {
      var r := path[0];
      assert r in roots;
    }
  }

  /** What can be reached lies in every closed set that holds the roots. */
  lemma ReachableInside(h: Heap, roots: set<Id>, s: iset<Id>)
    requires Closed(h, s) && (forall r :: r in roots ==> r in s)
    ensures forall a :: Reachable(h, roots, a) ==> a in s
  {
    forall a | Reachable(h, roots, a) ensures a in s {
      var path :| Leads(h, roots, path, a);
      PathStaysInside(h, roots, s, path);
    }
  }

  lemma RootsReachable(h: Heap, roots: set<Id>)
    ensures forall r :: r in roots ==> Reachable(h, roots, r)
  {
    forall r | r in roots ensures Reachable(h, roots, r) {
      assert Leads(h, roots, [r], r);
    }
  }

  lemma ReachableClosed(h: Heap, roots: set<Id>)
    ensures Closed(h, ReachableSet(h, roots))
  {
    forall a, b | a in h && Reachable(h, roots, a) && h[a].PointsTo(b) ensures Reachable(h, roots, b) {
      var path :| Leads(h, roots, path, a);
      var longer := path + [b];
      assert longer[..|longer| - 1] == path;
      assert Leads(h, roots, longer, b);
    }
  }

  // ----- recolouring -----

  ghost predicate SameShape(h: Heap, k: Heap) {
    && h.Keys == k.Keys
    && forall a :: a in h ==> k[a].kind == h[a].kind && k[a].meta == h[a].meta && k[a].slots == h[a].slots
  }

  lemma {:induction false} PathSurvives(h: Heap, k: Heap, roots: set<Id>, path: seq<Id>)
    requires SameShape(h, k) && IsPath(h, roots, path)
    ensures IsPath(k, roots, path)
    decreases |path|
  {
    if |path| > 1 {
      PathSurvives(h, k, roots, path[..|path| - 1]);
      var a := path[|path| - 2];
      assert k[a].slots == h[a].slots;
    }
  }

  function Paint(h: Heap, a: Id, c: Colour): Heap
    requires a in h
  {
    h[a := h[a].(colour := c)]
  }

  ghost function Whites(h: Heap): set<Id> {
    set a | a in h && h[a].colour.White?
  }

  ghost predicate Distinct(s: seq<Id>) {
    forall i, j :: 0 <= i < j < |s| ==> s[i] != s[j]
  }

  lemma DistinctConcat(x: seq<Id>, y: seq<Id>)
    requires Distinct(x) && Distinct(y) && (forall a :: a in x ==> a !in y)
    ensures Distinct(x + y)
  {
    forall i, j | 0 <= i < j < |x + y| ensures (x + y)[i] != (x + y)[j] {
      if i < |x| <= j {
        assert x[i] in x && y[j - |x|] in y;
      }
    }
  }

  /** How marking changes a heap: whites may become non-white, and nothing else happens. */
  ghost predicate MoreMarked(h: Heap, k: Heap) {
    && SameShape(h, k)
    && (forall a :: Marked(h, a) ==> k[a].colour == h[a].colour)
    && (forall a :: Unmarked(k, a) ==> k[a].colour == h[a].colour)
  }

  /** The head of 'after' that was put in front of 'before'. */
  function Added(before: seq<Id>, after: seq<Id>): seq<Id> {
    if |before| <= |after| then after[..|after| - |before|] else []
  }

  function MarkColour(kind: Kind): Colour {
    if Visited(kind) then Black else Gray
  }

  /** From heap 'h' with gray list 'gray' to heap 'k' with gray list 'now': the newly gray are
      listed once each, in front, and the newly black point to marked objects, or to 'but'. */
  ghost predicate Marks(h: Heap, gray: seq<Id>, k: Heap, now: seq<Id>, but: Option<Id>) {
    && MoreMarked(h, k)
    && (forall a :: Unmarked(h, a) && Marked(k, a) ==> k[a].colour == MarkColour(k[a].kind))
    && Lists(h, gray, k, now)
    && (forall a, b :: Unmarked(h, a) && Marked(k, a) && Visited(k[a].kind) && k[a].PointsTo(b) ==>
         Marked(k, b) || but == Some(b))
  }

  predicate NewlyGray(h: Heap, k: Heap, a: Id) {
    Unmarked(h, a) && Marked(k, a) && !Visited(k[a].kind)
  }

  ghost predicate Lists(h: Heap, gray: seq<Id>, k: Heap, now: seq<Id>) {
    && now == Added(gray, now) + gray && Distinct(Added(gray, now))
    && (forall a :: a in Added(gray, now) <==> NewlyGray(h, k, a))
  }

  lemma MarksNothing(h: Heap, gray: seq<Id>, but: Option<Id>)
    ensures Marks(h, gray, h, gray, but)
  {
    assert Added(gray, gray) == [];
  }

  lemma AddedTwice(x: seq<Id>, y: seq<Id>, z: seq<Id>)
    requires y == Added(x, y) + x && z == Added(y, z) + y
    ensures Added(x, z) == Added(y, z) + Added(x, y) && z == Added(x, z) + x
  {
    assert z == (Added(y, z) + Added(x, y)) + x;
  }

  lemma ListsThen(h: Heap, g: seq<Id>, h1: Heap, g1: seq<Id>, h2: Heap, g2: seq<Id>)
    requires MoreMarked(h, h1) && MoreMarked(h1, h2)
    requires Lists(h, g, h1, g1) && Lists(h1, g1, h2, g2)
    ensures Lists(h, g, h2, g2)
  {
    AddedTwice(g, g1, g2);
    forall a ensures a in Added(g, g2) <==> NewlyGray(h, h2, a) {
      assert a in Added(g, g2) <==> a in Added(g1, g2) || a in Added(g, g1);
    }
    forall i, j | 0 <= i < |Added(g1, g2)| && 0 <= j < |Added(g, g1)| ensures Added(g1, g2)[i] != Added(g, g1)[j] {
      assert NewlyGray(h1, h2, Added(g1, g2)[i]) && NewlyGray(h, h1, Added(g, g1)[j]);
    }
  }

  /** Marking twice is marking, once the object still owed by the first run is marked. */
  lemma MarksThen(h: Heap, g: seq<Id>, h1: Heap, g1: seq<Id>, h2: Heap, g2: seq<Id>, but: Option<Id>)
    requires Marks(h, g, h1, g1, but) && Marks(h1, g1, h2, g2, None)
    requires but.None? || Marked(h2, but.value)
    ensures Marks(h, g, h2, g2, None)
  {
    ListsThen(h, g, h1, g1, h2, g2);
    hide Lists;
    forall a, b | Unmarked(h, a) && Marked(h2, a) && Visited(h2[a].kind) && h2[a].PointsTo(b) ensures Marked(h2, b) {
      assert h1[a].PointsTo(b);
    }
  }

  /** An object of a kind that is visited later: gray, and in front of the gray list. */
  lemma MarksLater(h: Heap, g: seq<Id>, h1: Heap, g1: seq<Id>, x: Id)
    requires Marks(h, g, h1, g1, Some(x)) && Unmarked(h1, x) && !Visited(h1[x].kind)
    ensures Marks(h, g, Paint(h1, x, Gray), [x] + g1, None)
  {
    assert Added(g1, [x] + g1) == [x];
    MarksThen(h, g, h1, g1, Paint(h1, x, Gray), [x] + g1, Some(x));
  }

  lemma MarksString(h: Heap, g: seq<Id>, h1: Heap, g1: seq<Id>, x: Id)
    requires Marks(h, g, h1, g1, Some(x)) && Unmarked(h1, x) && h1[x].kind.ShortString? && WellMade(h1[x])
    ensures Marks(h, g, Paint(h1, x, Black), g1, None)
  {
    assert Added(g1, g1) == [];
    MarksThen(h, g, h1, g1, Paint(h1, x, Black), g1, Some(x));
  }

  /** A userdata: gray while its metatable is marked, then black with its value still owed. */
  lemma MarksUserdata(h: Heap, g: seq<Id>, h1: Heap, g1: seq<Id>, x: Id, h2: Heap, g2: seq<Id>)
    requires Marks(h, g, h1, g1, Some(x)) && Unmarked(h1, x) && h1[x].kind.Userdata? && WellMade(h1[x])
    requires Marks(Paint(h1, x, Gray), g1, h2, g2, None)
    requires h1[x].meta.Some? ==> Marked(h2, h1[x].meta.value)
    ensures Marks(h, g, Paint(h2, x, Black), g2, h1[x].slots[0])
    ensures MoreMarked(h1, Paint(h2, x, Black))
  {
    var k := Paint(h2, x, Black);
    assert Lists(h1, g1, k, g2) by {
      forall a ensures a in Added(g1, g2) <==> NewlyGray(h1, k, a) {
        assert a in Added(g1, g2) <==> NewlyGray(Paint(h1, x, Gray), h2, a);
      }
    }
    assert MoreMarked(h1, k);
    ListsThen(h, g, h1, g1, k, g2);
    hide Lists;
    forall a, b | Unmarked(h, a) && Marked(k, a) && Visited(k[a].kind) && k[a].PointsTo(b)
      ensures Marked(k, b) || h1[x].slots[0] == Some(b)
    {
      assert h1[a].PointsTo(b) && h2[a].PointsTo(b);
      if a != x && Marked(h1, a) {
        assert Marked(h1, b) || b == x;
      }
    }
  }

  // ----- the tri-colour invariant -----

  /** 'gray' and 'later' together list gray objects, each once. */
  ghost predicate Listed(h: Heap, gray: seq<Id>, later: seq<Id>) {
    && Distinct(gray) && Distinct(later)
    && (forall a :: a in gray ==> a !in later)
    && (forall a :: a in gray || a in later ==> a in h && h[a].colour.Gray? && !Visited(h[a].kind))
  }

  /** A marked object points to marked objects, unless it is still to be visited. */
  ghost predicate Settled(h: Heap, gray: seq<Id>, later: seq<Id>, owed: iset<Id>) {
    forall a, b :: Marked(h, a) && a !in gray && a !in later && a !in owed && h[a].PointsTo(b) ==> Marked(h, b)
  }

  /** The gray objects in neither list are threads. */
  ghost predicate StraysAreThreads(h: Heap, gray: seq<Id>, later: seq<Id>) {
    forall a :: a in h && h[a].colour.Gray? && a !in gray && a !in later ==> h[a].kind.Thread?
  }

  ghost predicate NoStrays(h: Heap, gray: seq<Id>, later: seq<Id>) {
    forall a :: a in h && h[a].colour.Gray? ==> a in gray || a in later
  }

  lemma MarksKeepListed(h: Heap, g: seq<Id>, k: Heap, g1: seq<Id>, later: seq<Id>)
    requires Marks(h, g, k, g1, None) && Listed(h, g, later)
    ensures Listed(k, g1, later)
  {
    forall a | a in Added(g, g1) ensures Unmarked(h, a) && Marked(k, a) && !Visited(k[a].kind) {
      assert NewlyGray(h, k, a);
    }
    DistinctConcat(Added(g, g1), g);
  }

  lemma MarksKeepSettled(h: Heap, g: seq<Id>, k: Heap, g1: seq<Id>, later: seq<Id>, owed: iset<Id>)
    requires Marks(h, g, k, g1, None) && Settled(h, g, later, owed) && AllWellMade(k)
    ensures Settled(k, g1, later, owed)
  {
    forall a, b | Marked(k, a) && a !in g1 && a !in later && a !in owed && k[a].PointsTo(b) ensures Marked(k, b) {
      assert a !in g && a !in Added(g, g1);
      assert !NewlyGray(h, k, a);
      if Marked(h, a) {
        assert h[a].PointsTo(b);
        assert Marked(h, b);
      }
    }
  }

  lemma MarksKeepStrays(h: Heap, g: seq<Id>, k: Heap, g1: seq<Id>, later: seq<Id>)
    requires Marks(h, g, k, g1, None)
    ensures NoStrays(h, g, later) ==> NoStrays(k, g1, later)
    ensures StraysAreThreads(h, g, later) ==> StraysAreThreads(k, g1, later)
    ensures NoBlackThreads(h) ==> NoBlackThreads(k)
  {
    forall a | a in k && k[a].colour.Gray? && a !in g1 ensures Marked(h, a) && a !in g {
      assert a !in g && a !in Added(g, g1);
      assert !NewlyGray(h, k, a);
    }
  }

  lemma FewerWhites(h: Heap, k: Heap)
    requires MoreMarked(h, k)
    ensures Whites(k) <= Whites(h)
    ensures forall x :: Unmarked(h, x) && Marked(k, x) ==> Whites(k) < Whites(h)
  {
    forall x | x in Whites(k) ensures x in Whites(h) {
      assert Unmarked(k, x);
    }
    forall x | Unmarked(h, x) && Marked(k, x) ensures Whites(k) < Whites(h) {
      assert x in Whites(h) && x !in Whites(k);
    }
  }

  /** A heap without dangling references, and a set of its objects that references do not leave. */
  ghost predicate Ready(h: Heap, s: iset<Id>) {
    && AllWellMade(h) && Closed(h, s)
    && forall a, b :: a in h && h[a].PointsTo(b) ==> b in h
  }

  lemma ReadyStays(h: Heap, k: Heap, s: iset<Id>)
    requires SameShape(h, k) && Ready(h, s)
    ensures Ready(k, s)
  {
    forall a, b | a in k && k[a].PointsTo(b) ensures b in k && (a in s ==> b in s) {
      assert h[a].PointsTo(b);
    }
  }

  lemma Follow(h: Heap, s: iset<Id>, a: Id, b: Id)
    requires Ready(h, s) && a in h && a in s && h[a].PointsTo(b)
    ensures b in h && b in s
  {
  }

  lemma Made(h: Heap, s: iset<Id>, a: Id)
    requires Ready(h, s) && a in h
    ensures WellMade(h[a])
  {
  }

  lemma PaintMarks(h: Heap, x: Id)
    requires Unmarked(h, x)
    ensures MoreMarked(h, Paint(h, x, Gray))
    ensures Whites(Paint(h, x, Gray)) == Whites(h) - {x}
  {
  }

  lemma MarksMore(h: Heap, g: seq<Id>, k: Heap, now: seq<Id>)
    requires Marks(h, g, k, now, None)
    ensures MoreMarked(h, k)
  {
  }

  lemma MarksOwedNothing(h: Heap, g: seq<Id>, k: Heap, now: seq<Id>, but: Option<Id>)
    requires Marks(h, g, k, now, but) && (but.None? || Marked(k, but.value))
    ensures Marks(h, g, k, now, None)
  {
  }

  /** How a phase of marking changes a heap: nothing becomes white. */
  ghost predicate Grown(h: Heap, k: Heap) {
    && SameShape(h, k)
    && (forall a :: Marked(h, a) ==> Marked(k, a))
    && (forall a :: Unmarked(k, a) ==> k[a].colour == h[a].colour)
  }

  /** Painting the object taken from the gray list black, or leaving a thread gray: the object
      is owed its visit, all else stays. */
  lemma TakeFirst(h: Heap, gray: seq<Id>, later: seq<Id>, c: Colour)
    requires gray != [] && gray[0] in h && Listed(h, gray, later) && Settled(h, gray, later, iset{})
    requires c == (if h[gray[0]].kind.Thread? then Gray else Black)
    ensures var k := Paint(h, gray[0], c);
      && Listed(k, gray[1..], later) && Settled(k, gray[1..], later, iset{gray[0]}) && MoreMarkedNot(h, k, gray[0])
  {
    var x := gray[0];
    var k := Paint(h, x, c);
    forall a | a in gray[1..] ensures a != x && a in gray {
    }
    forall a, b | Marked(k, a) && a !in gray[1..] && a !in later && a != x && k[a].PointsTo(b) ensures Marked(k, b) {
      assert a !in gray;
      assert h[a].PointsTo(b);
      assert Marked(h, b);
    }
  }

  /** Only the marked object 'x' may have changed, between gray and black. */
  ghost predicate MoreMarkedNot(h: Heap, k: Heap, x: Id) {
    && SameShape(h, k) && Marked(h, x) && Marked(k, x)
    && (forall a :: a in h && a != x ==> k[a] == h[a])
  }

  lemma SettleLast(h: Heap, gray: seq<Id>, later: seq<Id>, x: Id)
    requires Settled(h, gray, later, iset{x}) && x in h
    requires forall b :: h[x].PointsTo(b) ==> Marked(h, b)
    ensures Settled(h, gray, later, iset{})
  {
  }

  /** The work left, as marking goes on: the lists are right, and what is in neither is settled. */
  ghost predicate Working(h: Heap, gray: seq<Id>, later: seq<Id>) {
    Listed(h, gray, later) && Settled(h, gray, later, iset{}) && NoBlackThreads(h)
  }

  function VisitedColour(kind: Kind): Colour {
    if kind.Thread? then Gray else Black
  }

  /** Visiting the first gray object: what 'x' points to was marked, then the work continues. */
  lemma Visits(h: Heap, gray: seq<Id>, later: seq<Id>, k: Heap, now: seq<Id>)
    requires gray != [] && Working(h, gray, later) && gray[0] in h
    requires Marks(Paint(h, gray[0], VisitedColour(h[gray[0]].kind)), gray[1..], k, now, None) && AllWellMade(k)
    requires forall b :: k[gray[0]].PointsTo(b) ==> Marked(k, b)
    ensures Working(k, now, later) && Grown(h, k)
    ensures gray[0] !in now && gray[0] !in later && k[gray[0]].colour == VisitedColour(k[gray[0]].kind)
  {
    var x, k0 := gray[0], Paint(h, gray[0], VisitedColour(h[gray[0]].kind));
    TakeFirst(h, gray, later, VisitedColour(h[x].kind));
    MarksKeepListed(k0, gray[1..], k, now, later);
    MarksKeepSettled(k0, gray[1..], k, now, later, iset{x});
    MarksKeepStrays(k0, gray[1..], k, now, later);
    SettleLast(k, now, later, x);
    assert x !in Added(gray[1..], now) by {
      assert !NewlyGray(k0, k, x);
    }
  }

  /** The stray gray objects after a visit are those of before and the thread just visited. */
  lemma VisitStrays(h: Heap, gray: seq<Id>, later: seq<Id>, k: Heap, now: seq<Id>)
    requires gray != [] && gray[0] in h
    requires Marks(Paint(h, gray[0], VisitedColour(h[gray[0]].kind)), gray[1..], k, now, None)
    ensures forall a :: a in k && k[a].colour.Gray? && a !in now && a !in later ==>
      (a == gray[0] && k[a].kind.Thread?) || (a in h && h[a].colour.Gray? && a !in gray && a !in later)
  {
    var k0 := Paint(h, gray[0], VisitedColour(h[gray[0]].kind));
    forall a | a in k && k[a].colour.Gray? && a !in now && a !in later
      ensures (a == gray[0] && k[a].kind.Thread?) || (a in h && h[a].colour.Gray? && a !in gray && a !in later)
    {
      assert a !in Added(gray[1..], now) && a !in gray[1..];
      assert !NewlyGray(k0, k, a);
    }
  }

  /** Marking makes fewer white objects, or leaves the gray list as it is. */
  lemma MarksProgress(h: Heap, gray: seq<Id>, k: Heap, now: seq<Id>)
    requires Marks(h, gray, k, now, None)
    ensures Whites(k) < Whites(h) || (Whites(k) == Whites(h) && now == gray)
  {
    FewerWhites(h, k);
    if Added(gray, now) != [] {
      assert Added(gray, now)[0] in Added(gray, now);
      assert NewlyGray(h, k, Added(gray, now)[0]);
    } else {
      assert now == [] + gray;
    }
  }

  lemma Takes(h: Heap, gray: seq<Id>, later: seq<Id>)
    requires Working(h, gray, later)
    ensures forall a :: a in gray || a in later ==> a in h && h[a].colour.Gray?
  {
  }

  /** The first gray object is taken off the list and painted in the colour of a visited one. */
  lemma TakesFirst(h: Heap, gray: seq<Id>, later: seq<Id>, s: iset<Id>)
    requires Ready(h, s) && gray != [] && Working(h, gray, later) && (forall a :: Marked(h, a) ==> a in s)
    ensures gray[0] in h && gray[0] in s && h[gray[0]].colour.Gray?
    ensures var x := gray[0]; var black, k := Paint(h, x, Black), Paint(h, x, VisitedColour(h[x].kind));
      && x in black && black[x].kind == h[x].kind && k == (if h[x].kind.Thread? then Paint(black, x, Gray) else black)
      && x in k && Ready(k, s) && Whites(k) == Whites(h) && (forall a :: Marked(k, a) ==> a in s)
  {
    Takes(h, gray, later);
    ReadyStays(h, Paint(h, gray[0], VisitedColour(h[gray[0]].kind)), s);
    hide Ready, Working;
  }

  /** A gray object taken off the list may be left in neither; no other one is. */
  ghost predicate StrayOnly(h: Heap, gray: seq<Id>, k: Heap, now: seq<Id>, later: seq<Id>, x: Id) {
    forall a :: a in k && k[a].colour.Gray? && a !in now && a !in later ==>
      (a == x && k[a].kind.Thread?) || (a in h && h[a].colour.Gray? && a !in gray && a !in later)
  }

  /** What visiting the first gray object has done. */
  lemma FirstVisited(h: Heap, gray: seq<Id>, later: seq<Id>, k: Heap, now: seq<Id>, s: iset<Id>)
    requires gray != [] && gray[0] in h && Working(h, gray, later) && gray[0] in k && Ready(k, s)
    requires Whites(Paint(h, gray[0], VisitedColour(h[gray[0]].kind))) == Whites(h)
    requires Marks(Paint(h, gray[0], VisitedColour(h[gray[0]].kind)), gray[1..], k, now, None)
    requires forall b :: k[gray[0]].PointsTo(b) ==> Marked(k, b)
    ensures Working(k, now, later) && Grown(h, k) && k[gray[0]].colour == VisitedColour(k[gray[0]].kind)
    ensures gray[0] !in now && gray[0] !in later && k[gray[0]].kind == h[gray[0]].kind
    ensures StrayOnly(h, gray, k, now, later, gray[0])
    ensures Whites(k) < Whites(h) || (Whites(k) == Whites(h) && |now| < |gray|)
  {
    assert k[gray[0]].kind == h[gray[0]].kind;
    VisitStrays(h, gray, later, k, now);
    assert StrayOnly(h, gray, k, now, later, gray[0]);
    hide *;
    WellMadeOf(k, s);
    Visits(h, gray, later, k, now);
    MarksProgress(Paint(h, gray[0], VisitedColour(h[gray[0]].kind)), gray[1..], k, now);
  }

  lemma WellMadeOf(h: Heap, s: iset<Id>)
    requires Ready(h, s)
    ensures AllWellMade(h)
  {
  }

  lemma MarksKeepWorking(h: Heap, gray: seq<Id>, later: seq<Id>, k: Heap, now: seq<Id>)
    requires Working(h, gray, later) && Marks(h, gray, k, now, None) && AllWellMade(k)
    ensures Working(k, now, later) && Grown(h, k)
  {
    MarksKeepListed(h, gray, k, now, later);
    MarksKeepSettled(h, gray, k, now, later, iset{});
    MarksKeepStrays(h, gray, k, now, later);
  }

  lemma GrownItself(h: Heap)
    ensures Grown(h, h)
  {
  }

  lemma GrownTrans(h: Heap, k: Heap, m: Heap)
    requires Grown(h, k) && Grown(k, m)
    ensures Grown(h, m)
  {
  }

  /** With the gray list empty, the other list can take its place. */
  lemma TakeOver(h: Heap, later: seq<Id>)
    requires Working(h, [], later)
    ensures Working(h, later, [])
  {
  }

  lemma WorkDone(h: Heap)
    requires Working(h, [], [])
    ensures Settled(h, [], [], iset{}) && NoBlackThreads(h)
  {
  }

  lemma MarkingGoesOn(h: Heap, gray: seq<Id>, later: seq<Id>, k: Heap, now: seq<Id>)
    requires Working(h, gray, later) && NoStrays(h, gray, later) && Marks(h, gray, k, now, None) && AllWellMade(k)
    ensures Working(k, now, later) && Grown(h, k)
    ensures NoStrays(k, now, later) && StraysAreThreads(k, now, later)
    ensures forall a :: Marked(h, a) ==> Marked(k, a)
  {
    MarksKeepWorking(h, gray, later, k, now);
    MarksKeepStrays(h, gray, k, now, later);
  }

  lemma StraysMerge(h: Heap, later: seq<Id>)
    requires StraysAreThreads(h, [], later)
    ensures StraysAreThreads(h, later, [])
  {
  }

  lemma StillMarked(h: Heap, k: Heap)
    requires Grown(h, k)
    ensures forall a :: Marked(h, a) ==> Marked(k, a)
  {
  }

  lemma StraysStay(h: Heap, gray: seq<Id>, k: Heap, now: seq<Id>, later: seq<Id>, x: Id)
    requires Grown(h, k) && StrayOnly(h, gray, k, now, later, x)
    requires x in k && k[x].colour == VisitedColour(k[x].kind)
    ensures StraysAreThreads(h, gray, later) ==> StraysAreThreads(k, now, later)
    ensures NoStrays(h, gray, later) && !k[x].kind.Thread? ==> NoStrays(k, now, later)
    ensures NoStrays(h, gray, later) && Working(k, now, later) && x !in now && x !in later && k[x].kind.Thread? ==>
      Working(k, now, [x] + later) && NoStrays(k, now, [x] + later)
  {
    if NoStrays(h, gray, later) && Working(k, now, later) && x !in now && x !in later && k[x].kind.Thread? {
      PutOff(k, now, later, x);
    }
  }

  lemma ThreadsLater(h: Heap, gray: seq<Id>, later: seq<Id>)
    requires NoStrays(h, gray, later)
    ensures StraysAreThreads(h, gray, later)
  {
  }

  lemma PutOff(h: Heap, gray: seq<Id>, later: seq<Id>, x: Id)
    requires Working(h, gray, later) && x !in gray && x !in later && x in h && h[x].colour.Gray? && h[x].kind.Thread?
    ensures Working(h, gray, [x] + later)
    ensures (forall a :: a in h && h[a].colour.Gray? && a !in gray && a !in later ==> a == x) ==>
      NoStrays(h, gray, [x] + later)
  {
    DistinctConcat([x], later);
  }
}
