/** The incremental collector: steps of marking and sweeping between steps of the program. */
module GarbageCollector {

  import opened ObjectGraph
  import opened Sweeping
  import opened CollectorInvariants
  import opened Mutation

  datatype Phase =
    | Propagate | AtomicNext | InsideAtomic
    | SweepAll | SweepFinobj | SweepTobefnz | SweepEnd
    | CallFin | Pause

  /** What can happen next. The program names an object by a path of references from a root. */
  datatype Event =
    | Step
    | Full
    | New(x: Id, kind: Kind, n: nat)
    | Intern(x: Id)
    | Slot(to: seq<Id>, i: nat, from: Option<seq<Id>>)
    | Meta(to: seq<Id>, from: Option<seq<Id>>)
    | Size(to: seq<Id>, n: nat)
    | Upvalue(cells: map<Id, nat>, from: Option<seq<Id>>)
    | Registry(from: Option<seq<Id>>)
    | BasicMeta(i: nat, from: Option<seq<Id>>)
    | Switch(to: seq<Id>)

  class GlobalState {
    const mainthread: Id
    const sweepMax: nat

    /** LUA_NUMTAGS. */
    static const NUM_TAGS := 9

    var heap: Heap
    /** Every object but the main thread. */
    var allgc: seq<Id>
    var gray: seq<Id>
    var grayagain: seq<Id>
    var current: bool
    var phase: Phase
    /** How many objects at the end of the list being swept are left; None for no list. */
    var sweepgc: Option<nat>
    var registry: Option<Id>
    var mts: seq<Option<Id>>
    var running: Id
    /** What could be reached when marking began, and what was made since. */
    ghost var seen: iset<Id>

    /** lua_newstate: the main thread, not on any list, and a collector at rest. */
    constructor (main: Id, max: nat)
      requires max > 0
      ensures Valid() && heap == map[main := Object(Thread, None, [], White(false))] && allgc == []
      ensures phase == Pause && mainthread == running == main && sweepMax == max
      ensures registry.None? && mts == seq(NUM_TAGS, i => None)
    {
      mainthread, running, sweepMax := main, main, max;
      heap, allgc, gray, grayagain := map[main := Object(Thread, None, [], White(false))], [], [], [];
      current, phase, sweepgc, registry := false, Pause, None, None;
      mts := seq(NUM_TAGS, i => None);
      seen := iset{main};
    }

    /** The macro markobject. */
    method MarkObject(x: Id, ghost s: iset<Id>)
      requires Ready(heap, s)
      requires x in heap && x in s
      modifies this`heap, this`gray
      ensures Marks(old(heap), old(gray), heap, gray, None) && Ready(heap, s)
      ensures Marked(heap, x)
      ensures forall a :: Marked(heap, a) ==> Marked(old(heap), a) || a in s
      decreases Whites(heap), 1
    {
      if Unmarked(heap, x) {
        ReallyMarkObject(x, s);
      } else {
        MarksNothing(heap, gray, None);
      }
    }

    method ReallyMarkObject(x: Id, ghost s: iset<Id>)
      requires Ready(heap, s)
      requires Unmarked(heap, x) && x in s
      modifies this`heap, this`gray
      ensures Marks(old(heap), old(gray), heap, gray, None) && Ready(heap, s)
      ensures Marked(heap, x)
      ensures forall a :: Marked(heap, a) ==> Marked(old(heap), a) || a in s
      decreases Whites(heap), 0
    {
      hide Marks, Ready, Whites;
      ghost var h0, g0 := heap, gray;
      var o := x;
      MarksNothing(heap, gray, Some(x));
      while true
        invariant Marks(h0, g0, heap, gray, Some(o)) && Ready(heap, s)
        invariant Unmarked(heap, o) && o in s && (x == o || Marked(heap, x))
        invariant Whites(heap) <= Whites(h0)
        invariant forall a :: Marked(heap, a) ==> Marked(h0, a) || a in s
        decreases Whites(heap)
      {
        ghost var h1, g1 := heap, gray;
        Made(heap, s, o);
        heap := Paint(heap, o, Gray);
        PaintMarks(h1, o);
        FewerWhites(h1, heap);
        ReadyStays(h1, heap, s);
        if heap[o].kind == ShortString {
          heap := Paint(heap, o, Black);
          assert heap == Paint(h1, o, Black);
          MarksString(h0, g0, h1, g1, o);
          ReadyStays(h1, heap, s);
          return;
        } else if heap[o].kind == Userdata {
          if heap[o].meta.Some? {
            Follow(heap, s, o, heap[o].meta.value);
            MarkObject(heap[o].meta.value, s);
          } else {
            MarksNothing(heap, gray, None);
          }
          ghost var h2 := heap;
          MarksMore(Paint(h1, o, Gray), g1, h2, gray);
          heap := Paint(heap, o, Black);
          MarksUserdata(h0, g0, h1, g1, o, h2, gray);
          FewerWhites(h1, heap);
          ReadyStays(h1, heap, s);
          var uvalue := heap[o].slots[0];
          if uvalue.Some? {
            Follow(heap, s, o, uvalue.value);
          }
          if uvalue.Some? && Unmarked(heap, uvalue.value) {
            o := uvalue.value;
          } else {
            MarksOwedNothing(h0, g0, heap, gray, uvalue);
            return;
          }
        } else {
          gray := [o] + gray;
          MarksLater(h0, g0, h1, g1, o);
          return;
        }
      }
    }

    /** The macro markvalue; markobjectN is the same for a pointer that may be NULL. */
    method MarkValue(v: Option<Id>, ghost s: iset<Id>)
      requires Ready(heap, s) && (v.Some? ==> v.value in heap && v.value in s)
      modifies this`heap, this`gray
      ensures Marks(old(heap), old(gray), heap, gray, None) && Ready(heap, s)
      ensures v.Some? ==> Marked(heap, v.value)
      ensures forall a :: Marked(heap, a) ==> Marked(old(heap), a) || a in s
    {
      MarksNothing(heap, gray, None);
      if v.Some? {
        MarkObject(v.value, s);
      }
    }

    method MarkValues(vs: seq<Option<Id>>, ghost s: iset<Id>)
      requires Ready(heap, s) && (forall b :: Some(b) in vs ==> b in heap && b in s)
      modifies this`heap, this`gray
      ensures Marks(old(heap), old(gray), heap, gray, None) && Ready(heap, s)
      ensures forall b :: Some(b) in vs ==> Marked(heap, b)
      ensures forall a :: Marked(heap, a) ==> Marked(old(heap), a) || a in s
    {
      hide Marks, Ready;
      MarksNothing(heap, gray, None);
      ghost var h0, g0 := heap, gray;
      for i := 0 to |vs|
        invariant Marks(h0, g0, heap, gray, None) && Ready(heap, s) && heap.Keys == h0.Keys
        invariant forall b :: Some(b) in vs[..i] ==> Marked(heap, b)
        invariant forall a :: Marked(heap, a) ==> Marked(h0, a) || a in s
      {
        assert vs[i] in vs;
        if vs[i].Some? {
          var b := vs[i].value;
          assert Some(b) in vs;
          assert b in s && b in h0;
        }
        ghost var h1, g1 := heap, gray;
        MarkValue(vs[i], s);
        MarksMore(h1, g1, heap, gray);
        MarksThen(h0, g0, h1, g1, heap, gray, None);
        assert vs[..i + 1] == vs[..i] + [vs[i]];
      }
      assert vs[..|vs|] == vs;
    }

    /** traversetable, traverseLclosure, traverseCclosure, traverseproto and traversethread. */
    method Traverse(x: Id, ghost s: iset<Id>)
      requires Ready(heap, s) && x in heap && x in s
      modifies this`heap, this`gray
      ensures Marks(old(heap), old(gray), heap, gray, None) && Ready(heap, s)
      ensures x in heap && forall b :: heap[x].PointsTo(b) ==> Marked(heap, b)
      ensures forall a :: Marked(heap, a) ==> Marked(old(heap), a) || a in s
    {
      hide Marks, Ready;
      ghost var h0, g0 := heap, gray;
      forall b | heap[x].PointsTo(b) ensures b in heap && b in s {
        Follow(heap, s, x, b);
      }
      var o := heap[x];
      assert o.meta.Some? ==> o.PointsTo(o.meta.value);
      MarkValue(o.meta, s);
      ghost var h1, g1 := heap, gray;
      MarksMore(h0, g0, h1, g1);
      MarkValues(o.slots, s);
      MarksMore(h1, g1, heap, gray);
      MarksThen(h0, g0, h1, g1, heap, gray, None);
      assert heap[x].meta == o.meta && heap[x].slots == o.slots;
    }

    /** Visits the first gray object, which turns black, or is kept for later if it is a thread. */
    method PropagateMark(ghost later: seq<Id>, ghost s: iset<Id>)
      requires Ready(heap, s) && gray != [] && Working(heap, gray, later)
      requires forall a :: Marked(heap, a) ==> a in s
      modifies this`heap, this`gray, this`grayagain
      ensures Ready(heap, s) && Working(heap, gray, later) && Grown(old(heap), heap)
      ensures forall a :: Marked(heap, a) ==> a in s
      ensures var x := old(gray[0]);
        && x in heap && x !in gray && x !in later
        && heap[x].colour == VisitedColour(heap[x].kind)
        && grayagain == (if heap[x].kind.Thread? then [x] else []) + old(grayagain)
      ensures StrayOnly(old(heap), old(gray), heap, gray, later, old(gray[0]))
      ensures Whites(heap) < Whites(old(heap)) || (Whites(heap) == Whites(old(heap)) && |gray| < old(|gray|))
    {
      hide *;
      ghost var h0, g0 := heap, gray;
      var o := gray[0];
      TakesFirst(heap, gray, later, s);
      heap := Paint(heap, o, Black);
      gray := gray[1..];
      if heap[o].kind.Thread? {
        grayagain := [o] + grayagain;
        heap := Paint(heap, o, Gray);
      }
      Traverse(o, s);
      FirstVisited(h0, g0, later, heap, gray, s);
    }

    /** The list that gray objects wait in besides the gray list: 'later', or the field itself. */
    ghost function Waiting(later: Option<seq<Id>>): seq<Id>
      reads this`grayagain
    {
      if later.Some? then later.value else grayagain
    }

    method PropagateAll(ghost later: Option<seq<Id>>, ghost s: iset<Id>)
      requires Ready(heap, s) && Working(heap, gray, Waiting(later)) && (forall a :: Marked(heap, a) ==> a in s)
      requires StraysAreThreads(heap, gray, Waiting(later)) && (later.None? ==> NoStrays(heap, gray, grayagain))
      modifies this`heap, this`gray, this`grayagain
      ensures Ready(heap, s) && gray == [] && Working(heap, [], Waiting(later))
      ensures forall a :: Marked(heap, a) ==> a in s
      ensures StraysAreThreads(heap, [], Waiting(later)) && (later.None? ==> NoStrays(heap, [], grayagain))
      ensures Grown(old(heap), heap)
    {
      hide Ready, Working, Grown, StraysAreThreads, NoStrays, StrayOnly;
      ghost var h0 := heap;
      GrownItself(h0);
      while gray != []
        invariant Ready(heap, s) && Working(heap, gray, Waiting(later)) && (forall a :: Marked(heap, a) ==> a in s)
        invariant StraysAreThreads(heap, gray, Waiting(later)) && (later.None? ==> NoStrays(heap, gray, grayagain))
        invariant Grown(h0, heap)
        decreases Whites(heap), |gray|
      {
        ghost var h1, g1, w, x := heap, gray, Waiting(later), gray[0];
        PropagateMark(w, s);
        GrownTrans(h0, h1, heap);
        StraysStay(h1, g1, heap, gray, w, x);
        if later.None? {
          assert [] + w == w;
          ThreadsLater(heap, gray, grayagain);
        }
      }
    }

    function Globals(): set<Id>
      reads this`mts, this`registry
    {
      set v | v in [registry] + mts && v.Some? :: v.value
    }

    function Roots(): set<Id>
      reads this`mts, this`registry, this`running
    {
      {mainthread, running} + Globals()
    }

    /** Marks a thread, the registry and the metatables of the basic types. */
    method MarkRoots(x: Id, ghost s: iset<Id>)
      requires Ready(heap, s) && x in heap && x in s && (forall r :: r in Globals() ==> r in heap && r in s)
      modifies this`heap, this`gray
      ensures Marks(old(heap), old(gray), heap, gray, None) && Ready(heap, s)
      ensures Marked(heap, x) && (forall r :: r in Globals() ==> Marked(heap, r))
      ensures registry.Some? ==> Marked(heap, registry.value)
      ensures forall i :: 0 <= i < |mts| && mts[i].Some? ==> Marked(heap, mts[i].value)
      ensures forall a :: Marked(heap, a) ==> Marked(old(heap), a) || a in s
    {
      ghost var h0, g0 := heap, gray;
      MarkObject(x, s);
      ghost var h1, g1 := heap, gray;
      hide Marks, Ready;
      MarksMore(h0, g0, h1, g1);
      forall b | Some(b) in [registry] + mts ensures b in h1 && b in s {
        assert b in Globals();
      }
      MarkValues([registry] + mts, s);
      MarksMore(h1, g1, heap, gray);
      MarksThen(h0, g0, h1, g1, heap, gray, None);
      GlobalsHold();
    }

    lemma GlobalsHold()
      ensures registry.Some? ==> registry.value in Globals()
      ensures forall i :: 0 <= i < |mts| && mts[i].Some? ==> mts[i].value in Globals()
    {
      assert registry in [registry] + mts;
      forall i | 0 <= i < |mts| && mts[i].Some? ensures mts[i].value in Globals() {
        assert mts[i] in [registry] + mts;
      }
    }

    /** The atomic phase: everything that can be reached is marked, and the white flips. */
    method Atomic()
      requires Ready(heap, seen) && Working(heap, gray, grayagain) && gray == [] && NoStrays(heap, gray, grayagain)
      requires forall a :: Marked(heap, a) ==> a in seen
      requires Marked(heap, mainthread) && (forall r :: r in Roots() ==> r in heap && r in seen)
      modifies this`heap, this`gray, this`grayagain, this`phase, this`current
      ensures phase == InsideAtomic && current == !old(current)
      ensures Grown(old(heap), heap) && NoBlackThreads(heap) && (forall a :: Marked(heap, a) ==> a in seen)
      ensures Settled(heap, [], [], iset{}) && StraysAreThreads(heap, [], [])
      ensures forall r :: r in Roots() ==> Marked(heap, r)
    {
      hide Ready, Working, Marks, Settled, NoStrays, StraysAreThreads, Grown, Marked;
      ghost var h0 := heap;
      var again := grayagain;
      phase := InsideAtomic;
      MarkRoots(running, seen);
      ghost var h1, g1 := heap, gray;
      WellMadeOf(heap, seen);
      MarkingGoesOn(h0, [], again, heap, gray);
      PropagateAll(Some(again), seen);
      ghost var h2 := heap;
      StraysMerge(heap, again);
      gray := again;
      TakeOver(heap, again);
      PropagateAll(Some([]), seen);
      current := !current;
      WorkDone(heap);
      GrownTrans(h1, h2, heap);
      GrownTrans(h0, h1, heap);
      StillMarked(h1, heap);
    }

    ghost predicate Based()
      reads this`heap, this`allgc, this`current, this`mts, this`registry, this`running, this`seen
    {
      Base(heap, allgc, mainthread, running, current, Roots(), seen) && sweepMax > 0
    }

    ghost predicate Marking()
      reads this`heap, this`gray, this`grayagain, this`current, this`seen, this`sweepgc
    {
      MarkingOk(heap, gray, grayagain, current, mainthread, seen) && sweepgc.None?
    }

    ghost predicate SweepingFrom(left: nat)
      reads this`heap, this`allgc, this`current, this`seen
    {
      SweepingOk(heap, allgc, left, current, seen)
    }

    /** What holds between the steps of the collector and of the program. */
    ghost predicate Valid()
      reads this
    {
      && Based()
      && match phase
         case Propagate => Marking() && gray != []
         case AtomicNext => Marking()
         case SweepAll => SweepingFrom(if sweepgc.Some? then sweepgc.value else 0)
         case SweepFinobj => SweepingFrom(0) && sweepgc == Some(0)
         case SweepTobefnz => SweepingFrom(0) && sweepgc == Some(0)
         case SweepEnd => SweepingFrom(0) && sweepgc.None?
         case CallFin => SweepingFrom(0) && sweepgc.None? && heap[mainthread].colour == White(current)
         case Pause => SweepingFrom(0) && sweepgc.None? && heap[mainthread].colour == White(current)
         case InsideAtomic => false
    }

    /** Sweeps at most 'count' of the last 'left' objects of the list. */
    method SweepList(left: nat, count: nat) returns (rest: Option<nat>)
      requires left <= |allgc| && Listing(heap, allgc, mainthread)
      modifies this`heap, this`allgc
      ensures SweptUpTo(old(heap), old(allgc), current, left, count, heap, allgc)
      ensures rest == if count < left then Some(left - count) else None
    {
      hide *;
      ghost var h0, list0 := heap, allgc;
      ghost var at := |allgc| - left;
      ghost var pre, mid: seq<Id>, post := allgc[..at], [], allgc[at..];
      SweepStarts(heap, allgc, current, at);
      var n, c := left, count;
      while n > 0 && c > 0
        invariant n == |post| && n + |mid| == left && |mid| + c == count
        invariant SweepGoes(h0, list0, pre, mid, post, current, heap, allgc)
      {
        SweepTurn(h0, list0, pre, mid, post, mainthread, current, heap, allgc);
        var curr := allgc[|allgc| - n];
        if heap[curr].colour == White(!current) {
          allgc := allgc[..|allgc| - n] + allgc[|allgc| - n + 1..];
          heap := heap - {curr};
        } else {
          heap := Paint(heap, curr, White(current));
        }
        mid, post := mid + [curr], post[1..];
        n, c := n - 1, c - 1;
      }
      assert n == if count < left then left - count else 0;
      SweepDone(h0, list0, current, pre, mid, post, left, count, heap, allgc);
      if n == 0 {
        rest := None;
      } else {
        rest := Some(n);
      }
    }

    /** Sweeps until past the first object that is not dead, so that new objects need no sweep. */
    method SweepToLive() returns (rest: Option<nat>)
      requires Based() && SweepingFrom(|allgc|)
      modifies this`heap, this`allgc
      ensures Based() && SweepingFrom(if rest.Some? then rest.value else 0)
      ensures Kept(old(heap), heap, Roots()) && heap[mainthread] == old(heap)[mainthread]
      ensures rest.Some? ==> rest.value < |allgc|
    {
      ghost var h0, l0 := heap, allgc;
      hide Base, SweepingOk, Kept, SweptUpTo, Listing, Roots;
      BaseListing(heap, allgc, mainthread, running, current, Roots(), seen);
      rest := SweepList(|allgc|, 1);
      SweepKeepsBase(h0, l0, mainthread, running, current, Roots(), seen, |l0|, 1, heap, allgc);
      while rest == Some(|allgc|)
        invariant Listing(heap, allgc, mainthread) && mainthread in heap
        invariant rest.Some? ==> rest.value <= |allgc|
        invariant Based() && SweepingFrom(if rest.Some? then rest.value else 0)
        invariant Kept(h0, heap, Roots()) && heap[mainthread] == h0[mainthread]
        decreases if rest == Some(|allgc|) then |allgc| + 1 else 0
      {
        ghost var h1, l1 := heap, allgc;
        rest := SweepList(|allgc|, 1);
        SweepKeepsBase(h1, l1, mainthread, running, current, Roots(), seen, |l1|, 1, heap, allgc);
        KeptTrans(h0, h1, heap, Roots());
      }
    }

    method EnterSweep()
      requires Based() && SweepingFrom(|allgc|) && sweepgc.None?
      modifies this`heap, this`allgc, this`phase, this`sweepgc
      ensures Valid() && phase == SweepAll
      ensures Kept(old(heap), heap, Roots())
    {
      phase := SweepAll;
      sweepgc := SweepToLive();
    }

    method SweepSome()
      requires sweepgc.Some? && Based() && sweepgc.value <= |allgc| && SweepingFrom(sweepgc.value)
      modifies this`heap, this`allgc, this`sweepgc
      ensures Based() && SweepingFrom(if sweepgc.Some? then sweepgc.value else 0)
      ensures Kept(old(heap), heap, Roots()) && mainthread in heap && mainthread in old(heap)
      ensures heap[mainthread] == old(heap)[mainthread]
      ensures sweepgc.Some? ==> sweepgc.value < old(sweepgc).value
    {
      hide Base, SweepingOk, Kept, SweptUpTo, Listing, Roots;
      ghost var h0, l0 := heap, allgc;
      BaseListing(heap, allgc, mainthread, running, current, Roots(), seen);
      sweepgc := SweepList(sweepgc.value, sweepMax);
      SweepKeepsBase(h0, l0, mainthread, running, current, Roots(), seen, old(sweepgc).value, sweepMax, heap, allgc);
    }

    /** Sweeps some more of the list, or goes on to the next one. */
    method SweepStep(next: Phase, list: Option<nat>)
      requires next != phase && Based() && (sweepgc.Some? ==> sweepgc.value <= |allgc|)
      requires SweepingFrom(if sweepgc.Some? then sweepgc.value else 0) && mainthread in heap
      modifies this`heap, this`allgc, this`phase, this`sweepgc
      ensures Based() && SweepingFrom(if sweepgc.Some? && phase == old(phase) then sweepgc.value else 0)
      ensures Kept(old(heap), heap, Roots()) && mainthread in heap && heap[mainthread] == old(heap)[mainthread]
      ensures (phase == next && sweepgc == list)
        || (phase == old(phase) && sweepgc.Some? && old(sweepgc).Some? && sweepgc.value < old(sweepgc).value)
    {
      hide Base, SweepingOk, Kept, Roots;
      if sweepgc.Some? {
        SweepSome();
        if sweepgc.Some? {
          return;
        }
      } else {
        SameShapeKept(heap, heap, allgc, mainthread, running, current, Roots(), seen);
      }
      phase := next;
      sweepgc := list;
    }

    /** Empties the gray lists and marks the roots, to start a new collection. */
    method RestartCollection()
      requires Valid() && phase == Pause
      modifies this`heap, this`gray, this`grayagain, this`seen
      ensures Based() && Marking() && gray != [] && Kept(old(heap), heap, Roots())
      ensures seen == ReachableSet(old(heap), Roots())
    {
      hide Base, Ready, Marks, Working, NoStrays, Kept, Reachable, ReachableSet, MarkingOk, Grown, AllWellMade,
        SweepingOk;
      ghost var h0 := heap;
      gray, grayagain := [], [];
      BaseListing(heap, allgc, mainthread, running, current, Roots(), seen);
      BeforeMarking(heap, allgc, mainthread, running, current, Roots(), seen);
      assert forall r :: r in Globals() ==> r in Roots();
      seen := ReachableSet(heap, Roots());
      MarkRoots(mainthread, seen);
      WellMadeOf(heap, seen);
      MarkingGoesOn(h0, [], [], heap, gray);
      BeginsMarking(h0, heap, gray, allgc, mainthread, running, current, Roots(), seen);
    }

    /** The steps of a collection in order; a pause is between two collections. */
    static function Rank(p: Phase): nat {
      match p
      case Propagate => 8
      case AtomicNext => 7
      case InsideAtomic => 6
      case SweepAll => 5
      case SweepFinobj => 4
      case SweepTobefnz => 3
      case SweepEnd => 2
      case CallFin => 1
      case Pause => 0
    }

    function Left(): nat
      reads this`sweepgc
    {
      if sweepgc.Some? then sweepgc.value + 1 else 0
    }

    method PropagateStep()
      requires Valid() && phase == Propagate
      modifies this`heap, this`gray, this`grayagain, this`phase
      ensures Valid() && Kept(old(heap), heap, Roots())
      ensures phase == (if gray == [] then AtomicNext else Propagate)
      ensures Whites(heap) < Whites(old(heap)) || (Whites(heap) == Whites(old(heap)) && |gray| < old(|gray|))
    {
      hide Base, Ready, Working, NoStrays, Kept, Grown;
      ghost var h0, w, x := heap, grayagain, gray[0];
      MarkingReady(heap, allgc, mainthread, running, current, Roots(), seen);
      NoStraysMeans(heap, gray, w);
      PropagateMark(w, seen);
      if heap[x].kind.Thread? {
        PutOff(heap, gray, w, x);
      } else {
        assert grayagain == w;
        NoOtherStrays(heap, gray, w);
      }
      MarkingGrows(h0, heap, gray, grayagain, allgc, mainthread, running, current, Roots(), seen);
      if gray == [] {
        phase := AtomicNext;
      }
    }

    /** The step that ends marking: the rest of the gray list, the atomic phase, and the start of the sweep. */
    method AtomicStep()
      requires Valid() && phase == AtomicNext
      modifies this`heap, this`gray, this`grayagain, this`allgc, this`phase, this`sweepgc, this`current
      ensures Valid() && phase == SweepAll && Kept(old(heap), heap, Roots())
    {
      hide Base, Ready, Working, NoStrays, StraysAreThreads, Kept, Grown, Settled;
      ghost var h0 := heap;
      MarkingReady(heap, allgc, mainthread, running, current, Roots(), seen);
      NoStraysMeans(heap, gray, grayagain);
      PropagateAll(None, seen);
      MarkingGrows(h0, heap, gray, grayagain, allgc, mainthread, running, current, Roots(), seen);
      ghost var h1 := heap;
      BaseRoots(heap, allgc, mainthread, running, current, Roots(), seen);
      Atomic();
      AtomicEnds(h1, heap, allgc, mainthread, running, old(current), Roots(), seen);
      ghost var h2 := heap;
      EnterSweep();
      KeptTrans(h0, h1, h2, Roots());
      KeptTrans(h0, h2, heap, Roots());
    }

    method EndSweep()
      requires Valid() && phase == SweepEnd
      modifies this`heap, this`phase
      ensures Valid() && phase == CallFin && Kept(old(heap), heap, Roots())
    {
      hide Base, Kept;
      ghost var h0 := heap;
      BaseListing(heap, allgc, mainthread, running, current, Roots(), seen);
      heap := Paint(heap, mainthread, White(current));
      PaintMain(h0, allgc, mainthread, running, current, Roots(), seen);
      phase := CallFin;
    }

    /** One step of the collector. */
    method SingleStep()
      requires Valid()
      modifies this
      ensures Valid() && mts == old(mts) && registry == old(registry) && running == old(running)
      ensures Kept(old(heap), heap, Roots())
      ensures old(phase) == Pause ==> phase == Propagate && seen == ReachableSet(old(heap), Roots())
      ensures old(phase) != Pause ==> seen == old(seen)
      ensures old(phase) != Pause ==>
        Rank(phase) + 1 == Rank(old(phase)) || (old(phase) == AtomicNext && phase == SweepAll)
        || (phase == old(phase) == Propagate
            && (Whites(heap) < Whites(old(heap)) || (Whites(heap) == Whites(old(heap)) && |gray| < old(|gray|))))
        || (phase == old(phase) != Propagate && Left() < old(Left()))
    {
      hide Base, Kept, MarkingOk;
      BaseListing(heap, allgc, mainthread, running, current, Roots(), seen);
      match phase {
        case Pause =>
          RestartCollection();
          phase := Propagate;
        case Propagate =>
          PropagateStep();
        case AtomicNext =>
          AtomicStep();
        case SweepAll =>
          SweepStep(SweepFinobj, Some(0));
        case SweepFinobj =>
          SweepStep(SweepTobefnz, Some(0));
        case SweepTobefnz =>
          SweepStep(SweepEnd, None);
        case SweepEnd =>
          EndSweep();
        case CallFin =>
          phase := Pause;
          SameShapeKept(heap, heap, allgc, mainthread, running, current, Roots(), seen);
      }
    }

    // ----- the program -----

    /** What a store leaves behind when the barrier is still to come. */
    ghost predicate Indebted(ps: iset<Id>, v: Id)
      reads this
    {
      && Based() && Live(heap, current, v) && v in seen
      && match phase
         case Propagate => Owing(heap, gray, grayagain, current, mainthread, seen, ps, v) && sweepgc.None? && gray != []
         case AtomicNext => Owing(heap, gray, grayagain, current, mainthread, seen, ps, v) && sweepgc.None?
         case _ => Valid()
    }

    /** luaC_barrier_: the object 'o' is black and now points to the white 'v'. */
    method Barrier(o: Id, v: Id)
      requires Indebted(iset{o}, v) && o in heap && heap[o].colour.Black? && Unmarked(heap, v)
      modifies this`heap, this`gray
      ensures Valid()
      ensures phase == Propagate || phase == AtomicNext ==>
        Marks(old(heap), old(gray), heap, gray, None) && Marked(heap, v)
      ensures phase != Propagate && phase != AtomicNext ==>
        heap == Paint(old(heap), o, White(current)) && gray == old(gray)
    {
      hide Base, Owing, Marks, Ready, MarkingOk, SweepingOk, Grown;
      ghost var h0, g0 := heap, gray;
      if phase == Propagate || phase == AtomicNext {
        OwingReady(heap, allgc, mainthread, running, current, Roots(), seen, gray, grayagain, iset{o}, v);
        ReallyMarkObject(v, seen);
        WellMadeOf(heap, seen);
        ForwardPays(h0, g0, grayagain, current, mainthread, seen, iset{o}, v, heap, gray);
        GrownKeepsBase(h0, heap, allgc, mainthread, running, current, Roots(), seen);
      } else {
        if phase == CallFin || phase == Pause {
          NoBlackAtRest(heap, allgc, mainthread, running, current, Roots(), seen, o);
        }
        assert phase in {SweepAll, SweepFinobj, SweepTobefnz, SweepEnd};
        heap := Paint(heap, o, White(current));
        ghost var left := if sweepgc.Some? then sweepgc.value else 0;
        SweepPaints(h0, allgc, left, mainthread, running, current, Roots(), seen, o, White(current));
      }
    }

    /** luaC_barrierback_: the table is black and now points to the white 'v'. */
    method BarrierBack(t: Id, ghost v: Id)
      requires Indebted(iset{t}, v) && t in heap && heap[t].colour.Black? && heap[t].kind.Table?
      modifies this`heap, this`grayagain
      ensures Valid() && heap == Paint(old(heap), t, Gray) && grayagain == [t] + old(grayagain)
    {
      hide Base, Owing, MarkingOk, SweepingOk;
      ghost var h0 := heap;
      if phase == Propagate || phase == AtomicNext {
        OwingReady(heap, allgc, mainthread, running, current, Roots(), seen, gray, grayagain, iset{t}, v);
        BackwardPays(heap, gray, grayagain, current, mainthread, seen, t, v);
        RecolourKeepsBase(heap, Paint(heap, t, Gray), allgc, mainthread, running, current, Roots(), seen);
      } else {
        if phase == CallFin || phase == Pause {
          NoBlackAtRest(heap, allgc, mainthread, running, current, Roots(), seen, t);
        }
        ghost var left := if sweepgc.Some? then sweepgc.value else 0;
        SweepPaints(h0, allgc, left, mainthread, running, current, Roots(), seen, t, Gray);
      }
      heap := Paint(heap, t, Gray);
      grayagain := [t] + grayagain;
    }

    /** The assignment of a store; a barrier is due when it makes a black object point to a white one. */
    method Store(p: Id, o: Object, v: Option<Id>)
      requires Valid() && p in heap && Usable(heap, current, seen, v)
      requires o.kind == heap[p].kind && o.colour == heap[p].colour && WellMade(o)
      requires forall b :: o.PointsTo(b) ==> heap[p].PointsTo(b) || v == Some(b)
      modifies this`heap
      ensures heap == old(heap)[p := o]
      ensures if o.colour.Black? && v.Some? && Unmarked(heap, v.value) then Indebted(iset{p}, v.value) else Valid()
    {
      hide Base, Owing, MarkingOk, SweepingOk, Stored;
      ghost var h0 := heap;
      BaseMade(heap, allgc, mainthread, running, current, Roots(), seen);
      StoresReference(h0, p, o, v);
      heap := heap[p := o];
      StoreKeepsBase(h0, heap, iset{p}, v, allgc, mainthread, running, current, Roots(), seen);
      if phase != Propagate && phase != AtomicNext {
        StoreKeepsSweeping(h0, heap, iset{p}, v, allgc, if sweepgc.Some? then sweepgc.value else 0, current, seen);
      } else if o.colour.Black? && v.Some? && Unmarked(heap, v.value) {
        StoreOwes(h0, heap, iset{p}, v.value, gray, grayagain, current, mainthread, seen);
      } else {
        StoreOwesNothing(h0, heap, iset{p}, v, gray, grayagain, current, mainthread, seen);
      }
    }

    /** A store into a slot: tables use the backward barrier, other objects the forward one. */
    method WriteSlot(p: Id, i: nat, v: Option<Id>)
      requires Valid() && p in heap && i < |heap[p].slots| && (v.Some? ==> Reachable(heap, Roots(), v.value))
      modifies this`heap, this`gray, this`grayagain
      ensures Valid()
      ensures SameShape(old(heap)[p := old(heap)[p].(slots := old(heap)[p].slots[i := v])], heap)
    {
      hide Valid, Indebted, Reachable;
      Reached(v);
      KindsFit(p);
      Store(p, heap[p].(slots := heap[p].slots[i := v]), v);
      ghost var h, g := heap, gray;
      if heap[p].colour.Black? && v.Some? && Unmarked(heap, v.value) {
        if heap[p].kind.Table? {
          BarrierBack(p, v.value);
        } else {
          Barrier(p, v.value);
        }
      }
    }

    /** lua_setmetatable, for a table or a userdata. */
    method SetMetatable(p: Id, v: Option<Id>)
      requires Valid() && p in heap && (heap[p].kind.Table? || heap[p].kind.Userdata?)
      requires v.Some? ==> Reachable(heap, Roots(), v.value)
      modifies this`heap, this`gray
      ensures Valid()
      ensures SameShape(old(heap)[p := old(heap)[p].(meta := v)], heap)
    {
      hide Valid, Indebted, Reachable;
      Reached(v);
      KindsFit(p);
      Store(p, heap[p].(meta := v), v);
      if heap[p].colour.Black? && v.Some? && Unmarked(heap, v.value) {
        Barrier(p, v.value);
      }
    }

    /** A stack or a table grows or shrinks; new slots are empty. */
    method Resize(p: Id, n: nat)
      requires Valid() && p in heap && (heap[p].kind.Table? || heap[p].kind.Thread?)
      modifies this`heap
      ensures Valid()
      ensures var s := old(heap)[p].slots;
        heap == old(heap)[p := old(heap)[p].(slots := if n <= |s| then s[..n] else s + seq(n - |s|, i => None))]
    {
      hide Valid, Reachable;
      var s := heap[p].slots;
      Store(p, heap[p].(slots := if n <= |s| then s[..n] else s + seq(n - |s|, i => None)), None);
    }

    lemma Reached(v: Option<Id>)
      requires Valid() && (v.Some? ==> Reachable(heap, Roots(), v.value))
      ensures Usable(heap, current, seen, v)
    {
      ReachableIsLive(heap, allgc, mainthread, running, current, Roots(), seen);
    }

    lemma Present()
      requires Valid()
      ensures forall a :: Reachable(heap, Roots(), a) ==> a in heap
    {
      ReachableIsLive(heap, allgc, mainthread, running, current, Roots(), seen);
    }

    lemma KindsFit(p: Id)
      requires Valid() && p in heap
      ensures WellMade(heap[p])
    {
    }

    /** luaC_upvalbarrier: the closures 'cells' share an upvalue, which becomes 'v'. */
    method WriteUpvalue(cells: map<Id, nat>, v: Option<Id>)
      requires Valid() && (v.Some? ==> Reachable(heap, Roots(), v.value))
      requires forall a :: a in cells ==> a in heap && heap[a].kind.LuaClosure? && cells[a] < |heap[a].slots|
      modifies this`heap, this`gray
      ensures Valid()
      ensures SameShape(WithUpvalue(old(heap), cells, v), heap)
    {
      hide Base, Owing, MarkingOk, SweepingOk, Reachable, Stored, Grown, Marks, Ready;
      ghost var h0, ps := heap, iset a | a in cells;
      Reached(v);
      BaseMade(heap, allgc, mainthread, running, current, Roots(), seen);
      StoresUpvalue(heap, cells, v);
      heap := WithUpvalue(heap, cells, v);
      StoreKeepsBase(h0, heap, ps, v, allgc, mainthread, running, current, Roots(), seen);
      if phase != Propagate && phase != AtomicNext {
        StoreKeepsSweeping(h0, heap, ps, v, allgc, if sweepgc.Some? then sweepgc.value else 0, current, seen);
      } else if v.Some? {
        StoreOwes(h0, heap, ps, v.value, gray, grayagain, current, mainthread, seen);
        OwingReady(heap, allgc, mainthread, running, current, Roots(), seen, gray, grayagain, ps, v.value);
        ghost var h1, g1 := heap, gray;
        UsableAfter(h0, h1, ps, v, current, seen);
        MarkObject(v.value, seen);
        WellMadeOf(heap, seen);
        ForwardPays(h1, g1, grayagain, current, mainthread, seen, ps, v.value, heap, gray);
        GrownKeepsBase(h1, heap, allgc, mainthread, running, current, Roots(), seen);
        MarksMore(h1, g1, heap, gray);
      } else {
        StoreOwesNothing(h0, heap, ps, v, gray, grayagain, current, mainthread, seen);
      }
    }

    /** luaC_newobj, at an address not in use; the new object goes on the running thread's stack. */
    method NewObject(x: Id, kind: Kind, n: nat)
      requires Valid() && x !in heap
      modifies this`heap, this`allgc, this`seen
      ensures Valid() && allgc == [x] + old(allgc) && seen == old(seen) + iset{x}
      ensures running in old(heap)
      ensures var t := old(heap)[running];
        heap == old(heap)[x := Fresh(kind, n, current)][running := t.(slots := t.slots + [Some(x)])]
    {
      hide Base, Owing, MarkingOk, SweepingOk;
      ghost var h0 := heap;
      NewKeepsBase(heap, x, Fresh(kind, n, current), allgc, mainthread, running, current, Roots(), seen);
      if phase == Propagate || phase == AtomicNext {
        NewKeepsMarking(heap, x, Fresh(kind, n, current), gray, grayagain, current, mainthread, seen);
      } else {
        ghost var left := if sweepgc.Some? then sweepgc.value else 0;
        NewKeepsSweeping(heap, x, Fresh(kind, n, current), allgc, left, current, seen);
      }
      NewKeepsThreads(heap, x, Fresh(kind, n, current), allgc, mainthread, running, current, Roots(), seen);
      heap := heap[x := Fresh(kind, n, current)];
      allgc := [x] + allgc;
      seen := seen + iset{x};
      hide Valid;
      KindsFit(running);
      Store(running, heap[running].(slots := heap[running].slots + [Some(x)]), Some(x));
    }

    /** internshrstr: an equal short string is found, reachable or not, and one that is dead but not swept yet is
        made white again; it goes on the running thread's stack. */
    method InternString(x: Id)
      requires Valid() && x in heap && heap[x].kind.ShortString?
      modifies this`heap, this`seen
      ensures Valid() && seen == old(seen) + iset{x} && running in old(heap)
      ensures var k := Resurrected(old(heap), x, current);
        running in k && heap == k[running := k[running].(slots := k[running].slots + [Some(x)])]
    {
      hide Base, Owing, MarkingOk, SweepingOk;
      ghost var h0 := heap;
      InternKeepsBase(heap, x, allgc, mainthread, running, current, Roots(), seen);
      if phase == Propagate || phase == AtomicNext {
        InternKeepsMarking(heap, x, gray, grayagain, current, mainthread, seen);
      } else {
        ghost var left := if sweepgc.Some? then sweepgc.value else 0;
        InternKeepsSweeping(heap, x, allgc, left, current, seen);
      }
      BaseListing(heap, allgc, mainthread, running, current, Roots(), seen);
      BaseMade(heap, allgc, mainthread, running, current, Roots(), seen);
      if heap[x].colour == White(!current) {
        heap := Paint(heap, x, White(current));
      }
      seen := seen + iset{x};
      hide Valid;
      KindsFit(running);
      Store(running, heap[running].(slots := heap[running].slots + [Some(x)]), Some(x));
    }

    method SetRegistry(v: Option<Id>)
      requires Valid() && (v.Some? ==> Reachable(heap, Roots(), v.value))
      modifies this`registry
      ensures Valid() && registry == v
    {
      hide Base, MarkingOk, SweepingOk;
      ghost var roots := Roots();
      Reached(v);
      registry := v;
      RootsKeepBase(heap, allgc, mainthread, running, running, current, roots, Roots(), seen, v);
    }

    method SetBasicMetatable(i: nat, v: Option<Id>)
      requires Valid() && i < |mts| && (v.Some? ==> Reachable(heap, Roots(), v.value))
      modifies this`mts
      ensures Valid() && mts == old(mts)[i := v]
    {
      hide Base, MarkingOk, SweepingOk;
      ghost var roots := Roots();
      Reached(v);
      mts := mts[i := v];
      RootsKeepBase(heap, allgc, mainthread, running, running, current, roots, Roots(), seen, v);
    }

    /** Another thread runs, one that the program can reach. */
    method Resume(x: Id)
      requires Valid() && Reachable(heap, Roots(), x) && x in heap && heap[x].kind.Thread?
      modifies this`running
      ensures Valid() && running == x
    {
      hide Base, MarkingOk, SweepingOk;
      ghost var roots, was := Roots(), running;
      Reached(Some(x));
      running := x;
      RootsKeepBase(heap, allgc, mainthread, was, x, current, roots, Roots(), seen, Some(x));
    }

    // ----- whole collections -----

    /** Nothing the state names, and nothing that a live object refers to, is dead or freed. */
    lemma NothingDangles()
      requires Valid()
      ensures Live(heap, current, mainthread) && Live(heap, current, running)
      ensures registry.Some? ==> Live(heap, current, registry.value)
      ensures forall i :: 0 <= i < |mts| && mts[i].Some? ==> Live(heap, current, mts[i].value)
      ensures forall a :: Live(heap, current, a) && heap[a].meta.Some? ==> Live(heap, current, heap[a].meta.value)
      ensures forall a, i :: Live(heap, current, a) && 0 <= i < |heap[a].slots| && heap[a].slots[i].Some? ==>
        Live(heap, current, heap[a].slots[i].value)
    {
      GlobalsHold();
      RootsReachable(heap, Roots());
      ReachableIsLive(heap, allgc, mainthread, running, current, Roots(), seen);
      forall a, i | Live(heap, current, a) && 0 <= i < |heap[a].slots| && heap[a].slots[i].Some?
        ensures Live(heap, current, heap[a].slots[i].value)
      {
        assert heap[a].PointsTo(heap[a].slots[i].value);
      }
      forall a | Live(heap, current, a) && heap[a].meta.Some? ensures Live(heap, current, heap[a].meta.value) {
        assert heap[a].PointsTo(heap[a].meta.value);
      }
    }

    /** A set that holds what the state names and that no reference of its members leaves. */
    ghost predicate Encloses(s: iset<Id>)
      reads this
    {
      && mainthread in s && running in s
      && (registry.Some? ==> registry.value in s)
      && (forall i :: 0 <= i < |mts| && mts[i].Some? ==> mts[i].value in s)
      && (forall a :: a in s && a in heap && heap[a].meta.Some? ==> heap[a].meta.value in s)
      && (forall a, i :: a in s && a in heap && 0 <= i < |heap[a].slots| && heap[a].slots[i].Some? ==>
            heap[a].slots[i].value in s)
    }

    lemma EnclosesReachable(s: iset<Id>)
      requires Encloses(s)
      ensures forall a :: Reachable(heap, Roots(), a) ==> a in s
    {
      forall r | r in Roots() ensures r in s {
        if r in Globals() {
          var v :| v in [registry] + mts && v == Some(r);
          if v != registry {
            var i :| 0 <= i < |mts| && mts[i] == v;
          }
        }
      }
      forall a, b | a in s && a in heap && heap[a].PointsTo(b) ensures b in s {
        if heap[a].meta != Some(b) {
          var i :| 0 <= i < |heap[a].slots| && heap[a].slots[i] == Some(b);
        }
      }
      ReachableInside(heap, Roots(), s);
    }

    lemma NothingLost()
      requires Valid()
      ensures Kept(heap, heap, Roots())
    {
      SameShapeKept(heap, heap, allgc, mainthread, running, current, Roots(), seen);
    }

    /** luaC_runtilstate, without starting another collection on the way. */
    method RunUntil(stop: set<Phase>)
      requires Valid() && (Pause in stop || (CallFin in stop && phase != Pause))
      modifies this
      ensures Valid() && phase in stop && Kept(old(heap), heap, Roots()) && seen == old(seen)
      ensures mts == old(mts) && registry == old(registry) && running == old(running)
    {
      hide Valid, Kept, ReachableSet;
      ghost var h0 := heap;
      NothingLost();
      while phase !in stop
        invariant Valid() && Kept(h0, heap, Roots()) && seen == old(seen)
        invariant mts == old(mts) && registry == old(registry) && running == old(running)
        invariant Pause in stop || (CallFin in stop && phase != Pause)
        decreases Rank(phase), if phase == Propagate then Whites(heap) else {},
          if phase == Propagate then |gray| else Left()
      {
        ghost var h1 := heap;
        SingleStep();
        KeptTrans(h0, h1, heap, Roots());
      }
    }

    /** luaC_fullgc: afterwards exactly the objects that could be reached are left. */
    method FullGC()
      requires Valid()
      modifies this
      ensures Valid() && phase == Pause
      ensures mts == old(mts) && registry == old(registry) && running == old(running)
      ensures forall a :: a in heap <==> Reachable(old(heap), Roots(), a)
      ensures forall a :: a in heap ==> a in old(heap) && heap[a] == old(heap)[a].(colour := heap[a].colour)
      ensures Encloses(iset a | a in heap)
      ensures forall s: iset<Id> :: old(Encloses(s)) ==> forall a :: a in heap ==> a in s
      ensures forall a :: a in heap ==> Live(heap, current, a)
    {
      hide Kept, Base, Encloses, Reachable;
      LeastEnclosing();
      ghost var h0 := heap;
      NothingLost();
      if phase == Propagate || phase == AtomicNext {
        MarkingSweeps(heap, gray, grayagain, allgc, mainthread, running, current, Roots(), seen);
        seen := iset a | a in heap;
        EnterSweep();
      }
      hide Valid;
      ghost var h1 := heap;
      RunUntil({Pause});
      ghost var h2 := heap;
      SingleStep();
      ghost var h3, s := heap, seen;
      RunUntil({CallFin});
      ghost var h4 := heap;
      RunUntil({Pause});
      KeptTrans(h0, h1, h2, Roots());
      KeptSameReach(h0, h2, Roots());
      KeptTrans(h2, h3, h4, Roots());
      KeptTrans(h2, h4, heap, Roots());
      KeptTrans(h0, h2, heap, Roots());
      AtRest();
      ReachableLeft(h0, heap, Roots(), seen);
      EndsEnclosed();
    }

    lemma LeastEnclosing()
      ensures forall s: iset<Id> :: Encloses(s) ==> forall a :: Reachable(heap, Roots(), a) ==> a in s
    {
      forall s: iset<Id> | Encloses(s) ensures forall a :: Reachable(heap, Roots(), a) ==> a in s {
        EnclosesReachable(s);
      }
    }

    /** Between two collections nothing is dead. */
    lemma EndsEnclosed()
      requires Valid() && phase == Pause
      ensures Encloses(iset a | a in heap) && (forall a :: a in heap ==> Live(heap, current, a))
    {
      assert allgc[..|allgc| - 0] == allgc;
      NothingDangles();
    }

    lemma AtRest()
      requires Valid() && phase == Pause
      ensures forall a :: a in heap ==> a in seen
    {
      assert allgc[..|allgc| - 0] == allgc;
    }

    // ----- any run -----

    predicate Found(path: seq<Id>)
      reads this`heap, this`mts, this`registry, this`running
    {
      |path| > 0 && IsPath(heap, Roots(), path) && path[|path| - 1] in heap
    }

    predicate FoundValue(from: Option<seq<Id>>)
      reads this`heap, this`mts, this`registry, this`running
    {
      from.Some? ==> Found(from.value)
    }

    function Value(from: Option<seq<Id>>): (v: Option<Id>)
      requires FoundValue(from)
      reads this`heap, this`mts, this`registry, this`running
      ensures v.Some? ==> Reachable(heap, Roots(), v.value)
    {
      if from.None? then None
      else assert Leads(heap, Roots(), from.value, from.value[|from.value| - 1]); Some(from.value[|from.value| - 1])
    }

    /** The events that make an object or change what is in one. */
    method ChangeObjects(e: Event)
      requires Valid()
      modifies this`heap, this`gray, this`grayagain, this`allgc, this`seen
      ensures Valid()
      ensures forall a :: a in old(heap) ==> a in heap
      ensures e.Slot? && old(Found(e.to)) && old(FoundValue(e.from)) ==>
        var p := e.to[|e.to| - 1];
          p in heap && (e.i < |old(heap)[p].slots| ==>
            heap[p].slots == old(heap)[p].slots[e.i := old(Value(e.from))])
      ensures e.Meta? && old(Found(e.to)) && old(FoundValue(e.from)) ==>
        var p := e.to[|e.to| - 1];
          p in heap && (heap[p].kind.Table? || heap[p].kind.Userdata? ==> heap[p].meta == old(Value(e.from)))
      ensures e.New? && e.x !in old(heap) ==>
        e.x in heap && heap[e.x].kind == e.kind && running in heap && Some(e.x) in heap[running].slots
    {
      hide Valid, IsPath, Reachable;
      match e {
        case New(x, kind, n) =>
          if x !in heap {
            NewObject(x, kind, n);
          }
        case Intern(x) =>
          if x in heap && heap[x].kind.ShortString? {
            InternString(x);
          }
        case Slot(to, i, from) =>
          if Found(to) && FoundValue(from) && i < |heap[to[|to| - 1]].slots| {
            WriteSlot(to[|to| - 1], i, Value(from));
          }
        case Meta(to, from) =>
          if Found(to) && FoundValue(from) && (heap[to[|to| - 1]].kind.Table? || heap[to[|to| - 1]].kind.Userdata?) {
            SetMetatable(to[|to| - 1], Value(from));
          }
        case Size(to, n) =>
          if Found(to) && (heap[to[|to| - 1]].kind.Table? || heap[to[|to| - 1]].kind.Thread?) {
            Resize(to[|to| - 1], n);
          }
        case Upvalue(cells, from) =>
          if FoundValue(from) && forall a :: a in cells ==>
            a in heap && heap[a].kind.LuaClosure? && cells[a] < |heap[a].slots| {
            WriteUpvalue(cells, Value(from));
          }
        case _ =>
      }
    }

    /** One event; one that names nothing, or the wrong kind of object, does not happen. */
    method Happen(e: Event)
      requires Valid()
      modifies this
      ensures Valid()
      ensures forall a :: Reachable(old(heap), old(Roots()), a) ==> a in heap
      ensures registry ==
        if e.Registry? && old(FoundValue(e.from)) then old(Value(e.from)) else old(registry)
      ensures mts ==
        if e.BasicMeta? && old(FoundValue(e.from)) && e.i < |old(mts)| then old(mts)[e.i := old(Value(e.from))]
        else old(mts)
      ensures running ==
        if e.Switch? && old(Found(e.to)) && old(heap)[e.to[|e.to| - 1]].kind.Thread? then e.to[|e.to| - 1]
        else old(running)
      ensures Live(heap, current, mainthread) && Live(heap, current, running)
      ensures registry.Some? ==> Live(heap, current, registry.value)
      ensures forall i :: 0 <= i < |mts| && mts[i].Some? ==> Live(heap, current, mts[i].value)
      ensures forall a :: Live(heap, current, a) && heap[a].meta.Some? ==> Live(heap, current, heap[a].meta.value)
      ensures forall a, i :: Live(heap, current, a) && 0 <= i < |heap[a].slots| && heap[a].slots[i].Some? ==>
        Live(heap, current, heap[a].slots[i].value)
      ensures e.Slot? && old(Found(e.to)) && old(FoundValue(e.from)) ==>
        var p := e.to[|e.to| - 1];
          p in heap && (e.i < |old(heap)[p].slots| ==>
            heap[p].slots == old(heap)[p].slots[e.i := old(Value(e.from))])
      ensures e.Meta? && old(Found(e.to)) && old(FoundValue(e.from)) ==>
        var p := e.to[|e.to| - 1];
          p in heap && (heap[p].kind.Table? || heap[p].kind.Userdata? ==> heap[p].meta == old(Value(e.from)))
      ensures e.New? && e.x !in old(heap) ==>
        e.x in heap && heap[e.x].kind == e.kind && running in heap && Some(e.x) in heap[running].slots
    {
      Present();
      hide Valid, IsPath, Reachable;
      match e {
        case Step =>
          SingleStep();
        case Full =>
          FullGC();
        case Registry(from) =>
          if FoundValue(from) {
            SetRegistry(Value(from));
          }
        case BasicMeta(i, from) =>
          if FoundValue(from) && i < |mts| {
            SetBasicMetatable(i, Value(from));
          }
        case Switch(to) =>
          if Found(to) && heap[to[|to| - 1]].kind.Thread? {
            Resume(Value(Some(to)).value);
          }
        case _ =>
          ChangeObjects(e);
      }
      NothingDangles();
    }

    /** In every run, whatever the program can reach is there and not about to be swept. */
    method Run(events: seq<Event>)
      requires Valid()
      modifies this
      ensures Valid()
      ensures forall a :: Reachable(heap, Roots(), a) ==> Live(heap, current, a)
      ensures Live(heap, current, mainthread) && Live(heap, current, running)
      ensures registry.Some? ==> Live(heap, current, registry.value)
      ensures forall i :: 0 <= i < |mts| && mts[i].Some? ==> Live(heap, current, mts[i].value)
      ensures forall a :: Live(heap, current, a) && heap[a].meta.Some? ==> Live(heap, current, heap[a].meta.value)
      ensures forall a, i :: Live(heap, current, a) && 0 <= i < |heap[a].slots| && heap[a].slots[i].Some? ==>
        Live(heap, current, heap[a].slots[i].value)
      ensures phase == Propagate || phase == AtomicNext ==>
        forall a, b :: a in heap && heap[a].colour.Black? && heap[a].PointsTo(b) ==> Marked(heap, b)
      ensures phase == Propagate || phase == AtomicNext ==>
        forall a :: multiset(gray)[a] + multiset(grayagain)[a] == if a in heap && heap[a].colour.Gray? then 1 else 0
    {
      for i := 0 to |events|
        invariant Valid()
      {
        hide Valid;
        Happen(events[i]);
      }
      NothingDangles();
      ReachableIsLive(heap, allgc, mainthread, running, current, Roots(), seen);
      if phase == Propagate || phase == AtomicNext {
        forall a, b | a in heap && heap[a].colour.Black? && heap[a].PointsTo(b) ensures Marked(heap, b) {
          NoBlackToWhite(heap, gray, grayagain, current, mainthread, seen, a, b);
        }
        forall a
          ensures multiset(gray)[a] + multiset(grayagain)[a] == if a in heap && heap[a].colour.Gray? then 1 else 0
        {
          GrayWaitsOnce(heap, gray, grayagain, current, mainthread, seen, a);
        }
      }
    }
  }
}
