/** The table of services: handles to contexts, and names to handles. */
module HandleStorage {

  import opened NameOrder

  datatype Option<T> = None | Some(value: T)

  const DEFAULT_SLOT_SIZE := 4

  const MAX_SLOT_SIZE := 0x4000_0000

  /** A handle is 24 bits below the number of the harbor. */
  const HANDLES := 0x100_0000

  /** A context with the handle that was given to it. */
  datatype Context = Context(handle: nat, id: nat)

  function Exp2(k: nat): nat {
    if k == 0 then 1 else 2 * Exp2(k - 1)
  }

  lemma {:induction false} Exp2Add(j: nat, k: nat)
    ensures Exp2(j + k) == Exp2(j) * Exp2(k)
  {
    if j > 0 {
      Exp2Add(j - 1, k);
    }
  }

  lemma Exp2HANDLES()
    ensures Exp2(24) == HANDLES
  {
    assert Exp2(6) == 64;
    Exp2Add(6, 6);
    Exp2Add(12, 12);
  }

  lemma ModOfMod(x: nat, m: nat, q: nat)
    requires m > 0 && q > 0
    ensures x % (q * m) % m == x % m
  {
    var n := q * m;
    var y := x % n;
    assert x == x / n * n + y;
    assert x / n * n == (x / n * q) * m;
    assert y == y / m * m + y % m;
    assert x == (x / n * q + y / m) * m + y % m by {
      assert (x / n * q + y / m) * m == (x / n * q) * m + y / m * m;
    }
    ModUnique(x, x / n * q + y / m, m, y % m);
  }

  lemma ModUnique(x: int, q: int, m: nat, r: nat)
    requires m > 0 && x == q * m + r && r < m
    ensures x % m == r
  {
    var p, s := x / m, x % m;
    assert x == p * m + s;
    var d := p - q;
    assert d * m == p * m - q * m == r - s;
    if d >= 1 {
      AtLeast(d, m);
    } else if d <= -1 {
      AtLeast(-d, m);
    }
  }

  lemma AtLeast(d: int, m: nat)
    requires d >= 1
    ensures d * m >= m
  {
  }

  /** The low bits of a handle do not depend on the mask of 24 bits. */
  lemma MaskKeepsSlot(x: nat, k: nat)
    requires k <= 24
    ensures Exp2(k) > 0 && x % HANDLES % Exp2(k) == x % Exp2(k)
  {
    Positive(k);
    Positive(24 - k);
    Exp2HANDLES();
    Exp2Add(24 - k, k);
    ModOfMod(x, Exp2(k), Exp2(24 - k));
  }

  lemma {:induction false} Positive(k: nat)
    ensures Exp2(k) > 0
  {
    if k > 0 {
      Positive(k - 1);
    }
  }

  /** What is in the slots: each context where its handle says. */
  ghost predicate Placed(slot: seq<Option<Context>>, harbor: nat, live: map<nat, nat>) {
    && (forall i :: 0 <= i < |slot| && slot[i].Some? ==>
          var c := slot[i].value;
          c.handle / HANDLES == harbor && c.handle % HANDLES % |slot| == i && c.handle in live
            && live[c.handle] == c.id)
    && (forall h :: h in live ==> |slot| > 0 && slot[h % HANDLES % |slot|] == Some(Context(h, live[h])))
  }

  lemma Puts(slot: seq<Option<Context>>, harbor: nat, live: map<nat, nat>, h: nat, id: nat)
    requires Placed(slot, harbor, live) && |slot| > 0 && h / HANDLES == harbor && slot[h % HANDLES % |slot|].None?
    ensures h !in live
    ensures Placed(slot[h % HANDLES % |slot| := Some(Context(h, id))], harbor, live[h := id])
  {
  }

  lemma TakesOut(slot: seq<Option<Context>>, harbor: nat, live: map<nat, nat>, h: nat)
    requires Placed(slot, harbor, live) && h in live
    ensures |slot| > 0 && Placed(slot[h % HANDLES % |slot| := None], harbor, live - {h})
  {
  }

  /** With every slot taken there are as many live handles as slots. */
  lemma {:induction false} FullSlots(slot: seq<Option<Context>>, n: nat, harbor: nat, live: map<nat, nat>)
    requires Placed(slot, harbor, live) && n <= |slot| && forall i :: 0 <= i < n ==> slot[i].Some?
    ensures |live| >= n
    decreases n
  {
    if n > 0 {
      var s := slot[n - 1 := None];
      var h := slot[n - 1].value.handle;
      TakesOut(slot, harbor, live, h);
      assert slot[h % HANDLES % |slot| := None] == s;
      FullSlots(s, n - 1, harbor, live - {h});
      assert live == (live - {h})[h := live[h]];
    }
  }

  lemma TakesLast(slot: seq<Option<Context>>, n: nat, harbor: nat, live: map<nat, nat>)
    requires Placed(slot, harbor, live) && 0 < n <= |slot| && slot[n - 1].Some?
    ensures var rest := live - {slot[n - 1].value.handle};
      Placed(slot[n - 1 := None], harbor, rest) && |live| == |rest| + 1
  {
    var h := slot[n - 1].value.handle;
    TakesOut(slot, harbor, live, h);
    hide Placed;
    assert live == (live - {h})[h := live[h]];
  }

  /** There are at most as many live handles as slots in use. */
  lemma {:induction false} LiveFits(slot: seq<Option<Context>>, n: nat, harbor: nat, live: map<nat, nat>)
    requires Placed(slot, harbor, live) && n <= |slot| && forall i :: n <= i < |slot| ==> slot[i].None?
    ensures |live| <= n
    decreases n
  {
    if n == 0 {
      assert forall h :: h !in live;
    } else if slot[n - 1].None? {
      LiveFits(slot, n - 1, harbor, live);
    } else {
      TakesLast(slot, n, harbor, live);
      hide Placed;
      LiveFits(slot[n - 1 := None], n - 1, harbor, live - {slot[n - 1].value.handle});
    }
  }

  /** The contexts of the first 'i' slots, in a table twice the size. */
  ghost predicate Moved(slot: seq<Option<Context>>, i: nat, live: map<nat, nat>, part: map<nat, nat>)
    requires |slot| > 0
  {
    && (forall h :: h in part ==> h in live && part[h] == live[h] && h % HANDLES % |slot| < i)
    && (forall h :: h in live && h % HANDLES % |slot| < i ==> h in part)
  }

  lemma NothingMoved(slot: seq<Option<Context>>, empty: seq<Option<Context>>, harbor: nat, live: map<nat, nat>)
    requires |slot| > 0 && forall i :: 0 <= i < |empty| ==> empty[i] == None
    ensures Placed(empty, harbor, map[]) && Moved(slot, 0, live, map[])
  {
  }

  lemma AllMoved(slot: seq<Option<Context>>, live: map<nat, nat>, part: map<nat, nat>)
    requires |slot| > 0 && Moved(slot, |slot|, live, part)
    ensures part == live
  {
  }

  /** Moving one more context: its place in the larger table is free. */
  lemma MovesOn(slot: seq<Option<Context>>, bigger: seq<Option<Context>>, i: nat, harbor: nat, live: map<nat, nat>,
        part: map<nat, nat>, k: nat)
    requires |slot| == Exp2(k) && k < 24 && |bigger| == 2 * |slot| && i < |slot| && slot[i].Some?
    requires Placed(slot, harbor, live) && Placed(bigger, harbor, part) && Moved(slot, i, live, part)
    ensures var c := slot[i].value; var j := c.handle % |bigger|;
      bigger[j].None?
      && Placed(bigger[j := slot[i]], harbor, part[c.handle := c.id])
           && Moved(slot, i + 1, live, part[c.handle := c.id])
  {
    var c := slot[i].value;
    var j := c.handle % |bigger|;
    MaskKeepsSlot(c.handle, k + 1);
    assert |bigger| == Exp2(k + 1);
    ModOfMod(c.handle % HANDLES, |slot|, 2);
    if bigger[j].Some? {
      ModOfMod(bigger[j].value.handle % HANDLES, |slot|, 2);
    }
    Puts(bigger, harbor, part, c.handle, c.id);
  }

  datatype Request = Enter(id: nat) | Leave(handle: nat) | Call(handle: nat, n: Name)

  /** The live handles with their contexts, and the names. */
  datatype World = World(live: map<nat, nat>, names: map<Name, nat>)

  /** What a request does, given the handle that an entering context got. */
  ghost function After(w: World, r: Request, answer: nat): World {
    match r
    case Enter(id) => World(w.live[answer := id], w.names)
    case Leave(h) =>
      if h !in w.live then w
      else World(w.live - {h}, map n | n in w.names && w.names[n] != h :: w.names[n])
    case Call(h, n) => if n in w.names then w else World(w.live, w.names[n := h])
  }

  ghost function AfterAll(rs: seq<Request>, answers: seq<nat>): World
    requires |rs| == |answers|
  {
    if rs == [] then World(map[], map[])
    else After(AfterAll(rs[..|rs| - 1], answers[..|rs| - 1]), rs[|rs| - 1], answers[|rs| - 1])
  }

  /** No handle was given out while it was in use, and all are of this node. */
  ghost predicate NewHandles(rs: seq<Request>, answers: seq<nat>, harbor: nat)
    requires |rs| == |answers|
  {
    forall k :: 0 <= k < |rs| && rs[k].Enter? ==>
      answers[k] !in AfterAll(rs[..k], answers[..k]).live && answers[k] / HANDLES == harbor
  }

  lemma NothingYet(harbor: nat)
    ensures AfterAll([], []) == World(map[], map[]) && NewHandles([], [], harbor)
  {
  }

  lemma OneMore(rs: seq<Request>, answers: seq<nat>, r: Request, answer: nat, harbor: nat)
    requires |rs| == |answers| && NewHandles(rs, answers, harbor)
    requires r.Enter? ==> answer !in AfterAll(rs, answers).live && answer / HANDLES == harbor
    ensures AfterAll(rs + [r], answers + [answer]) == After(AfterAll(rs, answers), r, answer)
    ensures NewHandles(rs + [r], answers + [answer], harbor)
  {
    var rs1, answers1 := rs + [r], answers + [answer];
    assert rs1[..|rs|] == rs && answers1[..|rs|] == answers;
    forall k | 0 <= k < |rs1| && rs1[k].Enter?
      ensures answers1[k] !in AfterAll(rs1[..k], answers1[..k]).live && answers1[k] / HANDLES == harbor
    {
      if k < |rs| {
        assert rs1[..k] == rs[..k] && answers1[..k] == answers[..k];
      }
    }
  }

  /** An entry in its place among the others. */
  lemma InPlace<T>(s: seq<T>, e: T, before: nat, t: seq<T>)
    requires before <= |s| && |t| == |s| + 1 && t[before] == e
    requires forall k :: 0 <= k < before ==> t[k] == s[k]
    requires forall k :: before < k <= |s| ==> t[k] == s[k - 1]
    ensures t == s[..before] + [e] + s[before..]
  {
  }

  class Handles {
    const harbor: nat
    var handleIndex: nat
    var slotSize: nat
    var slot: array<Option<Context>>
    var nameCap: nat
    var nameCount: nat
    var name: array<Entry>
    /** The size of the slot array is this power of two. */
    ghost var power: nat
    /** The contexts by handle. */
    ghost var live: map<nat, nat>
    ghost var namePower: nat

    ghost predicate Valid()
      reads this, slot, name
    {
      && slot.Length == slotSize == Exp2(power) && 2 <= power <= 24
      && Placed(slot[..], harbor, live) && 1 <= handleIndex <= HANDLES && harbor < 0x100
      && name.Length == nameCap == Exp2(namePower) && 1 <= namePower <= 30
      && nameCount <= nameCap && Sorted(name[..nameCount])
    }

    /** The handles by name. */
    ghost function Names(): map<Name, nat>
      reads this`nameCount, this`name, name
      requires nameCount <= name.Length
    {
      Meaning(name[..nameCount])
    }

    /** The live handles with their contexts, and the names. */
    ghost function State(): World
      reads this`live, this`nameCount, this`name, name
      requires nameCount <= name.Length
    {
      World(live, Names())
    }

    /** skynet_handle_init. */
    constructor (harbor: nat)
      requires harbor < 0x100
      ensures Valid() && fresh(slot) && fresh(name) && State() == World(map[], map[]) && this.harbor == harbor
      ensures handleIndex == 1
    {
      this.harbor, handleIndex, slotSize, nameCap, nameCount := harbor, 1, DEFAULT_SLOT_SIZE, 2, 0;
      slot := new Option<Context>[DEFAULT_SLOT_SIZE](_ => None);
      name := new Entry[2](_ => Entry([], 0));
      power, live, namePower := 2, map[], 1;
    }

    /** skynet_handle_grab. */
    method Grab(handle: nat) returns (ctx: Option<nat>)
      requires Valid()
      ensures ctx == if handle in live then Some(live[handle]) else None
    {
      Positive(power);
      MaskKeepsSlot(handle, power);
      var c := slot[handle % slotSize];
      if c.Some? && c.value.handle == handle {
        return Some(c.value.id);
      }
      return None;
    }

    /** The end of the loop of skynet_handle_register: a table of twice the size. */
    method Double()
      requires Valid() && power < 24 && forall i :: 0 <= i < slotSize ==> slot[i].Some?
      modifies this`slot, this`slotSize, this`power
      ensures Valid() && slotSize == 2 * old(slotSize) && fresh(slot)
    {
      var newSlot := new Option<Context>[slotSize * 2](_ => None);
      ghost var part: map<nat, nat> := map[];
      Positive(power);
      NothingMoved(slot[..], newSlot[..], harbor, live);
      hide Placed, Moved, Sorted;
      for i := 0 to slotSize
        invariant Placed(newSlot[..], harbor, part) && Moved(slot[..], i, live, part)
        modifies newSlot
      {
        MovesOn(slot[..], newSlot[..], i, harbor, live, part, power);
        var hash := slot[i].value.handle % (slotSize * 2);
        assert newSlot[hash] == None;
        ghost var was := newSlot[..];
        newSlot[hash] := slot[i];
        assert newSlot[..] == was[hash := slot[i]];
        part := part[slot[i].value.handle := slot[i].value.id];
      }
      AllMoved(slot[..], live, part);
      slot, slotSize, power := newSlot, slotSize * 2, power + 1;
    }

    /** The inner loop of skynet_handle_register: how many slots are taken, from the next handle on. */
    method FindFree() returns (d: nat)
      requires Valid()
      ensures d <= slotSize && forall j :: 0 <= j < d ==> Taken(slot[..], handleIndex, j)
      ensures d < slotSize ==> !Taken(slot[..], handleIndex, d)
    {
      hide Placed, Sorted, Exp2, Taken;
      Positive(power);
      d := 0;
      while d < slotSize
        invariant d <= slotSize && forall j :: 0 <= j < d ==> Taken(slot[..], handleIndex, j)
      {
        LooksAt(slot[..], handleIndex, d, power);
        if slot[(d + handleIndex) % HANDLES % slotSize].None? {
          return;
        }
        d := d + 1;
      }
    }

    /** The outer loop of skynet_handle_register: looks for a free slot, in a larger table if there is
        none; fails, as the assertion there does, when the table cannot grow any more. */
    method MakeSlot() returns (ok: bool, d: nat)
      requires Valid()
      modifies this`slot, this`slotSize, this`power
      ensures Valid() && (slot == old(slot) || fresh(slot))
      ensures ok <==> |live| < HANDLES
      ensures ok ==> slotSize == NextSize(old(slot[..]))
      ensures ok ==> d < slotSize && !Taken(slot[..], handleIndex, d)
      ensures ok ==> forall j :: 0 <= j < d ==> Taken(slot[..], handleIndex, j)
    {
      hide Placed, Sorted, Meaning, Exp2, Taken;
      LiveFits(slot[..], slotSize, harbor, live);
      SizeFits(power);
      d := FindFree();
      while d == slotSize
        invariant Valid() && |live| <= slotSize <= HANDLES && (slot == old(slot) || fresh(slot))
        invariant d <= slotSize && (forall j :: 0 <= j < d ==> Taken(slot[..], handleIndex, j))
        invariant d < slotSize ==> !Taken(slot[..], handleIndex, d)
        invariant (slot == old(slot) && slotSize == old(slotSize) && slot[..] == old(slot[..]))
               || (slotSize == NextSize(old(slot[..])) && d < slotSize)
        decreases if |live| < slotSize then 0 else 1
      {
        Positive(power);
        AllSlots(slot[..], handleIndex);
        FullSlots(slot[..], slotSize, harbor, live);
        if slotSize * 2 - 1 > HANDLES - 1 {
          HalfOfHandles(power);
          return false, d;
        }
        BelowLimit(power);
        assert AllTaken(slot[..]);
        Double();
        SizeFits(power);
        d := FindFree();
        if d == slotSize {
          AllSlots(slot[..], handleIndex);
          FullSlots(slot[..], slotSize, harbor, live);
        }
      }
      NotTakenIsFree(slot[..], handleIndex, d, harbor, live);
      FreeIsNotFull(slot[..], handleIndex, d);
      return true, d;
    }

    /** skynet_handle_register, with the handle stored in the context at once. It fails only when all
        handles are in use. 'd' is the number of taken slots passed over. ZeroIsNext tells before the call
        whether the local part will be 0. */
    method Register(id: nat) returns (ok: bool, handle: nat, d: nat)
      requires Valid()
      modifies this, slot
      ensures Valid() && (slot == old(slot) || fresh(slot)) && name == old(name) && Names() == old(Names())
      ensures ok <==> old(|live|) < HANDLES
      ensures !ok ==> live == old(live) && handleIndex == old(handleIndex)
      ensures ok ==> handle !in old(live) && live == old(live)[handle := id] && handle / HANDLES == harbor
      ensures ok ==> handle % HANDLES == (old(handleIndex) + d) % HANDLES && handleIndex == handle % HANDLES + 1
      ensures ok ==> (handle % HANDLES == 0 <==> ZeroIsNext(old(slot[..]), old(handleIndex)))
      ensures ok && old(live) == map[] ==> d == 0
    {
      hide Placed, Sorted, Meaning, Exp2, Taken, ZeroIsNext;
      ghost var before := slot[..];
      ok, d := MakeSlot();
      if !ok {
        return false, 0, d;
      }
      Positive(power);
      FirstFree(before, slot[..], harbor, live, handleIndex, d, power);
      handle := TakeSlot(id, d);
    }

    /** The part of skynet_handle_register that takes a free slot. */
    method TakeSlot(id: nat, d: nat) returns (handle: nat)
      requires Valid() && d < slotSize && !Taken(slot[..], handleIndex, d)
      modifies this`live, this`handleIndex, slot
      ensures Valid() && handle !in old(live) && live == old(live)[handle := id] && handle / HANDLES == harbor
      ensures handle % HANDLES == (old(handleIndex) + d) % HANDLES && handleIndex == handle % HANDLES + 1
      ensures handle % HANDLES == 0 <==> old(handleIndex) + d == HANDLES
    {
      hide Placed, Sorted, Meaning, Exp2;
      Positive(power);
      SizeFits(power);
      var local := (d + handleIndex) % HANDLES;
      MaskKeepsSlot(d + handleIndex, power);
      assert slot[local % slotSize].None?;
      hide Taken;
      handle := harbor * HANDLES + local;
      HandleParts(harbor, local);
      Puts(slot[..], harbor, live, handle, id);
      ghost var was := slot[..];
      slot[local % slotSize] := Some(Context(handle, id));
      assert slot[..] == was[local % slotSize := Some(Context(handle, id))];
      live := live[handle := id];
      handleIndex := local + 1;
    }

    /** The only context comes and goes. */
    method ComeAndGo(id: nat)
      requires Valid() && State() == World(map[], map[]) && handleIndex < HANDLES
      modifies this, slot, name
      ensures Valid() && (slot == old(slot) || fresh(slot)) && (name == old(name) || fresh(name))
      ensures State() == World(map[], map[]) && handleIndex == old(handleIndex) + 1
    {
      hide Placed, Sorted, Meaning, Exp2, ZeroIsNext;
      var ok, handle, _ := Register(id);
      var _ := Retire(handle);
      assert live == map[] && Names() == map[];
    }

    /** The number 0 is the next one, and the first one. */
    method NamesZero(n: Name) returns (handle: nat, named: bool, found: nat)
      requires Valid() && State() == World(map[], map[]) && handleIndex == HANDLES && harbor == 0
      modifies this, slot, name
      ensures Valid() && handle == 0 && handle in live && named && n in Names() && Names()[n] == handle
      ensures found == 0
    {
      hide Valid, ZeroIsNext;
      var ok, zero, _ := Register(0);
      handle := zero;
      var full;
      named, full := NameHandle(handle, n);
      found := FindName(n);
    }

    /** The loop of skynet_handle_retire over the names: those of the handle go, the others close up. */
    method Compact(handle: nat)
      requires nameCount <= name.Length && Sorted(name[..nameCount])
      modifies this`nameCount, name
      ensures nameCount <= name.Length && name[..nameCount] == Without(old(name[..nameCount]), handle)
    {
      hide Sorted, Without;
      ghost var was := name[..nameCount];
      var n, j := nameCount, 0;
      WithoutNext(was, 0, handle);
      for i := 0 to n
        modifies name
        invariant j <= i && nameCount == n && name[..j] == Without(was[..i], handle)
        invariant forall m :: i <= m < n ==> name[m] == was[m]
      {
        WithoutNext(was, i, handle);
        if name[i].handle != handle {
          if i != j {
            name[j] := name[i];
          }
          j := j + 1;
        }
      }
      assert was[..n] == was;
      nameCount := j;
    }

    /** skynet_handle_retire: the context and the names of the handle go; false if it was not live. */
    method Retire(handle: nat) returns (ret: bool)
      requires Valid()
      modifies this`nameCount, this`live, slot, name
      ensures Valid() && ret == (handle in old(live)) && live == old(live) - {handle}
      ensures Names() ==
        if ret then map n | n in old(Names()) && old(Names())[n] != handle :: old(Names())[n] else old(Names())
    {
      hide Placed, Sorted, Meaning, Exp2, Without;
      Positive(power);
      MaskKeepsSlot(handle, power);
      var hash := handle % slotSize;
      InSlot(slot[..], harbor, live, handle);
      if slot[hash].None? || slot[hash].value.handle != handle {
        return false;
      }
      TakesOut(slot[..], harbor, live, handle);
      ghost var was := slot[..];
      slot[hash] := None;
      assert slot[..] == was[hash := None];
      live := live - {handle};
      WithoutSorted(name[..nameCount], handle);
      WithoutMeans(name[..nameCount], handle);
      Compact(handle);
      return true;
    }

    /** The binary search of skynet_handle_findname and _insert_name: a name, or where it belongs. */
    method Search(n: Name) returns (found: bool, at: nat)
      requires nameCount <= name.Length && Sorted(name[..nameCount])
      ensures found ==> at < nameCount && n in Names() && Names()[n] == name[at].handle
      ensures !found ==> n !in Names() && Bracketed(name[..nameCount], n, at, at - 1)
    {
      ghost var s := name[..nameCount];
      var begin, end := 0, nameCount - 1;
      while begin <= end
        invariant Bracketed(s, n, begin, end)
        decreases end - begin
      {
        var mid := (begin + end) / 2;
        var c := Compare(name[mid].name, n);
        Narrows(s, n, begin, end, mid);
        if c == 0 {
          There(s, n, mid);
          return true, mid;
        }
        if c < 0 {
          begin := mid + 1;
        } else {
          end := mid - 1;
        }
      }
      NotThere(s, n, begin, end);
      return false, begin;
    }

    /** skynet_handle_findname: 0 for a name that is not known. */
    method FindName(n: Name) returns (handle: nat)
      requires Valid()
      ensures handle == if n in Names() then Names()[n] else 0
    {
      var found, at := Search(n);
      return if found then name[at].handle else 0;
    }

    /** The names in a larger array, with a gap. */
    method CopyApart(before: nat) returns (n: array<Entry>)
      requires nameCount == nameCap == name.Length && nameCap > 0 && before <= nameCount
      ensures fresh(n) && n.Length == nameCap * 2
      ensures forall k :: 0 <= k < before ==> n[k] == name[k]
      ensures forall k :: before < k <= nameCount ==> n[k] == name[k - 1]
    {
      n := new Entry[nameCap * 2](_ => Entry([], 0));
      for i := 0 to before
        invariant forall k :: 0 <= k < i ==> n[k] == name[k]
      {
        n[i] := name[i];
      }
      for i := before to nameCount
        invariant forall k :: 0 <= k < before ==> n[k] == name[k]
        invariant forall k :: before < k <= i ==> n[k] == name[k - 1]
      {
        n[i + 1] := name[i];
      }
    }

    /** The names behind a place move up by one. */
    method MoveUp(before: nat)
      requires before <= nameCount < name.Length
      modifies name
      ensures forall k :: 0 <= k < before ==> name[k] == old(name[k])
      ensures forall k :: before < k <= nameCount ==> name[k] == old(name[k - 1])
    {
      ghost var s := name[..];
      var i := nameCount;
      while i > before
        invariant before <= i <= nameCount
        invariant forall k :: 0 <= k <= i && k < nameCount ==> name[k] == s[k]
        invariant forall k :: i < k <= nameCount ==> name[k] == s[k - 1]
      {
        name[i] := name[i - 1];
        i := i - 1;
      }
    }

    /** _insert_name_before, in a larger array or in place. It fails when the array cannot be doubled any more:
        there the capacity would not fit an int, which the assertion is to rule out. */
    method InsertBefore(e: Entry, before: nat) returns (ok: bool)
      requires nameCount <= nameCap == name.Length == Exp2(namePower) && 1 <= namePower <= 30 && before <= nameCount
      modifies this`name, this`nameCap, this`nameCount, this`namePower, name
      ensures nameCount <= nameCap == name.Length == Exp2(namePower) && 1 <= namePower <= 30
      ensures nameCap >= old(nameCap) && (name == old(name) || fresh(name))
      ensures ok <==> old(nameCount) < MAX_SLOT_SIZE
      ensures ok ==> name[..nameCount] == old(name[..before]) + [e] + old(name[before..nameCount])
      ensures !ok ==> nameCount == old(nameCount) && name[..nameCount] == old(name[..nameCount])
    {
      hide Exp2;
      CapFits(namePower);
      ghost var s := name[..nameCount];
      if nameCount >= nameCap {
        if nameCap * 2 > MAX_SLOT_SIZE {
          return false;
        }
        name := CopyApart(before);
        nameCap, namePower := nameCap * 2, namePower + 1;
      } else {
        MoveUp(before);
      }
      name[before] := e;
      nameCount := nameCount + 1;
      InPlace(s, e, before, name[..nameCount]);
      return true;
    }

    /** skynet_handle_namehandle: gives the handle a name, unless the name is taken; 'full' if there are so many
        names that the array cannot grow. */
    method NameHandle(handle: nat, n: Name) returns (ok: bool, full: bool)
      requires Valid()
      modifies this`name, this`nameCap, this`nameCount, this`namePower, name
      ensures Valid() && (name == old(name) || fresh(name))
      ensures full <==> n !in old(Names()) && old(|Names()|) >= MAX_SLOT_SIZE
      ensures ok <==> n !in old(Names()) && !full
      ensures Names() == if ok then old(Names())[n := handle] else old(Names())
    {
      hide Exp2, Placed, Sorted, Meaning, Compare;
      var found, at := Search(n);
      MeaningSize(name[..nameCount]);
      if found {
        return false, false;
      }
      Inserts(name[..nameCount], Entry(n, handle), at);
      assert name[..nameCount][at..] == name[at..nameCount] && name[..nameCount][..at] == name[..at];
      ok := InsertBefore(Entry(n, handle), at);
      full := !ok;
    }

    /** One request; entering fails when all handles are in use, and naming when there are too many names. */
    method Happen(r: Request) returns (ok: bool, answer: nat)
      requires Valid()
      modifies this, slot, name
      ensures Valid() && (slot == old(slot) || fresh(slot)) && (name == old(name) || fresh(name))
      ensures !ok ==> State() == old(State())
      ensures !ok <==>
        || (r.Enter? && old(|live|) >= HANDLES)
        || (r.Call? && r.n !in old(Names()) && old(|Names()|) >= MAX_SLOT_SIZE)
      ensures ok ==> State() == After(old(State()), r, answer)
      ensures ok && r.Enter? ==> answer !in old(State()).live && answer / HANDLES == harbor
    {
      hide Placed, Sorted, Meaning, Exp2;
      ok, answer := true, 0;
      match r {
        case Enter(id) => var d; ok, answer, d := Register(id);
        case Leave(handle) => var _ := Retire(handle);
        case Call(handle, n) => 
          var _, full := NameHandle(handle, n);
          ok := !full;
      }
    }
  }

  /** Any requests in any order, up to the first one that finds all handles or all room for names in use: what
      is live and named afterwards is what the requests ask for, and every handle given out was new. */
  method Run(harbor: nat, rs: seq<Request>) returns (h: Handles, answers: seq<nat>)
    requires harbor < 0x100
    ensures h.Valid() && |answers| <= |rs| && (|answers| < |rs| ==> |h.live| >= HANDLES || |h.Names()| >= MAX_SLOT_SIZE)
    ensures NewHandles(rs[..|answers|], answers, harbor)
    ensures h.State() == AfterAll(rs[..|answers|], answers)
  {
    h := new Handles(harbor);
    answers := [];
    hide Handles.Valid, Handles.State, After, AfterAll, NewHandles;
    NothingYet(harbor);
    for i := 0 to |rs|
      invariant h.Valid() && fresh(h) && fresh(h.slot) && fresh(h.name) && h.harbor == harbor
      invariant |answers| == i && NewHandles(rs[..i], answers, harbor)
      invariant h.State() == AfterAll(rs[..i], answers)
    {
      var ok, answer := h.Happen(rs[i]);
      if !ok {
        return;
      }
      OneMore(rs[..i], answers, rs[i], answer, harbor);
      assert rs[..i + 1] == rs[..i] + [rs[i]];
      answers := answers + [answer];
    }
    assert rs[..|rs|] == rs;
  }

  /** 2^24 - 1 times a context comes and goes, then one more comes: its handle is 0 if the harbor is. A name
      given to it is taken, and yet it is looked up like a name that nobody has. */
  method NumbersStartAgain(n: Name) returns (h: Handles, handle: nat, named: bool, found: nat)
    ensures h.Valid() && handle == 0 && handle in h.live && named && n in h.Names() && h.Names()[n] == handle
    ensures found == 0
  {
    h := new Handles(0);
    hide Handles.Valid, Handles.State;
    for k := 1 to HANDLES
      invariant h.Valid() && fresh(h) && fresh(h.slot) && fresh(h.name) && h.harbor == 0
      invariant h.State() == World(map[], map[]) && h.handleIndex == k
    {
      h.ComeAndGo(k);
    }
    handle, named, found := h.NamesZero(n);
  }

  lemma CapFits(k: nat)
    requires 1 <= k <= 30
    ensures 2 <= Exp2(k) <= MAX_SLOT_SIZE && Exp2(k + 1) == 2 * Exp2(k)
    ensures 2 * Exp2(k) <= MAX_SLOT_SIZE <==> k < 30
    ensures Exp2(k) == MAX_SLOT_SIZE <==> k == 30
  {
    Exp2HANDLES();
    Exp2Add(24, 6);
    assert Exp2(6) == 64;
    Exp2Grows(k, 30);
    Exp2Grows(1, k);
    if k < 30 {
      Exp2Grows(k + 1, 30);
    }
  }

  lemma {:induction false} Exp2Grows(j: nat, k: nat)
    requires j <= k
    ensures Exp2(j) <= Exp2(k)
    decreases k
  {
    if j < k {
      Exp2Grows(j, k - 1);
    }
  }

  lemma InSlot(slot: seq<Option<Context>>, harbor: nat, live: map<nat, nat>, handle: nat)
    requires Placed(slot, harbor, live) && |slot| > 0
    ensures handle in live <==>
      slot[handle % HANDLES % |slot|].Some? && slot[handle % HANDLES % |slot|].value.handle == handle
  {
  }

  predicate Taken(slot: seq<Option<Context>>, start: nat, j: int)
    requires |slot| > 0 && j >= 0
  {
    slot[(start + j) % |slot|].Some?
  }

  predicate AllTaken(slot: seq<Option<Context>>) {
    forall i :: 0 <= i < |slot| ==> slot[i].Some?
  }

  /** The size of the table in which the next handle is looked for. */
  function NextSize(slot: seq<Option<Context>>): nat {
    if AllTaken(slot) then |slot| * 2 else |slot|
  }

  /** Some context belongs in slot 'p' of a table of this size. */
  predicate Occupied(slot: seq<Option<Context>>, size: nat, p: nat)
    requires size > 0
  {
    exists i :: 0 <= i < |slot| && slot[i].Some? && slot[i].value.handle % size == p
  }

  /** From the number 'index' on, the numbers up to 2^24 - 1 all belong in occupied slots, they do not go once
      around the table, and the slot of number 0 is not occupied. */
  predicate ZeroIsNext(slot: seq<Option<Context>>, index: nat) {
    && |slot| > 0 && index <= HANDLES
    && HANDLES - index < NextSize(slot) && !Occupied(slot, NextSize(slot), 0)
    && forall j :: 0 <= j < HANDLES - index ==> TakenThen(slot, NextSize(slot), index, j)
  }

  predicate TakenThen(slot: seq<Option<Context>>, size: nat, index: nat, j: nat)
    requires size > 0
  {
    Occupied(slot, size, (index + j) % size)
  }

  /** The same contexts in a table and in a possibly larger one. */
  lemma TakenIsOccupied(before: seq<Option<Context>>, now: seq<Option<Context>>, harbor: nat, live: map<nat, nat>,
        index: nat, j: nat, k: nat)
    requires Placed(before, harbor, live) && Placed(now, harbor, live) && k <= 24 && |now| == Exp2(k) && |now| > 0
    ensures Taken(now, index, j) <==> Occupied(before, |now|, (index + j) % |now|)
  {
    var p := (index + j) % |now|;
    if Taken(now, index, j) {
      var h := now[p].value.handle;
      MaskKeepsSlot(h, k);
      assert before[h % HANDLES % |before|].value.handle % |now| == p;
    }
    if Occupied(before, |now|, p) {
      var i :| 0 <= i < |before| && before[i].Some? && before[i].value.handle % |now| == p;
      MaskKeepsSlot(before[i].value.handle, k);
    }
  }

  /** The first free slot is that of number 0 exactly if ZeroIsNext says so. */
  lemma FirstFree(before: seq<Option<Context>>, now: seq<Option<Context>>, harbor: nat, live: map<nat, nat>,
        index: nat, d: nat, k: nat)
    requires Placed(before, harbor, live) && Placed(now, harbor, live) && k <= 24 && |before| > 0
    requires |now| == Exp2(k) == NextSize(before) && 1 <= index <= HANDLES
    requires d < |now| && !Taken(now, index, d) && forall j :: 0 <= j < d ==> Taken(now, index, j)
    ensures index + d == HANDLES <==> ZeroIsNext(before, index)
    ensures live == map[] ==> d == 0
  {
    hide Placed, Exp2, AllTaken, NextSize;
    var size := |now|;
    forall j: nat ensures Taken(now, index, j) <==> TakenThen(before, size, index, j) {
      TakenIsOccupied(before, now, harbor, live, index, j, k);
    }
    ZeroSlot(k);
    assert TakenThen(before, size, index, HANDLES - index) <==> Occupied(before, size, 0);
    if live == map[] {
      NobodyThere(now, harbor, index);
    }
    hide Taken, Occupied, TakenThen;
  }

  lemma ZeroSlot(k: nat)
    requires k <= 24
    ensures Exp2(k) > 0 && HANDLES % Exp2(k) == 0
  {
    hide Exp2;
    MaskKeepsSlot(HANDLES, k);
    assert HANDLES % HANDLES == 0;
    assert 0 % Exp2(k) == 0;
  }

  lemma NobodyThere(now: seq<Option<Context>>, harbor: nat, index: nat)
    requires Placed(now, harbor, map[]) && |now| > 0
    ensures !Taken(now, index, 0)
  {
  }

  lemma FreeIsNotFull(slot: seq<Option<Context>>, start: nat, j: nat)
    requires |slot| > 0 && !Taken(slot, start, j)
    ensures NextSize(slot) == |slot|
  {
  }

  /** The slot looked at under the mask of 24 bits. */
  lemma LooksAt(slot: seq<Option<Context>>, start: nat, j: nat, k: nat)
    requires k <= 24 && |slot| == Exp2(k) && |slot| > 0
    ensures 0 <= (j + start) % HANDLES % |slot| < |slot|
    ensures slot[(j + start) % HANDLES % |slot|].Some? <==> Taken(slot, start, j)
  {
    MaskKeepsSlot(j + start, k);
  }

  lemma HandleParts(harbor: nat, local: nat)
    requires local < HANDLES
    ensures (harbor * HANDLES + local) / HANDLES == harbor && (harbor * HANDLES + local) % HANDLES == local
  {
  }

  lemma SizeFits(k: nat)
    requires k <= 24
    ensures Exp2(k) <= HANDLES
  {
    Exp2HANDLES();
    Exp2Add(24 - k, k);
    Positive(24 - k);
    Positive(k);
    AtLeast(Exp2(24 - k), Exp2(k));
  }

  /** A table that must not grow has all the slots there can be. */
  lemma HalfOfHandles(k: nat)
    requires k <= 24 && Exp2(k) * 2 > HANDLES
    ensures Exp2(k) == HANDLES
  {
    Exp2HANDLES();
    if k < 24 {
      SizeFits(k + 1);
    }
  }

  /** With a free slot there are fewer live handles than slots. */
  lemma {:induction false} FreeMeansFewer(slot: seq<Option<Context>>, n: nat, i: nat, harbor: nat, live: map<nat, nat>)
    requires Placed(slot, harbor, live) && i < n <= |slot| && slot[i].None?
    requires forall k :: n <= k < |slot| ==> slot[k].None?
    ensures |live| < n
    decreases n
  {
    hide *;
    if n - 1 == i {
      LiveFits(slot, n - 1, harbor, live);
    } else if slot[n - 1].None? {
      FreeMeansFewer(slot, n - 1, i, harbor, live);
    } else {
      TakesLast(slot, n, harbor, live);
      FreeMeansFewer(slot[n - 1 := None], n - 1, i, harbor, live - {slot[n - 1].value.handle});
    }
  }

  lemma NotTakenIsFree(slot: seq<Option<Context>>, start: nat, j: nat, harbor: nat, live: map<nat, nat>)
    requires |slot| > 0 && Placed(slot, harbor, live) && !Taken(slot, start, j)
    ensures |live| < |slot|
  {
    FreeMeansFewer(slot, |slot|, (start + j) % |slot|, harbor, live);
  }

  lemma BelowLimit(k: nat)
    requires k <= 24 && Exp2(k) < HANDLES
    ensures k < 24
  {
    Exp2HANDLES();
  }

  /** Going once around the table meets every slot. */
  lemma AllSlots(slot: seq<Option<Context>>, start: nat)
    requires |slot| > 0 && forall j :: 0 <= j < |slot| ==> Taken(slot, start, j)
    ensures forall i :: 0 <= i < |slot| ==> slot[i].Some?
  {
    forall i | 0 <= i < |slot| ensures slot[i].Some? {
      var n := |slot|;
      var r := start % n;
      var j := if i >= r then i - r else i - r + n;
      assert start == start / n * n + r;
      if i >= r {
        ModUnique(start + j, start / n, n, i);
      } else {
        assert (start / n + 1) * n == start / n * n + n;
        ModUnique(start + j, start / n + 1, n, i);
      }
      assert Taken(slot, start, j);
    }
  }
}
