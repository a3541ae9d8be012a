/** The timer: adding, shifting and dispatching on the wheel, against a list of what is due. */
module TimerQueue {
  import opened TimerWheel

  datatype Node = Node(expire: nat, handle: nat, session: int)

  /** A timer that has not fired yet and the tick at which it must. */
  datatype Item = Item(node: Node, due: nat)

  /** The nodes of a list with a given expiry value, in order. */
  function Expiring(list: seq<Node>, e: nat): seq<Node> {
    if list == [] then []
    else if list[0].expire == e then [list[0]] + Expiring(list[1..], e) else Expiring(list[1..], e)
  }

  function Nodes(items: seq<Item>): seq<Node> {
    if items == [] then [] else [items[0].node] + Nodes(items[1..])
  }

  /** What must fire at a tick, in the order added. */
  function DueAt(items: seq<Item>, tick: nat): seq<Node> {
    if items == [] then []
    else if items[0].due == tick then [items[0].node] + DueAt(items[1..], tick) else DueAt(items[1..], tick)
  }

  function NotDueAt(items: seq<Item>, tick: nat): seq<Item> {
    if items == [] then []
    else if items[0].due == tick then NotDueAt(items[1..], tick) else [items[0]] + NotDueAt(items[1..], tick)
  }

  /** A request to other threads' 'timer_add'. */
  datatype Request = Request(delay: nat, handle: nat, session: int)

  predicate ValidRequest(r: Request) {
    1 <= r.delay <= MAX_DELAY
  }

  function NewItem(r: Request, ticks: nat): Item {
    Item(Node((r.delay + ticks) % WRAP, r.handle, r.session), ticks + r.delay)
  }

  function NewItems(rs: seq<Request>, ticks: nat): seq<Item> {
    if rs == [] then [] else [NewItem(rs[0], ticks)] + NewItems(rs[1..], ticks)
  }

  lemma {:induction false} ExpiringAppend(a: seq<Node>, b: seq<Node>, e: nat)
    ensures Expiring(a + b, e) == Expiring(a, e) + Expiring(b, e)
    decreases |a|
  {
    if a == [] {
      assert a + b == b;
    } else {
      ExpiringAppend(a[1..], b, e);
      assert (a + b)[1..] == a[1..] + b;
    }
  }

  lemma {:induction false} NodesAppend(a: seq<Item>, b: seq<Item>)
    ensures Nodes(a + b) == Nodes(a) + Nodes(b)
    decreases |a|
  {
    if a == [] {
      assert a + b == b;
    } else {
      NodesAppend(a[1..], b);
      assert (a + b)[1..] == a[1..] + b;
    }
  }

  /** A list in which only one expiry value occurs. */
  lemma {:induction false} OnlyExpiring(list: seq<Node>, e: nat)
    requires forall other: nat :: other != e ==> Expiring(list, other) == []
    ensures Expiring(list, e) == list
    decreases |list|
  {
    if list != [] {
      var first := list[0].expire;
      assert list[0] in Expiring(list, first);
      forall other: nat | other != e
        ensures Expiring(list[1..], other) == []
      {
        assert Expiring(list, other) == [];
      }
      OnlyExpiring(list[1..], e);
    }
  }

  /** Every timer is to fire at tick 'from' or later, but not beyond the longest delay, and
      its expiry value is its tick, wrapped. */
  predicate Window(items: seq<Item>, from: nat, ticks: nat) {
    forall k :: 0 <= k < |items| ==>
      from <= items[k].due <= ticks + MAX_DELAY && items[k].node.expire == items[k].due % WRAP
  }

  lemma WrapUnique(a: nat, b: nat)
    requires a <= b <= a + MAX_DELAY
    ensures a % WRAP == b % WRAP <==> a == b
  {
  }

  /** Within the window, expiring now in 32 bits is being due now. */
  lemma {:induction false} DueIsExpiring(items: seq<Item>, from: nat, ticks: nat)
    requires Window(items, from, ticks) && from >= ticks
    ensures DueAt(items, ticks) == Expiring(Nodes(items), ticks % WRAP)
    ensures Expiring(Nodes(NotDueAt(items, ticks)), ticks % WRAP) == []
    decreases |items|
  {
    if items != [] {
      WrapUnique(ticks, items[0].due);
      DueIsExpiring(items[1..], from, ticks);
      NodesAppend([items[0]], NotDueAt(items[1..], ticks));
    }
  }

  lemma {:induction false} OthersStay(items: seq<Item>, from: nat, ticks: nat, e: nat)
    requires Window(items, from, ticks) && e != ticks % WRAP
    ensures Expiring(Nodes(NotDueAt(items, ticks)), e) == Expiring(Nodes(items), e)
    decreases |items|
  {
    if items != [] {
      OthersStay(items[1..], from, ticks, e);
      NodesAppend([items[0]], NotDueAt(items[1..], ticks));
    }
  }

  /** Only expiry values inside the window occur. */
  lemma {:induction false} InsideWindow(items: seq<Item>, from: nat, ticks: nat, e: nat)
    requires Window(items, from, ticks) && from >= ticks && Expiring(Nodes(items), e) != []
    ensures e < WRAP && (e - from) % WRAP <= MAX_DELAY
    decreases |items|
  {
    if items[0].node.expire == e {
      WrapDistance(items[0].due, from);
    } else {
      InsideWindow(items[1..], from, ticks, e);
    }
  }

  lemma WrapDistance(due: nat, from: nat)
    requires from <= due <= from + MAX_DELAY
    ensures (due % WRAP - from) % WRAP == due - from
  {
  }

  lemma {:induction false} NotDueWindow(items: seq<Item>, ticks: nat)
    requires Window(items, ticks, ticks)
    ensures Window(NotDueAt(items, ticks), ticks + 1, ticks)
    decreases |items|
  {
    if items != [] {
      NotDueWindow(items[1..], ticks);
      var rest := NotDueAt(items[1..], ticks);
      assert forall k :: 0 <= k < |items[1..]| ==> items[1..][k] == items[k + 1];
    }
  }

  lemma {:induction false} MemberExpires(list: seq<Node>, k: nat)
    requires k < |list|
    ensures Expiring(list, list[k].expire) != []
    decreases |list|
  {
    if k > 0 {
      MemberExpires(list[1..], k - 1);
    }
  }

  lemma {:induction false} NoneDueYet(items: seq<Item>, ticks: nat)
    requires Window(items, ticks + 1, ticks)
    ensures DueAt(items, ticks) == []
    decreases |items|
  {
    if items != [] {
      NoneDueYet(items[1..], ticks);
    }
  }

  lemma {:induction false} NoneDue(items: seq<Item>, tick: nat)
    requires DueAt(items, tick) == []
    ensures NotDueAt(items, tick) == items
    decreases |items|
  {
    if items != [] {
      NoneDue(items[1..], tick);
    }
  }

  lemma {:induction false} NewItemsAppend(a: seq<Request>, b: seq<Request>, ticks: nat)
    ensures NewItems(a + b, ticks) == NewItems(a, ticks) + NewItems(b, ticks)
    decreases |a|
  {
    if a == [] {
      assert a + b == b;
    } else {
      NewItemsAppend(a[1..], b, ticks);
      assert (a + b)[1..] == a[1..] + b;
      hide NewItem;
      var x, y, z := [NewItem(a[0], ticks)], NewItems(a[1..], ticks), NewItems(b, ticks);
      assert x + (y + z) == (x + y) + z;
    }
  }

  /** A time with zero low digits has a digit at this level, or goes on to the next one. */
  lemma TopDigit(ct: nat, i: nat)
    requires 0 < ct < WRAP && i <= 3 && ct % Unit(i) == 0 && ct / Unit(i) % 64 == 0
    ensures i < 3 && Unit(i + 1) == Unit(i) * 64 && ct / Unit(i) / 64 == ct / Unit(i + 1)
  {
    Digits(ct);
  }

  lemma WrapAdd(a: nat, b: nat)
    ensures (a + b % WRAP) % WRAP == (a + b) % WRAP
  {
  }

  lemma WrapNext(ticks: nat)
    ensures (ticks % WRAP + 1) % WRAP == (ticks + 1) % WRAP
  {
  }

  lemma TicksDistance(e: nat, was: nat, now: nat, ticks: nat)
    requires was < WRAP && now == (was + 1) % WRAP && now == ticks % WRAP && (e - ticks) % WRAP <= MAX_DELAY
    ensures (e - (was + 1)) % WRAP <= MAX_DELAY
  {
  }

  class Timer {
    var near: array<seq<Node>>
    var t: array2<seq<Node>>
    var time: nat

    /** The ticks so far, unwrapped, and the timers still to fire, in the order added. */
    ghost var ticks: nat
    ghost var pending: seq<Item>

    ghost predicate Shape()
      reads this`near, this`t, this`time, this`ticks
    {
      near.Length == TIME_NEAR && t.Length0 == 4 && t.Length1 == TIME_LEVEL && time == ticks % WRAP
    }

    ghost predicate ValidPlace(p: Place) {
      match p
      case Near(k) => k < TIME_NEAR
      case Far(level, idx) => level < 4 && idx < TIME_LEVEL
    }

    ghost function List(p: Place): seq<Node>
      reads this`near, this`t, this`time, this`ticks, near, t
      requires Shape() && ValidPlace(p)
    {
      match p
      case Near(k) => near[k]
      case Far(level, idx) => t[level, idx]
    }

    /** Every list holds exactly the pending timers that 'add_node' would put there at time 'now', and
        those with the same expiry value in the order they were added. */
    ghost predicate Placed(now: nat)
      reads this, near, t
      requires Shape()
    {
      forall p, e: nat {:trigger Expiring(List(p), e)} :: ValidPlace(p) ==>
        Expiring(List(p), e) == if PlaceOf(e, now) == p then Expiring(Nodes(pending), e) else []
    }

    /** Between two updates: timers fire at 'from' or later. */
    ghost predicate ValidFrom(from: nat)
      reads this, near, t
    {
      Shape() && Placed(time) && Window(pending, from, ticks)
    }

    ghost predicate Valid()
      reads this, near, t
    {
      ValidFrom(ticks + 1)
    }

    /** 'link' on the list at 'p'. */
    method Link(p: Place, node: Node)
      requires Shape() && ValidPlace(p)
      modifies near, t
      ensures List(p) == old(List(p)) + [node]
      ensures forall q :: ValidPlace(q) && q != p ==> List(q) == old(List(q))
    {
      match p {
        case Near(k) => near[k] := near[k] + [node];
        case Far(level, idx) => t[level, idx] := t[level, idx] + [node];
      }
    }

    /** 'link_clear' on the list at 'p'. */
    method LinkClear(p: Place) returns (list: seq<Node>)
      requires Shape() && ValidPlace(p)
      modifies near, t
      ensures list == old(List(p)) && List(p) == []
      ensures forall q :: ValidPlace(q) && q != p ==> List(q) == old(List(q))
    {
      match p {
        case Near(k) =>
          list := near[k];
          near[k] := [];
        case Far(level, idx) =>
          list := t[level, idx];
          t[level, idx] := [];
      }
    }

    /** 'add_node': near if only the low eight bits differ from the time, else the first level
        below which all differences lie; the level index never passes 3. */
    method AddNode(node: Node)
      requires Shape() && node.expire < WRAP
      modifies near, t
      ensures var p := PlaceOf(node.expire, time);
              && ValidPlace(p)
              && List(p) == old(List(p)) + [node]
              && forall q :: ValidPlace(q) && q != p ==> List(q) == old(List(q))
    {
      var e := node.expire;
      PlaceInRange(e, time);
      SameBlock(e, time, TIME_NEAR);
      if OrLow(e, TIME_NEAR) == OrLow(time, TIME_NEAR) {
        Link(Near(e % TIME_NEAR), node);
      } else {
        var mask, unit, i := TIME_NEAR * TIME_LEVEL, TIME_NEAR, 0;
        while i < 3
          modifies {}
          invariant i <= 3
          invariant i == 0 ==> mask == 0x4000 && unit == 0x100
          invariant i == 1 ==> mask == 0x10_0000 && unit == 0x4000 && e / 0x4000 != time / 0x4000
          invariant i == 2 ==> mask == 0x400_0000 && unit == 0x10_0000
          invariant i == 2 ==> e / 0x4000 != time / 0x4000 && e / 0x10_0000 != time / 0x10_0000
          invariant i == 3 ==> unit == 0x400_0000 && PlaceOf(e, time) == Far(3, (e / 0x400_0000) % 64)
        {
          SameBlock(e, time, mask);
          if OrLow(e, mask) == OrLow(time, mask) {
            assert PlaceOf(e, time) == Far(i, e / unit % TIME_LEVEL);
            break;
          }
          mask, unit, i := mask * TIME_LEVEL, mask, i + 1;
        }
        assert PlaceOf(e, time) == Far(i, e / unit % TIME_LEVEL);
        Link(Far(i, e / unit % TIME_LEVEL), node);
      }
    }

    constructor ()
      ensures Valid() && fresh(near) && fresh(t) && ticks == 0 && pending == []
    {
      near := new seq<Node>[TIME_NEAR](_ => []);
      t := new seq<Node>[4, TIME_LEVEL]((_, _) => []);
      time, ticks, pending := 0, 0, [];
    }

    /** 'timer_add': a timer with a positive delay. */
    method TimerAdd(r: Request)
      requires Valid() && ValidRequest(r)
      modifies near, t, this`pending
      ensures Valid() && pending == old(pending) + [NewItem(r, ticks)]
      ensures var last := pending[|pending| - 1];
        && last.due == ticks + r.delay && last.node.expire == (ticks + r.delay) % WRAP
        && last.node.handle == r.handle && last.node.session == r.session
    {
      hide PlaceOf;
      WrapAdd(r.delay, ticks);
      var node := Node((r.delay + time) % WRAP, r.handle, r.session);
      ghost var item := NewItem(r, ticks);
      AddNode(node);
      ghost var was := pending;
      pending := pending + [item];
      NodesAppend(was, [item]);
      assert Nodes([item]) == [node];
      forall p, e: nat | ValidPlace(p)
        ensures Expiring(List(p), e) == if PlaceOf(e, time) == p then Expiring(Nodes(pending), e) else []
      {
        assert Expiring(old(List(p)), e) == if PlaceOf(e, time) == p then Expiring(Nodes(was), e) else [];
        ExpiringAppend(Nodes(was), [node], e);
        ExpiringAppend(old(List(p)), [node], e);
        assert Expiring([node], e) == if node.expire == e then [node] else [];
      }
    }

    /** What a list holds for expiry value 'e' when 'done' of the timers in slot 'src' have
        been moved; 'was' is the time before. */
    ghost function PartlyMoved(src: Place, was: nat, done: seq<Node>, p: Place, e: nat): seq<Node>
      reads this
    {
      if PlaceOf(e, time) != p then []
      else if PlaceOf(e, was) == src then Expiring(done, e)
      else Expiring(Nodes(pending), e)
    }

    /** 'move_list': put the timers of one slot where they belong now. */
    method MoveList(level: nat, idx: nat, ghost was: nat)
      requires Shape() && level < 4 && idx < TIME_LEVEL
      requires was < WRAP && time == (was + 1) % WRAP && MovedAt(time) == Slot(Far(level, idx))
      requires Placed(was) && Window(pending, ticks, ticks)
      modifies near, t
      ensures Placed(time)
    {
      hide PlaceOf, MovedAt;
      var src := Far(level, idx);
      var list := LinkClear(src);
      forall p, e: nat | ValidPlace(p)
        ensures Expiring(List(p), e) == PartlyMoved(src, was, [], p, e)
      {
        assert Expiring(old(List(p)), e) == if PlaceOf(e, was) == p then Expiring(Nodes(pending), e) else [];
        if Expiring(Nodes(pending), e) != [] {
          InsideWindow(pending, ticks, ticks, e);
          TicksDistance(e, was, time, ticks);
          PlacesMove(e, was);
        }
      }
      var k := 0;
      while k < |list|
        modifies near, t
        invariant k <= |list| && Shape()
        invariant forall p, e: nat {:trigger Expiring(List(p), e)} :: ValidPlace(p) ==>
                    Expiring(List(p), e) == PartlyMoved(src, was, list[..k], p, e)
      {
        ghost var done, node := list[..k], list[k];
        MemberExpires(list, k);
        assert Expiring(old(List(src)), node.expire) != [];
        assert PlaceOf(node.expire, was) == src;
        InsideWindow(pending, ticks, ticks, node.expire);
        label Before:
        AddNode(list[k]);
        k := k + 1;
        assert list[..k] == done + [node];
        forall p, e: nat | ValidPlace(p)
          ensures Expiring(List(p), e) == PartlyMoved(src, was, list[..k], p, e)
        {
          assert Expiring(old@Before(List(p)), e) == PartlyMoved(src, was, done, p, e);
          ExpiringAppend(done, [node], e);
          ExpiringAppend(old@Before(List(p)), [node], e);
        }
      }
      assert list[..k] == list;
      forall p, e: nat | ValidPlace(p)
        ensures Expiring(List(p), e) == if PlaceOf(e, time) == p then Expiring(Nodes(pending), e) else []
      {
        assert Expiring(List(p), e) == PartlyMoved(src, was, list, p, e);
        assert Expiring(old(List(src)), e) == if PlaceOf(e, was) == src then Expiring(Nodes(pending), e) else [];
      }
    }

    /** 'timer_shift': advance the time and redistribute the slot whose turn it is, if any. */
    method TimerShift()
      requires Valid()
      modifies this`time, this`ticks, near, t
      ensures ticks == old(ticks) + 1 && pending == old(pending)
      ensures ValidFrom(ticks)
    {
      ghost var was := time;
      WrapNext(ticks);
      time, ticks := (time + 1) % WRAP, ticks + 1;
      forall p, e: nat | ValidPlace(p)
        ensures Expiring(List(p), e) == if PlaceOf(e, was) == p then Expiring(Nodes(pending), e) else []
      {
        assert List(p) == old(List(p));
        assert old(Expiring(List(p), e)) == if PlaceOf(e, was) == p then Expiring(Nodes(pending), e) else [];
      }
      var ct := time;
      if ct == 0 {
        MoveList(3, 0, was);
        return;
      }
      var mask, units, i := TIME_NEAR, ct / TIME_NEAR, 0;
      Digits(ct);
      while ct % mask == 0
        modifies {}
        invariant i <= 3 && mask == Unit(i) && units == ct / Unit(i)
        invariant forall lower :: 0 <= lower < i ==> ct / Unit(lower) % 64 == 0
        invariant i > 0 ==> ct % Unit(i - 1) == 0
        decreases 3 - i
      {
        var idx := units % TIME_LEVEL;
        if idx != 0 {
          assert MovedAt(ct) == Slot(Far(i, idx));
          break;
        }
        TopDigit(ct, i);
        mask, units, i := mask * TIME_LEVEL, units / TIME_LEVEL, i + 1;
      }
      if ct % mask == 0 {
        MoveList(i, units % TIME_LEVEL, was);
      } else {
        NothingMoves(was);
      }
    }

    /** No slot is redistributed: every timer sits where it should already. */
    lemma NothingMoves(was: nat)
      requires Shape() && was < WRAP && time == (was + 1) % WRAP && MovedAt(time) == NoSlot
      requires Placed(was) && Window(pending, ticks, ticks)
      ensures Placed(time)
    {
      hide PlaceOf, MovedAt;
      forall p, e: nat | ValidPlace(p)
        ensures Expiring(List(p), e) == if PlaceOf(e, time) == p then Expiring(Nodes(pending), e) else []
      {
        assert Expiring(List(p), e) == if PlaceOf(e, was) == p then Expiring(Nodes(pending), e) else [];
        if Expiring(Nodes(pending), e) != [] {
          InsideWindow(pending, ticks, ticks, e);
          TicksDistance(e, was, time, ticks);
          PlacesMove(e, was);
        }
      }
    }

    /** The list dispatched next is what expires at this very time. */
    lemma ListForNow()
      requires Shape() && Placed(time)
      ensures near[time % TIME_NEAR] == Expiring(Nodes(pending), time)
    {
      var list := near[time % TIME_NEAR];
      assert list == List(Near(time % TIME_NEAR));
      forall other: nat | other != time
        ensures Expiring(list, other) == []
      {
        DueNow(other, time);
        assert Expiring(List(Near(time % TIME_NEAR)), other) == [];
      }
      OnlyExpiring(list, time);
      DueNow(time, time);
    }

    /** Between updates that list is empty. */
    lemma NothingForNow()
      requires Valid()
      ensures near[time % TIME_NEAR] == []
    {
      ListForNow();
      DueIsExpiring(pending, ticks + 1, ticks);
      NoneDueYet(pending, ticks);
    }

    /** 'timer_execute': take the list for this very time and dispatch it with the lock released,
        until the list is found empty. While the lock is released other threads may add timers
        ('others'), none of which gets into that list. */
    method TimerExecute(others: seq<Request>) returns (fired: seq<Node>)
      requires ValidFrom(ticks) && forall k :: 0 <= k < |others| ==> ValidRequest(others[k])
      modifies near, t, this`pending
      ensures Valid()
      ensures fired == DueAt(old(pending), ticks)
      ensures pending == NotDueAt(old(pending), ticks) + if fired == [] then [] else NewItems(others, ticks)
    {
      var idx := time % TIME_NEAR;
      ListForNow();
      DueIsExpiring(pending, ticks, ticks);
      NotDueWindow(pending, ticks);
      fired := [];
      while near[idx] != []
        modifies near, t, this`pending
        invariant
          if fired == [] then
            ValidFrom(ticks) && pending == old(pending) && near[idx] == DueAt(old(pending), ticks)
          else
            && Valid() && near[idx] == [] && fired == DueAt(old(pending), ticks)
            && pending == NotDueAt(old(pending), ticks) + NewItems(others, ticks)
        decreases |near[idx]|
      {
        var list := LinkClear(Near(idx));
        fired := fired + list;
        pending := NotDueAt(pending, ticks);
        forall p, e: nat | ValidPlace(p)
          ensures Expiring(List(p), e) == if PlaceOf(e, time) == p then Expiring(Nodes(pending), e) else []
        {
          DueNow(e, time);
          if e != time {
            OthersStay(old(pending), ticks, ticks, e);
          }
        }
        AddOthers(others);
        NothingForNow();
      }
      if fired == [] {
        NoneDue(pending, ticks);
      }
    }

    /** Timers added by other threads. */
    method AddOthers(others: seq<Request>)
      requires Valid() && forall k :: 0 <= k < |others| ==> ValidRequest(others[k])
      modifies near, t, this`pending
      ensures Valid() && pending == old(pending) + NewItems(others, ticks)
    {
      var k := 0;
      while k < |others|
        modifies near, t, this`pending
        invariant k <= |others| && Valid()
        invariant pending == old(pending) + NewItems(others[..k], ticks)
      {
        NewItemsAppend(others[..k], [others[k]], ticks);
        assert others[..k + 1] == others[..k] + [others[k]];
        TimerAdd(others[k]);
        k := k + 1;
      }
      assert others[..k] == others;
    }

    /** 'timer_update': one tick. The dispatch before the shift finds nothing. */
    method TimerUpdate(others: seq<Request>) returns (fired: seq<Node>)
      requires Valid() && forall k :: 0 <= k < |others| ==> ValidRequest(others[k])
      modifies near, t, this
      ensures Valid() && near == old(near) && t == old(t) && ticks == old(ticks) + 1
      ensures fired == DueAt(old(pending), ticks)
      ensures pending == NotDueAt(old(pending), ticks) + if fired == [] then [] else NewItems(others, ticks)
    {
      NoneDueYet(pending, ticks);
      NoneDue(pending, ticks);
      var none := TimerExecute(others);
      assert none == [] && pending == old(pending);
      TimerShift();
      fired := TimerExecute(others);
    }
  }
}
