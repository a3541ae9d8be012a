/** Whole runs of the timer: any sequence of requests and ticks. */
module TimerRuns {
  import opened TimerWheel
  import opened TimerQueue

  /** A request between ticks, or a tick and the requests made while its timers are dispatched. */
  datatype Event = Add(r: Request) | Tick(others: seq<Request>)

  datatype Run = Run(ticks: nat, pending: seq<Item>, fired: seq<seq<Node>>)

  predicate ValidEvent(ev: Event) {
    match ev
    case Add(r) => ValidRequest(r)
    case Tick(others) => forall k :: 0 <= k < |others| ==> ValidRequest(others[k])
  }

  function Next(run: Run, ev: Event): Run {
    match ev
    case Add(r) => run.(pending := run.pending + AddedBy(run, ev))
    case Tick(others) =>
      var tick := run.ticks + 1;
      Run(tick, NotDueAt(run.pending, tick) + AddedBy(run, ev), run.fired + [DueAt(run.pending, tick)])
  }

  /** The lock is released, and so requests come in, only when something is dispatched. */
  function Accepted(due: seq<Node>, others: seq<Request>, ticks: nat): seq<Item> {
    if due == [] then [] else NewItems(others, ticks)
  }

  /** The timers that an event adds. */
  function AddedBy(run: Run, ev: Event): seq<Item> {
    match ev
    case Add(r) => [NewItem(r, run.ticks)]
    case Tick(others) => Accepted(DueAt(run.pending, run.ticks + 1), others, run.ticks + 1)
  }

  function After(evs: seq<Event>): Run {
    if evs == [] then Run(0, [], []) else Next(After(evs[..|evs| - 1]), evs[|evs| - 1])
  }

  /** Every timer ever added, in order, with the tick at which it was added plus its delay. */
  function Added(evs: seq<Event>): seq<Item> {
    if evs == [] then []
    else Added(evs[..|evs| - 1]) + AddedBy(After(evs[..|evs| - 1]), evs[|evs| - 1])
  }

  function DueAfter(items: seq<Item>, tick: nat): seq<Item> {
    if items == [] then []
    else if items[0].due > tick then [items[0]] + DueAfter(items[1..], tick) else DueAfter(items[1..], tick)
  }

  lemma Associates<T>(x: seq<T>, y: seq<T>, z: seq<T>)
    ensures (x + y) + z == x + (y + z)
  {
  }

  lemma {:induction false} DueAppend(a: seq<Item>, b: seq<Item>, tick: nat)
    ensures DueAt(a + b, tick) == DueAt(a, tick) + DueAt(b, tick)
    ensures DueAfter(a + b, tick) == DueAfter(a, tick) + DueAfter(b, tick)
    decreases |a|
  {
    if a == [] {
      assert a + b == b;
    } else {
      DueAppend(a[1..], b, tick);
      assert (a + b)[1..] == a[1..] + b;
      Associates([a[0].node], DueAt(a[1..], tick), DueAt(b, tick));
      Associates([a[0]], DueAfter(a[1..], tick), DueAfter(b, tick));
    }
  }

  predicate AllAfter(items: seq<Item>, tick: nat) {
    forall k :: 0 <= k < |items| ==> items[k].due > tick
  }

  lemma {:induction false} LaterItems(items: seq<Item>, ticks: nat, tick: nat)
    requires AllAfter(items, ticks) && tick <= ticks
    ensures DueAt(items, tick) == [] && DueAfter(items, tick) == items
    decreases |items|
  {
    if items != [] {
      LaterItems(items[1..], ticks, tick);
    }
  }

  lemma {:induction false} NewItemsAreLater(rs: seq<Request>, ticks: nat)
    requires forall k :: 0 <= k < |rs| ==> ValidRequest(rs[k])
    ensures AllAfter(NewItems(rs, ticks), ticks)
    decreases |rs|
  {
    if rs != [] {
      NewItemsAreLater(rs[1..], ticks);
    }
  }

  /** A tick takes exactly the timers due out of those still to come. */
  lemma {:induction false} OneTick(items: seq<Item>, tick: nat)
    ensures DueAt(DueAfter(items, tick), tick + 1) == DueAt(items, tick + 1)
    ensures NotDueAt(DueAfter(items, tick), tick + 1) == DueAfter(items, tick + 1)
    decreases |items|
  {
    if items != [] {
      OneTick(items[1..], tick);
      if items[0].due > tick {
        assert ([items[0]] + DueAfter(items[1..], tick))[1..] == DueAfter(items[1..], tick);
      }
    }
  }

  lemma AddedAreLater(before: Run, ev: Event)
    requires ValidEvent(ev)
    ensures AllAfter(AddedBy(before, ev), Next(before, ev).ticks)
  {
    match ev
    case Add(r) =>
    case Tick(others) => NewItemsAreLater(others, before.ticks + 1);
  }

  /** Timers added later change nothing up to now. */
  lemma LaterChangesNothing(items: seq<Item>, added: seq<Item>, ticks: nat, n: nat)
    requires AllAfter(added, ticks) && n <= ticks
    ensures DueAt(items + added, n) == DueAt(items, n)
    ensures DueAfter(items + added, ticks) == DueAfter(items, ticks) + added
  {
    hide *;
    DueAppend(items, added, n);
    DueAppend(items, added, ticks);
    LaterItems(added, ticks, n);
    LaterItems(added, ticks, ticks);
    assert DueAt(items, n) + [] == DueAt(items, n);
  }

  ghost predicate OnTime(run: Run, items: seq<Item>) {
    && |run.fired| == run.ticks
    && (forall n :: 1 <= n <= run.ticks ==> run.fired[n - 1] == DueAt(items, n))
    && run.pending == DueAfter(items, run.ticks)
  }

  /** One more event. */
  lemma StaysOnTime(before: Run, items: seq<Item>, ev: Event)
    requires ValidEvent(ev) && OnTime(before, items)
    ensures OnTime(Next(before, ev), items + AddedBy(before, ev))
  {
    var run, added := Next(before, ev), AddedBy(before, ev);
    AddedAreLater(before, ev);
    OneTick(items, before.ticks);
    hide DueAt, DueAfter, NotDueAt, AllAfter, AddedBy;
    LaterChangesNothing(items, added, run.ticks, run.ticks);
    forall n | 1 <= n <= run.ticks ensures run.fired[n - 1] == DueAt(items + added, n) {
      LaterChangesNothing(items, added, run.ticks, n);
      if n <= before.ticks {
        assert run.fired[n - 1] == before.fired[n - 1];
      }
    }
  }

  /** In every run, tick 'n' fires exactly the timers whose delay ends at 'n', in the order in
      which they were added, and the others are still to come: every timer fires once, on time. */
  lemma {:induction false} FiresOnTime(evs: seq<Event>)
    requires forall k :: 0 <= k < |evs| ==> ValidEvent(evs[k])
    ensures var run := After(evs);
      && |run.fired| == run.ticks
      && (forall n :: 1 <= n <= run.ticks ==> run.fired[n - 1] == DueAt(Added(evs), n))
      && run.pending == DueAfter(Added(evs), run.ticks)
    decreases |evs|
  {
    if evs != [] {
      var before, ev := evs[..|evs| - 1], evs[|evs| - 1];
      FiresOnTime(before);
      StaysOnTime(After(before), Added(before), ev);
      hide DueAt, DueAfter, AddedBy, Next;
    }
  }

  // ----- told from the events alone -----

  function TicksIn(evs: seq<Event>): nat {
    if evs == [] then 0 else TicksIn(evs[..|evs| - 1]) + if evs[|evs| - 1].Tick? then 1 else 0
  }

  /** Of requests made at tick 'now', those whose delay ends at tick 'n', in order. */
  function EndingAt(rs: seq<Request>, now: nat, n: nat): seq<Request> {
    if rs == [] then []
    else if now + rs[0].delay == n then [rs[0]] + EndingAt(rs[1..], now, n) else EndingAt(rs[1..], now, n)
  }

  /** The requests whose delay ends at tick 'n', in order; those made during a tick count when it has something
      to dispatch. */
  function Requested(evs: seq<Event>, n: nat): seq<Request> {
    if evs == [] then []
    else
      var before, now := evs[..|evs| - 1], TicksIn(evs);
      Requested(before, n) + match evs[|evs| - 1]
                             case Add(r) => EndingAt([r], now, n)
                             case Tick(others) => if Requested(before, now) == [] then [] else EndingAt(others, now, n)
  }

  /** A batch with one node for each request, in order, with its handle and session. */
  predicate Answers(batch: seq<Node>, rs: seq<Request>, n: nat) {
    |batch| == |rs| && forall i :: 0 <= i < |rs| ==> batch[i] == Node(n % WRAP, rs[i].handle, rs[i].session)
  }

  lemma {:induction false} NewItemsAnswer(rs: seq<Request>, now: nat, n: nat)
    ensures Answers(DueAt(NewItems(rs, now), n), EndingAt(rs, now, n), n)
    decreases |rs|
  {
    if rs != [] {
      NewItemsAnswer(rs[1..], now, n);
      var items := NewItems(rs, now);
      assert items[1..] == NewItems(rs[1..], now);
    }
  }

  lemma AnswersBoth(a: seq<Node>, b: seq<Node>, rs: seq<Request>, qs: seq<Request>, n: nat)
    requires Answers(a, rs, n) && Answers(b, qs, n)
    ensures Answers(a + b, rs + qs, n)
  {
  }

  lemma TickCount(evs: seq<Event>)
    ensures After(evs).ticks == TicksIn(evs)
  {
    if evs != [] {
      TickCount(evs[..|evs| - 1]);
    }
  }

  /** What an event adds answers what it requests. */
  lemma AddedAnswers(before: seq<Event>, ev: Event, n: nat)
    requires forall k :: 0 <= k < |before| ==> ValidEvent(before[k])
    requires Answers(DueAt(Added(before), n), Requested(before, n), n)
    requires var now := TicksIn(before + [ev]); Answers(DueAt(Added(before), now), Requested(before, now), now)
    ensures Answers(DueAt(Added(before + [ev]), n), Requested(before + [ev], n), n)
  {
    var evs, run, now := before + [ev], After(before), TicksIn(before + [ev]);
    assert evs[..|evs| - 1] == before;
    TickCount(before);
    FiresOnTime(before);
    OneTick(Added(before), run.ticks);
    var added := AddedBy(run, ev);
    DueAppend(Added(before), added, n);
    var more := match ev
                case Add(r) => EndingAt([r], now, n)
                case Tick(others) => if Requested(before, now) == [] then [] else EndingAt(others, now, n);
    assert Answers(DueAt(added, n), more, n) by {
      match ev
      case Add(r) =>
        NewItemsAnswer([r], now, n);
        assert NewItems([r], now) == [NewItem(r, now)];
      case Tick(others) =>
        NewItemsAnswer(others, now, n);
    }
    AnswersBoth(DueAt(Added(before), n), DueAt(added, n), Requested(before, n), more, n);
  }

  lemma {:induction false} DueAnswers(evs: seq<Event>, n: nat)
    requires forall k :: 0 <= k < |evs| ==> ValidEvent(evs[k])
    ensures Answers(DueAt(Added(evs), n), Requested(evs, n), n)
    decreases |evs|
  {
    if evs != [] {
      var before, ev := evs[..|evs| - 1], evs[|evs| - 1];
      assert before + [ev] == evs;
      DueAnswers(before, n);
      DueAnswers(before, TicksIn(evs));
      AddedAnswers(before, ev, n);
    }
  }

  /** Tick 'n' fires one node for each request whose delay ends then, in the order of the requests. */
  lemma FiresRequested(evs: seq<Event>)
    requires forall k :: 0 <= k < |evs| ==> ValidEvent(evs[k])
    ensures |After(evs).fired| == TicksIn(evs)
    ensures forall n :: 1 <= n <= TicksIn(evs) ==> Answers(After(evs).fired[n - 1], Requested(evs, n), n)
  {
    FiresOnTime(evs);
    TickCount(evs);
    forall n | 1 <= n <= TicksIn(evs) ensures Answers(After(evs).fired[n - 1], Requested(evs, n), n) {
      DueAnswers(evs, n);
    }
  }

  /** The requests that come with an event. */
  function Made(ev: Event): seq<Request> {
    match ev
    case Add(r) => [r]
    case Tick(others) => others
  }

  lemma {:induction false} EndingIn(rs: seq<Request>, now: nat, n: nat)
    ensures forall r :: r in EndingAt(rs, now, n) <==> r in rs && now + r.delay == n
    decreases |rs|
  {
    if rs != [] {
      EndingIn(rs[1..], now, n);
      assert rs == [rs[0]] + rs[1..];
    }
  }

  lemma NoMembers(rs: seq<Request>)
    ensures rs == [] || exists r :: r in rs
  {
    assert rs == [] || rs[0] in rs;
  }

  /** Requests made at a tick or later end after it. */
  lemma {:induction false} EarlierRequests(evs: seq<Event>, k: nat, n: nat)
    requires forall j :: 0 <= j < |evs| ==> ValidEvent(evs[j])
    requires k < |evs| && n <= TicksIn(evs[..k + 1])
    ensures TicksIn(evs[..k + 1]) <= TicksIn(evs) && Requested(evs, n) == Requested(evs[..k], n)
    decreases |evs|
  {
    var before, ev := evs[..|evs| - 1], evs[|evs| - 1];
    if k < |before| {
      assert before[..k] == evs[..k] && before[..k + 1] == evs[..k + 1];
      EarlierRequests(before, k, n);
    } else {
      assert evs[..k + 1] == evs && before == evs[..k];
    }
    var more := EndingAt(Made(ev), TicksIn(evs), n);
    EndingIn(Made(ev), TicksIn(evs), n);
    assert forall r :: r in Made(ev) ==> ValidRequest(r);
    NoMembers(more);
  }

  lemma {:induction false} LaterRequests(evs: seq<Event>, k: nat, n: nat, r: Request)
    requires k < |evs| && r in Requested(evs[..k + 1], n)
    ensures r in Requested(evs, n)
    decreases |evs|
  {
    var before := evs[..|evs| - 1];
    if k < |before| {
      assert before[..k + 1] == evs[..k + 1];
      LaterRequests(before, k, n, r);
    } else {
      assert evs[..k + 1] == evs;
    }
  }

  /** A request that comes with event 'k' is taken, unless it is made during a tick that dispatches nothing. */
  predicate Taken(evs: seq<Event>, k: nat, fired: seq<seq<Node>>)
    requires k < |evs|
  {
    evs[k].Add? || (1 <= TicksIn(evs[..k + 1]) <= |fired| && fired[TicksIn(evs[..k + 1]) - 1] != [])
  }

  lemma {:induction false} TicksGrow(evs: seq<Event>, k: nat)
    requires k < |evs|
    ensures TicksIn(evs[..k + 1]) == TicksIn(evs[..k]) + if evs[k].Tick? then 1 else 0
  {
    assert evs[..k + 1][..k] == evs[..k];
  }

  lemma TakenRequests(evs: seq<Event>, k: nat)
    requires forall j :: 0 <= j < |evs| ==> ValidEvent(evs[j])
    requires k < |evs|
    ensures evs[k].Tick? ==>
      (Taken(evs, k, After(evs).fired) <==> Requested(evs[..k], TicksIn(evs[..k + 1])) != [])
  {
    var now := TicksIn(evs[..k + 1]);
    FiresRequested(evs);
    EarlierRequests(evs, k, now);
    TicksGrow(evs, k);
  }

  /** A request that is taken is one of those that end at its deadline. */
  lemma TakenIsRequested(evs: seq<Event>, k: nat, r: Request)
    requires forall j :: 0 <= j < |evs| ==> ValidEvent(evs[j])
    requires k < |evs| && r in Made(evs[k]) && Taken(evs, k, After(evs).fired)
    ensures r in Requested(evs, TicksIn(evs[..k + 1]) + r.delay)
  {
    hide *;
    TakenRequests(evs, k);
    RequestedNow(evs, k, r);
    LaterRequests(evs, k, TicksIn(evs[..k + 1]) + r.delay, r);
  }

  lemma RequestedNow(evs: seq<Event>, k: nat, r: Request)
    requires k < |evs| && r in Made(evs[k])
    requires evs[k].Tick? ==> Requested(evs[..k], TicksIn(evs[..k + 1])) != []
    ensures r in Requested(evs[..k + 1], TicksIn(evs[..k + 1]) + r.delay)
  {
    var now := TicksIn(evs[..k + 1]);
    assert evs[..k + 1][..k] == evs[..k];
    EndingIn(Made(evs[k]), now, now + r.delay);
    assert Requested(evs[..k + 1], now + r.delay) ==
      Requested(evs[..k], now + r.delay) + EndingAt(Made(evs[k]), now, now + r.delay);
  }

  lemma AnswersEach(batch: seq<Node>, rs: seq<Request>, n: nat, r: Request)
    requires Answers(batch, rs, n) && r in rs
    ensures Node(n % WRAP, r.handle, r.session) in batch
  {
    var i :| 0 <= i < |rs| && rs[i] == r;
    assert batch[i] in batch;
  }

  /** What is requested fires: a request that is taken has a node in the batch of its deadline, once reached. */
  lemma RequestFires(evs: seq<Event>, k: nat, r: Request)
    requires forall j :: 0 <= j < |evs| ==> ValidEvent(evs[j])
    requires k < |evs| && r in Made(evs[k]) && Taken(evs, k, After(evs).fired)
    ensures var n := TicksIn(evs[..k + 1]) + r.delay;
      1 <= n <= |After(evs).fired| ==> Node(n % WRAP, r.handle, r.session) in After(evs).fired[n - 1]
  {
    var n := TicksIn(evs[..k + 1]) + r.delay;
    TakenIsRequested(evs, k, r);
    FiresRequested(evs);
    hide *;
    if 1 <= n <= |After(evs).fired| {
      AnswersEach(After(evs).fired[n - 1], Requested(evs, n), n, r);
    }
  }

  function Shots(batch: seq<Node>, handle: nat, session: int): nat {
    if batch == [] then 0
    else Shots(batch[1..], handle, session) + if batch[0].handle == handle && batch[0].session == session then 1 else 0
  }

  /** How many of the requests are for this handle and session. */
  function Named(rs: seq<Request>, handle: nat, session: int): nat {
    if rs == [] then 0
    else Named(rs[1..], handle, session) + if rs[0].handle == handle && rs[0].session == session then 1 else 0
  }

  lemma {:induction false} ShotsAnswer(batch: seq<Node>, rs: seq<Request>, n: nat, handle: nat, session: int)
    requires Answers(batch, rs, n)
    ensures Shots(batch, handle, session) == Named(rs, handle, session)
    decreases |rs|
  {
    if rs != [] {
      assert forall i :: 0 <= i < |rs[1..]| ==> batch[1..][i] == batch[i + 1] && rs[1..][i] == rs[i + 1];
      ShotsAnswer(batch[1..], rs[1..], n, handle, session);
    }
  }

  lemma {:induction false} NamedConcat(a: seq<Request>, b: seq<Request>, handle: nat, session: int)
    ensures Named(a + b, handle, session) == Named(a, handle, session) + Named(b, handle, session)
    decreases |a|
  {
    if a == [] {
      assert a + b == b;
    } else {
      assert (a + b)[1..] == a[1..] + b;
      NamedConcat(a[1..], b, handle, session);
    }
  }

  lemma {:induction false} FewerNamed(rs: seq<Request>, now: nat, n: nat, handle: nat, session: int)
    ensures Named(EndingAt(rs, now, n), handle, session) <= Named(rs, handle, session)
    decreases |rs|
  {
    if rs != [] {
      FewerNamed(rs[1..], now, n, handle, session);
      var more := EndingAt(rs[1..], now, n);
      assert ([rs[0]] + more)[1..] == more;
    }
  }

  /** No event but 'k' asks for this handle and session. */
  predicate OnlyHere(evs: seq<Event>, k: nat, handle: nat, session: int) {
    forall j :: 0 <= j < |evs| && j != k ==> Named(Made(evs[j]), handle, session) == 0
  }

  lemma NamedLast(evs: seq<Event>, n: nat, handle: nat, session: int)
    requires evs != []
    ensures var before, ev, now := evs[..|evs| - 1], evs[|evs| - 1], TicksIn(evs);
      Named(Requested(evs, n), handle, session) == Named(Requested(before, n), handle, session)
        + if ev.Tick? && Requested(before, now) == [] then 0 else Named(EndingAt(Made(ev), now, n), handle, session)
  {
    var before, ev, now := evs[..|evs| - 1], evs[|evs| - 1], TicksIn(evs);
    var more := if ev.Tick? && Requested(before, now) == [] then [] else EndingAt(Made(ev), now, n);
    assert Requested(evs, n) == Requested(before, n) + more;
    NamedConcat(Requested(before, n), more, handle, session);
  }

  /** How many of the requests that come with event 'k' for this handle and session fire at tick 'n'. */
  function NamedBy(evs: seq<Event>, k: nat, n: nat, handle: nat, session: int): nat {
    if k >= |evs| || (evs[k].Tick? && Requested(evs[..k], TicksIn(evs[..k + 1])) == []) then 0
    else Named(EndingAt(Made(evs[k]), TicksIn(evs[..k + 1]), n), handle, session)
  }

  lemma NamedByEarlier(before: seq<Event>, ev: Event, k: nat, n: nat, handle: nat, session: int)
    requires k < |before|
    ensures NamedBy(before + [ev], k, n, handle, session) == NamedBy(before, k, n, handle, session)
  {
    assert (before + [ev])[..k] == before[..k] && (before + [ev])[..k + 1] == before[..k + 1];
  }

  lemma NamedByLast(before: seq<Event>, ev: Event, n: nat, handle: nat, session: int)
    ensures var evs := before + [ev];
      && Named(Requested(evs, n), handle, session)
         == Named(Requested(before, n), handle, session) + NamedBy(evs, |before|, n, handle, session)
      && NamedBy(evs, |before|, n, handle, session) <= Named(Made(ev), handle, session)
  {
    var evs := before + [ev];
    assert evs[..|before|] == before && evs[..|before| + 1] == evs;
    FewerNamed(Made(ev), TicksIn(evs), n, handle, session);
    NamedLast(evs, n, handle, session);
    hide Requested, EndingAt, TicksIn, Named;
  }

  lemma {:induction false} NamedOnce(evs: seq<Event>, k: nat, n: nat, handle: nat, session: int)
    requires OnlyHere(evs, k, handle, session)
    ensures Named(Requested(evs, n), handle, session) == NamedBy(evs, k, n, handle, session)
    decreases |evs|
  {
    if evs != [] {
      var before, ev := evs[..|evs| - 1], evs[|evs| - 1];
      OnlyHereBefore(evs, k, handle, session);
      hide *;
      NamedOnce(before, k, n, handle, session);
      NamedByLast(before, ev, n, handle, session);
      assert before + [ev] == evs;
      if k < |before| {
        NamedByEarlier(before, ev, k, n, handle, session);
      } else {
        NamedByNone(before, k, n, handle, session);
        NamedByNone(evs, k, n, handle, session);
      }
    } else {
      assert Requested(evs, n) == [];
    }
  }

  lemma OnlyHereBefore(evs: seq<Event>, k: nat, handle: nat, session: int)
    requires OnlyHere(evs, k, handle, session) && evs != []
    ensures OnlyHere(evs[..|evs| - 1], k, handle, session)
    ensures k != |evs| - 1 ==> Named(Made(evs[|evs| - 1]), handle, session) == 0
  {
  }

  lemma NamedByNone(evs: seq<Event>, k: nat, n: nat, handle: nat, session: int)
    ensures k >= |evs| ==> NamedBy(evs, k, n, handle, session) == 0
  {
  }

  lemma {:induction false} OneEnding(rs: seq<Request>, r: Request, now: nat, n: nat)
    requires r in rs && Named(rs, r.handle, r.session) == 1
    ensures Named(EndingAt(rs, now, n), r.handle, r.session) == if now + r.delay == n then 1 else 0
    decreases |rs|
  {
    var more := EndingAt(rs[1..], now, n);
    assert ([rs[0]] + more)[1..] == more;
    if rs[0] == r {
      FewerNamed(rs[1..], now, n, r.handle, r.session);
    } else {
      NamedAtLeast(rs[1..], r);
      OneEnding(rs[1..], r, now, n);
    }
  }

  lemma {:induction false} NamedAtLeast(rs: seq<Request>, r: Request)
    requires r in rs
    ensures Named(rs, r.handle, r.session) >= 1
    decreases |rs|
  {
    if rs[0] != r {
      NamedAtLeast(rs[1..], r);
    }
  }

  /** The only request for its handle and session fires exactly once over all batches, in that of its deadline; or
      never, if it is made during a tick that dispatches nothing. */
  lemma FiresOnce(evs: seq<Event>, k: nat, r: Request, n: nat)
    requires forall j :: 0 <= j < |evs| ==> ValidEvent(evs[j])
    requires k < |evs| && r in Made(evs[k])
    requires OnlyHere(evs, k, r.handle, r.session) && Named(Made(evs[k]), r.handle, r.session) == 1
    requires 1 <= n <= |After(evs).fired|
    ensures Shots(After(evs).fired[n - 1], r.handle, r.session) ==
      if Taken(evs, k, After(evs).fired) && n == TicksIn(evs[..k + 1]) + r.delay then 1 else 0
  {
    FiresRequested(evs);
    ShotsAnswer(After(evs).fired[n - 1], Requested(evs, n), n, r.handle, r.session);
    TakenRequests(evs, k);
    NamedOnce(evs, k, n, r.handle, r.session);
    OneEnding(Made(evs[k]), r, TicksIn(evs[..k + 1]), n);
  }

  /** The timer itself, driven through a run, fires what the run says. */
  method Drive(evs: seq<Event>) returns (fired: seq<seq<Node>>)
    requires forall k :: 0 <= k < |evs| ==> ValidEvent(evs[k])
    ensures fired == After(evs).fired
    ensures |fired| == TicksIn(evs)
    ensures forall n :: 1 <= n <= |fired| ==> Answers(fired[n - 1], Requested(evs, n), n)
  {
    var timer := new Timer();
    fired := [];
    var k := 0;
    while k < |evs|
      invariant k <= |evs| && fresh(timer) && fresh(timer.near) && fresh(timer.t) && timer.Valid()
      invariant After(evs[..k]) == Run(timer.ticks, timer.pending, fired)
    {
      assert evs[..k + 1][..k] == evs[..k];
      assert ValidEvent(evs[k]);
      match evs[k] {
        case Add(r) => timer.TimerAdd(r);
        case Tick(others) =>
          var batch := timer.TimerUpdate(others);
          fired := fired + [batch];
      }
      k := k + 1;
    }
    assert evs[..k] == evs;
    FiresRequested(evs);
  }
}
