/** Runs of the scheduler in which a freed context is touched, in which a queue is used before it is made, and
    in which assertions fail. */
module FailingRuns {
  import opened Scheduler
  import opened Dispatching

  lemma Goes(n: nat, turns: seq<Turn>, t: nat, c: Choice, s: Sys, next: Sys) returns (more: seq<Turn>)
    requires Turns(n, turns) && t < n && Run(n, turns) == s && Step(s, t, c) == next
    ensures Turns(n, more) && Run(n, more) == next
  {
    RunNext(n, turns, Turn(t, c));
    more := turns + [Turn(t, c)];
    hide Run, Step, Inv;
  }

  /** One context and two threads. */
  function Alone(c: Context, q: Queue, global: seq<nat>, a: Thread, b: Thread, stale: bool): Sys {
    Sys([c], [q], global, [a, b], false, stale, false, false, false)
  }

  lemma OneContext(c: Context, q: Queue, global: seq<nat>, a: Thread, b: Thread, stale: bool)
    requires Mentions(a, 1) && Mentions(b, 1) && forall k :: 0 <= k < |global| ==> global[k] == 0
    ensures Shape(Alone(c, q, global, a, b, stale))
  {
  }

  lemma Creation(h: nat)
    ensures Shape(Start(2))
    ensures Step(Start(2), 0, Create(h)) ==
      Alone(Context(h, 2, true, false, false), Queue(h, [], true, false, false, false, [], []), [],
        Creating(0, false), Idle, false)
  {
  }

  lemma QueueMade(c: Context, q: Queue, b: Thread)
    requires Mentions(b, 1)
    ensures var s := Alone(c, q, [], Creating(0, false), b, false);
      Shape(s) && Step(s, 0, Go) == Alone(c, q, [], Creating(0, true), b, false)
  {
    OneContext(c, q, [], Creating(0, false), b, false);
    assert Mentions(Creating(0, false), 1);
    hide Mentions, Tame, Follows, Flagged, SameFlags;
  }

  lemma Initialization(c: Context, q: Queue, b: Thread)
    requires Mentions(b, 1)
    ensures var s := Alone(c, q, [], Creating(0, true), b, false);
      Shape(s) && Step(s, 0, InitOk) == Alone(c, q, [], Launching(0), b, false)
  {
    OneContext(c, q, [], Creating(0, true), b, false);
    assert Mentions(Creating(0, true), 1);
    hide Mentions, Tame, Follows, Flagged, SameFlags;
  }

  lemma Launch(c: Context, q: Queue, b: Thread)
    requires Mentions(b, 1) && c.ref == 2 && !c.freed
    ensures var s := Alone(c, q, [], Launching(0), b, false);
      Shape(s) && Step(s, 0, Go) == Alone(c.(ref := 1), q, [], Starting(0), b, false)
  {
    OneContext(c, q, [], Launching(0), b, false);
    assert Mentions(Launching(0), 1);
    hide Mentions, Tame, Follows, Flagged, SameFlags;
  }

  lemma Starts(c: Context, q: Queue, b: Thread)
    requires Mentions(b, 1)
    ensures var s := Alone(c, q, [], Starting(0), b, false);
      Shape(s) && Step(s, 0, Go) == Alone(c.(init := true), q, [], Publishing(0, true), b, c.freed)
  {
    OneContext(c, q, [], Starting(0), b, false);
    assert Mentions(Starting(0), 1);
    hide Mentions, Tame, Follows, Flagged, SameFlags;
  }

  lemma Publication(c: Context, q: Queue, b: Thread)
    requires Mentions(b, 1) && !q.freed
    ensures var s := Alone(c, q, [], Publishing(0, true), b, false);
      Shape(s) && Step(s, 0, Go) == Alone(c, q, [0], Announcing(0), b, false)
  {
    OneContext(c, q, [], Publishing(0, true), b, false);
    assert Mentions(Publishing(0, true), 1);
    hide Mentions, Tame, Follows, Flagged, SameFlags;
  }

  lemma Announcement(c: Context, q: Queue, global: seq<nat>, b: Thread)
    requires Mentions(b, 1) && (forall k :: 0 <= k < |global| ==> global[k] == 0)
    ensures var s := Alone(c, q, global, Announcing(0), b, false);
      Shape(s) && Step(s, 0, Quiet) == Alone(c, q, global, Reporting(0), b, false)
  {
    OneContext(c, q, global, Announcing(0), b, false);
    assert Mentions(Announcing(0), 1);
    hide Mentions, Tame, Follows, Flagged, SameFlags;
  }

  lemma Report(c: Context, q: Queue, global: seq<nat>, b: Thread)
    requires Mentions(b, 1) && (forall k :: 0 <= k < |global| ==> global[k] == 0) && !c.freed
    ensures var s := Alone(c, q, global, Reporting(0), b, false);
      Shape(s) && Step(s, 0, Go) == Alone(c, q, global, Idle, b, false)
  {
    OneContext(c, q, global, Reporting(0), b, false);
    assert Mentions(Reporting(0), 1);
    hide Mentions, Tame, Follows, Flagged, SameFlags;
  }

  lemma Taken(c: Context, q: Queue, global: seq<nat>, b: Thread)
    requires Mentions(b, 1) && (forall k :: 0 <= k < |global| ==> global[k] == 0)
    ensures var s := Alone(c, q, global, Idle, b, false);
      Shape(s) && Step(s, 0, Work) == Alone(c, q, global, Taking, b, false)
  {
    OneContext(c, q, global, Idle, b, false);
    assert Mentions(Idle, 1);
    hide Mentions, Tame, Follows, Flagged, SameFlags;
  }

  lemma Got(c: Context, q: Queue, b: Thread)
    requires Mentions(b, 1)
    ensures var s := Alone(c, q, [0], Taking, b, false);
      Shape(s) && Step(s, 0, Go) == Alone(c, q, [], Holding(0), b, false)
  {
    OneContext(c, q, [0], Taking, b, false);
    assert Mentions(Taking, 1);
    hide Mentions, Tame, Follows, Flagged, SameFlags;
  }

  lemma Sent(c: Context, q: Queue, global: seq<nat>, a: Thread)
    requires Mentions(a, 1) && (forall k :: 0 <= k < |global| ==> global[k] == 0) && c.registered && !c.freed
    ensures var s := Alone(c, q, global, a, Idle, false);
      Shape(s) && Step(s, 1, Send(c.handle, 5)) == Alone(c.(ref := c.ref + 1), q, global, a, Sending(0, 5), false)
  {
    OneContext(c, q, global, a, Idle, false);
    assert Mentions(Idle, 1);
    hide Mentions, Tame, Follows, Flagged, SameFlags;
  }

  lemma Pushed(c: Context, q: Queue, global: seq<nat>, a: Thread)
    requires Mentions(a, 1) && (forall k :: 0 <= k < |global| ==> global[k] == 0) && q.inGlobal && !q.freed
    requires a != Creating(0, false)
    ensures var s := Alone(c, q, global, a, Sending(0, 5), false);
      Shape(s) && Step(s, 1, Go) == Alone(c, q.(msgs := q.msgs + [5], pushed := q.pushed + [5]), global, a,
        Unref(0, Idle), false)
  {
    OneContext(c, q, global, a, Sending(0, 5), false);
    assert Mentions(Sending(0, 5), 1);
    hide Mentions, Tame, Follows, Flagged, SameFlags;
  }

  lemma Unreferred(c: Context, q: Queue, global: seq<nat>, a: Thread)
    requires Mentions(a, 1) && (forall k :: 0 <= k < |global| ==> global[k] == 0) && c.ref > 1 && !c.freed
    ensures var s := Alone(c, q, global, a, Unref(0, Idle), false);
      Shape(s) && Step(s, 1, Go) == Alone(c.(ref := c.ref - 1), q, global, a, Idle, false)
  {
    OneContext(c, q, global, a, Unref(0, Idle), false);
    assert Mentions(Unref(0, Idle), 1);
    hide Mentions, Tame, Follows, Flagged, SameFlags;
  }

  lemma Retirement(c: Context, q: Queue, global: seq<nat>, a: Thread)
    requires Mentions(a, 1) && (forall k :: 0 <= k < |global| ==> global[k] == 0) && c.registered
    ensures var s := Alone(c, q, global, a, Idle, false);
      Shape(s) && Step(s, 1, Retire(c.handle)) == Alone(c.(registered := false), q, global, a, Unref(0, Idle), false)
  {
    OneContext(c, q, global, a, Idle, false);
    assert Mentions(Idle, 1);
    hide Mentions, Tame, Follows, Flagged, SameFlags;
  }

  lemma LastUnref(c: Context, q: Queue, global: seq<nat>, a: Thread)
    requires Mentions(a, 1) && (forall k :: 0 <= k < |global| ==> global[k] == 0) && c.ref == 1 && !c.freed
    ensures var s := Alone(c, q, global, a, Unref(0, Idle), false);
      Shape(s) && Step(s, 1, Go) == Alone(c.(ref := 0), q, global, a, Deleting(0, Idle), false)
  {
    OneContext(c, q, global, a, Unref(0, Idle), false);
    assert Mentions(Unref(0, Idle), 1);
    hide Mentions, Tame, Follows, Flagged, SameFlags;
  }

  lemma Marked(c: Context, q: Queue, global: seq<nat>, a: Thread)
    requires Mentions(a, 1) && (forall k :: 0 <= k < |global| ==> global[k] == 0) && q.inGlobal && !q.freed
    requires !q.release
    ensures var s := Alone(c, q, global, a, Deleting(0, Idle), false);
      Shape(s) && Step(s, 1, Go) == Alone(c, q.(release := true), global, a, Freeing(0, Idle), false)
  {
    OneContext(c, q, global, a, Deleting(0, Idle), false);
    assert Mentions(Deleting(0, Idle), 1);
    hide Mentions, Tame, Follows, Flagged, SameFlags;
  }

  lemma Freed(c: Context, q: Queue, global: seq<nat>, a: Thread)
    requires Mentions(a, 1) && (forall k :: 0 <= k < |global| ==> global[k] == 0) && !c.freed
    ensures var s := Alone(c, q, global, a, Freeing(0, Idle), false);
      Shape(s) && Step(s, 1, Go) == Alone(c.(freed := true), q, global, a, Idle, false)
  {
    OneContext(c, q, global, a, Freeing(0, Idle), false);
    assert Mentions(Freeing(0, Idle), 1);
    hide Mentions, Tame, Follows, Flagged, SameFlags;
  }

  /** A service is created under handle 'h'; its creator has given up its reference. */
  lemma Begins(h: nat) returns (r: seq<Turn>, c: Context, q: Queue)
    ensures Turns(2, r) && c == Context(h, 1, true, false, false)
    ensures q == Queue(h, [], true, false, false, false, [], [])
    ensures Run(2, r) == Alone(c, q, [], Starting(0), Idle, false)
  {
    hide Run, Step, Shape;
    c, q := Context(h, 2, true, false, false), Queue(h, [], true, false, false, false, [], []);
    Creation(h);
    RunOfNothing(2);
    r := Goes(2, [], 0, Create(h), Start(2), Alone(c, q, [], Creating(0, false), Idle, false));
    QueueMade(c, q, Idle);
    r := Goes(2, r, 0, Go, Run(2, r), Alone(c, q, [], Creating(0, true), Idle, false));
    Initialization(c, q, Idle);
    r := Goes(2, r, 0, InitOk, Run(2, r), Alone(c, q, [], Launching(0), Idle, false));
    Launch(c, q, Idle);
    c := c.(ref := 1);
    r := Goes(2, r, 0, Go, Run(2, r), Alone(c, q, [], Starting(0), Idle, false));
  }

  /** A service is launched and retired at once: its creator writes to freed memory. */
  lemma RetiredWhileLaunching()
    ensures exists turns: seq<Turn> :: Turns(2, turns) && Run(2, turns).stale
  {
    hide Run, Step, Shape;
    var r, c, q := Begins(1);
    r, c, q := Retires(r, c, q, [], Starting(0));
    Starts(c, q, Idle);
    r := Goes(2, r, 0, Go, Run(2, r), Alone(c.(init := true), q, [], Publishing(0, true), Idle, true));
  }

  /** A message is sent to a service that is registered, but has no queue yet. */
  lemma SentTooEarly()
    ensures exists turns: seq<Turn> :: Turns(2, turns) && Run(2, turns).early
  {
    hide Run, Step, Shape;
    var c, q := Context(7, 2, true, false, false), Queue(7, [], true, false, false, false, [], []);
    Creation(7);
    RunOfNothing(2);
    var r := Goes(2, [], 0, Create(7), Start(2), Alone(c, q, [], Creating(0, false), Idle, false));
    Sent(c, q, [], Creating(0, false));
    c := c.(ref := 3);
    r := Goes(2, r, 1, Send(7, 5), Run(2, r), Alone(c, q, [], Creating(0, false), Sending(0, 5), false));
    PushedEarly(c, q);
    r := Goes(2, r, 1, Go, Run(2, r), Step(Run(2, r), 1, Go));
  }

  lemma PushedEarly(c: Context, q: Queue)
    ensures var s := Alone(c, q, [], Creating(0, false), Sending(0, 5), false); Shape(s) && Step(s, 1, Go).early
  {
    var s := Alone(c, q, [], Creating(0, false), Sending(0, 5), false);
    OneContext(c, q, [], Creating(0, false), Sending(0, 5), false);
    assert s.threads[0] == Creating(0, false);
    hide Mentions, Tame, Follows, Flagged, SameFlags;
  }

  /** Thread 1 retires the only context, which nobody else has a reference to. */
  lemma Retires(r: seq<Turn>, c: Context, q: Queue, global: seq<nat>, a: Thread)
    returns (more: seq<Turn>, c1: Context, q1: Queue)
    requires Turns(2, r) && Run(2, r) == Alone(c, q, global, a, Idle, false)
    requires Mentions(a, 1) && (forall k :: 0 <= k < |global| ==> global[k] == 0)
    requires c.registered && c.ref == 1 && !c.freed && q.inGlobal && !q.freed && !q.release
    ensures Turns(2, more) && c1 == c.(registered := false, ref := 0, freed := true) && q1 == q.(release := true)
    ensures Run(2, more) == Alone(c1, q1, global, a, Idle, false)
  {
    hide Run, Step, Shape;
    c1, q1 := c, q;
    Retirement(c1, q1, global, a);
    c1 := c1.(registered := false);
    more := Goes(2, r, 1, Retire(c.handle), Run(2, r), Alone(c1, q1, global, a, Unref(0, Idle), false));
    LastUnref(c1, q1, global, a);
    c1 := c1.(ref := 0);
    more := Goes(2, more, 1, Go, Run(2, more), Alone(c1, q1, global, a, Deleting(0, Idle), false));
    Marked(c1, q1, global, a);
    q1 := q1.(release := true);
    more := Goes(2, more, 1, Go, Run(2, more), Alone(c1, q1, global, a, Freeing(0, Idle), false));
    Freed(c1, q1, global, a);
    c1 := c1.(freed := true);
    more := Goes(2, more, 1, Go, Run(2, more), Alone(c1, q1, global, a, Idle, false));
  }

  /** A second context, which is being created. */
  function Pair(c: Context, q: Queue, d: Context, e: Queue, a: Thread, broken: bool): Sys {
    Sys([c, d], [q, e], [], [a, Creating(1, false)], false, false, broken, false, false)
  }

  lemma TwoContexts(c: Context, q: Queue, d: Context, e: Queue, a: Thread, broken: bool)
    requires Mentions(a, 2)
    ensures Shape(Pair(c, q, d, e, a, broken))
  {
  }

  lemma SecondCreation(c: Context, q: Queue, h: nat)
    requires !c.registered
    ensures var s := Alone(c, q, [], Holding(0), Idle, false);
      Shape(s) && Step(s, 1, Create(h)) ==
        Pair(c, q, Context(h, 2, true, false, false), Queue(h, [], true, false, false, false, [], []), Holding(0),
          false)
  {
    OneContext(c, q, [], Holding(0), Idle, false);
    assert Mentions(Idle, 1);
    hide Mentions, Tame, Follows, Flagged, SameFlags;
  }

  lemma Mistaken(c: Context, q: Queue, d: Context, e: Queue)
    requires !c.registered && d.registered && !d.freed && d.handle == q.handle && !q.freed
    ensures var s := Pair(c, q, d, e, Holding(0), false);
      Shape(s) && Step(s, 0, Go) == Pair(c, q, d.(ref := d.ref + 1), e, Running(1, 0), false)
  {
    TwoContexts(c, q, d, e, Holding(0), false);
    assert Mentions(Holding(0), 2);
    FindSecond(c, d);
    hide Mentions, Tame, Find;
    var s := Pair(c, q, d, e, Holding(0), false);
    assert [c, d][1 := d.(ref := d.ref + 1)] == [c, d.(ref := d.ref + 1)];
    assert s.threads[0 := Running(1, 0)] == [Running(1, 0), Creating(1, false)];
  }

  lemma FindSecond(c: Context, d: Context)
    requires !c.registered && d.registered
    ensures Find([c, d], d.handle) == 1
  {
    assert [c, d][1..] == [d];
  }

  lemma Popped(c: Context, q: Queue, d: Context, e: Queue)
    requires q.msgs != [] && !q.freed
    ensures var s := Pair(c, q, d, e, Running(1, 0), false);
      Shape(s) && Step(s, 0, Go) ==
        Pair(c, q.(msgs := q.msgs[1..], popped := q.popped + [q.msgs[0]]), d, e, Serving(1, 0), false)
  {
    TwoContexts(c, q, d, e, Running(1, 0), false);
    assert Mentions(Running(1, 0), 2);
    hide Mentions, Tame, Follows, Flagged, SameFlags;
  }

  lemma Skipped(c: Context, q: Queue, d: Context, e: Queue)
    requires !d.freed
    ensures var s := Pair(c, q, d, e, Serving(1, 0), false);
      Shape(s) && Step(s, 0, Skip(true)) == Pair(c, q, d, e, Ending(1, 0), false)
  {
    TwoContexts(c, q, d, e, Serving(1, 0), false);
    assert Mentions(Serving(1, 0), 2);
    hide Mentions, Tame, Follows, Flagged, SameFlags;
  }

  lemma Ended(c: Context, q: Queue, d: Context, e: Queue)
    ensures var s := Pair(c, q, d, e, Ending(1, 0), false);
      Shape(s) && Step(s, 0, Go) == Pair(c, q, d, e, Unref(1, Holding(0)), true)
  {
    TwoContexts(c, q, d, e, Ending(1, 0), false);
    assert Mentions(Ending(1, 0), 2);
    hide Mentions, Tame, Follows, Flagged, SameFlags;
  }

  /** A service is launched under handle 'h'. */
  lemma Launches(h: nat) returns (r: seq<Turn>, c: Context, q: Queue)
    ensures Turns(2, r) && c == Context(h, 1, true, false, true) && q == Queue(h, [], true, false, false, false, [], [])
    ensures Run(2, r) == Alone(c, q, [0], Idle, Idle, false)
  {
    hide Run, Step, Shape;
    r, c, q := Begins(h);
    Starts(c, q, Idle);
    c := c.(init := true);
    r := Goes(2, r, 0, Go, Run(2, r), Alone(c, q, [], Publishing(0, true), Idle, false));
    Publication(c, q, Idle);
    r := Goes(2, r, 0, Go, Run(2, r), Alone(c, q, [0], Announcing(0), Idle, false));
    Announcement(c, q, [0], Idle);
    r := Goes(2, r, 0, Quiet, Run(2, r), Alone(c, q, [0], Reporting(0), Idle, false));
    Report(c, q, [0], Idle);
    r := Goes(2, r, 0, Go, Run(2, r), Alone(c, q, [0], Idle, Idle, false));
  }

  /** A worker takes the queue, with one message in it. */
  lemma TakesQueue(r0: seq<Turn>, c: Context, q0: Queue) returns (r: seq<Turn>, q: Queue)
    requires Turns(2, r0) && Run(2, r0) == Alone(c, q0, [0], Idle, Idle, false)
    requires c.registered && c.ref == 1 && !c.freed && q0.inGlobal && !q0.freed
    ensures Turns(2, r) && q == q0.(msgs := q0.msgs + [5], pushed := q0.pushed + [5])
    ensures Run(2, r) == Alone(c, q, [], Holding(0), Idle, false)
  {
    hide Run, Step, Shape;
    q := q0;
    var c2 := c.(ref := 2);
    Sent(c, q, [0], Idle);
    r := Goes(2, r0, 1, Send(c.handle, 5), Run(2, r0), Alone(c2, q, [0], Idle, Sending(0, 5), false));
    Pushed(c2, q, [0], Idle);
    q := q.(msgs := q.msgs + [5], pushed := q.pushed + [5]);
    r := Goes(2, r, 1, Go, Run(2, r), Alone(c2, q, [0], Idle, Unref(0, Idle), false));
    Unreferred(c2, q, [0], Idle);
    assert c2.(ref := c2.ref - 1) == c;
    r := Goes(2, r, 1, Go, Run(2, r), Alone(c, q, [0], Idle, Idle, false));
    Taken(c, q, [0], Idle);
    r := Goes(2, r, 0, Work, Run(2, r), Alone(c, q, [0], Taking, Idle, false));
    Got(c, q, Idle);
    r := Goes(2, r, 0, Go, Run(2, r), Alone(c, q, [], Holding(0), Idle, false));
  }

  /** A worker holds a queue while its service goes and the handle is given out again: it serves the new
      context from the old queue, and the assertion at the end of the batch fails. */
  lemma HandleGivenOutAgain()
    ensures exists turns: seq<Turn> :: Turns(2, turns) && Run(2, turns).broken && !NoReuse(2, turns)
  {
    hide Run, Step, Shape;
    var r, c, q := Launches(7);
    r, q := TakesQueue(r, c, q);
    r, c, q := Retires(r, c, q, [], Holding(0));
    var d, e := Context(7, 2, true, false, false), Queue(7, [], true, false, false, false, [], []);
    SecondCreation(c, q, 7);
    r := Goes(2, r, 1, Create(7), Run(2, r), Pair(c, q, d, e, Holding(0), false));
    Mistaken(c, q, d, e);
    d := d.(ref := 3);
    r := Goes(2, r, 0, Go, Run(2, r), Pair(c, q, d, e, Running(1, 0), false));
    Popped(c, q, d, e);
    q := q.(msgs := q.msgs[1..], popped := q.popped + [q.msgs[0]]);
    r := Goes(2, r, 0, Go, Run(2, r), Pair(c, q, d, e, Serving(1, 0), false));
    Skipped(c, q, d, e);
    r := Goes(2, r, 0, Skip(true), Run(2, r), Pair(c, q, d, e, Ending(1, 0), false));
    Ended(c, q, d, e);
    r := Goes(2, r, 0, Go, Run(2, r), Pair(c, q, d, e, Unref(1, Holding(0)), true));
    if NoReuse(2, r) {
      NoReuseIsSafe(2, r);
    }
  }

  /** A worker finds the service of its queue gone. */
  lemma Orphaned(c: Context, q: Queue)
    requires !c.registered && !q.freed
    ensures var s := Alone(c, q, [], Holding(0), Idle, false);
      Shape(s) && Step(s, 0, Go) == Alone(c, q, [], Orphan(0, Taking), Idle, false)
  {
    OneContext(c, q, [], Holding(0), Idle, false);
    assert Mentions(Holding(0), 1);
    hide Mentions, Tame, Follows, Flagged, SameFlags;
  }

  lemma Released(c: Context, q: Queue)
    requires !q.freed && q.release
    ensures var s := Alone(c, q, [], Orphan(0, Taking), Idle, false);
      Shape(s) && Step(s, 0, Go) == Alone(c, q, [], Dropping(0, Taking), Idle, false)
  {
    OneContext(c, q, [], Orphan(0, Taking), Idle, false);
    assert Mentions(Orphan(0, Taking), 1);
    hide Mentions, Tame, Follows, Flagged, SameFlags;
  }

  lemma Dropped(c: Context, q: Queue)
    requires q.msgs != [] && q.handle == 0
    ensures var s := Alone(c, q, [], Dropping(0, Taking), Idle, false); Shape(s) && Step(s, 0, Go).sourceless
  {
    OneContext(c, q, [], Dropping(0, Taking), Idle, false);
    assert Mentions(Dropping(0, Taking), 1);
    hide Mentions, Tame, Follows, Flagged, SameFlags;
  }

  /** A service with the handle 0 goes while a message for it waits: dropping the message fails the assertion
      that its source is not 0. */
  lemma DroppedFromZero()
    ensures exists turns: seq<Turn> :: Turns(2, turns) && Run(2, turns).sourceless
  {
    hide Run, Step, Shape;
    var r, c, q := Launches(0);
    r, q := TakesQueue(r, c, q);
    r, c, q := Retires(r, c, q, [], Holding(0));
    Orphaned(c, q);
    r := Goes(2, r, 0, Go, Run(2, r), Alone(c, q, [], Orphan(0, Taking), Idle, false));
    Released(c, q);
    r := Goes(2, r, 0, Go, Run(2, r), Alone(c, q, [], Dropping(0, Taking), Idle, false));
    Dropped(c, q);
    r := Goes(2, r, 0, Go, Run(2, r), Step(Run(2, r), 0, Go));
  }
}
