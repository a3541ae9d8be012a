/** What becomes of the messages in a run of the scheduler: what was sent goes into the queue, and what was put in
    front comes out first. */
module MessageRuns {
  import opened Scheduler
  import opened Dispatching

  /** The message that a step adds to a queue. */
  function SentBy(thread: Thread, id: nat): seq<int> {
    if thread.Sending? && thread.id == id then [thread.msg] else []
  }

  /** The messages sent to a queue in a run, in the order of the steps that send them. */
  ghost function SentIn(n: nat, turns: seq<Turn>, id: nat): seq<int>
    requires Turns(n, turns)
  {
    if turns == [] then []
    else
      var front, turn := turns[..|turns| - 1], turns[|turns| - 1];
      SentIn(n, front, id) + SentBy(Run(n, front).threads[turn.t], id)
  }

  /** A step of a thread that is sending puts its message behind all others of the queue; a step of a worker about to
      pop the queue, or of a thread that drops it, takes the first one. No other step touches the messages of a queue,
      and a new queue has none. */
  lemma StepMovesMessages(s: Sys, t: nat, c: Choice, id: nat)
    requires Inv(s) && t < |s.threads|
    ensures var next, thread := Step(s, t, c), s.threads[t];
      id < |next.queues| ==>
        if id >= |s.queues| then next.queues[id].pushed == next.queues[id].popped == next.queues[id].msgs == []
        else
          var q, r := s.queues[id], next.queues[id];
          if thread.Sending? && thread.id == id then
            r.msgs == q.msgs + [thread.msg] && r.pushed == q.pushed + [thread.msg] && r.popped == q.popped
          else if ((thread.Running? && thread.q == id) || (thread.Dropping? && thread.id == id)) && q.msgs != [] then
            r.msgs == q.msgs[1..] && r.popped == q.popped + [q.msgs[0]] && r.pushed == q.pushed
          else r.msgs == q.msgs && r.pushed == q.pushed && r.popped == q.popped
  {
  }

  lemma NoneSent(s: Sys, t: nat, id: nat)
    requires Inv(s) && t < |s.threads| && |s.queues| <= id
    ensures SentBy(s.threads[t], id) == []
  {
    assert Mentions(s.threads[t], |s.queues|);
  }

  lemma StepPushes(s: Sys, t: nat, c: Choice, id: nat)
    requires Inv(s) && t < |s.threads|
    ensures var next := Step(s, t, c); |s.queues| <= |next.queues| && (id < |next.queues| ==>
      next.queues[id].pushed == (if id < |s.queues| then s.queues[id].pushed else []) + SentBy(s.threads[t], id))
  {
    StepMovesMessages(s, t, c, id);
    if id >= |s.queues| {
      NoneSent(s, t, id);
    }
    hide Inv, Flagged;
  }

  /** In every run exactly what was sent to a queue was put into it, in order; what came out of it is the
      beginning of that, and what it holds is the rest. */
  lemma {:induction false} PushedIsSent(n: nat, turns: seq<Turn>, id: nat)
    requires Turns(n, turns)
    ensures var s := Run(n, turns);
      if id < |s.queues| then
        && s.queues[id].pushed == SentIn(n, turns, id)
        && (!s.queues[id].freed ==> SentIn(n, turns, id) == s.queues[id].popped + s.queues[id].msgs)
      else SentIn(n, turns, id) == []
    decreases |turns|
  {
    if turns == [] {
      RunOfNothing(n);
    } else {
      var front, turn := turns[..|turns| - 1], turns[|turns| - 1];
      assert front + [turn] == turns;
      PushedIsSent(n, front, id);
      RunNext(n, front, turn);
      var s := Run(n, front);
      StepPushes(s, turn.t, turn.c, id);
      if id >= |s.queues| {
        NoneSent(s, turn.t, id);
      }
      if id < |Run(n, turns).queues| && !Run(n, turns).queues[id].freed {
        OnePlace(n, turns, id);
      }
      hide Run, Step, Inv, SentBy;
    }
  }

  /** Who sends finds the context that is registered under the handle, or sends nothing if there is none. */
  lemma SendFinds(s: Sys, t: nat, to: nat, msg: int)
    requires Inv(s) && t < |s.threads| && s.threads[t].Idle?
    ensures var b := Step(s, t, Send(to, msg)).threads[t];
      if Registered(s, to) then
        b.Sending? && b.msg == msg && b.id < |s.ctxs| && s.ctxs[b.id].registered && s.ctxs[b.id].handle == to
      else b.Idle?
  {
    hide Tame, Follows, Inv, Flagged;
  }

  /** A worker takes the queue in front of the global list. */
  lemma TakesFront(s: Sys, t: nat, c: Choice)
    requires Inv(s) && t < |s.threads| && s.threads[t].Taking?
    ensures var next := Step(s, t, c);
      if s.global == [] then next.threads[t].Idle? && next.global == []
      else next.threads[t] == Holding(s.global[0]) && next.global == s.global[1..]
  {
    hide Tame, Follows, Inv, Flagged;
  }

  /** A worker that pops a queue goes on to call the service with the message, or gives the queue up if there is
      none; only then does the queue leave the global list or the workers. */
  lemma PoppedIsServed(s: Sys, t: nat, c: Choice)
    requires Inv(s) && t < |s.threads| && s.threads[t].Running?
    ensures var next, thread := Step(s, t, c), s.threads[t];
      && thread.q < |s.queues| <= |next.queues|
      && if s.queues[thread.q].msgs == [] then
           next.threads[t] == Unref(thread.id, Taking) && !next.queues[thread.q].inGlobal
         else
           next.threads[t] == Serving(thread.id, thread.q)
           && next.queues[thread.q].inGlobal == s.queues[thread.q].inGlobal
  {
    assert Mentions(s.threads[t], |s.queues|);
    hide Tame, Follows, Inv, Flagged;
  }

  // ----- services -----

  predicate Registered(s: Sys, handle: nat) {
    exists i :: 0 <= i < |s.ctxs| && s.ctxs[i].registered && s.ctxs[i].handle == handle
  }

  /** A new service is registered under its handle, unless that is in use, with two references: one of the table
      and one of its creator. Its queue is marked as if it were in the global list, but is not in it yet. */
  lemma CreateRegisters(s: Sys, t: nat, handle: nat)
    requires Inv(s) && t < |s.threads| && s.threads[t].Idle?
    ensures var next := Step(s, t, Create(handle));
      if Registered(s, handle) then next == s
      else
        && next.ctxs == s.ctxs + [Context(handle, 2, true, false, false)]
        && |next.queues| == |s.queues| + 1 && next.queues[..|s.queues|] == s.queues
        && next.queues[|s.queues|].handle == handle && next.queues[|s.queues|].inGlobal
        && next.global == s.global && next.threads[t] == Creating(|s.ctxs|, false)
  {
    hide Tame, Follows, Inv, Flagged;
  }

  /** Retiring takes exactly the service with the handle off the table; its reference is then given up. */
  lemma RetireFinds(s: Sys, t: nat, handle: nat)
    requires Inv(s) && t < |s.threads| && s.threads[t].Idle?
    ensures var next := Step(s, t, Retire(handle));
      if Registered(s, handle) then
        var b := next.threads[t];
        && b.Unref? && b.k == Idle && b.id < |s.ctxs| && s.ctxs[b.id].registered && s.ctxs[b.id].handle == handle
        && next.ctxs == s.ctxs[b.id := s.ctxs[b.id].(registered := false)]
        && next.queues == s.queues && next.global == s.global
      else next == s
  {
    hide Tame, Follows, Inv, Flagged;
  }
}
