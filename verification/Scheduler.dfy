/** The actor scheduler: any number of threads sharing a queue of message queues. Each locked
    block and each atomic operation of the C code is one step of one thread. */
module Scheduler {

  datatype Context = Context(handle: nat, ref: nat, registered: bool, freed: bool, init: bool)

  /** 'pushed' and 'popped' record what ever went in and out, for the statement of order; 'lost' that a
      worker let go of the queue although it was marked for release. */
  datatype Queue = Queue(handle: nat, msgs: seq<int>, inGlobal: bool, release: bool, freed: bool, lost: bool,
    pushed: seq<int>, popped: seq<int>)

  /** Where a thread is. A context and the queue that it was created with share an identity; a worker
      has a queue 'q' and the context 'id' that is registered under the handle of the queue. 'k' is what
      comes next. */
  datatype Thread =
    | Idle
    | Sending(id: nat, msg: int)      // skynet_context_push: context grabbed, queue not yet pushed to
    | Holding(id: nat)                // a worker with a queue, about to grab its context
    | Running(id: nat, q: nat)        // a worker about to pop its queue, context grabbed
    | Serving(id: nat, q: nat)        // a worker with a message, about to call the service
    | Ending(id: nat, q: nat)         // a worker at the end of its batch
    | Swapping(id: nat, q: nat, nq: nat) // a worker that took another queue and must push its own back
    | Orphan(id: nat, k: Thread)      // about to call skynet_mq_release
    | Dropping(id: nat, k: Thread)    // inside _drop_queue
    | Taking                          // about to pop the global queue
    | Creating(id: nat, made: bool)   // skynet_context_new, before the queue is made, or before init returns
    | Launching(id: nat)              // skynet_context_new after init, about to release its reference
    | Starting(id: nat)               // skynet_context_new, about to set 'init'
    | Publishing(id: nat, told: bool) // skynet_context_new, about to push the queue, and to report it or not
    | Announcing(id: nat)             // skynet_context_new, about to log the launch
    | Reporting(id: nat)              // cmd_launch, about to read the handle of the new context
    | Failed(id: nat)                 // skynet_context_new after a failed init, about to retire the handle
    | Unref(id: nat, k: Thread)       // about to decrement the reference count
    | Deleting(id: nat, k: Thread)    // inside delete_context, before skynet_mq_mark_release
    | Freeing(id: nat, k: Thread)     // inside delete_context, before the context is freed

  /** 'stale' is set when a thread in skynet_context_new or cmd_launch, which has given its reference
      up, touches a freed context; 'broken' when an assertion of the dispatch loop fails; 'sourceless' when that
      of drop_message fails; 'early' when a message is pushed to the queue of a context that has none yet; 'bad'
      by a step that puts a queue in the global list or marks it for release a second time, releases a reference
      that there is not, frees a queue that is in the global list, or else touches freed memory. */
  datatype Sys = Sys(ctxs: seq<Context>, queues: seq<Queue>, global: seq<nat>, threads: seq<Thread>, bad: bool,
    stale: bool, broken: bool, sourceless: bool, early: bool)

  /** The choices a step leaves open. */
  datatype Choice =
    | Create(handle: nat)
    | Send(to: nat, msg: int)
    | Retire(victim: nat)
    | Work
    | InitOk
    | InitFails
    | Quiet             // there is no logger
    | Dispatch(last: bool)
    | Skip(last: bool)  // the service has no callback
    | Go

  // ----- one step -----

  function SetThread(s: Sys, t: nat, thread: Thread): Sys
    requires t < |s.threads|
  {
    s.(threads := s.threads[t := thread])
  }

  function SetQueue(s: Sys, id: nat, q: Queue): Sys
    requires id < |s.queues|
  {
    s.(queues := s.queues[id := q])
  }

  function SetContext(s: Sys, id: nat, c: Context): Sys
    requires id < |s.ctxs|
  {
    s.(ctxs := s.ctxs[id := c])
  }

  function Fault(s: Sys, broken: bool): Sys {
    s.(bad := s.bad || broken)
  }

  function Touch(s: Sys, id: nat): Sys
    requires id < |s.ctxs|
  {
    s.(stale := s.stale || s.ctxs[id].freed)
  }

  /** The context registered under a handle; the number of contexts if there is none. */
  function Find(ctxs: seq<Context>, handle: nat): (i: nat)
    ensures i <= |ctxs| && (i < |ctxs| ==> ctxs[i].registered && ctxs[i].handle == handle)
    ensures i == |ctxs| ==> forall j :: 0 <= j < |ctxs| ==> !(ctxs[j].registered && ctxs[j].handle == handle)
  {
    if ctxs == [] then 0
    else if ctxs[0].registered && ctxs[0].handle == handle then 0
    else 1 + Find(ctxs[1..], handle)
  }

  /** skynet_globalmq_push: a queue must not be in the list already. */
  function GlobalPush(s: Sys, id: nat): Sys
    requires id < |s.queues|
  {
    Fault(s.(global := s.global + [id]), s.queues[id].freed || id in s.global)
  }

  /** skynet_globalmq_pop, and what the thread does with the result. */
  function GlobalPop(s: Sys, t: nat, none: Thread, some: nat -> Thread): Sys
    requires t < |s.threads|
  {
    if s.global == [] then SetThread(s, t, none)
    else SetThread(s.(global := s.global[1..]), t, some(s.global[0]))
  }

  /** skynet_handle_grab, and what the thread does with the result. */
  function Grab(s: Sys, t: nat, handle: nat, found: nat -> Thread, lost: Thread): Sys
    requires t < |s.threads|
  {
    var id := Find(s.ctxs, handle);
    if id < |s.ctxs| then
      SetThread(SetContext(Fault(s, s.ctxs[id].freed), id, s.ctxs[id].(ref := s.ctxs[id].ref + 1)), t, found(id))
    else SetThread(s, t, lost)
  }

  /** skynet_context_release, and where the thread goes with the last reference or another one. */
  function Release(s: Sys, t: nat, id: nat, last: Thread, other: Thread): Sys
    requires t < |s.threads| && id < |s.ctxs|
  {
    var c := s.ctxs[id];
    if c.ref == 0 then Fault(s, true)
    else SetThread(SetContext(Fault(s, c.freed), id, c.(ref := c.ref - 1)), t, if c.ref == 1 then last else other)
  }

  /** The locked part of skynet_handle_retire. */
  function Unregister(s: Sys, t: nat, handle: nat, found: nat -> Thread, lost: Thread): Sys
    requires t < |s.threads|
  {
    var id := Find(s.ctxs, handle);
    if id < |s.ctxs| then
      SetThread(SetContext(s, id, s.ctxs[id].(registered := false)), t, found(id))
    else SetThread(s, t, lost)
  }

  /** skynet_mq_push, with the push to the global list that it makes under the queue's lock. */
  function MqPush(s: Sys, id: nat, msg: int): Sys
    requires id < |s.queues|
  {
    var q := s.queues[id];
    var s1 := SetQueue(Fault(s, q.freed), id, q.(msgs := q.msgs + [msg], inGlobal := true, pushed := q.pushed + [msg]));
    if q.inGlobal then s1 else GlobalPush(s1, id)
  }

  /** skynet_mq_mark_release. */
  function MarkRelease(s: Sys, id: nat): Sys
    requires id < |s.queues|
  {
    var q := s.queues[id];
    var s1 := SetQueue(Fault(s, q.freed || q.release), id, q.(release := true));
    if q.inGlobal then s1 else GlobalPush(s1, id)
  }

  /** Identities a thread mentions must exist. */
  predicate Mentions(thread: Thread, n: nat) {
    match thread
    case Idle => true
    case Taking => true
    case Running(id, q) => id < n && q < n
    case Serving(id, q) => id < n && q < n
    case Ending(id, q) => id < n && q < n
    case Swapping(id, q, nq) => id < n && q < n && nq < n
    case Orphan(id, k) => id < n && Resumes(k) && Mentions(k, n)
    case Dropping(id, k) => id < n && Resumes(k) && Mentions(k, n)
    case Unref(id, k) => id < n && Resumes(k) && Mentions(k, n)
    case Deleting(id, k) => id < n && Resumes(k) && Mentions(k, n)
    case Freeing(id, k) => id < n && Resumes(k) && Mentions(k, n)
    case _ => thread.id < n
  }

  predicate HasQueue(thread: Thread) {
    thread.Running? || thread.Serving? || thread.Ending? || thread.Swapping?
  }

  /** Where a thread may go on after something else. */
  predicate Resumes(thread: Thread) {
    !HasQueue(thread) && !thread.Sending? && !thread.Creating?
  }

  predicate Shape(s: Sys) {
    && |s.ctxs| == |s.queues|
    && (forall t :: 0 <= t < |s.threads| ==> Mentions(s.threads[t], |s.queues|))
    && (forall k :: 0 <= k < |s.global| ==> s.global[k] < |s.queues|)
  }

  /** What no step does: move another thread, change a handle, register a context again, unset 'init',
      bring back a freed queue; and which queues a step may free or lose. */
  predicate Tame(s: Sys, t: nat, r: Sys)
    requires t < |s.threads|
  {
    && |r.threads| == |s.threads| && r.threads == s.threads[t := r.threads[t]] && Follows(s.threads[t], r.threads[t])
    && |r.queues| >= |s.queues| && |r.ctxs| >= |s.ctxs|
    && (|r.queues| > |s.queues| || |r.ctxs| > |s.ctxs| ==>
          s.threads[t].Idle? && r.threads[t] == Creating(|s.ctxs|, false))
    && (forall i :: 0 <= i < |s.queues| ==> TameQueue(s.threads[t], i, s.queues[i], r.queues[i]))
    && (forall i :: 0 <= i < |s.ctxs| ==> TameContext(s.ctxs[i], r.ctxs[i]))
  }

  /** Where a thread may be next. */
  predicate Follows(a: Thread, b: Thread) {
    match a
    case Idle => b.Idle? || b.Taking? || b.Creating? || b.Sending? || (b.Unref? && b.k == Idle)
    case Sending(id, _) => b == Unref(id, Idle)
    case Taking => b.Idle? || b.Holding?
    case Holding(q) => (b.Running? && b.q == q) || b == Orphan(q, Taking)
    case Running(id, q) => b == Unref(id, Taking) || b == Serving(id, q)
    case Serving(id, q) => b == Ending(id, q) || b == Running(id, q)
    case Ending(id, q) => b == Unref(id, Holding(q)) || (b.Swapping? && b.id == id && b.q == q)
    case Swapping(id, q, nq) => b == Unref(id, Holding(nq))
    case Orphan(id, k) => b == Dropping(id, k) || b == k
    case Dropping(id, k) => b == a || b == k
    case Creating(id, made) =>
      if made then b == Unref(id, Failed(id)) || b == Launching(id) else b == Creating(id, true)
    case Launching(id) => b == a || b == Deleting(id, Publishing(id, false)) || b == Starting(id)
    case Starting(id) => b == Publishing(id, true)
    case Publishing(id, told) => b == if told then Announcing(id) else Idle
    case Announcing(id) => b == Reporting(id)
    case Reporting(_) => b == Idle
    case Failed(id) => (b.Unref? && b.k == Orphan(id, Idle)) || b == Orphan(id, Idle)
    case Unref(id, k) => b == a || b == Deleting(id, k) || b == k
    case Deleting(id, k) => b == Freeing(id, k)
    case Freeing(id, k) => b == k
  }

  predicate TameQueue(thread: Thread, i: nat, a: Queue, b: Queue) {
    && b.handle == a.handle && (a.freed ==> b.freed)
    && (b.freed && !a.freed ==> thread.Dropping? && thread.id == i)
    && (b.lost && !a.lost ==> thread.Running? && thread.q == i && a.release)
    && TameMessages(thread, i, a, b)
  }

  /** Only a thread that sends adds a message, and only one that pops the queue takes one. */
  predicate TameMessages(thread: Thread, i: nat, a: Queue, b: Queue) {
    if thread.Sending? && thread.id == i then
      b.msgs == a.msgs + [thread.msg] && b.pushed == a.pushed + [thread.msg] && b.popped == a.popped
    else if Pops(thread, i) && a.msgs != [] then
      b.msgs == a.msgs[1..] && b.pushed == a.pushed && b.popped == a.popped + [a.msgs[0]]
    else b.msgs == a.msgs && b.pushed == a.pushed && b.popped == a.popped
  }

  /** A thread that neither sends nor pops. */
  predicate LeavesMessages(thread: Thread) {
    !thread.Sending? && !thread.Running? && !thread.Dropping?
  }

  predicate Pops(thread: Thread, i: nat) {
    (thread.Running? && thread.q == i) || (thread.Dropping? && thread.id == i)
  }

  predicate TameContext(a: Context, b: Context) {
    b.handle == a.handle && (b.registered ==> a.registered) && (a.init ==> b.init)
  }

  predicate SameFlags(s: Sys, r: Sys) {
    r.stale == s.stale && r.broken == s.broken && r.sourceless == s.sourceless && r.early == s.early
  }

  /** A change of one queue and one thread. */
  lemma TameWithQueue(s: Sys, f: Sys, t: nat, q: nat, m: Queue, thread: Thread)
    requires t < |s.threads| && q < |s.queues| && Follows(s.threads[t], thread) && Pops(s.threads[t], q)
    requires TameQueue(s.threads[t], q, s.queues[q], m)
    requires f.ctxs == s.ctxs && f.queues == s.queues && f.threads == s.threads
    ensures Tame(s, t, SetThread(SetQueue(f, q, m), t, thread))
  {
    hide Follows;
  }

  /** A change of one context and one thread. */
  lemma TameWithContext(s: Sys, f: Sys, t: nat, id: nat, c: Context, thread: Thread)
    requires t < |s.threads| && LeavesMessages(s.threads[t])
    requires t < |s.threads| && id < |s.ctxs| && Follows(s.threads[t], thread)
    requires TameContext(s.ctxs[id], c)
    requires f.ctxs == s.ctxs && f.queues == s.queues && f.threads == s.threads
    ensures Tame(s, t, SetThread(SetContext(f, id, c), t, thread))
  {
    hide Follows;
  }

  lemma TameGrab(s: Sys, f: Sys, t: nat, handle: nat, found: nat -> Thread, lost: Thread)
    requires t < |s.threads| && LeavesMessages(s.threads[t])
    requires t < |s.threads| && Follows(s.threads[t], lost) && forall id :: Follows(s.threads[t], found(id))
    requires f.ctxs == s.ctxs && f.queues == s.queues && f.threads == s.threads
    ensures Tame(s, t, Grab(f, t, handle, found, lost))
  {
    hide Follows, Tame, Find;
    var id := Find(s.ctxs, handle);
    if id < |s.ctxs| {
      var c := s.ctxs[id];
      TameWithContext(s, Fault(f, c.freed), t, id, c.(ref := c.ref + 1), found(id));
    } else {
      TameMove(s, f, t, lost);
    }
  }

  lemma TameUnregister(s: Sys, t: nat, handle: nat, found: nat -> Thread, lost: Thread)
    requires t < |s.threads| && LeavesMessages(s.threads[t])
    requires t < |s.threads| && Follows(s.threads[t], lost) && forall id :: Follows(s.threads[t], found(id))
    ensures Tame(s, t, Unregister(s, t, handle, found, lost))
  {
    hide Follows, Tame, Find;
    var id := Find(s.ctxs, handle);
    if id < |s.ctxs| {
      TameWithContext(s, s, t, id, s.ctxs[id].(registered := false), found(id));
    } else {
      TameMove(s, s, t, lost);
    }
  }

  lemma TamePush(s: Sys, f: Sys, t: nat, id: nat, msg: int, thread: Thread)
    requires t < |s.threads| && id < |s.queues| && s.threads[t] == Sending(id, msg) && Follows(s.threads[t], thread)
    requires f.ctxs == s.ctxs && f.queues == s.queues && f.threads == s.threads
    ensures Tame(s, t, SetThread(MqPush(f, id, msg), t, thread))
  {
    hide Follows;
  }

  lemma TameMark(s: Sys, t: nat, id: nat, thread: Thread)
    requires t < |s.threads| && id < |s.queues| && Follows(s.threads[t], thread) && s.threads[t].Deleting?
    ensures Tame(s, t, SetThread(MarkRelease(s, id), t, thread))
  {
    hide Follows;
  }

  lemma TameRelease(s: Sys, t: nat, id: nat, last: Thread, other: Thread)
    requires t < |s.threads| && LeavesMessages(s.threads[t])
    requires t < |s.threads| && id < |s.ctxs|
    requires Follows(s.threads[t], s.threads[t]) && Follows(s.threads[t], last) && Follows(s.threads[t], other)
    ensures Tame(s, t, Release(s, t, id, last, other))
  {
    hide Follows, Tame;
    var c := s.ctxs[id];
    if c.ref == 0 {
      TameStill(s, Fault(s, true), t);
    } else {
      TameWithContext(s, Fault(s, c.freed), t, id, c.(ref := c.ref - 1), if c.ref == 1 then last else other);
    }
  }

  lemma TameStill(s: Sys, f: Sys, t: nat)
    requires t < |s.threads| && LeavesMessages(s.threads[t])
    requires t < |s.threads| && Follows(s.threads[t], s.threads[t])
    requires f.ctxs == s.ctxs && f.queues == s.queues && f.threads == s.threads
    ensures Tame(s, t, f)
  {
    hide Follows;
  }

  lemma TameMove(s: Sys, f: Sys, t: nat, thread: Thread)
    requires t < |s.threads| && LeavesMessages(s.threads[t])
    requires t < |s.threads| && Follows(s.threads[t], thread)
    requires f.ctxs == s.ctxs && f.queues == s.queues && f.threads == s.threads
    ensures Tame(s, t, SetThread(f, t, thread))
  {
    hide Follows;
  }

  /** The beginning of skynet_context_new, up to skynet_handle_register, which never gives out a handle in use. */
  function StepCreate(s: Sys, t: nat, handle: nat): (r: Sys)
    requires Shape(s) && t < |s.threads| && s.threads[t].Idle?
    ensures Tame(s, t, r)
    ensures SameFlags(s, r)
  {
    if Find(s.ctxs, handle) < |s.ctxs| then s
    else
      SetThread(s.(ctxs := s.ctxs + [Context(handle, 2, true, false, false)],
                   queues := s.queues + [Queue(handle, [], true, false, false, false, [], [])]),
                t, Creating(|s.ctxs|, false))
  }

  /** The context is registered, but its creator has not made its queue yet. */
  predicate Unmade(s: Sys, id: nat) {
    Creating(id, false) in s.threads
  }

  /** The beginning of skynet_context_push. */
  function StepSend(s: Sys, t: nat, to: nat, msg: int): (r: Sys)
    requires Shape(s) && t < |s.threads| && s.threads[t].Idle?
    ensures Tame(s, t, r)
    ensures SameFlags(s, r)
  {
    TameGrab(s, s, t, to, (id: nat) => Sending(id, msg), Idle);
    hide Tame, Follows, Find;
    Grab(s, t, to, (id: nat) => Sending(id, msg), Idle)
  }

  function StepRetire(s: Sys, t: nat, victim: nat): (r: Sys)
    requires Shape(s) && t < |s.threads| && s.threads[t].Idle?
    ensures Tame(s, t, r)
    ensures SameFlags(s, r)
  {
    TameUnregister(s, t, victim, (id: nat) => Unref(id, Idle), Idle);
    hide Tame, Follows, Find;
    Unregister(s, t, victim, (id: nat) => Unref(id, Idle), Idle)
  }

  function StepIdle(s: Sys, t: nat, c: Choice): (r: Sys)
    requires Shape(s) && t < |s.threads| && s.threads[t].Idle?
    ensures Tame(s, t, r)
    ensures SameFlags(s, r)
  {
    hide StepCreate, StepSend, StepRetire;
    match c
    case Create(handle) => StepCreate(s, t, handle)
    case Send(to, msg) => StepSend(s, t, to, msg)
    case Retire(victim) => StepRetire(s, t, victim)
    case Work => SetThread(s, t, Taking)
    case _ => s
  }

  function StepSending(s: Sys, t: nat): (r: Sys)
    requires Shape(s) && t < |s.threads| && s.threads[t].Sending?
    ensures Tame(s, t, r)
    ensures SameFlags(s.(early := s.early || Unmade(s, s.threads[t].id)), r)
  {
    assert Mentions(s.threads[t], |s.queues|);
    var Sending(id, msg) := s.threads[t];
    var s1 := s.(early := s.early || Unmade(s, id));
    TamePush(s, s1, t, id, msg, Unref(id, Idle));
    hide Tame, Follows, Mentions;
    SetThread(MqPush(s1, id, msg), t, Unref(id, Idle))
  }

  function StepTaking(s: Sys, t: nat): (r: Sys)
    requires Shape(s) && t < |s.threads| && s.threads[t].Taking?
    ensures Tame(s, t, r)
    ensures SameFlags(s, r)
  {
    assert Mentions(s.threads[t], |s.queues|);
    GlobalPop(s, t, Idle, (q: nat) => Holding(q))
  }

  function StepHolding(s: Sys, t: nat): (r: Sys)
    requires Shape(s) && t < |s.threads| && s.threads[t].Holding?
    ensures Tame(s, t, r)
    ensures SameFlags(s, r)
  {
    assert Mentions(s.threads[t], |s.queues|);
    var q := s.threads[t].id;
    var s1 := Fault(s, s.queues[q].freed);
    TameGrab(s, s1, t, s.queues[q].handle, (id: nat) => Running(id, q), Orphan(q, Taking));
    hide Tame, Follows, Find, Mentions;
    Grab(s1, t, s.queues[q].handle, (id: nat) => Running(id, q), Orphan(q, Taking))
  }

  /** What skynet_mq_pop leaves: without a message the queue is no longer in the global list. */
  function AfterPop(m: Queue): (r: Queue)
    ensures m.pushed == m.popped + m.msgs ==> r.pushed == r.popped + r.msgs
  {
    if m.msgs == [] then m.(inGlobal := false, lost := m.lost || m.release)
    else m.(msgs := m.msgs[1..], popped := m.popped + [m.msgs[0]])
  }

  lemma PopsTamely(thread: Thread, q: nat, m: Queue)
    requires thread.Running? && thread.q == q
    ensures TameQueue(thread, q, m, AfterPop(m))
  {
  }

  /** skynet_mq_pop, and what the worker does with the result. */
  function StepRunning(s: Sys, t: nat): (r: Sys)
    requires Shape(s) && t < |s.threads| && s.threads[t].Running?
    ensures Tame(s, t, r)
    ensures SameFlags(s, r)
  {
    assert Mentions(s.threads[t], |s.queues|);
    var Running(id, q) := s.threads[t];
    assert q < |s.ctxs|;
    hide Mentions, Shape, TameQueue, AfterPop;
    var m := s.queues[q];
    PopsTamely(s.threads[t], q, m);
    var next := if m.msgs == [] then Unref(id, Taking) else Serving(id, q);
    TameWithQueue(s, Fault(s, m.freed), t, q, AfterPop(m), next);
    hide Tame, Follows;
    SetThread(SetQueue(Fault(s, m.freed), q, AfterPop(m)), t, next)
  }

  /** dispatch_message, with its assertion that 'init' is set. */
  function StepServing(s: Sys, t: nat, c: Choice): (r: Sys)
    requires Shape(s) && t < |s.threads| && s.threads[t].Serving?
    requires s.threads[t].id < |s.ctxs|
    ensures Tame(s, t, r)
    ensures SameFlags(s.(broken := s.broken || (c.Dispatch? && !s.ctxs[s.threads[t].id].init)), r)
  {
    assert Mentions(s.threads[t], |s.queues|);
    var Serving(id, q) := s.threads[t];
    var s1 := Fault(s, s.ctxs[id].freed).(broken := s.broken || (c.Dispatch? && !s.ctxs[id].init));
    var next := if (c.Dispatch? || c.Skip?) && c.last then Ending(id, q) else Running(id, q);
    TameMove(s, s1, t, next);
    hide Tame, Follows, Mentions;
    SetThread(s1, t, next)
  }

  /** The assertion that the queue is the context's own, and the next queue. */
  function StepEnding(s: Sys, t: nat): (r: Sys)
    requires Shape(s) && t < |s.threads| && s.threads[t].Ending?
    ensures Tame(s, t, r)
    ensures SameFlags(s.(broken := s.broken || s.threads[t].id != s.threads[t].q), r)
  {
    assert Mentions(s.threads[t], |s.queues|);
    var Ending(id, q) := s.threads[t];
    GlobalPop(s.(broken := s.broken || id != q), t, Unref(id, Holding(q)), (nq: nat) => Swapping(id, q, nq))
  }

  function StepSwapping(s: Sys, t: nat): (r: Sys)
    requires Shape(s) && t < |s.threads| && s.threads[t].Swapping?
    ensures Tame(s, t, r)
    ensures SameFlags(s, r)
  {
    assert Mentions(s.threads[t], |s.queues|);
    var Swapping(id, q, nq) := s.threads[t];
    SetThread(GlobalPush(s, q), t, Unref(id, Holding(nq)))
  }

  /** skynet_mq_release. */
  function StepOrphan(s: Sys, t: nat): (r: Sys)
    requires Shape(s) && t < |s.threads| && s.threads[t].Orphan?
    ensures Tame(s, t, r)
    ensures SameFlags(s, r)
  {
    assert Mentions(s.threads[t], |s.queues|);
    var Orphan(id, k) := s.threads[t];
    var f := Fault(s, s.queues[id].freed);
    TameMove(s, f, t, Dropping(id, k));
    TameMove(s, GlobalPush(s, id), t, k);
    hide Tame, Follows, Mentions;
    if s.queues[id].release then SetThread(f, t, Dropping(id, k)) else SetThread(GlobalPush(s, id), t, k)
  }

  /** _drop_queue, one message at a time. drop_message, whose source is the handle of the queue, asserts that
      it is not 0. */
  function StepDropping(s: Sys, t: nat): (r: Sys)
    requires Shape(s) && t < |s.threads| && s.threads[t].Dropping?
    requires s.threads[t].id < |s.queues|
    ensures Tame(s, t, r)
    ensures SameFlags(s.(sourceless := s.sourceless || DropsFromZero(s.queues[s.threads[t].id])), r)
  {
    assert Mentions(s.threads[t], |s.queues|);
    var Dropping(id, k) := s.threads[t];
    assert id < |s.ctxs|;
    hide Mentions, Shape, TameQueue, AfterDrop;
    var q := s.queues[id];
    DropsTamely(s.threads[t], id, q);
    var next := if q.msgs != [] then Dropping(id, k) else k;
    var f := Fault(s.(sourceless := s.sourceless || DropsFromZero(q)), q.freed || (q.msgs == [] && id in s.global));
    TameWithQueue(s, f, t, id, AfterDrop(q), next);
    hide Tame, Follows;
    SetThread(SetQueue(f, id, AfterDrop(q)), t, next)
  }

  /** A message less, or the end of the queue. */
  function AfterDrop(m: Queue): Queue {
    if m.msgs != [] then AfterPop(m) else m.(inGlobal := false, freed := true)
  }

  lemma DropsTamely(thread: Thread, id: nat, q: Queue)
    requires thread.Dropping? && thread.id == id
    ensures TameQueue(thread, id, q, AfterDrop(q))
  {
  }

  predicate DropsFromZero(q: Queue) {
    q.msgs != [] && q.handle == 0
  }

  /** The creation of the queue, and then init. */
  function StepCreating(s: Sys, t: nat, c: Choice): (r: Sys)
    requires Shape(s) && t < |s.threads| && s.threads[t].Creating?
    ensures Tame(s, t, r)
    ensures SameFlags(s, r)
  {
    assert Mentions(s.threads[t], |s.queues|);
    var Creating(id, made) := s.threads[t];
    SetThread(s, t, if !made then Creating(id, true) else if c.InitFails? then Unref(id, Failed(id)) else Launching(id))
  }

  /** The release after a successful init; its result is NULL if the reference was the last one. */
  function StepLaunching(s: Sys, t: nat): (r: Sys)
    requires Shape(s) && t < |s.threads| && s.threads[t].Launching?
    ensures Tame(s, t, r)
    ensures SameFlags(s, r)
  {
    assert Mentions(s.threads[t], |s.queues|);
    var id := s.threads[t].id;
    assert id < |s.ctxs|;
    hide Mentions, Shape;
    TameRelease(s, t, id, Deleting(id, Publishing(id, false)), Starting(id));
    hide Tame, Follows;
    Release(s, t, id, Deleting(id, Publishing(id, false)), Starting(id))
  }

  function StepStarting(s: Sys, t: nat): (r: Sys)
    requires Shape(s) && t < |s.threads| && s.threads[t].Starting?
    requires s.threads[t].id < |s.ctxs|
    ensures Tame(s, t, r)
    ensures SameFlags(s.(stale := s.stale || s.ctxs[s.threads[t].id].freed), r)
  {
    assert Mentions(s.threads[t], |s.queues|);
    var id := s.threads[t].id;
    SetThread(SetContext(Touch(s, id), id, s.ctxs[id].(init := true)), t, Publishing(id, true))
  }

  function StepPublishing(s: Sys, t: nat): (r: Sys)
    requires Shape(s) && t < |s.threads| && s.threads[t].Publishing?
    ensures Tame(s, t, r)
    ensures SameFlags(s, r)
  {
    assert Mentions(s.threads[t], |s.queues|);
    var Publishing(id, told) := s.threads[t];
    SetThread(GlobalPush(s, id), t, if told then Announcing(id) else Idle)
  }

  /** skynet_error reads the handle if there is a logger; the message to it is a send like any other. */
  function StepAnnouncing(s: Sys, t: nat, c: Choice): (r: Sys)
    requires Shape(s) && t < |s.threads| && s.threads[t].Announcing?
    requires s.threads[t].id < |s.ctxs|
    ensures Tame(s, t, r)
    ensures SameFlags(s.(stale := s.stale || (!c.Quiet? && s.ctxs[s.threads[t].id].freed)), r)
  {
    assert Mentions(s.threads[t], |s.queues|);
    var id := s.threads[t].id;
    SetThread(if c.Quiet? then s else Touch(s, id), t, Reporting(id))
  }

  function StepReporting(s: Sys, t: nat): (r: Sys)
    requires Shape(s) && t < |s.threads| && s.threads[t].Reporting?
    requires s.threads[t].id < |s.ctxs|
    ensures Tame(s, t, r)
    ensures SameFlags(s.(stale := s.stale || s.ctxs[s.threads[t].id].freed), r)
  {
    assert Mentions(s.threads[t], |s.queues|);
    SetThread(Touch(s, s.threads[t].id), t, Idle)
  }

  function StepFailed(s: Sys, t: nat): (r: Sys)
    requires Shape(s) && t < |s.threads| && s.threads[t].Failed?
    ensures Tame(s, t, r)
    ensures SameFlags(s, r)
  {
    assert Mentions(s.threads[t], |s.queues|);
    var id := s.threads[t].id;
    TameUnregister(s, t, s.queues[id].handle, (victim: nat) => Unref(victim, Orphan(id, Idle)), Orphan(id, Idle));
    hide Tame, Follows, Find, Mentions;
    Unregister(s, t, s.queues[id].handle, (victim: nat) => Unref(victim, Orphan(id, Idle)), Orphan(id, Idle))
  }

  /** skynet_context_release. */
  function StepUnref(s: Sys, t: nat): (r: Sys)
    requires Shape(s) && t < |s.threads| && s.threads[t].Unref?
    ensures Tame(s, t, r)
    ensures SameFlags(s, r)
  {
    assert Mentions(s.threads[t], |s.queues|);
    var Unref(id, k) := s.threads[t];
    assert id < |s.ctxs|;
    hide Mentions, Shape;
    TameRelease(s, t, id, Deleting(id, k), k);
    hide Tame, Follows;
    Release(s, t, id, Deleting(id, k), k)
  }

  function StepDeleting(s: Sys, t: nat): (r: Sys)
    requires Shape(s) && t < |s.threads| && s.threads[t].Deleting?
    ensures Tame(s, t, r)
    ensures SameFlags(s, r)
  {
    assert Mentions(s.threads[t], |s.queues|);
    var Deleting(id, k) := s.threads[t];
    TameMark(s, t, id, Freeing(id, k));
    hide Tame, Follows, Mentions;
    SetThread(MarkRelease(s, id), t, Freeing(id, k))
  }

  function StepFreeing(s: Sys, t: nat): (r: Sys)
    requires Shape(s) && t < |s.threads| && s.threads[t].Freeing?
    ensures Tame(s, t, r)
    ensures SameFlags(s, r)
  {
    assert Mentions(s.threads[t], |s.queues|);
    var Freeing(id, k) := s.threads[t];
    SetThread(SetContext(Fault(s, s.ctxs[id].freed), id, s.ctxs[id].(freed := true)), t, k)
  }

  /** The state with the flags that the next step of thread 't' sets. */
  function Flagged(s: Sys, t: nat, c: Choice): Sys
    requires Shape(s) && t < |s.threads|
  {
    assert Mentions(s.threads[t], |s.queues|);
    match s.threads[t]
    case Sending(id, _) => s.(early := s.early || Unmade(s, id))
    case Serving(id, _) => s.(broken := s.broken || (c.Dispatch? && !s.ctxs[id].init))
    case Ending(id, q) => s.(broken := s.broken || id != q)
    case Dropping(id, _) => s.(sourceless := s.sourceless || DropsFromZero(s.queues[id]))
    case Starting(id) => s.(stale := s.stale || s.ctxs[id].freed)
    case Announcing(id) => s.(stale := s.stale || (!c.Quiet? && s.ctxs[id].freed))
    case Reporting(id) => s.(stale := s.stale || s.ctxs[id].freed)
    case _ => s
  }

  /** One step of thread 't'. A choice that does not fit the thread's place changes nothing. */
  function Step(s: Sys, t: nat, c: Choice): (r: Sys)
    requires Shape(s) && t < |s.threads|
    ensures Tame(s, t, r)
    ensures SameFlags(Flagged(s, t, c), r)
  {
    assert Mentions(s.threads[t], |s.queues|);
    hide Tame, Unmade, DropsFromZero, StepIdle, StepSending, StepTaking, StepHolding, StepRunning, StepServing,
      StepEnding, StepSwapping, StepOrphan, StepDropping, StepCreating, StepLaunching, StepStarting, StepPublishing,
      StepAnnouncing, StepReporting, StepFailed, StepUnref, StepDeleting, StepFreeing;
    match s.threads[t]
    case Idle => StepIdle(s, t, c)
    case Sending(_, _) => StepSending(s, t)
    case Taking => StepTaking(s, t)
    case Holding(_) => StepHolding(s, t)
    case Running(_, _) => StepRunning(s, t)
    case Serving(_, _) => StepServing(s, t, c)
    case Ending(_, _) => StepEnding(s, t)
    case Swapping(_, _, _) => StepSwapping(s, t)
    case Orphan(_, _) => StepOrphan(s, t)
    case Dropping(_, _) => StepDropping(s, t)
    case Creating(_, _) => StepCreating(s, t, c)
    case Launching(_) => StepLaunching(s, t)
    case Starting(_) => StepStarting(s, t)
    case Publishing(_, _) => StepPublishing(s, t)
    case Announcing(_) => StepAnnouncing(s, t, c)
    case Reporting(_) => StepReporting(s, t)
    case Failed(_) => StepFailed(s, t)
    case Unref(_, _) => StepUnref(s, t)
    case Deleting(_, _) => StepDeleting(s, t)
    case Freeing(_, _) => StepFreeing(s, t)
  }

  // ----- counting what the threads have -----

  /** References to a context, holds on a queue, and the stages of deletion; threads that have still to
      set 'init' or to retire the handle; workers that serve a context with the queue of its own. */
  datatype Kind = Refs | Holds | Deletes | Frees | Drops | News | Runs

  function B(b: bool): nat {
    if b then 1 else 0
  }

  function Minus(b: bool): int {
    if b then -1 else 0
  }

  /** What a thread has at its present place, leaving aside what comes next. */
  function Own(kind: Kind, thread: Thread, x: nat): nat {
    match thread
    case Idle => 0
    case Taking => 0
    case Sending(id, _) => B(kind == Refs && id == x)
    case Holding(id) => B(kind == Holds && id == x)
    case Running(id, q) => Serves(kind, id, q, x)
    case Serving(id, q) => Serves(kind, id, q, x)
    case Ending(id, q) => B(kind == Refs && id == x) + B(kind == Holds && q == x)
    case Swapping(id, q, nq) => B(kind == Refs && id == x) + B(kind == Holds && q == x) + B(kind == Holds && nq == x)
    case Orphan(id, _) => B(kind == Holds && id == x)
    case Dropping(id, _) => B((kind == Holds || kind == Drops) && id == x)
    case Creating(id, _) => B((kind == Refs || kind == Holds || kind == News) && id == x)
    case Launching(id) => B((kind == Refs || kind == Holds || kind == News) && id == x)
    case Starting(id) => B((kind == Holds || kind == News) && id == x)
    case Publishing(id, _) => B(kind == Holds && id == x)
    case Announcing(_) => 0
    case Reporting(_) => 0
    case Failed(id) => B((kind == Holds || kind == News) && id == x)
    case Unref(id, _) => B(kind == Refs && id == x)
    case Deleting(id, _) => B(kind == Deletes && id == x)
    case Freeing(id, _) => B(kind == Frees && id == x)
  }

  function Serves(kind: Kind, id: nat, q: nat, x: nat): nat {
    B(kind == Refs && id == x) + B(kind == Holds && q == x) + B(kind == Runs && id == q == x)
  }

  predicate HasNext(thread: Thread) {
    thread.Orphan? || thread.Dropping? || thread.Unref? || thread.Deleting? || thread.Freeing?
  }

  function Weight(kind: Kind, thread: Thread, x: nat): nat {
    Own(kind, thread, x) + if HasNext(thread) then Weight(kind, thread.k, x) else 0
  }

  function Sum(kind: Kind, threads: seq<Thread>, x: nat): nat {
    if threads == [] then 0 else Weight(kind, threads[0], x) + Sum(kind, threads[1..], x)
  }

  function Count(list: seq<nat>, x: nat): nat {
    if list == [] then 0 else B(list[0] == x) + Count(list[1..], x)
  }

  lemma {:induction false} SumUpdate(kind: Kind, threads: seq<Thread>, t: nat, thread: Thread, x: nat)
    requires t < |threads|
    ensures Sum(kind, threads[t := thread], x)
      == Sum(kind, threads, x) - Weight(kind, threads[t], x) + Weight(kind, thread, x)
    ensures Weight(kind, threads[t], x) <= Sum(kind, threads, x)
    decreases |threads|
  {
    if t == 0 {
      assert threads[t := thread][1..] == threads[1..];
    } else {
      assert threads[t := thread][1..] == threads[1..][t - 1 := thread];
      SumUpdate(kind, threads[1..], t - 1, thread, x);
    }
  }

  lemma {:induction false} CountAppend(list: seq<nat>, y: nat, x: nat)
    ensures Count(list + [y], x) == Count(list, x) + B(y == x)
    decreases |list|
  {
    if list == [] {
      assert list + [y] == [y];
    } else {
      assert (list + [y])[1..] == list[1..] + [y];
      CountAppend(list[1..], y, x);
    }
  }

  lemma {:induction false} CountMember(list: seq<nat>, x: nat)
    ensures x in list <==> Count(list, x) > 0
    decreases |list|
  {
    if list != [] {
      CountMember(list[1..], x);
    }
  }

  // ----- the invariant -----

  /** The places a queue is in: the global list and the threads that hold it. */
  function Places(s: Sys, id: nat): nat {
    Count(s.global, id) + Sum(Holds, s.threads, id)
  }

  ghost predicate InvAt(s: Sys, id: nat)
    requires id < |s.ctxs| == |s.queues|
  {
    var c, q := s.ctxs[id], s.queues[id];
    var deletes, frees := Sum(Deletes, s.threads, id), Sum(Frees, s.threads, id);
    // every reference is the table's or a thread's
    && c.ref == B(c.registered) + Sum(Refs, s.threads, id)
    // the last reference leads to one deletion
    && deletes + frees + B(c.freed) == B(c.ref == 0)
    && (q.release <==> c.ref == 0 && deletes == 0)
    // a live queue is in one place, or idle and empty
    && Places(s, id) == B(!q.freed && !q.lost && (q.inGlobal || q.release))
    && (!q.freed && !q.inGlobal && (q.lost || !q.release) ==> q.msgs == [])
    && (q.lost ==> q.release && !q.inGlobal && !q.freed)
    && (q.freed || Sum(Drops, s.threads, id) > 0 ==> q.release)
    // messages leave in the order they came
    && q.pushed == q.popped + q.msgs
  }

  ghost predicate Inv(s: Sys) {
    && Shape(s)
    && !s.bad
    && (forall id {:trigger InvAt(s, id)} :: 0 <= id < |s.ctxs| ==> InvAt(s, id))
  }

  lemma {:induction false} NoMention(kind: Kind, thread: Thread, n: nat, x: nat)
    requires Mentions(thread, n) && x >= n
    ensures Weight(kind, thread, x) == 0
  {
    match thread
    case Orphan(_, k) => NoMention(kind, k, n, x);
    case Dropping(_, k) => NoMention(kind, k, n, x);
    case Unref(_, k) => NoMention(kind, k, n, x);
    case Deleting(_, k) => NoMention(kind, k, n, x);
    case Freeing(_, k) => NoMention(kind, k, n, x);
    case _ =>
  }

  lemma {:induction false} NoMentions(kind: Kind, threads: seq<Thread>, n: nat, x: nat)
    requires (forall t :: 0 <= t < |threads| ==> Mentions(threads[t], n)) && x >= n
    ensures Sum(kind, threads, x) == 0
    decreases |threads|
  {
    if threads != [] {
      NoMention(kind, threads[0], n, x);
      NoMentions(kind, threads[1..], n, x);
    }
  }

  lemma {:induction false} NotListed(list: seq<nat>, n: nat, x: nat)
    requires (forall k :: 0 <= k < |list| ==> list[k] < n) && x >= n
    ensures Count(list, x) == 0
    decreases |list|
  {
    if list != [] {
      NotListed(list[1..], n, x);
    }
  }

  // ----- every step keeps the invariant -----

  predicate Opens(kind: Kind, thread: Thread, x: nat) {
    Weight(kind, thread, x) == Own(kind, thread, x) + if HasNext(thread) then Weight(kind, thread.k, x) else 0
  }

  /** What a thread has, one place further than its own. */
  lemma Open(thread: Thread, x: nat)
    ensures Opens(Refs, thread, x) && Opens(Holds, thread, x) && Opens(Deletes, thread, x)
    ensures Opens(Frees, thread, x) && Opens(Drops, thread, x)
  {
  }

  predicate Moves(kind: Kind, threads: seq<Thread>, t: nat, thread: Thread, x: nat)
    requires t < |threads|
  {
    && Weight(kind, threads[t], x) <= Sum(kind, threads, x)
    && Sum(kind, threads[t := thread], x)
         == Sum(kind, threads, x) - Weight(kind, threads[t], x) + Weight(kind, thread, x)
  }

  /** How all the sums change when thread 't' moves on, and what it had and has. */
  lemma Tally(threads: seq<Thread>, t: nat, thread: Thread, x: nat)
    requires t < |threads|
    ensures Moves(Refs, threads, t, thread, x) && Moves(Holds, threads, t, thread, x)
    ensures Moves(Deletes, threads, t, thread, x) && Moves(Frees, threads, t, thread, x)
    ensures Moves(Drops, threads, t, thread, x)
  {
    SumUpdate(Refs, threads, t, thread, x);
    SumUpdate(Holds, threads, t, thread, x);
    SumUpdate(Deletes, threads, t, thread, x);
    SumUpdate(Frees, threads, t, thread, x);
    SumUpdate(Drops, threads, t, thread, x);
  }

  /** The thread at 'b' has so many references and holds more than at 'a', and the rest alike. */
  predicate Trades(a: Thread, b: Thread, x: nat, refs: int, holds: int) {
    Changed(a, b, x, refs, holds, 0, 0, 0)
  }

  predicate Changed(a: Thread, b: Thread, x: nat, refs: int, holds: int, deletes: int, frees: int, drops: int) {
    && Weight(Refs, b, x) == Weight(Refs, a, x) + refs
    && Weight(Holds, b, x) == Weight(Holds, a, x) + holds
    && Weight(Deletes, b, x) == Weight(Deletes, a, x) + deletes
    && Weight(Frees, b, x) == Weight(Frees, a, x) + frees
    && Weight(Drops, b, x) == Weight(Drops, a, x) + drops
  }

  predicate Same(a: Thread, b: Thread, x: nat) {
    Trades(a, b, x, 0, 0)
  }

  predicate MoreRefs(a: Thread, b: Thread, x: nat, id: nat) {
    Trades(a, b, x, B(x == id), 0)
  }

  predicate MoreHolds(a: Thread, b: Thread, x: nat, id: nat) {
    Trades(a, b, x, 0, B(x == id))
  }

  /** Putting together the invariant of the next state. */
  lemma InvHolds(s: Sys, t: nat, thread: Thread, next: Sys)
    requires Inv(s) && t < |s.threads| && next.threads == s.threads[t := thread]
    requires |next.ctxs| == |next.queues| == |s.queues| && Mentions(thread, |s.queues|)
    requires forall k :: 0 <= k < |next.global| ==> next.global[k] < |next.queues|
    requires !next.bad && forall id {:trigger InvAt(next, id)} :: 0 <= id < |s.ctxs| ==> InvAt(next, id)
    ensures Inv(next)
  {
    forall j | 0 <= j < |next.threads|
      ensures Mentions(next.threads[j], |next.queues|)
    {
      assert Mentions(s.threads[j], |s.queues|);
    }
  }

  /** What a step leaves alone. */
  lemma Elsewhere(s: Sys, t: nat, thread: Thread, next: Sys, x: nat)
    requires Inv(s) && t < |s.threads| && x < |s.ctxs| <= |next.ctxs| == |next.queues|
    requires next.ctxs[x] == s.ctxs[x] && next.queues[x] == s.queues[x] && Count(next.global, x) == Count(s.global, x)
    requires next.threads == s.threads[t := thread] && Same(s.threads[t], thread, x)
    ensures InvAt(next, x)
  {
    assert InvAt(s, x);
    Tally(s.threads, t, thread, x);
    hide Weight, Sum, Count;
  }

  /** A step that changes one queue, and may put it in the global list. */
  lemma QueueKeeps(s: Sys, t: nat, id: nat, thread: Thread, next: Sys)
    requires Inv(s) && t < |s.threads| && id < |s.ctxs| && next.ctxs == s.ctxs && |next.queues| == |s.queues|
    requires forall x :: 0 <= x < |s.queues| && x != id ==> next.queues[x] == s.queues[x]
    requires next.global == s.global || next.global == s.global + [id]
    requires next.threads == s.threads[t := thread] && Mentions(thread, |s.queues|)
    requires forall x: nat :: x != id ==> Same(s.threads[t], thread, x)
    requires !next.bad && InvAt(next, id)
    ensures Inv(next)
  {
    hide Weight, Sum, Count, Mentions, Same, InvAt;
    forall x | 0 <= x < |s.ctxs| ensures InvAt(next, x) {
      if x != id {
        CountAppend(s.global, id, x);
        Elsewhere(s, t, thread, next, x);
      }
    }
    InvHolds(s, t, thread, next);
  }

  lemma NewSum(kind: Kind, threads: seq<Thread>, t: nat, n: nat)
    requires t < |threads| && threads[t].Idle? && forall u :: 0 <= u < |threads| ==> Mentions(threads[u], n)
    ensures Sum(kind, threads[t := Creating(n, false)], n) == Own(kind, Creating(n, false), n)
  {
    SumUpdate(kind, threads, t, Creating(n, false), n);
    NoMentions(kind, threads, n, n);
    assert Weight(kind, Idle, n) == Own(kind, Idle, n);
    hide Mentions, Sum;
  }

  /** The counts of a context and a queue just created. */
  lemma NewAt(s: Sys, t: nat, handle: nat)
    requires Inv(s) && t < |s.threads| && s.threads[t].Idle? && Find(s.ctxs, handle) == |s.ctxs|
    ensures var next := StepCreate(s, t, handle);
      |next.ctxs| == |next.queues| == |s.ctxs| + 1 && InvAt(next, |s.ctxs|)
  {
    var n := |s.ctxs|;
    NewSum(Refs, s.threads, t, n);
    NewSum(Holds, s.threads, t, n);
    NewSum(Deletes, s.threads, t, n);
    NewSum(Frees, s.threads, t, n);
    NewSum(Drops, s.threads, t, n);
    NotListed(s.global, n, n);
    var next := StepCreate(s, t, handle);
    assert next.threads == s.threads[t := Creating(n, false)] && next.global == s.global;
    hide *;
    NewCounts(next, n, handle);
  }

  lemma NewCounts(s: Sys, n: nat, handle: nat)
    requires |s.ctxs| == |s.queues| == n + 1 && s.ctxs[n] == Context(handle, 2, true, false, false)
    requires s.queues[n] == Queue(handle, [], true, false, false, false, [], [])
    requires Sum(Refs, s.threads, n) == Sum(Holds, s.threads, n) == 1 && Count(s.global, n) == 0
    requires Sum(Deletes, s.threads, n) == Sum(Frees, s.threads, n) == Sum(Drops, s.threads, n) == 0
    ensures InvAt(s, n)
  {
    hide Sum, Count;
  }

  lemma CreateKeeps(s: Sys, t: nat, handle: nat)
    requires Inv(s) && t < |s.threads| && s.threads[t].Idle? && Find(s.ctxs, handle) == |s.ctxs|
    ensures Inv(StepCreate(s, t, handle))
  {
    hide Weight, Sum, Count, Find, Tame;
    var next := StepCreate(s, t, handle);
    var n := |s.ctxs|;
    forall j | 0 <= j < |next.threads|
      ensures Mentions(next.threads[j], n + 1)
    {
      MentionsMore(s.threads[j], n, n + 1);
    }
    NewAt(s, t, handle);
    forall id | 0 <= id < n + 1
      ensures InvAt(next, id)
    {
      if id < n {
        Compare(Idle, Creating(n, false), id);
        Elsewhere(s, t, Creating(n, false), next, id);
      }
    }
  }

  lemma {:induction false} MentionsMore(thread: Thread, m: nat, n: nat)
    requires Mentions(thread, m) && m <= n
    ensures Mentions(thread, n)
  {
    match thread
    case Orphan(_, k) => MentionsMore(k, m, n);
    case Dropping(_, k) => MentionsMore(k, m, n);
    case Unref(_, k) => MentionsMore(k, m, n);
    case Deleting(_, k) => MentionsMore(k, m, n);
    case Freeing(_, k) => MentionsMore(k, m, n);
    case _ =>
  }

  /** A thread that moves on without giving or taking anything. */
  lemma MoveKeeps(s: Sys, t: nat, thread: Thread)
    requires Inv(s) && t < |s.threads| && Mentions(thread, |s.queues|)
    requires forall x :: Same(s.threads[t], thread, x)
    ensures Inv(SetThread(s, t, thread))
  {
    hide Weight, Sum, Count, Mentions, Find;
    var next := SetThread(s, t, thread);
    forall x | 0 <= x < |s.ctxs|
      ensures InvAt(next, x)
    {
      assert InvAt(s, x);
      assert Same(s.threads[t], thread, x);
      Tally(s.threads, t, thread, x);
    }
    InvHolds(s, t, thread, next);
  }

  /** Grabbing a registered context, or taking over the reference of the handle table. */
  lemma RefKeeps(s: Sys, t: nat, id: nat, c: Context, thread: Thread)
    requires Inv(s) && t < |s.threads| && id < |s.ctxs| && s.ctxs[id].registered && Mentions(thread, |s.queues|)
    requires c == s.ctxs[id].(ref := s.ctxs[id].ref + 1) || c == s.ctxs[id].(registered := false)
    requires forall x :: MoreRefs(s.threads[t], thread, x, id)
    ensures !s.ctxs[id].freed && Inv(SetThread(SetContext(s, id, c), t, thread))
  {
    hide Weight, Sum, Count, Mentions;
    var next := SetThread(SetContext(s, id, c), t, thread);
    assert InvAt(s, id);
    forall x | 0 <= x < |s.ctxs|
      ensures InvAt(next, x)
    {
      assert InvAt(s, x);
      assert MoreRefs(s.threads[t], thread, x, id);
      Tally(s.threads, t, thread, x);
    }
    InvHolds(s, t, thread, next);
  }

  lemma GrabKeeps(s: Sys, t: nat, handle: nat, found: nat -> Thread, lost: Thread)
    requires Inv(s) && t < |s.threads| && Mentions(lost, |s.queues|)
    requires forall id: nat :: id < |s.ctxs| ==> Mentions(found(id), |s.queues|)
    requires forall x :: Same(s.threads[t], lost, x)
    requires forall x, id: nat :: id < |s.ctxs| ==> MoreRefs(s.threads[t], found(id), x, id)
    ensures Inv(Grab(s, t, handle, found, lost))
  {
    hide Inv, Trades, Mentions;
    var id := Find(s.ctxs, handle);
    if id < |s.ctxs| {
      RefKeeps(s, t, id, s.ctxs[id].(ref := s.ctxs[id].ref + 1), found(id));
    } else {
      MoveKeeps(s, t, lost);
    }
  }

  lemma UnregisterKeeps(s: Sys, t: nat, handle: nat, found: nat -> Thread, lost: Thread)
    requires Inv(s) && t < |s.threads| && Mentions(lost, |s.queues|)
    requires forall id: nat :: id < |s.ctxs| ==> Mentions(found(id), |s.queues|)
    requires forall x :: Same(s.threads[t], lost, x)
    requires forall x, id: nat :: id < |s.ctxs| ==> MoreRefs(s.threads[t], found(id), x, id)
    ensures Inv(Unregister(s, t, handle, found, lost))
  {
    hide Inv, Trades, Mentions;
    var id := Find(s.ctxs, handle);
    if id < |s.ctxs| {
      RefKeeps(s, t, id, s.ctxs[id].(registered := false), found(id));
    } else {
      MoveKeeps(s, t, lost);
    }
  }

  /** Popping the global list gives the thread one hold more. */
  lemma PopKeeps(s: Sys, t: nat, none: Thread, some: nat -> Thread)
    requires Inv(s) && t < |s.threads| && Mentions(none, |s.queues|)
    requires forall x :: Same(s.threads[t], none, x)
    requires s.global != [] ==>
               && Mentions(some(s.global[0]), |s.queues|)
               && forall x :: MoreHolds(s.threads[t], some(s.global[0]), x, s.global[0])
    ensures Inv(GlobalPop(s, t, none, some))
  {
    hide Weight, Sum, Mentions;
    var next := GlobalPop(s, t, none, some);
    var thread := next.threads[t];
    assert next.threads == s.threads[t := thread];
    forall x | 0 <= x < |s.ctxs|
      ensures InvAt(next, x)
    {
      assert InvAt(s, x);
      assert s.global == [] ==> Same(s.threads[t], none, x);
      assert s.global != [] ==> MoreHolds(s.threads[t], some(s.global[0]), x, s.global[0]);
      Tally(s.threads, t, thread, x);
    }
    InvHolds(s, t, thread, next);
  }

  /** Pushing back a queue gives up the hold on it. */
  lemma PushKeeps(s: Sys, t: nat, id: nat, thread: Thread)
    requires Inv(s) && t < |s.threads| && id < |s.queues| && Mentions(thread, |s.queues|)
    requires forall x :: MoreHolds(thread, s.threads[t], x, id)
    ensures Inv(SetThread(GlobalPush(s, id), t, thread))
  {
    hide Weight, Sum, Count, Mentions;
    var next := SetThread(GlobalPush(s, id), t, thread);
    assert InvAt(s, id);
    assert MoreHolds(thread, s.threads[t], id, id);
    Tally(s.threads, t, thread, id);
    CountMember(s.global, id);
    forall x | 0 <= x < |s.ctxs|
      ensures InvAt(next, x)
    {
      assert InvAt(s, x);
      assert MoreHolds(thread, s.threads[t], x, id);
      Tally(s.threads, t, thread, x);
      CountAppend(s.global, id, x);
    }
    InvHolds(s, t, thread, next);
  }

  predicate AllOpen(thread: Thread, x: nat) {
    Opens(Refs, thread, x) && Opens(Holds, thread, x) && Opens(Deletes, thread, x) && Opens(Frees, thread, x)
      && Opens(Drops, thread, x)
  }

  lemma SendingChanges(a: Thread, b: Thread, x: nat)
    requires a.Sending? && b == Unref(a.id, Idle)
    ensures Same(a, b, x)
  {
    Compare(a, b, x);
  }

  lemma SendingAt(s: Sys, t: nat)
    requires Inv(s) && t < |s.threads| && s.threads[t].Sending?
    ensures s.threads[t].id < |s.ctxs|
    ensures var next := StepSending(s, t); !next.bad && InvAt(next, s.threads[t].id)
  {
    assert Mentions(s.threads[t], |s.queues|);
    var Sending(id, msg) := s.threads[t];
    var next := StepSending(s, t);
    var thread := next.threads[t];
    assert thread == Unref(id, Idle) && Mentions(thread, |s.queues|);
    assert next.threads == s.threads[t := thread];
    hide Weight, Own, Sum, Count, Mentions, Tame, Follows;
    assert InvAt(s, id);
    CountMember(s.global, id);
    SendingChanges(s.threads[t], thread, id);
    Tally(s.threads, t, thread, id);
    CountAppend(s.global, id, id);
  }

  lemma SendingKeeps(s: Sys, t: nat)
    requires Inv(s) && t < |s.threads| && s.threads[t].Sending?
    ensures Inv(StepSending(s, t))
  {
    assert Mentions(s.threads[t], |s.queues|);
    var Sending(id, msg) := s.threads[t];
    var next := StepSending(s, t);
    var thread := next.threads[t];
    assert thread == Unref(id, Idle) && Mentions(thread, |s.queues|);
    assert next.threads == s.threads[t := thread];
    SendingAt(s, t);
    hide Weight, Own, Sum, Count, Mentions, Tame, Follows, InvAt, Inv, Find;
    forall x: nat | x != id ensures Same(s.threads[t], thread, x) {
      SendingChanges(s.threads[t], thread, x);
    }
    QueueKeeps(s, t, id, thread, next);
  }

  lemma RunningChanges(a: Thread, b: Thread, x: nat)
    requires a.Running? && (b == Unref(a.id, Taking) || b == Serving(a.id, a.q))
    ensures Changed(a, b, x, 0, if b.Unref? then Minus(x == a.q) else 0, 0, 0, 0)
  {
    Compare(a, b, x);
  }

  lemma RunningKeeps(s: Sys, t: nat)
    requires Inv(s) && t < |s.threads| && s.threads[t].Running?
    ensures Inv(StepRunning(s, t))
  {
    hide Tame, Follows;
    assert Mentions(s.threads[t], |s.queues|);
    var Running(c, id) := s.threads[t];
    var next := StepRunning(s, t);
    var thread := next.threads[t];
    assert thread == (if s.queues[id].msgs == [] then Unref(c, Taking) else Serving(c, id))
      && Mentions(thread, |s.queues|);
    assert next.threads == s.threads[t := thread];
    hide Weight, Own, Sum, Count, Mentions;
    assert InvAt(s, id);
    RunningChanges(s.threads[t], thread, id);
    Tally(s.threads, t, thread, id);
    assert InvAt(next, id);
    forall x | 0 <= x < |s.ctxs|
      ensures InvAt(next, x)
    {
      if x != id {
        RunningChanges(s.threads[t], thread, x);
        Elsewhere(s, t, thread, next, x);
      }
    }
    InvHolds(s, t, thread, next);
  }

  lemma QueueThere(s: Sys, t: nat)
    requires Shape(s) && t < |s.threads|
    ensures s.threads[t].Running? || s.threads[t].Serving? || s.threads[t].Ending? || s.threads[t].Swapping? ==>
              s.threads[t].id < |s.queues| && s.threads[t].q < |s.queues|
  {
    assert Mentions(s.threads[t], |s.queues|);
  }

  /** The flags other than 'bad' are no part of the invariant. */
  lemma FlagsKeep(s: Sys, next: Sys)
    requires Inv(s)
    requires next ==
      s.(stale := next.stale, broken := next.broken, sourceless := next.sourceless, early := next.early)
    ensures Inv(next)
  {
    hide Weight, Sum, Count, Mentions;
    forall id | 0 <= id < |s.ctxs| ensures InvAt(next, id) {
      assert InvAt(s, id);
    }
    forall u | 0 <= u < |s.threads| ensures Mentions(next.threads[u], |next.queues|) {
      assert Mentions(s.threads[u], |s.queues|);
    }
  }

  /** A context that a thread has a reference to has not been freed. */
  lemma ReferredIsLive(s: Sys, t: nat, id: nat)
    requires Inv(s) && t < |s.threads| && id < |s.queues| && Own(Refs, s.threads[t], id) > 0
    ensures !s.ctxs[id].freed && s.ctxs[id].ref > 0
  {
    assert InvAt(s, id);
    SumUpdate(Refs, s.threads, t, Idle, id);
    Open(s.threads[t], id);
  }

  lemma ServingKeeps(s: Sys, t: nat, c: Choice)
    requires Inv(s) && t < |s.threads| && s.threads[t].Serving?
    ensures Inv(StepServing(s, t, c))
  {
    QueueThere(s, t);
    var Serving(id, q) := s.threads[t];
    ReferredIsLive(s, t, id);
    hide Inv, InvAt, Sum, Weight, Find;
    var thread := if (c.Dispatch? || c.Skip?) && c.last then Ending(id, q) else Running(id, q);
    forall x ensures Same(s.threads[t], thread, x) {
      Compare(s.threads[t], thread, x);
    }
    MoveKeeps(s, t, thread);
    FlagsKeep(SetThread(s, t, thread), StepServing(s, t, c));
  }

  lemma DroppingChanges(a: Thread, b: Thread, x: nat)
    requires a.Dropping? && (b == a || b == a.k)
    ensures b == a || Changed(a, b, x, 0, Minus(x == a.id), 0, 0, Minus(x == a.id))
  {
    Compare(a, b, x);
  }

  lemma DroppingAt(s: Sys, t: nat)
    requires Inv(s) && t < |s.threads| && s.threads[t].Dropping?
    ensures s.threads[t].id < |s.ctxs|
    ensures var next := StepDropping(s, t); !next.bad && InvAt(next, s.threads[t].id)
  {
    assert Mentions(s.threads[t], |s.queues|);
    var Dropping(id, k) := s.threads[t];
    var next := StepDropping(s, t);
    var thread := next.threads[t];
    assert thread == (if s.queues[id].msgs == [] then k else s.threads[t]) && Mentions(thread, |s.queues|);
    assert next.threads == s.threads[t := thread];
    hide Weight, Own, Sum, Count, Mentions, Tame, Follows;
    assert InvAt(s, id);
    CountMember(s.global, id);
    DroppingChanges(s.threads[t], thread, id);
    Tally(s.threads, t, thread, id);
    CountAppend(s.global, id, id);
  }

  lemma DroppingKeeps(s: Sys, t: nat)
    requires Inv(s) && t < |s.threads| && s.threads[t].Dropping?
    ensures s.threads[t].id < |s.queues| && Inv(StepDropping(s, t))
  {
    assert Mentions(s.threads[t], |s.queues|);
    var Dropping(id, k) := s.threads[t];
    var next := StepDropping(s, t);
    var thread := next.threads[t];
    assert thread == (if s.queues[id].msgs == [] then k else s.threads[t]) && Mentions(thread, |s.queues|);
    assert next.threads == s.threads[t := thread];
    DroppingAt(s, t);
    hide Weight, Own, Sum, Count, Mentions, Tame, Follows, InvAt, Inv, Find;
    forall x: nat | x != id ensures Same(s.threads[t], thread, x) {
      DroppingChanges(s.threads[t], thread, x);
    }
    QueueKeeps(s, t, id, thread, next);
  }

  lemma OrphanChanges(a: Thread, b: Thread, x: nat)
    requires a.Orphan? && b == Dropping(a.id, a.k)
    ensures Changed(a, b, x, 0, 0, 0, 0, B(x == a.id))
  {
    Compare(a, b, x);
  }

  lemma OrphanKeeps(s: Sys, t: nat)
    requires Inv(s) && t < |s.threads| && s.threads[t].Orphan?
    requires s.threads[t].id < |s.queues| && s.queues[s.threads[t].id].release
    ensures Inv(StepOrphan(s, t))
  {
    hide Tame, Follows;
    assert Mentions(s.threads[t], |s.queues|);
    var Orphan(id, k) := s.threads[t];
    var next := StepOrphan(s, t);
    var thread := next.threads[t];
    assert thread == Dropping(id, k) && Mentions(thread, |s.queues|);
    assert next.threads == s.threads[t := thread];
    hide Weight, Own, Sum, Count, Mentions;
    assert InvAt(s, id);
    OrphanChanges(s.threads[t], thread, id);
    Tally(s.threads, t, thread, id);
    assert InvAt(next, id);
    forall x | 0 <= x < |s.ctxs|
      ensures InvAt(next, x)
    {
      if x != id {
        OrphanChanges(s.threads[t], thread, x);
        Elsewhere(s, t, thread, next, x);
      }
    }
    InvHolds(s, t, thread, next);
  }

  lemma UnrefChanges(a: Thread, b: Thread, x: nat)
    requires a.Unref? && (b == a.k || b == Deleting(a.id, a.k))
    ensures b == a.k ==> Changed(a, b, x, Minus(x == a.id), 0, 0, 0, 0)
    ensures b == Deleting(a.id, a.k) ==> Changed(a, b, x, Minus(x == a.id), 0, B(x == a.id), 0, 0)
  {
    Compare(a, b, x);
  }

  lemma UnrefKeeps(s: Sys, t: nat)
    requires Inv(s) && t < |s.threads| && s.threads[t].Unref?
    ensures Inv(StepUnref(s, t))
  {
    hide Tame, Follows;
    assert Mentions(s.threads[t], |s.queues|);
    var Unref(id, k) := s.threads[t];
    ReferredIsLive(s, t, id);
    var next := StepUnref(s, t);
    var thread := next.threads[t];
    assert thread == (if s.ctxs[id].ref == 1 then Deleting(id, k) else k) && Mentions(thread, |s.queues|);
    assert next.threads == s.threads[t := thread];
    hide Weight, Own, Sum, Count, Mentions;
    assert InvAt(s, id);
    UnrefChanges(s.threads[t], thread, id);
    Tally(s.threads, t, thread, id);
    assert InvAt(next, id);
    forall x | 0 <= x < |s.ctxs|
      ensures InvAt(next, x)
    {
      if x != id {
        UnrefChanges(s.threads[t], thread, x);
        Elsewhere(s, t, thread, next, x);
      }
    }
    InvHolds(s, t, thread, next);
  }

  lemma FreeingChanges(a: Thread, b: Thread, x: nat)
    requires a.Freeing? && b == a.k
    ensures Changed(a, b, x, 0, 0, 0, Minus(x == a.id), 0)
  {
    Compare(a, b, x);
  }

  lemma FreeingKeeps(s: Sys, t: nat)
    requires Inv(s) && t < |s.threads| && s.threads[t].Freeing?
    ensures Inv(StepFreeing(s, t))
  {
    hide Tame, Follows;
    assert Mentions(s.threads[t], |s.queues|);
    var Freeing(id, k) := s.threads[t];
    var next := StepFreeing(s, t);
    var thread := next.threads[t];
    assert thread == k && Mentions(thread, |s.queues|);
    assert next.threads == s.threads[t := thread];
    hide Weight, Own, Sum, Count, Mentions;
    assert InvAt(s, id);
    FreeingChanges(s.threads[t], thread, id);
    Tally(s.threads, t, thread, id);
    assert InvAt(next, id);
    forall x | 0 <= x < |s.ctxs|
      ensures InvAt(next, x)
    {
      if x != id {
        FreeingChanges(s.threads[t], thread, x);
        Elsewhere(s, t, thread, next, x);
      }
    }
    InvHolds(s, t, thread, next);
  }

  lemma DeletingChanges(a: Thread, b: Thread, x: nat)
    requires a.Deleting? && b == Freeing(a.id, a.k)
    ensures Changed(a, b, x, 0, 0, Minus(x == a.id), B(x == a.id), 0)
  {
    Compare(a, b, x);
  }

  lemma DeletingAt(s: Sys, t: nat)
    requires Inv(s) && t < |s.threads| && s.threads[t].Deleting?
    ensures s.threads[t].id < |s.ctxs|
    ensures var next := StepDeleting(s, t); !next.bad && InvAt(next, s.threads[t].id)
  {
    assert Mentions(s.threads[t], |s.queues|);
    var Deleting(id, k) := s.threads[t];
    var next := StepDeleting(s, t);
    var thread := next.threads[t];
    assert thread == Freeing(id, k) && Mentions(thread, |s.queues|);
    assert next.threads == s.threads[t := thread];
    hide Weight, Own, Sum, Count, Mentions, Tame, Follows;
    assert InvAt(s, id);
    CountMember(s.global, id);
    DeletingChanges(s.threads[t], thread, id);
    Tally(s.threads, t, thread, id);
    CountAppend(s.global, id, id);
  }

  lemma DeletingKeeps(s: Sys, t: nat)
    requires Inv(s) && t < |s.threads| && s.threads[t].Deleting?
    ensures Inv(StepDeleting(s, t))
  {
    assert Mentions(s.threads[t], |s.queues|);
    var Deleting(id, k) := s.threads[t];
    var next := StepDeleting(s, t);
    var thread := next.threads[t];
    assert thread == Freeing(id, k) && Mentions(thread, |s.queues|);
    assert next.threads == s.threads[t := thread];
    DeletingAt(s, t);
    hide Weight, Own, Sum, Count, Mentions, Tame, Follows, InvAt, Inv, Find;
    forall x: nat | x != id ensures Same(s.threads[t], thread, x) {
      DeletingChanges(s.threads[t], thread, x);
    }
    QueueKeeps(s, t, id, thread, next);
  }

  lemma LaunchingChanges(a: Thread, b: Thread, x: nat)
    requires a.Launching? && (b == Starting(a.id) || b == Deleting(a.id, Publishing(a.id, false)))
    ensures b.Starting? ==> Changed(a, b, x, Minus(x == a.id), 0, 0, 0, 0)
    ensures b.Deleting? ==> Changed(a, b, x, Minus(x == a.id), 0, B(x == a.id), 0, 0)
  {
    Compare(a, b, x);
  }

  /** After a successful init, giving up the reference decides what the thread does next. */
  lemma LaunchingKeeps(s: Sys, t: nat)
    requires Inv(s) && t < |s.threads| && s.threads[t].Launching?
    ensures Inv(StepLaunching(s, t))
  {
    hide Tame, Follows;
    assert Mentions(s.threads[t], |s.queues|);
    var id := s.threads[t].id;
    ReferredIsLive(s, t, id);
    var next := StepLaunching(s, t);
    var thread := next.threads[t];
    assert thread == (if s.ctxs[id].ref == 1 then Deleting(id, Publishing(id, false)) else Starting(id))
      && Mentions(thread, |s.queues|);
    assert next.threads == s.threads[t := thread];
    hide Weight, Own, Sum, Count, Mentions;
    assert InvAt(s, id);
    LaunchingChanges(s.threads[t], thread, id);
    Tally(s.threads, t, thread, id);
    assert InvAt(next, id);
    forall x | 0 <= x < |s.ctxs|
      ensures InvAt(next, x)
    {
      if x != id {
        LaunchingChanges(s.threads[t], thread, x);
        Elsewhere(s, t, thread, next, x);
      }
    }
    InvHolds(s, t, thread, next);
  }

  lemma StartingChanges(a: Thread, b: Thread, x: nat)
    requires a.Starting? && b == Publishing(a.id, true)
    ensures Same(a, b, x)
  {
    Compare(a, b, x);
  }

  lemma StartingKeeps(s: Sys, t: nat)
    requires Inv(s) && t < |s.threads| && s.threads[t].Starting?
    ensures Inv(StepStarting(s, t))
  {
    assert Mentions(s.threads[t], |s.queues|);
    var id := s.threads[t].id;
    var next := StepStarting(s, t);
    var thread := next.threads[t];
    assert thread == Publishing(id, true) && Mentions(thread, |s.queues|);
    assert next.threads == s.threads[t := thread];
    hide Weight, Own, Sum, Count, Mentions, Tame, Follows;
    assert InvAt(s, id);
    StartingChanges(s.threads[t], thread, id);
    Tally(s.threads, t, thread, id);
    assert InvAt(next, id);
    forall x | 0 <= x < |s.ctxs|
      ensures InvAt(next, x)
    {
      if x != id {
        StartingChanges(s.threads[t], thread, x);
        Elsewhere(s, t, thread, next, x);
      }
    }
    InvHolds(s, t, thread, next);
  }

  lemma CreatingKeeps(s: Sys, t: nat, c: Choice)
    requires Inv(s) && t < |s.threads| && s.threads[t].Creating?
    ensures Inv(StepCreating(s, t, c))
  {
    hide Weight, Sum, InvAt;
    var id := s.threads[t].id;
    assert Mentions(s.threads[t], |s.queues|);
    var thread := StepCreating(s, t, c).threads[t];
    assert Mentions(thread, |s.queues|);
    forall x ensures Same(s.threads[t], thread, x) {
      Compare(s.threads[t], thread, x);
    }
    MoveKeeps(s, t, thread);
  }

  lemma AnnouncingKeeps(s: Sys, t: nat, c: Choice)
    requires Inv(s) && t < |s.threads| && s.threads[t].Announcing?
    ensures Inv(StepAnnouncing(s, t, c))
  {
    hide Weight, Sum, InvAt;
    assert Mentions(s.threads[t], |s.queues|);
    var id := s.threads[t].id;
    forall x ensures Same(s.threads[t], Reporting(id), x) {
      Compare(s.threads[t], Reporting(id), x);
    }
    MoveKeeps(s, t, Reporting(id));
    hide Inv;
    FlagsKeep(SetThread(s, t, Reporting(id)), StepAnnouncing(s, t, c));
  }

  lemma ReportingKeeps(s: Sys, t: nat)
    requires Inv(s) && t < |s.threads| && s.threads[t].Reporting?
    ensures Inv(StepReporting(s, t))
  {
    hide Weight, Sum, InvAt;
    assert Mentions(s.threads[t], |s.queues|);
    forall x ensures Same(s.threads[t], Idle, x) {
      Compare(s.threads[t], Idle, x);
    }
    MoveKeeps(s, t, Idle);
    hide Inv;
    FlagsKeep(SetThread(s, t, Idle), StepReporting(s, t));
  }

  /** Comparing what two places have, the places that come next included. */
  lemma Compare(a: Thread, b: Thread, x: nat)
    ensures AllOpen(a, x) && AllOpen(b, x) && (HasNext(b) ==> AllOpen(b.k, x))
    ensures HasNext(b) && HasNext(b.k) ==> AllOpen(b.k.k, x)
  {
    hide Weight;
    Open(a, x);
    Open(b, x);
    if HasNext(b) {
      Open(b.k, x);
      if HasNext(b.k) {
        Open(b.k.k, x);
      }
    }
  }

  lemma IdleKeeps(s: Sys, t: nat, c: Choice)
    requires Inv(s) && t < |s.threads| && s.threads[t].Idle?
    ensures Inv(StepIdle(s, t, c))
  {
    hide Weight, Sum, Inv, Shape;
    match c {
      case Create(handle) =>
        ShapeOf(s);
        if Find(s.ctxs, handle) == |s.ctxs| {
          CreateKeeps(s, t, handle);
        }
      case Send(to, msg) =>
        ShapeOf(s);
        var found := (id: nat) => Sending(id, msg);
        forall x, id: nat ensures MoreRefs(s.threads[t], found(id), x, id) {
          Compare(Idle, Sending(id, msg), x);
        }
        GrabKeeps(s, t, to, found, Idle);
      case Retire(victim) =>
        ShapeOf(s);
        var found := (id: nat) => Unref(id, Idle);
        forall x, id: nat ensures MoreRefs(s.threads[t], found(id), x, id) {
          Compare(Idle, Unref(id, Idle), x);
        }
        UnregisterKeeps(s, t, victim, found, Idle);
      case Work =>
        forall x ensures Same(Idle, Taking, x) {
          Compare(Idle, Taking, x);
        }
        MoveKeeps(s, t, Taking);
      case _ =>
    }
  }

  lemma ShapeOf(s: Sys)
    requires Inv(s)
    ensures Shape(s)
  {
  }

  lemma TakingKeeps(s: Sys, t: nat)
    requires Inv(s) && t < |s.threads| && s.threads[t].Taking?
    ensures Inv(StepTaking(s, t))
  {
    hide Weight, Sum, InvAt;
    var thread := s.threads[t];
    assert Mentions(thread, |s.queues|);
    forall x ensures Same(thread, Idle, x) {
      Compare(thread, Idle, x);
    }
    if s.global != [] {
      forall x ensures MoreHolds(thread, Holding(s.global[0]), x, s.global[0]) {
        Compare(thread, Holding(s.global[0]), x);
      }
    }
    PopKeeps(s, t, Idle, (q: nat) => Holding(q));
  }

  lemma HoldingKeeps(s: Sys, t: nat)
    requires Inv(s) && t < |s.threads| && s.threads[t].Holding?
    ensures Inv(StepHolding(s, t))
  {
    hide Weight, Sum, InvAt;
    var thread := s.threads[t];
    assert Mentions(thread, |s.queues|);
    var q := thread.id;
    forall x ensures Same(thread, Orphan(q, Taking), x) {
      Compare(thread, Orphan(q, Taking), x);
    }
    forall x, id: nat ensures MoreRefs(thread, Running(id, q), x, id) {
      Compare(thread, Running(id, q), x);
    }
    HeldIsLive(s, t, q);
    GrabKeeps(s, t, s.queues[q].handle, (id: nat) => Running(id, q), Orphan(q, Taking));
  }

  lemma EndingKeeps(s: Sys, t: nat)
    requires Inv(s) && t < |s.threads| && s.threads[t].Ending?
    ensures Inv(StepEnding(s, t))
  {
    hide Weight, Sum, InvAt;
    var thread := s.threads[t];
    assert Mentions(thread, |s.queues|);
    var Ending(id, q) := thread;
    forall x ensures Same(thread, Unref(id, Holding(q)), x) {
      Compare(thread, Unref(id, Holding(q)), x);
    }
    if s.global != [] {
      forall x ensures MoreHolds(thread, Swapping(id, q, s.global[0]), x, s.global[0]) {
        Compare(thread, Swapping(id, q, s.global[0]), x);
      }
    }
    FlagsKeep(s, s.(broken := s.broken || id != q));
    PopKeeps(s.(broken := s.broken || id != q), t, Unref(id, Holding(q)), (nq: nat) => Swapping(id, q, nq));
  }

  lemma SwappingKeeps(s: Sys, t: nat)
    requires Inv(s) && t < |s.threads| && s.threads[t].Swapping?
    ensures Inv(StepSwapping(s, t))
  {
    hide Weight, Sum, InvAt;
    var thread := s.threads[t];
    assert Mentions(thread, |s.queues|);
    var Swapping(id, q, nq) := thread;
    forall x ensures MoreHolds(Unref(id, Holding(nq)), thread, x, q) {
      Compare(thread, Unref(id, Holding(nq)), x);
    }
    PushKeeps(s, t, q, Unref(id, Holding(nq)));
  }

  lemma PublishingKeeps(s: Sys, t: nat)
    requires Inv(s) && t < |s.threads| && s.threads[t].Publishing?
    ensures Inv(StepPublishing(s, t))
  {
    hide Weight, Sum, InvAt;
    var thread := s.threads[t];
    assert Mentions(thread, |s.queues|);
    var k := if thread.told then Announcing(thread.id) else Idle;
    forall x ensures MoreHolds(k, thread, x, thread.id) {
      Compare(k, thread, x);
    }
    PushKeeps(s, t, thread.id, k);
  }

  lemma FailedKeeps(s: Sys, t: nat)
    requires Inv(s) && t < |s.threads| && s.threads[t].Failed?
    ensures Inv(StepFailed(s, t))
  {
    hide Weight, Sum, InvAt;
    var thread := s.threads[t];
    assert Mentions(thread, |s.queues|);
    var id := thread.id;
    var next := Orphan(id, Idle);
    forall x ensures Same(thread, next, x) {
      Compare(thread, next, x);
    }
    forall x, victim: nat ensures MoreRefs(thread, Unref(victim, next), x, victim) {
      Compare(thread, Unref(victim, next), x);
    }
    assert Mentions(next, |s.queues|);
    forall victim: nat | victim < |s.ctxs| ensures Mentions(Unref(victim, next), |s.queues|) {
    }
    UnregisterKeeps(s, t, s.queues[id].handle, (victim: nat) => Unref(victim, next), next);
  }

  lemma OrphanPushKeeps(s: Sys, t: nat)
    requires Inv(s) && t < |s.threads| && s.threads[t].Orphan? && s.threads[t].id < |s.queues|
    requires !s.queues[s.threads[t].id].release
    ensures Inv(StepOrphan(s, t))
  {
    hide Weight, Sum, InvAt;
    var thread := s.threads[t];
    assert Mentions(thread, |s.queues|);
    var Orphan(id, k) := thread;
    forall x ensures MoreHolds(k, thread, x, id) {
      Compare(k, thread, x);
    }
    PushKeeps(s, t, id, k);
  }

  /** Every step of every thread keeps the invariant: counts and places are right, no queue is put in the global
      list twice or marked for release twice, and no context or queue is used after it was freed. What can go
      wrong, other than that, has flags of its own. */
  lemma StepKeeps(s: Sys, t: nat, c: Choice)
    requires Inv(s) && t < |s.threads|
    ensures Inv(Step(s, t, c))
  {
    assert Mentions(s.threads[t], |s.queues|);
    hide Inv, InvAt, Mentions, StepIdle, StepSending, StepTaking, StepHolding, StepRunning, StepServing, StepEnding,
      StepSwapping, StepOrphan, StepDropping, StepCreating, StepLaunching, StepStarting, StepPublishing,
      StepAnnouncing, StepReporting, StepFailed, StepUnref, StepDeleting, StepFreeing;
    match s.threads[t]
    case Idle => IdleKeeps(s, t, c);
    case Sending(_, _) => SendingKeeps(s, t);
    case Taking => TakingKeeps(s, t);
    case Holding(_) => HoldingKeeps(s, t);
    case Running(_, _) => RunningKeeps(s, t);
    case Serving(_, _) => ServingKeeps(s, t, c);
    case Ending(_, _) => EndingKeeps(s, t);
    case Swapping(_, _, _) => SwappingKeeps(s, t);
    case Orphan(id, _) =>
      if s.queues[id].release {
        OrphanKeeps(s, t);
      } else {
        OrphanPushKeeps(s, t);
      }
    case Dropping(_, _) => DroppingKeeps(s, t);
    case Creating(_, _) => CreatingKeeps(s, t, c);
    case Launching(_) => LaunchingKeeps(s, t);
    case Starting(_) => StartingKeeps(s, t);
    case Publishing(_, _) => PublishingKeeps(s, t);
    case Announcing(_) => AnnouncingKeeps(s, t, c);
    case Reporting(_) => ReportingKeeps(s, t);
    case Failed(_) => FailedKeeps(s, t);
    case Unref(_, _) => UnrefKeeps(s, t);
    case Deleting(_, _) => DeletingKeeps(s, t);
    case Freeing(_, _) => FreeingKeeps(s, t);
  }

  /** A queue that a thread holds has not been freed. */
  lemma HeldIsLive(s: Sys, t: nat, id: nat)
    requires Inv(s) && t < |s.threads| && id < |s.queues| && Own(Holds, s.threads[t], id) > 0
    ensures !s.queues[id].freed
  {
    assert InvAt(s, id);
    SumUpdate(Holds, s.threads, t, Idle, id);
    Open(s.threads[t], id);
  }

  // ----- whole runs -----

  /** Which thread goes next, and what it chooses. */
  datatype Turn = Turn(t: nat, c: Choice)

  function Start(n: nat): Sys {
    Sys([], [], [], seq(n, _ => Idle), false, false, false, false, false)
  }

  lemma StartHolds(n: nat)
    ensures Inv(Start(n))
  {
  }

  ghost function Run(n: nat, turns: seq<Turn>): (s: Sys)
    requires forall k :: 0 <= k < |turns| ==> turns[k].t < n
    ensures Inv(s) && |s.threads| == n
  {
    if turns == [] then
      StartHolds(n);
      hide Inv;
      Start(n)
    else
      hide Step, Inv;
      var s := Run(n, turns[..|turns| - 1]);
      var turn := turns[|turns| - 1];
      StepKeeps(s, turn.t, turn.c);
      Step(s, turn.t, turn.c)
  }

  /** The queue is idle: in no list and with no thread. */
  predicate IdleQueue(s: Sys, id: nat)
    requires id < |s.queues|
  {
    !s.queues[id].freed && Places(s, id) == 0
  }

  /** In every run a live queue is in exactly one place, once in the global list or held by
      one thread, or it is idle; and it is idle only when it has no messages. */
  lemma OnePlace(n: nat, turns: seq<Turn>, id: nat)
    requires forall k :: 0 <= k < |turns| ==> turns[k].t < n
    requires var s := Run(n, turns); id < |s.queues| && !s.queues[id].freed
    ensures var s := Run(n, turns);
            && !s.bad
            && (Places(s, id) == 1 || (IdleQueue(s, id) && s.queues[id].msgs == []))
            && s.queues[id].pushed == s.queues[id].popped + s.queues[id].msgs
  {
    assert InvAt(Run(n, turns), id);
  }

  lemma WorkerHolds(thread: Thread)
    requires HasQueue(thread)
    ensures Weight(Holds, thread, thread.q) >= 1
  {
    Open(thread, thread.q);
    hide Weight;
  }

  lemma TwoThreads(threads: seq<Thread>, a: nat, b: nat, x: nat)
    requires a < |threads| && b < |threads| && a != b
    ensures Weight(Holds, threads[a], x) + Weight(Holds, threads[b], x) <= Sum(Holds, threads, x)
  {
    SumUpdate(Holds, threads, a, Idle, x);
    SumUpdate(Holds, threads[a := Idle], b, Idle, x);
    Open(Idle, x);
    hide Weight, Sum;
  }

  /** No two workers ever serve from the same queue. */
  lemma OneWorker(n: nat, turns: seq<Turn>, a: nat, b: nat)
    requires forall k :: 0 <= k < |turns| ==> turns[k].t < n
    requires a < n && b < n
    requires var s := Run(n, turns);
      HasQueue(s.threads[a]) && HasQueue(s.threads[b]) && s.threads[a].q == s.threads[b].q
    ensures a == b
  {
    var s := Run(n, turns);
    QueueThere(s, a);
    var q := s.threads[a].q;
    assert InvAt(s, q);
    assert Sum(Holds, s.threads, q) <= 1;
    hide *;
    if a != b {
      WorkerHolds(s.threads[a]);
      WorkerHolds(s.threads[b]);
      TwoThreads(s.threads, a, b, q);
    }
  }

  /** A queue is freed at most once, and only when the context has neither an entry in the
      handle table nor a reference in any thread. */
  lemma FreedOnce(s: Sys, t: nat, c: Choice, id: nat, next: Sys)
    requires Inv(s) && t < |s.threads| && id < |s.queues| && next == Step(s, t, c)
    ensures id < |next.queues| && (s.queues[id].freed ==> next.queues[id].freed)
    ensures !s.queues[id].freed && next.queues[id].freed ==>
              s.threads[t].Dropping? && s.ctxs[id].ref == 0 && !s.ctxs[id].registered && Sum(Refs, s.threads, id) == 0
  {
    hide Step;
    assert TameQueue(s.threads[t], id, s.queues[id], next.queues[id]);
    assert InvAt(s, id);
    if s.threads[t].Dropping? && s.threads[t].id == id {
      SumUpdate(Drops, s.threads, t, Idle, id);
      Open(s.threads[t], id);
    }
  }
}
