/** What can go wrong in the scheduler, and exactly when it does: accesses without a reference, a queue used
    before it is made, and assertions that fail. */
module Dispatching {
  import opened Scheduler

  // ----- accesses of the thread that launched a context -----

  /** A thread in skynet_context_new or cmd_launch is about to touch the context that it created, after
      it gave up its reference. */
  predicate LateAccess(thread: Thread, c: Choice) {
    thread.Starting? || (thread.Announcing? && !c.Quiet?) || thread.Reporting?
  }

  /** The context is in no table and with no thread, and its deletion is over. */
  predicate Gone(s: Sys, id: nat)
    requires id < |s.ctxs|
  {
    && !s.ctxs[id].registered && Sum(Refs, s.threads, id) == 0
    && Sum(Deletes, s.threads, id) == 0 && Sum(Frees, s.threads, id) == 0
  }

  lemma FreedIsGone(s: Sys, id: nat)
    requires Inv(s) && id < |s.ctxs|
    ensures s.ctxs[id].freed <==> Gone(s, id)
  {
    assert InvAt(s, id);
  }

  lemma IdThere(s: Sys, t: nat, c: Choice)
    requires Shape(s) && t < |s.threads| && (LateAccess(s.threads[t], c) || s.threads[t].Serving?)
    ensures s.threads[t].id < |s.ctxs|
  {
    assert Mentions(s.threads[t], |s.queues|);
  }

  // ----- the assertions of the dispatch loop -----

  /** The worker's context is not the one that its queue was created with. */
  predicate Foreign(thread: Thread) {
    HasQueue(thread) && thread.id != thread.q
  }

  // ----- the flags -----

  /** The ways in which a step can fail. */
  datatype Flag = Stale | Broken | Sourceless | Early

  function Raised(s: Sys, flag: Flag): bool {
    match flag
    case Stale => s.stale
    case Broken => s.broken
    case Sourceless => s.sourceless
    case Early => s.early
  }

  /** The next step of the thread fails: it touches a context that is gone, or calls a service that is not
      initialized or ends a batch with the queue of another context, or drops a message of a queue whose
      handle is 0, or pushes to a queue that is not made yet. */
  predicate Fails(s: Sys, turn: Turn, flag: Flag)
    requires turn.t < |s.threads|
  {
    var thread := s.threads[turn.t];
    match flag
    case Stale => LateAccess(thread, turn.c) && thread.id < |s.ctxs| && Gone(s, thread.id)
    case Broken =>
      || (thread.Serving? && turn.c.Dispatch? && thread.id < |s.ctxs| && !s.ctxs[thread.id].init)
      || (thread.Ending? && Foreign(thread))
    case Sourceless => thread.Dropping? && thread.id < |s.queues| && DropsFromZero(s.queues[thread.id])
    case Early => thread.Sending? && Unmade(s, thread.id)
  }

  lemma FlaggedIs(s: Sys, t: nat, c: Choice, flag: Flag)
    requires Inv(s) && t < |s.threads|
    ensures Raised(Flagged(s, t, c), flag) <==> Raised(s, flag) || Fails(s, Turn(t, c), flag)
  {
    assert Mentions(s.threads[t], |s.queues|);
    if LateAccess(s.threads[t], c) {
      FreedIsGone(s, s.threads[t].id);
    }
    hide Inv, Gone, Unmade, DropsFromZero, Mentions;
  }

  /** A step fails exactly then, and nothing else ever goes wrong. */
  lemma FailsExactly(s: Sys, t: nat, c: Choice, flag: Flag)
    requires Inv(s) && t < |s.threads|
    ensures Raised(Step(s, t, c), flag) <==> Raised(s, flag) || Fails(s, Turn(t, c), flag)
    ensures !Step(s, t, c).bad
  {
    StepKeeps(s, t, c);
    FlaggedIs(s, t, c, flag);
    hide Step, Flagged, Fails, Tame;
  }

  // ----- initialization -----

  /** 'init' is set before any worker has the context's own queue; until then the creator has it. */
  ghost predicate InitAt(s: Sys, x: nat)
    requires x < |s.ctxs|
  {
    && (s.ctxs[x].registered && !s.ctxs[x].init ==> Sum(News, s.threads, x) > 0)
    && (!s.ctxs[x].init ==> Sum(Runs, s.threads, x) == 0)
  }

  ghost predicate Named(s: Sys) {
    && |s.ctxs| == |s.queues|
    && (forall i :: 0 <= i < |s.ctxs| ==> s.queues[i].handle == s.ctxs[i].handle)
    && (forall i, j :: 0 <= i < j < |s.ctxs| && s.ctxs[i].registered && s.ctxs[j].registered ==>
          s.ctxs[i].handle != s.ctxs[j].handle)
  }

  ghost predicate Initialized(s: Sys) {
    forall x {:trigger InitAt(s, x)} :: 0 <= x < |s.ctxs| ==> InitAt(s, x)
  }

  /** Nothing new is to be served, and no creator is through. */
  predicate Gain(a: Thread, b: Thread, x: nat) {
    Weight(News, b, x) >= Weight(News, a, x) && Weight(Runs, b, x) <= Weight(Runs, a, x)
  }

  lemma Open2(thread: Thread, x: nat)
    ensures Opens(News, thread, x) && Opens(Runs, thread, x)
  {
  }

  lemma NewsOf(thread: Thread, x: nat)
    ensures Weight(News, thread, x) ==
      if HasNext(thread) then Weight(News, thread.k, x)
      else B((thread.Creating? || thread.Launching? || thread.Starting? || thread.Failed?) && thread.id == x)
  {
    Open2(thread, x);
    hide Weight;
  }

  predicate Served(thread: Thread, x: nat) {
    (thread.Running? || thread.Serving?) && thread.id == x && thread.q == x
  }

  lemma RunsOf(thread: Thread, x: nat)
    ensures Weight(Runs, thread, x) ==
      if HasNext(thread) then Weight(Runs, thread.k, x)
      else B(Served(thread, x))
  {
    Open2(thread, x);
    hide Weight;
  }

  lemma GainsNews(a: Thread, b: Thread, x: nat)
    requires Follows(a, b)
    requires a.Idle? ==> !(b.Creating? && b.id == x)
    ensures Weight(News, b, x) >= Weight(News, a, x)
         || (a.Holding? && b == Running(x, x)) || ((a.Launching? || a.Starting? || a.Failed?) && a.id == x)
  {
    hide Weight, Own;
    NewsOf(a, x);
    NewsOf(b, x);
    if HasNext(b) {
      NewsOf(b.k, x);
      if HasNext(b.k) {
        NewsOf(b.k.k, x);
      }
    }
  }

  lemma NextIsNext(a: Thread, b: Thread)
    requires Follows(a, b) && HasNext(a)
    ensures b == a || b == a.k || (HasNext(b) && b.k == a.k)
  {
  }

  /** Only a worker that has a queue comes to serve. */
  lemma ComesToServe(a: Thread, b: Thread, x: nat)
    requires Follows(a, b) && !HasNext(a)
    ensures Served(b, x) ==> Served(a, x) || (a.Holding? && b == Running(x, x))
    ensures HasNext(b) ==> !Served(b.k, x) && (HasNext(b.k) ==> b.k.k == Idle)
  {
  }

  lemma GainsRuns(a: Thread, b: Thread, x: nat)
    requires Follows(a, b)
    ensures Weight(Runs, b, x) <= Weight(Runs, a, x) || (a.Holding? && b == Running(x, x))
  {
    if HasNext(a) {
      NextIsNext(a, b);
    } else {
      ComesToServe(a, b, x);
    }
    hide Weight, Own, Follows;
    RunsOf(a, x);
    RunsOf(b, x);
    if HasNext(b) {
      RunsOf(b.k, x);
      if HasNext(b.k) {
        RunsOf(b.k.k, x);
      }
    }
  }

  lemma Gains(a: Thread, b: Thread, x: nat)
    requires Follows(a, b)
    requires a.Idle? ==> !(b.Creating? && b.id == x)
    ensures Gain(a, b, x) || (a.Holding? && b == Running(x, x))
      || ((a.Launching? || a.Starting? || a.Failed?) && a.id == x)
  {
    GainsNews(a, b, x);
    GainsRuns(a, b, x);
    hide Weight, Follows;
  }

  lemma GainKeeps(s: Sys, t: nat, next: Sys, x: nat)
    requires t < |s.threads| && x < |s.ctxs| && InitAt(s, x) && Tame(s, t, next)
    requires Gain(s.threads[t], next.threads[t], x) || next.ctxs[x].init
          || (!next.ctxs[x].registered && Weight(Runs, next.threads[t], x) <= Weight(Runs, s.threads[t], x))
    ensures InitAt(next, x)
  {
    SumUpdate(News, s.threads, t, next.threads[t], x);
    SumUpdate(Runs, s.threads, t, next.threads[t], x);
    hide Weight, Sum, Follows, TameQueue;
    assert TameContext(s.ctxs[x], next.ctxs[x]);
  }

  lemma {:induction false} NewsHold(thread: Thread, x: nat)
    ensures Weight(News, thread, x) <= Weight(Holds, thread, x)
  {
    match thread
    case Orphan(_, k) => NewsHold(k, x);
    case Dropping(_, k) => NewsHold(k, x);
    case Unref(_, k) => NewsHold(k, x);
    case Deleting(_, k) => NewsHold(k, x);
    case Freeing(_, k) => NewsHold(k, x);
    case _ =>
  }

  lemma {:induction false} NewsSum(threads: seq<Thread>, x: nat)
    ensures Sum(News, threads, x) <= Sum(Holds, threads, x)
  {
    if threads != [] {
      NewsHold(threads[0], x);
      NewsSum(threads[1..], x);
    }
  }

  /** A worker that has a queue from the global list: the creator is through with it. */
  lemma NotNew(s: Sys, t: nat, x: nat)
    requires Inv(s) && t < |s.threads| && s.threads[t] == Holding(x) && x < |s.ctxs|
    ensures Sum(News, s.threads, x) == 0
  {
    assert InvAt(s, x);
    SumUpdate(Holds, s.threads, t, Idle, x);
    SumUpdate(News, s.threads, t, Idle, x);
    NewsSum(s.threads[t := Idle], x);
    Open(Holding(x), x);
    Open2(Holding(x), x);
    Open(Idle, x);
    Open2(Idle, x);
    hide Weight, Sum, Count;
  }

  lemma GrabbedIsStarted(s: Sys, t: nat, x: nat)
    requires Inv(s) && Initialized(s) && t < |s.threads| && x < |s.ctxs|
    requires s.threads[t].Holding? && StepHolding(s, t).threads[t] == Running(x, x)
    ensures s.ctxs[x].init && s.threads[t] == Holding(x)
  {
    assert Mentions(s.threads[t], |s.queues|);
    assert InitAt(s, x) && s.ctxs[x].registered;
    NotNew(s, t, x);
  }

  lemma DeletedIsUnregistered(s: Sys, t: nat, x: nat)
    requires Inv(s) && t < |s.threads| && s.threads[t] == Launching(x) && x < |s.ctxs|
    ensures var b := StepLaunching(s, t).threads[t]; b.Deleting? ==> !s.ctxs[x].registered
  {
    assert InvAt(s, x);
    SumUpdate(Refs, s.threads, t, Idle, x);
    Open(Launching(x), x);
    hide Weight, Sum;
  }

  lemma FailedIsUnregistered(s: Sys, t: nat, x: nat)
    requires Inv(s) && Named(s) && t < |s.threads| && s.threads[t] == Failed(x) && x < |s.ctxs|
    ensures !StepFailed(s, t).ctxs[x].registered
  {
    assert Mentions(s.threads[t], |s.queues|);
  }

  lemma StartedIsInit(s: Sys, t: nat, x: nat)
    requires Inv(s) && t < |s.threads| && s.threads[t] == Starting(x) && x < |s.ctxs|
    ensures StepStarting(s, t).ctxs[x].init
  {
    assert Mentions(s.threads[t], |s.queues|);
  }

  /** One context of before the step. */
  lemma InitStays(s: Sys, t: nat, c: Choice, x: nat)
    requires Inv(s) && Named(s) && Initialized(s) && t < |s.threads| && x < |s.ctxs|
    ensures InitAt(Step(s, t, c), x)
  {
    var a, next := s.threads[t], Step(s, t, c);
    var b := next.threads[t];
    assert Mentions(a, |s.queues|) && InitAt(s, x);
    if a.Idle? {
      CreatesAnew(s, t, c);
    }
    Gains(a, b, x);
    if a.Holding? && b == Running(x, x) {
      GrabbedIsStarted(s, t, x);
    } else if a == Launching(x) {
      DeletedIsUnregistered(s, t, x);
      LaunchingServesNothing(b, x);
    } else if a == Starting(x) {
      StartedIsInit(s, t, x);
    } else if a == Failed(x) {
      FailedIsUnregistered(s, t, x);
      LaunchingServesNothing(b, x);
    }
    hide Weight, Sum, Gain, Follows, InitAt, Inv, Named, Initialized, TameQueue;
    hide StepIdle, StepSending, StepTaking, StepHolding, StepRunning, StepServing, StepEnding, StepSwapping,
      StepOrphan, StepDropping, StepCreating, StepLaunching, StepStarting, StepPublishing, StepAnnouncing,
      StepReporting, StepFailed, StepUnref, StepDeleting, StepFreeing;
    assert TameContext(s.ctxs[x], next.ctxs[x]);
    GainKeeps(s, t, next, x);
  }

  lemma LaunchingServesNothing(b: Thread, x: nat)
    requires b == Launching(x) || b == Deleting(x, Publishing(x, false)) || b == Starting(x)
          || b == Orphan(x, Idle) || (b.Unref? && b.k == Orphan(x, Idle))
    ensures Weight(Runs, b, x) == 0 && (b.Launching? || b.Starting? ==> Weight(News, b, x) == 1)
  {
    Open2(b, x);
    if HasNext(b) {
      Open2(b.k, x);
      if HasNext(b.k) {
        Open2(b.k.k, x);
      }
    }
  }

  lemma CreatesAnew(s: Sys, t: nat, c: Choice)
    requires Inv(s) && t < |s.threads| && s.threads[t].Idle?
    ensures var b := Step(s, t, c).threads[t]; b.Creating? ==> b.id == |s.ctxs|
  {
    hide Tame;
  }

  lemma NamesStay(s: Sys, t: nat, c: Choice)
    requires Inv(s) && Named(s) && t < |s.threads|
    ensures Named(Step(s, t, c))
  {
    var next := Step(s, t, c);
    if s.threads[t].Idle? && c.Create? && Find(s.ctxs, c.handle) == |s.ctxs| {
      CreateNames(s, t, c.handle);
    } else {
      NoneCreated(s, t, c);
      hide Step, Inv, Follows;
      forall i | 0 <= i < |s.ctxs|
        ensures next.queues[i].handle == next.ctxs[i].handle == s.ctxs[i].handle
        ensures next.ctxs[i].registered ==> s.ctxs[i].registered
      {
        assert TameContext(s.ctxs[i], next.ctxs[i]) && TameQueue(s.threads[t], i, s.queues[i], next.queues[i]);
      }
    }
  }

  lemma CreateNames(s: Sys, t: nat, handle: nat)
    requires Inv(s) && Named(s) && t < |s.threads| && s.threads[t].Idle? && Find(s.ctxs, handle) == |s.ctxs|
    ensures Named(StepCreate(s, t, handle))
  {
  }

  lemma NoneCreated(s: Sys, t: nat, c: Choice)
    requires Inv(s) && t < |s.threads| && !(s.threads[t].Idle? && c.Create? && Find(s.ctxs, c.handle) == |s.ctxs|)
    ensures var next := Step(s, t, c); |next.ctxs| == |s.ctxs| && |next.queues| == |s.queues|
  {
    hide InvAt, Follows, TameQueue, TameContext, StepSending, StepTaking, StepHolding, StepRunning, StepServing,
      StepEnding, StepSwapping, StepOrphan, StepDropping, StepCreating, StepLaunching, StepStarting, StepPublishing,
      StepAnnouncing, StepReporting, StepFailed, StepUnref, StepDeleting, StepFreeing;
  }

  lemma InitBegins(s: Sys, t: nat, handle: nat)
    requires Inv(s) && t < |s.threads| && s.threads[t].Idle? && Find(s.ctxs, handle) == |s.ctxs|
    ensures var next := StepCreate(s, t, handle); |next.ctxs| == |s.ctxs| + 1 && InitAt(next, |s.ctxs|)
  {
    var n := |s.ctxs|;
    NoMentions(News, s.threads, n, n);
    NoMentions(Runs, s.threads, n, n);
    SumUpdate(News, s.threads, t, Creating(n, false), n);
    SumUpdate(Runs, s.threads, t, Creating(n, false), n);
    Open2(Creating(n, false), n);
    hide Weight, Sum, InvAt, Tame;
  }

  /** No step breaks the order in which a context is made known. */
  lemma InitKeeps(s: Sys, t: nat, c: Choice)
    requires Inv(s) && Named(s) && Initialized(s) && t < |s.threads|
    ensures Inv(Step(s, t, c)) && Named(Step(s, t, c)) && Initialized(Step(s, t, c))
  {
    StepKeeps(s, t, c);
    NamesStay(s, t, c);
    var next := Step(s, t, c);
    if s.threads[t].Idle? && c.Create? && Find(s.ctxs, c.handle) == |s.ctxs| {
      InitBegins(s, t, c.handle);
    } else {
      NoneCreated(s, t, c);
    }
    assert |next.ctxs| <= |s.ctxs| || InitAt(next, |s.ctxs|);
    hide Step, Inv, InitAt, Named;
    forall x | 0 <= x < |next.ctxs| ensures InitAt(next, x) {
      if x < |s.ctxs| {
        InitStays(s, t, c, x);
      }
    }
  }

  /** A worker that serves a context from the context's own queue finds it initialized. */
  lemma OwnIsInit(s: Sys, t: nat)
    requires Inv(s) && Initialized(s) && t < |s.threads| && s.threads[t].Serving? && s.threads[t].id == s.threads[t].q
    ensures s.threads[t].id < |s.ctxs| && s.ctxs[s.threads[t].id].init
  {
    var x := s.threads[t].id;
    assert Mentions(s.threads[t], |s.queues|) && InitAt(s, x);
    SumUpdate(Runs, s.threads, t, Idle, x);
    Open2(s.threads[t], x);
    hide Weight, Sum;
  }

  /** Which steps break an assertion of the dispatch loop: a call of a service that is not initialized,
      and the end of a batch with the queue of another context. The first of them, too, happens only to
      a worker with such a queue. */
  lemma BrokenExactly(s: Sys, t: nat, c: Choice)
    requires Inv(s) && Initialized(s) && t < |s.threads|
    ensures s.threads[t].Serving? ==> s.threads[t].id < |s.ctxs|
    ensures Step(s, t, c).broken <==>
              s.broken || (s.threads[t].Serving? && c.Dispatch? && !s.ctxs[s.threads[t].id].init)
              || (s.threads[t].Ending? && Foreign(s.threads[t]))
    ensures Step(s, t, c).broken && !s.broken ==> Foreign(s.threads[t])
  {
    if s.threads[t].Serving? {
      IdThere(s, t, c);
      if s.threads[t].id == s.threads[t].q {
        OwnIsInit(s, t);
      }
    }
    FailsExactly(s, t, c, Broken);
    hide Tame, Inv, Initialized, Step, Flagged, LateAccess, Gone;
  }

  /** A worker gets the queue of another context if and only if the context of the queue is no longer
      registered and its handle was given out again. */
  lemma ForeignExactly(s: Sys, t: nat)
    requires Inv(s) && Named(s) && t < |s.threads| && s.threads[t].Holding?
    ensures s.threads[t].id < |s.ctxs|
    ensures var q := s.threads[t].id;
            (Foreign(StepHolding(s, t).threads[t]) <==>
               && !s.ctxs[q].registered
               && exists i :: 0 <= i < |s.ctxs| && s.ctxs[i].registered && s.ctxs[i].handle == s.queues[q].handle)
  {
    assert Mentions(s.threads[t], |s.queues|);
    hide InvAt, Tame;
  }

  // ----- whole runs -----

  ghost predicate Turns(n: nat, turns: seq<Turn>) {
    forall k :: 0 <= k < |turns| ==> turns[k].t < n
  }

  lemma RunNext(n: nat, turns: seq<Turn>, turn: Turn)
    requires Turns(n, turns) && turn.t < n
    ensures Turns(n, turns + [turn]) && Run(n, turns + [turn]) == Step(Run(n, turns), turn.t, turn.c)
  {
    assert (turns + [turn])[..|turns|] == turns;
    hide Inv, Step;
  }

  lemma {:induction false} InitRuns(n: nat, turns: seq<Turn>)
    requires Turns(n, turns)
    ensures Named(Run(n, turns)) && Initialized(Run(n, turns))
    decreases |turns|
  {
    if turns == [] {
      InitAtStart(n);
    } else {
      hide Run, Inv, Named, Initialized, Step;
      var front, last := turns[..|turns| - 1], turns[|turns| - 1];
      assert front + [last] == turns;
      InitRuns(n, front);
      RunNext(n, front, last);
      InitKeeps(Run(n, front), last.t, last.c);
    }
  }

  lemma InitAtStart(n: nat)
    ensures Turns(n, []) && Named(Run(n, [])) && Initialized(Run(n, []))
  {
  }

  /** Turn 'k' fails. */
  ghost predicate FailsAt(n: nat, turns: seq<Turn>, flag: Flag, k: nat)
    requires Turns(n, turns)
  {
    k < |turns| && Fails(Run(n, turns[..k]), turns[k], flag)
  }

  lemma FailsSooner(n: nat, front: seq<Turn>, last: Turn, flag: Flag, k: nat)
    requires Turns(n, front) && last.t < n
    ensures Turns(n, front + [last])
    ensures FailsAt(n, front + [last], flag, k) <==>
      FailsAt(n, front, flag, k) || (k == |front| && Fails(Run(n, front), last, flag))
  {
    hide Run, Fails;
    var turns := front + [last];
    if k < |front| {
      assert turns[..k] == front[..k] && turns[k] == front[k];
    } else if k == |front| {
      assert turns[..k] == front && turns[k] == last;
    }
  }

  /** In a run something fails if and only if the step of some turn does; all other accesses are safe. */
  lemma {:induction false} FailsInRun(n: nat, turns: seq<Turn>, flag: Flag)
    requires Turns(n, turns)
    ensures !Run(n, turns).bad
    ensures Raised(Run(n, turns), flag) <==> exists k: nat :: FailsAt(n, turns, flag, k)
    decreases |turns|
  {
    if turns == [] {
      RunOfNothing(n);
    } else {
      var front, last := turns[..|turns| - 1], turns[|turns| - 1];
      assert front + [last] == turns;
      FailsInRun(n, front, flag);
      RunNext(n, front, last);
      FailsExactly(Run(n, front), last.t, last.c, flag);
      hide Run, Step, Inv, Fails, FailsAt, Raised;
      forall k: nat
        ensures FailsAt(n, turns, flag, k) <==>
          FailsAt(n, front, flag, k) || (k == |front| && Fails(Run(n, front), last, flag))
      {
        FailsSooner(n, front, last, flag, k);
      }
      assert FailsAt(n, turns, flag, |front|) <==>
        FailsAt(n, front, flag, |front|) || Fails(Run(n, front), last, flag);
    }
  }

  lemma RunOfNothing(n: nat)
    ensures Turns(n, []) && Run(n, []) == Start(n)
  {
  }

  // ----- no handle 0 -----

  ghost predicate NoZero(s: Sys) {
    forall i :: 0 <= i < |s.queues| ==> s.queues[i].handle != 0
  }

  lemma NewHandle(s: Sys, t: nat, c: Choice)
    requires Inv(s) && t < |s.threads|
    ensures var next := Step(s, t, c);
      forall i :: |s.queues| <= i < |next.queues| ==> c.Create? && next.queues[i].handle == c.handle
  {
    if !(s.threads[t].Idle? && c.Create? && Find(s.ctxs, c.handle) == |s.ctxs|) {
      NoneCreated(s, t, c);
    } else {
      hide Tame, Inv;
    }
  }

  lemma NoZeroStays(s: Sys, t: nat, c: Choice)
    requires Inv(s) && t < |s.threads| && NoZero(s) && c != Create(0)
    ensures NoZero(Step(s, t, c)) && Step(s, t, c).sourceless == s.sourceless
  {
    FailsExactly(s, t, c, Sourceless);
    NewHandle(s, t, c);
    var next := Step(s, t, c);
    hide Step, Inv, Follows, TameContext;
    forall i | 0 <= i < |next.queues| ensures next.queues[i].handle != 0 {
      if i < |s.queues| {
        assert TameQueue(s.threads[t], i, s.queues[i], next.queues[i]);
      }
    }
  }

  lemma NoZeroAtStart(n: nat)
    ensures Turns(n, []) && NoZero(Run(n, [])) && !Run(n, []).sourceless
  {
  }

  /** As long as the handle 0 is not given out, the assertion of drop_message never fails. */
  lemma {:induction false} NoZeroIsSafe(n: nat, turns: seq<Turn>)
    requires Turns(n, turns) && forall k :: 0 <= k < |turns| ==> turns[k].c != Create(0)
    ensures NoZero(Run(n, turns)) && !Run(n, turns).sourceless
    decreases |turns|
  {
    hide Run, Step, Inv, NoZero;
    if turns == [] {
      NoZeroAtStart(n);
    } else {
      var front, last := turns[..|turns| - 1], turns[|turns| - 1];
      assert front + [last] == turns;
      NoZeroIsSafe(n, front);
      RunNext(n, front, last);
      NoZeroStays(Run(n, front), last.t, last.c);
    }
  }

  // ----- sending to a context without a queue -----

  /** The turn grabs a context that has no queue yet, for a message. */
  predicate SendsEarly(s: Sys, turn: Turn)
    requires turn.t < |s.threads|
  {
    s.threads[turn.t].Idle? && turn.c.Send? && Unmade(s, Find(s.ctxs, turn.c.to))
  }

  ghost predicate Patient(s: Sys) {
    forall u :: 0 <= u < |s.threads| && s.threads[u].Sending? ==> !Unmade(s, s.threads[u].id)
  }

  lemma PatientStays(s: Sys, t: nat, c: Choice)
    requires Inv(s) && t < |s.threads| && Patient(s) && !SendsEarly(s, Turn(t, c))
    ensures Patient(Step(s, t, c)) && Step(s, t, c).early == s.early
  {
    FailsExactly(s, t, c, Early);
    var next := Step(s, t, c);
    forall u | 0 <= u < |next.threads| && next.threads[u].Sending? ensures !Unmade(next, next.threads[u].id) {
      NotUnmade(s, t, c, u);
    }
    hide Step, Inv;
  }

  lemma NotUnmade(s: Sys, t: nat, c: Choice, u: nat)
    requires Inv(s) && t < |s.threads| && Patient(s) && !SendsEarly(s, Turn(t, c))
    requires u < |Step(s, t, c).threads| && Step(s, t, c).threads[u].Sending?
    ensures !Unmade(Step(s, t, c), Step(s, t, c).threads[u].id)
  {
    var next := Step(s, t, c);
    var id := next.threads[u].id;
    if u == t {
      SendsTo(s, t, c);
    } else {
      assert next.threads[u] == s.threads[u] && Mentions(s.threads[u], |s.queues|);
    }
    assert id < |s.ctxs| && !Unmade(s, id);
    if Creating(id, false) in next.threads {
      var v :| 0 <= v < |next.threads| && next.threads[v] == Creating(id, false);
      if v == t {
        CreatesUnmade(s, t, c);
      }
    }
  }

  lemma BeginsIdle(a: Thread, b: Thread, n: nat)
    requires Mentions(a, n) && Follows(a, b) && (b.Sending? || (b.Creating? && !b.made))
    ensures a.Idle?
  {
  }

  lemma SendsTo(s: Sys, t: nat, c: Choice)
    requires Inv(s) && t < |s.threads| && Step(s, t, c).threads[t].Sending?
    ensures s.threads[t].Idle? && c.Send? && Step(s, t, c).threads[t].id == Find(s.ctxs, c.to) < |s.ctxs|
  {
    assert Mentions(s.threads[t], |s.queues|) && Follows(s.threads[t], Step(s, t, c).threads[t]);
    BeginsIdle(s.threads[t], Step(s, t, c).threads[t], |s.queues|);
    hide Tame, Inv, Follows, Mentions, Flagged;
  }

  lemma CreatesUnmade(s: Sys, t: nat, c: Choice)
    requires Inv(s) && t < |s.threads| && Step(s, t, c).threads[t].Creating? && !Step(s, t, c).threads[t].made
    ensures Step(s, t, c).threads[t].id == |s.ctxs|
  {
    assert Mentions(s.threads[t], |s.queues|) && Follows(s.threads[t], Step(s, t, c).threads[t]);
    BeginsIdle(s.threads[t], Step(s, t, c).threads[t], |s.queues|);
    hide Tame, Inv, Follows, Mentions, Flagged;
  }

  ghost predicate NoneSendsEarly(n: nat, turns: seq<Turn>)
    requires Turns(n, turns)
  {
    forall k :: 0 <= k < |turns| ==> !SendsEarly(Run(n, turns[..k]), turns[k])
  }

  lemma NoneBefore(n: nat, front: seq<Turn>, last: Turn)
    requires Turns(n, front + [last]) && NoneSendsEarly(n, front + [last])
    ensures Turns(n, front) && NoneSendsEarly(n, front) && last.t < n && !SendsEarly(Run(n, front), last)
  {
    hide Run, SendsEarly;
    var turns := front + [last];
    assert turns[..|front|] == front && turns[|front|] == last;
    forall k | 0 <= k < |front| ensures front[k] == turns[k] && front[..k] == turns[..k] {
    }
  }

  lemma PatientAtStart(n: nat)
    ensures Turns(n, []) && Patient(Run(n, [])) && !Run(n, []).early
  {
  }

  /** As long as nobody sends to a handle between its registration and the creation of the queue, no queue is
      used before it is made. */
  lemma {:induction false} NoneEarly(n: nat, turns: seq<Turn>)
    requires Turns(n, turns) && NoneSendsEarly(n, turns)
    ensures Patient(Run(n, turns)) && !Run(n, turns).early
    decreases |turns|
  {
    hide Run, Step, Inv, Patient, SendsEarly, NoneSendsEarly;
    if turns == [] {
      PatientAtStart(n);
    } else {
      var front, last := turns[..|turns| - 1], turns[|turns| - 1];
      assert front + [last] == turns;
      NoneBefore(n, front, last);
      NoneEarly(n, front);
      RunNext(n, front, last);
      PatientStays(Run(n, front), last.t, last.c);
    }
  }

  // ----- handles given out again -----

  /** The turn creates a context. */
  predicate Creates(s: Sys, turn: Turn)
    requires turn.t < |s.threads|
  {
    s.threads[turn.t].Idle? && turn.c.Create? && Find(s.ctxs, turn.c.handle) == |s.ctxs|
  }

  /** No queue of an earlier context with this handle is left. */
  predicate Unused(s: Sys, handle: nat) {
    forall i :: 0 <= i < |s.queues| && s.queues[i].handle == handle ==> s.queues[i].freed
  }

  predicate GivesUnused(s: Sys, turn: Turn)
    requires turn.t < |s.threads|
  {
    Creates(s, turn) ==> Unused(s, turn.c.handle)
  }

  ghost predicate Unshared(s: Sys) {
    && (forall i, j :: 0 <= i < j < |s.queues| && s.queues[i].handle == s.queues[j].handle ==> s.queues[i].freed)
    && (forall u :: 0 <= u < |s.threads| ==> !Foreign(s.threads[u]))
    && (forall i :: 0 <= i < |s.queues| ==> !s.queues[i].lost)
    && !s.broken
  }

  lemma NotForeign(s: Sys, t: nat, c: Choice)
    requires Inv(s) && Named(s) && Unshared(s) && t < |s.threads|
    ensures !Foreign(Step(s, t, c).threads[t])
  {
    var a, b := s.threads[t], Step(s, t, c).threads[t];
    if a.Holding? {
      OwnContext(s, t);
    } else {
      assert Mentions(a, |s.queues|) && Follows(a, b) && !Foreign(a);
      KeepsContext(a, b, |s.queues|);
    }
    hide *;
  }

  /** Only the step that grabs a context makes a worker one of a foreign context. */
  lemma KeepsContext(a: Thread, b: Thread, n: nat)
    requires Mentions(a, n) && Follows(a, b) && !Foreign(a) && !a.Holding?
    ensures !Foreign(b)
  {
  }

  /** The context found under the handle of a queue that is held is the one created with the queue. */
  lemma OwnContext(s: Sys, t: nat)
    requires Inv(s) && Named(s) && Unshared(s) && t < |s.threads| && s.threads[t].Holding?
    ensures !Foreign(StepHolding(s, t).threads[t])
  {
    ForeignExactly(s, t);
    var q := s.threads[t].id;
    HeldIsLive(s, t, q);
    forall i | 0 <= i < |s.ctxs| && s.ctxs[i].registered && s.ctxs[i].handle == s.queues[q].handle ensures i == q {
      assert InvAt(s, i) && s.queues[i].handle == s.ctxs[i].handle;
    }
    hide InvAt, StepHolding, Foreign;
  }

  lemma NothingLost(s: Sys, t: nat, c: Choice, i: nat)
    requires Inv(s) && Unshared(s) && t < |s.threads| && i < |s.queues|
    ensures i < |Step(s, t, c).queues| && !Step(s, t, c).queues[i].lost
  {
    var next := Step(s, t, c);
    assert TameQueue(s.threads[t], i, s.queues[i], next.queues[i]);
    hide Step;
    if s.threads[t].Running? && s.threads[t].q == i {
      assert s.threads[t].id == i by {
        assert !Foreign(s.threads[t]);
      }
      ReferredIsLive(s, t, i);
      assert InvAt(s, i);
    }
  }

  lemma NewQueue(s: Sys, t: nat, c: Choice)
    requires Inv(s) && Named(s) && t < |s.threads|
    ensures var next := Step(s, t, c);
      if Creates(s, Turn(t, c)) then
        |next.queues| == |s.queues| + 1 && next.queues[|s.queues|].handle == c.handle && !next.queues[|s.queues|].lost
      else |next.queues| == |s.queues|
  {
    if !Creates(s, Turn(t, c)) {
      NoneCreated(s, t, c);
      hide Step;
    } else {
      assert Step(s, t, c) == StepCreate(s, t, c.handle);
    }
  }

  /** As long as handles are not given out while an old queue of the same handle is left, queues,
      contexts and assertions are in order. */
  lemma UnsharedStays(s: Sys, t: nat, c: Choice)
    requires Inv(s) && Named(s) && Initialized(s) && Unshared(s) && t < |s.threads|
    requires GivesUnused(s, Turn(t, c))
    ensures Unshared(Step(s, t, c)) && !Step(s, t, c).broken
  {
    var next := Step(s, t, c);
    NotForeign(s, t, c);
    BrokenExactly(s, t, c);
    NewQueue(s, t, c);
    assert !next.broken by {
      assert !Foreign(s.threads[t]);
    }
    hide Step, Inv, Named, Initialized, Foreign, Follows, TameContext;
    forall i | 0 <= i < |next.queues| ensures !next.queues[i].lost {
      if i < |s.queues| {
        NothingLost(s, t, c, i);
      }
    }
    forall i, j | 0 <= i < j < |next.queues| && next.queues[i].handle == next.queues[j].handle
      ensures next.queues[i].freed
    {
      assert TameQueue(s.threads[t], i, s.queues[i], next.queues[i]);
      if j < |s.queues| {
        assert TameQueue(s.threads[t], j, s.queues[j], next.queues[j]);
      }
    }
  }

  /** No turn gives out a handle while a queue of an earlier context with that handle is left. */
  ghost predicate NoReuse(n: nat, turns: seq<Turn>)
    requires Turns(n, turns)
  {
    forall k :: 0 <= k < |turns| ==> GivesUnused(Run(n, turns[..k]), turns[k])
  }

  lemma NoReuseBefore(n: nat, front: seq<Turn>, last: Turn)
    requires Turns(n, front + [last]) && NoReuse(n, front + [last])
    ensures Turns(n, front) && NoReuse(n, front)
    ensures last.t < n && GivesUnused(Run(n, front), last)
  {
    hide Run, Creates, Unused, GivesUnused;
    var turns := front + [last];
    assert turns[..|front|] == front && turns[|front|] == last;
    forall k | 0 <= k < |front| ensures front[k] == turns[k] && front[..k] == turns[..k] {
    }
  }

  lemma UnsharedAtStart(n: nat)
    ensures Turns(n, []) && Unshared(Run(n, [])) && !Run(n, []).broken
  {
  }

  /** Without such reuse no assertion of the dispatch loop ever fails and no queue is lost. */
  lemma {:induction false} NoReuseIsSafe(n: nat, turns: seq<Turn>)
    requires Turns(n, turns) && NoReuse(n, turns)
    ensures Unshared(Run(n, turns)) && !Run(n, turns).broken
    decreases |turns|
  {
    hide Run, Unshared, NoReuse, Inv, Named, Initialized, Step, GivesUnused;
    UnsharedAtStart(n);
    if turns != [] {
      var front, last := turns[..|turns| - 1], turns[|turns| - 1];
      assert front + [last] == turns;
      NoReuseBefore(n, front, last);
      NoReuseIsSafe(n, front);
      RunNext(n, front, last);
      InitRuns(n, front);
      UnsharedStays(Run(n, front), last.t, last.c);
    }
  }

  /** Then no two workers ever serve the same context. */
  lemma OneService(n: nat, turns: seq<Turn>, a: nat, b: nat)
    requires Turns(n, turns) && NoReuse(n, turns) && a < n && b < n
    requires var s := Run(n, turns);
      HasQueue(s.threads[a]) && HasQueue(s.threads[b]) && s.threads[a].id == s.threads[b].id
    ensures a == b
  {
    NoReuseIsSafe(n, turns);
    var s := Run(n, turns);
    assert !Foreign(s.threads[a]) && !Foreign(s.threads[b]);
    hide Run, Inv;
    OneWorker(n, turns, a, b);
  }
}
