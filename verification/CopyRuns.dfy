/** What readers get and writers publish, in every run of the threads that share an object. */
module CopyRuns {
  import opened SharedCopies

  ghost predicate Turns(n: nat, turns: seq<Turning>) {
    forall k :: 0 <= k < |turns| ==> turns[k].t < n
  }

  /** The copy put into the object last, or nothing after it was released; at first it has its first copy. */
  ghost function Published(n: nat, turns: seq<Turning>): Option<nat>
    requires Turns(n, turns)
  {
    if turns == [] then Some(0)
    else
      var front := turns[..|turns| - 1];
      var thread := Run(n, front).threads[turns[|turns| - 1].t];
      if thread.WPut? then Some(thread.c) else if thread.DNull? then None else Published(n, front)
  }

  lemma CurrentChanges(s: Sys, t: nat, choice: Choice)
    requires Inv(s) && t < |s.threads|
    ensures var a := s.threads[t];
      Step(s, t, choice).cur == if a.WPut? then Some(a.c) else if a.DNull? then None else s.cur
  {
    assert Mentions(s.threads[t], |s.copies|);
    hide Inv, Mentions;
  }

  lemma RunNext(n: nat, turns: seq<Turning>)
    requires Turns(n, turns) && turns != []
    ensures var front, last := turns[..|turns| - 1], turns[|turns| - 1];
      Run(n, turns) == Step(Run(n, front), last.t, last.choice)
  {
    hide Inv, Step;
  }

  lemma RunFirst(n: nat)
    ensures Run(n, []) == Start(n)
  {
  }

  /** The object's copy is always the one published last. */
  lemma {:induction false} CurrentIsPublished(n: nat, turns: seq<Turning>)
    requires Turns(n, turns)
    ensures Run(n, turns).cur == Published(n, turns)
    decreases |turns|
  {
    if turns == [] {
      RunFirst(n);
    } else {
      var front, last := turns[..|turns| - 1], turns[|turns| - 1];
      CurrentIsPublished(n, front);
      RunNext(n, turns);
      CurrentChanges(Run(n, front), last.t, last.choice);
      hide Run, Inv, Step;
    }
  }

  /** A writer publishes the copy that it made for its update, and gives up the one that was there before. */
  lemma WriterPublishes(s: Sys, t: nat, choice: Choice)
    requires Inv(s) && t < |s.threads|
    ensures var a, next := s.threads[t], Step(s, t, choice);
      var b := next.threads[t];
      && (b.WSet? ==> a == b || (a.Outside? && choice == Update && b.c == |s.copies| && |next.copies| == b.c + 1
                                 && next.copies[b.c] == Copy(1, false)))
      && (b.WWait? ==> a == b || (a.WSet? && b.c == a.c))
      && (b.WIn? ==> a.WWait? && b.c == a.c)
      && (b.WPut? ==> a.WIn? && b.c == a.c && b.was == s.cur)
      && (b.WOut? ==> a.WPut? && b.was == a.was == s.cur && next.cur == Some(a.c))
      && (a.WOut? ==> if a.was.Some? then b == Drop(a.last, a.was.value) else b == Outside(a.last))
  {
    assert Mentions(s.threads[t], |s.copies|) && Knows(s.threads[t], s.cur);
    hide Inv, Mentions;
  }

  // ----- readers -----

  /** At some time in the run the thread was about to leave the lock with 'c', which was the object's copy then. */
  ghost predicate Got(n: nat, turns: seq<Turning>, t: nat, c: Option<nat>)
    requires Turns(n, turns) && t < n
  {
    exists k :: GotAt(n, turns, t, c, k)
  }

  ghost predicate GotAt(n: nat, turns: seq<Turning>, t: nat, c: Option<nat>, k: int)
    requires Turns(n, turns) && t < n
  {
    0 <= k <= |turns| && var s := Run(n, turns[..k]);
      s.threads[t].ROut? && s.threads[t].got == c && s.cur == c
  }

  lemma GotSooner(n: nat, turns: seq<Turning>, t: nat, c: Option<nat>)
    requires Turns(n, turns) && t < n && turns != [] && Got(n, turns[..|turns| - 1], t, c)
    ensures Got(n, turns, t, c)
  {
    var front := turns[..|turns| - 1];
    var k :| GotAt(n, front, t, c, k);
    assert front[..k] == turns[..k];
    assert GotAt(n, turns, t, c, k);
    hide Run;
  }

  lemma GetsNow(n: nat, turns: seq<Turning>, t: nat)
    requires Turns(n, turns) && t < n && Run(n, turns).threads[t].ROut?
    ensures Run(n, turns).threads[t].got == Run(n, turns).cur && Got(n, turns, t, Run(n, turns).cur)
  {
    var s := Run(n, turns);
    assert Knows(s.threads[t], s.cur);
    assert turns[..|turns|] == turns;
    hide Run, Inv;
    assert GotAt(n, turns, t, s.cur, |turns|);
  }

  /** What a thread has from a read: what it took along from the lock, and then keeps as its last one. */
  lemma ReaderTakes(s: Sys, t: nat, choice: Choice)
    requires Inv(s) && t < |s.threads|
    ensures var a, b := s.threads[t], Step(s, t, choice).threads[t];
      && (b.RHave? ==> a.ROut? && b.got == a.got)
      && (b.last == a.last || (a.RHave? && b.last == a.got)
          || (a.Outside? && choice == Leave && b.last == None))
      && (a.RHave? ==> b.last == a.got && !b.RHave?)
      && (a.RIn? ==> if s.cur.Some? then b == RGrab(a.last, s.cur.value) else b == ROut(a.last, None))
      && (a.RGrab? ==> b == ROut(a.last, s.cur))
  {
    assert Mentions(s.threads[t], |s.copies|) && Knows(s.threads[t], s.cur);
    hide Inv, Mentions;
  }

  lemma OthersStay(s: Sys, t: nat, choice: Choice, u: nat)
    requires Inv(s) && t < |s.threads| && u < |s.threads| && u != t
    ensures Step(s, t, choice).threads[u] == s.threads[u]
  {
    hide Inv, Turn;
  }

  /** In every run the snapshot that a thread keeps, and the one it has just read, was the object's copy at a time
      at which the thread was inside the lock. */
  lemma {:induction false} SnapshotWasCurrent(n: nat, turns: seq<Turning>, t: nat)
    requires Turns(n, turns) && t < n
    ensures var a := Run(n, turns).threads[t];
      && (a.last.Some? ==> Got(n, turns, t, a.last))
      && (a.RHave? ==> Got(n, turns, t, a.got))
    decreases |turns|
  {
    if turns == [] {
      RunFirst(n);
    } else {
      SnapshotStays(n, turns, t);
    }
  }

  lemma {:induction false} SnapshotStays(n: nat, turns: seq<Turning>, t: nat)
    requires Turns(n, turns) && t < n && turns != []
    ensures var a := Run(n, turns).threads[t];
      && (a.last.Some? ==> Got(n, turns, t, a.last))
      && (a.RHave? ==> Got(n, turns, t, a.got))
    decreases |turns|, 0
  {
    var front, turn := turns[..|turns| - 1], turns[|turns| - 1];
    SnapshotWasCurrent(n, front, t);
    RunNext(n, turns);
    var s := Run(n, front);
    var a := s.threads[t];
    hide Run, Inv, Step, Got;
    if a.last.Some? {
      GotSooner(n, turns, t, a.last);
    }
    if a.RHave? {
      GotSooner(n, turns, t, a.got);
    }
    if turn.t != t {
      OthersStay(s, turn.t, turn.choice, t);
    } else {
      ReaderTakes(s, t, turn.choice);
      if a.ROut? {
        GetsNow(n, front, t);
        GotSooner(n, turns, t, a.got);
      }
    }
  }
}
