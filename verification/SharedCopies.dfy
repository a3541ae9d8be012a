/** The spin reader/writer lock, and the reference-counted snapshots that it guards: any number of
    threads, each read-modify-write and each plain access being one step of one thread. */
module SharedCopies {

  datatype Option<T> = None | Some(value: T)

  datatype Copy = Copy(ref: int, freed: bool)

  /** Where a thread is; 'last' is the snapshot that it keeps from its last read. */
  datatype Thread =
    | Outside(last: Option<nat>)
    | RSpin(last: Option<nat>)                        // rwlock_rlock: waiting for the write flag to fall
    | RAdd(last: Option<nat>)                         // about to count itself as a reader
    | RCheck(last: Option<nat>)                       // about to look at the write flag again
    | RBack(last: Option<nat>)                        // about to take its count back
    | RIn(last: Option<nat>)                          // stm_copy: inside the lock
    | RGrab(last: Option<nat>, c: nat)                // about to count a reference to 'c'
    | ROut(last: Option<nat>, got: Option<nat>)       // rwlock_runlock
    | RHave(last: Option<nat>, got: Option<nat>)      // lread: comparing with the last snapshot
    | Drop(last: Option<nat>, c: nat)                 // stm_releasecopy: about to give up a reference
    | Free(last: Option<nat>, c: nat)                 // about to free the copy
    | WSet(last: Option<nat>, c: nat)                 // rwlock_wlock: about to test and set the write flag
    | WWait(last: Option<nat>, c: nat)                // waiting for the readers
    | WIn(last: Option<nat>, c: nat)                  // stm_update: inside the lock
    | WPut(last: Option<nat>, c: nat, was: Option<nat>)
    | WOut(last: Option<nat>, was: Option<nat>)       // rwlock_wunlock
    | DSet(last: Option<nat>)                         // the same for stm_release
    | DWait(last: Option<nat>)
    | DIn(last: Option<nat>)
    | DFree(last: Option<nat>, c: nat)
    | DNull(last: Option<nat>, gone: Option<nat>)
    | DOut(last: Option<nat>)

  /** 'cur' is the object's own copy; 'bad' is set when an assertion fails or freed memory is used. */
  datatype Sys = Sys(write: bool, read: int, copies: seq<Copy>, cur: Option<nat>, released: bool,
    threads: seq<Thread>, bad: bool)

  datatype Choice = Read | Update | Release | Leave | Go

  // ----- one step -----

  predicate Known(o: Option<nat>, n: nat) {
    o.Some? ==> o.value < n
  }

  predicate Mentions(th: Thread, n: nat) {
    && Known(th.last, n)
    && match th
       case RGrab(_, c) => c < n
       case ROut(_, got) => Known(got, n)
       case RHave(_, got) => Known(got, n)
       case Drop(_, c) => c < n
       case Free(_, c) => c < n
       case WSet(_, c) => c < n
       case WWait(_, c) => c < n
       case WIn(_, c) => c < n
       case WPut(_, c, was) => c < n && Known(was, n)
       case WOut(_, was) => Known(was, n)
       case DFree(_, c) => c < n
       case DNull(_, c) => Known(c, n)
       case _ => true
  }

  ghost predicate Shape(s: Sys) {
    Known(s.cur, |s.copies|) && forall t :: 0 <= t < |s.threads| ==> Mentions(s.threads[t], |s.copies|)
  }

  function Count(s: Sys, c: nat, d: int): Sys
    requires c < |s.copies|
  {
    s.(copies := s.copies[c := s.copies[c].(ref := s.copies[c].ref + d)],
       bad := s.bad || s.copies[c].freed || s.copies[c].ref <= 0)
  }

  function Erase(s: Sys, c: nat): Sys
    requires c < |s.copies|
  {
    s.(copies := s.copies[c := s.copies[c].(freed := true)], bad := s.bad || s.copies[c].freed)
  }

  /** stm_releasecopy: nothing to do for NULL. */
  function GiveUp(last: Option<nat>, o: Option<nat>): Thread {
    if o.Some? then Drop(last, o.value) else Outside(last)
  }

  /** What one step of a thread at 'th' does to the shared state, and where the thread is then. */
  function Turn(s: Sys, th: Thread, choice: Choice): (Sys, Thread)
    requires Known(s.cur, |s.copies|) && Mentions(th, |s.copies|)
  {
    match th
    case Outside(last) =>
      (match choice
       case Read => (s, RSpin(last))
       case Update => (s.(copies := s.copies + [Copy(1, false)]), WSet(last, |s.copies|))
       case Release => if s.released then (s, th) else (s.(released := true, bad := s.bad || s.cur.None?), DSet(last))
       case Leave => (s, GiveUp(None, last))
       case Go => (s, th))
    case RSpin(last) => (s, if s.write then th else RAdd(last))
    case RAdd(last) => (s.(read := s.read + 1), RCheck(last))
    case RCheck(last) => (s, if s.write then RBack(last) else RIn(last))
    case RBack(last) => (s.(read := s.read - 1), RSpin(last))
    case RIn(last) => (s, if s.cur.Some? then RGrab(last, s.cur.value) else ROut(last, None))
    case RGrab(last, c) => (Count(s, c, 1), ROut(last, Some(c)))
    case ROut(last, got) => (s.(read := s.read - 1), RHave(last, got))
    case RHave(last, got) => (s, if got == last then GiveUp(last, got) else GiveUp(got, last))
    case Drop(last, c) => (Count(s, c, -1), if s.copies[c].ref == 1 then Free(last, c) else Outside(last))
    case Free(last, c) => (Erase(s, c), Outside(last))
    case WSet(last, c) => if s.write then (s, th) else (s.(write := true), WWait(last, c))
    case WWait(last, c) => (s, if s.read != 0 then th else WIn(last, c))
    case WIn(last, c) => (s, WPut(last, c, s.cur))
    case WPut(last, c, was) => (s.(cur := Some(c)), WOut(last, was))
    case WOut(last, was) => (s.(write := false), GiveUp(last, was))
    case DSet(last) => if s.write then (s, th) else (s.(write := true), DWait(last))
    case DWait(last) => (s, if s.read != 0 then th else DIn(last))
    case DIn(last) =>
      if s.cur.None? then (s, DNull(last, None))
      else (Count(s, s.cur.value, -1), if s.copies[s.cur.value].ref == 1 then DFree(last, s.cur.value)
        else DNull(last, s.cur))
    case DFree(last, c) => (Erase(s, c), DNull(last, Some(c)))
    case DNull(last, c) => (s.(cur := None), DOut(last))
    case DOut(last) => (s.(write := false), Outside(last))
  }

  function Step(s: Sys, t: nat, choice: Choice): Sys
    requires Shape(s) && t < |s.threads|
  {
    var (next, th) := Turn(s, s.threads[t], choice);
    next.(threads := s.threads[t := th])
  }

  // ----- counting -----

  /** A thread that set the write flag, that is counted as a reader, that is inside the lock as a
      writer or as a reader, that holds references to a copy, that has given up the object's own
      reference before clearing the object's pointer, that is about to free the copy. */
  datatype Kind = Writers | Readers | Writing | Reading | Holds(x: nat) | Leaving(x: nat) | Frees(x: nat)

  function B(b: bool): int {
    if b then 1 else 0
  }

  predicate InWriter(th: Thread) {
    th.WIn? || th.WPut? || th.WOut? || th.DIn? || th.DFree? || th.DNull? || th.DOut?
  }

  predicate InReader(th: Thread) {
    th.RIn? || th.RGrab? || th.ROut?
  }

  /** References that a thread has besides 'last'. */
  function Extra(th: Thread, x: nat): int {
    match th
    case ROut(_, got) => B(got == Some(x))
    case RHave(_, got) => B(got == Some(x))
    case Drop(_, c) => B(c == x)
    case WSet(_, c) => B(c == x)
    case WWait(_, c) => B(c == x)
    case WIn(_, c) => B(c == x)
    case WPut(_, c, was) => B(c == x)
    case WOut(_, was) => B(was == Some(x))
    case _ => 0
  }

  function Weight(kind: Kind, th: Thread): int {
    match kind
    case Writers => B(InWriter(th) || th.WWait? || th.DWait?)
    case Readers => B(InReader(th) || th.RCheck? || th.RBack?)
    case Writing => B(InWriter(th))
    case Reading => B(InReader(th))
    case Holds(x) => B(th.last == Some(x)) + Extra(th, x)
    case Leaving(x) => B((th.DFree? && th.c == x) || (th.DNull? && th.gone == Some(x)))
    case Frees(x) => B((th.Free? || th.DFree?) && th.c == x)
  }

  function Sum(kind: Kind, threads: seq<Thread>): int {
    if threads == [] then 0 else Weight(kind, threads[0]) + Sum(kind, threads[1..])
  }

  lemma {:induction false} SumUpdate(kind: Kind, threads: seq<Thread>, t: nat, th: Thread)
    requires t < |threads|
    ensures Sum(kind, threads[t := th]) == Sum(kind, threads) - Weight(kind, threads[t]) + Weight(kind, th)
    decreases |threads|
  {
    if t == 0 {
      assert threads[t := th][1..] == threads[1..];
    } else {
      assert threads[t := th][1..] == threads[1..][t - 1 := th];
      SumUpdate(kind, threads[1..], t - 1, th);
    }
  }

  lemma {:induction false} SumAtLeast(kind: Kind, threads: seq<Thread>, t: nat)
    requires t < |threads|
    ensures 0 <= Weight(kind, threads[t]) <= Sum(kind, threads)
    decreases |threads|
  {
    if t > 0 {
      SumAtLeast(kind, threads[1..], t - 1);
    } else {
      SumNatural(kind, threads[1..]);
    }
  }

  lemma {:induction false} SumNatural(kind: Kind, threads: seq<Thread>)
    ensures Sum(kind, threads) >= 0
  {
    if threads != [] {
      SumNatural(kind, threads[1..]);
    }
  }

  lemma SumOfTwo(kind: Kind, threads: seq<Thread>, t: nat, u: nat)
    requires t < |threads| && u < |threads| && t != u
    ensures Weight(kind, threads[t]) + Weight(kind, threads[u]) <= Sum(kind, threads)
  {
    SumUpdate(kind, threads, t, Outside(None));
    SumAtLeast(kind, threads[t := Outside(None)], u);
  }

  // ----- the invariant -----

  /** What a thread that is inside the lock knows of the object. */
  predicate Knows(th: Thread, cur: Option<nat>) {
    match th
    case RGrab(_, c) => cur == Some(c)
    case ROut(_, got) => cur == got
    case WPut(_, _, was) => cur == was
    case DFree(_, c) => cur == Some(c)
    case DNull(_, c) => cur == c
    case _ => true
  }

  ghost predicate LockOk(s: Sys) {
    && Sum(Writers, s.threads) == B(s.write) && Sum(Readers, s.threads) == s.read
    && (Sum(Writing, s.threads) > 0 ==> Sum(Reading, s.threads) == 0)
    && (forall t :: 0 <= t < |s.threads| ==> Knows(s.threads[t], s.cur))
  }

  /** The reference count is that of the holders, and the last one to leave frees. */
  ghost predicate CopyOk(s: Sys, x: nat)
    requires x < |s.copies|
  {
    && s.copies[x].ref == B(s.cur == Some(x)) - Sum(Leaving(x), s.threads) + Sum(Holds(x), s.threads)
    && B(s.copies[x].freed) + Sum(Frees(x), s.threads) == B(s.copies[x].ref == 0)
  }

  ghost predicate Inv(s: Sys) {
    && Shape(s) && !s.bad && LockOk(s)
    && (forall x {:trigger CopyOk(s, x)} :: 0 <= x < |s.copies| ==> CopyOk(s, x))
    && (!s.released ==> s.cur.Some?)
    && (forall t :: 0 <= t < |s.threads| ==> InRelease(s.threads[t]) ==> s.released)
  }

  // ----- every step keeps it -----

  predicate Sums(threads: seq<Thread>, t: nat, th: Thread, kind: Kind)
    requires t < |threads|
  {
    Sum(kind, threads[t := th]) == Sum(kind, threads) - Weight(kind, threads[t]) + Weight(kind, th)
  }

  lemma LockSums(threads: seq<Thread>, t: nat, th: Thread)
    requires t < |threads|
    ensures Sums(threads, t, th, Writers) && Sums(threads, t, th, Readers) && Sums(threads, t, th, Writing)
    ensures Sums(threads, t, th, Reading)
    ensures Weight(Writers, threads[t]) <= Sum(Writers, threads) && Weight(Readers, threads[t]) <= Sum(Readers, threads)
    ensures Weight(Writing, threads[t]) <= Sum(Writing, threads) && Weight(Reading, threads[t]) <= Sum(Reading, threads)
    ensures Sum(Writing, threads) <= Sum(Writers, threads) && Sum(Reading, threads) <= Sum(Readers, threads)
    ensures Sum(Writing, threads) >= 0 && Sum(Reading, threads) >= 0
  {
    SumUpdate(Writers, threads, t, th);
    SumUpdate(Readers, threads, t, th);
    SumUpdate(Writing, threads, t, th);
    SumUpdate(Reading, threads, t, th);
    SumAtLeast(Writers, threads, t);
    SumAtLeast(Readers, threads, t);
    SumAtLeast(Writing, threads, t);
    SumAtLeast(Reading, threads, t);
    InsideCounted(threads);
  }

  lemma {:induction false} InsideCounted(threads: seq<Thread>)
    ensures Sum(Writing, threads) <= Sum(Writers, threads) && Sum(Reading, threads) <= Sum(Readers, threads)
  {
    if threads != [] {
      InsideCounted(threads[1..]);
    }
  }

  /** While a thread writes inside the lock, no other thread is inside it. */
  lemma Alone(s: Sys, t: nat, u: nat)
    requires LockOk(s) && t < |s.threads| && u < |s.threads| && t != u && InWriter(s.threads[t])
    ensures !InWriter(s.threads[u]) && !InReader(s.threads[u])
  {
    SumOfTwo(Writers, s.threads, t, u);
    SumAtLeast(Writing, s.threads, t);
    SumAtLeast(Reading, s.threads, u);
  }

  /** The lock part of the invariant when a thread moves. */
  lemma LockMoves(s: Sys, t: nat, th: Thread, next: Sys)
    requires LockOk(s) && t < |s.threads| && next.threads == s.threads[t := th] && Knows(th, next.cur)
    requires next.cur == s.cur || InWriter(s.threads[t])
    requires B(next.write) - B(s.write) == Weight(Writers, th) - Weight(Writers, s.threads[t])
    requires next.read - s.read == Weight(Readers, th) - Weight(Readers, s.threads[t])
    requires InReader(th) ==> InReader(s.threads[t]) || !s.write
    requires InWriter(th) ==> InWriter(s.threads[t]) || s.read == 0
    ensures LockOk(next)
  {
    LockSums(s.threads, t, th);
    hide Sum;
    forall u | 0 <= u < |next.threads| ensures Knows(next.threads[u], next.cur) {
      if u != t {
        assert Knows(s.threads[u], s.cur);
        if next.cur != s.cur {
          Alone(s, t, u);
        }
      }
    }
  }

  /** What a step does to the write flag, and to the count of readers. */
  lemma TurnWrites(s: Sys, a: Thread, choice: Choice)
    requires Known(s.cur, |s.copies|) && Mentions(a, |s.copies|) && Weight(Writers, a) <= B(s.write)
    ensures var (next, b) := Turn(s, a, choice);
      B(next.write) - B(s.write) == Weight(Writers, b) - Weight(Writers, a)
  {
    hide Mentions, Known;
  }

  lemma TurnReads(s: Sys, a: Thread, choice: Choice)
    requires Known(s.cur, |s.copies|) && Mentions(a, |s.copies|)
    ensures var (next, b) := Turn(s, a, choice);
      next.read - s.read == Weight(Readers, b) - Weight(Readers, a)
  {
  }

  /** Who gets into the lock, and what is known there. */
  lemma TurnEnters(s: Sys, a: Thread, choice: Choice)
    requires Known(s.cur, |s.copies|) && Mentions(a, |s.copies|) && Knows(a, s.cur)
    ensures var (next, b) := Turn(s, a, choice);
      && Knows(b, next.cur) && (next.cur == s.cur || InWriter(a))
      && (InReader(b) ==> InReader(a) || !s.write)
      && (InWriter(b) ==> InWriter(a) || s.read == 0)
  {
  }

  lemma LockKeeps(s: Sys, t: nat, choice: Choice)
    requires Shape(s) && LockOk(s) && t < |s.threads|
    ensures LockOk(Step(s, t, choice))
  {
    LockSums(s.threads, t, Outside(None));
    TurnWrites(s, s.threads[t], choice);
    TurnReads(s, s.threads[t], choice);
    TurnEnters(s, s.threads[t], choice);
    hide Turn;
    var next := Step(s, t, choice);
    LockMoves(s, t, next.threads[t], next);
  }

  lemma {:induction false} LeavingInside(threads: seq<Thread>, x: nat)
    ensures 0 <= Sum(Leaving(x), threads) <= Sum(Writing, threads)
    ensures Sum(Leaving(x), threads) > 0 ==> exists t :: 0 <= t < |threads| && Weight(Leaving(x), threads[t]) > 0
  {
    if threads != [] {
      LeavingInside(threads[1..], x);
      if Sum(Leaving(x), threads[1..]) > 0 {
        var t :| 0 <= t < |threads[1..]| && Weight(Leaving(x), threads[1..][t]) > 0;
        assert threads[t + 1] == threads[1..][t];
      } else {
        assert Sum(Leaving(x), threads) > 0 ==> Weight(Leaving(x), threads[0]) > 0;
      }
    }
  }

  lemma LeaverIsInside(th: Thread, x: nat, cur: Option<nat>)
    requires Weight(Leaving(x), th) > 0 && Knows(th, cur)
    ensures InWriter(th) && !InReader(th) && cur == Some(x)
  {
  }

  /** Between giving up the object's reference and clearing its pointer, a thread is alone. */
  lemma LeavingIsFew(s: Sys, x: nat, t: nat)
    requires LockOk(s) && t < |s.threads|
    ensures 0 <= Sum(Leaving(x), s.threads) <= B(s.cur == Some(x))
    ensures InReader(s.threads[t]) || (InWriter(s.threads[t]) && Weight(Leaving(x), s.threads[t]) == 0) ==>
      Sum(Leaving(x), s.threads) == 0
  {
    LeavingInside(s.threads, x);
    LockSums(s.threads, t, Outside(None));
    hide Sum, Weight, Knows, InWriter, InReader;
    if Sum(Leaving(x), s.threads) > 0 {
      var u :| 0 <= u < |s.threads| && Weight(Leaving(x), s.threads[u]) > 0;
      assert Knows(s.threads[u], s.cur);
      LeaverIsInside(s.threads[u], x, s.cur);
      if u != t {
        Alone(s, u, t);
      }
    }
  }

  /** The references of a copy cover those of each thread, and the object's own. */
  lemma Covered(s: Sys, x: nat, t: nat)
    requires Inv(s) && x < |s.copies| && t < |s.threads|
    ensures Sum(Leaving(x), s.threads) <= B(s.cur == Some(x))
    ensures Sum(Leaving(x), s.threads) >= Weight(Leaving(x), s.threads[t])
    ensures s.copies[x].ref >= Sum(Holds(x), s.threads) >= Weight(Holds(x), s.threads[t])
    ensures InReader(s.threads[t]) || (InWriter(s.threads[t]) && Weight(Leaving(x), s.threads[t]) == 0) ==>
      Sum(Leaving(x), s.threads) == 0
    ensures s.copies[x].ref > 0 ==> !s.copies[x].freed
    ensures Weight(Frees(x), s.threads[t]) > 0 ==> !s.copies[x].freed && s.copies[x].ref == 0
  {
    assert CopyOk(s, x);
    LeavingIsFew(s, x, t);
    SumAtLeast(Holds(x), s.threads, t);
    SumAtLeast(Leaving(x), s.threads, t);
    SumAtLeast(Frees(x), s.threads, t);
    hide Sum, Weight, LockOk;
  }

  /** What a thread may rely on for the copies it touches: a reference it has, or the object's own. */
  predicate Backed(s: Sys, a: Thread, x: nat)
    requires x < |s.copies|
  {
    && s.copies[x].ref >= Weight(Holds(x), a)
    && (s.copies[x].ref > 0 ==> !s.copies[x].freed)
    && (Weight(Frees(x), a) > 0 ==> !s.copies[x].freed && s.copies[x].ref == 0)
    && (a.RGrab? || a.DIn? ==> s.cur == Some(x) ==> s.copies[x].ref > 0)
  }

  /** The count of a copy changes with the references that come and go. */
  ghost predicate Counts(s: Sys, a: Thread, next: Sys, b: Thread, x: nat) {
    && x < |s.copies| <= |next.copies|
    && next.copies[x].ref - s.copies[x].ref
      == B(next.cur == Some(x)) - B(s.cur == Some(x)) - (Weight(Leaving(x), b) - Weight(Leaving(x), a))
         + Weight(Holds(x), b) - Weight(Holds(x), a)
  }

  predicate Updates(a: Thread) {
    a.WSet? || a.WWait? || a.WIn? || a.WPut? || a.WOut?
  }

  predicate InRelease(th: Thread) {
    th.DSet? || th.DWait? || th.DIn? || th.DFree? || th.DNull? || th.DOut?
  }

  lemma TurnCountsUpdate(s: Sys, a: Thread, choice: Choice, x: nat)
    requires Known(s.cur, |s.copies|) && Mentions(a, |s.copies|) && Knows(a, s.cur) && x < |s.copies| && Updates(a)
    ensures var (next, b) := Turn(s, a, choice); Counts(s, a, next, b, x)
  {
  }

  lemma TurnCountsRelease(s: Sys, a: Thread, choice: Choice, x: nat)
    requires Known(s.cur, |s.copies|) && Mentions(a, |s.copies|) && Knows(a, s.cur) && x < |s.copies| && InRelease(a)
    ensures var (next, b) := Turn(s, a, choice); Counts(s, a, next, b, x)
  {
  }

  predicate Reads(a: Thread) {
    InReader(a) || a.RSpin? || a.RAdd? || a.RCheck? || a.RBack? || a.RHave?
  }

  lemma TurnCountsRead(s: Sys, a: Thread, choice: Choice, x: nat)
    requires Known(s.cur, |s.copies|) && Mentions(a, |s.copies|) && Knows(a, s.cur) && x < |s.copies| && Reads(a)
    ensures var (next, b) := Turn(s, a, choice); Counts(s, a, next, b, x)
  {
  }

  lemma TurnCountsElse(s: Sys, a: Thread, choice: Choice, x: nat)
    requires Known(s.cur, |s.copies|) && Mentions(a, |s.copies|) && Knows(a, s.cur) && x < |s.copies|
    requires a.Outside? || a.Drop? || a.Free?
    ensures var (next, b) := Turn(s, a, choice); Counts(s, a, next, b, x)
  {
  }

  lemma TurnCounts(s: Sys, a: Thread, choice: Choice, x: nat)
    requires Known(s.cur, |s.copies|) && Mentions(a, |s.copies|) && Knows(a, s.cur) && x < |s.copies|
    ensures var (next, b) := Turn(s, a, choice); Counts(s, a, next, b, x)
  {
    hide Turn, Counts;
    if Updates(a) {
      TurnCountsUpdate(s, a, choice, x);
    } else if InRelease(a) {
      TurnCountsRelease(s, a, choice, x);
    } else if Reads(a) {
      TurnCountsRead(s, a, choice, x);
    } else {
      TurnCountsElse(s, a, choice, x);
    }
  }

  /** The part of the invariant about one copy, when a thread moves. */
  lemma CopyMoves(s: Sys, t: nat, th: Thread, next: Sys, x: nat)
    requires t < |s.threads| && Counts(s, s.threads[t], next, th, x) && CopyOk(s, x)
    requires next.threads == s.threads[t := th]
    requires var a := s.threads[t];
      B(next.copies[x].freed) - B(s.copies[x].freed) + Weight(Frees(x), th) - Weight(Frees(x), a)
        == B(next.copies[x].ref == 0) - B(s.copies[x].ref == 0)
    ensures CopyOk(next, x)
  {
    SumUpdate(Leaving(x), s.threads, t, th);
    SumUpdate(Holds(x), s.threads, t, th);
    SumUpdate(Frees(x), s.threads, t, th);
  }

  /** The step that takes the last reference is followed by the one that frees. */
  lemma TurnFrees(s: Sys, a: Thread, choice: Choice, x: nat)
    requires Known(s.cur, |s.copies|) && Mentions(a, |s.copies|) && Knows(a, s.cur) && x < |s.copies| && Backed(s, a, x)
    ensures var (next, b) := Turn(s, a, choice);
      |next.copies| >= |s.copies|
      && B(next.copies[x].freed) - B(s.copies[x].freed) + Weight(Frees(x), b) - Weight(Frees(x), a)
        == B(next.copies[x].ref == 0) - B(s.copies[x].ref == 0)
  {
    match a
    case RGrab(_, _) =>
    case Drop(_, _) =>
    case Free(_, _) =>
    case DIn(_) =>
    case DFree(_, _) =>
    case _ =>
  }

  /** No step uses a freed copy or fails an assertion. */
  lemma TurnSafe(s: Sys, a: Thread, choice: Choice)
    requires Known(s.cur, |s.copies|) && Mentions(a, |s.copies|) && Knows(a, s.cur) && !s.bad
    requires (!s.released ==> s.cur.Some?) && forall x :: 0 <= x < |s.copies| ==> Backed(s, a, x)
    ensures !Turn(s, a, choice).0.bad
  {
    match a
    case RGrab(_, c) => assert Backed(s, a, c);
    case Drop(_, c) => assert Backed(s, a, c);
    case Free(_, c) => assert Backed(s, a, c);
    case DFree(_, c) => assert Backed(s, a, c);
    case DIn(_) => assert s.cur.Some? ==> Backed(s, a, s.cur.value);
    case _ =>
  }

  lemma TurnShape(s: Sys, a: Thread, choice: Choice)
    requires Known(s.cur, |s.copies|) && Mentions(a, |s.copies|)
    ensures var (next, b) := Turn(s, a, choice);
      && Mentions(b, |next.copies|) && Known(next.cur, |next.copies|)
      && (|next.copies| == |s.copies|
          || (next.copies == s.copies + [Copy(1, false)] && b == WSet(a.last, |s.copies|) && next.cur == s.cur
               && a.Outside?))
  {
  }

  lemma TurnReleases(s: Sys, a: Thread, choice: Choice)
    requires Known(s.cur, |s.copies|) && Mentions(a, |s.copies|)
    requires (InRelease(a) ==> s.released) && (!s.released ==> s.cur.Some?)
    ensures var (next, b) := Turn(s, a, choice);
      (s.released ==> next.released) && (InRelease(b) ==> next.released) && (!next.released ==> next.cur.Some?)
  {
  }

  lemma {:induction false} NotMentioned(threads: seq<Thread>, n: nat)
    requires forall t :: 0 <= t < |threads| ==> Mentions(threads[t], n)
    ensures Sum(Holds(n), threads) == Sum(Leaving(n), threads) == Sum(Frees(n), threads) == 0
  {
    if threads != [] {
      assert Mentions(threads[0], n);
      NotMentioned(threads[1..], n);
    }
  }

  lemma MentionsMore(th: Thread, n: nat, m: nat)
    requires Mentions(th, n) && n <= m
    ensures Mentions(th, m)
  {
  }

  /** Every step of every thread keeps the invariant. */
  lemma StepKeeps(s: Sys, t: nat, choice: Choice)
    requires Inv(s) && t < |s.threads|
    ensures Inv(Step(s, t, choice))
  {
    var a := s.threads[t];
    assert Mentions(a, |s.copies|) && Knows(a, s.cur);
    var (next, b) := Turn(s, a, choice);
    var after := Step(s, t, choice);
    LockKeeps(s, t, choice);
    TurnShape(s, a, choice);
    TurnReleases(s, a, choice);
    hide Turn, Weight, Sum, LockOk, Knows;
    forall x | 0 <= x < |s.copies| ensures Backed(s, a, x) {
      Backs(s, t, x);
    }
    TurnSafe(s, a, choice);
    forall u | 0 <= u < |s.threads| ensures Mentions(after.threads[u], |after.copies|) {
      MentionsMore(s.threads[u], |s.copies|, |after.copies|);
    }
    forall x | 0 <= x < |after.copies| ensures CopyOk(after, x) {
      if x < |s.copies| {
        TurnCounts(s, a, choice, x);
        TurnFrees(s, a, choice, x);
        assert CopyOk(s, x);
        CopyMoves(s, t, b, after, x);
      } else {
        NewCopy(s, t, b, after);
      }
    }
    forall u | 0 <= u < |after.threads| ensures InRelease(after.threads[u]) ==> after.released {
    }
  }

  lemma Backs(s: Sys, t: nat, x: nat)
    requires Inv(s) && t < |s.threads| && x < |s.copies|
    ensures Backed(s, s.threads[t], x)
  {
    Covered(s, x, t);
    assert CopyOk(s, x);
    SumAtLeast(Holds(x), s.threads, t);
    assert Knows(s.threads[t], s.cur);
  }

  lemma NewCopy(s: Sys, t: nat, b: Thread, next: Sys)
    requires Inv(s) && t < |s.threads| && s.threads[t].Outside? && b == WSet(s.threads[t].last, |s.copies|)
    requires next.threads == s.threads[t := b] && next.copies == s.copies + [Copy(1, false)] && next.cur == s.cur
    ensures CopyOk(next, |s.copies|)
  {
    var n := |s.copies|;
    NotMentioned(s.threads, n);
    assert Mentions(s.threads[t], n);
    SumUpdate(Holds(n), s.threads, t, b);
    SumUpdate(Leaving(n), s.threads, t, b);
    SumUpdate(Frees(n), s.threads, t, b);
  }

  // ----- every run -----

  datatype Turning = Turning(t: nat, choice: Choice)

  /** 'n' threads outside the lock, and an object with its first copy. */
  function Start(n: nat): Sys {
    Sys(false, 0, [Copy(1, false)], Some(0), false, seq(n, _ => Outside(None)), false)
  }

  lemma {:induction false} NoneInside(kind: Kind, n: nat)
    ensures Sum(kind, seq(n, _ => Outside(None))) == 0
  {
    if n > 0 {
      assert seq(n, _ => Outside(None))[1..] == seq(n - 1, _ => Outside(None));
      NoneInside(kind, n - 1);
    }
  }

  lemma StartOk(n: nat)
    ensures Inv(Start(n))
  {
    var s := Start(n);
    NoneInside(Writers, n);
    NoneInside(Readers, n);
    NoneInside(Writing, n);
    NoneInside(Reading, n);
    NoneInside(Holds(0), n);
    NoneInside(Leaving(0), n);
    NoneInside(Frees(0), n);
    assert CopyOk(s, 0);
  }

  /** Any interleaving: 'turns' says which thread goes next, and what it wants outside the lock. */
  ghost function Run(n: nat, turns: seq<Turning>): (s: Sys)
    requires forall k :: 0 <= k < |turns| ==> turns[k].t < n
    ensures Inv(s) && |s.threads| == n
  {
    if turns == [] then StartOk(n); Start(n)
    else
      var last := turns[|turns| - 1];
      var s := Run(n, turns[..|turns| - 1]);
      StepKeeps(s, last.t, last.choice);
      Step(s, last.t, last.choice)
  }

  /** The lock never admits a writer together with a reader or a second writer. */
  lemma NeverTogether(n: nat, turns: seq<Turning>, t: nat, u: nat)
    requires (forall k :: 0 <= k < |turns| ==> turns[k].t < n) && t < n && u < n && t != u
    requires InWriter(Run(n, turns).threads[t])
    ensures !InWriter(Run(n, turns).threads[u]) && !InReader(Run(n, turns).threads[u])
  {
    Alone(Run(n, turns), t, u);
  }

  /** A copy that a thread or the object holds is not freed, and its count is that of its holders. */
  lemma HeldIsThere(n: nat, turns: seq<Turning>, x: nat)
    requires forall k :: 0 <= k < |turns| ==> turns[k].t < n
    requires x < |Run(n, turns).copies|
    ensures var s := Run(n, turns);
      && s.copies[x].ref == B(s.cur == Some(x)) - Sum(Leaving(x), s.threads) + Sum(Holds(x), s.threads)
      && (forall t :: 0 <= t < n && Weight(Holds(x), s.threads[t]) > 0 ==> !s.copies[x].freed)
      && (s.cur == Some(x) && Sum(Leaving(x), s.threads) == 0 ==> !s.copies[x].freed)
      && !s.bad
  {
    var s := Run(n, turns);
    assert CopyOk(s, x);
    forall t | 0 <= t < n && Weight(Holds(x), s.threads[t]) > 0 ensures !s.copies[x].freed {
      Covered(s, x, t);
    }
    SumNatural(Holds(x), s.threads);
    SumNatural(Frees(x), s.threads);
  }

  /** Once no thread is on its way to free it, a copy without holders is freed, and stays freed. */
  lemma FreedForGood(n: nat, turns: seq<Turning>, next: Turning, x: nat)
    requires (forall k :: 0 <= k < |turns| ==> turns[k].t < n) && next.t < n
    requires x < |Run(n, turns).copies|
    ensures var s := Run(n, turns);
      && (s.copies[x].ref == 0 && (forall t :: 0 <= t < n ==> Weight(Frees(x), s.threads[t]) == 0) ==>
           s.copies[x].freed)
      && (s.copies[x].freed ==>
           x < |Step(s, next.t, next.choice).copies| && Step(s, next.t, next.choice).copies[x].freed)
  {
    var s := Run(n, turns);
    assert CopyOk(s, x);
    hide Turn;
    if forall t :: 0 <= t < n ==> Weight(Frees(x), s.threads[t]) == 0 {
      NoneSum(Frees(x), s.threads);
    }
    if s.copies[x].freed {
      assert Mentions(s.threads[next.t], |s.copies|);
      KeepsFreed(s, s.threads[next.t], next.choice, x);
    }
  }

  lemma KeepsFreed(s: Sys, a: Thread, choice: Choice, x: nat)
    requires Known(s.cur, |s.copies|) && Mentions(a, |s.copies|) && x < |s.copies| && s.copies[x].freed
    ensures x < |Turn(s, a, choice).0.copies| && Turn(s, a, choice).0.copies[x].freed
  {
  }

  lemma {:induction false} NoneSum(kind: Kind, threads: seq<Thread>)
    requires forall t :: 0 <= t < |threads| ==> Weight(kind, threads[t]) == 0
    ensures Sum(kind, threads) == 0
  {
    if threads != [] {
      NoneSum(kind, threads[1..]);
    }
  }
}
