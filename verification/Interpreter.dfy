/** The interpreter loop over a growing backtrack stack and capture array. */
module Interpreter {
  import opened PegTree
  import opened Analyses
  import opened Machine
  import opened CaptureList
  import opened CaptureSearch
  import opened CaptureReading
  import opened Simulation
  import opened Peephole
  import opened Compiler

  const INITBACK := 400

  const INITCAPSIZE := 32

  /** INT_MAX, and the size of an entry of the capture array. */
  const INT_MAX := 0x7FFF_FFFF
  const SIZE_OF_CAPTURE := 16

  /** The capture array is not doubled beyond this size. */
  const MAX_CAPTURES := 0x400_0000

  function Exp2(k: nat): nat {
    if k == 0 then 1 else 2 * Exp2(k - 1)
  }

  /** An array that can be doubled 'room' times. */
  lemma Rooms(size: nat, room: nat)
    requires size * Exp2(room) == MAX_CAPTURES
    ensures size <= MAX_CAPTURES
    ensures size >= INT_MAX / (SIZE_OF_CAPTURE * 2) <==> size == MAX_CAPTURES
    ensures size < MAX_CAPTURES ==> room > 0 && (size * 2) * Exp2(room - 1) == MAX_CAPTURES
  {
    if room > 0 {
      HalfAtMost(size, Exp2(room - 1));
    }
  }

  lemma HalfAtMost(size: nat, n: nat)
    requires size * (2 * n) == MAX_CAPTURES
    ensures size * 2 <= MAX_CAPTURES && (size * 2) * n == MAX_CAPTURES
  {
    assert (size * 2) * n == size * (2 * n);
    if n != 0 {
      AtLeast(size * 2, n);
    }
  }

  lemma AtLeast(a: nat, n: nat)
    requires n >= 1
    ensures a * n >= a
  {
  }

  lemma Room21()
    ensures INITCAPSIZE * Exp2(21) == MAX_CAPTURES
  {
    assert Exp2(6) == 0x40;
    assert Exp2(11) == 0x800;
    assert Exp2(16) == 0x1_0000;
    assert Exp2(21) == 0x20_0000;
  }

  /** The stack kept in an array, topmost entry last. */
  function ToStack(a: seq<Entry>): Stack {
    if a == [] then Bottom else Push(a[|a| - 1], ToStack(a[..|a| - 1]))
  }

  function Depth(stack: Stack): nat {
    match stack
    case Bottom => 0
    case Push(_, rest) => 1 + Depth(rest)
  }

  lemma {:induction false} DepthIs(a: seq<Entry>)
    ensures Depth(ToStack(a)) == |a|
  {
    if a != [] {
      DepthIs(a[..|a| - 1]);
    }
  }

  /** How many entries there may be: those of the array on the C stack, or the limit set with setmaxstack. */
  function MaxEntries(limit: int): (n: nat)
    ensures n >= INITBACK
  {
    if limit < INITBACK then INITBACK else limit
  }

  /** Neither the stack nor the captures are more than there is room for. */
  predicate Fits(st: State, limit: int) {
    st.Running? ==> Depth(st.stack) <= MaxEntries(limit) && |st.caps| < MAX_CAPTURES
  }

  /** Every state of a run, up to its halt, fits. */
  predicate FitsRun(trace: seq<State>, limit: int) {
    trace == [] || (Fits(trace[0], limit) && (trace[0].Running? ==> FitsRun(trace[1..], limit)))
  }

  /** The run from 'a' to 'b' stays within the limit. */
  ghost predicate Within(code: Code, s: Subject, a: State, b: State, limit: int) {
    exists trace :: IsRun(code, s, a, b, trace) && FitsRun(trace, limit)
  }

  lemma {:induction false} FitsAlike(code: Code, s: Subject, a: State, b: State, first: seq<State>, second: seq<State>,
        limit: int)
    requires IsRun(code, s, a, b, first) && IsRun(code, s, a, b, second) && !b.Running? && FitsRun(first, limit)
    ensures FitsRun(second, limit)
    decreases |first|
  {
    if a.Running? {
      RunTail(code, s, a, b, first);
      RunTail(code, s, a, b, second);
      FitsAlike(code, s, Step(code, s, a), b, first[1..], second[1..], limit);
    }
  }

  /** It does so exactly if any one run does. */
  lemma WithinIs(code: Code, s: Subject, a: State, b: State, trace: seq<State>, limit: int)
    requires IsRun(code, s, a, b, trace) && !b.Running?
    ensures Within(code, s, a, b, limit) <==> FitsRun(trace, limit)
  {
    if Within(code, s, a, b, limit) {
      var other :| IsRun(code, s, a, b, other) && FitsRun(other, limit);
      FitsAlike(code, s, a, b, other, trace, limit);
    }
  }

  /** What a match gives: the error of a stack overflow or of too many captures, no match, or where it ends with
      the captures in the array. */
  datatype Answer = Overflow | Fails | Match(pos: nat, caps: seq<Capture>)

  predicate UsesStack(op: Opcode) {
    op in {IJmp, IChoice, ICall, IRet, ICommit, IPartialCommit, IBackCommit, IFailTwice, IFail}
  }

  predicate MakesCapture(op: Opcode) {
    op in {ICloseCapture, IOpenCapture, IFullCapture}
  }

  class Matcher {
    const limit: int
    var p: int
    var s: nat
    var stack: array<Entry>
    var top: nat
    var capture: array<Capture>
    var captop: nat
    /** How often the capture array can still be doubled. */
    ghost var room: nat

    ghost predicate Valid()
      reads this
    {
      && capture.Length * Exp2(room) == MAX_CAPTURES
      && top <= stack.Length
      && INITBACK <= stack.Length <= MaxEntries(limit)
      && captop < capture.Length
    }

    /** The machine state this matcher is in: entries above 'top' and 'captop' are garbage. */
    ghost function St(): State
      reads this, stack, capture
      requires Valid()
    {
      Running(p, s, ToStack(stack[..top]), capture[..captop])
    }

    lemma ValidFits()
      requires Valid()
      ensures Fits(St(), limit) && Depth(ToStack(stack[..top])) == top
    {
      DepthIs(stack[..top]);
      Rooms(capture.Length, room);
    }

    constructor (start: nat, max: int)
      ensures Valid() && St() == Start(start) && limit == max && fresh(stack) && fresh(capture)
    {
      limit := max;
      p, s := 0, start;
      stack := new Entry[INITBACK];
      capture := new Capture[INITCAPSIZE];
      top, captop, room := 1, 0, 21;
      new;
      Room21();
      stack[0] := Choice(GIVEUP, start, 0);
      assert stack[..1] == [Choice(GIVEUP, start, 0)];
      assert ToStack(stack[..1]) == Push(Choice(GIVEUP, start, 0), ToStack(stack[..1][..0]));
    }

    /** Put an entry on the stack, doubling the array when it is full, but not beyond the limit. */
    method PushEntry(e: Entry) returns (ok: bool)
      requires Valid()
      modifies this`stack, this`top, stack
      ensures Valid() && (stack == old(stack) || fresh(stack))
      ensures ok <==> old(top) < MaxEntries(limit)
      ensures ok ==> ToStack(stack[..top]) == Push(e, old(ToStack(stack[..top])))
      ensures !ok ==> top == old(top) && stack == old(stack) && stack[..] == old(stack[..])
    {
      ghost var was := stack[..top];
      if top == stack.Length {
        if stack.Length >= limit {
          return false;
        }
        var bigger := new Entry[if 2 * stack.Length > limit then limit else 2 * stack.Length];
        forall k | 0 <= k < top {
          bigger[k] := stack[k];
        }
        stack := bigger;
      }
      stack[top] := e;
      top := top + 1;
      assert stack[..top] == was + [e];
      assert stack[..top][..top - 1] == was;
      return true;
    }

    /** Add a capture, doubling the array when it gets full; there is a largest size. */
    method PushCapture(c: Capture) returns (ok: bool)
      requires Valid()
      modifies this`capture, this`captop, this`room, capture
      ensures ok <==> old(captop) + 1 < MAX_CAPTURES
      ensures ok ==> Valid() && (capture == old(capture) || fresh(capture))
      ensures ok ==> capture[..captop] == old(capture[..captop]) + [c]
    {
      Rooms(capture.Length, room);
      capture[captop] := c;
      captop := captop + 1;
      if captop >= capture.Length {
        if captop >= INT_MAX / (SIZE_OF_CAPTURE * 2) {
          return false;
        }
        var bigger := new Capture[2 * captop];
        forall k | 0 <= k < captop {
          bigger[k] := capture[k];
        }
        capture, room := bigger, room - 1;
      }
      return true;
    }

    /** The 'fail' label: drop pending calls and go back to the topmost choice. */
    method Fail()
      requires Valid() && Backtrack(ToStack(stack[..top]), capture[..captop]).Running?
      modifies this`p, this`s, this`top, this`captop
      ensures Valid() && St() == old(Backtrack(ToStack(stack[..top]), capture[..captop]))
    {
      ghost var goal := Backtrack(ToStack(stack[..top]), capture[..captop]);
      while stack[top - 1].Call?
        invariant 0 < top <= stack.Length && captop == old(captop) && p == old(p) && s == old(s)
        invariant Backtrack(ToStack(stack[..top]), capture[..captop]) == goal
        decreases top
      {
        assert stack[..top][..top - 1] == stack[..top - 1];
        top := top - 1;
      }
      assert stack[..top][..top - 1] == stack[..top - 1];
      top := top - 1;
      var Choice(q, i, caplevel) := stack[top];
      assert capture[..captop][..caplevel] == capture[..caplevel];
      p, s, captop := q, i, caplevel;
    }

    /** Close the capture opened last, in place when nothing was captured inside it. */
    method CloseLast(kind: nat, key: nat) returns (ok: bool)
      requires Valid() && captop > 0 && !OpensAfter(capture[..captop], s)
      modifies this`p, this`capture, this`captop, this`room, capture
      ensures ok <==> |CloseCapture(old(capture[..captop]), s, kind, key)| < MAX_CAPTURES
      ensures ok ==> Valid() && (capture == old(capture) || fresh(capture)) && p == old(p) + 1
      ensures ok ==> capture[..captop] == CloseCapture(old(capture[..captop]), s, kind, key)
    {
      var last := capture[captop - 1];
      if last.siz == 0 && s - last.s < UCHAR_MAX {
        ValidFits();
        ghost var was := capture[..captop];
        capture[captop - 1] := last.(siz := s - last.s + 1);
        assert capture[..captop] == was[captop - 1 := last.(siz := s - last.s + 1)];
        ok := true;
      } else {
        ok := PushCapture(Capture(s, key, kind, 1));
      }
      p := p + 1;
    }

    /** One turn of the loop at an instruction that does not end the match: a step, or the error that the stack or
        the captures would get too many. */
    method Turn(code: Code, subject: Subject) returns (ok: bool)
      requires Valid() && Step(code, subject, St()).Running?
      modifies this, stack, capture
      ensures ok <==> Fits(Step(code, subject, old(St())), limit)
      ensures ok ==> Valid() && St() == Step(code, subject, old(St()))
      ensures ok ==> (stack == old(stack) || fresh(stack)) && (capture == old(capture) || fresh(capture))
    {
      hide Backtrack, CloseCapture, OpensAfter, GetKind, GetOff, SpanEnd, Step, Execute, ToStack, Fits, Depth, Exp2;
      TurnFacts(code, subject, St());
      if UsesStack(code[p].op) {
        ok := TurnStack(code, subject);
        return;
      }
      if MakesCapture(code[p].op) {
        ok := TurnCaptures(code, subject);
        return;
      }
      var Inst(op, aux, _) := code[p];
      match op {
        case IAny => TakeOne(s < |subject|, 1);
        case IChar => TakeOne(s < |subject| && subject[s] == aux, 1);
        case ISet => TakeOne(HeadIn(subject, s, code[p + 1].cs), CHARSETINSTSIZE);
        case ITestAny => p := if s < |subject| then p + 2 else Target(code, p);
        case ITestChar => p := if s < |subject| && subject[s] == aux then p + 2 else Target(code, p);
        case ITestSet => p := if HeadIn(subject, s, code[p + 2].cs) then p + 1 + CHARSETINSTSIZE else Target(code, p);
        case IBehind =>
          if aux > s {
            Fail();
          } else {
            p, s := p + 1, s - aux;
          }
        case ISpan => Span(subject, code[p + 1].cs);
      }
      ValidFits();
      return true;
    }

    /** The instructions that make captures. */
    method TurnCaptures(code: Code, subject: Subject) returns (ok: bool)
      requires Valid() && Step(code, subject, St()).Running? && Fetchable(code, p)
      requires MakesCapture(code[p].op)
      modifies this`p, this`capture, this`captop, this`room, capture
      ensures ok <==> Fits(Step(code, subject, old(St())), limit)
      ensures ok ==> Valid() && (capture == old(capture) || fresh(capture))
      ensures ok ==> St() == Step(code, subject, old(St()))
    {
      hide Backtrack, CloseCapture, OpensAfter, GetKind, GetOff, SpanEnd, Step, Execute, ToStack, Depth, Exp2;
      TurnFacts(code, subject, St());
      ValidFits();
      var Inst(op, aux, key) := code[p];
      match op {
        case ICloseCapture => ok := CloseLast(GetKind(aux), key);
        case IOpenCapture =>
          ok := PushCapture(Capture(s, key, GetKind(aux), 0));
          p := p + 1;
        case IFullCapture =>
          ok := PushCapture(Capture(s - GetOff(aux), key, GetKind(aux), GetOff(aux) + 1));
          p := p + 1;
      }
    }

    /** The instructions that work on the stack. */
    method TurnStack(code: Code, subject: Subject) returns (ok: bool)
      requires Valid() && Step(code, subject, St()).Running? && Fetchable(code, p) && UsesStack(code[p].op)
      modifies this, stack, capture
      ensures Valid() && (stack == old(stack) || fresh(stack)) && capture == old(capture)
      ensures ok <==> Fits(Step(code, subject, old(St())), limit)
      ensures ok ==> St() == Step(code, subject, old(St()))
    {
      hide Backtrack, CloseCapture, OpensAfter, GetKind, GetOff, SpanEnd, Step, Execute, ToStack, Exp2;
      TurnFacts(code, subject, St());
      ValidFits();
      ok := true;
      match code[p].op {
        case IJmp => p := Target(code, p);
        case IChoice =>
          ok := PushEntry(Choice(Target(code, p), s, captop));
          if ok {
            p := p + 2;
          }
        case ICall =>
          ok := PushEntry(Call(p + 2));
          if ok {
            p := Target(code, p);
          }
        case IRet => PopReturn();
        case ICommit => Commit(ICommit, Target(code, p));
        case IPartialCommit => Commit(IPartialCommit, Target(code, p));
        case IBackCommit => Commit(IBackCommit, Target(code, p));
        case IFailTwice =>
          PopEntry();
          Fail();
        case IFail => Fail();
      }
      if ok {
        ValidFits();
      }
    }

    /** Consume one character, or fail. */
    method TakeOne(ok: bool, size: nat)
      requires Valid() && (!ok ==> Backtrack(ToStack(stack[..top]), capture[..captop]).Running?)
      modifies this`p, this`s, this`top, this`captop
      ensures Valid()
      ensures St() == old(if ok then Running(p + size, s + 1, ToStack(stack[..top]), capture[..captop])
                          else Backtrack(ToStack(stack[..top]), capture[..captop]))
    {
      if ok {
        p, s := p + size, s + 1;
      } else {
        Fail();
      }
    }

    method PopEntry()
      requires Valid() && ToStack(stack[..top]).Push?
      modifies this`top
      ensures Valid() && top < old(top) && ToStack(stack[..top]) == old(ToStack(stack[..top]).rest)
      ensures stack[top] == old(ToStack(stack[..top]).top)
    {
      assert stack[..top][..top - 1] == stack[..top - 1];
      top := top - 1;
    }

    method PopReturn()
      requires Valid() && ToStack(stack[..top]).Push? && ToStack(stack[..top]).top.Call?
      modifies this`top, this`p
      ensures Valid()
      ensures var was := old(ToStack(stack[..top])); p == was.top.ret && ToStack(stack[..top]) == was.rest
    {
      PopEntry();
      p := stack[top].ret;
    }

    /** The three commits: drop the choice on top, move it here, or go back to where it was made. */
    method Commit(op: Opcode, dest: int)
      requires Valid() && op in {ICommit, IPartialCommit, IBackCommit}
      requires ToStack(stack[..top]).Push? && ToStack(stack[..top]).top.Choice?
      requires op == IBackCommit ==> ToStack(stack[..top]).top.caplevel <= captop
      modifies this`top, this`p, this`s, this`captop, stack
      ensures Valid() && p == dest
      ensures var was := old(ToStack(stack[..top]));
              && s == (if op == IBackCommit then was.top.s else old(s))
              && captop == (if op == IBackCommit then was.top.caplevel else old(captop))
              && ToStack(stack[..top]) == if op == IPartialCommit then Push(Choice(was.top.p, s, captop), was.rest)
                   else was.rest
    {
      assert stack[..top][..top - 1] == stack[..top - 1];
      p := dest;
      if op == IPartialCommit {
        stack[top - 1] := Choice(stack[top - 1].p, s, captop);
        assert stack[..top][..top - 1] == stack[..top - 1] == old(stack[..top - 1]);
      } else {
        top := top - 1;
        if op == IBackCommit {
          s, captop := stack[top].s, stack[top].caplevel;
        }
      }
    }

    method Span(subject: Subject, cs: Charset)
      requires s <= |subject|
      modifies this`p, this`s
      ensures p == old(p) + CHARSETINSTSIZE && s == SpanEnd(subject, old(s), cs)
    {
      while s < |subject| && subject[s] in cs
        invariant s <= |subject| && p == old(p)
        invariant SpanEnd(subject, s, cs) == SpanEnd(subject, old(s), cs)
        decreases |subject| - s
      {
        s := s + 1;
      }
      p := p + CHARSETINSTSIZE;
    }
  }

  /** A step that goes on executes an instruction, and does not get stuck at it. */
  lemma TurnFacts(code: Code, s: Subject, st: State)
    requires st.Running? && Step(code, s, st).Running?
    ensures st.s <= |s| && Fetchable(code, st.p) && Step(code, s, st) == Execute(code, s, st)
    ensures var Inst(op, aux, key) := code[st.p];
            Step(code, s, st) ==
            Effect(op, aux, key, SetAt(code, st.p), s, st.s, st.stack, st.caps, st.p + SizeI(op),
                   if HasOffset(op) then Target(code, st.p) else st.p)
  {
  }

  lemma {:induction false} HaltedRun(code: Code, s: Subject, a: State, end: State, trace: seq<State>)
    requires IsRun(code, s, a, end, trace) && !a.Running?
    ensures end == a
    decreases |trace|
  {
    if |trace| > 1 {
      RunTail(code, s, a, end, trace);
      HaltedRun(code, s, a, end, trace[1..]);
    }
  }

  /** Which steps end a match. */
  lemma StepKinds(code: Code, s: Subject, st: State)
    requires st.Running? && !Step(code, s, st).Stuck?
    ensures st.p == GIVEUP ==> Step(code, s, st) == NoMatch
    ensures st.p != GIVEUP ==>
              && Fetchable(code, st.p)
              && if code[st.p].op == IEnd then Step(code, s, st) == Matched(st.s, st.caps)
                   else Step(code, s, st).Running?
  {
    if st.p != GIVEUP {
      BacktrackGoesOn(st.stack, st.caps);
      if st.stack.Push? {
        BacktrackGoesOn(st.stack.rest, st.caps);
      }
    }
  }

  lemma {:induction false} BacktrackGoesOn(stack: Stack, caps: seq<Capture>)
    ensures Backtrack(stack, caps).Running? || Backtrack(stack, caps).Stuck?
  {
    match stack
    case Push(Call(_), rest) => BacktrackGoesOn(rest, caps);
    case _ =>
  }

  /** What is written behind the last capture. */
  function EndMark(): (c: Capture)
    ensures IsCloseCap(c)
  {
    Capture(0, 0, CCLOSE, 1)
  }

  /** 'match': run until the end of the pattern or until the bottom of the stack is failed to.
      The run is known to halt ('end'). */
  method Run(code: Code, subject: Subject, start: nat, limit: int, ghost end: State) returns (r: Answer)
    requires Reach(code, subject, Start(start), end) && (end.Matched? || end.NoMatch?)
    ensures r.Overflow? <==> !Within(code, subject, Start(start), end, limit)
    ensures !r.Overflow? ==> end == if r.Match? then Matched(r.pos, r.caps) else NoMatch
  {
    hide Step, Within, Depth, Fits, Exp2;
    var m := new Matcher(start, limit);
    ghost var trace: seq<State> :| IsRun(code, subject, Start(start), end, trace);
    WithinIs(code, subject, Start(start), end, trace, limit);
    while true
      invariant m.Valid() && m.limit == limit && fresh(m) && fresh(m.stack) && fresh(m.capture)
      invariant IsRun(code, subject, m.St(), end, trace)
      invariant FitsRun(trace, limit) <==> Within(code, subject, Start(start), end, limit)
      decreases |trace|
    {
      ghost var st := m.St();
      m.ValidFits();
      assert |trace| > 1;
      RunTail(code, subject, st, end, trace);
      if !Step(code, subject, st).Running? {
        HaltedRun(code, subject, Step(code, subject, st), end, trace[1..]);
        HaltFits(trace[1..], limit);
      }
      StepKinds(code, subject, st);
      if m.p == GIVEUP {
        return Fails;
      } else if code[m.p].op == IEnd {
        m.capture[m.captop] := EndMark();
        return Match(m.s, m.capture[..m.captop]);
      }
      var ok := m.Turn(code, subject);
      if !ok {
        return Overflow;
      }
      trace := trace[1..];
    }
  }

  lemma HaltFits(trace: seq<State>, limit: int)
    requires trace != [] && !trace[0].Running?
    ensures FitsRun(trace, limit)
  {
  }

  /** Compile a pattern and match it at 'start': the answer is the one of the pattern's meaning,
      and the capture list is the flattened form of its captures, unless the run of the code needs more
      room for pending choices or for captures than there is. Read again, up to the mark that ends it, the list
      gives the captures with their kinds, keys and extents, in order; each size fits in its byte. */
  method MatchPattern(t: Tree, subject: Subject, start: nat, limit: int) returns (code: Code, r: Answer)
    requires WellFormed(t) && start <= |subject|
    ensures var m := Peg(t, subject, start);
      && Reach(code, subject, Start(start), Verdict(m))
      && (r.Overflow? <==> !Within(code, subject, Start(start), Verdict(m), limit))
      && (!r.Overflow? ==> r == if m.Success? then Match(m.pos, Flatten(m.caps)) else Fails)
      && (r.Match? ==>
            && Read(r.caps + [EndMark()], 0) == Reading(ValuesOf(m.caps), |r.caps|)
            && InOrder(Read(r.caps + [EndMark()], 0).values, start, r.pos)
            && forall c :: c in r.caps ==> c.siz <= 255)
    ensures r.Match? && t.TCapture? ==>
      var vs := Read(r.caps + [EndMark()], 0).values;
        |vs| == 1 && vs[0].kind == t.kind && vs[0].key == t.key && vs[0].start == start && vs[0].end == r.pos
  {
    hide Equivalent, Settled, Laid, Reach, Within;
    code := Compile(t);
    ghost var end := Verdict(Peg(t, subject, start));
    CompiledCorrect(t, code, subject, start, end);
    r := Run(code, subject, start, limit, end);
    if r.Match? {
      CapturesCome(t, subject, start);
    }
  }

  /** What reading the captures of a match gives. */
  lemma CapturesCome(t: Tree, s: Subject, i: nat)
    requires WellFormed(t) && i <= |s| && Peg(t, s, i).Success?
    ensures var m := Peg(t, s, i);
      var r := Read(Flatten(m.caps) + [EndMark()], 0);
      && r == Reading(ValuesOf(m.caps), |Flatten(m.caps)|) && InOrder(r.values, i, m.pos)
      && (forall c :: c in Flatten(m.caps) ==> c.siz <= 255)
      && (t.TCapture? ==> |r.values| == 1 && r.values[0].kind == t.kind && r.values[0].key == t.key
                          && r.values[0].start == i && r.values[0].end == m.pos)
  {
    var m := Peg(t, s, i);
    PegIsProper(t, s, i);
    ReadsBack(m.caps, EndMark());
    SizesFit(m.caps);
    CapturesInOrder(t, s, i);
    hide Flatten, Read, InOrder;
  }
}
