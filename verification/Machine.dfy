/** The instructions of the LPeg parsing machine and one step of its interpreter. */
module Machine {
  import opened PegTree

  datatype Opcode =
    | IAny | IChar | ISet
    | ITestAny | ITestChar | ITestSet
    | ISpan | IBehind
    | IRet | IEnd
    | IChoice | IJmp | ICall
    | ICommit | IPartialCommit | IBackCommit
    | IFailTwice | IFail
    | IFullCapture | IOpenCapture | ICloseCapture

  /** One slot of the code array: an instruction word, a relative offset, or a part of the
      32-byte bitmap of a set, whose contents is given in its first slot. */
  datatype Slot =
    | Inst(op: Opcode, aux: nat, key: nat)
    | Offset(off: int)
    | Chars(cs: Charset)
    | Pad

  type Code = seq<Slot>

  /** Slots of a set instruction: the word and eight slots for the bitmap. */
  const CHARSETINSTSIZE := 9

  const CHARSETPAD: Code := [Pad, Pad, Pad, Pad, Pad, Pad, Pad]

  const MAXOFF := 15

  const UCHAR_MAX := 255

  /** The kind of a close mark in the capture list. */
  const CCLOSE := 0

  function CharsetSlots(cs: Charset): (r: Code)
    ensures |r| == CHARSETINSTSIZE - 1
  {
    [Chars(cs)] + CHARSETPAD
  }

  predicate HasOffset(op: Opcode) {
    op in {ITestSet, ITestChar, ITestAny, IChoice, IJmp, ICall, ICommit, IPartialCommit, IBackCommit}
  }

  function SizeI(op: Opcode): nat {
    match op
    case ISet => CHARSETINSTSIZE
    case ISpan => CHARSETINSTSIZE
    case ITestSet => CHARSETINSTSIZE + 1
    case _ => if HasOffset(op) then 2 else 1
  }

  /** Capture kind and offset share the 'aux' byte, four bits each. */
  function JoinKindOff(kind: nat, off: nat): nat {
    kind + 16 * off
  }

  function GetKind(aux: nat): nat {
    aux % 16
  }

  function GetOff(aux: nat): nat {
    aux / 16 % 16
  }

  lemma KindOffSplit(kind: nat, off: nat)
    requires kind < 16 && off < 16
    ensures GetKind(JoinKindOff(kind, off)) == kind && GetOff(JoinKindOff(kind, off)) == off
  {
  }

  /** An entry of the capture list; 'siz' is the length plus one, or 0 while open. */
  datatype Capture = Capture(s: nat, idx: nat, kind: nat, siz: nat)

  /** Backtrack entries and return addresses. The entry at the bottom of a run resumes at
      the IGiveup instruction, which lies outside the code. */
  datatype Entry =
    | Choice(p: int, s: nat, caplevel: nat)
    | Call(ret: int)

  datatype Stack = Bottom | Push(top: Entry, rest: Stack)

  const GIVEUP := -1

  datatype State =
    | Running(p: int, s: nat, stack: Stack, caps: seq<Capture>)
    | Matched(s: nat, caps: seq<Capture>)
    | NoMatch
    | Stuck

  /** The 'fail' label: drop pending calls, restore the topmost choice. */
  function Backtrack(stack: Stack, caps: seq<Capture>): State {
    match stack
    case Bottom => Stuck
    case Push(Call(_), rest) => Backtrack(rest, caps)
    case Push(Choice(p, s, caplevel), rest) =>
      if caplevel <= |caps| then Running(p, s, rest, caps[..caplevel]) else Stuck
  }

  predicate HeadIn(s: Subject, i: nat, cs: Charset) {
    i < |s| && s[i] in cs
  }

  function SpanEnd(s: Subject, i: nat, cs: Charset): (j: nat)
    requires i <= |s|
    ensures i <= j <= |s|
    decreases |s| - i
  {
    if HeadIn(s, i, cs) then SpanEnd(s, i + 1, cs) else i
  }

  /** Is the instruction at 'p' completely there? */
  predicate Fetchable(code: Code, p: int) {
    && 0 <= p < |code|
    && code[p].Inst?
    && p + SizeI(code[p].op) <= |code|
    && (HasOffset(code[p].op) ==> code[p + 1].Offset?)
    && (code[p].op in {ISet, ISpan} ==> code[p + 1].Chars?)
    && (code[p].op == ITestSet ==> code[p + 2].Chars?)
  }

  function Target(code: Code, p: int): int
    requires 0 <= p && p + 1 < |code| && code[p + 1].Offset?
  {
    p + code[p + 1].off
  }

  /** Is the last entry a capture opened beyond position 's'? */
  predicate OpensAfter(caps: seq<Capture>, s: nat)
    requires caps != []
  {
    caps[|caps| - 1].siz == 0 && s < caps[|caps| - 1].s
  }

  /** Close the capture that is open at the end of the list, in place when it is empty
      inside and short, else with a close mark. */
  function CloseCapture(caps: seq<Capture>, s: nat, kind: nat, key: nat): seq<Capture>
    requires caps != [] && !OpensAfter(caps, s)
  {
    var last := caps[|caps| - 1];
    if last.siz == 0 && s - last.s < UCHAR_MAX then
      caps[|caps| - 1 := last.(siz := s - last.s + 1)]
    else
      caps + [Capture(s, key, kind, 1)]
  }

  predicate IsCloseCap(c: Capture) {
    c.kind == CCLOSE
  }

  predicate IsFullCap(c: Capture) {
    c.siz != 0
  }

  /** Where a search backwards for the open entry that leaves 'n' others pending ends, looking
      at 'i - 1' first; -1 if there is none. */
  function PrevOpen(caps: seq<Capture>, i: nat, n: nat): int
    requires i <= |caps|
    decreases i
  {
    if i == 0 then -1
    else if IsCloseCap(caps[i - 1]) then PrevOpen(caps, i - 1, n + 1)
    else if IsFullCap(caps[i - 1]) then PrevOpen(caps, i - 1, n)
    else if n == 0 then i - 1
    else PrevOpen(caps, i - 1, n - 1)
  }

  /** Every choice was made when at most 'n' captures were there. */
  predicate LevelsWithin(stack: Stack, n: nat) {
    match stack
    case Bottom => true
    case Push(Call(_), rest) => LevelsWithin(rest, n)
    case Push(Choice(_, _, caplevel), rest) => caplevel <= n && LevelsWithin(rest, n)
  }

  /** There is a capture to close, and no choice on the stack would keep its entry: what is
      written into it does not survive backtracking. The machine is stuck otherwise. */
  predicate ClosesSafely(stack: Stack, caps: seq<Capture>) {
    var open := PrevOpen(caps, |caps|, 0);
    open >= 0 && LevelsWithin(stack, open)
  }

  /** One turn of the interpreter loop. */
  function Step(code: Code, s: Subject, st: State): State {
    if !st.Running? || st.s > |s| then
      if st.Running? then Stuck else st
    else if st.p == GIVEUP then
      if st.stack.Bottom? then NoMatch else Stuck
    else if !Fetchable(code, st.p) then
      Stuck
    else
      Execute(code, s, st)
  }

  function Execute(code: Code, s: Subject, st: State): State
    requires st.Running? && st.s <= |s| && Fetchable(code, st.p)
  {
    var Inst(op, aux, key) := code[st.p];
    Effect(op, aux, key, SetAt(code, st.p), s, st.s, st.stack, st.caps, st.p + SizeI(op),
           if HasOffset(op) then Target(code, st.p) else st.p)
  }

  /** The set an instruction carries. */
  function SetAt(code: Code, p: int): Charset
    requires Fetchable(code, p)
  {
    if code[p].op in {ISet, ISpan} then code[p + 1].cs
    else if code[p].op == ITestSet then code[p + 2].cs
    else {}
  }

  /** What an instruction does, given where the next instruction and its label are. */
  function Effect(op: Opcode, aux: nat, key: nat, cs: Charset, s: Subject, i: nat, stack: Stack, caps: seq<Capture>,
                  next: int, dest: int): State
    requires i <= |s|
  {
    var fail := Backtrack(stack, caps);
    match op
    case IEnd => if stack.Push? && stack.rest.Bottom? then Matched(i, caps) else Stuck
    case IRet => if stack.Push? && stack.top.Call? then Running(stack.top.ret, i, stack.rest, caps) else Stuck
    case IAny => if i < |s| then Running(next, i + 1, stack, caps) else fail
    case ITestAny => Running(if i < |s| then next else dest, i, stack, caps)
    case IChar => if i < |s| && s[i] == aux then Running(next, i + 1, stack, caps) else fail
    case ITestChar => Running(if i < |s| && s[i] == aux then next else dest, i, stack, caps)
    case ISet => if HeadIn(s, i, cs) then Running(next, i + 1, stack, caps) else fail
    case ITestSet => Running(if HeadIn(s, i, cs) then next else dest, i, stack, caps)
    case IBehind => if aux > i then fail else Running(next, i - aux, stack, caps)
    case ISpan => Running(next, SpanEnd(s, i, cs), stack, caps)
    case IJmp => Running(dest, i, stack, caps)
    case IChoice => Running(next, i, Push(Choice(dest, i, |caps|), stack), caps)
    case ICall => Running(dest, i, Push(Call(next), stack), caps)
    case ICommit => if stack.Push? && stack.top.Choice? then Running(dest, i, stack.rest, caps) else Stuck
    case IPartialCommit =>
      if stack.Push? && stack.top.Choice? then
        Running(dest, i, Push(Choice(stack.top.p, i, |caps|), stack.rest), caps)
      else Stuck
    case IBackCommit =>
      if stack.Push? && stack.top.Choice? && stack.top.caplevel <= |caps| then
        Running(dest, stack.top.s, stack.rest, caps[..stack.top.caplevel])
      else Stuck
    case IFailTwice => if stack.Push? then Backtrack(stack.rest, caps) else Stuck
    case IFail => fail
    case ICloseCapture =>
      if caps == [] || OpensAfter(caps, i) || !ClosesSafely(stack, caps) then Stuck
      else Running(next, i, stack, CloseCapture(caps, i, GetKind(aux), key))
    case IOpenCapture => Running(next, i, stack, caps + [Capture(i, key, GetKind(aux), 0)])
    case IFullCapture =>
      if GetOff(aux) > i then Stuck
      else Running(next, i, stack, caps + [Capture(i - GetOff(aux), key, GetKind(aux), GetOff(aux) + 1)])
  }

  /** Is state 'k + 1' of the trace one step after state 'k'? */
  ghost predicate StepAt(code: Code, s: Subject, trace: seq<State>, k: nat) {
    k + 1 < |trace| ==> trace[k + 1] == Step(code, s, trace[k])
  }

  ghost predicate IsRun(code: Code, s: Subject, a: State, b: State, trace: seq<State>) {
    && trace != []
    && trace[0] == a
    && trace[|trace| - 1] == b
    && forall k: nat :: StepAt(code, s, trace, k)
  }

  /** Does a run from 'a' come to 'b'? */
  ghost predicate Reach(code: Code, s: Subject, a: State, b: State) {
    exists trace :: IsRun(code, s, a, b, trace)
  }

  /** A match attempt starts with the giveup entry on the stack. */
  function Start(i: nat): State {
    Running(0, i, Push(Choice(GIVEUP, i, 0), Bottom), [])
  }

  lemma ReachRefl(code: Code, s: Subject, a: State)
    ensures Reach(code, s, a, a)
  {
    assert IsRun(code, s, a, a, [a]);
  }

  lemma ReachTrans(code: Code, s: Subject, a: State, b: State, c: State)
    requires Reach(code, s, a, b) && Reach(code, s, b, c)
    ensures Reach(code, s, a, c)
  {
    var first :| IsRun(code, s, a, b, first);
    var second :| IsRun(code, s, b, c, second);
    var trace := first + second[1..];
    forall k: nat
      ensures StepAt(code, s, trace, k)
    {
      assert StepAt(code, s, first, k);
      if k + 1 >= |first| {
        assert StepAt(code, s, second, k + 1 - |first|);
      }
    }
    assert IsRun(code, s, a, c, trace);
  }

  /** One step is a run. */
  lemma ReachStep(code: Code, s: Subject, a: State)
    ensures Reach(code, s, a, Step(code, s, a))
  {
    assert IsRun(code, s, a, Step(code, s, a), [a, Step(code, s, a)]);
  }

  /** A run that is more than its first state starts with a step. */
  lemma RunTail(code: Code, s: Subject, a: State, b: State, trace: seq<State>)
    requires IsRun(code, s, a, b, trace) && |trace| > 1
    ensures IsRun(code, s, Step(code, s, a), b, trace[1..])
  {
    assert StepAt(code, s, trace, 0);
    forall k: nat
      ensures StepAt(code, s, trace[1..], k)
    {
      assert StepAt(code, s, trace, k + 1);
    }
  }

  /** The machine is deterministic: of two runs from one state to a halt, neither ends
      otherwise than the other. */
  lemma {:induction false} RunUnique(code: Code, s: Subject, a: State, b: State, c: State, first: seq<State>,
                                     second: seq<State>)
    requires IsRun(code, s, a, b, first) && IsRun(code, s, a, c, second) && !b.Running? && !c.Running?
    ensures b == c
    decreases |first| + |second|
  {
    if |first| > 1 && |second| > 1 {
      RunTail(code, s, a, b, first);
      RunTail(code, s, a, c, second);
      RunUnique(code, s, Step(code, s, a), b, c, first[1..], second[1..]);
    } else if |first| > 1 {
      RunTail(code, s, a, b, first);
      RunUnique(code, s, a, b, c, first[1..], second);
    } else if |second| > 1 {
      RunTail(code, s, a, c, second);
      RunUnique(code, s, a, b, c, first, second[1..]);
    }
  }

  lemma ReachUnique(code: Code, s: Subject, a: State, b: State, c: State)
    requires Reach(code, s, a, b) && Reach(code, s, a, c) && !b.Running? && !c.Running?
    ensures b == c
  {
    var first :| IsRun(code, s, a, b, first);
    var second :| IsRun(code, s, a, c, second);
    RunUnique(code, s, a, b, c, first, second);
  }
}
