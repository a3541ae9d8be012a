/** Rewriting jumps keeps what the machine computes. */
module Peephole {
  import opened PegTree
  import opened Machine

  /** Where instructions start in a code array, and a rank that falls along every IJmp: the
      code has no cycle of jumps. */
  datatype Layout = Layout(starts: set<int>, rank: seq<nat>)

  /** Does the machine go on behind the instruction? */
  predicate UsesNext(op: Opcode) {
    op !in {IJmp, ICommit, IPartialCommit, IBackCommit, IRet, IEnd, IFail, IFailTwice}
  }

  ghost predicate PlacedAt(code: Code, l: Layout, p: int)
    requires |l.rank| == |code|
  {
    && Fetchable(code, p)
    && (p + SizeI(code[p].op) in l.starts || (code[p].op == IEnd && p + SizeI(code[p].op) == |code|))
    && (HasOffset(code[p].op) ==>
          && Target(code, p) in l.starts
          && 0 <= Target(code, p) < |code|
          && (code[p].op == IJmp ==> l.rank[Target(code, p)] < l.rank[p]))
  }

  ghost predicate Laid(code: Code, l: Layout) {
    |l.rank| == |code| && forall p {:trigger PlacedAt(code, l, p)} :: p in l.starts ==> PlacedAt(code, l, p)
  }

  ghost predicate Before(code: Code, p: int, q: int) {
    p < q && Fetchable(code, p) ==> p + SizeI(code[p].op) <= q
  }

  /** No instruction starts inside another one. */
  ghost predicate Spaced(code: Code, starts: set<int>) {
    forall p, q {:trigger Before(code, p, q)} :: p in starts && q in starts ==> Before(code, p, q)
  }

  /** 'finaltarget': where a sequence of jumps ends. */
  ghost function Final(code: Code, l: Layout, p: int): (q: int)
    requires Laid(code, l) && p in l.starts
    ensures q in l.starts && 0 <= q < |code| && PlacedAt(code, l, q) && code[q].op != IJmp
    decreases if 0 <= p < |l.rank| then l.rank[p] else 0
  {
    assert PlacedAt(code, l, p);
    if code[p].op == IJmp then Final(code, l, Target(code, p)) else p
  }

  ghost predicate ValidPc(l: Layout, p: int) {
    p == GIVEUP || p in l.starts
  }

  ghost predicate ValidStack(l: Layout, stack: Stack) {
    match stack
    case Bottom => true
    case Push(Choice(p, _, _), rest) => ValidPc(l, p) && ValidStack(l, rest)
    case Push(Call(ret), rest) => ValidPc(l, ret) && ValidStack(l, rest)
  }

  ghost predicate ValidState(l: Layout, st: State) {
    st.Running? ==> ValidPc(l, st.p) && ValidStack(l, st.stack)
  }

  // ----- states up to jumps -----

  ghost function NormPc(code: Code, l: Layout, p: int): int
    requires Laid(code, l)
  {
    if p in l.starts then Final(code, l, p) else p
  }

  ghost function NormStack(code: Code, l: Layout, stack: Stack): Stack
    requires Laid(code, l)
  {
    match stack
    case Bottom => Bottom
    case Push(Choice(p, s, caplevel), rest) => Push(Choice(NormPc(code, l, p), s, caplevel), NormStack(code, l, rest))
    case Push(Call(ret), rest) => Push(Call(NormPc(code, l, ret)), NormStack(code, l, rest))
  }

  ghost function Norm(code: Code, l: Layout, st: State): State
    requires Laid(code, l)
  {
    match st
    case Running(p, s, stack, caps) => Running(NormPc(code, l, p), s, NormStack(code, l, stack), caps)
    case _ => st
  }

  /** Equal up to jumps. */
  ghost predicate Alike(code: Code, l: Layout, a: State, b: State)
    requires Laid(code, l)
  {
    ValidState(l, a) && ValidState(l, b) && Norm(code, l, a) == Norm(code, l, b)
  }

  lemma {:induction false} BacktrackAlike(code: Code, l: Layout, a: Stack, b: Stack, caps: seq<Capture>)
    requires Laid(code, l) && ValidStack(l, a) && ValidStack(l, b) && NormStack(code, l, a) == NormStack(code, l, b)
    ensures Alike(code, l, Backtrack(a, caps), Backtrack(b, caps))
  {
    match a
    case Push(Call(_), rest) => BacktrackAlike(code, l, rest, b.rest, caps);
    case _ =>
  }

  lemma {:induction false} LevelsAlike(code: Code, l: Layout, a: Stack, b: Stack, n: nat)
    requires Laid(code, l) && NormStack(code, l, a) == NormStack(code, l, b)
    ensures LevelsWithin(a, n) <==> LevelsWithin(b, n)
  {
    if a.Push? && b.Push? {
      LevelsAlike(code, l, a.rest, b.rest, n);
    }
  }

  lemma ClosesAlike(code: Code, l: Layout, a: Stack, b: Stack, caps: seq<Capture>)
    requires Laid(code, l) && NormStack(code, l, a) == NormStack(code, l, b)
    ensures ClosesSafely(a, caps) <==> ClosesSafely(b, caps)
  {
    if PrevOpen(caps, |caps|, 0) >= 0 {
      LevelsAlike(code, l, a, b, PrevOpen(caps, |caps|, 0));
    }
  }

  /** The effect of an instruction does not depend on jumps taken earlier or later. */
  lemma EffectAlike(code: Code, l: Layout, op: Opcode, aux: nat, key: nat, cs: Charset, s: Subject, i: nat, a: Stack,
                    b: Stack, caps: seq<Capture>, nextA: int, nextB: int, destA: int, destB: int)
    requires Laid(code, l) && ValidStack(l, a) && ValidStack(l, b) && NormStack(code, l, a) == NormStack(code, l, b)
    requires i <= |s| && op != IJmp
    requires UsesNext(op) ==> nextA == nextB && nextA in l.starts
    requires HasOffset(op) ==>
               destA in l.starts && destB in l.starts && NormPc(code, l, destA) == NormPc(code, l, destB)
    ensures Alike(code, l, Effect(op, aux, key, cs, s, i, a, caps, nextA, destA),
                  Effect(op, aux, key, cs, s, i, b, caps, nextB, destB))
  {
    hide Laid, Backtrack, CloseCapture, SpanEnd, GetKind, GetOff, OpensAfter, HeadIn, NormPc, Final, ClosesSafely;
    BacktrackAlike(code, l, a, b, caps);
    ClosesAlike(code, l, a, b, caps);
    if a.Push? {
      BacktrackAlike(code, l, a.rest, b.rest, caps);
    }
    match op
    case IChoice =>
    case ICall =>
    case IRet =>
    case ICommit =>
    case IPartialCommit =>
    case IBackCommit =>
    case IFailTwice =>
    case _ =>
  }

  // ----- what a rewriting may do -----

  /** The instruction at 'q' of 'code2' does what the one at 'p' of 'code' does. */
  ghost predicate SameEffect(code: Code, l: Layout, code2: Code, q: int, p: int)
    requires Laid(code, l) && p in l.starts && Fetchable(code, p)
  {
    && Fetchable(code2, q)
    && code2[q] == code[p]
    && SetAt(code2, q) == SetAt(code, p)
    && (UsesNext(code[p].op) ==> q == p)
    && (HasOffset(code[p].op) ==>
          && Target(code2, q) in l.starts
          && NormPc(code, l, Target(code2, q)) == NormPc(code, l, Target(code, p)))
  }

  /** The instruction at 'q' of 'code2' is a jump that gets closer to the same end. */
  ghost predicate StillJumps(code: Code, l: Layout, code2: Code, q: int)
    requires Laid(code, l) && q in l.starts
  {
    && Fetchable(code2, q)
    && code2[q].op == IJmp
    && Target(code2, q) in l.starts
    && 0 <= Target(code2, q) < |l.rank|
    && 0 <= q < |l.rank|
    && l.rank[Target(code2, q)] < l.rank[q]
    && Final(code, l, Target(code2, q)) == Final(code, l, q)
  }

  ghost predicate Rewritten(code: Code, l: Layout, code2: Code)
    requires Laid(code, l)
  {
    forall q {:trigger StillJumps(code, l, code2, q)} :: q in l.starts ==>
      StillJumps(code, l, code2, q) || SameEffect(code, l, code2, q, Final(code, l, q))
  }

  lemma JmpStep(code: Code, s: Subject, st: State)
    requires st.Running? && st.s <= |s| && Fetchable(code, st.p) && code[st.p].op == IJmp
    ensures Step(code, s, st) == st.(p := Target(code, st.p))
  {
  }

  /** One step at two instructions with the same effect. */
  lemma SameStep(code: Code, l: Layout, code2: Code, s: Subject, q: int, p: int, i: nat, a: Stack, b: Stack,
                 caps: seq<Capture>)
    requires Laid(code, l) && p in l.starts && PlacedAt(code, l, p) && code[p].op != IJmp && q in l.starts
    requires SameEffect(code, l, code2, q, p) && i <= |s|
    requires ValidStack(l, a) && ValidStack(l, b) && NormStack(code, l, a) == NormStack(code, l, b)
    ensures Alike(code, l, Step(code, s, Running(p, i, a, caps)), Step(code2, s, Running(q, i, b, caps)))
  {
    hide Laid, Final, Effect, NormStack, ValidStack, Norm, NormPc;
    var Inst(op, aux, key) := code[p];
    assert p != GIVEUP && q != GIVEUP;
    EffectAlike(code, l, op, aux, key, SetAt(code, p), s, i, a, b, caps, p + SizeI(op), q + SizeI(op),
                if HasOffset(op) then Target(code, p) else p, if HasOffset(op) then Target(code2, q) else q);
  }

  /** The step the original machine takes after its jumps. */
  ghost function MacroStep(code: Code, l: Layout, s: Subject, st: State): State
    requires Laid(code, l)
  {
    if st.Running? && st.s <= |s| && st.p in l.starts then Step(code, s, st.(p := Final(code, l, st.p)))
    else Step(code, s, st)
  }

  lemma {:induction false} MacroReach(code: Code, l: Layout, s: Subject, st: State)
    requires Laid(code, l) && ValidState(l, st)
    ensures Reach(code, s, st, MacroStep(code, l, s, st))
    decreases if st.Running? && 0 <= st.p < |l.rank| then l.rank[st.p] else 0
  {
    hide Reach, Effect;
    ReachStep(code, s, st);
    if st.Running? && st.s <= |s| && st.p in l.starts {
      assert PlacedAt(code, l, st.p);
      if code[st.p].op == IJmp {
        var next := st.(p := Target(code, st.p));
        JmpStep(code, s, st);
        MacroReach(code, l, s, next);
        ReachTrans(code, s, st, next, MacroStep(code, l, s, next));
      }
    }
  }

  /** The rewritten machine follows a step of the original one. */
  lemma {:induction false} Follows(code: Code, l: Layout, code2: Code, s: Subject, a: State, b: State)
        returns (c: State)
    requires Laid(code, l) && Rewritten(code, l, code2) && Alike(code, l, a, b)
    ensures Reach(code2, s, b, c) && Alike(code, l, MacroStep(code, l, s, a), c)
    decreases if b.Running? && 0 <= b.p < |l.rank| then l.rank[b.p] else 0
  {
    hide Reach, Effect;
    ReachStep(code2, s, b);
    if a.Running? && a.s <= |s| && a.p in l.starts {
      var q := b.p;
      if StillJumps(code, l, code2, q) {
        var next := b.(p := Target(code2, q));
        JmpStep(code2, s, b);
        c := Follows(code, l, code2, s, a, next);
        ReachTrans(code2, s, b, next, c);
      } else {
        c := Step(code2, s, b);
        SameStep(code, l, code2, s, q, Final(code, l, q), a.s, a.stack, b.stack, a.caps);
      }
    } else {
      c := Step(code2, s, b);
    }
  }

  /** A run of the original machine to a halt has a counterpart. */
  lemma {:induction false} Forward(code: Code, l: Layout, code2: Code, s: Subject, a: State, b: State, end: State,
                                   trace: seq<State>)
    requires Laid(code, l) && Rewritten(code, l, code2) && Alike(code, l, a, b)
    requires IsRun(code, s, a, end, trace) && !end.Running?
    ensures Reach(code2, s, b, end)
    decreases |trace|
  {
    hide Reach, Effect;
    if |trace| == 1 {
      ReachRefl(code2, s, b);
    } else {
      RunTail(code, s, a, end, trace);
      if a.Running? && a.s <= |s| && a.p in l.starts && PlacedAt(code, l, a.p) && code[a.p].op == IJmp {
        JmpStep(code, s, a);
        Forward(code, l, code2, s, Step(code, s, a), b, end, trace[1..]);
      } else {
        assert a.Running? && a.s <= |s| && a.p in l.starts ==> PlacedAt(code, l, a.p);
        assert Step(code, s, a) == MacroStep(code, l, s, a);
        var c := Follows(code, l, code2, s, a, b);
        Forward(code, l, code2, s, Step(code, s, a), c, end, trace[1..]);
        ReachTrans(code2, s, b, c, end);
      }
    }
  }

  /** A run of the rewritten machine to a halt comes from one of the original machine. */
  lemma {:induction false} Backward(code: Code, l: Layout, code2: Code, s: Subject, a: State, b: State, end: State,
                                    trace: seq<State>)
    requires Laid(code, l) && Rewritten(code, l, code2) && Alike(code, l, a, b)
    requires IsRun(code2, s, b, end, trace) && !end.Running?
    ensures Reach(code, s, a, end)
    decreases |trace|
  {
    hide Reach, Effect;
    if |trace| == 1 {
      ReachRefl(code, s, a);
    } else {
      RunTail(code2, s, b, end, trace);
      if b.Running? && b.s <= |s| && b.p in l.starts && StillJumps(code, l, code2, b.p) {
        JmpStep(code2, s, b);
        Backward(code, l, code2, s, a, Step(code2, s, b), end, trace[1..]);
      } else {
        var c := MacroStep(code, l, s, a);
        MacroReach(code, l, s, a);
        if a.Running? && a.s <= |s| && a.p in l.starts {
          SameStep(code, l, code2, s, b.p, Final(code, l, b.p), a.s, a.stack, b.stack, a.caps);
        }
        Backward(code, l, code2, s, c, Step(code2, s, b), end, trace[1..]);
        ReachTrans(code, s, a, c, end);
      }
    }
  }

  /** Both machines halt on the same match attempts, in the same states. */
  ghost predicate Equivalent(code: Code, code2: Code) {
    forall s: Subject, i: nat, end: State ::
      !end.Running? ==> (Reach(code, s, Start(i), end) <==> Reach(code2, s, Start(i), end))
  }

  lemma RewritingIsSafe(code: Code, l: Layout, code2: Code)
    requires Laid(code, l) && Rewritten(code, l, code2) && 0 in l.starts
    ensures Equivalent(code, code2)
  {
    forall s: Subject, i: nat, end: State | !end.Running?
      ensures Reach(code, s, Start(i), end) <==> Reach(code2, s, Start(i), end)
    {
      assert Alike(code, l, Start(i), Start(i));
      if Reach(code, s, Start(i), end) {
        var trace :| IsRun(code, s, Start(i), end, trace);
        Forward(code, l, code2, s, Start(i), Start(i), end, trace);
      }
      if Reach(code2, s, Start(i), end) {
        var trace :| IsRun(code2, s, Start(i), end, trace);
        Backward(code, l, code2, s, Start(i), Start(i), end, trace);
      }
    }
  }

  // ----- the rewritings of the pass -----

  /** 'code2' differs from 'code' at most in the two slots of the instruction at 'i'. */
  predicate ChangedAt(code: Code, code2: Code, i: int) {
    && 0 <= i && i + 1 < |code| == |code2|
    && code[i].Inst?
    && code[i + 1].Offset?
    && forall k :: 0 <= k < |code| && k != i && k != i + 1 ==> code2[k] == code[k]
  }

  lemma Untouched(code: Code, code2: Code, i: int, p: int)
    requires ChangedAt(code, code2, i) && Fetchable(code, p) && p != i
    ensures Fetchable(code2, p) && code2[p] == code[p] && SetAt(code2, p) == SetAt(code, p)
    ensures HasOffset(code[p].op) ==> Target(code2, p) == Target(code, p)
  {
  }

  /** A change of one instruction is safe if that instruction is. */
  lemma OneChangeIsSafe(code: Code, l: Layout, code2: Code, i: int)
    requires Laid(code, l) && i in l.starts && ChangedAt(code, code2, i)
    requires StillJumps(code, l, code2, i) || SameEffect(code, l, code2, i, Final(code, l, i))
    ensures Rewritten(code, l, code2)
  {
    forall q | q in l.starts
      ensures StillJumps(code, l, code2, q) || SameEffect(code, l, code2, q, Final(code, l, q))
    {
      assert PlacedAt(code, l, q);
      if q != i {
        Untouched(code, code2, i, q);
      }
    }
  }

  lemma StillLaid(code: Code, l: Layout, code2: Code, i: int)
    requires Laid(code, l) && i in l.starts && ChangedAt(code, code2, i)
    requires PlacedAt(code2, l, i)
    ensures Laid(code2, l)
  {
    forall p | p in l.starts
      ensures PlacedAt(code2, l, p)
    {
      assert PlacedAt(code, l, p);
      if p != i {
        Untouched(code, code2, i, p);
      }
    }
  }

  function Relabel(code: Code, i: int, t: int): (r: Code)
    requires 0 <= i && i + 1 < |code|
    ensures |r| == |code|
  {
    code[i + 1 := Offset(t - i)]
  }

  lemma {:induction false} RankFalls(code: Code, l: Layout, p: int)
    requires Laid(code, l) && p in l.starts && PlacedAt(code, l, p)
    ensures l.rank[Final(code, l, p)] <= l.rank[p]
    ensures code[p].op == IJmp ==> l.rank[Final(code, l, p)] < l.rank[p]
    decreases l.rank[p]
  {
    if code[p].op == IJmp {
      assert PlacedAt(code, l, Target(code, p));
      RankFalls(code, l, Target(code, p));
    }
  }

  /** A label may be moved to the end of the jumps it leads to. */
  lemma RelabelIsSafe(code: Code, l: Layout, i: int, t: int)
    requires Laid(code, l) && i in l.starts && PlacedAt(code, l, i) && HasOffset(code[i].op)
    requires t == Final(code, l, Target(code, i))
    ensures Laid(Relabel(code, i, t), l) && Rewritten(code, l, Relabel(code, i, t))
  {
    var code2 := Relabel(code, i, t);
    assert PlacedAt(code, l, Target(code, i));
    RankFalls(code, l, Target(code, i));
    assert PlacedAt(code2, l, i);
    StillLaid(code, l, code2, i);
    OneChangeIsSafe(code, l, code2, i);
  }

  /** A jump to a commit may become that commit. */
  lemma CopyCommitIsSafe(code: Code, l: Layout, i: int, ft: int, t: int)
    requires Laid(code, l) && i in l.starts && PlacedAt(code, l, i) && code[i].op == IJmp
    requires ft == Final(code, l, i) && code[ft].op in {ICommit, IPartialCommit, IBackCommit}
    requires t == Final(code, l, Target(code, ft))
    ensures var code2 := Relabel(code[i := code[ft]], i, t);
            Laid(code2, l) && Rewritten(code, l, code2)
  {
    var code2 := Relabel(code[i := code[ft]], i, t);
    assert PlacedAt(code2, l, i);
    StillLaid(code, l, code2, i);
    OneChangeIsSafe(code, l, code2, i);
  }

  /** A jump to an instruction that goes nowhere may become that instruction; the slot of its
      offset becomes an instruction of its own, which nothing leads to. */
  lemma CopyStopIsSafe(code: Code, l: Layout, i: int, ft: int)
    requires Laid(code, l) && i in l.starts && PlacedAt(code, l, i) && code[i].op == IJmp
    requires ft == Final(code, l, i) && code[ft].op in {IRet, IFail, IFailTwice, IEnd}
    ensures var code2 := code[i := code[ft]][i + 1 := Inst(IAny, 0, 0)];
            Laid(code2, l.(starts := l.starts + {i + 1})) && Rewritten(code, l, code2)
  {
    var code2 := code[i := code[ft]][i + 1 := Inst(IAny, 0, 0)];
    var l2 := l.(starts := l.starts + {i + 1});
    forall p | p in l2.starts
      ensures PlacedAt(code2, l2, p)
    {
      if p != i && p != i + 1 {
        assert PlacedAt(code, l, p);
        Untouched(code, code2, i, p);
      }
    }
    OneChangeIsSafe(code, l, code2, i);
  }

  /** Nothing is left to improve at 'p': its label is no jump, and a jump leads neither to
      a stop nor to a commit. */
  predicate Settled(code: Code, p: int) {
    && Fetchable(code, p)
    && (HasOffset(code[p].op) ==>
          && Fetchable(code, Target(code, p))
          && code[Target(code, p)].op != IJmp
          && (code[p].op == IJmp ==> UsesNext(code[Target(code, p)].op)))
  }

  /** What was settled stays so while another instruction is rewritten. */
  lemma StaysSettled(code: Code, l: Layout, code2: Code, l2: Layout, i: int, p: int)
    requires Laid(code, l) && Laid(code2, l2) && l.starts <= l2.starts && i in l.starts && ChangedAt(code, code2, i)
    requires code[i].op != IJmp ==> code2[i] == code[i]
    requires p in l.starts && p != i && Settled(code, p)
    ensures Settled(code2, p)
  {
    assert PlacedAt(code, l, p) && PlacedAt(code2, l2, p);
    Untouched(code, code2, i, p);
    if HasOffset(code[p].op) {
      assert PlacedAt(code, l, Target(code, p)) && PlacedAt(code2, l2, Target(code, p));
      if Target(code, p) != i {
        Untouched(code, code2, i, Target(code, p));
      }
    }
  }

  /** A relabelled instruction is settled. */
  lemma RelabelSettles(code: Code, l: Layout, i: int, t: int)
    requires Laid(code, l) && i in l.starts && PlacedAt(code, l, i) && HasOffset(code[i].op)
    requires t == Final(code, l, Target(code, i)) && (code[i].op == IJmp ==> UsesNext(code[t].op))
    ensures Settled(Relabel(code, i, t), i)
  {
    var code2 := Relabel(code, i, t);
    assert PlacedAt(code, l, t);
    if t != i {
      Untouched(code, code2, i, t);
    }
  }

  lemma KeepsSettled(code: Code, l: Layout, code2: Code, l2: Layout, i: int)
    requires Laid(code, l) && Laid(code2, l2) && l.starts <= l2.starts && i in l.starts && ChangedAt(code, code2, i)
    requires code[i].op != IJmp ==> code2[i] == code[i]
    ensures forall p :: p in l.starts && p != i && Settled(code, p) ==> Settled(code2, p)
  {
    forall p | p in l.starts && p != i && Settled(code, p)
      ensures Settled(code2, p)
    {
      StaysSettled(code, l, code2, l2, i, p);
    }
  }

  // ----- one turn of the pass -----

  /** What rewriting the instruction at 'i' must keep. */
  ghost predicate Improved(code: Code, l: Layout, code2: Code, l2: Layout, i: int) {
    && |code2| == |code|
    && i in l.starts
    && Laid(code2, l2)
    && Spaced(code2, l2.starts)
    && l.starts <= l2.starts <= l.starts + {i + 1}
    && (i + 1 in l2.starts - l.starts ==> 0 <= i + 1 < |code2| && code2[i + 1] == Inst(IAny, 0, 0))
    && Equivalent(code, code2)
    && forall p :: p in l.starts && p != i && Settled(code, p) ==> Settled(code2, p)
  }

  lemma ImprovedTwice(a: Code, l: Layout, b: Code, c: Code, i: int)
    requires Improved(a, l, b, l, i) && Improved(b, l, c, l, i)
    ensures Improved(a, l, c, l, i)
  {
  }

  lemma NothingToImprove(code: Code, l: Layout, i: int)
    requires Laid(code, l) && Spaced(code, l.starts) && i in l.starts
    ensures Improved(code, l, code, l, i)
  {
  }

  lemma RelabelImproves(code: Code, l: Layout, i: int, t: int)
    requires Laid(code, l) && Spaced(code, l.starts) && 0 in l.starts && i in l.starts
    requires PlacedAt(code, l, i) && HasOffset(code[i].op) && t == Final(code, l, Target(code, i))
    ensures Improved(code, l, Relabel(code, i, t), l, i)
    ensures (code[i].op == IJmp ==> UsesNext(code[t].op)) ==> Settled(Relabel(code, i, t), i)
  {
    hide Final, Equivalent, Settled, Rewritten;
    var code2 := Relabel(code, i, t);
    RelabelIsSafe(code, l, i, t);
    RewritingIsSafe(code, l, code2);
    if code[i].op == IJmp ==> UsesNext(code[t].op) {
      RelabelSettles(code, l, i, t);
    }
    KeepsSettled(code, l, code2, l, i);
    KeepsSpaced(code, l, code2, i);
  }

  lemma CopyCommitImproves(code: Code, l: Layout, i: int, ft: int, t: int)
    requires Laid(code, l) && Spaced(code, l.starts) && 0 in l.starts && i in l.starts
    requires PlacedAt(code, l, i) && code[i].op == IJmp
    requires ft == Final(code, l, i) && code[ft].op in {ICommit, IPartialCommit, IBackCommit}
    requires t == Final(code, l, Target(code, ft))
    ensures Improved(code, l, Relabel(code[i := code[ft]], i, t), l, i)
  {
    hide Final, Equivalent, Settled, Rewritten;
    var code2 := Relabel(code[i := code[ft]], i, t);
    CopyCommitIsSafe(code, l, i, ft, t);
    RewritingIsSafe(code, l, code2);
    KeepsSettled(code, l, code2, l, i);
    KeepsSpaced(code, l, code2, i);
  }

  lemma CopyStopImproves(code: Code, l: Layout, i: int, ft: int)
    requires Laid(code, l) && Spaced(code, l.starts) && 0 in l.starts && i in l.starts
    requires PlacedAt(code, l, i) && code[i].op == IJmp
    requires ft == Final(code, l, i) && code[ft].op in {IRet, IFail, IFailTwice, IEnd}
    ensures var code2 := code[i := code[ft]][i + 1 := Inst(IAny, 0, 0)];
            Improved(code, l, code2, l.(starts := l.starts + {i + 1}), i) && Settled(code2, i)
  {
    hide Final, Equivalent, Rewritten;
    var code2 := code[i := code[ft]][i + 1 := Inst(IAny, 0, 0)];
    var l2 := l.(starts := l.starts + {i + 1});
    CopyStopIsSafe(code, l, i, ft);
    RewritingIsSafe(code, l, code2);
    KeepsSettled(code, l, code2, l2, i);
    forall p, q | p in l2.starts && q in l2.starts
      ensures Before(code2, p, q)
    {
      if p in l.starts {
        assert PlacedAt(code, l, p);
        assert Before(code, p, if q in l.starts then q else i);
        if p != i {
          Untouched(code, code2, i, p);
        }
      } else {
        assert q in l.starts ==> Before(code, i, q) && PlacedAt(code, l, q);
      }
    }
  }

  lemma KeepsSpaced(code: Code, l: Layout, code2: Code, i: int)
    requires Laid(code, l) && Spaced(code, l.starts) && i in l.starts && ChangedAt(code, code2, i)
    requires code2[i].Inst? && SizeI(code2[i].op) == SizeI(code[i].op) && PlacedAt(code, l, i)
    ensures Spaced(code2, l.starts)
  {
    forall p, q | p in l.starts && q in l.starts
      ensures Before(code2, p, q)
    {
      assert Before(code, p, q);
      assert PlacedAt(code, l, p);
      if p != i {
        Untouched(code, code2, i, p);
      }
    }
  }
}
