/** The generated code does what the pattern means. */
module Simulation {
  import opened PegTree
  import opened Analyses
  import opened Machine
  import opened CodeGen
  import opened CaptureList
  import opened CaptureSearch
  import opened Fragments

  ghost predicate Ready(code: Code, s: Subject, pc: int, t: Tree, opt: bool, guard: Guard, fl: Charset, i: nat,
                        stack: Stack, caps: seq<Capture>)
  {
    && WellFormed(t)
    && i <= |s|
    && At(code, pc, Gen(t, opt, guard, fl))
    && (guard.TestFor? ==> HeadIn(s, i, guard.cs))
    && LevelOk(stack, |caps|)
    && (opt ==> ChoiceOnTop(stack))
  }

  /** The code of 't', wherever it is placed and whatever is on the stack, has the outcome
      that the meaning of 't' asks for. */
  lemma {:induction false} Simulate(code: Code, s: Subject, pc: int, t: Tree, opt: bool, guard: Guard, fl: Charset,
                                    i: nat, stack: Stack, caps: seq<Capture>)
    requires Ready(code, s, pc, t, opt, guard, fl, i, stack, caps)
    ensures Outcome(code, s, Running(pc, i, stack, caps), Peg(t, s, i), pc + |Gen(t, opt, guard, fl)|, opt, fl,
                    stack, caps)
    decreases t, 1
  {
    match t
    case TSeq(_, _) => SimSeq(code, s, pc, t, opt, guard, fl, i, stack, caps);
    case TChoice(_, _) => SimChoice(code, s, pc, t, opt, guard, fl, i, stack, caps);
    case TRep(_) => SimRep(code, s, pc, t, opt, guard, fl, i, stack, caps);
    case _ => SimOther(code, s, pc, t, opt, guard, fl, i, stack, caps);
  }

  /** The constructions that make no use of an enclosing choice. */
  lemma {:induction false} SimOther(code: Code, s: Subject, pc: int, t: Tree, opt: bool, guard: Guard, fl: Charset,
                                    i: nat, stack: Stack, caps: seq<Capture>)
    requires !t.TSeq? && !t.TChoice? && !t.TRep?
    requires Ready(code, s, pc, t, opt, guard, fl, i, stack, caps)
    ensures Outcome(code, s, Running(pc, i, stack, caps), Peg(t, s, i), pc + |Gen(t, opt, guard, fl)|, opt, fl,
                    stack, caps)
    decreases t, 0
  {
    hide Reach, At, First, FirstEmpty, HeadFail, CheckAux, FixedLenX, HasCaptures, Backtrack, TestCode, Classify,
      CharsetSlots, NotCode, AndCode, EnclosedCode, BehindCode;
    var from := Running(pc, i, stack, caps);
    var g := Gen(t, opt, guard, fl);
    assert Gen(t, false, guard, fl) == g;
    if IsCharset(t) {
      CharRuns(code, s, pc, ToCharset(t), guard, g, i, stack, caps);
      FlattenNone(caps);
    } else {
      match t {
        case TTrue =>
          ReachRefl(code, s, from);
          FlattenNone(caps);
        case TFalse => FailReach(code, s, pc, i, stack, caps);
        case TNot(body) => SimNot(code, s, pc, body, Gen(body, false, NoTest, FULLSET), fl, i, stack, caps);
        case TAnd(body) =>
          var gb := Gen(body, false, guard, FULLSET);
          if BehindSuffices(body) {
            SimAndBehind(code, s, pc, body, guard, gb, fl, i, stack, caps);
          } else {
            SimAnd(code, s, pc, body, guard, gb, fl, i, stack, caps);
          }
        case TBehind(n, body) =>
          SimBehind(code, s, pc, n, body, Gen(body, false, NoTest, FULLSET), fl, i, stack, caps);
        case TCapture(kind, key, body) =>
          var gb := Gen(body, false, guard, fl);
          if FullCaptureSuffices(body) {
            SimFullCapture(code, s, pc, kind, key, body, guard, gb, fl, i, stack, caps);
          } else {
            SimCapture(code, s, pc, kind, key, body, guard, gb, fl, i, stack, caps);
          }
      }
    }
    PlainIsOutcome(code, s, from, Peg(t, s, i), pc + |g|, opt, fl, stack, caps);
  }

  lemma {:induction false} SimSeq(code: Code, s: Subject, pc: int, t: Tree, opt: bool, guard: Guard, fl: Charset,
                                  i: nat, stack: Stack, caps: seq<Capture>)
    requires t.TSeq? && Ready(code, s, pc, t, opt, guard, fl, i, stack, caps)
    ensures Outcome(code, s, Running(pc, i, stack, caps), Peg(t, s, i), pc + |Gen(t, opt, guard, fl)|, opt, fl,
                    stack, caps)
    decreases t, 0
  {
    hide Reach, At, First, FirstEmpty, HeadFail, CheckAux, Flatten, FixedLenX, HasCaptures, Backtrack, OptTestCode,
      TestCode, Classify, CharsetCode, CharCode, CharsetSlots;
    var TSeq(p1, p2) := t;
    var from := Running(pc, i, stack, caps);
    var fl1, guard2 := SeqFollow(p1, p2, fl), SeqGuard(p1, guard);
    var g1, g2 := Gen(p1, false, guard, fl1), Gen(p2, opt, guard2, fl);
    AtSplit(code, pc, g1, g2);
    var m1 := Peg(p1, s, i);
    Simulate(code, s, pc, p1, false, guard, fl1, i, stack, caps);
    if m1.Success? {
      var j, caps1 := m1.pos, caps + Flatten(m1.caps);
      if Reach(code, s, from, Running(pc + |g1|, j, stack, caps1)) {
        if FixedLen(p1) == 0 {
          FixedLenSound(p1, 0, s, i);
        }
        LevelGrows(stack, |caps|, |caps1|);
        Simulate(code, s, pc + |g1|, p2, opt, guard2, fl, j, stack, caps1);
        SeqOutcome(code, s, from, pc + |g1|, m1, Peg(p2, s, j), pc + |g1| + |g2|, opt, fl, stack, caps);
      } else {
        // p1 was given up at a head that is not in first(p2)
        FullNeverOutside(s, j);
        FirstSound(p2, fl, s, j);
      }
    }
  }

  lemma {:induction false} SimChoice(code: Code, s: Subject, pc: int, t: Tree, opt: bool, guard: Guard, fl: Charset,
                                     i: nat, stack: Stack, caps: seq<Capture>)
    requires t.TChoice? && Ready(code, s, pc, t, opt, guard, fl, i, stack, caps)
    ensures Outcome(code, s, Running(pc, i, stack, caps), Peg(t, s, i), pc + |Gen(t, opt, guard, fl)|, opt, fl,
                    stack, caps)
    decreases t, 0
  {
    hide Reach, At, First, FirstEmpty, HeadFail, CheckAux, Flatten, FixedLenX, HasCaptures, Backtrack, Outcome,
      LevelOk, Peg, OptTestCode, TestCode, Classify, CharsetCode, CharCode, CharsetSlots;
    var TChoice(p1, p2) := t;
    var cs1, e1 := First(p1, FULLSET), FirstEmpty(p1);
    if TestSuffices(p1, First(p2, fl)) {
      SimTestChoice(code, s, pc, p1, p2, opt, Gen(p1, false, TestFor(cs1), fl), Gen(p2, opt, NoTest, fl), fl, i,
        stack, caps);
    } else if opt && p2.TTrue? {
      SimOptional(code, s, pc, p1, Gen(p1, true, NoTest, FULLSET), fl, i, stack, caps);
    } else {
      SimPlainChoice(code, s, pc, p1, p2, opt, Gen(p1, p2.TTrue?, OptGuard(cs1, e1), FULLSET),
                     Gen(p2, opt, NoTest, fl), fl, i, stack, caps);
    }
  }

  lemma {:induction false} SimTestChoice(code: Code, s: Subject, pc: int, p1: Tree, p2: Tree, opt: bool, g1: Code,
        g2: Code, fl: Charset, i: nat, stack: Stack, caps: seq<Capture>)
    requires WellFormed(TChoice(p1, p2)) && i <= |s| && LevelOk(stack, |caps|) && (opt ==> ChoiceOnTop(stack))
    requires g1 == Gen(p1, false, TestFor(First(p1, FULLSET)), fl)
    requires g2 == Gen(p2, opt, NoTest, fl) && (p2.TTrue? ==> g2 == [])
    requires TestSuffices(p1, First(p2, fl))
    requires At(code, pc, TestChoiceCode(First(p1, FULLSET), g1, p2.TTrue?, g2))
    ensures Outcome(code, s, Running(pc, i, stack, caps), Peg(TChoice(p1, p2), s, i),
      pc + |TestChoiceCode(First(p1, FULLSET), g1, p2.TTrue?, g2)|, opt, fl, stack, caps)
    decreases TChoice(p1, p2), 0, 0
  {
    hide Gen, Reach, At, First, FirstEmpty, HeadFail, CheckAux, Flatten, FixedLenX, HasCaptures, Backtrack, Outcome,
      OptTestCode, TestCode, Classify, CharsetCode, CharCode, CharsetSlots, NotCode, RepCode, ChoiceCode,
      TestChoiceCode, TestRepCode;
    var cs1 := First(p1, FULLSET);
    var m1, m2 := Peg(p1, s, i), Peg(p2, s, i);
    TestChoiceSplit(code, pc, cs1, g1, p2.TTrue?, g2);
    var l0 := pc + TestSize(cs1);
    TestDecides(p1, First(p2, fl), s, i);
    if HeadIn(s, i, cs1) {
      Simulate(code, s, l0, p1, false, TestFor(cs1), fl, i, stack, caps);
      if m1.Failure? {
        FirstSound(p2, fl, s, i);
      }
    } else {
      Simulate(code, s, l0 + |g1| + if p2.TTrue? then 0 else 2, p2, opt, NoTest, fl, i, stack, caps);
    }
    TestChoiceRuns(code, s, pc, cs1, g1, p2.TTrue?, g2, m1, m2, opt, fl, i, stack, caps);
  }

  lemma {:induction false} SimOptional(code: Code, s: Subject, pc: int, p1: Tree, g1: Code, fl: Charset,
      i: nat, stack: Stack, caps: seq<Capture>)
    requires WellFormed(TChoice(p1, TTrue)) && i <= |s| && LevelOk(stack, |caps|) && ChoiceOnTop(stack)
    requires g1 == Gen(p1, true, NoTest, FULLSET)
    requires At(code, pc, OptionalCode(g1))
    ensures Outcome(code, s, Running(pc, i, stack, caps), Peg(TChoice(p1, TTrue), s, i), pc + |OptionalCode(g1)|,
      true, fl, stack, caps)
    decreases TChoice(p1, TTrue), 0, 0
  {
    hide Gen, Reach, At, First, FirstEmpty, HeadFail, CheckAux, Flatten, FixedLenX, HasCaptures, Backtrack, Outcome,
      OptTestCode, TestCode, Classify, CharsetCode, CharCode, CharsetSlots;
    AtSplit(code, pc, Jump(IPartialCommit, 2), g1);
    Simulate(code, s, pc + 2, p1, true, NoTest, FULLSET, i, Push(Choice(stack.top.p, i, |caps|), stack.rest), caps);
    OptionalRuns(code, s, pc, g1, Peg(p1, s, i), fl, i, stack, caps);
  }

  lemma {:induction false} SimPlainChoice(code: Code, s: Subject, pc: int, p1: Tree, p2: Tree, opt: bool, g1: Code,
        g2: Code, fl: Charset, i: nat, stack: Stack, caps: seq<Capture>)
    requires WellFormed(TChoice(p1, p2)) && i <= |s| && LevelOk(stack, |caps|) && (opt ==> ChoiceOnTop(stack))
    requires g1 == Gen(p1, p2.TTrue?, OptGuard(First(p1, FULLSET), FirstEmpty(p1)), FULLSET)
    requires g2 == Gen(p2, opt, NoTest, fl) && (p2.TTrue? ==> g2 == [])
    requires At(code, pc, ChoiceCode(First(p1, FULLSET), FirstEmpty(p1), g1, g2))
    ensures Outcome(code, s, Running(pc, i, stack, caps), Peg(TChoice(p1, p2), s, i),
      pc + |ChoiceCode(First(p1, FULLSET), FirstEmpty(p1), g1, g2)|, opt, fl, stack, caps)
    decreases TChoice(p1, p2), 0, 0
  {
    hide Gen, Reach, At, First, FirstEmpty, HeadFail, CheckAux, Flatten, FixedLenX, HasCaptures, Backtrack, Outcome,
      OptTestCode, TestCode, Classify, CharsetCode, CharCode, CharsetSlots, NotCode, RepCode, ChoiceCode,
      TestChoiceCode, TestRepCode;
    var cs1, e1 := First(p1, FULLSET), FirstEmpty(p1);
    ChoiceSplit(code, pc, cs1, e1, g1, g2);
    var l0 := pc + |OptTestCode(cs1, e1, 2 + |g1| + 2)|;
    var l1 := l0 + 2 + |g1| + 2;
    var m1, m2 := Peg(p1, s, i), Peg(p2, s, i);
    if e1 || HeadIn(s, i, cs1) {
      Simulate(code, s, l0 + 2, p1, p2.TTrue?, OptGuard(cs1, e1), FULLSET, i, Push(Choice(l1, i, |caps|), stack), caps);
    } else {
      TestSkips(p1, s, i);
    }
    if m1.Failure? {
      Simulate(code, s, l1, p2, opt, NoTest, fl, i, stack, caps);
    }
    ChoiceRuns(code, s, pc, cs1, e1, g1, p2.TTrue?, g2, m1, m2, opt, fl, i, stack, caps);
  }

  /** A sufficient test: where it rejects the head the pattern fails, and where the pattern
      fails all the same, the head cannot start the rest. */
  lemma TestDecides(p: Tree, rest: Charset, s: Subject, i: nat)
    requires WellFormed(p) && TestSuffices(p, rest) && i <= |s|
    ensures !HeadIn(s, i, First(p, FULLSET)) ==> Peg(p, s, i).Failure?
    ensures HeadIn(s, i, First(p, FULLSET)) && Peg(p, s, i).Failure? ==> s[i] !in rest
  {
    hide First, FirstEmpty, HeadFail, Peg, WellFormed;
    if HeadFail(p) {
      HeadFailSound(p, s, i);
    } else if HeadIn(s, i, First(p, FULLSET)) {
      assert s[i] in rest ==> s[i] in First(p, FULLSET) * rest;
    } else {
      TestSkips(p, s, i);
    }
  }

  lemma {:induction false} SimRep(code: Code, s: Subject, pc: int, t: Tree, opt: bool, guard: Guard, fl: Charset,
                                  i: nat, stack: Stack, caps: seq<Capture>)
    requires t.TRep? && Ready(code, s, pc, t, opt, guard, fl, i, stack, caps)
    ensures Outcome(code, s, Running(pc, i, stack, caps), Peg(t, s, i), pc + |Gen(t, opt, guard, fl)|, opt, fl,
                    stack, caps)
    decreases t, 0
  {
    hide Reach, At, First, FirstEmpty, HeadFail, CheckAux, FixedLenX, HasCaptures, Backtrack, OptTestCode, TestCode,
      Classify, CharsetCode, CharCode, CharsetSlots;
    var body := t.body;
    var from := Running(pc, i, stack, caps);
    var g := Gen(t, opt, guard, fl);
    if IsCharset(body) {
      SpanIsRep(body, s, i);
      SpanRuns(code, s, pc, ToCharset(body), i, stack, caps);
      FlattenNone(caps);
      ReachedIsDone(code, s, from, pc + |g|, Peg(t, s, i).pos, opt, stack, caps);
    } else if TestSuffices(body, fl) {
      TestRepLoop(code, s, pc, body, Gen(body, false, TestFor(First(body, FULLSET)), FULLSET), fl, i, stack, caps);
      PlainIsOutcome(code, s, from, Peg(t, s, i), pc + |g|, opt, fl, stack, caps);
    } else {
      SimPlainRep(code, s, pc, body, opt, Gen(body, false, NoTest, FULLSET), fl, i, stack, caps);
    }
  }

  lemma {:induction false} SimPlainRep(code: Code, s: Subject, pc: int, body: Tree, opt: bool, g: Code, fl: Charset,
      i: nat, stack: Stack, caps: seq<Capture>)
    requires WellFormed(TRep(body)) && i <= |s| && LevelOk(stack, |caps|) && (opt ==> ChoiceOnTop(stack))
    requires g == Gen(body, false, NoTest, FULLSET)
    requires At(code, pc, RepCode(First(body, FULLSET), FirstEmpty(body), opt, g))
    ensures Outcome(code, s, Running(pc, i, stack, caps), Peg(TRep(body), s, i),
      pc + |RepCode(First(body, FULLSET), FirstEmpty(body), opt, g)|, opt, fl, stack, caps)
    decreases TRep(body), 0, 0
  {
    hide Gen, Reach, At, First, FirstEmpty, HeadFail, CheckAux, Flatten, FixedLenX, HasCaptures, Backtrack, Outcome,
      OptTestCode, TestCode, Classify, CharsetCode, CharCode, CharsetSlots, NotCode, RepCode, ChoiceCode,
      TestChoiceCode, TestRepCode;
    var st, e1 := First(body, FULLSET), FirstEmpty(body);
    RepSplit(code, pc, st, e1, opt, g);
    RepSucceeds(body, s, i);
    var l1 := pc + |OptTestCode(st, e1, 2 + |g| + 2)| + 2;
    if e1 || HeadIn(s, i, st) {
      var (exit, below) := RepExit(opt, stack, l1 + |g| + 2);
      RepLoop(code, s, l1, body, g, exit, i, below, caps);
    } else {
      TestSkips(body, s, i);
    }
    RepEnters(code, s, pc, st, e1, opt, g, Peg(TRep(body), s, i), fl, i, stack, caps);
  }

  lemma {:induction false} SpanIsRep(body: Tree, s: Subject, i: nat)
    requires IsCharset(body) && i <= |s|
    ensures Peg(TRep(body), s, i) == Success(SpanEnd(s, i, ToCharset(body)), [])
    decreases |s| - i
  {
    if HeadIn(s, i, ToCharset(body)) {
      SpanIsRep(body, s, i + 1);
    }
  }

  lemma {:induction false} TestRepLoop(code: Code, s: Subject, pc: int, body: Tree, g: Code, fl: Charset,
      i: nat, stack: Stack, caps: seq<Capture>)
    requires WellFormed(TRep(body)) && i <= |s| && LevelOk(stack, |caps|)
    requires g == Gen(body, false, TestFor(First(body, FULLSET)), FULLSET) && TestSuffices(body, fl)
    requires At(code, pc, TestRepCode(First(body, FULLSET), g))
    ensures Outcome(code, s, Running(pc, i, stack, caps), Peg(TRep(body), s, i),
      pc + |TestRepCode(First(body, FULLSET), g)|, false, fl, stack, caps)
    decreases body, 2, |s| - i
  {
    hide Gen, Reach, At, First, FirstEmpty, HeadFail, CheckAux, Flatten, FixedLenX, HasCaptures, Backtrack, Outcome,
      OptTestCode, TestCode, Classify, CharsetCode, CharCode, CharsetSlots, NotCode, RepCode, ChoiceCode,
      TestChoiceCode, TestRepCode;
    var st := First(body, FULLSET);
    var m := Peg(body, s, i);
    var rest := Failure;
    TestRepSplit(code, pc, st, g);
    TestDecides(body, fl, s, i);
    if HeadIn(s, i, st) {
      Simulate(code, s, pc + TestSize(st), body, false, TestFor(st), FULLSET, i, stack, caps);
    }
    if m.Success? {
      NullableSound(body, s, i);
      var caps1 := caps + Flatten(m.caps);
      LevelGrows(stack, |caps|, |caps1|);
      TestRepLoop(code, s, pc, body, g, fl, m.pos, stack, caps1);
      rest := Peg(TRep(body), s, m.pos);
    }
    TestRepTurn(code, s, pc, st, g, m, rest, fl, i, stack, caps);
  }

  lemma {:induction false} RepLoop(code: Code, s: Subject, l1: int, body: Tree, g: Code, exit: int, i: nat,
        below: Stack, caps: seq<Capture>)
    requires WellFormed(TRep(body)) && i <= |s| && g == Gen(body, false, NoTest, FULLSET)
    requires At(code, l1, g) && At(code, l1 + |g|, Jump(IPartialCommit, -|g|)) && LevelsWithin(below, |caps|)
    ensures var m := Peg(TRep(body), s, i);
            m.Success? && Reach(code, s, Running(l1, i, Push(Choice(exit, i, |caps|), below), caps),
                                Running(exit, m.pos, below, caps + Flatten(m.caps)))
    decreases body, 2, |s| - i
  {
    hide Gen, Reach, At, First, FirstEmpty, HeadFail, CheckAux, Flatten, FixedLenX, HasCaptures, Backtrack,
      OptTestCode, TestCode, Classify, CharsetCode, CharCode, CharsetSlots;
    var m := Peg(body, s, i);
    var rest := Failure;
    Simulate(code, s, l1, body, false, NoTest, FULLSET, i, Push(Choice(exit, i, |caps|), below), caps);
    if m.Success? {
      NullableSound(body, s, i);
      WithinGrows(below, |caps|, |caps + Flatten(m.caps)|);
      RepLoop(code, s, l1, body, g, exit, m.pos, below, caps + Flatten(m.caps));
      rest := Peg(TRep(body), s, m.pos);
    }
    RepTurn(code, s, l1, g, m, rest, exit, i, below, caps);
  }

  lemma {:induction false} SimNot(code: Code, s: Subject, pc: int, body: Tree, g: Code, fl: Charset,
      i: nat, stack: Stack, caps: seq<Capture>)
    requires WellFormed(TNot(body)) && i <= |s| && LevelOk(stack, |caps|)
    requires g == Gen(body, false, NoTest, FULLSET)
    requires At(code, pc, NotCode(First(body, FULLSET), FirstEmpty(body), HeadFail(body), g))
    ensures Outcome(code, s, Running(pc, i, stack, caps), Peg(TNot(body), s, i),
      pc + |NotCode(First(body, FULLSET), FirstEmpty(body), HeadFail(body), g)|, false, fl, stack, caps)
    decreases body, 2
  {
    hide Gen, Reach, At, First, FirstEmpty, HeadFail, CheckAux, Flatten, FixedLenX, HasCaptures, Backtrack, Outcome,
      OptTestCode, TestCode, Classify, CharsetCode, CharCode, CharsetSlots, NotCode, RepCode, ChoiceCode,
      TestChoiceCode, TestRepCode;
    var st, e := First(body, FULLSET), FirstEmpty(body);
    NotSplit(code, pc, st, e, HeadFail(body), g);
    if !(e || HeadIn(s, i, st)) {
      TestSkips(body, s, i);
    } else if HeadFail(body) {
      HeadFailNotEmpty(body);
      HeadFailSound(body, s, i);
    } else {
      var l1 := pc + |OptTestCode(st, e, 2 + |g| + 1)| + 2;
      Simulate(code, s, l1, body, false, NoTest, FULLSET, i, Push(Choice(l1 + |g| + 1, i, |caps|), stack), caps);
    }
    NotRuns(code, s, pc, st, e, HeadFail(body), g, Peg(body, s, i), fl, i, stack, caps);
  }

  lemma {:induction false} SimAndBehind(code: Code, s: Subject, pc: int, body: Tree, guard: Guard, g: Code, fl: Charset,
      i: nat, stack: Stack, caps: seq<Capture>)
    requires WellFormed(TAnd(body)) && i <= |s| && LevelOk(stack, |caps|)
    requires g == Gen(body, false, guard, FULLSET) && BehindSuffices(body)
    requires (guard.TestFor? ==> HeadIn(s, i, guard.cs))
    requires At(code, pc, g + BehindCode(FixedLen(body)))
    ensures Outcome(code, s, Running(pc, i, stack, caps), Peg(TAnd(body), s, i),
      pc + |g + BehindCode(FixedLen(body))|, false, fl, stack, caps)
    decreases body, 2
  {
    hide Gen, Reach, At, First, FirstEmpty, HeadFail, CheckAux, Flatten, FixedLenX, HasCaptures, Backtrack, Outcome,
      OptTestCode, TestCode, Classify, CharsetCode, CharCode, CharsetSlots;
    AtSplit(code, pc, g, BehindCode(FixedLen(body)));
    Simulate(code, s, pc, body, false, guard, FULLSET, i, stack, caps);
    HasCapturesSound(body, s, i);
    FixedLenSound(body, 0, s, i);
    AndBehindRuns(code, s, pc, g, FixedLen(body), Peg(body, s, i), fl, i, stack, caps);
  }

  lemma {:induction false} SimAnd(code: Code, s: Subject, pc: int, body: Tree, guard: Guard, g: Code, fl: Charset,
      i: nat, stack: Stack, caps: seq<Capture>)
    requires WellFormed(TAnd(body)) && i <= |s| && LevelOk(stack, |caps|)
    requires g == Gen(body, false, guard, FULLSET)
    requires (guard.TestFor? ==> HeadIn(s, i, guard.cs))
    requires At(code, pc, AndCode(g))
    ensures Outcome(code, s, Running(pc, i, stack, caps), Peg(TAnd(body), s, i), pc + |AndCode(g)|, false, fl, stack,
      caps)
    decreases body, 2
  {
    hide Gen, Reach, At, First, FirstEmpty, HeadFail, CheckAux, Flatten, FixedLenX, HasCaptures, Backtrack, Outcome,
      OptTestCode, TestCode, Classify, CharsetCode, CharCode, CharsetSlots;
    AndSplit(code, pc, g);
    Simulate(code, s, pc + 2, body, false, guard, FULLSET, i, Push(Choice(pc + 2 + |g| + 2, i, |caps|), stack), caps);
    AndRuns(code, s, pc, g, Peg(body, s, i), fl, i, stack, caps);
  }

  lemma {:induction false} SimBehind(code: Code, s: Subject, pc: int, n: nat, body: Tree, g: Code, fl: Charset,
      i: nat, stack: Stack, caps: seq<Capture>)
    requires WellFormed(TBehind(n, body)) && i <= |s| && LevelOk(stack, |caps|)
    requires g == Gen(body, false, NoTest, FULLSET)
    requires At(code, pc, BehindCode(n) + g)
    ensures Outcome(code, s, Running(pc, i, stack, caps), Peg(TBehind(n, body), s, i), pc + |BehindCode(n) + g|,
      false, fl, stack, caps)
    decreases body, 2
  {
    hide Gen, Reach, At, First, FirstEmpty, HeadFail, CheckAux, Flatten, FixedLenX, HasCaptures, Backtrack, Outcome,
      OptTestCode, TestCode, Classify, CharsetCode, CharCode, CharsetSlots;
    AtSplit(code, pc, BehindCode(n), g);
    if n <= i {
      Simulate(code, s, pc + |BehindCode(n)|, body, false, NoTest, FULLSET, i - n, stack, caps);
      HasCapturesSound(body, s, i - n);
      FixedLenSound(body, 0, s, i - n);
    }
    BehindRuns(code, s, pc, n, g, Peg(TBehind(n, body), s, i), fl, i, stack, caps);
  }

  lemma {:induction false} SimFullCapture(code: Code, s: Subject, pc: int, kind: nat, key: nat, body: Tree,
        guard: Guard, g: Code, fl: Charset, i: nat, stack: Stack, caps: seq<Capture>)
    requires WellFormed(TCapture(kind, key, body)) && i <= |s| && LevelOk(stack, |caps|)
    requires g == Gen(body, false, guard, fl) && FullCaptureSuffices(body)
    requires (guard.TestFor? ==> HeadIn(s, i, guard.cs))
    requires At(code, pc, g + CaptureCode(IFullCapture, kind, key, FixedLen(body)))
    ensures Outcome(code, s, Running(pc, i, stack, caps), Peg(TCapture(kind, key, body), s, i),
      pc + |g + CaptureCode(IFullCapture, kind, key, FixedLen(body))|, false, fl, stack, caps)
    decreases body, 2
  {
    hide Gen, Reach, At, First, FirstEmpty, HeadFail, CheckAux, Flatten, FixedLenX, HasCaptures, Backtrack, Outcome,
      OptTestCode, TestCode, Classify, CharsetCode, CharCode, CharsetSlots;
    AtSplit(code, pc, g, CaptureCode(IFullCapture, kind, key, FixedLen(body)));
    Simulate(code, s, pc, body, false, guard, fl, i, stack, caps);
    HasCapturesSound(body, s, i);
    FixedLenSound(body, 0, s, i);
    FullCaptureRuns(code, s, pc, g, kind, key, FixedLen(body), Peg(body, s, i), fl, i, stack, caps);
  }

  lemma {:induction false} SimCapture(code: Code, s: Subject, pc: int, kind: nat, key: nat, body: Tree, guard: Guard,
        g: Code, fl: Charset, i: nat, stack: Stack, caps: seq<Capture>)
    requires WellFormed(TCapture(kind, key, body)) && i <= |s| && LevelOk(stack, |caps|)
    requires g == Gen(body, false, guard, fl)
    requires (guard.TestFor? ==> HeadIn(s, i, guard.cs))
    requires At(code, pc, EnclosedCode(kind, key, g))
    ensures Outcome(code, s, Running(pc, i, stack, caps), Peg(TCapture(kind, key, body), s, i),
      pc + |EnclosedCode(kind, key, g)|, false, fl, stack, caps)
    decreases body, 2
  {
    hide Gen, Reach, At, First, FirstEmpty, HeadFail, CheckAux, Flatten, FixedLenX, HasCaptures, Backtrack, Outcome,
      OptTestCode, TestCode, Classify, CharsetCode, CharCode, CharsetSlots;
    EnclosedSplit(code, pc, kind, key, g);
    var caps1 := caps + [Capture(i, key, kind, 0)];
    LevelGrows(stack, |caps|, |caps1|);
    Simulate(code, s, pc + 1, body, false, guard, fl, i, stack, caps1);
    PegIsProper(body, s, i);
    CaptureRuns(code, s, pc, g, kind, key, Peg(body, s, i), fl, i, stack, caps);
  }

  // ----- whole patterns -----

  /** What a match attempt at 'i' must end with. */
  function Verdict(m: Match): State {
    if m.Success? then Matched(m.pos, Flatten(m.caps)) else NoMatch
  }

  /** The code of a pattern before the peephole pass. */
  function Program(t: Tree): Code {
    Gen(t, false, NoTest, FULLSET) + Code1(IEnd, 0)
  }

  /** The machine running the code of a well-formed pattern stops, and with the verdict of
      the pattern's meaning: the end position and all captures, or no match. */
  lemma ProgramCorrect(t: Tree, s: Subject, i: nat)
    requires WellFormed(t) && i <= |s|
    ensures Reach(Program(t), s, Start(i), Verdict(Peg(t, s, i)))
  {
    hide Reach, At, First, FirstEmpty, HeadFail, CheckAux, Flatten, FixedLenX, HasCaptures, Gen, WellFormed;
    var code, g := Program(t), Gen(t, false, NoTest, FULLSET);
    var stack := Push(Choice(GIVEUP, i, 0), Bottom);
    var m := Peg(t, s, i);
    assert code[..|code|] == code;
    assert LevelsWithin(stack.rest, 0);
    AtSplit(code, 0, g, Code1(IEnd, 0));
    Simulate(code, s, 0, t, false, NoTest, FULLSET, i, stack, []);
    if m.Success? {
      FullNeverOutside(s, m.pos);
      assert [] + Flatten(m.caps) == Flatten(m.caps);
      StepReach(code, s, Running(|g|, m.pos, stack, Flatten(m.caps)), Matched(m.pos, Flatten(m.caps)));
      ReachTrans(code, s, Start(i), Running(|g|, m.pos, stack, Flatten(m.caps)), Matched(m.pos, Flatten(m.caps)));
    } else {
      var giveup := Running(GIVEUP, i, Bottom, []);
      StepReach(code, s, giveup, NoMatch);
      ReachTrans(code, s, Start(i), giveup, NoMatch);
    }
  }
}
