/** What running a piece of code leads to, and how the pieces of each construction compose.
    Nothing here depends on which patterns the pieces come from. */
module Fragments {
  import opened PegTree
  import opened Machine
  import opened CodeGen
  import opened CaptureList
  import opened CaptureSearch

  /** The code 'g' is placed at 'pc'. */
  ghost predicate At(code: Code, pc: int, g: Code) {
    0 <= pc && pc + |g| <= |code| && code[pc..pc + |g|] == g
  }

  lemma AtSplit(code: Code, pc: int, a: Code, b: Code)
    requires At(code, pc, a + b)
    ensures At(code, pc, a) && At(code, pc + |a|, b)
  {
    assert a == (a + b)[..|a|];
    assert b == (a + b)[|a|..];
    assert code[pc..pc + |a|] == code[pc..pc + |a + b|][..|a|];
    assert code[pc + |a|..pc + |a| + |b|] == code[pc..pc + |a + b|][|a|..];
  }

  lemma AtIndex(code: Code, pc: int, g: Code, k: nat)
    requires At(code, pc, g) && k < |g|
    ensures pc + k < |code| && code[pc + k] == g[k]
  {
    assert code[pc + k] == code[pc..pc + |g|][k];
  }

  /** There is a head and it cannot start what follows. */
  predicate Outside(s: Subject, j: nat, fl: Charset) {
    j < |s| && s[j] !in fl
  }

  predicate HasChoice(stack: Stack) {
    match stack
    case Bottom => false
    case Push(Call(_), rest) => HasChoice(rest)
    case Push(Choice(_, _, _), _) => true
  }

  /** There is a choice, and all were made when at most 'n' captures were there. */
  predicate LevelOk(stack: Stack, n: nat) {
    HasChoice(stack) && LevelsWithin(stack, n)
  }

  predicate ChoiceOnTop(stack: Stack) {
    stack.Push? && stack.top.Choice?
  }

  lemma {:induction false} BacktrackDropsCaptures(stack: Stack, caps: seq<Capture>, more: seq<Capture>)
    requires LevelOk(stack, |caps|)
    ensures Backtrack(stack, caps + more) == Backtrack(stack, caps)
  {
    match stack
    case Push(Call(_), rest) => BacktrackDropsCaptures(rest, caps, more);
    case Push(Choice(_, _, caplevel), _) =>
      assert (caps + more)[..caplevel] == caps[..caplevel];
  }

  lemma {:induction false} LevelGrows(stack: Stack, m: nat, n: nat)
    requires LevelOk(stack, m) && m <= n
    ensures LevelOk(stack, n)
  {
    WithinGrows(stack, m, n);
  }

  lemma {:induction false} WithinGrows(stack: Stack, m: nat, n: nat)
    requires LevelsWithin(stack, m) && m <= n
    ensures LevelsWithin(stack, n)
  {
    if stack.Push? {
      WithinGrows(stack.rest, m, n);
    }
  }

  /** Code that is the last thing inside an optional pattern may have moved the enclosing
      choice, or may succeed by failing to it. */
  ghost predicate Done(code: Code, s: Subject, from: State, end: int, j: nat, opt: bool, stack: Stack,
                       caps: seq<Capture>)
  {
    if !opt then
      Reach(code, s, from, Running(end, j, stack, caps))
    else
      && ChoiceOnTop(stack)
      && (|| Reach(code, s, from, Running(stack.top.p, j, stack.rest, caps))
          || exists e: Entry ::
               e.Choice? && e.p == stack.top.p && Reach(code, s, from, Running(end, j, Push(e, stack.rest), caps)))
  }

  /** What running the code of a pattern with meaning 'm' leads to. A match may be given up
      only at a head that no continuation accepts. */
  ghost predicate Outcome(code: Code, s: Subject, from: State, m: Match, end: int, opt: bool, fl: Charset,
                          stack: Stack, caps: seq<Capture>)
  {
    match m
    case Failure => Reach(code, s, from, Backtrack(stack, caps))
    case Success(j, made) =>
      || Done(code, s, from, end, j, opt, stack, caps + Flatten(made))
      || (Outside(s, j, fl) && Reach(code, s, from, Backtrack(stack, caps)))
  }

  // ----- composition of outcomes -----

  /** Prefixing a run. */
  lemma OutcomeFrom(code: Code, s: Subject, from: State, mid: State, m: Match, end: int, opt: bool, fl: Charset,
                    stack: Stack, caps: seq<Capture>)
    requires Reach(code, s, from, mid) && Outcome(code, s, mid, m, end, opt, fl, stack, caps)
    ensures Outcome(code, s, from, m, end, opt, fl, stack, caps)
  {
    hide Reach;
    if Reach(code, s, mid, Backtrack(stack, caps)) {
      ReachTrans(code, s, from, mid, Backtrack(stack, caps));
    }
    if m.Success? && Done(code, s, mid, end, m.pos, opt, stack, caps + Flatten(m.caps)) {
      DoneFrom(code, s, from, mid, end, m.pos, opt, stack, caps + Flatten(m.caps));
    }
  }

  lemma DoneFrom(code: Code, s: Subject, from: State, mid: State, end: int, j: nat, opt: bool, stack: Stack,
                 caps: seq<Capture>)
    requires Reach(code, s, from, mid) && Done(code, s, mid, end, j, opt, stack, caps)
    ensures Done(code, s, from, end, j, opt, stack, caps)
  {
    hide Reach;
    if !opt {
      ReachTrans(code, s, from, mid, Running(end, j, stack, caps));
    } else if Reach(code, s, mid, Running(stack.top.p, j, stack.rest, caps)) {
      ReachTrans(code, s, from, mid, Running(stack.top.p, j, stack.rest, caps));
    } else {
      var e: Entry :| e.Choice? && e.p == stack.top.p
        && Reach(code, s, mid, Running(end, j, Push(e, stack.rest), caps));
      ReachTrans(code, s, from, mid, Running(end, j, Push(e, stack.rest), caps));
    }
  }

  /** Reaching the end with the stack as it was is an outcome in either mode. */
  lemma ReachedIsDone(code: Code, s: Subject, from: State, end: int, j: nat, opt: bool, stack: Stack,
                      caps: seq<Capture>)
    requires Reach(code, s, from, Running(end, j, stack, caps)) && (opt ==> ChoiceOnTop(stack))
    ensures Done(code, s, from, end, j, opt, stack, caps)
  {
    hide Reach;
    if opt {
      assert stack == Push(stack.top, stack.rest);
    }
  }

  lemma PlainIsOutcome(code: Code, s: Subject, from: State, m: Match, end: int, opt: bool, fl: Charset,
                       stack: Stack, caps: seq<Capture>)
    requires Outcome(code, s, from, m, end, false, fl, stack, caps) && (opt ==> ChoiceOnTop(stack))
    ensures Outcome(code, s, from, m, end, opt, fl, stack, caps)
  {
    hide Reach;
    if m.Success? && Done(code, s, from, end, m.pos, false, stack, caps + Flatten(m.caps)) {
      ReachedIsDone(code, s, from, end, m.pos, opt, stack, caps + Flatten(m.caps));
    }
  }

  /** With the full follow set nothing is given up. */
  lemma FullNeverOutside(s: Subject, j: nat)
    ensures !Outside(s, j, FULLSET)
  {
  }

  // ----- single instructions -----

  lemma StepReach(code: Code, s: Subject, from: State, to: State)
    requires Step(code, s, from) == to
    ensures Reach(code, s, from, to)
  {
    ReachStep(code, s, from);
  }

  lemma JumpReach(code: Code, s: Subject, pc: int, op: Opcode, off: int, i: nat, stack: Stack, caps: seq<Capture>)
    requires At(code, pc, Jump(op, off)) && i <= |s|
    requires op in {IJmp, IChoice, ICommit, IPartialCommit}
    requires op in {ICommit, IPartialCommit} ==> ChoiceOnTop(stack)
    ensures Reach(code, s, Running(pc, i, stack, caps),
              if op == IJmp then Running(pc + off, i, stack, caps)
              else if op == IChoice then Running(pc + 2, i, Push(Choice(pc + off, i, |caps|), stack), caps)
              else if op == ICommit then Running(pc + off, i, stack.rest, caps)
              else Running(pc + off, i, Push(Choice(stack.top.p, i, |caps|), stack.rest), caps))
  {
    AtIndex(code, pc, Jump(op, off), 0);
    AtIndex(code, pc, Jump(op, off), 1);
    StepReach(code, s, Running(pc, i, stack, caps), Step(code, s, Running(pc, i, stack, caps)));
  }

  lemma TestReach(code: Code, s: Subject, pc: int, cs: Charset, e: bool, after: nat, i: nat, stack: Stack,
                  caps: seq<Capture>)
    requires At(code, pc, OptTestCode(cs, e, after)) && i <= |s|
    ensures var end := pc + |OptTestCode(cs, e, after)|;
            Reach(code, s, Running(pc, i, stack, caps),
                  Running(if e || HeadIn(s, i, cs) then end else end + after, i, stack, caps))
  {
    var from := Running(pc, i, stack, caps);
    if e {
      ReachRefl(code, s, from);
    } else {
      var g := TestCode(cs, after);
      AtIndex(code, pc, g, 0);
      AtIndex(code, pc, g, 1);
      if Classify(cs).GeneralSet? {
        AtIndex(code, pc, g, 2);
      }
      StepReach(code, s, from, Step(code, s, from));
    }
  }

  lemma FailReach(code: Code, s: Subject, pc: int, i: nat, stack: Stack, caps: seq<Capture>)
    requires At(code, pc, Code1(IFail, 0)) && i <= |s|
    ensures Reach(code, s, Running(pc, i, stack, caps), Backtrack(stack, caps))
  {
    AtIndex(code, pc, Code1(IFail, 0), 0);
    StepReach(code, s, Running(pc, i, stack, caps), Backtrack(stack, caps));
  }

  lemma FailTwiceReach(code: Code, s: Subject, pc: int, i: nat, top: Entry, stack: Stack, caps: seq<Capture>)
    requires At(code, pc, Code1(IFailTwice, 0)) && i <= |s|
    ensures Reach(code, s, Running(pc, i, Push(top, stack), caps), Backtrack(stack, caps))
  {
    AtIndex(code, pc, Code1(IFailTwice, 0), 0);
    StepReach(code, s, Running(pc, i, Push(top, stack), caps), Backtrack(stack, caps));
  }

  lemma BehindReach(code: Code, s: Subject, pc: int, n: nat, i: nat, stack: Stack, caps: seq<Capture>)
    requires At(code, pc, BehindCode(n)) && i <= |s|
    ensures Reach(code, s, Running(pc, i, stack, caps),
              if n > i then Backtrack(stack, caps) else Running(pc + |BehindCode(n)|, i - n, stack, caps))
  {
    hide Reach;
    var from := Running(pc, i, stack, caps);
    if n > 0 {
      AtIndex(code, pc, BehindCode(n), 0);
      ReachStep(code, s, from);
    } else {
      ReachRefl(code, s, from);
    }
  }

  lemma BackCommitReach(code: Code, s: Subject, pc: int, off: int, i: nat, p: int, start: nat, stack: Stack,
                        caps: seq<Capture>, more: seq<Capture>)
    requires At(code, pc, Jump(IBackCommit, off)) && i <= |s|
    ensures Reach(code, s, Running(pc, i, Push(Choice(p, start, |caps|), stack), caps + more),
                  Running(pc + off, start, stack, caps))
  {
    AtIndex(code, pc, Jump(IBackCommit, off), 0);
    AtIndex(code, pc, Jump(IBackCommit, off), 1);
    assert (caps + more)[..|caps|] == caps;
    ReachStep(code, s, Running(pc, i, Push(Choice(p, start, |caps|), stack), caps + more));
  }

  /** Failing to a choice just made finds everything as it was. */
  lemma BacktrackToTop(p: int, i: nat, stack: Stack, caps: seq<Capture>)
    ensures Backtrack(Push(Choice(p, i, |caps|), stack), caps) == Running(p, i, stack, caps)
  {
    assert caps[..|caps|] == caps;
  }

  lemma OpenReach(code: Code, s: Subject, pc: int, kind: nat, key: nat, i: nat, stack: Stack, caps: seq<Capture>)
    requires At(code, pc, CaptureCode(IOpenCapture, kind, key, 0)) && i <= |s| && kind < 16
    ensures Reach(code, s, Running(pc, i, stack, caps), Running(pc + 1, i, stack, caps + [Capture(i, key, kind, 0)]))
  {
    hide JoinKindOff, GetKind;
    KindOffSplit(kind, 0);
    AtIndex(code, pc, CaptureCode(IOpenCapture, kind, key, 0), 0);
    ReachStep(code, s, Running(pc, i, stack, caps));
  }

  lemma FullReach(code: Code, s: Subject, pc: int, kind: nat, key: nat, n: nat, i: nat, stack: Stack,
        caps: seq<Capture>)
    requires At(code, pc, CaptureCode(IFullCapture, kind, key, n)) && n <= i <= |s| && kind < 16 && n <= MAXOFF
    ensures Reach(code, s, Running(pc, i, stack, caps),
      Running(pc + 1, i, stack, caps + [Capture(i - n, key, kind, n + 1)]))
  {
    hide JoinKindOff, GetKind, GetOff;
    KindOffSplit(kind, n);
    AtIndex(code, pc, CaptureCode(IFullCapture, kind, key, n), 0);
    ReachStep(code, s, Running(pc, i, stack, caps));
  }

  lemma CloseReach(code: Code, s: Subject, pc: int, i: nat, stack: Stack, caps: seq<Capture>)
    requires At(code, pc, CaptureCode(ICloseCapture, CCLOSE, 0, 0)) && i <= |s| && caps != [] && !OpensAfter(caps, i)
    requires ClosesSafely(stack, caps)
    ensures Reach(code, s, Running(pc, i, stack, caps), Running(pc + 1, i, stack, CloseCapture(caps, i, CCLOSE, 0)))
  {
    AtIndex(code, pc, CaptureCode(ICloseCapture, CCLOSE, 0, 0), 0);
    ReachStep(code, s, Running(pc, i, stack, caps));
  }

  // ----- one-character patterns -----

  lemma CharRuns(code: Code, s: Subject, pc: int, cs: Charset, guard: Guard, g: Code, i: nat, stack: Stack,
                 caps: seq<Capture>)
    requires g == CharsetCode(cs, guard) || (exists c :: cs == {c} && g == CharCode(c, guard))
      || (cs == FULLSET && g == Code1(IAny, 0))
    requires At(code, pc, g) && i <= |s| && (guard.TestFor? ==> HeadIn(s, i, guard.cs))
    ensures Reach(code, s, Running(pc, i, stack, caps),
                  if HeadIn(s, i, cs) then Running(pc + |g|, i + 1, stack, caps) else Backtrack(stack, caps))
  {
    AtIndex(code, pc, g, 0);
    if |g| > 1 {
      AtIndex(code, pc, g, 1);
    }
    ReachStep(code, s, Running(pc, i, stack, caps));
  }

  lemma SpanRuns(code: Code, s: Subject, pc: int, cs: Charset, i: nat, stack: Stack, caps: seq<Capture>)
    requires At(code, pc, SpanCode(cs)) && i <= |s|
    ensures Reach(code, s, Running(pc, i, stack, caps),
                  Running(pc + CHARSETINSTSIZE, SpanEnd(s, i, cs), stack, caps))
  {
    AtIndex(code, pc, SpanCode(cs), 0);
    AtIndex(code, pc, SpanCode(cs), 1);
    ReachStep(code, s, Running(pc, i, stack, caps));
  }

  // ----- sequences -----

  /** The captures of both parts, in order. */
  lemma SeqOutcome(code: Code, s: Subject, from: State, mid: int, m1: Match, m2: Match, end: int, opt: bool,
                   fl: Charset, stack: Stack, caps: seq<Capture>)
    requires m1.Success? && LevelOk(stack, |caps|)
    requires var caps1 := caps + Flatten(m1.caps);
             && Reach(code, s, from, Running(mid, m1.pos, stack, caps1))
             && Outcome(code, s, Running(mid, m1.pos, stack, caps1), m2, end, opt, fl, stack, caps1)
    ensures Outcome(code, s, from, Then(m1, m2), end, opt, fl, stack, caps)
  {
    hide Reach, At, Backtrack, Flatten, LevelOk;
    var caps1 := caps + Flatten(m1.caps);
    OutcomeFrom(code, s, from, Running(mid, m1.pos, stack, caps1), m2, end, opt, fl, stack, caps1);
    BacktrackDropsCaptures(stack, caps, Flatten(m1.caps));
    if m2.Success? {
      FlattenTwice(caps, m1.caps, m2.caps);
    }
  }

  /** The result of two matches in a row. */
  function Then(m1: Match, m2: Match): Match
    requires m1.Success?
  {
    if m2.Failure? then Failure else Success(m2.pos, m1.caps + m2.caps)
  }

  // ----- choices -----

  lemma TestChoiceSplit(code: Code, pc: int, cs1: Charset, g1: Code, emptyP2: bool, g2: Code)
    requires At(code, pc, TestChoiceCode(cs1, g1, emptyP2, g2))
    ensures var skip := if emptyP2 then [] else Jump(IJmp, 2 + |g2|);
            var l0 := pc + TestSize(cs1);
            && At(code, pc, OptTestCode(cs1, false, |g1| + |skip|))
            && At(code, l0, g1)
            && At(code, l0 + |g1|, skip)
            && At(code, l0 + |g1| + |skip|, g2)
  {
    hide At;
    var skip := if emptyP2 then [] else Jump(IJmp, 2 + |g2|);
    var test := OptTestCode(cs1, false, |g1| + |skip|);
    AtSplit(code, pc, test + g1 + skip, g2);
    AtSplit(code, pc, test + g1, skip);
    AtSplit(code, pc, test, g1);
  }

  lemma TestChoiceRuns(code: Code, s: Subject, pc: int, cs1: Charset, g1: Code, emptyP2: bool, g2: Code, m1: Match,
                       m2: Match, opt: bool, fl: Charset, i: nat, stack: Stack, caps: seq<Capture>)
    requires At(code, pc, TestChoiceCode(cs1, g1, emptyP2, g2)) && (emptyP2 ==> g2 == [])
    requires i <= |s| && (m1.Success? ==> m1.pos <= |s|) && (opt ==> ChoiceOnTop(stack))
    requires var l0 := pc + TestSize(cs1);
             var l1 := l0 + |g1| + if emptyP2 then 0 else 2;
             if HeadIn(s, i, cs1) then
               && Outcome(code, s, Running(l0, i, stack, caps), m1, l0 + |g1|, false, fl, stack, caps)
               && (m1.Failure? && m2.Success? ==> Outside(s, m2.pos, fl))
             else
               && m1.Failure?
               && Outcome(code, s, Running(l1, i, stack, caps), m2, l1 + |g2|, opt, fl, stack, caps)
    ensures Outcome(code, s, Running(pc, i, stack, caps), if m1.Success? then m1 else m2,
                    pc + |TestChoiceCode(cs1, g1, emptyP2, g2)|, opt, fl, stack, caps)
  {
    hide Reach, At, TestCode, Classify, Flatten, Backtrack, LevelOk;
    TestChoiceSplit(code, pc, cs1, g1, emptyP2, g2);
    var skip := if emptyP2 then [] else Jump(IJmp, 2 + |g2|);
    var l0 := pc + TestSize(cs1);
    var l1 := l0 + |g1| + |skip|;
    var end := l1 + |g2|;
    var from := Running(pc, i, stack, caps);
    TestReach(code, s, pc, cs1, false, |g1| + |skip|, i, stack, caps);
    if !HeadIn(s, i, cs1) {
      OutcomeFrom(code, s, from, Running(l1, i, stack, caps), m2, end, opt, fl, stack, caps);
    } else {
      OutcomeFrom(code, s, from, Running(l0, i, stack, caps), m1, l0 + |g1|, false, fl, stack, caps);
      if m1.Success? && Done(code, s, from, l0 + |g1|, m1.pos, false, stack, caps + Flatten(m1.caps)) {
        var caps1 := caps + Flatten(m1.caps);
        if !emptyP2 {
          JumpReach(code, s, l0 + |g1|, IJmp, 2 + |g2|, m1.pos, stack, caps1);
          ReachTrans(code, s, from, Running(l0 + |g1|, m1.pos, stack, caps1), Running(end, m1.pos, stack, caps1));
        }
        ReachedIsDone(code, s, from, end, m1.pos, opt, stack, caps1);
      }
    }
  }

  /** p1? inside an optional pattern: the choice already made is moved up to here. */
  lemma OptionalRuns(code: Code, s: Subject, pc: int, g1: Code, m1: Match, fl: Charset, i: nat, stack: Stack,
                     caps: seq<Capture>)
    requires At(code, pc, OptionalCode(g1)) && i <= |s| && ChoiceOnTop(stack)
    requires var stack1 := Push(Choice(stack.top.p, i, |caps|), stack.rest);
             Outcome(code, s, Running(pc + 2, i, stack1, caps), m1, pc + 2 + |g1|, true, FULLSET, stack1, caps)
    ensures Outcome(code, s, Running(pc, i, stack, caps), if m1.Success? then m1 else Success(i, []),
                    pc + |OptionalCode(g1)|, true, fl, stack, caps)
  {
    hide Reach, At, Backtrack, Flatten, LevelOk;
    AtSplit(code, pc, Jump(IPartialCommit, 2), g1);
    JumpReach(code, s, pc, IPartialCommit, 2, i, stack, caps);
    var from := Running(pc, i, stack, caps);
    var stack1 := Push(Choice(stack.top.p, i, |caps|), stack.rest);
    OutcomeFrom(code, s, from, Running(pc + 2, i, stack1, caps), m1, pc + 2 + |g1|, true, FULLSET, stack1, caps);
    if m1.Failure? {
      BacktrackToTop(stack.top.p, i, stack.rest, caps);
      FlattenNone(caps);
    } else {
      FullNeverOutside(s, m1.pos);
    }
  }

  lemma ChoiceSplit(code: Code, pc: int, cs1: Charset, e1: bool, g1: Code, g2: Code)
    requires At(code, pc, ChoiceCode(cs1, e1, g1, g2))
    ensures var l0 := pc + |OptTestCode(cs1, e1, 2 + |g1| + 2)|;
            && At(code, pc, OptTestCode(cs1, e1, 2 + |g1| + 2))
            && At(code, l0, Jump(IChoice, 2 + |g1| + 2))
            && At(code, l0 + 2, g1)
            && At(code, l0 + 2 + |g1|, Jump(ICommit, 2 + |g2|))
            && At(code, l0 + 2 + |g1| + 2, g2)
  {
    hide At, OptTestCode, TestCode;
    var test := OptTestCode(cs1, e1, 2 + |g1| + 2);
    var choice, commit := Jump(IChoice, 2 + |g1| + 2), Jump(ICommit, 2 + |g2|);
    AtSplit(code, pc, test + choice + g1 + commit, g2);
    AtSplit(code, pc, test + choice + g1, commit);
    AtSplit(code, pc, test + choice, g1);
    AtSplit(code, pc, test, choice);
  }

  lemma ChoiceRuns(code: Code, s: Subject, pc: int, cs1: Charset, e1: bool, g1: Code, emptyP2: bool, g2: Code,
                   m1: Match, m2: Match, opt: bool, fl: Charset, i: nat, stack: Stack, caps: seq<Capture>)
    requires At(code, pc, ChoiceCode(cs1, e1, g1, g2)) && (emptyP2 ==> g2 == [])
    requires i <= |s| && (m1.Success? ==> m1.pos <= |s|) && (opt ==> ChoiceOnTop(stack))
    requires var l0 := pc + |OptTestCode(cs1, e1, 2 + |g1| + 2)|;
             var l1 := l0 + 2 + |g1| + 2;
             var stack1 := Push(Choice(l1, i, |caps|), stack);
             && (if e1 || HeadIn(s, i, cs1) then
                   Outcome(code, s, Running(l0 + 2, i, stack1, caps), m1, l0 + 2 + |g1|, emptyP2, FULLSET, stack1, caps)
                 else m1.Failure?)
             && (m1.Failure? ==> Outcome(code, s, Running(l1, i, stack, caps), m2, l1 + |g2|, opt, fl, stack, caps))
    ensures Outcome(code, s, Running(pc, i, stack, caps), if m1.Success? then m1 else m2,
                    pc + |ChoiceCode(cs1, e1, g1, g2)|, opt, fl, stack, caps)
  {
    hide Reach, At, OptTestCode, TestCode, Classify, Flatten, Backtrack, LevelOk;
    ChoiceSplit(code, pc, cs1, e1, g1, g2);
    var l0 := pc + |OptTestCode(cs1, e1, 2 + |g1| + 2)|;
    var l1 := l0 + 2 + |g1| + 2;
    var end := l1 + |g2|;
    var from := Running(pc, i, stack, caps);
    TestReach(code, s, pc, cs1, e1, 2 + |g1| + 2, i, stack, caps);
    if e1 || HeadIn(s, i, cs1) {
      var stack1 := Push(Choice(l1, i, |caps|), stack);
      JumpReach(code, s, l0, IChoice, 2 + |g1| + 2, i, stack, caps);
      ReachTrans(code, s, from, Running(l0, i, stack, caps), Running(l0 + 2, i, stack1, caps));
      OutcomeFrom(code, s, from, Running(l0 + 2, i, stack1, caps), m1, l0 + 2 + |g1|, emptyP2, FULLSET, stack1, caps);
      if m1.Success? {
        FullNeverOutside(s, m1.pos);
        CommitReach(code, s, from, l0 + 2 + |g1|, 2 + |g2|, m1.pos, emptyP2, stack1, caps + Flatten(m1.caps));
        ReachedIsDone(code, s, from, end, m1.pos, opt, stack, caps + Flatten(m1.caps));
        return;
      }
      BacktrackToTop(l1, i, stack, caps);
    }
    OutcomeFrom(code, s, from, Running(l1, i, stack, caps), m2, end, opt, fl, stack, caps);
  }

  /** After a commit it makes no difference how the optional code succeeded. */
  lemma CommitReach(code: Code, s: Subject, from: State, end: int, off: int, j: nat, opt: bool, stack: Stack,
                    caps: seq<Capture>)
    requires Done(code, s, from, end, j, opt, stack, caps) && j <= |s|
    requires At(code, end, Jump(ICommit, off)) && ChoiceOnTop(stack)
    requires opt ==> stack.top.p == end + off
    ensures Reach(code, s, from, Running(end + off, j, stack.rest, caps))
  {
    hide Reach;
    var to := Running(end + off, j, stack.rest, caps);
    if Reach(code, s, from, Running(end, j, stack, caps)) {
      JumpReach(code, s, end, ICommit, off, j, stack, caps);
      ReachTrans(code, s, from, Running(end, j, stack, caps), to);
    } else if !Reach(code, s, from, to) {
      var e: Entry :| e.Choice? && e.p == stack.top.p
        && Reach(code, s, from, Running(end, j, Push(e, stack.rest), caps));
      JumpReach(code, s, end, ICommit, off, j, Push(e, stack.rest), caps);
      ReachTrans(code, s, from, Running(end, j, Push(e, stack.rest), caps), to);
    }
  }

  // ----- repetitions -----

  lemma TestRepSplit(code: Code, pc: int, st: Charset, g: Code)
    requires At(code, pc, TestRepCode(st, g))
    ensures && At(code, pc, OptTestCode(st, false, |g| + 2))
            && At(code, pc + TestSize(st), g)
            && At(code, pc + TestSize(st) + |g|, Jump(IJmp, -(TestSize(st) + |g|)))
  {
    hide At;
    var test := OptTestCode(st, false, |g| + 2);
    AtSplit(code, pc, test + g, Jump(IJmp, -(TestSize(st) + |g|)));
    AtSplit(code, pc, test, g);
  }

  /** One turn of the test loop: leave at the test, give up, or match the body and come back
      to the test ('rest' is the meaning of the repetition from there). */
  lemma TestRepTurn(code: Code, s: Subject, pc: int, st: Charset, g: Code, m: Match, rest: Match, fl: Charset, i: nat,
                    stack: Stack, caps: seq<Capture>)
    requires At(code, pc, TestRepCode(st, g)) && i <= |s| && (m.Success? ==> m.pos <= |s|) && LevelOk(stack, |caps|)
    requires var l0 := pc + TestSize(st);
             if HeadIn(s, i, st) then
               && Outcome(code, s, Running(l0, i, stack, caps), m, l0 + |g|, false, FULLSET, stack, caps)
               && (m.Failure? ==> Outside(s, i, fl))
             else
               m.Failure?
    requires m.Success? ==>
               var caps1 := caps + Flatten(m.caps);
               Outcome(code, s, Running(pc, m.pos, stack, caps1), rest, pc + |TestRepCode(st, g)|, false, fl, stack,
                 caps1)
    ensures Outcome(code, s, Running(pc, i, stack, caps), if m.Success? then Then(m, rest) else Success(i, []),
                    pc + |TestRepCode(st, g)|, false, fl, stack, caps)
  {
    hide Reach, At, TestCode, Classify, Flatten, Backtrack, LevelOk;
    TestRepSplit(code, pc, st, g);
    var l0 := pc + TestSize(st);
    var from := Running(pc, i, stack, caps);
    TestReach(code, s, pc, st, false, |g| + 2, i, stack, caps);
    FlattenNone(caps);
    if HeadIn(s, i, st) {
      OutcomeFrom(code, s, from, Running(l0, i, stack, caps), m, l0 + |g|, false, FULLSET, stack, caps);
      if m.Success? {
        FullNeverOutside(s, m.pos);
        var caps1 := caps + Flatten(m.caps);
        JumpReach(code, s, l0 + |g|, IJmp, -(TestSize(st) + |g|), m.pos, stack, caps1);
        ReachTrans(code, s, from, Running(l0 + |g|, m.pos, stack, caps1), Running(pc, m.pos, stack, caps1));
        SeqOutcome(code, s, from, pc, m, rest, pc + |TestRepCode(st, g)|, false, fl, stack, caps);
      }
    }
  }

  lemma RepSplit(code: Code, pc: int, st: Charset, e1: bool, opt: bool, g: Code)
    requires At(code, pc, RepCode(st, e1, opt, g))
    ensures var l0 := pc + |OptTestCode(st, e1, 2 + |g| + 2)|;
            && At(code, pc, OptTestCode(st, e1, 2 + |g| + 2))
            && At(code, l0, if opt then Jump(IPartialCommit, 2) else Jump(IChoice, 2 + |g| + 2))
            && At(code, l0 + 2, g)
            && At(code, l0 + 2 + |g|, Jump(IPartialCommit, -|g|))
  {
    hide At, OptTestCode, TestCode;
    var test := OptTestCode(st, e1, 2 + |g| + 2);
    var enter := if opt then Jump(IPartialCommit, 2) else Jump(IChoice, 2 + |g| + 2);
    AtSplit(code, pc, test + enter + g, Jump(IPartialCommit, -|g|));
    AtSplit(code, pc, test + enter, g);
    AtSplit(code, pc, test, enter);
  }

  /** Where the loop of a repetition is left to, and what is then on the stack. */
  function RepExit(opt: bool, stack: Stack, end: int): (int, Stack)
    requires opt ==> ChoiceOnTop(stack)
  {
    if opt then (stack.top.p, stack.rest) else (end, stack)
  }

  /** Entering the loop of a repetition, given what the loop does ('m'). */
  lemma RepEnters(code: Code, s: Subject, pc: int, st: Charset, e1: bool, opt: bool, g: Code, m: Match, fl: Charset,
                  i: nat, stack: Stack, caps: seq<Capture>)
    requires At(code, pc, RepCode(st, e1, opt, g)) && i <= |s| && m.Success? && (opt ==> ChoiceOnTop(stack))
    requires var l1 := pc + |OptTestCode(st, e1, 2 + |g| + 2)| + 2;
             var (exit, below) := RepExit(opt, stack, l1 + |g| + 2);
             if e1 || HeadIn(s, i, st) then
               Reach(code, s, Running(l1, i, Push(Choice(exit, i, |caps|), below), caps),
                     Running(exit, m.pos, below, caps + Flatten(m.caps)))
             else
               m == Success(i, [])
    ensures Outcome(code, s, Running(pc, i, stack, caps), m, pc + |RepCode(st, e1, opt, g)|, opt, fl, stack, caps)
  {
    hide Reach, At, OptTestCode, TestCode, Classify, Flatten, Backtrack, LevelOk;
    RepSplit(code, pc, st, e1, opt, g);
    var from := Running(pc, i, stack, caps);
    var l0 := pc + |OptTestCode(st, e1, 2 + |g| + 2)|;
    var l1, l2 := l0 + 2, l0 + 2 + |g| + 2;
    TestReach(code, s, pc, st, e1, 2 + |g| + 2, i, stack, caps);
    if e1 || HeadIn(s, i, st) {
      var (exit, below) := RepExit(opt, stack, l2);
      var inside := Running(l1, i, Push(Choice(exit, i, |caps|), below), caps);
      JumpReach(code, s, l0, if opt then IPartialCommit else IChoice, if opt then 2 else 2 + |g| + 2, i, stack, caps);
      ReachTrans(code, s, from, Running(l0, i, stack, caps), inside);
      ReachTrans(code, s, from, inside, Running(exit, m.pos, below, caps + Flatten(m.caps)));
    } else {
      FlattenNone(caps);
      ReachedIsDone(code, s, from, l2, i, opt, stack, caps);
    }
  }

  /** One turn of L1: p1; partialcommit L1. The body fails to the choice on top, which each
      turn moves to the position reached. */
  lemma RepTurn(code: Code, s: Subject, l1: int, g: Code, m: Match, rest: Match, exit: int, i: nat, below: Stack,
                caps: seq<Capture>)
    requires At(code, l1 + |g|, Jump(IPartialCommit, -|g|)) && i <= |s| && (m.Success? ==> m.pos <= |s|)
    requires var stack := Push(Choice(exit, i, |caps|), below);
             Outcome(code, s, Running(l1, i, stack, caps), m, l1 + |g|, false, FULLSET, stack, caps)
    requires m.Success? ==>
               && rest.Success?
               && var caps1 := caps + Flatten(m.caps);
                  Reach(code, s, Running(l1, m.pos, Push(Choice(exit, m.pos, |caps1|), below), caps1),
                        Running(exit, rest.pos, below, caps1 + Flatten(rest.caps)))
    ensures var all := if m.Success? then Then(m, rest) else Success(i, []);
            && all.Success?
            && Reach(code, s, Running(l1, i, Push(Choice(exit, i, |caps|), below), caps),
                     Running(exit, all.pos, below, caps + Flatten(all.caps)))
  {
    hide Reach, At, TestCode, Classify, Flatten, Backtrack, LevelOk;
    var stack := Push(Choice(exit, i, |caps|), below);
    var from := Running(l1, i, stack, caps);
    if m.Failure? {
      BacktrackToTop(exit, i, below, caps);
      FlattenNone(caps);
    } else {
      FullNeverOutside(s, m.pos);
      var caps1 := caps + Flatten(m.caps);
      var again := Running(l1, m.pos, Push(Choice(exit, m.pos, |caps1|), below), caps1);
      JumpReach(code, s, l1 + |g|, IPartialCommit, -|g|, m.pos, stack, caps1);
      ReachTrans(code, s, from, Running(l1 + |g|, m.pos, stack, caps1), again);
      FlattenTwice(caps, m.caps, rest.caps);
      ReachTrans(code, s, from, again, Running(exit, rest.pos, below, caps1 + Flatten(rest.caps)));
    }
  }

  // ----- predicates -----

  lemma NotSplit(code: Code, pc: int, st: Charset, e: bool, headFail: bool, g: Code)
    requires At(code, pc, NotCode(st, e, headFail, g))
    ensures var after := if headFail then 1 else 2 + |g| + 1;
            var l0 := pc + |OptTestCode(st, e, after)|;
            && At(code, pc, OptTestCode(st, e, after))
            && (headFail ==> At(code, l0, Code1(IFail, 0)))
            && (!headFail ==>
                  && At(code, l0, Jump(IChoice, 2 + |g| + 1))
                  && At(code, l0 + 2, g)
                  && At(code, l0 + 2 + |g|, Code1(IFailTwice, 0)))
  {
    hide At, OptTestCode, TestCode;
    if headFail {
      AtSplit(code, pc, OptTestCode(st, e, 1), Code1(IFail, 0));
    } else {
      var test, choice := OptTestCode(st, e, 2 + |g| + 1), Jump(IChoice, 2 + |g| + 1);
      AtSplit(code, pc, test + choice + g, Code1(IFailTwice, 0));
      AtSplit(code, pc, test + choice, g);
      AtSplit(code, pc, test, choice);
    }
  }

  lemma NotRuns(code: Code, s: Subject, pc: int, st: Charset, e: bool, headFail: bool, g: Code, m: Match, fl: Charset,
                i: nat, stack: Stack, caps: seq<Capture>)
    requires At(code, pc, NotCode(st, e, headFail, g)) && i <= |s| && (m.Success? ==> m.pos <= |s|)
    requires LevelOk(stack, |caps|)
    requires !(e || HeadIn(s, i, st)) ==> m.Failure?
    requires (e || HeadIn(s, i, st)) && headFail ==> m.Success?
    requires (e || HeadIn(s, i, st)) && !headFail ==>
               var l1 := pc + |OptTestCode(st, e, 2 + |g| + 1)| + 2;
               var stack1 := Push(Choice(l1 + |g| + 1, i, |caps|), stack);
               Outcome(code, s, Running(l1, i, stack1, caps), m, l1 + |g|, false, FULLSET, stack1, caps)
    ensures Outcome(code, s, Running(pc, i, stack, caps), if m.Success? then Failure else Success(i, []),
                    pc + |NotCode(st, e, headFail, g)|, false, fl, stack, caps)
  {
    hide Reach, At, OptTestCode, TestCode, Classify, Flatten, Backtrack, LevelOk;
    NotSplit(code, pc, st, e, headFail, g);
    var after := if headFail then 1 else 2 + |g| + 1;
    var from := Running(pc, i, stack, caps);
    var l0 := pc + |OptTestCode(st, e, after)|;
    var end := l0 + after;
    TestReach(code, s, pc, st, e, after, i, stack, caps);
    FlattenNone(caps);
    if e || HeadIn(s, i, st) {
      if headFail {
        FailReach(code, s, l0, i, stack, caps);
        ReachTrans(code, s, from, Running(l0, i, stack, caps), Backtrack(stack, caps));
      } else {
        var stack1 := Push(Choice(end, i, |caps|), stack);
        JumpReach(code, s, l0, IChoice, 2 + |g| + 1, i, stack, caps);
        ReachTrans(code, s, from, Running(l0, i, stack, caps), Running(l0 + 2, i, stack1, caps));
        OutcomeFrom(code, s, from, Running(l0 + 2, i, stack1, caps), m, l0 + 2 + |g|, false, FULLSET, stack1, caps);
        if m.Success? {
          FullNeverOutside(s, m.pos);
          var caps1 := caps + Flatten(m.caps);
          FailTwiceReach(code, s, l0 + 2 + |g|, m.pos, stack1.top, stack, caps1);
          BacktrackDropsCaptures(stack, caps, Flatten(m.caps));
          ReachTrans(code, s, from, Running(l0 + 2 + |g|, m.pos, stack1, caps1), Backtrack(stack, caps));
        } else {
          BacktrackToTop(end, i, stack, caps);
        }
      }
    }
  }

  /** A predicate of fixed length without captures: match it and walk back. */
  lemma AndBehindRuns(code: Code, s: Subject, pc: int, g: Code, n: nat, m: Match, fl: Charset, i: nat, stack: Stack,
                      caps: seq<Capture>)
    requires At(code, pc, g + BehindCode(n)) && (m.Success? ==> m == Success(i + n, []) && i + n <= |s|)
    requires Outcome(code, s, Running(pc, i, stack, caps), m, pc + |g|, false, FULLSET, stack, caps)
    ensures Outcome(code, s, Running(pc, i, stack, caps), if m.Success? then Success(i, []) else Failure,
                    pc + |g + BehindCode(n)|, false, fl, stack, caps)
  {
    hide Reach, At, Backtrack, Flatten, LevelOk;
    AtSplit(code, pc, g, BehindCode(n));
    if m.Success? {
      FullNeverOutside(s, m.pos);
      FlattenNone(caps);
      BehindReach(code, s, pc + |g|, n, i + n, stack, caps);
      ReachTrans(code, s, Running(pc, i, stack, caps), Running(pc + |g|, i + n, stack, caps),
                 Running(pc + |g| + |BehindCode(n)|, i, stack, caps));
    }
  }

  lemma AndSplit(code: Code, pc: int, g: Code)
    requires At(code, pc, AndCode(g))
    ensures && At(code, pc, Jump(IChoice, 2 + |g| + 2))
            && At(code, pc + 2, g)
            && At(code, pc + 2 + |g|, Jump(IBackCommit, 2 + 1))
            && At(code, pc + 2 + |g| + 2, Code1(IFail, 0))
  {
    var choice, back := Jump(IChoice, 2 + |g| + 2), Jump(IBackCommit, 2 + 1);
    AtSplit(code, pc, choice + g + back, Code1(IFail, 0));
    AtSplit(code, pc, choice + g, back);
    AtSplit(code, pc, choice, g);
  }

  lemma AndRuns(code: Code, s: Subject, pc: int, g: Code, m: Match, fl: Charset, i: nat, stack: Stack,
                caps: seq<Capture>)
    requires At(code, pc, AndCode(g)) && i <= |s| && (m.Success? ==> m.pos <= |s|) && LevelOk(stack, |caps|)
    requires var stack1 := Push(Choice(pc + 2 + |g| + 2, i, |caps|), stack);
             Outcome(code, s, Running(pc + 2, i, stack1, caps), m, pc + 2 + |g|, false, FULLSET, stack1, caps)
    ensures Outcome(code, s, Running(pc, i, stack, caps), if m.Success? then Success(i, []) else Failure,
                    pc + |AndCode(g)|, false, fl, stack, caps)
  {
    hide Reach, At, Backtrack, Flatten, LevelOk;
    AndSplit(code, pc, g);
    var from := Running(pc, i, stack, caps);
    var l1 := pc + 2 + |g| + 2;
    var stack1 := Push(Choice(l1, i, |caps|), stack);
    JumpReach(code, s, pc, IChoice, 2 + |g| + 2, i, stack, caps);
    OutcomeFrom(code, s, from, Running(pc + 2, i, stack1, caps), m, pc + 2 + |g|, false, FULLSET, stack1, caps);
    if m.Success? {
      FullNeverOutside(s, m.pos);
      FlattenNone(caps);
      BackCommitReach(code, s, pc + 2 + |g|, 2 + 1, m.pos, l1, i, stack, caps, Flatten(m.caps));
      ReachTrans(code, s, from, Running(pc + 2 + |g|, m.pos, stack1, caps + Flatten(m.caps)),
        Running(l1 + 1, i, stack, caps));
    } else {
      BacktrackToTop(l1, i, stack, caps);
      FailReach(code, s, l1, i, stack, caps);
      ReachTrans(code, s, from, Running(l1, i, stack, caps), Backtrack(stack, caps));
    }
  }

  lemma BehindRuns(code: Code, s: Subject, pc: int, n: nat, g: Code, m: Match, fl: Charset, i: nat, stack: Stack,
                   caps: seq<Capture>)
    requires At(code, pc, BehindCode(n) + g) && i <= |s| && (n > i ==> m.Failure?)
    requires m.Success? ==> m == Success(i, [])
    requires n <= i ==>
               var l0 := pc + |BehindCode(n)|;
               Outcome(code, s, Running(l0, i - n, stack, caps), m, l0 + |g|, false, FULLSET, stack, caps)
    ensures Outcome(code, s, Running(pc, i, stack, caps), m, pc + |BehindCode(n) + g|, false, fl, stack, caps)
  {
    hide Reach, At, Backtrack, Flatten, LevelOk;
    AtSplit(code, pc, BehindCode(n), g);
    BehindReach(code, s, pc, n, i, stack, caps);
    if n <= i {
      var l0 := pc + |BehindCode(n)|;
      OutcomeFrom(code, s, Running(pc, i, stack, caps), Running(l0, i - n, stack, caps), m, l0 + |g|, false, FULLSET,
                  stack, caps);
      FullNeverOutside(s, i);
    }
  }

  // ----- captures -----

  lemma FullCaptureRuns(code: Code, s: Subject, pc: int, g: Code, kind: nat, key: nat, n: nat, m: Match, fl: Charset,
                        i: nat, stack: Stack, caps: seq<Capture>)
    requires At(code, pc, g + CaptureCode(IFullCapture, kind, key, n)) && kind < 16 && n <= MAXOFF
    requires m.Success? ==> m == Success(i + n, []) && i + n <= |s|
    requires Outcome(code, s, Running(pc, i, stack, caps), m, pc + |g|, false, fl, stack, caps)
    ensures Outcome(code, s, Running(pc, i, stack, caps), Wrap(kind, key, i, m),
                    pc + |g + CaptureCode(IFullCapture, kind, key, n)|, false, fl, stack, caps)
  {
    hide Reach, At, Backtrack, Flatten, LevelOk;
    var full := CaptureCode(IFullCapture, kind, key, n);
    AtSplit(code, pc, g, full);
    var from := Running(pc, i, stack, caps);
    FlattenNone(caps);
    if m.Success? && Done(code, s, from, pc + |g|, m.pos, false, stack, caps + Flatten(m.caps)) {
      FlattenSingle(CapTree(kind, key, i, m.pos, []));
      var mid, to := Running(pc + |g|, i + n, stack, caps),
                     Running(pc + |g| + 1, i + n, stack, caps + [Capture(i, key, kind, n + 1)]);
      FullReach(code, s, pc + |g|, kind, key, n, i + n, stack, caps);
      ReachTrans(code, s, from, mid, to);
    }
  }

  /** The result of a capture around a match. */
  function Wrap(kind: nat, key: nat, i: nat, m: Match): Match {
    if m.Failure? then Failure else Success(m.pos, [CapTree(kind, key, i, m.pos, m.caps)])
  }

  lemma EnclosedSplit(code: Code, pc: int, kind: nat, key: nat, g: Code)
    requires At(code, pc, EnclosedCode(kind, key, g))
    ensures && At(code, pc, CaptureCode(IOpenCapture, kind, key, 0))
            && At(code, pc + 1, g)
            && At(code, pc + 1 + |g|, CaptureCode(ICloseCapture, CCLOSE, 0, 0))
  {
    var open, close := CaptureCode(IOpenCapture, kind, key, 0), CaptureCode(ICloseCapture, CCLOSE, 0, 0);
    AtSplit(code, pc, open + g, close);
    AtSplit(code, pc, open, g);
  }

  lemma CaptureRuns(code: Code, s: Subject, pc: int, g: Code, kind: nat, key: nat, m: Match, fl: Charset, i: nat,
                    stack: Stack, caps: seq<Capture>)
    requires At(code, pc, EnclosedCode(kind, key, g)) && kind < 16
    requires i <= |s| && (m.Success? ==> i <= m.pos <= |s| && AllProper(m.caps)) && LevelOk(stack, |caps|)
    requires kind != CCLOSE
    requires var caps1 := caps + [Capture(i, key, kind, 0)];
             Outcome(code, s, Running(pc + 1, i, stack, caps1), m, pc + 1 + |g|, false, fl, stack, caps1)
    ensures Outcome(code, s, Running(pc, i, stack, caps), Wrap(kind, key, i, m),
                    pc + |EnclosedCode(kind, key, g)|, false, fl, stack, caps)
  {
    hide Reach, At, Backtrack, Flatten, LevelOk, FlattenOne;
    EnclosedSplit(code, pc, kind, key, g);
    var from := Running(pc, i, stack, caps);
    var caps1 := caps + [Capture(i, key, kind, 0)];
    var inside := Running(pc + 1, i, stack, caps1);
    OpenReach(code, s, pc, kind, key, i, stack, caps);
    OutcomeFrom(code, s, from, inside, m, pc + 1 + |g|, false, fl, stack, caps1);
    BacktrackDropsCaptures(stack, caps, [Capture(i, key, kind, 0)]);
    if m.Success? && Done(code, s, from, pc + 1 + |g|, m.pos, false, stack, caps1 + Flatten(m.caps)) {
      var made := CapTree(kind, key, i, m.pos, m.caps);
      FlattenSingle(made);
      var mid, to := Running(pc + 1 + |g|, m.pos, stack, caps1 + Flatten(m.caps)),
                     Running(pc + |g| + 2, m.pos, stack, caps + FlattenOne(made));
      CloseMakesOne(caps, kind, key, i, m);
      OpenIsOurs(caps, kind, key, i, m, stack);
      CloseReach(code, s, pc + 1 + |g|, m.pos, stack, mid.caps);
      ReachTrans(code, s, from, mid, to);
    }
  }

  /** The capture being closed was opened before what was captured since, and after every choice that is left. */
  lemma OpenIsOurs(caps: seq<Capture>, kind: nat, key: nat, i: nat, m: Match, stack: Stack)
    requires m.Success? && AllProper(m.caps) && kind != CCLOSE && LevelOk(stack, |caps|)
    ensures ClosesSafely(stack, caps + [Capture(i, key, kind, 0)] + Flatten(m.caps))
  {
    var all := caps + [Capture(i, key, kind, 0)] + Flatten(m.caps);
    assert all[|caps| + 1..] == Flatten(m.caps) && all[|caps|] == Capture(i, key, kind, 0);
    OpenBefore(all, |caps|, m.caps);
  }

  /** Closing turns the open entry and what was captured since into one flattened capture:
      the entry closed in place is always the matching open one. */
  lemma CloseMakesOne(caps: seq<Capture>, kind: nat, key: nat, i: nat, m: Match)
    requires m.Success? && i <= m.pos
    ensures var all := caps + [Capture(i, key, kind, 0)] + Flatten(m.caps);
            && !OpensAfter(all, m.pos)
            && CloseCapture(all, m.pos, CCLOSE, 0) == caps + FlattenOne(CapTree(kind, key, i, m.pos, m.caps))
  {
    var all := caps + [Capture(i, key, kind, 0)] + Flatten(m.caps);
    if m.caps == [] {
      assert all == caps + [Capture(i, key, kind, 0)];
    } else {
      LastIsClosed(m.caps);
      assert all[|all| - 1] == Flatten(m.caps)[|Flatten(m.caps)| - 1];
    }
  }
}
