/** The compiler as it works: a growing code array whose offsets are patched in place. */
module Compiler {
  import opened PegTree
  import opened Analyses
  import opened Machine
  import opened CaptureSearch
  import opened CodeGen
  import opened Fragments
  import opened Simulation
  import opened Peephole
  import opened Layouts

  const NOINST := -1

  /** The test for a set before its offset is known. */
  function OpenTest(cs: Charset): (r: Code)
    ensures |r| == TestSize(cs)
  {
    TestCode(cs, 0)[1 := Offset(0)]
  }

  function OpenJump(op: Opcode): Code {
    Jump(op, 0)
  }

  /** Patching a test to jump to the end of the code. */
  lemma ResolveTest(pre: Code, cs: Charset, e: bool, post: Code)
    ensures var open := if e then [] else OpenTest(cs);
            var code := pre + open + post;
            (if e then code else Relabel(code, |pre|, |code|)) == pre + OptTestCode(cs, e, |post|) + post
  {
    if !e {
      TestPatched(cs, |post|);
      PatchMiddle(pre, OpenTest(cs), post, 1, Offset(TestSize(cs) + |post|));
    }
  }

  /** Patching a jump at the end of 'pre' to lead to 'to'. */
  lemma ResolveJump(pre: Code, op: Opcode, post: Code, to: int)
    ensures Relabel(pre + OpenJump(op) + post, |pre|, to) == pre + Jump(op, to - |pre|) + post
  {
    PatchMiddle(pre, OpenJump(op), post, 1, Offset(to - |pre|));
  }

  lemma TestPatched(cs: Charset, after: nat)
    ensures OpenTest(cs)[1 := Offset(TestSize(cs) + after)] == TestCode(cs, after)
  {
  }

  lemma PatchMiddle(pre: Code, mid: Code, post: Code, k: nat, v: Slot)
    requires k < |mid|
    ensures (pre + mid + post)[|pre| + k := v] == pre + mid[k := v] + post
  {
  }

  // ----- appending and patching, as the code generator does it, gives the code wanted -----

  lemma AssembleTestChoice(c0: Code, cs1: Charset, g1: Code, emptyP2: bool, g2: Code)
    ensures var code1 := c0 + OpenTest(cs1) + g1 + if emptyP2 then [] else OpenJump(IJmp);
            var code2 := Relabel(code1, |c0|, |code1|) + g2;
            (if emptyP2 then code2 else Relabel(code2, |code1| - 2, |code2|)) ==
            c0 + TestChoiceCode(cs1, g1, emptyP2, g2)
  {
    hide TestCode, OpenTest, Relabel, TestChoiceCode;
    var open := if emptyP2 then [] else OpenJump(IJmp);
    AssembleTest(c0, cs1, g1, open, g2);
    var c1 := c0 + TestCode(cs1, |g1| + |open|) + g1;
    ResolveJump(c1, IJmp, g2, |c1| + 2 + |g2|);
    TestChoiceAppended(c0, cs1, g1, emptyP2, g2);
  }

  lemma AssembleTest(c0: Code, cs: Charset, g: Code, open: Code, more: Code)
    ensures var code := c0 + OpenTest(cs) + g + open;
            Relabel(code, |c0|, |code|) + more == c0 + TestCode(cs, |g| + |open|) + g + open + more
  {
    hide TestCode, OpenTest, Relabel;
    assert c0 + OpenTest(cs) + g + open == c0 + OpenTest(cs) + (g + open);
    ResolveTest(c0, cs, false, g + open);
  }

  lemma TestChoiceAppended(c0: Code, cs1: Charset, g1: Code, emptyP2: bool, g2: Code)
    ensures var skip := if emptyP2 then [] else Jump(IJmp, 2 + |g2|);
            c0 + TestCode(cs1, |g1| + |skip|) + g1 + skip + g2 == c0 + TestChoiceCode(cs1, g1, emptyP2, g2)
  {
    hide TestCode;
    var skip := if emptyP2 then [] else Jump(IJmp, 2 + |g2|);
    var test := TestCode(cs1, |g1| + |skip|);
    assert c0 + test + g1 + skip + g2 == c0 + (test + g1 + skip + g2);
  }

  lemma AssembleOptional(c0: Code)
    ensures var code1 := c0 + OpenJump(IPartialCommit);
            Relabel(code1, |c0|, |code1|) == c0 + Jump(IPartialCommit, 2)
  {
    hide Relabel;
    assert c0 + OpenJump(IPartialCommit) == c0 + OpenJump(IPartialCommit) + [];
    ResolveJump(c0, IPartialCommit, [], |c0| + 2);
    assert c0 + Jump(IPartialCommit, 2) + [] == c0 + Jump(IPartialCommit, 2);
  }

  lemma AssembleChoice(c0: Code, cs1: Charset, e1: bool, g1: Code, g2: Code)
    ensures var open := if e1 then [] else OpenTest(cs1);
            var code1 := c0 + open + OpenJump(IChoice) + g1 + OpenJump(ICommit);
            var code2 := Relabel(code1, |c0 + open|, |code1|);
            var code3 := (if e1 then code2 else Relabel(code2, |c0|, |code2|)) + g2;
            Relabel(code3, |code1| - 2, |code3|) == c0 + ChoiceCode(cs1, e1, g1, g2)
  {
    hide OptTestCode, TestCode, OpenTest, Relabel, ChoiceCode;
    var open := if e1 then [] else OpenTest(cs1);
    AssembleEnter(c0 + open, g1);
    var rest := Jump(IChoice, 2 + |g1| + 2) + g1 + OpenJump(ICommit);
    ResolveTest(c0, cs1, e1, rest);
    OptTestSize(cs1, e1, 2 + |g1| + 2);
    AssembleCommit(c0, cs1, e1, g1, g2);
  }

  lemma AssembleEnter(c1: Code, g1: Code)
    ensures var code1 := c1 + OpenJump(IChoice) + g1 + OpenJump(ICommit);
            Relabel(code1, |c1|, |code1|) == c1 + (Jump(IChoice, 2 + |g1| + 2) + g1 + OpenJump(ICommit))
  {
    hide Relabel;
    assert c1 + OpenJump(IChoice) + g1 + OpenJump(ICommit) == c1 + OpenJump(IChoice) + (g1 + OpenJump(ICommit));
    ResolveJump(c1, IChoice, g1 + OpenJump(ICommit), |c1| + 2 + |g1| + 2);
  }

  lemma AssembleCommit(c0: Code, cs1: Charset, e1: bool, g1: Code, g2: Code)
    ensures var choice := Jump(IChoice, 2 + |g1| + 2);
            var test := OptTestCode(cs1, e1, 2 + |g1| + 2);
            var code3 := c0 + test + (choice + g1 + OpenJump(ICommit)) + g2;
            Relabel(code3, |c0| + |test| + 2 + |g1|, |code3|) == c0 + ChoiceCode(cs1, e1, g1, g2)
  {
    hide OptTestCode, Relabel;
    var choice, commit := Jump(IChoice, 2 + |g1| + 2), Jump(ICommit, 2 + |g2|);
    var test := OptTestCode(cs1, e1, 2 + |g1| + 2);
    var c1 := c0 + test + choice + g1;
    assert c0 + test + (choice + g1 + OpenJump(ICommit)) + g2 == c1 + OpenJump(ICommit) + g2;
    ResolveJump(c1, ICommit, g2, |c1| + 2 + |g2|);
    assert c1 + commit + g2 == c0 + (test + choice + g1 + commit + g2);
  }

  lemma OptTestSize(cs: Charset, e: bool, after: nat)
    ensures |OptTestCode(cs, e, after)| == if e then 0 else |OpenTest(cs)|
  {
  }

  lemma AssembleAnd(c0: Code, g: Code)
    ensures var code1 := c0 + OpenJump(IChoice) + g + OpenJump(IBackCommit);
            var code2 := Relabel(code1, |c0|, |code1|) + Code1(IFail, 0);
            Relabel(code2, |code1| - 2, |code2|) == c0 + AndCode(g)
  {
    hide Relabel;
    assert c0 + OpenJump(IChoice) + g + OpenJump(IBackCommit) == c0 + OpenJump(IChoice) + (g + OpenJump(IBackCommit));
    ResolveJump(c0, IChoice, g + OpenJump(IBackCommit), |c0| + 2 + |g| + 2);
    var c1 := c0 + Jump(IChoice, 2 + |g| + 2) + g;
    assert c0 + Jump(IChoice, 2 + |g| + 2) + (g + OpenJump(IBackCommit)) + Code1(IFail, 0) ==
           c1 + OpenJump(IBackCommit) + Code1(IFail, 0);
    ResolveJump(c1, IBackCommit, Code1(IFail, 0), |c1| + 3);
  }

  lemma AssembleTestRep(c0: Code, st: Charset, g: Code)
    ensures var code1 := c0 + OpenTest(st) + g + OpenJump(IJmp);
            Relabel(Relabel(code1, |c0|, |code1|), |code1| - 2, |c0|) == c0 + TestRepCode(st, g)
  {
    hide TestCode, OpenTest, Relabel;
    assert c0 + OpenTest(st) + g + OpenJump(IJmp) == c0 + OpenTest(st) + (g + OpenJump(IJmp));
    ResolveTest(c0, st, false, g + OpenJump(IJmp));
    var c1 := c0 + TestCode(st, |g| + 2) + g;
    assert c0 + TestCode(st, |g| + 2) + (g + OpenJump(IJmp)) == c1 + OpenJump(IJmp) + [];
    ResolveJump(c1, IJmp, [], |c0|);
    assert c1 + Jump(IJmp, |c0| - |c1|) + [] == c0 + TestRepCode(st, g);
  }

  lemma AssembleRep(c0: Code, st: Charset, e1: bool, opt: bool, g: Code)
    ensures var c1 := c0 + if e1 then [] else OpenTest(st);
            var enter := if opt then Jump(IPartialCommit, 2) else OpenJump(IChoice);
            var code1 := c1 + enter + g + OpenJump(IPartialCommit);
            var code2 := Relabel(code1, |code1| - 2, |c1| + 2);
            var code3 := if opt then code2 else Relabel(code2, |c1|, |code2|);
            (if e1 then code3 else Relabel(code3, |c0|, |code3|)) == c0 + RepCode(st, e1, opt, g)
  {
    hide OptTestCode, TestCode, OpenTest, Relabel, LoopCode, RepCode;
    var open := if e1 then [] else OpenTest(st);
    AssembleLoop(c0 + open, opt, g);
    ResolveTest(c0, st, e1, LoopCode(opt, g));
    LoopIsRep(c0, st, e1, opt, g);
  }

  lemma LoopIsRep(c0: Code, st: Charset, e1: bool, opt: bool, g: Code)
    ensures |LoopCode(opt, g)| == 2 + |g| + 2
    ensures c0 + OptTestCode(st, e1, 2 + |g| + 2) + LoopCode(opt, g) == c0 + RepCode(st, e1, opt, g)
  {
    hide OptTestCode;
    var test := OptTestCode(st, e1, 2 + |g| + 2);
    assert test + LoopCode(opt, g) == RepCode(st, e1, opt, g);
  }

  /** A repetition without its test. */
  function LoopCode(opt: bool, g: Code): Code {
    (if opt then Jump(IPartialCommit, 2) else Jump(IChoice, 2 + |g| + 2)) + g + Jump(IPartialCommit, -|g|)
  }

  lemma AssembleLoop(c1: Code, opt: bool, g: Code)
    ensures var enter := if opt then Jump(IPartialCommit, 2) else OpenJump(IChoice);
            var code1 := c1 + enter + g + OpenJump(IPartialCommit);
            var code2 := Relabel(code1, |code1| - 2, |c1| + 2);
            (if opt then code2 else Relabel(code2, |c1|, |code2|)) == c1 + LoopCode(opt, g)
  {
    hide Relabel;
    var enter := if opt then Jump(IPartialCommit, 2) else OpenJump(IChoice);
    var back := Jump(IPartialCommit, -|g|);
    assert c1 + enter + g + OpenJump(IPartialCommit) == (c1 + enter + g) + OpenJump(IPartialCommit) + [];
    ResolveJump(c1 + enter + g, IPartialCommit, [], |c1| + 2);
    assert (c1 + enter + g) + back + [] == c1 + enter + (g + back);
    ResolveJump(c1, IChoice, g + back, |c1| + 2 + |g| + 2);
    var entered := if opt then Jump(IPartialCommit, 2) else Jump(IChoice, 2 + |g| + 2);
    assert c1 + entered + (g + back) == c1 + LoopCode(opt, g);
  }

  lemma AssembleNot(c0: Code, st: Charset, e: bool, g: Code)
    ensures var open := if e then [] else OpenTest(st);
            var code1 := c0 + open + OpenJump(IChoice) + g + Code1(IFailTwice, 0);
            var code2 := Relabel(code1, |c0 + open|, |code1|);
            (if e then code2 else Relabel(code2, |c0|, |code2|)) == c0 + NotCode(st, e, false, g)
  {
    hide OptTestCode, TestCode, OpenTest, Relabel;
    var open := if e then [] else OpenTest(st);
    var post := g + Code1(IFailTwice, 0);
    assert c0 + open + OpenJump(IChoice) + g + Code1(IFailTwice, 0) == (c0 + open) + OpenJump(IChoice) + post;
    ResolveJump(c0 + open, IChoice, post, |c0 + open| + 2 + |g| + 1);
    var rest := Jump(IChoice, 2 + |g| + 1) + g + Code1(IFailTwice, 0);
    assert (c0 + open) + Jump(IChoice, 2 + |g| + 1) + post == c0 + open + rest;
    ResolveTest(c0, st, e, rest);
    var test := OptTestCode(st, e, 2 + |g| + 1);
    assert c0 + test + rest == c0 + (test + Jump(IChoice, 2 + |g| + 1) + g + Code1(IFailTwice, 0));
  }

  lemma AssembleNotHead(c0: Code, st: Charset, e: bool, g: Code)
    ensures var code1 := c0 + (if e then [] else OpenTest(st)) + Code1(IFail, 0);
            (if e then code1 else Relabel(code1, |c0|, |code1|)) == c0 + NotCode(st, e, true, g)
  {
    hide OptTestCode, TestCode, OpenTest, Relabel;
    ResolveTest(c0, st, e, Code1(IFail, 0));
    assert c0 + OptTestCode(st, e, 1) + Code1(IFail, 0) == c0 + (OptTestCode(st, e, 1) + Code1(IFail, 0));
  }

  /** The instruction at 'tt' tests for the guard's set, whatever its offset. */
  predicate GuardAt(code: Code, tt: int, guard: Guard) {
    match guard
    case NoTest => tt == NOINST
    case TestFor(cs) =>
      && 0 <= tt
      && tt + TestSize(cs) <= |code|
      && code[tt] == OpenTest(cs)[0]
      && (Classify(cs).GeneralSet? ==> code[tt + 2] == Chars(cs))
  }

  class CompileState {
    var code: Code

    constructor ()
      ensures code == []
    {
      code := [];
    }

    method AddInstruction(op: Opcode, aux: nat, key: nat) returns (i: int)
      modifies this
      ensures code == old(code) + [Inst(op, aux, key)] && i == |old(code)|
    {
      i := |code|;
      code := code + [Inst(op, aux, key)];
    }

    method AddOffsetInst(op: Opcode) returns (i: int)
      modifies this
      ensures code == old(code) + OpenJump(op) && i == |old(code)|
    {
      i := AddInstruction(op, 0, 0);
      code := code + [Offset(0)];
    }

    method AddCharset(cs: Charset)
      modifies this
      ensures code == old(code) + CharsetSlots(cs)
    {
      code := code + CharsetSlots(cs);
    }

    method SetOffset(instruction: int, offset: int)
      requires 0 <= instruction && instruction + 1 < |code|
      modifies this
      ensures code == old(code)[instruction + 1 := Offset(offset)]
    {
      code := code[instruction + 1 := Offset(offset)];
    }

    method JumpToThere(instruction: int, target: int)
      requires instruction >= 0 ==> instruction + 1 < |code|
      modifies this
      ensures code == if instruction >= 0 then Relabel(old(code), instruction, target) else old(code)
    {
      if instruction >= 0 {
        SetOffset(instruction, target - instruction);
      }
    }

    method JumpToHere(instruction: int)
      requires instruction >= 0 ==> instruction + 1 < |code|
      modifies this
      ensures code == if instruction >= 0 then Relabel(old(code), instruction, |old(code)|) else old(code)
    {
      JumpToThere(instruction, |code|);
    }

    method CodeChar(c: Byte, tt: int, ghost guard: Guard)
      requires GuardAt(code, tt, guard)
      modifies this
      ensures code == old(code) + CharCode(c, guard)
    {
      if tt >= 0 && code[tt].op == ITestChar && code[tt].aux == c {
        var _ := AddInstruction(IAny, 0, 0);
      } else {
        var _ := AddInstruction(IChar, c, 0);
      }
    }

    method CodeCharset(cs: Charset, tt: int, ghost guard: Guard)
      requires GuardAt(code, tt, guard)
      modifies this
      ensures code == old(code) + CharsetCode(cs, guard)
    {
      match Classify(cs) {
        case Singleton(c) => CodeChar(c, tt, guard);
        case GeneralSet =>
          if tt >= 0 && code[tt].op == ITestSet && code[tt + 2] == Chars(cs) {
            var _ := AddInstruction(IAny, 0, 0);
          } else {
            var _ := AddInstruction(ISet, 0, 0);
            AddCharset(cs);
          }
        case EmptySet => var _ := AddInstruction(IFail, 0, 0);
        case FullSet => var _ := AddInstruction(IAny, 0, 0);
      }
    }

    method CodeTestSet(cs: Charset, e: bool) returns (i: int)
      modifies this
      ensures e ==> i == NOINST && code == old(code)
      ensures !e ==> i == |old(code)| && code == old(code) + OpenTest(cs)
      ensures GuardAt(code, i, OptGuard(cs, e))
    {
      if e {
        return NOINST;
      }
      match Classify(cs) {
        case EmptySet => i := AddOffsetInst(IJmp);
        case FullSet => i := AddOffsetInst(ITestAny);
        case Singleton(c) =>
          i := AddOffsetInst(ITestChar);
          code := code[i := Inst(ITestChar, c, 0)];
        case GeneralSet =>
          i := AddOffsetInst(ITestSet);
          AddCharset(cs);
      }
    }

    // ----- code generation proper -----

    method CodeGen(t: Tree, opt: bool, tt: int, fl: Charset, ghost guard: Guard)
      requires GuardAt(code, tt, guard)
      modifies this
      ensures code == old(code) + Gen(t, opt, guard, fl)
      decreases t, 1
    {
      hide First, FirstEmpty, HeadFail, CheckAux, NeedFollow, FixedLenX, HasCaptures, Classify, TestCode, OptTestCode,
        OpenTest, Relabel, CharsetCode, CharCode, TestChoiceCode, ChoiceCode, TestRepCode, RepCode, NotCode, AndCode,
        BehindCode, EnclosedCode;
      match t {
        case TChar(c) => CodeChar(c, tt, guard);
        case TAny => var _ := AddInstruction(IAny, 0, 0);
        case TSet(cs) => CodeCharset(cs, tt, guard);
        case TTrue =>
        case TFalse => var _ := AddInstruction(IFail, 0, 0);
        case TChoice(p1, p2) => CodeChoice(p1, p2, opt, fl);
        case TRep(body) => CodeRep(body, opt, fl);
        case TBehind(n, body) => CodeBehind(n, body);
        case TNot(body) => CodeNot(body);
        case TAnd(body) => CodeAnd(body, tt, guard);
        case TCapture(kind, key, body) => CodeCapture(kind, key, body, tt, fl, guard);
        case TSeq(p1, p2) =>
          var tt2 := CodeSeq1(p1, p2, tt, fl, guard);
          CodeGen(p2, opt, tt2, fl, SeqGuard(p1, guard));
      }
    }

    method CodeBehind(n: nat, body: Tree)
      modifies this
      ensures code == old(code) + (BehindCode(n) + Gen(body, false, NoTest, FULLSET))
      decreases body, 2
    {
      hide Gen;
      if n > 0 {
        var _ := AddInstruction(IBehind, n, 0);
      }
      CodeGen(body, false, NOINST, FULLSET, NoTest);
    }

    method CodeChoice(p1: Tree, p2: Tree, opt: bool, fl: Charset)
      modifies this
      ensures code == old(code) + Gen(TChoice(p1, p2), opt, NoTest, fl)
      decreases TChoice(p1, p2), 0
    {
      hide First, FirstEmpty, HeadFail, CheckAux, NeedFollow, FixedLenX, HasCaptures, Classify, TestCode, OptTestCode,
        OpenTest, Relabel, TestChoiceCode, ChoiceCode;
      var cs1, e1 := First(p1, FULLSET), FirstEmpty(p1);
      if HeadFail(p1) || (!e1 && Disjoint(cs1, First(p2, fl))) {
        CodeTestChoice(p1, p2, opt, fl, cs1);
      } else if opt && p2.TTrue? {
        var partial := AddOffsetInst(IPartialCommit);
        JumpToHere(partial);
        AssembleOptional(old(code));
        CodeGen(p1, true, NOINST, FULLSET, NoTest);
      } else {
        CodePlainChoice(p1, p2, opt, fl, cs1, e1);
      }
    }

    /** The first branch of the choice: test, p1, jump, p2. */
    method CodeTestChoice(p1: Tree, p2: Tree, opt: bool, fl: Charset, cs1: Charset)
      modifies this
      ensures code == old(code) + TestChoiceCode(cs1, Gen(p1, false, TestFor(cs1), fl), p2.TTrue?,
        Gen(p2, opt, NoTest, fl))
      decreases TChoice(p1, p2), 0, 0
    {
      hide Gen, TestCode, OpenTest, Classify, Relabel, TestChoiceCode;
      var emptyP2 := p2.TTrue?;
      var jmp := NOINST;
      var test := CodeTestSet(cs1, false);
      CodeGen(p1, false, test, fl, TestFor(cs1));
      if !emptyP2 {
        jmp := AddOffsetInst(IJmp);
      }
      assert code == old(code) + OpenTest(cs1) + Gen(p1, false, TestFor(cs1), fl)
        + if emptyP2 then [] else OpenJump(IJmp);
      JumpToHere(test);
      CodeGen(p2, opt, NOINST, fl, NoTest);
      JumpToHere(jmp);
      AssembleTestChoice(old(code), cs1, Gen(p1, false, TestFor(cs1), fl), emptyP2, Gen(p2, opt, NoTest, fl));
    }

    /** The last branch of the choice: test, choice, p1, commit, p2. */
    method CodePlainChoice(p1: Tree, p2: Tree, opt: bool, fl: Charset, cs1: Charset, e1: bool)
      modifies this
      ensures code == old(code) + ChoiceCode(cs1, e1, Gen(p1, p2.TTrue?, OptGuard(cs1, e1), FULLSET),
        Gen(p2, opt, NoTest, fl))
      decreases TChoice(p1, p2), 0, 0
    {
      hide Gen, TestCode, OpenTest, OptTestCode, Classify, Relabel, ChoiceCode;
      var test := CodeTestSet(cs1, e1);
      assert code == old(code) + if e1 then [] else OpenTest(cs1);
      var pchoice := AddOffsetInst(IChoice);
      CodeGen(p1, p2.TTrue?, test, FULLSET, OptGuard(cs1, e1));
      var pcommit := AddOffsetInst(ICommit);
      JumpToHere(pchoice);
      JumpToHere(test);
      CodeGen(p2, opt, NOINST, fl, NoTest);
      JumpToHere(pcommit);
      AssembleChoice(old(code), cs1, e1, Gen(p1, p2.TTrue?, OptGuard(cs1, e1), FULLSET), Gen(p2, opt, NoTest, fl));
    }

    method CodeAnd(body: Tree, tt: int, ghost guard: Guard)
      requires GuardAt(code, tt, guard)
      modifies this
      ensures code == old(code) + Gen(TAnd(body), false, guard, FULLSET)
      decreases body, 2
    {
      hide First, FirstEmpty, HeadFail, CheckAux, NeedFollow, FixedLenX, HasCaptures, Classify, TestCode, OptTestCode,
        OpenTest, Relabel, AndCode;
      var n := FixedLen(body);
      if n >= 0 && n <= MAXBEHIND && !HasCaptures(body) {
        CodeGen(body, false, tt, FULLSET, guard);
        if n > 0 {
          var _ := AddInstruction(IBehind, n, 0);
        }
      } else {
        var pchoice := AddOffsetInst(IChoice);
        CodeGen(body, false, tt, FULLSET, guard);
        var pcommit := AddOffsetInst(IBackCommit);
        JumpToHere(pchoice);
        var _ := AddInstruction(IFail, 0, 0);
        JumpToHere(pcommit);
        AssembleAnd(old(code), Gen(body, false, guard, FULLSET));
      }
    }

    method CodeCapture(kind: nat, key: nat, body: Tree, tt: int, fl: Charset, ghost guard: Guard)
      requires GuardAt(code, tt, guard)
      modifies this
      ensures code == old(code) + Gen(TCapture(kind, key, body), false, guard, fl)
      decreases body, 2
    {
      hide First, FirstEmpty, HeadFail, CheckAux, NeedFollow, FixedLenX, HasCaptures, Classify, TestCode, OptTestCode,
        OpenTest, Relabel, JoinKindOff;
      var len := FixedLen(body);
      if len >= 0 && len <= MAXOFF && !HasCaptures(body) {
        CodeGen(body, false, tt, fl, guard);
        var _ := AddInstruction(IFullCapture, JoinKindOff(kind, len), key);
      } else {
        var _ := AddInstruction(IOpenCapture, JoinKindOff(kind, 0), key);
        CodeGen(body, false, tt, fl, guard);
        var _ := AddInstruction(ICloseCapture, JoinKindOff(CCLOSE, 0), 0);
      }
    }

    method CodeRep(body: Tree, opt: bool, fl: Charset)
      modifies this
      ensures code == old(code) + Gen(TRep(body), opt, NoTest, fl)
      decreases body, 3
    {
      hide First, FirstEmpty, HeadFail, CheckAux, NeedFollow, FixedLenX, HasCaptures, Classify, TestCode, OptTestCode,
        OpenTest, Relabel, TestRepCode, RepCode;
      if IsCharset(body) {
        var _ := AddInstruction(ISpan, 0, 0);
        AddCharset(ToCharset(body));
      } else {
        var st, e1 := First(body, FULLSET), FirstEmpty(body);
        if HeadFail(body) || (!e1 && Disjoint(st, fl)) {
          CodeTestRep(body, st);
        } else {
          CodePlainRep(body, opt, st, e1);
        }
      }
    }

    /** The second branch of the repetition: test, body, jump back to the test. */
    method CodeTestRep(body: Tree, st: Charset)
      modifies this
      ensures code == old(code) + TestRepCode(st, Gen(body, false, TestFor(st), FULLSET))
      decreases body, 2
    {
      hide Gen, TestCode, OpenTest, Classify, Relabel, TestRepCode;
      var test := CodeTestSet(st, false);
      CodeGen(body, false, test, FULLSET, TestFor(st));
      var jmp := AddOffsetInst(IJmp);
      JumpToHere(test);
      JumpToThere(jmp, test);
      AssembleTestRep(old(code), st, Gen(body, false, TestFor(st), FULLSET));
    }

    /** The last branch of the repetition: test, choice or partial commit, body, partial commit. */
    method CodePlainRep(body: Tree, opt: bool, st: Charset, e1: bool)
      modifies this
      ensures code == old(code) + RepCode(st, e1, opt, Gen(body, false, NoTest, FULLSET))
      decreases body, 2
    {
      hide Gen, TestCode, OpenTest, OptTestCode, Classify, Relabel, RepCode;
      var test := CodeTestSet(st, e1);
      ghost var c1 := code;
      assert c1 == old(code) + if e1 then [] else OpenTest(st);
      var pchoice := NOINST;
      if opt {
        var partial := AddOffsetInst(IPartialCommit);
        JumpToHere(partial);
        AssembleOptional(c1);
      } else {
        pchoice := AddOffsetInst(IChoice);
      }
      assert code == c1 + (if opt then Jump(IPartialCommit, 2) else OpenJump(IChoice));
      hide Jump, OpenJump;
      var l2 := |code|;
      CodeGen(body, false, NOINST, FULLSET, NoTest);
      var commit := AddOffsetInst(IPartialCommit);
      JumpToThere(commit, l2);
      JumpToHere(pchoice);
      JumpToHere(test);
      AssembleRep(old(code), st, e1, opt, Gen(body, false, NoTest, FULLSET));
    }

    method CodeNot(body: Tree)
      modifies this
      ensures code == old(code) + NotCode(First(body, FULLSET), FirstEmpty(body), HeadFail(body),
        Gen(body, false, NoTest, FULLSET))
      decreases body, 2
    {
      hide First, FirstEmpty, HeadFail, CheckAux, NeedFollow, FixedLenX, HasCaptures, Classify, TestCode, OptTestCode,
        OpenTest, Relabel, Gen, NotCode;
      var st, e := First(body, FULLSET), FirstEmpty(body);
      var test := CodeTestSet(st, e);
      assert code == old(code) + if e then [] else OpenTest(st);
      if HeadFail(body) {
        var _ := AddInstruction(IFail, 0, 0);
        AssembleNotHead(old(code), st, e, Gen(body, false, NoTest, FULLSET));
      } else {
        var pchoice := AddOffsetInst(IChoice);
        CodeGen(body, false, NOINST, FULLSET, NoTest);
        var _ := AddInstruction(IFailTwice, 0, 0);
        JumpToHere(pchoice);
        AssembleNot(old(code), st, e, Gen(body, false, NoTest, FULLSET));
      }
      JumpToHere(test);
    }

    /** The first part of a sequence; returns the test that still protects the second part. */
    method CodeSeq1(p1: Tree, p2: Tree, tt: int, fl: Charset, ghost guard: Guard) returns (tt2: int)
      requires GuardAt(code, tt, guard)
      modifies this
      ensures code == old(code) + Gen(p1, false, guard, SeqFollow(p1, p2, fl))
      ensures GuardAt(code, tt2, SeqGuard(p1, guard))
      decreases p1, 2
    {
      hide Gen, First, FixedLenX, Classify, OpenTest;
      if NeedFollow(p1) {
        CodeGen(p1, false, tt, First(p2, fl), guard);
      } else {
        CodeGen(p1, false, tt, FULLSET, guard);
      }
      if FixedLen(p1) != 0 {
        return NOINST;
      } else {
        return tt;
      }
    }

    // ----- peephole pass -----

    method FinalTarget(start: int, ghost l: Layout) returns (i: int)
      requires Laid(code, l) && start in l.starts
      ensures i == Final(code, l, start)
    {
      i := start;
      assert PlacedAt(code, l, i);
      while code[i].op == IJmp
        invariant i in l.starts && PlacedAt(code, l, i)
        invariant Final(code, l, i) == Final(code, l, start)
        decreases l.rank[i]
      {
        i := Target(code, i);
        assert PlacedAt(code, l, i);
      }
    }

    method FinalLabel(i: int, ghost l: Layout) returns (j: int)
      requires Laid(code, l) && i in l.starts && PlacedAt(code, l, i) && HasOffset(code[i].op)
      ensures j == Final(code, l, Target(code, i))
    {
      j := FinalTarget(Target(code, i), l);
    }

    /** Optimise the instruction at 'i'. A jump to a commit has become that commit when its
        label is looked at. */
    method Improve(i: int, ghost l: Layout) returns (ghost l2: Layout)
      requires Laid(code, l) && Spaced(code, l.starts) && 0 in l.starts && i in l.starts
      modifies this
      ensures Improved(old(code), l, code, l2, i) && Settled(code, i)
    {
      hide Final, Settled, Equivalent, Relabel, Improved, Laid, Spaced;
      l2 := l;
      PlacedFacts(code, l, i);
      ghost var c0 := code;
      NothingToImprove(code, l, i);
      if code[i].op == IJmp {
        var ft := FinalTarget(i, l);
        FinalOfJump(code, l, i);
        if code[ft].op in {IRet, IFail, IFailTwice, IEnd} {
          CopyStopImproves(code, l, i, ft);
          l2 := l.(starts := l.starts + {i + 1});
          code := code[i := code[ft]];
          code := code[i + 1 := Inst(IAny, 0, 0)];
          return;
        } else if code[ft].op in {ICommit, IPartialCommit, IBackCommit} {
          var fft := FinalLabel(ft, l);
          CopyCommitImproves(code, l, i, ft, fft);
          code := code[i := code[ft]];
          RelabelKeepsOp(code, i, fft);
          JumpToThere(i, fft);
          ImprovedIsLaid(c0, l, code, l, i);
        } else {
          RelabelImproves(code, l, i, ft);
          JumpToThere(i, ft);
          return;
        }
      }
      if HasOffset(code[i].op) {
        var t := FinalLabel(i, l);
        ghost var c1 := code;
        RelabelImproves(code, l, i, t);
        JumpToThere(i, t);
        ImprovedTwice(c0, l, c1, code, i);
      } else {
        NoLabelIsSettled(code, l, i);
      }
    }

    /** The pass over the whole code: afterwards no label leads to a jump, and no jump to a
        stop or a commit. */
    method Peephole(ghost l0: Layout) returns (ghost l: Layout)
      requires Laid(code, l0) && Spaced(code, l0.starts) && 0 in l0.starts
      modifies this
      ensures Laid(code, l) && |code| == |old(code)|
      ensures Equivalent(old(code), code)
      ensures l0.starts <= l.starts && forall p :: p in l.starts ==> Settled(code, p)
    {
      hide Settled, Equivalent;
      var i := 0;
      l := l0;
      EquivalentRefl(code);
      forall p | p in l.starts
        ensures p >= 0
      {
        assert PlacedAt(code, l, p);
      }
      while i < |code|
        invariant 0 <= i && |code| == |old(code)|
        invariant Laid(code, l) && Spaced(code, l.starts) && l0.starts <= l.starts
        invariant 0 in l.starts && (i < |code| ==> i in l.starts)
        invariant Equivalent(old(code), code)
        invariant forall p :: p in l.starts && p < i ==> Settled(code, p)
        decreases |code| - i
      {
        ghost var c0, k := code, i;
        l := Improve(i, l);
        EquivalentTrans(old(code), c0, code);
        assert PlacedAt(code, l, i);
        i := i + SizeI(code[i].op);
        forall p | p in l.starts && p < i
          ensures Settled(code, p)
        {
          assert Before(code, k, p);
        }
      }
      forall p | p in l.starts
        ensures Settled(code, p)
      {
        assert PlacedAt(code, l, p);
      }
    }
  }

  lemma RelabelKeepsOp(code: Code, i: int, t: int)
    requires 0 <= i && i + 1 < |code|
    ensures Relabel(code, i, t)[i] == code[i]
  {
  }

  lemma PlacedFacts(code: Code, l: Layout, i: int)
    requires Laid(code, l) && i in l.starts
    ensures PlacedAt(code, l, i)
  {
  }

  lemma FinalOfJump(code: Code, l: Layout, i: int)
    requires Laid(code, l) && i in l.starts && PlacedAt(code, l, i) && code[i].op == IJmp
    ensures Final(code, l, i) == Final(code, l, Target(code, i))
  {
  }

  lemma ImprovedIsLaid(code: Code, l: Layout, code2: Code, l2: Layout, i: int)
    requires Improved(code, l, code2, l2, i)
    ensures Laid(code2, l2) && Spaced(code2, l2.starts) && PlacedAt(code2, l2, i)
  {
  }

  lemma NoLabelIsSettled(code: Code, l: Layout, i: int)
    requires Laid(code, l) && i in l.starts && PlacedAt(code, l, i) && !HasOffset(code[i].op)
    ensures Settled(code, i)
  {
  }

  lemma EquivalentRefl(code: Code)
    ensures Equivalent(code, code)
  {
  }

  lemma EquivalentTrans(a: Code, b: Code, c: Code)
    requires Equivalent(a, b) && Equivalent(b, c)
    ensures Equivalent(a, c)
  {
  }

  /** 'compile': code generation, IEnd, peephole pass. */
  method Compile(t: Tree) returns (code: Code)
    ensures Equivalent(Program(t), code)
    ensures exists l :: Laid(code, l) && 0 in l.starts && forall p :: p in l.starts ==> Settled(code, p)
  {
    hide Settled, Equivalent, Gen;
    var compst := new CompileState();
    compst.CodeGen(t, false, NOINST, FULLSET, NoTest);
    var _ := compst.AddInstruction(IEnd, 0, 0);
    ghost var g := Gen(t, false, NoTest, FULLSET);
    assert compst.code == Program(t);
    assert At(compst.code, 0, g);
    ghost var starts := TidyGen(compst.code, 0, t, false, NoTest, FULLSET);
    ghost var l := TidyIsLaid(compst.code, starts);
    l := compst.Peephole(l);
    code := compst.code;
  }

  /** The compiled code of a well-formed pattern decides every match attempt as the
      pattern's meaning does. */
  lemma CompiledCorrect(t: Tree, code: Code, s: Subject, i: nat, end: State)
    requires WellFormed(t) && i <= |s| && Equivalent(Program(t), code) && !end.Running?
    ensures Reach(code, s, Start(i), end) <==> end == Verdict(Peg(t, s, i))
  {
    ProgramCorrect(t, s, i);
    if Reach(code, s, Start(i), end) {
      ReachUnique(Program(t), s, Start(i), end, Verdict(Peg(t, s, i)));
    }
  }

  lemma PrefixReaches(code: Code, s: Subject, a: State, b: State, trace: seq<State>, k: nat)
    requires IsRun(code, s, a, b, trace) && k < |trace|
    ensures Reach(code, s, a, Step(code, s, trace[k]))
  {
    var front := trace[..k + 1];
    forall n: nat ensures StepAt(code, s, front, n) {
      assert StepAt(code, s, trace, n);
    }
    assert IsRun(code, s, a, trace[k], front);
    assert Reach(code, s, a, trace[k]);
    ReachStep(code, s, trace[k]);
    ReachTrans(code, s, a, trace[k], Step(code, s, trace[k]));
  }

  /** In every run of a compiled pattern, wherever a capture is closed: every choice on the stack was
      made before the capture was opened, so failing later restores the same captures as failing now. */
  lemma ClosingIsUndone(t: Tree, code: Code, s: Subject, i: nat, end: State, trace: seq<State>, k: nat)
    requires WellFormed(t) && i <= |s| && Equivalent(Program(t), code)
    requires IsRun(code, s, Start(i), end, trace) && k < |trace|
    requires trace[k].Running? && Fetchable(code, trace[k].p) && code[trace[k].p].op == ICloseCapture
    ensures var st := trace[k]; var open := PrevOpen(st.caps, |st.caps|, 0);
      && 0 <= open < |st.caps| && st.caps[open].siz == 0 && LevelsWithin(st.stack, open)
      && var next := Step(code, s, st);
         next.Running? && next.stack == st.stack && Backtrack(st.stack, next.caps) == Backtrack(st.stack, st.caps)
  {
    var st := trace[k];
    PrefixReaches(code, s, Start(i), end, trace, k);
    CompiledCorrect(t, code, s, i, Stuck);
    hide Equivalent, Reach, Backtrack;
    assert Step(code, s, st) != Stuck;
    OpenBehind(st.caps, |st.caps|, 0);
    BacktrackInFront(st.stack, st.caps, Step(code, s, st).caps, PrevOpen(st.caps, |st.caps|, 0));
  }

  /** Failing to a choice made when 'open' captures were there does not look at the others. */
  lemma {:induction false} BacktrackInFront(stack: Stack, caps: seq<Capture>, more: seq<Capture>, open: nat)
    requires LevelsWithin(stack, open) && open <= |caps| && open <= |more| && caps[..open] == more[..open]
    ensures Backtrack(stack, caps) == Backtrack(stack, more)
  {
    match stack
    case Push(Call(_), rest) => BacktrackInFront(rest, caps, more, open);
    case Push(Choice(_, _, caplevel), _) =>
      assert caps[..caplevel] == caps[..open][..caplevel] == more[..caplevel];
    case Bottom =>
  }
}
