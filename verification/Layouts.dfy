/** The generated code is laid out properly and has no cycle of jumps. */
module Layouts {
  import opened PegTree
  import opened Analyses
  import opened Machine
  import opened CodeGen
  import opened Fragments
  import opened Peephole

  /** A backward jump leads to something that is no jump, or one that leads past it. */
  predicate Rewinds(code: Code, p: int)
    requires Fetchable(code, p) && code[p].op == IJmp
  {
    var t := Target(code, p);
    Fetchable(code, t) && (code[t].op == IJmp ==> Target(code, t) >= p + 2)
  }

  ghost predicate TidyAt(code: Code, b: int, starts: set<int>, exits: set<int>, p: int) {
    && Fetchable(code, p)
    && code[p].op != IEnd
    && (p + SizeI(code[p].op) == b || p + SizeI(code[p].op) in starts)
    && (HasOffset(code[p].op) ==> Target(code, p) == b || Target(code, p) in starts || Target(code, p) in exits)
    && (code[p].op == IJmp ==> p < Target(code, p) || (Target(code, p) in starts && Rewinds(code, p)))
  }

  /** The stretch of code from 'a' to 'b' consists of instructions starting at 'starts';
      labels stay inside it, except for those to 'exits'. */
  ghost predicate Tidy(code: Code, a: int, b: int, starts: set<int>, exits: set<int>) {
    && 0 <= a <= b <= |code|
    && (a == b || a in starts)
    && (forall p :: p in starts ==> a <= p < b)
    && Spaced(code, starts)
    && (forall p {:trigger TidyAt(code, b, starts, exits, p)} :: p in starts ==> TidyAt(code, b, starts, exits, p))
  }

  lemma TidyStart(code: Code, a: int, b: int, starts: set<int>, exits: set<int>)
    requires Tidy(code, a, b, starts, exits)
    ensures a == b || a in starts
  {
  }

  lemma TidyJoin(code: Code, a: int, b: int, c: int, first: set<int>, second: set<int>, exits: set<int>)
    requires Tidy(code, a, b, first, exits) && Tidy(code, b, c, second, exits)
    ensures Tidy(code, a, c, first + second, exits)
  {
    forall p, q | p in first + second && q in first + second
      ensures Before(code, p, q)
    {
      assert p in first && q in first ==> Before(code, p, q);
      assert p in second && q in second ==> Before(code, p, q);
      assert p in first ==> TidyAt(code, b, first, exits, p);
    }
    forall p | p in first + second
      ensures TidyAt(code, c, first + second, exits, p)
    {
      if p in first {
        assert TidyAt(code, b, first, exits, p);
      } else {
        assert TidyAt(code, c, second, exits, p);
      }
    }
  }

  /** Other exits may be named, and those inside need not. */
  lemma TidyExits(code: Code, a: int, b: int, starts: set<int>, exits: set<int>, others: set<int>)
    requires Tidy(code, a, b, starts, exits) && exits <= starts + {b} + others
    ensures Tidy(code, a, b, starts, others)
  {
    forall p | p in starts
      ensures TidyAt(code, b, starts, others, p)
    {
      assert TidyAt(code, b, starts, exits, p);
    }
  }

  lemma TidyOne(code: Code, pc: int, g: Code, exits: set<int>)
    requires At(code, pc, g) && g != [] && g[0].Inst? && g[0].op != IEnd && |g| == SizeI(g[0].op)
    requires !HasOffset(g[0].op) && (g[0].op in {ISet, ISpan} ==> g[1].Chars?)
    ensures Tidy(code, pc, pc + |g|, {pc}, exits)
  {
    AtIndex(code, pc, g, 0);
    if |g| > 1 {
      AtIndex(code, pc, g, 1);
    }
    assert TidyAt(code, pc + |g|, {pc}, exits, pc);
  }

  lemma TidyJump(code: Code, pc: int, op: Opcode, off: int, exits: set<int>)
    requires At(code, pc, Jump(op, off)) && HasOffset(op) && op != ITestSet && (op == IJmp ==> off > 0)
    requires pc + off in exits
    ensures Tidy(code, pc, pc + 2, {pc}, exits)
  {
    AtIndex(code, pc, Jump(op, off), 0);
    AtIndex(code, pc, Jump(op, off), 1);
    assert TidyAt(code, pc + 2, {pc}, exits, pc);
  }

  function TestStarts(pc: int, e: bool): set<int> {
    if e then {} else {pc}
  }

  lemma TidyTest(code: Code, pc: int, cs: Charset, e: bool, after: nat, exits: set<int>)
    requires At(code, pc, OptTestCode(cs, e, after)) && pc + |OptTestCode(cs, e, after)| + after in exits
    ensures Tidy(code, pc, pc + |OptTestCode(cs, e, after)|, TestStarts(pc, e), exits)
    ensures !e ==> Fetchable(code, pc) && (code[pc].op == IJmp ==> Target(code, pc) == pc + TestSize(cs) + after)
  {
    var g := OptTestCode(cs, e, after);
    if !e {
      AtIndex(code, pc, g, 0);
      AtIndex(code, pc, g, 1);
      if Classify(cs).GeneralSet? {
        AtIndex(code, pc, g, 2);
      }
      assert TidyAt(code, pc + |g|, {pc}, exits, pc);
    }
  }

  // ----- the constructions -----

  lemma TidyTestChoice(code: Code, pc: int, cs1: Charset, g1: Code, emptyP2: bool, g2: Code, s1: set<int>, s2: set<int>)
    returns (starts: set<int>)
    requires At(code, pc, TestChoiceCode(cs1, g1, emptyP2, g2))
    requires var l0 := pc + TestSize(cs1);
             var l1 := l0 + |g1| + if emptyP2 then 0 else 2;
             Tidy(code, l0, l0 + |g1|, s1, {}) && Tidy(code, l1, l1 + |g2|, s2, {})
    ensures Tidy(code, pc, pc + |TestChoiceCode(cs1, g1, emptyP2, g2)|, starts, {})
  {
    hide Tidy, At, TestCode, Classify;
    TestChoiceSplit(code, pc, cs1, g1, emptyP2, g2);
    var skip := if emptyP2 then [] else Jump(IJmp, 2 + |g2|);
    var l0 := pc + TestSize(cs1);
    var l1 := l0 + |g1| + |skip|;
    var end := l1 + |g2|;
    var exits := {l1, end};
    TidyTest(code, pc, cs1, false, |g1| + |skip|, exits);
    TidyExits(code, l0, l0 + |g1|, s1, {}, exits);
    TidyExits(code, l1, end, s2, {}, exits);
    TidyJoin(code, pc, l0, l0 + |g1|, {pc}, s1, exits);
    starts := {pc} + s1;
    if !emptyP2 {
      TidyJump(code, l0 + |g1|, IJmp, 2 + |g2|, exits);
      TidyJoin(code, pc, l0 + |g1|, l1, starts, {l0 + |g1|}, exits);
      starts := starts + {l0 + |g1|};
    }
    TidyStart(code, l1, end, s2, exits);
    TidyJoin(code, pc, l1, end, starts, s2, exits);
    starts := starts + s2;
    TidyExits(code, pc, end, starts, exits, {});
  }

  lemma TidyChoice(code: Code, pc: int, cs1: Charset, e1: bool, g1: Code, g2: Code, s1: set<int>, s2: set<int>)
    returns (starts: set<int>)
    requires At(code, pc, ChoiceCode(cs1, e1, g1, g2))
    requires var l0 := pc + |OptTestCode(cs1, e1, 2 + |g1| + 2)|;
             var l1 := l0 + 2 + |g1| + 2;
             Tidy(code, l0 + 2, l0 + 2 + |g1|, s1, {}) && Tidy(code, l1, l1 + |g2|, s2, {})
    ensures Tidy(code, pc, pc + |ChoiceCode(cs1, e1, g1, g2)|, starts, {})
  {
    hide Tidy, At, OptTestCode;
    ChoiceSplit(code, pc, cs1, e1, g1, g2);
    var l0 := pc + |OptTestCode(cs1, e1, 2 + |g1| + 2)|;
    var l1 := l0 + 2 + |g1| + 2;
    var end := l1 + |g2|;
    var exits := {l1, end};
    TidyTest(code, pc, cs1, e1, 2 + |g1| + 2, exits);
    TidyJump(code, l0, IChoice, 2 + |g1| + 2, exits);
    TidyExits(code, l0 + 2, l0 + 2 + |g1|, s1, {}, exits);
    TidyJump(code, l0 + 2 + |g1|, ICommit, 2 + |g2|, exits);
    TidyExits(code, l1, end, s2, {}, exits);
    var test := TestStarts(pc, e1);
    TidyJoin(code, pc, l0, l0 + 2, test, {l0}, exits);
    TidyJoin(code, pc, l0 + 2, l0 + 2 + |g1|, test + {l0}, s1, exits);
    TidyJoin(code, pc, l0 + 2 + |g1|, l1, test + {l0} + s1, {l0 + 2 + |g1|}, exits);
    TidyStart(code, l1, end, s2, exits);
    starts := test + {l0} + s1 + {l0 + 2 + |g1|};
    TidyJoin(code, pc, l1, end, starts, s2, exits);
    starts := starts + s2;
    TidyExits(code, pc, end, starts, exits, {});
  }

  lemma TidyOptional(code: Code, pc: int, g1: Code, s1: set<int>) returns (starts: set<int>)
    requires At(code, pc, OptionalCode(g1)) && Tidy(code, pc + 2, pc + 2 + |g1|, s1, {})
    ensures Tidy(code, pc, pc + |OptionalCode(g1)|, starts, {})
  {
    hide Tidy;
    AtSplit(code, pc, Jump(IPartialCommit, 2), g1);
    var end := pc + 2 + |g1|;
    TidyJump(code, pc, IPartialCommit, 2, {pc + 2});
    TidyExits(code, pc + 2, end, s1, {}, {pc + 2});
    TidyStart(code, pc + 2, end, s1, {pc + 2});
    TidyJoin(code, pc, pc + 2, end, {pc}, s1, {pc + 2});
    starts := {pc} + s1;
    TidyExits(code, pc, end, starts, {pc + 2}, {});
  }

  /** A jump back may be added behind code whose first instruction it can safely lead to. */
  lemma TidyLoop(code: Code, pc: int, back: int, starts: set<int>)
    requires Tidy(code, pc, back, starts, {back + 2}) && pc < back && At(code, back, Jump(IJmp, pc - back))
    requires Fetchable(code, pc) && (code[pc].op == IJmp ==> Target(code, pc) == back + 2)
    ensures Tidy(code, pc, back + 2, starts + {back}, {})
  {
    AtIndex(code, back, Jump(IJmp, pc - back), 0);
    AtIndex(code, back, Jump(IJmp, pc - back), 1);
    assert Rewinds(code, back);
    forall p, q | p in starts + {back} && q in starts + {back}
      ensures Before(code, p, q)
    {
      assert p in starts && q in starts ==> Before(code, p, q);
      assert p in starts ==> TidyAt(code, back, starts, {back + 2}, p);
    }
    forall p | p in starts + {back}
      ensures TidyAt(code, back + 2, starts + {back}, {}, p)
    {
      if p != back {
        assert TidyAt(code, back, starts, {back + 2}, p);
      }
    }
  }

  /** The jump back leads to the test, which is no jump or jumps past the loop. */
  lemma TidyTestRep(code: Code, pc: int, st: Charset, g: Code, s1: set<int>) returns (starts: set<int>)
    requires At(code, pc, TestRepCode(st, g))
    requires Tidy(code, pc + TestSize(st), pc + TestSize(st) + |g|, s1, {})
    ensures Tidy(code, pc, pc + |TestRepCode(st, g)|, starts, {})
  {
    hide Tidy, At, TestCode, Classify;
    TestRepSplit(code, pc, st, g);
    var l0 := pc + TestSize(st);
    var back := l0 + |g|;
    TidyTest(code, pc, st, false, |g| + 2, {back + 2});
    TidyExits(code, l0, back, s1, {}, {back + 2});
    TidyJoin(code, pc, l0, back, {pc}, s1, {back + 2});
    TidyLoop(code, pc, back, {pc} + s1);
    starts := {pc} + s1 + {back};
  }

  lemma TidyRep(code: Code, pc: int, st: Charset, e1: bool, opt: bool, g: Code, s1: set<int>)
    returns (starts: set<int>)
    requires At(code, pc, RepCode(st, e1, opt, g))
    requires var l1 := pc + |OptTestCode(st, e1, 2 + |g| + 2)| + 2;
             Tidy(code, l1, l1 + |g|, s1, {})
    ensures Tidy(code, pc, pc + |RepCode(st, e1, opt, g)|, starts, {})
  {
    hide Tidy, At, OptTestCode;
    RepSplit(code, pc, st, e1, opt, g);
    var l0 := pc + |OptTestCode(st, e1, 2 + |g| + 2)|;
    var l1 := l0 + 2;
    var back := l1 + |g|;
    var end := back + 2;
    var exits := {l1, end};
    TidyTest(code, pc, st, e1, 2 + |g| + 2, exits);
    TidyJump(code, l0, if opt then IPartialCommit else IChoice, if opt then 2 else 2 + |g| + 2, exits);
    TidyExits(code, l1, back, s1, {}, exits);
    TidyJump(code, back, IPartialCommit, -|g|, exits);
    var test := TestStarts(pc, e1);
    TidyJoin(code, pc, l0, l1, test, {l0}, exits);
    TidyStart(code, l1, back, s1, exits);
    TidyJoin(code, pc, l1, back, test + {l0}, s1, exits);
    TidyJoin(code, pc, back, end, test + {l0} + s1, {back}, exits);
    starts := test + {l0} + s1 + {back};
    TidyExits(code, pc, end, starts, exits, {});
  }

  lemma TidyNot(code: Code, pc: int, st: Charset, e: bool, headFail: bool, g: Code, s1: set<int>)
    returns (starts: set<int>)
    requires At(code, pc, NotCode(st, e, headFail, g))
    requires !headFail ==> var l1 := pc + |OptTestCode(st, e, 2 + |g| + 1)| + 2; Tidy(code, l1, l1 + |g|, s1, {})
    ensures Tidy(code, pc, pc + |NotCode(st, e, headFail, g)|, starts, {})
  {
    hide Tidy, At, OptTestCode;
    NotSplit(code, pc, st, e, headFail, g);
    var after := if headFail then 1 else 2 + |g| + 1;
    var l0 := pc + |OptTestCode(st, e, after)|;
    var end := l0 + after;
    var test := TestStarts(pc, e);
    TidyTest(code, pc, st, e, after, {end});
    if headFail {
      TidyOne(code, l0, Code1(IFail, 0), {end});
      TidyJoin(code, pc, l0, end, test, {l0}, {end});
      starts := test + {l0};
    } else {
      TidyJump(code, l0, IChoice, 2 + |g| + 1, {end});
      TidyExits(code, l0 + 2, l0 + 2 + |g|, s1, {}, {end});
      TidyOne(code, l0 + 2 + |g|, Code1(IFailTwice, 0), {end});
      TidyJoin(code, pc, l0, l0 + 2, test, {l0}, {end});
      TidyJoin(code, pc, l0 + 2, l0 + 2 + |g|, test + {l0}, s1, {end});
      TidyJoin(code, pc, l0 + 2 + |g|, end, test + {l0} + s1, {l0 + 2 + |g|}, {end});
      starts := test + {l0} + s1 + {l0 + 2 + |g|};
    }
    TidyExits(code, pc, end, starts, {end}, {});
  }

  lemma TidyAnd(code: Code, pc: int, g: Code, s1: set<int>) returns (starts: set<int>)
    requires At(code, pc, AndCode(g)) && Tidy(code, pc + 2, pc + 2 + |g|, s1, {})
    ensures Tidy(code, pc, pc + |AndCode(g)|, starts, {})
  {
    hide Tidy, At;
    AndSplit(code, pc, g);
    var back := pc + 2 + |g|;
    var l1, end := back + 2, back + 3;
    var exits := {l1, end};
    TidyJump(code, pc, IChoice, 2 + |g| + 2, exits);
    TidyExits(code, pc + 2, back, s1, {}, exits);
    TidyJump(code, back, IBackCommit, 2 + 1, exits);
    TidyOne(code, l1, Code1(IFail, 0), exits);
    TidyJoin(code, pc, pc + 2, back, {pc}, s1, exits);
    TidyJoin(code, pc, back, l1, {pc} + s1, {back}, exits);
    TidyJoin(code, pc, l1, end, {pc} + s1 + {back}, {l1}, exits);
    starts := {pc} + s1 + {back} + {l1};
    TidyExits(code, pc, end, starts, exits, {});
  }

  lemma TidyBehind(code: Code, pc: int, n: nat)
    requires At(code, pc, BehindCode(n))
    ensures Tidy(code, pc, pc + |BehindCode(n)|, if n > 0 then {pc} else {}, {})
  {
    if n > 0 {
      TidyOne(code, pc, BehindCode(n), {});
    }
  }

  lemma {:induction false} TidyGen(code: Code, pc: int, t: Tree, opt: bool, guard: Guard, fl: Charset)
    returns (starts: set<int>)
    requires At(code, pc, Gen(t, opt, guard, fl))
    ensures Tidy(code, pc, pc + |Gen(t, opt, guard, fl)|, starts, {})
    decreases t
  {
    hide Tidy, At, First, FirstEmpty, HeadFail, CheckAux, FixedLenX, OptTestCode, TestCode, Classify, TestChoiceCode,
      ChoiceCode, TestRepCode, RepCode, NotCode, AndCode;
    match t {
      case TTrue => starts := TidyNothing(code, pc);
      case TFalse =>
        TidyOne(code, pc, Code1(IFail, 0), {});
        starts := {pc};
      case TSeq(p1, p2) =>
        var g1, g2 := Gen(p1, false, guard, SeqFollow(p1, p2, fl)), Gen(p2, opt, SeqGuard(p1, guard), fl);
        AtSplit(code, pc, g1, g2);
        var s1 := TidyGen(code, pc, p1, false, guard, SeqFollow(p1, p2, fl));
        var s2 := TidyGen(code, pc + |g1|, p2, opt, SeqGuard(p1, guard), fl);
        TidyJoin(code, pc, pc + |g1|, pc + |g1| + |g2|, s1, s2, {});
        starts := s1 + s2;
      case TChoice(p1, p2) => starts := TidyGenChoice(code, pc, p1, p2, opt, guard, fl);
      case TRep(body) => starts := TidyGenRep(code, pc, body, opt, guard, fl);
      case TNot(body) => starts := TidyGenNot(code, pc, body, guard, fl);
      case TAnd(body) => starts := TidyGenAnd(code, pc, body, guard, fl);
      case TBehind(n, body) =>
        var g := Gen(body, false, NoTest, FULLSET);
        AtSplit(code, pc, BehindCode(n), g);
        TidyBehind(code, pc, n);
        var s1 := if n > 0 then {pc} else {};
        var s2 := TidyGen(code, pc + |BehindCode(n)|, body, false, NoTest, FULLSET);
        TidyJoin(code, pc, pc + |BehindCode(n)|, pc + |BehindCode(n)| + |g|, s1, s2, {});
        starts := s1 + s2;
      case TCapture(kind, key, body) => starts := TidyGenCapture(code, pc, kind, key, body, guard, fl);
      case _ =>
        TidyHead(code, pc, t, opt, guard, fl);
        starts := {pc};
    }
  }

  lemma {:induction false} TidyGenRep(code: Code, pc: int, body: Tree, opt: bool, guard: Guard, fl: Charset)
    returns (starts: set<int>)
    requires At(code, pc, Gen(TRep(body), opt, guard, fl))
    ensures Tidy(code, pc, pc + |Gen(TRep(body), opt, guard, fl)|, starts, {})
    decreases TRep(body), 0
  {
    hide Tidy, At, First, FirstEmpty, HeadFail, CheckAux, FixedLenX, OptTestCode, TestCode, Classify, TestRepCode,
      RepCode;
    var st := First(body, FULLSET);
    if IsCharset(body) {
      TidyOne(code, pc, SpanCode(ToCharset(body)), {});
      starts := {pc};
    } else if TestSuffices(body, fl) {
      var g := Gen(body, false, TestFor(st), FULLSET);
      TestRepSplit(code, pc, st, g);
      var s1 := TidyGen(code, pc + TestSize(st), body, false, TestFor(st), FULLSET);
      starts := TidyTestRep(code, pc, st, g, s1);
    } else {
      var g, e1 := Gen(body, false, NoTest, FULLSET), FirstEmpty(body);
      RepSplit(code, pc, st, e1, opt, g);
      var s1 := TidyGen(code, pc + |OptTestCode(st, e1, 2 + |g| + 2)| + 2, body, false, NoTest, FULLSET);
      starts := TidyRep(code, pc, st, e1, opt, g, s1);
    }
  }

  lemma {:induction false} TidyGenNot(code: Code, pc: int, body: Tree, guard: Guard, fl: Charset)
    returns (starts: set<int>)
    requires At(code, pc, Gen(TNot(body), false, guard, fl))
    ensures Tidy(code, pc, pc + |Gen(TNot(body), false, guard, fl)|, starts, {})
    decreases TNot(body), 0
  {
    hide Tidy, At, First, FirstEmpty, HeadFail, CheckAux, FixedLenX, OptTestCode, TestCode, Classify, NotCode;
    var st, e, g := First(body, FULLSET), FirstEmpty(body), Gen(body, false, NoTest, FULLSET);
    NotSplit(code, pc, st, e, HeadFail(body), g);
    var s1 := {};
    if !HeadFail(body) {
      s1 := TidyGen(code, pc + |OptTestCode(st, e, 2 + |g| + 1)| + 2, body, false, NoTest, FULLSET);
    }
    starts := TidyNot(code, pc, st, e, HeadFail(body), g, s1);
  }

  lemma {:induction false} TidyGenAnd(code: Code, pc: int, body: Tree, guard: Guard, fl: Charset)
    returns (starts: set<int>)
    requires At(code, pc, Gen(TAnd(body), false, guard, fl))
    ensures Tidy(code, pc, pc + |Gen(TAnd(body), false, guard, fl)|, starts, {})
    decreases TAnd(body), 0
  {
    hide Tidy, At, First, FirstEmpty, HeadFail, CheckAux, FixedLenX, OptTestCode, TestCode, Classify, AndCode;
    var g := Gen(body, false, guard, FULLSET);
    if BehindSuffices(body) {
      AtSplit(code, pc, g, BehindCode(FixedLen(body)));
      var s1 := TidyGen(code, pc, body, false, guard, FULLSET);
      TidyBehind(code, pc + |g|, FixedLen(body));
      var s2 := if FixedLen(body) > 0 then {pc + |g|} else {};
      TidyJoin(code, pc, pc + |g|, pc + |g| + |BehindCode(FixedLen(body))|, s1, s2, {});
      starts := s1 + s2;
    } else {
      AndSplit(code, pc, g);
      var s1 := TidyGen(code, pc + 2, body, false, guard, FULLSET);
      starts := TidyAnd(code, pc, g, s1);
    }
  }

  lemma TidyNothing(code: Code, pc: int) returns (starts: set<int>)
    requires At(code, pc, [])
    ensures Tidy(code, pc, pc, starts, {})
  {
    starts := {};
  }

  lemma TidyHead(code: Code, pc: int, t: Tree, opt: bool, guard: Guard, fl: Charset)
    requires IsCharset(t) && At(code, pc, Gen(t, opt, guard, fl))
    ensures Tidy(code, pc, pc + |Gen(t, opt, guard, fl)|, {pc}, {})
  {
    TidyOne(code, pc, Gen(t, opt, guard, fl), {});
  }

  lemma {:induction false} TidyGenChoice(code: Code, pc: int, p1: Tree, p2: Tree, opt: bool, guard: Guard, fl: Charset)
    returns (starts: set<int>)
    requires At(code, pc, Gen(TChoice(p1, p2), opt, guard, fl))
    ensures Tidy(code, pc, pc + |Gen(TChoice(p1, p2), opt, guard, fl)|, starts, {})
    decreases TChoice(p1, p2), 0
  {
    hide Tidy, At, First, FirstEmpty, HeadFail, CheckAux, FixedLenX, OptTestCode, TestCode, Classify, TestChoiceCode,
      ChoiceCode;
    var cs1, e1 := First(p1, FULLSET), FirstEmpty(p1);
    var g2 := Gen(p2, opt, NoTest, fl);
    if TestSuffices(p1, First(p2, fl)) {
      var g1 := Gen(p1, false, TestFor(cs1), fl);
      TestChoiceSplit(code, pc, cs1, g1, p2.TTrue?, g2);
      var l0 := pc + TestSize(cs1);
      var s1 := TidyGen(code, l0, p1, false, TestFor(cs1), fl);
      var s2 := TidyGen(code, l0 + |g1| + if p2.TTrue? then 0 else 2, p2, opt, NoTest, fl);
      starts := TidyTestChoice(code, pc, cs1, g1, p2.TTrue?, g2, s1, s2);
    } else if opt && p2.TTrue? {
      var g1 := Gen(p1, true, NoTest, FULLSET);
      AtSplit(code, pc, Jump(IPartialCommit, 2), g1);
      var s1 := TidyGen(code, pc + 2, p1, true, NoTest, FULLSET);
      starts := TidyOptional(code, pc, g1, s1);
    } else {
      var g1 := Gen(p1, p2.TTrue?, OptGuard(cs1, e1), FULLSET);
      ChoiceSplit(code, pc, cs1, e1, g1, g2);
      var l0 := pc + |OptTestCode(cs1, e1, 2 + |g1| + 2)|;
      var s1 := TidyGen(code, l0 + 2, p1, p2.TTrue?, OptGuard(cs1, e1), FULLSET);
      var s2 := TidyGen(code, l0 + 2 + |g1| + 2, p2, opt, NoTest, fl);
      starts := TidyChoice(code, pc, cs1, e1, g1, g2, s1, s2);
    }
  }

  lemma TidyFullCapture(code: Code, pc: int, kind: nat, key: nat, n: nat, g: Code, s1: set<int>)
    requires At(code, pc, g + CaptureCode(IFullCapture, kind, key, n)) && Tidy(code, pc, pc + |g|, s1, {})
    ensures Tidy(code, pc, pc + |g + CaptureCode(IFullCapture, kind, key, n)|, s1 + {pc + |g|}, {})
  {
    hide Tidy, At, JoinKindOff;
    var full := CaptureCode(IFullCapture, kind, key, n);
    AtSplit(code, pc, g, full);
    TidyOne(code, pc + |g|, full, {});
    TidyJoin(code, pc, pc + |g|, pc + |g| + 1, s1, {pc + |g|}, {});
  }

  lemma TidyEnclosed(code: Code, pc: int, kind: nat, key: nat, g: Code, s1: set<int>)
    requires At(code, pc, EnclosedCode(kind, key, g)) && Tidy(code, pc + 1, pc + 1 + |g|, s1, {})
    ensures Tidy(code, pc, pc + |EnclosedCode(kind, key, g)|, {pc} + s1 + {pc + 1 + |g|}, {})
  {
    hide Tidy, At, JoinKindOff;
    EnclosedSplit(code, pc, kind, key, g);
    TidyOne(code, pc, CaptureCode(IOpenCapture, kind, key, 0), {});
    TidyOne(code, pc + 1 + |g|, CaptureCode(ICloseCapture, CCLOSE, 0, 0), {});
    TidyJoin(code, pc, pc + 1, pc + 1 + |g|, {pc}, s1, {});
    TidyJoin(code, pc, pc + 1 + |g|, pc + 2 + |g|, {pc} + s1, {pc + 1 + |g|}, {});
  }

  lemma {:induction false} TidyGenCapture(code: Code, pc: int, kind: nat, key: nat, body: Tree, guard: Guard,
        fl: Charset)
    returns (starts: set<int>)
    requires At(code, pc, Gen(TCapture(kind, key, body), false, guard, fl))
    ensures Tidy(code, pc, pc + |Gen(TCapture(kind, key, body), false, guard, fl)|, starts, {})
    decreases TCapture(kind, key, body), 0
  {
    hide Tidy, At, FixedLenX, HasCaptures, CaptureCode, EnclosedCode;
    var g := Gen(body, false, guard, fl);
    if FullCaptureSuffices(body) {
      AtSplit(code, pc, g, CaptureCode(IFullCapture, kind, key, FixedLen(body)));
      var s1 := TidyGen(code, pc, body, false, guard, fl);
      TidyFullCapture(code, pc, kind, key, FixedLen(body), g, s1);
      starts := s1 + {pc + |g|};
    } else {
      EnclosedSplit(code, pc, kind, key, g);
      var s1 := TidyGen(code, pc + 1, body, false, guard, fl);
      TidyEnclosed(code, pc, kind, key, g, s1);
      starts := {pc} + s1 + {pc + 1 + |g|};
    }
  }

  // ----- whole programs -----

  /** A jump ranks by how far it gets: forward ones by their target, backward ones by what
      follows them. */
  function JumpRank(code: Code, p: int): nat
    requires Fetchable(code, p)
  {
    if code[p].op != IJmp then 0
    else if p < Target(code, p) then if Target(code, p) < |code| then 2 * (|code| - Target(code, p)) else 0
    else 2 * (|code| - (p + 2)) + 1
  }

  ghost function Ranks(code: Code): (r: seq<nat>)
    ensures |r| == |code|
    ensures forall p :: 0 <= p < |code| ==> r[p] == if Fetchable(code, p) then JumpRank(code, p) else 0
  {
    seq(|code|, p requires 0 <= p < |code| => if Fetchable(code, p) then JumpRank(code, p) else 0)
  }

  /** Tidy code with an IEnd behind it has a layout: no jumps in a circle. */
  lemma TidyIsLaid(code: Code, starts: set<int>) returns (l: Layout)
    requires code != [] && Tidy(code, 0, |code| - 1, starts, {}) && code[|code| - 1] == Inst(IEnd, 0, 0)
    ensures Laid(code, l) && Spaced(code, l.starts) && 0 in l.starts
  {
    var end := |code| - 1;
    l := Layout(starts + {end}, Ranks(code));
    forall p, q | p in l.starts && q in l.starts
      ensures Before(code, p, q)
    {
      assert p in starts && q in starts ==> Before(code, p, q);
      assert p in starts ==> TidyAt(code, end, starts, {}, p);
    }
    forall p | p in l.starts
      ensures PlacedAt(code, l, p)
    {
      if p != end {
        assert TidyAt(code, end, starts, {}, p);
        if HasOffset(code[p].op) {
          var t := Target(code, p);
          if t != end {
            assert TidyAt(code, end, starts, {}, t);
          }
        }
      }
    }
  }
}
