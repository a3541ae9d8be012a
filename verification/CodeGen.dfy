/** The code of a pattern as a value: what code generation appends to the code array.
    Offsets are relative, so the code does not depend on where it is placed. */
module CodeGen {
  import opened PegTree
  import opened Analyses
  import opened Machine

  /** What 'charsettype' tells about a set. */
  datatype CharsetType = EmptySet | Singleton(c: Byte) | FullSet | GeneralSet

  function Classify(cs: Charset): (r: CharsetType)
    ensures r.EmptySet? <==> cs == {}
    ensures r.Singleton? ==> cs == {r.c}
    ensures forall c: Byte :: cs == {c} ==> r == Singleton(c)
    ensures r.FullSet? <==> cs == FULLSET
  {
    assert 0 in FULLSET && 1 in FULLSET;
    if cs == {} then EmptySet
    else if exists c | c in cs :: cs == {c} then
      var c :| c in cs && cs == {c};
      Singleton(c)
    else if cs == FULLSET then FullSet
    else GeneralSet
  }

  /** The test that dominates the code being generated, if any ('tt'). */
  datatype Guard = NoTest | TestFor(cs: Charset)

  function CharCode(c: Byte, guard: Guard): Code {
    if guard == TestFor({c}) then [Inst(IAny, 0, 0)] else [Inst(IChar, c, 0)]
  }

  function CharsetCode(cs: Charset, guard: Guard): Code {
    match Classify(cs)
    case Singleton(c) => CharCode(c, guard)
    case GeneralSet =>
      if guard == TestFor(cs) then [Inst(IAny, 0, 0)] else [Inst(ISet, 0, 0)] + CharsetSlots(cs)
    case EmptySet => [Inst(IFail, 0, 0)]
    case FullSet => [Inst(IAny, 0, 0)]
  }

  /** The test for a set, jumping 'after' slots past its own end when it fails. */
  function TestCode(cs: Charset, after: nat): (r: Code)
    ensures |r| == TestSize(cs)
  {
    match Classify(cs)
    case EmptySet => [Inst(IJmp, 0, 0), Offset(2 + after)]
    case FullSet => [Inst(ITestAny, 0, 0), Offset(2 + after)]
    case Singleton(c) => [Inst(ITestChar, c, 0), Offset(2 + after)]
    case GeneralSet => [Inst(ITestSet, 0, 0), Offset(10 + after)] + CharsetSlots(cs)
  }

  function TestSize(cs: Charset): nat {
    if Classify(cs).GeneralSet? then 10 else 2
  }

  /** 'codetestset': no test when the empty string must be accepted. */
  function OptTestCode(cs: Charset, e: bool, after: nat): Code {
    if e then [] else TestCode(cs, after)
  }

  function OptGuard(cs: Charset, e: bool): Guard {
    if e then NoTest else TestFor(cs)
  }

  predicate Disjoint(cs1: Charset, cs2: Charset) {
    cs1 * cs2 == {}
  }

  /** May a simple test replace the choice before 'p1'? */
  predicate TestSuffices(p1: Tree, rest: Charset) {
    HeadFail(p1) || (!FirstEmpty(p1) && Disjoint(First(p1, FULLSET), rest))
  }

  function Code1(op: Opcode, aux: nat): Code {
    [Inst(op, aux, 0)]
  }

  function Jump(op: Opcode, off: int): Code {
    [Inst(op, 0, 0), Offset(off)]
  }

  function CaptureCode(op: Opcode, kind: nat, key: nat, off: nat): Code {
    [Inst(op, JoinKindOff(kind, off), key)]
  }

  function SeqFollow(p1: Tree, p2: Tree, fl: Charset): Charset {
    if NeedFollow(p1) then First(p2, fl) else FULLSET
  }

  function SeqGuard(p1: Tree, guard: Guard): Guard {
    if FixedLen(p1) != 0 then NoTest else guard
  }

  function Gen(t: Tree, opt: bool, guard: Guard, fl: Charset): Code
    decreases t
  {
    match t
    case TChar(c) => CharCode(c, guard)
    case TAny => Code1(IAny, 0)
    case TSet(cs) => CharsetCode(cs, guard)
    case TTrue => []
    case TFalse => Code1(IFail, 0)
    case TSeq(p1, p2) =>
      Gen(p1, false, guard, SeqFollow(p1, p2, fl)) + Gen(p2, opt, SeqGuard(p1, guard), fl)
    case TChoice(p1, p2) =>
      var cs1 := First(p1, FULLSET);
      var code2 := Gen(p2, opt, NoTest, fl);
      if TestSuffices(p1, First(p2, fl)) then
        var code1 := Gen(p1, false, TestFor(cs1), fl);
        TestChoiceCode(cs1, code1, p2.TTrue?, code2)
      else if opt && p2.TTrue? then
        OptionalCode(Gen(p1, true, NoTest, FULLSET))
      else
        var code1 := Gen(p1, p2.TTrue?, OptGuard(cs1, FirstEmpty(p1)), FULLSET);
        ChoiceCode(cs1, FirstEmpty(p1), code1, code2)
    case TRep(body) =>
      var st := First(body, FULLSET);
      if IsCharset(body) then
        SpanCode(ToCharset(body))
      else if TestSuffices(body, fl) then
        TestRepCode(st, Gen(body, false, TestFor(st), FULLSET))
      else
        RepCode(st, FirstEmpty(body), opt, Gen(body, false, NoTest, FULLSET))
    case TBehind(n, body) =>
      BehindCode(n) + Gen(body, false, NoTest, FULLSET)
    case TNot(body) =>
      NotCode(First(body, FULLSET), FirstEmpty(body), HeadFail(body), Gen(body, false, NoTest, FULLSET))
    case TAnd(body) =>
      var code := Gen(body, false, guard, FULLSET);
      if BehindSuffices(body) then
        code + BehindCode(FixedLen(body))
      else
        AndCode(code)
    case TCapture(kind, key, body) =>
      var code := Gen(body, false, guard, fl);
      if FullCaptureSuffices(body) then
        code + CaptureCode(IFullCapture, kind, key, FixedLen(body))
      else
        EnclosedCode(kind, key, code)
  }

  function SpanCode(cs: Charset): Code {
    [Inst(ISpan, 0, 0)] + CharsetSlots(cs)
  }

  function BehindCode(n: nat): Code {
    if n > 0 then Code1(IBehind, n) else []
  }

  function EnclosedCode(kind: nat, key: nat, code: Code): Code {
    CaptureCode(IOpenCapture, kind, key, 0) + code + CaptureCode(ICloseCapture, CCLOSE, 0, 0)
  }

  /** The choice of the enclosing optional pattern is moved here, then comes the pattern. */
  function OptionalCode(code1: Code): Code {
    Jump(IPartialCommit, 2) + code1
  }

  predicate BehindSuffices(body: Tree) {
    0 <= FixedLen(body) <= MAXBEHIND && !HasCaptures(body)
  }

  predicate FullCaptureSuffices(body: Tree) {
    0 <= FixedLen(body) <= MAXOFF && !HasCaptures(body)
  }

  /** A choice decided by a test: the first branch, a jump over the second one unless that is empty, the second. */
  function TestChoiceCode(cs1: Charset, code1: Code, emptyP2: bool, code2: Code): Code {
    var skip := if emptyP2 then [] else Jump(IJmp, 2 + |code2|);
    TestCode(cs1, |code1| + |skip|) + code1 + skip + code2
  }

  /** A choice with an entry on the stack around the first branch, and a test in front if there is one. */
  function ChoiceCode(cs1: Charset, e1: bool, code1: Code, code2: Code): Code {
    OptTestCode(cs1, e1, 2 + |code1| + 2) + Jump(IChoice, 2 + |code1| + 2) + code1 +
    Jump(ICommit, 2 + |code2|) + code2
  }

  /** A loop that is left at its test. */
  function TestRepCode(st: Charset, code: Code): Code {
    TestCode(st, |code| + 2) + code + Jump(IJmp, -(TestSize(st) + |code|))
  }

  /** A loop with an entry on the stack that is moved at every turn; an enclosing optional pattern has one
      already. */
  function RepCode(st: Charset, e1: bool, opt: bool, code: Code): Code {
    OptTestCode(st, e1, 2 + |code| + 2) +
    (if opt then Jump(IPartialCommit, 2) else Jump(IChoice, 2 + |code| + 2)) +
    code + Jump(IPartialCommit, -|code|)
  }

  /** A negative look-ahead: the test alone, or the pattern inside a choice, which failing twice takes along. */
  function NotCode(st: Charset, e: bool, headFail: bool, code: Code): Code {
    if headFail then
      OptTestCode(st, e, 1) + Code1(IFail, 0)
    else
      OptTestCode(st, e, 2 + |code| + 1) + Jump(IChoice, 2 + |code| + 1) + code + Code1(IFailTwice, 0)
  }

  /** A positive look-ahead: the pattern inside a choice, back to where it began, and around the failure. */
  function AndCode(code: Code): Code {
    Jump(IChoice, 2 + |code| + 2) + code + Jump(IBackCommit, 2 + 1) + Code1(IFail, 0)
  }
}
