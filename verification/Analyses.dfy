/** The static analyses of the LPeg compiler and their soundness. */
module Analyses {
  import opened PegTree

  /** 'tocharset': the set of a one-character pattern. */
  predicate IsCharset(t: Tree) {
    t.TChar? || t.TSet? || t.TAny?
  }

  function ToCharset(t: Tree): Charset
    requires IsCharset(t)
  {
    match t
    case TChar(c) => {c}
    case TSet(cs) => cs
    case TAny => FULLSET
  }

  predicate HasCaptures(t: Tree) {
    match t
    case TCapture(_, _, _) => true
    case TSeq(p1, p2) => HasCaptures(p1) || HasCaptures(p2)
    case TChoice(p1, p2) => HasCaptures(p1) || HasCaptures(p2)
    case TRep(body) => HasCaptures(body)
    case TNot(body) => HasCaptures(body)
    case TAnd(body) => HasCaptures(body)
    case TBehind(_, body) => HasCaptures(body)
    case _ => false
  }

  datatype Pred = PEnullable | PEnofail

  predicate CheckAux(t: Tree, pred: Pred) {
    match t
    case TChar(_) => false
    case TSet(_) => false
    case TAny => false
    case TFalse => false
    case TRep(_) => true
    case TTrue => true
    case TNot(_) => pred != PEnofail
    case TBehind(_, _) => pred != PEnofail
    case TAnd(body) => pred == PEnullable || CheckAux(body, pred)
    case TSeq(p1, p2) => CheckAux(p1, pred) && CheckAux(p2, pred)
    case TChoice(p1, p2) => CheckAux(p2, pred) || CheckAux(p1, pred)
    case TCapture(_, _, body) => CheckAux(body, pred)
  }

  predicate Nullable(t: Tree) {
    CheckAux(t, PEnullable)
  }

  predicate NoFail(t: Tree) {
    CheckAux(t, PEnofail)
  }

  /** 'fixedlenx': 'len' accumulates the length found so far; -1 is "variable". */
  function FixedLenX(t: Tree, len: int): int
  {
    match t
    case TChar(_) => len + 1
    case TSet(_) => len + 1
    case TAny => len + 1
    case TFalse => len
    case TTrue => len
    case TNot(_) => len
    case TAnd(_) => len
    case TBehind(_, _) => len
    case TRep(_) => -1
    case TCapture(_, _, body) => FixedLenX(body, len)
    case TSeq(p1, p2) =>
      var n := FixedLenX(p1, len);
      if n < 0 then -1 else FixedLenX(p2, n)
    case TChoice(p1, p2) =>
      var n1 := FixedLenX(p1, len);
      if n1 < 0 then -1
      else if n1 == FixedLenX(p2, len) then n1 else -1
  }

  function FixedLen(t: Tree): int {
    FixedLenX(t, 0)
  }

  /** 'getfirst': the first set of 't' when 'follow' is the first set of what comes after. */
  function First(t: Tree, follow: Charset): Charset {
    match t
    case TChar(c) => {c}
    case TSet(cs) => cs
    case TAny => FULLSET
    case TTrue => follow
    case TFalse => {}
    case TChoice(p1, p2) => First(p1, follow) + First(p2, follow)
    case TSeq(p1, p2) =>
      if !Nullable(p1) then First(p1, FULLSET) else First(p1, First(p2, follow))
    case TRep(body) => First(body, follow) + follow
    case TCapture(_, _, body) => First(body, follow)
    case TAnd(body) => First(body, follow) * follow
    case TNot(body) => if IsCharset(body) then FULLSET - ToCharset(body) else follow
    case TBehind(_, _) => follow
  }

  /** The return value of 'getfirst': may the pattern accept the empty string? Without
      run-time captures no other reason for a non-zero result is left. */
  predicate FirstEmpty(t: Tree) {
    match t
    case TChar(_) => false
    case TSet(_) => false
    case TAny => false
    case TTrue => true
    case TFalse => false
    case TChoice(p1, p2) => FirstEmpty(p1) || FirstEmpty(p2)
    case TSeq(p1, p2) => FirstEmpty(p1) && (Nullable(p1) ==> FirstEmpty(p2))
    case TRep(_) => true
    case TCapture(_, _, body) => FirstEmpty(body)
    case TAnd(body) => FirstEmpty(body)
    case TNot(_) => true
    case TBehind(_, _) => true
  }

  predicate HeadFail(t: Tree) {
    match t
    case TChar(_) => true
    case TSet(_) => true
    case TAny => true
    case TFalse => true
    case TTrue => false
    case TRep(_) => false
    case TNot(_) => false
    case TBehind(_, _) => false
    case TCapture(_, _, body) => HeadFail(body)
    case TAnd(body) => HeadFail(body)
    case TSeq(p1, p2) => NoFail(p2) && HeadFail(p1)
    case TChoice(p1, p2) => HeadFail(p1) && HeadFail(p2)
  }

  predicate NeedFollow(t: Tree) {
    match t
    case TChoice(_, _) => true
    case TRep(_) => true
    case TCapture(_, _, body) => NeedFollow(body)
    case TSeq(_, p2) => NeedFollow(p2)
    case _ => false
  }

  /** What the pattern constructors guarantee: no repetition of a nullable body, and a
      look-behind carries the length of its capture-free body. A capture kind is not the
      kind of a close mark and fits in four bits. */
  predicate WellFormed(t: Tree) {
    match t
    case TRep(body) => !Nullable(body) && WellFormed(body)
    case TSeq(p1, p2) => WellFormed(p1) && WellFormed(p2)
    case TChoice(p1, p2) => WellFormed(p1) && WellFormed(p2)
    case TNot(body) => WellFormed(body)
    case TAnd(body) => WellFormed(body)
    case TBehind(n, body) =>
      n == FixedLen(body) && n <= MAXBEHIND && !HasCaptures(body) && WellFormed(body)
    case TCapture(kind, _, body) => 0 < kind < 16 && WellFormed(body)
    case _ => true
  }

  // ----- soundness -----

  /** Not nullable: every match consumes something. */
  lemma {:induction false} NullableSound(t: Tree, s: Subject, i: nat)
    requires i <= |s| && !Nullable(t)
    ensures Peg(t, s, i).Success? ==> Peg(t, s, i).pos > i
  {
    match t
    case TSeq(p1, p2) =>
      var m := Peg(p1, s, i);
      if !Nullable(p1) {
        NullableSound(p1, s, i);
      } else if m.Success? {
        NullableSound(p2, s, m.pos);
      }
    case TChoice(p1, p2) =>
      NullableSound(p1, s, i);
      NullableSound(p2, s, i);
    case TCapture(_, _, body) => NullableSound(body, s, i);
    case _ =>
  }

  /** No fail: the pattern matches at every position. */
  lemma {:induction false} NoFailSound(t: Tree, s: Subject, i: nat)
    requires i <= |s| && NoFail(t)
    ensures Peg(t, s, i).Success?
  {
    match t
    case TRep(body) => RepSucceeds(body, s, i);
    case TAnd(body) => NoFailSound(body, s, i);
    case TSeq(p1, p2) =>
      NoFailSound(p1, s, i);
      NoFailSound(p2, s, Peg(p1, s, i).pos);
    case TChoice(p1, p2) =>
      if NoFail(p2) {
        NoFailSound(p2, s, i);
      } else {
        NoFailSound(p1, s, i);
      }
    case TCapture(_, _, body) => NoFailSound(body, s, i);
    case _ =>
  }

  /** A fixed length is the length of every match, on top of the accumulator. */
  lemma {:induction false} FixedLenSound(t: Tree, len: nat, s: Subject, i: nat)
    requires i <= |s| && FixedLenX(t, len) >= 0
    ensures Peg(t, s, i).Success? ==> Peg(t, s, i).pos - i == FixedLenX(t, len) - len
  {
    match t
    case TCapture(_, _, body) => FixedLenSound(body, len, s, i);
    case TSeq(p1, p2) =>
      FixedLenSound(p1, len, s, i);
      var m := Peg(p1, s, i);
      if m.Success? {
        FixedLenSound(p2, FixedLenX(p1, len), s, m.pos);
      }
    case TChoice(p1, p2) =>
      FixedLenSound(p1, len, s, i);
      FixedLenSound(p2, len, s, i);
    case _ =>
  }

  lemma {:induction false} HasCapturesSound(t: Tree, s: Subject, i: nat)
    requires i <= |s| && !HasCaptures(t)
    ensures Peg(t, s, i).Success? ==> Peg(t, s, i).caps == []
    decreases t, |s| - i
  {
    match t
    case TSeq(p1, p2) =>
      HasCapturesSound(p1, s, i);
      var m := Peg(p1, s, i);
      if m.Success? {
        HasCapturesSound(p2, s, m.pos);
      }
    case TChoice(p1, p2) =>
      HasCapturesSound(p1, s, i);
      HasCapturesSound(p2, s, i);
    case TRep(body) =>
      HasCapturesSound(body, s, i);
      var m := Peg(body, s, i);
      if m.Success? && m.pos > i {
        HasCapturesSound(t, s, m.pos);
      }
    case _ =>
  }

  /** The first set with its follow set: at a head outside it the pattern fails, or it
      matches nothing and the head is outside the follow set too. */
  lemma {:induction false} FirstSound(t: Tree, follow: Charset, s: Subject, i: nat)
    requires WellFormed(t) && i < |s| && s[i] !in First(t, follow)
    ensures Peg(t, s, i).Success? ==> Peg(t, s, i).pos == i && s[i] !in follow
  {
    match t
    case TChoice(p1, p2) =>
      FirstSound(p1, follow, s, i);
      FirstSound(p2, follow, s, i);
    case TSeq(p1, p2) =>
      if !Nullable(p1) {
        FirstSound(p1, FULLSET, s, i);
      } else {
        FirstSound(p1, First(p2, follow), s, i);
        if Peg(p1, s, i).Success? {
          FirstSound(p2, follow, s, i);
        }
      }
    case TRep(body) =>
      FirstSound(body, follow, s, i);
      NullableSound(body, s, i);
    case TCapture(_, _, body) => FirstSound(body, follow, s, i);
    case TAnd(body) =>
      if s[i] !in First(body, follow) {
        FirstSound(body, follow, s, i);
      }
    case _ =>
  }

  /** A pattern that does not accept the empty string fails at the end of the subject. */
  lemma {:induction false} FirstEmptySound(t: Tree, s: Subject)
    requires !FirstEmpty(t)
    ensures Peg(t, s, |s|).Failure?
  {
    match t
    case TChoice(p1, p2) =>
      FirstEmptySound(p1, s);
      FirstEmptySound(p2, s);
    case TSeq(p1, p2) =>
      if !FirstEmpty(p1) {
        FirstEmptySound(p1, s);
      } else {
        FirstEmptySound(p2, s);
      }
    case TCapture(_, _, body) => FirstEmptySound(body, s);
    case TAnd(body) => FirstEmptySound(body, s);
    case _ =>
  }

  lemma {:induction false} FirstMonotone(t: Tree, small: Charset, big: Charset)
    requires small <= big
    ensures First(t, small) <= First(t, big)
  {
    match t
    case TChoice(p1, p2) =>
      FirstMonotone(p1, small, big);
      FirstMonotone(p2, small, big);
    case TSeq(p1, p2) =>
      if Nullable(p1) {
        FirstMonotone(p2, small, big);
        FirstMonotone(p1, First(p2, small), First(p2, big));
      }
    case TRep(body) => FirstMonotone(body, small, big);
    case TCapture(_, _, body) => FirstMonotone(body, small, big);
    case TAnd(body) => FirstMonotone(body, small, big);
    case _ =>
  }

  lemma {:induction false} HeadFailNotEmpty(t: Tree)
    requires HeadFail(t)
    ensures !FirstEmpty(t)
  {
    match t
    case TCapture(_, _, body) => HeadFailNotEmpty(body);
    case TAnd(body) => HeadFailNotEmpty(body);
    case TSeq(p1, p2) => HeadFailNotEmpty(p1);
    case TChoice(p1, p2) =>
      HeadFailNotEmpty(p1);
      HeadFailNotEmpty(p2);
    case _ =>
  }

  lemma {:induction false} HeadFailMatches(t: Tree, s: Subject, i: nat)
    requires WellFormed(t) && HeadFail(t) && i < |s| && s[i] in First(t, FULLSET)
    ensures Peg(t, s, i).Success?
  {
    match t
    case TCapture(_, _, body) => HeadFailMatches(body, s, i);
    case TAnd(body) => HeadFailMatches(body, s, i);
    case TSeq(p1, p2) =>
      if Nullable(p1) {
        FirstMonotone(p1, First(p2, FULLSET), FULLSET);
      }
      HeadFailMatches(p1, s, i);
      NoFailSound(p2, s, Peg(p1, s, i).pos);
    case TChoice(p1, p2) =>
      if s[i] in First(p1, FULLSET) {
        HeadFailMatches(p1, s, i);
      } else {
        HeadFailMatches(p2, s, i);
      }
    case _ =>
  }

  /** Head fail: whether the pattern matches is decided by the next character alone. */
  lemma HeadFailSound(t: Tree, s: Subject, i: nat)
    requires WellFormed(t) && HeadFail(t) && i <= |s|
    ensures Peg(t, s, i).Success? <==> i < |s| && s[i] in First(t, FULLSET)
  {
    if i == |s| {
      HeadFailNotEmpty(t);
      FirstEmptySound(t, s);
    } else if s[i] in First(t, FULLSET) {
      HeadFailMatches(t, s, i);
    } else {
      FirstSound(t, FULLSET, s, i);
    }
  }

  /** A test that rejects the head can skip the pattern. */
  lemma TestSkips(t: Tree, s: Subject, i: nat)
    requires WellFormed(t) && !FirstEmpty(t) && i <= |s|
    requires !(i < |s| && s[i] in First(t, FULLSET))
    ensures Peg(t, s, i).Failure?
  {
    if i == |s| {
      FirstEmptySound(t, s);
    } else {
      FirstSound(t, FULLSET, s, i);
    }
  }
}
