/** Making sequences and choices right-associative keeps the meaning of a pattern. */
module Associativity {

  import opened PegTree
  import opened Analyses

  function Size(t: Tree): nat {
    match t
    case TRep(body) => 1 + Size(body)
    case TSeq(p1, p2) => 1 + Size(p1) + Size(p2)
    case TChoice(p1, p2) => 1 + Size(p1) + Size(p2)
    case TNot(body) => 1 + Size(body)
    case TAnd(body) => 1 + Size(body)
    case TBehind(_, body) => 1 + Size(body)
    case TCapture(_, _, body) => 1 + Size(body)
    case _ => 1
  }

  predicate LeftNested(t: Tree) {
    (t.TSeq? && t.p1.TSeq?) || (t.TChoice? && t.p1.TChoice?)
  }

  /** Op (Op t11 t12) t2 becomes Op t11 (Op t12 t2). */
  function Rotate(t: Tree): (r: Tree)
    requires LeftNested(t)
    ensures r.TSeq? == t.TSeq? && r.TChoice? == t.TChoice?
    ensures Size(r) == Size(t) && Size(r.p1) < Size(t.p1)
  {
    if t.TSeq? then TSeq(t.p1.p1, TSeq(t.p1.p2, t.p2)) else TChoice(t.p1.p1, TChoice(t.p1.p2, t.p2))
  }

  function Rotated(t: Tree): (r: Tree)
    ensures Size(r) == Size(t) && !LeftNested(r) && r.TSeq? == t.TSeq? && r.TChoice? == t.TChoice?
    ensures !(t.TSeq? || t.TChoice?) ==> r == t
    decreases if t.TSeq? || t.TChoice? then Size(t.p1) else 0
  {
    if LeftNested(t) then Rotated(Rotate(t)) else t
  }

  /** Every sequence and choice right-associative. */
  function Fixed(t: Tree): (r: Tree)
    ensures Size(r) == Size(t)
    decreases Size(t)
  {
    match Rotated(t)
    case TRep(body) => TRep(Fixed(body))
    case TSeq(p1, p2) => TSeq(Fixed(p1), Fixed(p2))
    case TChoice(p1, p2) => TChoice(Fixed(p1), Fixed(p2))
    case TNot(body) => TNot(Fixed(body))
    case TAnd(body) => TAnd(Fixed(body))
    case TBehind(n, body) => TBehind(n, Fixed(body))
    case TCapture(kind, key, body) => TCapture(kind, key, Fixed(body))
    case TChar(_) => t
    case TSet(_) => t
    case TAny => t
    case TTrue => t
    case TFalse => t
  }

  /** No sequence begins with a sequence, and no choice with a choice. */
  predicate RightNested(t: Tree) {
    !LeftNested(t)
    && match t
       case TRep(body) => RightNested(body)
       case TSeq(p1, p2) => RightNested(p1) && RightNested(p2)
       case TChoice(p1, p2) => RightNested(p1) && RightNested(p2)
       case TNot(body) => RightNested(body)
       case TAnd(body) => RightNested(body)
       case TBehind(_, body) => RightNested(body)
       case TCapture(_, _, body) => RightNested(body)
       case _ => true
  }

  lemma {:induction false} FixedIsRightNested(t: Tree)
    ensures RightNested(Fixed(t))
    ensures Fixed(t).TSeq? == t.TSeq? && Fixed(t).TChoice? == t.TChoice?
    decreases Size(t)
  {
    match Rotated(t)
    case TRep(body) => FixedIsRightNested(body);
    case TSeq(p1, p2) => FixedIsRightNested(p1); FixedIsRightNested(p2);
    case TChoice(p1, p2) => FixedIsRightNested(p1); FixedIsRightNested(p2);
    case TNot(body) => FixedIsRightNested(body);
    case TAnd(body) => FixedIsRightNested(body);
    case TBehind(_, body) => FixedIsRightNested(body);
    case TCapture(_, _, body) => FixedIsRightNested(body);
    case _ =>
  }

  // ----- the meaning -----

  lemma RotateKeepsMeaning(t: Tree, s: Subject, i: nat)
    requires LeftNested(t) && i <= |s|
    ensures Peg(Rotate(t), s, i) == Peg(t, s, i)
  {
    if t.TSeq? {
      var m1 := Peg(t.p1.p1, s, i);
      if m1.Success? {
        var m2 := Peg(t.p1.p2, s, m1.pos);
        if m2.Success? {
          var m3 := Peg(t.p2, s, m2.pos);
          if m3.Success? {
            assert (m1.caps + m2.caps) + m3.caps == m1.caps + (m2.caps + m3.caps);
          }
        }
      }
    }
  }

  lemma {:induction false} RotatedKeepsMeaning(t: Tree, s: Subject, i: nat)
    requires i <= |s|
    ensures Peg(Rotated(t), s, i) == Peg(t, s, i)
    decreases if t.TSeq? || t.TChoice? then Size(t.p1) else 0
  {
    if LeftNested(t) {
      RotateKeepsMeaning(t, s, i);
      RotatedKeepsMeaning(Rotate(t), s, i);
    }
  }

  ghost predicate SameMeaning(t: Tree, u: Tree) {
    forall s: Subject, i: nat :: i <= |s| ==> Peg(t, s, i) == Peg(u, s, i)
  }

  lemma {:induction false} RepsMean(body: Tree, other: Tree, s: Subject, i: nat)
    requires SameMeaning(body, other) && i <= |s|
    ensures Peg(TRep(body), s, i) == Peg(TRep(other), s, i)
    decreases |s| - i
  {
    var m := Peg(body, s, i);
    assert m == Peg(other, s, i);
    if m.Success? && m.pos > i {
      RepsMean(body, other, s, m.pos);
    }
  }

  /** The corrected tree means the same, captures included. */
  lemma {:induction false} FixedKeepsMeaning(t: Tree)
    ensures SameMeaning(Fixed(t), t)
    decreases Size(t)
  {
    var r := Rotated(t);
    forall s: Subject, i: nat | i <= |s| ensures Peg(Fixed(t), s, i) == Peg(t, s, i) {
      RotatedKeepsMeaning(t, s, i);
      match r {
        case TRep(body) =>
          FixedKeepsMeaning(body);
          RepsMean(Fixed(body), body, s, i);
        case TSeq(p1, p2) =>
          FixedKeepsMeaning(p1);
          FixedKeepsMeaning(p2);
        case TChoice(p1, p2) =>
          FixedKeepsMeaning(p1);
          FixedKeepsMeaning(p2);
        case TNot(body) => FixedKeepsMeaning(body);
        case TAnd(body) => FixedKeepsMeaning(body);
        case TBehind(_, body) => FixedKeepsMeaning(body);
        case TCapture(_, _, body) => FixedKeepsMeaning(body);
        case _ =>
      }
    }
  }

  // ----- well-formedness -----

  ghost predicate SameChecks(t: Tree, u: Tree) {
    forall pred :: CheckAux(t, pred) == CheckAux(u, pred)
  }

  ghost predicate SameLengths(t: Tree, u: Tree) {
    forall len :: len >= 0 ==> FixedLenX(t, len) == FixedLenX(u, len)
  }

  /** What the other analyses and the checks on trees ask about a subtree. */
  ghost predicate SameTraits(t: Tree, u: Tree) {
    && (WellFormed(t) <==> WellFormed(u)) && (HasCaptures(t) <==> HasCaptures(u))
    && SameChecks(t, u) && SameLengths(t, u)
  }

  lemma {:induction false} FixedLenAtLeast(t: Tree, len: nat)
    ensures FixedLenX(t, len) >= -1
  {
    match t
    case TSeq(p1, p2) =>
      FixedLenAtLeast(p1, len);
      if FixedLenX(p1, len) >= 0 {
        FixedLenAtLeast(p2, FixedLenX(p1, len));
      }
    case TChoice(p1, p2) => FixedLenAtLeast(p1, len);
    case TCapture(_, _, body) => FixedLenAtLeast(body, len);
    case _ =>
  }

  lemma RotateKeepsTraits(t: Tree)
    requires LeftNested(t)
    ensures SameTraits(Rotate(t), t)
  {
    forall len | len >= 0 ensures FixedLenX(Rotate(t), len) == FixedLenX(t, len) {
      FixedLenAtLeast(t.p1.p1, len);
      FixedLenAtLeast(t.p1.p2, len);
      FixedLenAtLeast(t.p2, len);
    }
  }

  lemma {:induction false} RotatedKeepsTraits(t: Tree)
    ensures SameTraits(Rotated(t), t)
    decreases if t.TSeq? || t.TChoice? then Size(t.p1) else 0
  {
    if LeftNested(t) {
      RotateKeepsTraits(t);
      RotatedKeepsTraits(Rotate(t));
    }
  }

  lemma PairTraits(p1: Tree, p2: Tree, q1: Tree, q2: Tree)
    requires SameTraits(p1, q1) && SameTraits(p2, q2)
    ensures SameTraits(TSeq(p1, p2), TSeq(q1, q2)) && SameTraits(TChoice(p1, p2), TChoice(q1, q2))
  {
    forall len: nat
      ensures FixedLenX(TSeq(p1, p2), len) == FixedLenX(TSeq(q1, q2), len)
      ensures FixedLenX(TChoice(p1, p2), len) == FixedLenX(TChoice(q1, q2), len)
    {
      var n := FixedLenX(p1, len);
      assert n == FixedLenX(q1, len) && FixedLenX(p2, len) == FixedLenX(q2, len);
      if n >= 0 {
        assert FixedLenX(p2, n) == FixedLenX(q2, n);
      }
    }
  }

  lemma BodyLengths(body: Tree, other: Tree, n: nat, kind: nat, key: nat)
    requires SameLengths(body, other)
    ensures SameLengths(TRep(body), TRep(other)) && SameLengths(TNot(body), TNot(other))
    ensures SameLengths(TBehind(n, body), TBehind(n, other))
    ensures SameLengths(TAnd(body), TAnd(other)) && SameLengths(TCapture(kind, key, body), TCapture(kind, key, other))
  {
    forall len | len >= 0
      ensures FixedLenX(TAnd(body), len) == FixedLenX(TAnd(other), len)
      ensures FixedLenX(TCapture(kind, key, body), len) == FixedLenX(TCapture(kind, key, other), len)
    {
      assert FixedLenX(body, len) == FixedLenX(other, len);
    }
  }

  lemma BodyChecks(body: Tree, other: Tree, n: nat, kind: nat, key: nat)
    requires SameChecks(body, other)
    ensures SameChecks(TRep(body), TRep(other)) && SameChecks(TNot(body), TNot(other))
    ensures SameChecks(TAnd(body), TAnd(other))
    ensures SameChecks(TBehind(n, body), TBehind(n, other))
    ensures SameChecks(TCapture(kind, key, body), TCapture(kind, key, other))
  {
    forall pred
      ensures CheckAux(TAnd(body), pred) == CheckAux(TAnd(other), pred)
      ensures CheckAux(TCapture(kind, key, body), pred) == CheckAux(TCapture(kind, key, other), pred)
    {
      assert CheckAux(body, pred) == CheckAux(other, pred);
    }
  }

  lemma BodyFormed(body: Tree, other: Tree, n: nat, kind: nat, key: nat)
    requires SameTraits(body, other)
    ensures WellFormed(TRep(body)) == WellFormed(TRep(other)) && WellFormed(TNot(body)) == WellFormed(TNot(other))
    ensures WellFormed(TAnd(body)) == WellFormed(TAnd(other))
    ensures WellFormed(TBehind(n, body)) == WellFormed(TBehind(n, other))
    ensures WellFormed(TCapture(kind, key, body)) == WellFormed(TCapture(kind, key, other))
  {
    assert FixedLenX(body, 0) == FixedLenX(other, 0);
    hide CheckAux, FixedLenX, HasCaptures;
    assert CheckAux(body, PEnullable) == CheckAux(other, PEnullable);
  }

  lemma BodyTraits(body: Tree, other: Tree, n: nat, kind: nat, key: nat)
    requires SameTraits(body, other)
    ensures SameTraits(TRep(body), TRep(other)) && SameTraits(TNot(body), TNot(other))
    ensures SameTraits(TAnd(body), TAnd(other))
    ensures SameTraits(TBehind(n, body), TBehind(n, other))
    ensures SameTraits(TCapture(kind, key, body), TCapture(kind, key, other))
  {
    BodyLengths(body, other, n, kind, key);
    BodyChecks(body, other, n, kind, key);
    BodyFormed(body, other, n, kind, key);
    hide SameLengths, SameChecks, WellFormed;
  }

  lemma SameTraitsItself(t: Tree)
    ensures SameTraits(t, t)
  {
  }

  lemma SameLengthsTrans(t: Tree, u: Tree, v: Tree)
    requires SameLengths(t, u) && SameLengths(u, v)
    ensures SameLengths(t, v)
  {
    hide FixedLenX;
    forall len | len >= 0 ensures FixedLenX(t, len) == FixedLenX(v, len) {
      assert FixedLenX(t, len) == FixedLenX(u, len) == FixedLenX(v, len);
    }
  }

  lemma SameChecksTrans(t: Tree, u: Tree, v: Tree)
    requires SameChecks(t, u) && SameChecks(u, v)
    ensures SameChecks(t, v)
  {
    hide CheckAux;
    forall pred ensures CheckAux(t, pred) == CheckAux(v, pred) {
      assert CheckAux(t, pred) == CheckAux(u, pred);
    }
  }

  lemma SameTraitsTrans(t: Tree, u: Tree, v: Tree)
    requires SameTraits(t, u) && SameTraits(u, v)
    ensures SameTraits(t, v)
  {
    SameLengthsTrans(t, u, v);
    SameChecksTrans(t, u, v);
    hide WellFormed, HasCaptures, SameLengths, SameChecks;
  }

  /** The corrected tree is well-formed exactly when the given one is. */
  lemma {:induction false} FixedKeepsTraits(t: Tree)
    ensures SameTraits(Fixed(t), t)
    decreases Size(t)
  {
    hide SameTraits;
    match Rotated(t) {
      case TRep(body) => FixedKeepsTraits(body); BodyTraits(Fixed(body), body, 0, 0, 0);
      case TSeq(p1, p2) => FixedKeepsTraits(p1); FixedKeepsTraits(p2); PairTraits(Fixed(p1), Fixed(p2), p1, p2);
      case TChoice(p1, p2) => FixedKeepsTraits(p1); FixedKeepsTraits(p2); PairTraits(Fixed(p1), Fixed(p2), p1, p2);
      case TNot(body) => FixedKeepsTraits(body); BodyTraits(Fixed(body), body, 0, 0, 0);
      case TAnd(body) => FixedKeepsTraits(body); BodyTraits(Fixed(body), body, 0, 0, 0);
      case TBehind(n, body) => FixedKeepsTraits(body); BodyTraits(Fixed(body), body, n, 0, 0);
      case TCapture(kind, key, body) => FixedKeepsTraits(body); BodyTraits(Fixed(body), body, 0, kind, key);
      case _ => SameTraitsItself(t);
    }
    RotatedKeepsTraits(t);
    SameTraitsTrans(Fixed(t), Rotated(t), t);
  }
}
