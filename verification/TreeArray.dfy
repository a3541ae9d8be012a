/** Pattern trees as LPeg keeps them: the nodes in an array, each before its subtrees, the second
    subtree found by a relative offset. */
module TreeArray {

  import opened PegTree
  import opened Analyses
  import opened Associativity

  datatype Tag = CharTag | SetTag | AnyTag | TrueTag | FalseTag | RepTag | SeqTag | ChoiceTag
    | NotTag | AndTag | BehindTag | CaptureTag

  /** 'u' is the offset 'ps' of the second subtree, or the number 'n'. The set of a TSet takes the
      room of further nodes in the C array; here the node holds it. */
  datatype Node = Node(tag: Tag, cap: nat, key: nat, u: nat, cs: Charset)

  /** The nodes from 'i' on are the tree 't'; fields that the tag does not use may hold anything. */
  predicate Holds(a: seq<Node>, i: nat, t: Tree)
    decreases t
  {
    i + Size(t) <= |a|
    && match t
       case TChar(c) => a[i].tag == CharTag && a[i].u == c
       case TSet(cs) => a[i].tag == SetTag && a[i].cs == cs
       case TAny => a[i].tag == AnyTag
       case TTrue => a[i].tag == TrueTag
       case TFalse => a[i].tag == FalseTag
       case TRep(body) => a[i].tag == RepTag && Holds(a, i + 1, body)
       case TSeq(p1, p2) =>
         a[i].tag == SeqTag && a[i].u == 1 + Size(p1) && Holds(a, i + 1, p1) && Holds(a, i + 1 + Size(p1), p2)
       case TChoice(p1, p2) =>
         a[i].tag == ChoiceTag && a[i].u == 1 + Size(p1) && Holds(a, i + 1, p1) && Holds(a, i + 1 + Size(p1), p2)
       case TNot(body) => a[i].tag == NotTag && Holds(a, i + 1, body)
       case TAnd(body) => a[i].tag == AndTag && Holds(a, i + 1, body)
       case TBehind(n, body) => a[i].tag == BehindTag && a[i].u == n && Holds(a, i + 1, body)
       case TCapture(kind, key, body) =>
         a[i].tag == CaptureTag && a[i].cap == kind && a[i].key == key && Holds(a, i + 1, body)
  }

  /** The 'n' nodes from 'i' on in 'a' are those from 'j' on in 'b'. */
  ghost predicate Same(a: seq<Node>, i: nat, b: seq<Node>, j: nat, n: nat) {
    i + n <= |a| && j + n <= |b| && forall k :: i <= k < i + n ==> a[k] == b[k + (j - i)]
  }

  lemma SameInside(a: seq<Node>, i: nat, b: seq<Node>, j: nat, n: nat, d: nat, m: nat)
    requires Same(a, i, b, j, n) && d + m <= n
    ensures Same(a, i + d, b, j + d, m)
  {
  }

  predicate IsPair(t: Tree) {
    t.TSeq? || t.TChoice?
  }

  predicate HasBody(t: Tree) {
    t.TRep? || t.TNot? || t.TAnd? || t.TBehind? || t.TCapture?
  }

  lemma OpenPair(a: seq<Node>, i: nat, t: Tree)
    requires IsPair(t)
    ensures Size(t) == 1 + Size(t.p1) + Size(t.p2) && Size(t.p1) > 0 && Size(t.p2) > 0
    ensures Holds(a, i, t) <==>
      i + Size(t) <= |a| && a[i].tag == (if t.TSeq? then SeqTag else ChoiceTag) && a[i].u == 1 + Size(t.p1)
      && Holds(a, i + 1, t.p1) && Holds(a, i + 1 + Size(t.p1), t.p2)
  {
  }

  lemma OpenBody(a: seq<Node>, i: nat, b: seq<Node>, j: nat, t: Tree)
    requires HasBody(t) && Holds(a, i, t) && j + Size(t) <= |b|
    ensures Size(t) == 1 + Size(t.body) && Holds(a, i + 1, t.body)
    ensures b[j] == a[i] && Holds(b, j + 1, t.body) ==> Holds(b, j, t)
  {
  }

  lemma OpenLeaf(a: seq<Node>, i: nat, b: seq<Node>, j: nat, t: Tree)
    requires !IsPair(t) && !HasBody(t) && Holds(a, i, t) && j < |b| && b[j] == a[i]
    ensures Holds(b, j, t)
  {
  }

  lemma InRange(a: seq<Node>, i: nat, t: Tree)
    requires Holds(a, i, t)
    ensures i + Size(t) <= |a| && Size(t) > 0
  {
  }

  /** A tree stays where its nodes do, and moves with them. */
  lemma {:induction false} HoldsMoves(a: seq<Node>, i: nat, b: seq<Node>, j: nat, t: Tree)
    requires Holds(a, i, t) && Same(a, i, b, j, Size(t))
    ensures Holds(b, j, t)
    decreases t
  {
    hide Holds, Size;
    InRange(a, i, t);
    assert a[i] == b[j] && j + Size(t) <= |b|;
    hide Same;
    if IsPair(t) {
      var p1, p2 := t.p1, t.p2;
      OpenPair(a, i, t);
      SameInside(a, i, b, j, Size(t), 1, Size(p1));
      SameInside(a, i, b, j, Size(t), 1 + Size(p1), Size(p2));
      HoldsMoves(a, i + 1, b, j + 1, p1);
      HoldsMoves(a, i + 1 + Size(p1), b, j + 1 + Size(p1), p2);
      OpenPair(b, j, t);
    } else if HasBody(t) {
      OpenBody(a, i, b, j, t);
      SameInside(a, i, b, j, Size(t), 1, Size(t.body));
      HoldsMoves(a, i + 1, b, j + 1, t.body);
    } else {
      OpenLeaf(a, i, b, j, t);
    }
  }

  /** memmove, for an overlapping move to the left. */
  method MoveLeft(a: array<Node>, dst: nat, src: nat, n: nat)
    requires dst <= src && src + n <= a.Length
    modifies a
    ensures Same(old(a[..]), src, a[..], dst, n)
    ensures forall k :: 0 <= k < a.Length && !(dst <= k < dst + n) ==> a[k] == old(a[k])
  {
    ghost var was := a[..];
    for k := 0 to n
      invariant forall m :: dst <= m < dst + k ==> a[m] == was[m + (src - dst)]
      invariant forall m :: 0 <= m < a.Length && !(dst <= m < dst + k) ==> a[m] == was[m]
    {
      a[dst + k] := a[src + k];
    }
    forall k | src <= k < src + n ensures was[k] == a[k + (dst - src)] {
      var m := k + (dst - src);
      assert a[m] == was[m + (src - dst)];
    }
  }

  /** One turn of correctassociativity, on the nodes. */
  lemma TurnHolds(a: seq<Node>, b: seq<Node>, i: nat, t: Tree)
    requires Holds(a, i, t) && LeftNested(t) && |b| == |a|
    requires var n11 := Size(t.p1.p1);
      && b[i].tag == a[i].tag && b[i].u == n11 + 1
      && Same(a, i + 2, b, i + 1, n11)
      && b[i + 1 + n11].tag == a[i].tag && b[i + 1 + n11].u == Size(t.p1.p2) + 1
      && Same(a, i + 2 + n11, b, i + 2 + n11, Size(t.p1.p2) + Size(t.p2))
    ensures Holds(b, i, Rotate(t))
  {
    hide Holds, Same, Size;
    var p11, p12, p2 := t.p1.p1, t.p1.p2, t.p2;
    var n11, n12 := Size(p11), Size(p12);
    InRange(a, i, t);
    OpenPair(a, i, t);
    OpenPair(a, i + 1, t.p1);
    HoldsMoves(a, i + 2, b, i + 1, p11);
    SameInside(a, i + 2 + n11, b, i + 2 + n11, n12 + Size(p2), 0, n12);
    SameInside(a, i + 2 + n11, b, i + 2 + n11, n12 + Size(p2), n12, Size(p2));
    HoldsMoves(a, i + 2 + n11, b, i + 2 + n11, p12);
    HoldsMoves(a, i + 2 + n11 + n12, b, i + 2 + n11 + n12, p2);
    OpenPair(b, i + 1 + n11, Rotate(t).p2);
    OpenPair(b, i, Rotate(t));
  }

  lemma SameKept(a: seq<Node>, i: nat, b: seq<Node>, j: nat, n: nat, c: seq<Node>)
    requires Same(a, i, b, j, n) && |c| == |b| && forall k :: j <= k < j + n ==> c[k] == b[k]
    ensures Same(a, i, c, j, n)
  {
  }

  lemma SameThere(a: seq<Node>, b: seq<Node>, i: nat, n: nat)
    requires i + n <= |a| == |b| && forall k :: i <= k < i + n ==> a[k] == b[k]
    ensures Same(a, i, b, i, n)
  {
  }

  /** The tag after the root tells whether the tree leans to the left. */
  lemma TagsTell(a: seq<Node>, i: nat, t: Tree)
    requires Holds(a, i, t) && IsPair(t)
    ensures i + 1 < |a| && (a[i + 1].tag == a[i].tag <==> LeftNested(t))
  {
  }

  lemma RotatedTurn(t: Tree)
    requires LeftNested(t)
    ensures Rotated(t) == Rotated(Rotate(t)) && Size(Rotate(t)) == Size(t) && Size(Rotate(t).p1) < Size(t.p1)
  {
  }

  lemma RotatedEnd(t: Tree)
    requires !LeftNested(t)
    ensures Rotated(t) == t
  {
  }

  /** What one turn writes, in terms of what was there. */
  lemma TurnWritten(was: seq<Node>, mid: seq<Node>, now: seq<Node>, i: nat, t: Tree)
    requires Holds(was, i, t) && LeftNested(t) && |mid| == |was| == |now|
    requires var n11 := Size(t.p1.p1);
      && i + 1 + n11 < |was| && Same(was, i + 2, mid, i + 1, n11)
      && (forall k :: 0 <= k < |was| && !(i + 1 <= k < i + 1 + n11) ==> mid[k] == was[k])
      && (forall k :: 0 <= k < |was| && k != i && k != i + 1 + n11 ==> now[k] == mid[k])
      && now[i].tag == was[i].tag && now[i].u == n11 + 1
      && now[i + 1 + n11].tag == was[i].tag && now[i + 1 + n11].u == Size(t.p1.p2) + 1
    ensures Holds(now, i, Rotate(t))
  {
    hide Holds, Size, Same;
    var n11 := Size(t.p1.p1);
    InRange(was, i, t);
    OpenPair(was, i, t);
    OpenPair(was, i + 1, t.p1);
    SameKept(was, i + 2, mid, i + 1, n11, now);
    SameThere(was, now, i + 2 + n11, Size(t.p1.p2) + Size(t.p2));
    TurnHolds(was, now, i, t);
  }

  /** The body of the loop of correctassociativity. */
  method RotateInPlace(a: array<Node>, i: nat, ghost t: Tree)
    requires Holds(a[..], i, t) && LeftNested(t)
    modifies a
    ensures Holds(a[..], i, Rotate(t))
    ensures forall k :: 0 <= k < a.Length && !(i <= k < i + Size(t)) ==> a[k] == old(a[k])
  {
    hide Holds, Size, Same;
    ghost var was := a[..];
    InRange(was, i, t);
    OpenPair(was, i, t);
    OpenPair(was, i + 1, t.p1);
    var n1size := a[i].u - 1;
    var n11size := a[i + 1].u - 1;
    var n12size := n1size - n11size - 1;
    MoveLeft(a, i + 1, i + 2, n11size);
    ghost var mid := a[..];
    a[i] := a[i].(u := n11size + 1);
    a[i + a[i].u] := a[i + a[i].u].(tag := a[i].tag);
    a[i + a[i].u] := a[i + a[i].u].(u := n12size + 1);
    TurnWritten(was, mid, a[..], i, t);
  }

  /** correctassociativity: rotates until the first subtree is of another kind. */
  method CorrectAssociativity(a: array<Node>, i: nat, ghost t: Tree)
    requires Holds(a[..], i, t) && IsPair(t)
    modifies a
    ensures Holds(a[..], i, Rotated(t))
    ensures forall k :: 0 <= k < a.Length && !(i <= k < i + Size(t)) ==> a[k] == old(a[k])
  {
    hide Holds, Size, Rotated;
    ghost var cur := t;
    TagsTell(a[..], i, t);
    while a[i + 1].tag == a[i].tag
      invariant Holds(a[..], i, cur) && IsPair(cur) && Size(cur) == Size(t) && Rotated(cur) == Rotated(t)
      invariant i + 1 < a.Length && (a[i + 1].tag == a[i].tag <==> LeftNested(cur))
      invariant forall k :: 0 <= k < a.Length && !(i <= k < i + Size(t)) ==> a[k] == old(a[k])
      decreases Size(cur.p1)
    {
      RotateInPlace(a, i, cur);
      RotatedTurn(cur);
      cur := Rotate(cur);
      TagsTell(a[..], i, cur);
    }
    RotatedEnd(cur);
  }

  lemma FixedPair(t: Tree)
    requires IsPair(t)
    ensures IsPair(Rotated(t)) && Fixed(t) == PairOf(Rotated(t), Fixed(Rotated(t).p1), Fixed(Rotated(t).p2))
    ensures Size(Fixed(Rotated(t).p1)) == Size(Rotated(t).p1) && Size(Fixed(Rotated(t).p2)) == Size(Rotated(t).p2)
  {
  }

  function PairOf(t: Tree, p1: Tree, p2: Tree): Tree
    requires IsPair(t)
  {
    if t.TSeq? then TSeq(p1, p2) else TChoice(p1, p2)
  }

  /** New subtrees of the same sizes in place make the new pair. */
  lemma PairHolds(a: seq<Node>, b: seq<Node>, c: seq<Node>, i: nat, t: Tree, p1: Tree, p2: Tree)
    requires IsPair(t) && Holds(a, i, t) && |a| == |b| == |c| && Size(p1) == Size(t.p1) && Size(p2) == Size(t.p2)
    requires Holds(b, i + 1, p1) && Holds(c, i + 1 + Size(p1), p2)
    requires forall k :: 0 <= k < |a| && !(i + 1 <= k < i + 1 + Size(p1)) ==> b[k] == a[k]
    requires forall k :: 0 <= k < |a| && !(i + 1 + Size(p1) <= k < i + Size(t)) ==> c[k] == b[k]
    ensures Holds(c, i, PairOf(t, p1, p2))
  {
    hide Holds, Size, Same;
    OpenPair(a, i, t);
    OpenPair(c, i, PairOf(t, p1, p2));
    InRange(a, i, t);
    SameThere(b, c, i + 1, Size(p1));
    HoldsMoves(b, i + 1, c, i + 1, p1);
    assert c[i] == b[i] == a[i];
  }

  lemma BodyFixed(a: seq<Node>, b: seq<Node>, i: nat, t: Tree)
    requires HasBody(t) && Holds(a, i, t) && Holds(b, i + 1, Fixed(t.body)) && |b| == |a| && b[i] == a[i]
    ensures Holds(b, i, Fixed(t))
  {
  }

  lemma LeafFixed(t: Tree)
    requires !IsPair(t) && !HasBody(t)
    ensures Fixed(t) == t
  {
  }

  lemma TagTells(a: seq<Node>, i: nat, t: Tree)
    requires Holds(a, i, t)
    ensures i < |a| && (a[i].tag in {SeqTag, ChoiceTag} <==> IsPair(t))
    ensures a[i].tag in {RepTag, NotTag, AndTag, BehindTag, CaptureTag} <==> HasBody(t)
  {
  }

  /** finalfix: corrects the associativity everywhere in the tree, in place. */
  method FinalFix(a: array<Node>, i: nat, ghost t: Tree)
    requires Holds(a[..], i, t)
    modifies a
    ensures Holds(a[..], i, Fixed(t))
    ensures forall k :: 0 <= k < a.Length && !(i <= k < i + Size(t)) ==> a[k] == old(a[k])
    decreases Size(t)
  {
    hide Holds, Size, Rotated, Fixed;
    InRange(a[..], i, t);
    TagTells(a[..], i, t);
    if a[i].tag in {SeqTag, ChoiceTag} {
      CorrectAssociativity(a, i, t);
      ghost var r, a1 := Rotated(t), a[..];
      FixedPair(t);
      OpenPair(a1, i, r);
      FinalFix(a, i + 1, r.p1);
      ghost var a2 := a[..];
      SameThere(a1, a2, i + 1 + Size(r.p1), Size(r.p2));
      HoldsMoves(a1, i + 1 + Size(r.p1), a2, i + 1 + Size(r.p1), r.p2);
      assert a[i] == a1[i];
      FinalFix(a, i + a[i].u, r.p2);
      PairHolds(a1, a2, a[..], i, r, Fixed(r.p1), Fixed(r.p2));
    } else if a[i].tag in {RepTag, NotTag, AndTag, BehindTag, CaptureTag} {
      ghost var a1 := a[..];
      OpenBody(a1, i, a1, i, t);
      FinalFix(a, i + 1, t.body);
      BodyFixed(a1, a[..], i, t);
    } else {
      LeafFixed(t);
    }
  }

  /** What finalfix leaves in the array is right-associative, means the same as the tree given,
      captures included, and is well-formed exactly when that is. */
  lemma FinalFixCorrect(t: Tree, s: Subject, i: nat)
    requires i <= |s|
    ensures Peg(Fixed(t), s, i) == Peg(t, s, i)
    ensures RightNested(Fixed(t)) && (WellFormed(Fixed(t)) <==> WellFormed(t))
  {
    FixedKeepsMeaning(t);
    FixedIsRightNested(t);
    FixedKeepsTraits(t);
  }
}
