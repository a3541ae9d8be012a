/** The two searches for matching entries of a capture list, 'nextcap' and 'findopen'. */
module CaptureSearch {
  import opened PegTree
  import opened Analyses
  import opened Machine
  import opened CaptureList

  /** Captures of patterns have no close marks as their kinds. */
  predicate Proper(t: CapTree)
    decreases t, 0
  {
    t.kind != CCLOSE && AllProper(t.nested)
  }

  predicate AllProper(ts: seq<CapTree>)
    decreases ts, 1
  {
    forall k :: 0 <= k < |ts| ==> Proper(ts[k])
  }

  lemma {:induction false} PegIsProper(t: Tree, s: Subject, i: nat)
    requires WellFormed(t) && i <= |s|
    ensures Peg(t, s, i).Success? ==> AllProper(Peg(t, s, i).caps)
    decreases t, |s| - i
  {
    match t
    case TSeq(p1, p2) =>
      PegIsProper(p1, s, i);
      var m := Peg(p1, s, i);
      if m.Success? {
        PegIsProper(p2, s, m.pos);
      }
    case TChoice(p1, p2) =>
      PegIsProper(p1, s, i);
      PegIsProper(p2, s, i);
    case TRep(body) =>
      PegIsProper(body, s, i);
      var m := Peg(body, s, i);
      if m.Success? && m.pos > i {
        PegIsProper(t, s, m.pos);
      }
    case TCapture(_, _, body) => PegIsProper(body, s, i);
    case _ =>
  }

  /** The list 'f' lies at index 'i'. */
  predicate LiesAt(caps: seq<Capture>, i: nat, f: seq<Capture>) {
    i + |f| <= |caps| && forall k :: 0 <= k < |f| ==> caps[i + k] == f[k]
  }

  /** Where a search from 'i' forwards for the close that leaves 'n' others pending ends. */
  function NextClose(caps: seq<Capture>, i: nat, n: nat): nat
    decreases |caps| - i
  {
    if i >= |caps| then |caps|
    else if IsCloseCap(caps[i]) then if n == 0 then i else NextClose(caps, i + 1, n - 1)
    else if IsFullCap(caps[i]) then NextClose(caps, i + 1, n)
    else NextClose(caps, i + 1, n + 1)
  }

  lemma LieApart(caps: seq<Capture>, i: nat, one: seq<Capture>, rest: seq<Capture>)
    requires LiesAt(caps, i, one + rest)
    ensures LiesAt(caps, i, one) && LiesAt(caps, i + |one|, rest) && |one + rest| == |one| + |rest|
  {
    var all := one + rest;
    forall k | 0 <= k < |one| ensures caps[i + k] == one[k] {
      assert one[k] == all[k];
    }
    forall k | 0 <= k < |rest| ensures caps[i + |one| + k] == rest[k] {
      assert rest[k] == all[|one| + k] && caps[i + (|one| + k)] == all[|one| + k];
    }
  }

  /** Complete captures are passed over in both directions. */
  lemma {:induction false} PassOver(caps: seq<Capture>, i: nat, ts: seq<CapTree>, n: nat)
    requires AllProper(ts) && LiesAt(caps, i, Flatten(ts))
    ensures NextClose(caps, i, n) == NextClose(caps, i + |Flatten(ts)|, n)
    ensures PrevOpen(caps, i + |Flatten(ts)|, n) == PrevOpen(caps, i, n)
    decreases ts, 1
  {
    if ts != [] {
      var one, rest := FlattenOne(ts[0]), Flatten(ts[1..]);
      assert Flatten(ts) == one + rest;
      hide LiesAt, Flatten, FlattenOne, NextClose, PrevOpen;
      LieApart(caps, i, one, rest);
      PassOverOne(caps, i, ts[0], n);
      PassOver(caps, i + |one|, ts[1..], n);
    }
  }

  /** Behind the captures made inside it, the open entry at 'at' is the one to be closed. */
  lemma OpenBefore(caps: seq<Capture>, at: nat, ts: seq<CapTree>)
    requires AllProper(ts) && at < |caps| && caps[at + 1..] == Flatten(ts)
    requires !IsCloseCap(caps[at]) && !IsFullCap(caps[at])
    ensures PrevOpen(caps, |caps|, 0) == at
  {
    forall k | 0 <= k < |Flatten(ts)| ensures caps[at + 1 + k] == Flatten(ts)[k] {
      assert caps[at + 1..][k] == caps[at + 1 + k];
    }
    PassOver(caps, at + 1, ts, 0);
  }

  lemma {:induction false} PassOverOne(caps: seq<Capture>, i: nat, t: CapTree, n: nat)
    requires Proper(t) && LiesAt(caps, i, FlattenOne(t))
    ensures NextClose(caps, i, n) == NextClose(caps, i + |FlattenOne(t)|, n)
    ensures PrevOpen(caps, i + |FlattenOne(t)|, n) == PrevOpen(caps, i, n)
    decreases t, 0
  {
    var f, inner := FlattenOne(t), Flatten(t.nested);
    assert caps[i] == f[0];
    if |f| > 1 {
      BracketParts(caps, i, t);
      PassOver(caps, i + 1, t.nested, n + 1);
    }
  }

  lemma BracketParts(caps: seq<Capture>, i: nat, t: CapTree)
    requires LiesAt(caps, i, FlattenOne(t)) && |FlattenOne(t)| > 1
    ensures var inner := Flatten(t.nested);
            && |FlattenOne(t)| == |inner| + 2
            && caps[i] == Capture(t.start, t.key, t.kind, 0)
            && LiesAt(caps, i + 1, inner)
            && caps[i + 1 + |inner|] == Capture(t.end, 0, CCLOSE, 1)
  {
    var f, inner := FlattenOne(t), Flatten(t.nested);
    assert f == [Capture(t.start, t.key, t.kind, 0)] + inner + [Capture(t.end, 0, CCLOSE, 1)];
    assert forall k :: 0 <= k < |inner| ==> inner[k] == f[k + 1];
    assert caps[i] == f[0] && caps[i + 1 + |inner|] == f[1 + |inner|];
  }

  /** 'nextcap': from the first entry of a capture to the first entry behind it. */
  method NextCap(caps: array<Capture>, start: nat, ghost t: CapTree) returns (next: nat)
    requires Proper(t) && LiesAt(caps[..], start, FlattenOne(t))
    ensures next == start + |FlattenOne(t)|
  {
    var cap := start;
    assert caps[..][start] == FlattenOne(t)[0];
    if !IsFullCap(caps[cap]) {
      BracketParts(caps[..], start, t);
      PassOver(caps[..], start + 1, t.nested, 0);
      var n := 0;
      while true
        invariant start <= cap < start + |FlattenOne(t)| - 1
        invariant NextClose(caps[..], cap + 1, n) == NextClose(caps[..], start + 1, 0)
        decreases caps.Length - cap
      {
        assert cap + 1 <= NextClose(caps[..], cap + 1, n) by { CloseAhead(caps[..], cap + 1, n); }
        cap := cap + 1;
        if IsCloseCap(caps[cap]) {
          if n == 0 {
            break;
          }
          n := n - 1;
        } else if !IsFullCap(caps[cap]) {
          n := n + 1;
        }
        if cap == start + |FlattenOne(t)| - 1 {
          CloseAhead(caps[..], cap + 1, n);
        }
      }
    }
    next := cap + 1;
  }

  lemma {:induction false} CloseAhead(caps: seq<Capture>, i: nat, n: nat)
    requires i <= |caps|
    ensures i <= NextClose(caps, i, n) <= |caps|
    decreases |caps| - i
  {
    if i < |caps| {
      if IsCloseCap(caps[i]) {
        CloseAhead(caps, i + 1, if n == 0 then 0 else n - 1);
      } else {
        CloseAhead(caps, i + 1, if IsFullCap(caps[i]) then n else n + 1);
      }
    }
  }

  /** 'findopen': from the close mark of a capture back to its open entry. */
  method FindOpen(caps: array<Capture>, close: nat, ghost start: nat, ghost t: CapTree) returns (cap: nat)
    requires Proper(t) && LiesAt(caps[..], start, FlattenOne(t)) && |FlattenOne(t)| > 1
    requires close == start + |FlattenOne(t)| - 1
    ensures cap == start
  {
    cap := close;
    BracketParts(caps[..], start, t);
    PassOver(caps[..], start + 1, t.nested, 0);
    assert PrevOpen(caps[..], close, 0) == start;
    var n := 0;
    while true
      invariant start < cap <= close < caps.Length
      invariant PrevOpen(caps[..], cap, n) == start
      decreases cap
    {
      OpenBehind(caps[..], cap - 1, n);
      cap := cap - 1;
      if IsCloseCap(caps[cap]) {
        n := n + 1;
      } else if !IsFullCap(caps[cap]) {
        if n == 0 {
          return;
        }
        n := n - 1;
      }
      OpenBehind(caps[..], cap, n);
    }
  }

  lemma {:induction false} OpenBehind(caps: seq<Capture>, i: nat, n: nat)
    requires i <= |caps|
    ensures PrevOpen(caps, i, n) < i && (PrevOpen(caps, i, n) >= 0 ==> caps[PrevOpen(caps, i, n)].siz == 0)
    decreases i
  {
    if i > 0 {
      OpenBehind(caps, i - 1, n + 1);
      OpenBehind(caps, i - 1, n);
      if n > 0 {
        OpenBehind(caps, i - 1, n - 1);
      }
    }
  }
}
