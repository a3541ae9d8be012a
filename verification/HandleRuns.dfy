/** Which handles are live and what the names stand for after a run, told from its requests. */
module HandleRuns {

  import opened NameOrder
  import opened HandleStorage

  /** Request 'k' gives out the handle, and no later one takes it back. */
  ghost predicate EnteredAt(rs: seq<Request>, answers: seq<nat>, h: nat, id: nat, k: int)
    requires |rs| == |answers|
  {
    && 0 <= k < |rs| && rs[k] == Enter(id) && answers[k] == h
    && forall j :: k < j < |rs| ==> rs[j] != Leave(h)
  }

  lemma {:induction false} EnteredIsLive(rs: seq<Request>, answers: seq<nat>, harbor: nat, h: nat, id: nat, k: int)
    requires |rs| == |answers| && NewHandles(rs, answers, harbor) && EnteredAt(rs, answers, h, id, k)
    ensures var live := AfterAll(rs, answers).live; h in live && live[h] == id
    decreases |rs|
  {
    var front, before := rs[..|rs| - 1], answers[..|rs| - 1];
    FrontIsNew(rs, answers, harbor);
    if k < |front| {
      EnteredIsLive(front, before, harbor, h, id, k);
      assert rs[..|front|] == front && answers[..|front|] == before;
    }
  }

  lemma FrontIsNew(rs: seq<Request>, answers: seq<nat>, harbor: nat)
    requires |rs| == |answers| && rs != [] && NewHandles(rs, answers, harbor)
    ensures NewHandles(rs[..|rs| - 1], answers[..|rs| - 1], harbor)
    ensures var last := |rs| - 1; rs[last].Enter? ==> answers[last] !in AfterAll(rs[..last], answers[..last]).live
  {
    var front, before := rs[..|rs| - 1], answers[..|rs| - 1];
    forall k | 0 <= k < |front| && front[k].Enter?
      ensures before[k] !in AfterAll(front[..k], before[..k]).live && before[k] / HANDLES == harbor
    {
      assert front[..k] == rs[..k] && before[..k] == answers[..k];
    }
    hide AfterAll;
  }

  lemma {:induction false} LiveWasEntered(rs: seq<Request>, answers: seq<nat>, h: nat)
    requires |rs| == |answers| && h in AfterAll(rs, answers).live
    ensures exists k :: EnteredAt(rs, answers, h, AfterAll(rs, answers).live[h], k)
    decreases |rs|
  {
    var last := |rs| - 1;
    var front, before := rs[..last], answers[..last];
    if rs[last].Enter? && answers[last] == h {
      assert EnteredAt(rs, answers, h, rs[last].id, last);
    } else {
      LiveWasEntered(front, before, h);
      var k :| EnteredAt(front, before, h, AfterAll(front, before).live[h], k);
      assert EnteredAt(rs, answers, h, AfterAll(front, before).live[h], k);
    }
  }

  /** A handle is live, with its context, exactly if it was given out to it and not taken back since. */
  lemma LiveExactly(rs: seq<Request>, answers: seq<nat>, harbor: nat, h: nat, id: nat)
    requires |rs| == |answers| && NewHandles(rs, answers, harbor)
    ensures (h in AfterAll(rs, answers).live && AfterAll(rs, answers).live[h] == id)
      <==> exists k :: EnteredAt(rs, answers, h, id, k)
  {
    if h in AfterAll(rs, answers).live {
      LiveWasEntered(rs, answers, h);
    }
    if k :| EnteredAt(rs, answers, h, id, k) {
      EnteredIsLive(rs, answers, harbor, h, id, k);
    }
    hide EnteredAt, AfterAll, NewHandles;
  }

  /** Request 'k' gives the name, which is free, to the handle, and the handle is not taken back later. */
  ghost predicate NamedAt(rs: seq<Request>, answers: seq<nat>, n: Name, h: nat, k: int)
    requires |rs| == |answers|
  {
    && 0 <= k < |rs| && rs[k] == Call(h, n) && n !in AfterAll(rs[..k], answers[..k]).names
    && forall j :: k < j < |rs| ==> !TakesBack(rs, answers, h, j)
  }

  /** Request 'j' takes back a handle that is in use. */
  ghost predicate TakesBack(rs: seq<Request>, answers: seq<nat>, h: nat, j: int)
    requires |rs| == |answers|
  {
    0 <= j < |rs| && rs[j] == Leave(h) && h in AfterAll(rs[..j], answers[..j]).live
  }

  lemma TakesBackSooner(rs: seq<Request>, answers: seq<nat>, h: nat, j: int)
    requires |rs| == |answers| && 0 <= j < |rs| - 1
    ensures TakesBack(rs, answers, h, j) <==> TakesBack(rs[..|rs| - 1], answers[..|rs| - 1], h, j)
  {
    assert rs[..|rs| - 1][..j] == rs[..j] && answers[..|rs| - 1][..j] == answers[..j];
    hide AfterAll;
  }

  lemma NamedSooner(rs: seq<Request>, answers: seq<nat>, n: Name, h: nat, k: int)
    requires |rs| == |answers| && rs != [] && k < |rs| - 1
    ensures NamedAt(rs, answers, n, h, k) <==>
      NamedAt(rs[..|rs| - 1], answers[..|rs| - 1], n, h, k) && !TakesBack(rs, answers, h, |rs| - 1)
  {
    var last := |rs| - 1;
    forall j | 0 <= j < last ensures TakesBack(rs, answers, h, j) <==> TakesBack(rs[..last], answers[..last], h, j) {
      TakesBackSooner(rs, answers, h, j);
    }
    if 0 <= k {
      assert rs[..last][..k] == rs[..k] && answers[..last][..k] == answers[..k];
    }
    hide AfterAll, TakesBack;
  }

  /** A name stands for a handle exactly if it was given to it while it was free, and the handle was not taken
      back since. */
  lemma {:induction false} NamesExactly(rs: seq<Request>, answers: seq<nat>, n: Name, h: nat)
    requires |rs| == |answers|
    ensures (n in AfterAll(rs, answers).names && AfterAll(rs, answers).names[n] == h)
      <==> exists k :: NamedAt(rs, answers, n, h, k)
    decreases |rs|
  {
    if rs == [] {
      assert forall k :: !NamedAt(rs, answers, n, h, k);
    } else {
      var last := |rs| - 1;
      NamesExactly(rs[..last], answers[..last], n, h);
      forall k | k < last
        ensures NamedAt(rs, answers, n, h, k) <==>
          NamedAt(rs[..last], answers[..last], n, h, k) && !TakesBack(rs, answers, h, last)
      {
        NamedSooner(rs, answers, n, h, k);
      }
      NamedLast(rs, answers, n, h);
      NamesNext(rs, answers, n, h);
      hide AfterAll, NamedAt, TakesBack;
      var w := AfterAll(rs[..last], answers[..last]);
      if n in w.names && w.names[n] == h {
        var k :| NamedAt(rs[..last], answers[..last], n, h, k);
        NamedInside(rs[..last], answers[..last], n, h, k);
      }
      if k :| NamedAt(rs, answers, n, h, k) {
        NamedInside(rs, answers, n, h, k);
      }
    }
  }

  lemma NamedInside(rs: seq<Request>, answers: seq<nat>, n: Name, h: nat, k: int)
    requires |rs| == |answers| && NamedAt(rs, answers, n, h, k)
    ensures 0 <= k < |rs|
  {
  }

  lemma NamedLast(rs: seq<Request>, answers: seq<nat>, n: Name, h: nat)
    requires |rs| == |answers| && rs != []
    ensures var last := |rs| - 1;
      NamedAt(rs, answers, n, h, last) <==>
        rs[last] == Call(h, n) && n !in AfterAll(rs[..last], answers[..last]).names
  {
  }

  lemma NamesNext(rs: seq<Request>, answers: seq<nat>, n: Name, h: nat)
    requires |rs| == |answers| && rs != []
    ensures var last := |rs| - 1;
      var w, now := AfterAll(rs[..last], answers[..last]), AfterAll(rs, answers);
      (n in now.names && now.names[n] == h) <==>
        || (n in w.names && w.names[n] == h && !TakesBack(rs, answers, h, last))
        || (rs[last] == Call(h, n) && n !in w.names)
  {
  }
}
