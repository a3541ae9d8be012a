/** What a write event gets onto the wire, told from the waiting messages and the kernel's answers alone. */
module SocketProgress {

  import opened SendQueue
  import opened SocketStates

  predicate AllFit(l: seq<Buffer>) {
    forall i :: 0 <= i < |l| ==> l[i].sent <= |l[i].msg.data|
  }

  /** The bytes of the waiting messages that are still to be written, in order. */
  function Unwritten(l: seq<Buffer>): seq<Byte>
    requires AllFit(l)
  {
    if l == [] then [] else l[0].msg.data[l[0].sent..] + Unwritten(l[1..])
  }

  lemma {:induction false} UnwrittenConcat(x: seq<Buffer>, y: seq<Buffer>)
    requires AllFit(x) && AllFit(y)
    ensures AllFit(x + y) && Unwritten(x + y) == Unwritten(x) + Unwritten(y)
  {
    if x == [] {
      assert x + y == y;
    } else {
      assert (x + y)[1..] == x[1..] + y;
      UnwrittenConcat(x[1..], y);
      var a := x[0].msg.data[x[0].sent..];
      assert a + (Unwritten(x[1..]) + Unwritten(y)) == (a + Unwritten(x[1..])) + Unwritten(y);
    }
  }

  /** The answers that were used, when 'left' are left of them. */
  function Used(answers: seq<Answer>, left: seq<Answer>): seq<Answer>
    requires |left| <= |answers|
  {
    answers[..|answers| - |left|]
  }

  predicate Leaves(answers: seq<Answer>, left: seq<Answer>) {
    |left| <= |answers| && left == answers[|answers| - |left|..]
  }

  /** Why writing stopped with 'b' in front: no answer is left, or the last one was that the kernel takes nothing
      now, a failure, or that it takes only part of the message. */
  predicate Stopped(used: seq<Answer>, left: seq<Answer>, b: Buffer) {
    || left == []
    || (used != [] && match used[|used| - 1]
                      case Takes(n) => n <= b.sent < |b.msg.data|
                      case Interrupted => false
                      case Again => true
                      case Fails => true)
  }

  predicate LastFails(used: seq<Answer>) {
    used != [] && used[|used| - 1].Fails?
  }

  lemma {:induction false} UninterruptedLeaves(answers: seq<Answer>)
    ensures Leaves(answers, Uninterrupted(answers))
    ensures forall a :: a in Used(answers, Uninterrupted(answers)) ==> a.Interrupted?
  {
    if answers != [] && answers[0].Interrupted? {
      UninterruptedLeaves(answers[1..]);
      var r := Uninterrupted(answers[1..]);
      assert Used(answers, r) == [answers[0]] + Used(answers[1..], r);
    }
  }

  /** A write uses the answers up to the first one that is no interruption; that one is the reply. */
  lemma ReplyIsLast(answers: seq<Answer>, data: seq<Byte>)
    ensures Leaves(answers, Later(answers))
    ensures var used, a := Used(answers, Later(answers)), Reply(answers, data);
      || (used != [] && used[|used| - 1] == a)
      || (used != [] && used[|used| - 1].Takes? && a == Takes(|data|) && used[|used| - 1].n > |data|)
      || (Later(answers) == [] && a.Again? && (used != [] ==> used[|used| - 1].Interrupted?))
  {
    UninterruptedLeaves(answers);
    var r := Uninterrupted(answers);
    if r != [] {
      assert r[0] == answers[|answers| - |r|];
    }
  }

  lemma LeavesTwice(answers: seq<Answer>, mid: seq<Answer>, left: seq<Answer>)
    requires Leaves(answers, mid) && Leaves(mid, left)
    ensures Leaves(answers, left) && Used(answers, left) == Used(answers, mid) + Used(mid, left)
  {
  }

  /** The bytes in front of what waits were written, 'rest' is left of the messages and 'left' of the answers;
      something is left only for a reason, and a write failed exactly if that is the reason. */
  predicate Progress(l: seq<Buffer>, answers: seq<Answer>, rest: seq<Buffer>, left: seq<Answer>, bytes: seq<Byte>,
        failed: bool)
    requires AllFit(l)
  {
    AllFit(rest) && bytes + Unwritten(rest) == Unwritten(l) && HasEnded(answers, rest, left, failed)
  }

  predicate HasEnded(answers: seq<Answer>, rest: seq<Buffer>, left: seq<Answer>, failed: bool) {
    && Leaves(answers, left)
    && (rest != [] ==> Stopped(Used(answers, left), left, rest[0]))
    && (failed <==> rest != [] && LastFails(Used(answers, left)))
    && !(rest == [] && LastFails(Used(answers, left)))
  }

  /** Draining a list writes the bytes in front, and stops for a reason. */
  lemma {:induction false} DrainProgress(l: seq<Buffer>, answers: seq<Answer>)
    requires AllFit(l)
    ensures var d := Drain(l, answers); Progress(l, answers, d.list, d.answers, d.bytes, d.failed)
    decreases |l|
  {
    if l == [] {
      assert Used(answers, answers) == [];
    } else {
      var data, left := Remaining(l[0]), Later(answers);
      var a := Reply(answers, data);
      ReplyIsLast(answers, data);
      hide Progress, Reply, Later, Unwritten;
      if !a.Takes? {
        StopsHere(l, answers, left, a);
      } else if a.n < |data| {
        StopsInside(l, answers, left, a.n);
      } else {
        DrainProgress(l[1..], left);
        var d := Drain(l[1..], left);
        FrontWritten(l[0], answers, left);
        GoesOn([l[0]], l[1..], answers, left, data, d.list, d.answers, d.bytes, d.failed);
        assert [l[0]] + l[1..] == l;
      }
    }
  }

  lemma StopsHere(l: seq<Buffer>, answers: seq<Answer>, left: seq<Answer>, a: Answer)
    requires AllFit(l) && l != [] && Leaves(answers, left) && (a.Again? || a.Fails?)
    requires var used := Used(answers, left);
      || (used != [] && used[|used| - 1] == a)
      || (left == [] && a.Again? && (used != [] ==> used[|used| - 1].Interrupted?))
    ensures Progress(l, answers, l, left, [], a.Fails?)
  {
    hide Unwritten;
    assert [] + Unwritten(l) == Unwritten(l);
  }

  lemma StopsInside(l: seq<Buffer>, answers: seq<Answer>, left: seq<Answer>, n: nat)
    requires AllFit(l) && l != [] && Leaves(answers, left) && n < |l[0].msg.data| - l[0].sent
    requires var used := Used(answers, left); used != [] && used[|used| - 1] == Takes(n)
    ensures var b := l[0];
      Progress(l, answers, [b.(sent := b.sent + n)] + l[1..], left, b.msg.data[b.sent..][..n], false)
  {
    PartWritten(l, n);
    hide Unwritten;
  }

  lemma EndsLater(answers: seq<Answer>, mid: seq<Answer>, rest: seq<Buffer>, left: seq<Answer>, failed: bool)
    requires HasEnded(answers, [], mid, false) && HasEnded(mid, rest, left, failed)
    ensures HasEnded(answers, rest, left, failed)
  {
    LeavesTwice(answers, mid, left);
    hide Leaves, Used;
  }

  /** One list is written, then another one. */
  lemma GoesOn(x: seq<Buffer>, y: seq<Buffer>, answers: seq<Answer>, mid: seq<Answer>, bytes: seq<Byte>,
        rest: seq<Buffer>, left: seq<Answer>, more: seq<Byte>, failed: bool)
    requires AllFit(x) && AllFit(y)
    requires Progress(x, answers, [], mid, bytes, false) && Progress(y, mid, rest, left, more, failed)
    ensures AllFit(x + y) && Progress(x + y, answers, rest, left, bytes + more, failed)
    ensures Unwritten(x) <= bytes + more
  {
    EndsLater(answers, mid, rest, left, failed);
    UnwrittenConcat(x, y);
    assert Unwritten([]) == [];
    hide HasEnded, Unwritten, AllFit;
    assert bytes + [] == bytes;
    Associates(bytes, more, Unwritten(rest));
  }

  lemma FrontWritten(b: Buffer, answers: seq<Answer>, left: seq<Answer>)
    requires b.sent <= |b.msg.data| && Leaves(answers, left)
    requires var used := Used(answers, left); used != [] && used[|used| - 1].Takes?
    ensures Progress([b], answers, [], left, b.msg.data[b.sent..], false)
  {
    assert Unwritten([b]) == b.msg.data[b.sent..] + [];
  }

  lemma PartWritten(l: seq<Buffer>, n: nat)
    requires AllFit(l) && l != [] && n <= |l[0].msg.data| - l[0].sent
    ensures var r := [l[0].(sent := l[0].sent + n)] + l[1..];
      AllFit(r) && l[0].msg.data[l[0].sent..][..n] + Unwritten(r) == Unwritten(l)
  {
    var data, more := l[0].msg.data[l[0].sent..], Unwritten(l[1..]);
    var r := [l[0].(sent := l[0].sent + n)] + l[1..];
    assert r[1..] == l[1..];
    assert data[..n] + (data[n..] + more) == data + more;
  }

  lemma AllFitParts(x: seq<Buffer>, y: seq<Buffer>)
    requires AllFit(x + y)
    ensures AllFit(x) && AllFit(y)
  {
    forall i | 0 <= i < |x| ensures x[i].sent <= |x[i].msg.data| {
      assert (x + y)[i] == x[i];
    }
    forall i | 0 <= i < |y| ensures y[i].sent <= |y[i].msg.data| {
      assert (x + y)[|x| + i] == y[i];
    }
  }

  /** send_buffer, in the terms of one list: the high list is in front of the low one, of which no byte is written
      before all of the high list. */
  lemma FlushProgress(high: seq<Buffer>, low: seq<Buffer>, answers: seq<Answer>)
    requires AllFit(high + low)
    ensures var f := Flush(high, low, answers);
      Progress(high + low, answers, f.high + f.low, f.answers, f.bytes, f.failed)
    ensures AllFit(high) && var f := Flush(high, low, answers); f.low == low || Unwritten(high) <= f.bytes
  {
    AllFitParts(high, low);
    hide Progress, Drain, Unwritten, AllFit;
    var d := Drain(high, answers);
    DrainProgress(high, answers);
    DrainLeaves(high, answers);
    if d.list != [] {
      BeforeLow(high, low, answers, d);
    } else {
      var e := Drain(low, d.answers);
      DrainProgress(low, d.answers);
      GoesOn(high, low, answers, d.answers, d.bytes, e.list, e.answers, e.bytes, e.failed);
      RaisedInFront(e.list);
    }
  }

  lemma RaisedInFront(l: seq<Buffer>)
    ensures [] + l == l && (l != [] ==> l[..1] + l[1..] == l)
  {
  }

  lemma BeforeLow(high: seq<Buffer>, low: seq<Buffer>, answers: seq<Answer>, d: Drained)
    requires AllFit(high) && AllFit(low) && AllFit(high + low) && d.list != []
    requires Progress(high, answers, d.list, d.answers, d.bytes, d.failed)
    ensures Progress(high + low, answers, d.list + low, d.answers, d.bytes, d.failed)
  {
    hide Unwritten, HasEnded, AllFit;
    UnwrittenConcat(high, low);
    UnwrittenConcat(d.list, low);
    Associates(d.bytes, Unwritten(d.list), Unwritten(low));
    EndsLonger(answers, d.list, low, d.answers, d.failed);
  }

  lemma EndsLonger(answers: seq<Answer>, rest: seq<Buffer>, more: seq<Buffer>, left: seq<Answer>, failed: bool)
    requires rest != [] && HasEnded(answers, rest, left, failed)
    ensures HasEnded(answers, rest + more, left, failed)
  {
    assert (rest + more)[0] == rest[0];
    hide Leaves, Stopped, LastFails;
  }

  lemma Associates(x: seq<Byte>, y: seq<Byte>, z: seq<Byte>)
    ensures x + (y + z) == (x + y) + z
  {
  }

  // ----- a kernel that takes everything -----

  /** How many writes the answers are enough for. */
  function Attempts(answers: seq<Answer>): nat {
    if answers == [] then 0 else Attempts(answers[1..]) + if answers[0].Interrupted? then 0 else 1
  }

  /** Except for signals, every answer takes any of the messages as a whole. */
  predicate Willing(answers: seq<Answer>, l: seq<Buffer>) {
    forall a :: a in answers && !a.Interrupted? ==>
      a.Takes? && forall i :: 0 <= i < |l| ==> |l[i].msg.data| <= a.n
  }

  lemma {:induction false} WillingReply(answers: seq<Answer>, l: seq<Buffer>)
    requires Willing(answers, l) && l != [] && AllFit(l) && Attempts(answers) > 0
    ensures Reply(answers, Remaining(l[0])) == Takes(|Remaining(l[0])|)
    ensures Attempts(Later(answers)) == Attempts(answers) - 1 && Willing(Later(answers), l)
  {
    if answers[0].Interrupted? {
      assert forall a :: a in answers[1..] ==> a in answers;
      WillingReply(answers[1..], l);
    }
  }

  lemma {:induction false} DrainWilling(l: seq<Buffer>, answers: seq<Answer>)
    requires AllFit(l) && Willing(answers, l) && |l| <= Attempts(answers)
    ensures var d := Drain(l, answers);
      && d.list == [] && !d.failed && Attempts(d.answers) == Attempts(answers) - |l|
      && forall a :: a in d.answers ==> a in answers
    decreases |l|
  {
    if l != [] {
      WillingReply(answers, l);
      assert forall i :: 0 <= i < |l[1..]| ==> l[1..][i] == l[i + 1];
      DrainWilling(l[1..], Later(answers));
      hide Reply, Later, Remaining, Attempts;
    }
  }

  /** If the kernel takes all it is given, and answers often enough, everything that waits gets onto the wire. */
  lemma AllGetsOut(high: seq<Buffer>, low: seq<Buffer>, answers: seq<Answer>)
    requires AllFit(high + low) && Willing(answers, high + low) && |high| + |low| <= Attempts(answers)
    ensures var f := Flush(high, low, answers);
      f.high == [] && f.low == [] && !f.failed && f.bytes == Unwritten(high + low)
  {
    AllFitParts(high, low);
    assert forall i :: 0 <= i < |high| ==> (high + low)[i] == high[i];
    assert forall i :: 0 <= i < |low| ==> (high + low)[|high| + i] == low[i];
    DrainWilling(high, answers);
    DrainWilling(low, Drain(high, answers).answers);
    FlushProgress(high, low, answers);
    var f := Flush(high, low, answers);
    assert f.bytes + [] == f.bytes;
    hide Drain, Willing;
  }

  // ----- write events -----

  /** What waits, or what waited when the socket was closed. */
  function Waiting(s: State): seq<Buffer> {
    if s.kind == Invalid then s.dropped else s.high + s.low
  }

  /** The kinds whose write events the server leaves to send_buffer. */
  lemma PolledKinds()
    ensures forall k :: Polled(k) <==> k !in {Invalid, Connecting, Listen}
  {
    forall k ensures Polled(k) <==> k !in {Invalid, Connecting, Listen} {
      match k
      case Invalid =>
      case _ =>
    }
  }

  /** Whatever the kernel answers to a write event: what is written is the front of what waited, the high list
      first; something is left only for a reason, and dropped only if the write failed. */
  lemma WritableProgress(s: State, id: int)
    requires Polled(s.kind) && s.watched && AllFit(s.high + s.low)
    ensures var t, bytes := Next(s, id, Writable), Writes(s, id, Writable);
      Progress(s.high + s.low, s.answers, Waiting(t), t.answers, bytes, t.kind == Invalid && Waiting(t) != [])
    ensures AllFit(s.high) && var t := Next(s, id, Writable);
      t.kind == Invalid || t.low == s.low || Unwritten(s.high) <= Writes(s, id, Writable)
  {
    FlushProgress(s.high, s.low, s.answers);
    FlushLeaves(s.high, s.low, s.answers);
    FlushOfNothing(s);
    hide Flush, Progress, Unwritten, AllFit, WritesLast;
  }

  /** The same for send_buffer itself, whatever state it leaves the socket in. */
  lemma FlushedProgress(s: State, t: State)
    requires t == AfterFlush(s) && s.kind != Invalid && AllFit(s.high + s.low)
    ensures var f := Flush(s.high, s.low, s.answers);
      Progress(s.high + s.low, s.answers, Waiting(t), t.answers, f.bytes, t.kind == Invalid && Waiting(t) != [])
    ensures Willing(s.answers, s.high + s.low) && |s.high| + |s.low| <= Attempts(s.answers) ==> Waiting(t) == []
  {
    FlushProgress(s.high, s.low, s.answers);
    FlushLeaves(s.high, s.low, s.answers);
    FlushOfNothing(s);
    if Willing(s.answers, s.high + s.low) && |s.high| + |s.low| <= Attempts(s.answers) {
      AllGetsOut(s.high, s.low, s.answers);
    }
    hide Flush, Progress, Unwritten, AllFit, WritesLast, Willing, Attempts;
  }

  /** A message sent with nothing waiting is written as far as the kernel takes it; the rest waits. */
  lemma SendProgress(s: State, id: int, p: Priority, data: seq<Byte>)
    requires s.kind == Connected && !Waits(s)
    ensures var t, bytes := Next(s, id, Send(id, p, data)), Writes(s, id, Send(id, p, data));
      t.kind != Invalid ==>
        && AllFit(t.high + t.low) && bytes + Unwritten(t.high + t.low) == data
        && (s.answers != [] && s.answers[0].Takes? ==>
              |bytes| == if s.answers[0].n <= |data| then s.answers[0].n else |data|)
        && (t.watched <==> s.watched || bytes != data)
    ensures Next(s, id, Send(id, p, data)).kind == Invalid <==> s.answers != [] && s.answers[0].Fails?
  {
    var n := Taken(s.answers, data);
    var b := Buffer(Message(p, data), n);
    assert [b] + [] == [b] && [b][1..] == [] && data[n..] + [] == data[n..];
    assert data[..n] + data[n..] == data && data[..|data|] == data && data + [] == data;
    assert Unwritten([b]) == data[n..];
    assert |data[..n]| == n;
  }

  /** With a willing kernel one write event writes all that waits, and nothing is lost; with the next one the
      socket is not watched any more, or closes if it is half-closed. */
  lemma WritableEmpties(s: State, id: int)
    requires Polled(s.kind) && s.watched && AllFit(s.high + s.low)
    requires Willing(s.answers, s.high + s.low) && |s.high| + |s.low| <= Attempts(s.answers)
    ensures Writes(s, id, Writable) == Unwritten(s.high + s.low)
    ensures var t := Next(s, id, Writable); t.high == [] && t.low == [] && (t.kind == Invalid ==> t.dropped == [])
    ensures var u := Next(Next(s, id, Writable), id, Writable);
      !u.watched && u.kind == (if s.kind == HalfClose then Invalid else s.kind) && !Waits(u)
      && u.dropped == if s.kind == HalfClose then [] else s.dropped
  {
    AllGetsOut(s.high, s.low, s.answers);
    FlushOfNothing(s);
    var t := Next(s, id, Writable);
    NothingToWrite(t);
    hide Flush, WritesLast, AllFit, Willing, Attempts;
  }

  lemma NothingToWrite(s: State)
    ensures !Waits(s) ==> Flush(s.high, s.low, s.answers) == Flushed([], [], s.answers, [], false) && WritesLast(s)
  {
  }
}
