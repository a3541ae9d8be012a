/** Messages waiting to be written to a TCP connection, and what was written of them. */
module SendQueue {

  type Byte = bv8

  datatype Priority = High | Low

  datatype Message = Message(priority: Priority, data: seq<Byte>)

  /** A message of which 'sent' bytes were written. */
  datatype Buffer = Buffer(msg: Message, sent: nat)

  function Flat(ms: seq<Message>): seq<Byte> {
    if ms == [] then [] else Flat(ms[..|ms| - 1]) + ms[|ms| - 1].data
  }

  function OfPriority(ms: seq<Message>, p: Priority): seq<Message> {
    if ms == [] then [] else
      OfPriority(ms[..|ms| - 1], p) + if ms[|ms| - 1].priority == p then [ms[|ms| - 1]] else []
  }

  function Messages(q: seq<Buffer>): (ms: seq<Message>)
    ensures |ms| == |q| && forall i :: 0 <= i < |q| ==> ms[i] == q[i].msg
  {
    seq(|q|, i requires 0 <= i < |q| => q[i].msg)
  }

  ghost predicate Fits(b: Buffer) {
    b.sent <= |b.msg.data|
  }

  function Unsent(q: seq<Buffer>): int {
    if q == [] then 0 else |q[0].msg.data| - q[0].sent + Unsent(q[1..])
  }

  /** The part already written of the message in front. */
  ghost function Begun(q: seq<Buffer>): seq<Byte>
    requires q != [] ==> Fits(q[0])
  {
    if q == [] then [] else q[0].msg.data[..q[0].sent]
  }

  /** Only the message in front may be partly written. */
  ghost predicate FrontOnly(q: seq<Buffer>) {
    && (q != [] ==> Fits(q[0]))
    && forall i :: 0 < i < |q| ==> q[i].sent == 0
  }

  /** What was written is whole messages and the beginning of the next; of each priority, what was
      written and what waits make up what was accepted, in order; 'size' is what waits. */
  ghost predicate Stream(q: seq<Buffer>, wire: seq<Byte>, done: seq<Message>, accepted: seq<Message>, size: int) {
    && FrontOnly(q) && wire == Flat(done) + Begun(q) && size == Unsent(q)
    && forall p :: OfPriority(done + Messages(q), p) == OfPriority(accepted, p)
  }

  lemma SizeIsUnsent(q: seq<Buffer>, wire: seq<Byte>, done: seq<Message>, accepted: seq<Message>, size: int)
    requires Stream(q, wire, done, accepted, size)
    ensures Stream(q, wire, done, accepted, Unsent(q))
  {
  }

  /** A message of low priority may stand in the high list only in front. */
  ghost predicate Sorted(high: seq<Buffer>, low: seq<Buffer>) {
    && (forall i :: 0 < i < |high| ==> high[i].msg.priority == High)
    && (forall i :: 0 <= i < |low| ==> low[i].msg.priority == Low)
  }

  /** The front of one list goes, or is written in part. */
  lemma FrontChanges(high: seq<Buffer>, low: seq<Buffer>, b: Buffer)
    requires Sorted(high, low)
    ensures high != [] ==> Sorted(high[1..], low) && Sorted([b] + high[1..], low)
    ensures high != [] ==> high[1..] + low == (high + low)[1..] && ([b] + high[1..]) + low == [b] + (high + low)[1..]
    ensures low != [] ==> Sorted(high, low[1..]) && (b.msg == low[0].msg ==> Sorted(high, [b] + low[1..]))
    ensures high == [] && low != [] ==>
      high + low[1..] == (high + low)[1..] && high + ([b] + low[1..]) == [b] + (high + low)[1..]
  {
  }

  lemma {:induction false} OfPriorityConcat(x: seq<Message>, y: seq<Message>, p: Priority)
    ensures OfPriority(x + y, p) == OfPriority(x, p) + OfPriority(y, p)
  {
    if y == [] {
      assert x + y == x;
    } else {
      assert (x + y)[..|x + y| - 1] == x + y[..|y| - 1];
      OfPriorityConcat(x, y[..|y| - 1], p);
    }
  }

  lemma {:induction false} NoneOfPriority(ms: seq<Message>, p: Priority)
    requires forall i :: 0 <= i < |ms| ==> ms[i].priority != p
    ensures OfPriority(ms, p) == []
  {
    if ms != [] {
      NoneOfPriority(ms[..|ms| - 1], p);
    }
  }

  lemma {:induction false} UnsentConcat(x: seq<Buffer>, y: seq<Buffer>)
    ensures Unsent(x + y) == Unsent(x) + Unsent(y)
  {
    if x == [] {
      assert x + y == y;
    } else {
      assert (x + y)[1..] == x[1..] + y;
      UnsentConcat(x[1..], y);
    }
  }

  /** Part of the front message is written. */
  lemma WritesPart(q: seq<Buffer>, wire: seq<Byte>, done: seq<Message>, accepted: seq<Message>, size: int, n: nat)
    requires Stream(q, wire, done, accepted, size) && q != [] && q[0].sent + n <= |q[0].msg.data|
    ensures var b := q[0];
      Stream([b.(sent := b.sent + n)] + q[1..], wire + b.msg.data[b.sent..][..n], done, accepted, size - n)
  {
    var b := q[0];
    var r := [b.(sent := b.sent + n)] + q[1..];
    assert r[1..] == q[1..];
    assert Messages(r) == Messages(q);
    assert b.msg.data[..b.sent] + b.msg.data[b.sent..][..n] == b.msg.data[..b.sent + n];
  }

  lemma FlatAppend(ms: seq<Message>, m: Message)
    ensures Flat(ms + [m]) == Flat(ms) + m.data
  {
    assert (ms + [m])[..|ms|] == ms;
  }

  /** The rest of the front message is written. */
  lemma WritesWhole(q: seq<Buffer>, wire: seq<Byte>, done: seq<Message>, accepted: seq<Message>, size: int)
    requires Stream(q, wire, done, accepted, size) && q != []
    ensures var b := q[0];
      Stream(q[1..], wire + b.msg.data[b.sent..], done + [b.msg], accepted, size - |b.msg.data[b.sent..]|)
  {
    hide Flat, OfPriority, Messages;
    assert Begun(q[1..]) == [];
    WireWhole(q[0], wire, done);
    OneDone(done, q);
  }

  lemma WireWhole(b: Buffer, wire: seq<Byte>, done: seq<Message>)
    requires Fits(b) && wire == Flat(done) + b.msg.data[..b.sent]
    ensures wire + b.msg.data[b.sent..] == Flat(done + [b.msg]) + []
  {
    FlatAppend(done, b.msg);
    hide Flat;
    assert b.msg.data[..b.sent] + b.msg.data[b.sent..] == b.msg.data;
    assert (Flat(done) + b.msg.data[..b.sent]) + b.msg.data[b.sent..] == Flat(done) + b.msg.data;
  }

  lemma OneOfPriority(m: Message, p: Priority)
    ensures OfPriority([m], p) == if m.priority == p then [m] else []
  {
  }

  /** A message joins the accepted ones behind all others of its priority. */
  lemma JoinsInOrder(x: seq<Message>, y: seq<Message>, m: Message, accepted: seq<Message>, p: Priority)
    requires OfPriority(x + y, p) == OfPriority(accepted, p)
    requires forall i :: 0 <= i < |y| ==> y[i].priority != m.priority
    ensures OfPriority((x + [m]) + y, p) == OfPriority(accepted + [m], p)
  {
    OneOfPriority(m, p);
    if p == m.priority {
      NoneOfPriority(y, p);
    }
    hide *;
    OfPriorityConcat(x + [m], y, p);
    OfPriorityConcat(x, [m], p);
    OfPriorityConcat(x, y, p);
    OfPriorityConcat(accepted, [m], p);
    var a, b, c := OfPriority(x, p), OfPriority(y, p), OfPriority(accepted, p);
    assert a + [] == a && c + [] == c;
  }

  lemma JoinsUnsent(x: seq<Buffer>, y: seq<Buffer>, b: Buffer)
    ensures Unsent((x + [b]) + y) == Unsent(x + y) + |b.msg.data| - b.sent
  {
    UnsentConcat(x, y);
    UnsentConcat(x + [b], y);
    UnsentConcat(x, [b]);
    assert [b][1..] == [];
  }

  lemma JoinsBehind(x: seq<Buffer>, y: seq<Buffer>, b: Buffer)
    requires FrontOnly(x + y) && x + y != [] && b.sent == 0 && (x == [] ==> y != [] && y[0].sent == 0)
    ensures FrontOnly((x + [b]) + y) && Begun((x + [b]) + y) == Begun(x + y)
  {
    var r := (x + [b]) + y;
    forall i | 0 < i < |r| ensures r[i].sent == 0 {
      if i < |x| {
        assert r[i] == (x + y)[i];
      } else if i > |x| {
        assert r[i] == (x + y)[i - 1];
      }
    }
    if x != [] {
      assert r[0] == (x + y)[0];
    }
  }

  lemma MessagesConcat(x: seq<Buffer>, y: seq<Buffer>)
    ensures Messages(x + y) == Messages(x) + Messages(y)
  {
  }

  lemma JoinsMessages(x: seq<Buffer>, y: seq<Buffer>, b: Buffer, done: seq<Message>)
    ensures done + Messages(x + y) == (done + Messages(x)) + Messages(y)
    ensures done + Messages((x + [b]) + y) == ((done + Messages(x)) + [b.msg]) + Messages(y)
  {
    MessagesConcat(x, y);
    MessagesConcat(x + [b], y);
    MessagesConcat(x, [b]);
    assert Messages([b]) == [b.msg];
    hide Messages;
  }

  /** A message joins behind 'x': with 'y' of the other priority, or nothing waiting. */
  lemma Joins(x: seq<Buffer>, y: seq<Buffer>, b: Buffer, wire: seq<Byte>, done: seq<Message>, accepted: seq<Message>,
        size: int)
    requires Stream(x + y, wire, done, accepted, size) && x + y != [] && b.sent == 0
    requires x == [] ==> y != [] && y[0].sent == 0
    requires forall i :: 0 <= i < |y| ==> y[i].msg.priority != b.msg.priority
    ensures Stream((x + [b]) + y, wire, done, accepted + [b.msg], size + |b.msg.data|)
  {
    JoinsUnsent(x, y, b);
    JoinsBehind(x, y, b);
    JoinsMessages(x, y, b, done);
    hide OfPriority, Flat, Unsent, FrontOnly, Begun, Messages;
    forall p ensures OfPriority(done + Messages((x + [b]) + y), p) == OfPriority(accepted + [b.msg], p) {
      JoinsInOrder(done + Messages(x), Messages(y), b.msg, accepted, p);
    }
  }

  /** With nothing waiting, a message is written at once, in part or as a whole. */
  lemma WrittenAtOnce(m: Message, n: nat, wire: seq<Byte>, done: seq<Message>, accepted: seq<Message>, size: int)
    requires Stream([], wire, done, accepted, size) && n <= |m.data|
    ensures Stream([Buffer(m, n)], wire + m.data[..n], done, accepted + [m], size + |m.data| - n)
    ensures n == |m.data| ==> Stream([], wire + m.data[..n], done + [m], accepted + [m], size)
    ensures Sorted([Buffer(m, n)], [])
  {
    var q := [Buffer(m, n)];
    assert done + Messages([]) == done;
    assert Messages(q) == [m] && q[1..] == [];
    forall p ensures OfPriority(done + [m], p) == OfPriority(accepted + [m], p) {
      OfPriorityConcat(done, [m], p);
      OfPriorityConcat(accepted, [m], p);
    }
    assert (done + [m])[..|done|] == done;
    assert n == |m.data| ==> (done + [m]) + Messages([]) == done + [m];
  }

  /** With nothing left to write, all accepted messages were written, each priority in order. */
  lemma AllWritten(wire: seq<Byte>, done: seq<Message>, accepted: seq<Message>, size: int)
    requires Stream([], wire, done, accepted, size)
    ensures wire == Flat(done) && size == 0
    ensures forall p :: OfPriority(done, p) == OfPriority(accepted, p)
  {
    assert done + Messages([]) == done;
  }

  lemma FrontFits(q: seq<Buffer>, wire: seq<Byte>, done: seq<Message>, accepted: seq<Message>, size: int)
    requires Stream(q, wire, done, accepted, size) && q != []
    ensures Fits(q[0])
  {
  }

  lemma SameMessages(q: seq<Buffer>, r: seq<Buffer>)
    requires |q| == |r| && forall i :: 0 <= i < |q| ==> q[i].msg == r[i].msg
    ensures Messages(q) == Messages(r)
  {
  }

  lemma OneDone(done: seq<Message>, q: seq<Buffer>)
    requires q != []
    ensures (done + [q[0].msg]) + Messages(q[1..]) == done + Messages(q)
  {
  }

  /** A message queues behind those of its priority. */
  lemma Queues(high: seq<Buffer>, low: seq<Buffer>, m: Message, wire: seq<Byte>, done: seq<Message>,
        accepted: seq<Message>, size: int)
    requires Sorted(high, low) && Stream(high + low, wire, done, accepted, size) && (low != [] ==> low[0].sent == 0)
    ensures var h := if m.priority == High then high + [Buffer(m, 0)] else high;
      var l := if m.priority == Low then low + [Buffer(m, 0)] else low;
      Sorted(h, l) && Stream(h + l, wire, done, accepted + [m], size + |m.data|)
  {
    var b := Buffer(m, 0);
    if high + low == [] {
      assert high == [] && low == [];
      WrittenAtOnce(m, 0, wire, done, accepted, size);
      assert wire + m.data[..0] == wire;
      assert [b] + [] == [b] == [] + [b];
    } else if m.priority == High {
      Joins(high, low, b, wire, done, accepted, size);
    } else {
      assert (high + low) + [] == high + low;
      Joins(high + low, [], b, wire, done, accepted, size);
      assert ((high + low) + [b]) + [] == high + (low + [b]);
    }
  }
}
