/** One TCP socket of the socket server as a value: what every request and every event does to it. */
module SocketStates {

  import opened SendQueue

  datatype Kind = Invalid | Plisten | Listen | Connecting | Connected | HalfClose | Paccept | Bind

  /** What the kernel answers to a write: at most so many bytes, or an error. */
  datatype Answer = Takes(n: nat) | Interrupted | Again | Fails

  /** What a read gives: bytes, nothing yet, the end of the peer's stream, or an error. */
  datatype Reading = Bytes(n: nat) | Nothing | End | Error

  datatype Result = Open | Close

  /** What is reported of a read. */
  datatype Report = Data(n: nat) | Ignored | ClosedByPeer | Errored

  datatype Event =
    | Send(id: int, priority: Priority, data: seq<Byte>)
    | Writable
    | Shut(id: int, shutdown: bool)
    | ConnectDone(ok: bool)
    | Readable(r: Reading)

  /** What a list sends before the kernel stops it: the list left, the answers left, the bytes sent. */
  datatype Drained = Drained(list: seq<Buffer>, answers: seq<Answer>, bytes: seq<Byte>, failed: bool)

  /** The answers from the first one on that is no interruption. */
  function Uninterrupted(answers: seq<Answer>): (r: seq<Answer>)
    ensures |r| <= |answers| && (r != [] ==> !r[0].Interrupted?) && forall a :: a in r ==> a in answers
  {
    if answers != [] && answers[0].Interrupted? then Uninterrupted(answers[1..]) else answers
  }

  /** How many bytes the next write takes. */
  function Taken(answers: seq<Answer>, data: seq<Byte>): (n: nat)
    ensures n <= |data|
  {
    if answers == [] || !answers[0].Takes? then 0
    else if answers[0].n <= |data| then answers[0].n else |data|
  }

  /** What the kernel says to a write that is repeated when interrupted. */
  function Reply(answers: seq<Answer>, data: seq<Byte>): (a: Answer)
    ensures !a.Interrupted? && (a.Takes? ==> a.n <= |data|) && (a.Fails? ==> Fails in answers)
  {
    var r := Uninterrupted(answers);
    if r == [] then Again else if r[0].Takes? then Takes(Taken(r, data)) else r[0]
  }

  function Later(answers: seq<Answer>): (r: seq<Answer>)
    ensures (answers != [] ==> |r| < |answers|) && forall a :: a in r ==> a in answers
  {
    var r := Uninterrupted(answers);
    if r == [] then [] else r[1..]
  }

  /** Message by message, as far as the kernel takes them. */
  function Drain(l: seq<Buffer>, answers: seq<Answer>): Drained
    decreases |l|
  {
    if l == [] then Drained(l, answers, [], false)
    else
      var data := Remaining(l[0]);
      var a := Reply(answers, data);
      if !a.Takes? then Drained(l, Later(answers), [], a.Fails?)
      else if a.n < |data| then Drained([l[0].(sent := l[0].sent + a.n)] + l[1..], Later(answers), data[..a.n], false)
      else
        var d := Drain(l[1..], Later(answers));
        d.(bytes := data + d.bytes)
  }

  function Remaining(b: Buffer): seq<Byte> {
    if b.sent <= |b.msg.data| then b.msg.data[b.sent..] else []
  }

  // ----- send_buffer -----

  /** The lists after send_buffer, the answers left, the bytes written, and whether a write failed. */
  datatype Flushed = Flushed(high: seq<Buffer>, low: seq<Buffer>, answers: seq<Answer>, bytes: seq<Byte>, failed: bool)

  /** The high list is written first, then the low one; a message of it written in part goes to the high list. */
  function Flush(high: seq<Buffer>, low: seq<Buffer>, answers: seq<Answer>): Flushed {
    var d := Drain(high, answers);
    if d.failed || d.list != [] then Flushed(d.list, low, d.answers, d.bytes, d.failed)
    else
      var e := Drain(low, d.answers);
      if !e.failed && e.list != [] && e.list[0].sent != 0 then
        Flushed(e.list[..1], e.list[1..], e.answers, d.bytes + e.bytes, false)
      else Flushed([], e.list, e.answers, d.bytes + e.bytes, e.failed)
  }

  /** The socket: its lists, whether write events are asked for, the answers to come, and what was dropped
      when it was closed. */
  datatype State = State(kind: Kind, high: seq<Buffer>, low: seq<Buffer>, watched: bool, answers: seq<Answer>,
    dropped: seq<Buffer>)

  predicate Waits(s: State) {
    s.high != [] || s.low != []
  }

  /** force_close. */
  function Closed(s: State): State {
    s.(kind := Invalid, high := [], low := [], watched := false, dropped := s.high + s.low)
  }

  /** With the low list empty and the high one written, there is nothing more to write. */
  predicate WritesLast(s: State) {
    var d := Drain(s.high, s.answers);
    s.low == [] && !d.failed && d.list == []
  }

  /** send_buffer. */
  function AfterFlush(s: State): State {
    var f := Flush(s.high, s.low, s.answers);
    var t := s.(high := f.high, low := f.low, answers := f.answers);
    if f.failed then Closed(t)
    else if !WritesLast(s) then t
    else if s.kind == HalfClose then Closed(t)
    else t.(watched := false)
  }

  /** What remains to be done when the high list has been written. */
  lemma FlushInTwo(s: State, w: seq<Byte>)
    ensures var d, f := Drain(s.high, s.answers), Flush(s.high, s.low, s.answers);
      var t := s.(high := [], answers := d.answers);
      var g := Flush(t.high, t.low, t.answers);
      if d.failed || d.list != [] then f == Flushed(d.list, s.low, d.answers, d.bytes, d.failed)
      else AfterFlush(s) == AfterFlush(t) && w + f.bytes == (w + d.bytes) + g.bytes
  {
    var d := Drain(s.high, s.answers);
    var g := Flush([], s.low, d.answers);
    assert w + (d.bytes + g.bytes) == (w + d.bytes) + g.bytes;
    assert Drain([], d.answers) == Drained([], d.answers, [], false);
    assert [] + Drain(s.low, d.answers).bytes == Drain(s.low, d.answers).bytes;
    hide Drain;
  }

  // ----- requests and events -----

  /** send_socket. */
  function AfterSend(s: State, m: Message): State {
    if s.kind !in {Connecting, Connected, Bind} then s
    else if s.kind == Connected && !Waits(s) then
      var t := s.(answers := if s.answers == [] then [] else s.answers[1..]);
      var n := Taken(s.answers, m.data);
      if s.answers != [] && s.answers[0].Fails? then Closed(t)
      else if n == |m.data| then t
      else t.(high := [Buffer(m, n)], watched := true)
    else if m.priority == High then s.(high := s.high + [Buffer(m, 0)])
    else s.(low := s.low + [Buffer(m, 0)])
  }

  /** close_socket. */
  function AfterShut(s: State, shutdown: bool): State {
    if s.kind == Invalid then s
    else
      var t := if Waits(s) then AfterFlush(s) else s;
      if t.kind == Invalid then t
      else if shutdown || !Waits(t) then Closed(t)
      else t.(kind := HalfClose)
  }

  /** report_connect. */
  function AfterConnect(s: State, ok: bool): State {
    if s.kind != Connecting then s
    else if !ok then Closed(s)
    else s.(kind := Connected, watched := s.watched && Waits(s))
  }

  /** The kinds whose read and write events are handled by forward_message_tcp and send_buffer. */
  predicate Polled(kind: Kind) {
    kind in {Connected, HalfClose, Bind, Paccept, Plisten}
  }

  /** The peer ended its side of the connection, or reading failed. */
  predicate Ends(r: Reading) {
    r.End? || r.Error?
  }

  function Next(s: State, id: int, e: Event): State {
    match e
    case Send(to, p, data) => if to == id then AfterSend(s, Message(p, data)) else s
    case Shut(to, shutdown) => if to == id then AfterShut(s, shutdown) else s
    case ConnectDone(ok) => AfterConnect(s, ok)
    case Writable => if Polled(s.kind) && s.watched then AfterFlush(s) else s
    case Readable(r) => if Polled(s.kind) && Ends(r) then Closed(s) else s
  }

  /** The bytes that an event writes. */
  function Writes(s: State, id: int, e: Event): seq<Byte> {
    match e
    case Send(to, _, data) =>
      if to == id && s.kind == Connected && !Waits(s) then data[..Taken(s.answers, data)] else []
    case Shut(to, _) =>
      if to == id && s.kind != Invalid && Waits(s) then Flush(s.high, s.low, s.answers).bytes else []
    case Writable => if Polled(s.kind) && s.watched then Flush(s.high, s.low, s.answers).bytes else []
    case _ => []
  }

  /** A message is accepted by a socket that is connecting, connected or bound, unless the write fails at once. */
  function Accepts(s: State, id: int, e: Event): seq<Message> {
    match e
    case Send(to, p, data) =>
      if to == id && s.kind in {Connecting, Connected, Bind} && AfterSend(s, Message(p, data)).kind != Invalid then
        [Message(p, data)]
      else []
    case _ => []
  }

  function After(s: State, id: int, events: seq<Event>): State {
    if events == [] then s else Next(After(s, id, events[..|events| - 1]), id, events[|events| - 1])
  }

  /** The messages that a run accepts. */
  function AcceptedIn(s: State, id: int, events: seq<Event>): seq<Message> {
    if events == [] then []
    else
      var front := events[..|events| - 1];
      AcceptedIn(s, id, front) + Accepts(After(s, id, front), id, events[|events| - 1])
  }

  // ----- what is dropped -----

  /** The event closes the socket, and what waited is dropped. */
  predicate Loses(s: State, id: int, e: Event) {
    s.kind != Invalid && Next(s, id, e).kind == Invalid && Next(s, id, e).dropped != []
  }

  /** On a bound socket a message waits, and nothing but a close ends that. */
  lemma BoundWaits(s: State, id: int, e: Event)
    requires s.kind == Bind && !s.watched && !e.Shut? && !Forces(e, id)
    ensures var t := Next(s, id, e);
      t.kind == Bind && !t.watched && (Waits(s) || (e.Send? && e.id == id) ==> Waits(t))
    ensures Writes(s, id, e) == []
  {
    hide AfterFlush, Flush;
  }

  lemma SendWaits(s: State, id: int, p: Priority, data: seq<Byte>)
    requires s == State(Connected, [], [], false, [], []) && data != []
    ensures Next(s, id, Send(id, p, data)) == State(Connected, [Buffer(Message(p, data), 0)], [], true, [], [])
    ensures Writes(s, id, Send(id, p, data)) == [] && Accepts(s, id, Send(id, p, data)) == [Message(p, data)]
  {
  }

  lemma EndCloses(s: State, id: int)
    requires s.kind == Connected
    ensures Writes(s, id, Readable(End)) == [] && Accepts(s, id, Readable(End)) == []
    ensures Next(s, id, Readable(End)) == Closed(s) && (s.low == [] ==> Closed(s).dropped == s.high)
  {
  }

  lemma {:induction false} DrainLeaves(l: seq<Buffer>, answers: seq<Answer>)
    ensures var d := Drain(l, answers);
      && (d.failed ==> d.list != [] && Fails in answers)
      && (forall a :: a in d.answers ==> a in answers)
    decreases |l|
  {
    if l != [] {
      DrainLeaves(l[1..], Later(answers));
    }
  }

  lemma FlushLeaves(high: seq<Buffer>, low: seq<Buffer>, answers: seq<Answer>)
    ensures var f := Flush(high, low, answers);
      && (f.failed ==> f.high + f.low != [] && Fails in answers)
      && (forall a :: a in f.answers ==> a in answers)
  {
    DrainLeaves(high, answers);
    DrainLeaves(low, Drain(high, answers).answers);
    hide Drain;
  }

  /** Something waits, and a write of it fails, the peer or a failed connect ends the connection, or it is shut
      down with data left after the last writes. */
  predicate CutsOff(s: State, id: int, e: Event) {
    var f := Flush(s.high, s.low, s.answers);
    && s.kind != Invalid && Waits(s)
    && match e
       case Send(_, _, _) => false
       case Writable => Polled(s.kind) && s.watched && f.failed
       case Shut(to, shutdown) => to == id && (f.failed || (shutdown && f.high + f.low != []))
       case ConnectDone(ok) => s.kind == Connecting && !ok
       case Readable(r) => Polled(s.kind) && Ends(r)
  }

  /** Exactly these events drop data. */
  lemma LosesExactly(s: State, id: int, e: Event)
    ensures Loses(s, id, e) <==> CutsOff(s, id, e)
  {
    FlushLeaves(s.high, s.low, s.answers);
    FlushOfNothing(s);
    var f := Flush(s.high, s.low, s.answers);
    assert s.high + s.low == [] <==> !Waits(s);
    assert f.high + f.low == [] <==> f.high == [] && f.low == [];
    hide Drain, Flush, WritesLast;
  }

  lemma FlushOfNothing(s: State)
    ensures WritesLast(s) ==> var f := Flush(s.high, s.low, s.answers); f.high + f.low == [] && !f.failed
  {
  }

  /** Events that end the connection whatever is still to be written. */
  predicate Forces(e: Event, id: int) {
    || (e.Shut? && e.id == id && e.shutdown)
    || (e.ConnectDone? && !e.ok)
    || (e.Readable? && Ends(e.r))
  }

  predicate Unforced(events: seq<Event>, id: int) {
    forall k :: 0 <= k < |events| ==> !Forces(events[k], id)
  }

  lemma LosesByForce(s: State, id: int, e: Event)
    requires Loses(s, id, e)
    ensures Forces(e, id) || Fails in s.answers
  {
    LosesExactly(s, id, e);
    FlushLeaves(s.high, s.low, s.answers);
    hide Loses, Flush;
  }

  lemma FewerAnswers(s: State, id: int, e: Event)
    ensures forall a :: a in Next(s, id, e).answers ==> a in s.answers
  {
    FlushLeaves(s.high, s.low, s.answers);
    hide Flush, Drain;
  }

  lemma ClosedStays(s: State, id: int, e: Event)
    ensures s.kind == Invalid ==> Next(s, id, e) == s
  {
    hide AfterFlush;
  }

  lemma NoEvents(s: State, id: int)
    ensures After(s, id, []) == s && AcceptedIn(s, id, []) == []
  {
  }

  lemma OneMore(s: State, id: int, front: seq<Event>, e: Event)
    ensures After(s, id, front + [e]) == Next(After(s, id, front), id, e)
    ensures AcceptedIn(s, id, front + [e]) == AcceptedIn(s, id, front) + Accepts(After(s, id, front), id, e)
  {
    assert (front + [e])[..|front|] == front;
    hide Next, Accepts;
  }

  /** Event 'k' of a run drops data. */
  predicate LosesAt(s: State, id: int, events: seq<Event>, k: nat) {
    k < |events| && Loses(After(s, id, events[..k]), id, events[k])
  }

  lemma LosesSooner(s: State, id: int, front: seq<Event>, e: Event, k: nat)
    ensures LosesAt(s, id, front + [e], k) <==>
      LosesAt(s, id, front, k) || (k == |front| && Loses(After(s, id, front), id, e))
  {
    var events := front + [e];
    if k < |front| {
      assert events[..k] == front[..k] && events[k] == front[k];
    } else if k == |front| {
      assert events[..k] == front && events[k] == e;
    }
    hide Loses, After;
  }

  /** In a run data is dropped if and only if some event of it drops data. */
  lemma {:induction false} LostInRun(s: State, id: int, events: seq<Event>)
    requires s.kind != Invalid && s.dropped == []
    ensures After(s, id, events).dropped != [] <==> exists k: nat :: LosesAt(s, id, events, k)
    ensures After(s, id, events).kind != Invalid ==> After(s, id, events).dropped == []
    ensures forall a :: a in After(s, id, events).answers ==> a in s.answers
    decreases |events|
  {
    if events != [] {
      var front, e := events[..|events| - 1], events[|events| - 1];
      assert front + [e] == events;
      LostInRun(s, id, front);
      var t := After(s, id, front);
      OneMore(s, id, front, e);
      ClosedStays(t, id, e);
      LiveDropsNothing(t, id, e);
      FewerAnswers(t, id, e);
      hide Next, After, LosesAt;
      forall k: nat
        ensures LosesAt(s, id, events, k) <==> LosesAt(s, id, front, k) || (k == |front| && Loses(t, id, e))
      {
        LosesSooner(s, id, front, e, k);
      }
      assert LosesAt(s, id, events, |front|) <==> LosesAt(s, id, front, |front|) || Loses(t, id, e);
    }
  }

  /** Event 'k' of a run cuts off what waits. */
  predicate CutsOffAt(s: State, id: int, events: seq<Event>, k: nat) {
    k < |events| && CutsOff(After(s, id, events[..k]), id, events[k])
  }

  lemma CutOffInRun(s: State, id: int, events: seq<Event>)
    requires s.kind != Invalid && s.dropped == []
    ensures After(s, id, events).dropped != [] <==> exists k: nat :: CutsOffAt(s, id, events, k)
  {
    LostInRun(s, id, events);
    forall k: nat ensures CutsOffAt(s, id, events, k) <==> LosesAt(s, id, events, k) {
      if k < |events| {
        LosesExactly(After(s, id, events[..k]), id, events[k]);
      }
    }
    hide After, Loses, CutsOff;
  }

  lemma NoConnection(s: State, ok: bool)
    ensures s.kind != Connecting ==> AfterConnect(s, ok) == s
  {
  }

  lemma LiveDropsNothing(s: State, id: int, e: Event)
    ensures Next(s, id, e).kind != Invalid ==> Next(s, id, e).dropped == s.dropped
  {
    hide Drain;
  }

  /** Unless a write fails or an event ends the connection by force, nothing is dropped. */
  lemma NothingLost(s: State, id: int, events: seq<Event>)
    requires s.kind != Invalid && s.dropped == []
    requires Fails !in s.answers && Unforced(events, id)
    ensures After(s, id, events).dropped == []
  {
    LostInRun(s, id, events);
    if After(s, id, events).dropped != [] {
      var k: nat :| LosesAt(s, id, events, k);
      LosesByForce(After(s, id, events[..k]), id, events[k]);
      LostInRun(s, id, events[..k]);
    }
  }
}
