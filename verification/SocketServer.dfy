/** One TCP socket of the socket server: sends, partial writes and half-close. */
module SocketServer {

  import opened SendQueue
  import opened SocketStates
  import opened SocketProgress

  lemma DrainNothing(answers: seq<Answer>)
    ensures Drain([], answers) == Drained([], answers, [], false)
  {
  }

  /** With 'w' on the wire, draining 'l' leads where draining 'l0' with 'w0' on the wire leads. */
  predicate DrainsOn(l0: seq<Buffer>, answers0: seq<Answer>, w0: seq<Byte>, l: seq<Buffer>, answers: seq<Answer>,
        w: seq<Byte>)
  {
    var d0, d := Drain(l0, answers0), Drain(l, answers);
    d0.(bytes := []) == d.(bytes := []) && w0 + d0.bytes == w + d.bytes
  }

  /** What one write does to a list. */
  function Front(l: seq<Buffer>, a: Answer): seq<Buffer>
    requires l != []
  {
    if !a.Takes? then l
    else if a.n < |Remaining(l[0])| then [l[0].(sent := l[0].sent + a.n)] + l[1..]
    else l[1..]
  }

  /** One write: a whole message, or the end. */
  lemma DrainsNext(l0: seq<Buffer>, answers0: seq<Answer>, w0: seq<Byte>, l: seq<Buffer>, answers: seq<Answer>,
        w: seq<Byte>, w1: seq<Byte>)
    requires DrainsOn(l0, answers0, w0, l, answers, w) && l != []
    requires var a := Reply(answers, Remaining(l[0])); w1 == if a.Takes? then w + Remaining(l[0])[..a.n] else w
    ensures var a := Reply(answers, Remaining(l[0]));
      if a.Takes? && a.n == |Remaining(l[0])| then DrainsOn(l0, answers0, w0, l[1..], Later(answers), w1)
      else
        var d := Drain(l0, answers0);
        d.list == Front(l, a) && d.answers == Later(answers) && d.failed == a.Fails? && w1 == w0 + d.bytes
  {
    hide Reply, Later, Remaining;
    var data := Remaining(l[0]);
    var a := Reply(answers, data);
    if a.Takes? {
      if a.n == |data| {
        assert data[..a.n] == data;
        var more := Drain(l[1..], Later(answers)).bytes;
        assert w + (data + more) == (w + data) + more;
      }
    } else {
      assert w + [] == w;
    }
  }

  lemma DrainsAll(l0: seq<Buffer>, answers0: seq<Answer>, w0: seq<Byte>, answers: seq<Answer>, w: seq<Byte>)
    requires DrainsOn(l0, answers0, w0, [], answers, w)
    ensures Drain(l0, answers0) == Drained([], answers, Drain(l0, answers0).bytes, false)
    ensures w == w0 + Drain(l0, answers0).bytes
  {
    assert w + [] == w;
  }

  lemma DrainStarts(l: seq<Buffer>, answers: seq<Answer>, w: seq<Byte>)
    ensures DrainsOn(l, answers, w, l, answers, w)
  {
  }

  class Socket {
    const id: int
    var kind: Kind
    var high: seq<Buffer>
    var low: seq<Buffer>
    var wbSize: int
    /** Write events are asked for. */
    var watched: bool
    /** The answers of the kernel to come, and the bytes it took. */
    var answers: seq<Answer>
    var wire: seq<Byte>
    ghost var done: seq<Message>
    ghost var accepted: seq<Message>
    /** What was still waiting when the socket was closed. */
    ghost var dropped: seq<Buffer>
    ghost const bound: bool

    /** What holds even in the middle of sending. */
    ghost predicate Streaming()
      reads this`high, this`low, this`wire, this`done, this`accepted, this`wbSize
    {
      Sorted(high, low) && Stream(high + low, wire, done, accepted, wbSize)
    }

    ghost predicate Valid()
      reads this
    {
      Sound() && (kind == Connecting ==> watched)
    }

    ghost predicate Sound()
      reads this
    {
      if kind == Invalid then
        && high == low == [] && !watched
        && Stream(dropped, wire, done, accepted, Unsent(dropped))
      else
        && Streaming() && dropped == []
        && (low != [] ==> low[0].sent == 0)
        && (kind == Bind ==> bound)
        && (kind in {Connecting, Connected, HalfClose} && !bound && high + low != [] ==> watched)
        && (kind == HalfClose && !bound ==> watched)
        && (bound ==> !watched && kind in {Bind, HalfClose})
        && (kind in {Plisten, Listen, Paccept} ==> high == low == [])
    }

    ghost function Now(): State
      reads this`kind, this`high, this`low, this`watched, this`answers, this`dropped
    {
      State(kind, high, low, watched, answers, dropped)
    }

    /** new_fd, and what its callers set the type to. */
    constructor (id: int, kind: Kind, answers: seq<Answer>)
      requires kind != HalfClose && kind != Invalid
      ensures Valid() && this.id == id && this.kind == kind && this.answers == answers
      ensures wire == [] && done == [] && accepted == [] && bound == (kind == Bind)
      ensures Now() == State(kind, [], [], kind == Connecting, answers, [])
    {
      this.id, this.kind, this.answers, bound := id, kind, answers, kind == Bind;
      high, low, wbSize, wire, done, accepted, dropped := [], [], 0, [], [], [], [];
      watched := kind == Connecting;
    }

    method Write(data: seq<Byte>) returns (a: Answer)
      modifies this`answers, this`wire
      ensures wire == old(wire) + data[..Taken(old(answers), data)] && (!a.Takes? ==> wire == old(wire))
      ensures a == if old(answers) == [] then Again
                   else if old(answers)[0].Takes? then Takes(Taken(old(answers), data)) else old(answers)[0]
      ensures answers == if old(answers) == [] then [] else old(answers)[1..]
    {
      if answers == [] {
        return Again;
      }
      a, answers := answers[0], answers[1..];
      if a.Takes? {
        a := Takes(if a.n <= |data| then a.n else |data|);
        wire := wire + data[..a.n];
      }
    }

    /** Writes again for as long as a signal interrupts it. */
    method WriteAgain(data: seq<Byte>) returns (a: Answer)
      modifies this`answers, this`wire
      ensures a == Reply(old(answers), data) && answers == Later(old(answers))
      ensures wire == if a.Takes? then old(wire) + data[..a.n] else old(wire)
    {
      ghost var answers0 := answers;
      a := Write(data);
      while a.Interrupted?
        invariant a.Interrupted? ==>
          wire == old(wire) && Reply(answers, data) == Reply(answers0, data) && Later(answers) == Later(answers0)
        invariant !a.Interrupted? ==>
          && a == Reply(answers0, data) && answers == Later(answers0)
          && wire == if a.Takes? then old(wire) + data[..a.n] else old(wire)
        decreases |answers|, a.Interrupted?
      {
        a := Write(data);
      }
    }

    /** force_close. */
    method ForceClose()
      requires kind != Invalid && Streaming()
      modifies this`kind, this`high, this`low, this`watched, this`dropped
      ensures Valid() && Now() == Closed(old(Now()))
    {
      hide Stream, Sorted, Unsent;
      SizeIsUnsent(high + low, wire, done, accepted, wbSize);
      dropped := high + low;
      high, low, watched := [], [], false;
      kind := Invalid;
    }

    function List(p: Priority): seq<Buffer>
      reads this`high, this`low
    {
      if p == High then high else low
    }

    method SetList(p: Priority, l: seq<Buffer>)
      modifies this`high, this`low
      ensures high == (if p == High then l else old(high)) && low == (if p == Low then l else old(low))
    {
      if p == High { high := l; } else { low := l; }
    }

    /** What was written and what waits. */
    ghost function Accepted(): seq<Message>
      reads this`done, this`high, this`low
    {
      done + Messages(high + low)
    }

    lemma FrontLeft(p: Priority)
      requires Streaming() && List(p) != [] && (p == Low ==> high == [])
      ensures |Remaining(List(p)[0])| == |List(p)[0].msg.data| - List(p)[0].sent
    {
      assert (high + low)[0] == List(p)[0];
      FrontFits(high + low, wire, done, accepted, wbSize);
    }

    /** The inner loop of send_list_tcp: writes the message in front, as a whole or in part. */
    method SendFront(p: Priority) returns (a: Answer)
      requires kind != Invalid && Streaming() && List(p) != [] && (p == Low ==> high == [])
      requires p == High && low != [] ==> low[0].sent == 0
      modifies this`high, this`low, this`wbSize, this`answers, this`wire, this`done
      ensures Streaming() && (p == High ==> low == old(low)) && (p == Low ==> high == [])
      ensures Accepted() == old(Accepted())
      ensures var data := Remaining(old(List(p)[0]));
        && a == Reply(old(answers), data) && answers == Later(old(answers))
        && wire == (if a.Takes? then old(wire) + data[..a.n] else old(wire))
        && List(p) == Front(old(List(p)), a)
    {
      hide Stream, Messages, Sorted, Reply, Later;
      var tmp := List(p)[0];
      ghost var q, w := high + low, wire;
      assert q[0] == tmp;
      FrontFits(q, wire, done, accepted, wbSize);
      a := WriteAgain(tmp.msg.data[tmp.sent..]);
      if !a.Takes? {
        return;
      }
      wbSize := wbSize - a.n;
      if a.n != |tmp.msg.data| - tmp.sent {
        WritesPart(q, w, done, accepted, wbSize + a.n, a.n);
        FrontChanges(high, low, tmp.(sent := tmp.sent + a.n));
        SetList(p, [tmp.(sent := tmp.sent + a.n)] + List(p)[1..]);
        assert high + low == [tmp.(sent := tmp.sent + a.n)] + q[1..];
        SameMessages(q, high + low);
      } else {
        assert tmp.msg.data[tmp.sent..][..a.n] == tmp.msg.data[tmp.sent..];
        WritesWhole(q, w, done, accepted, wbSize + a.n);
        FrontChanges(high, low, tmp);
        SetList(p, List(p)[1..]);
        assert high + low == q[1..];
        OneDone(done, q);
        done := done + [tmp.msg];
      }
    }

    /** send_list_tcp: writes the list as far as the kernel takes it. */
    method SendList(p: Priority) returns (r: Result)
      requires kind != Invalid && Streaming() && (p == Low ==> high == [])
      requires p == High && low != [] ==> low[0].sent == 0
      modifies this`kind, this`high, this`low, this`wbSize, this`watched, this`answers, this`wire, this`done,
        this`dropped
      ensures r == Close ==> Valid() && kind == Invalid
      ensures r == Open ==> kind == old(kind) && Streaming() && watched == old(watched) && dropped == old(dropped)
      ensures r == Open && p == High ==> low == old(low)
      ensures r == Open && p == Low ==> high == []
      ensures r == Open ==> Accepted() == old(Accepted())
      ensures var d := Drain(old(List(p)), old(answers));
        && (r == Close <==> d.failed) && answers == d.answers && wire == old(wire) + d.bytes
        && (if r == Open then List(p) == d.list else dropped == if p == High then d.list + old(low) else d.list)
    {
      hide Streaming, Accepted, Drain, DrainsOn, Reply, Later, Remaining;
      ghost var l0, answers0 := List(p), answers;
      DrainStarts(l0, answers0, wire);
      while List(p) != []
        invariant kind == old(kind) && Streaming() && watched == old(watched) && dropped == old(dropped)
        invariant (p == High ==> low == old(low)) && (p == Low ==> high == [])
        invariant Accepted() == old(Accepted()) && DrainsOn(l0, answers0, old(wire), List(p), answers, wire)
        decreases |List(p)|
      {
        ghost var l1, answers1, w1 := List(p), answers, wire;
        FrontLeft(p);
        var left := |List(p)[0].msg.data| - List(p)[0].sent;
        var a := SendFront(p);
        DrainsNext(l0, answers0, old(wire), l1, answers1, w1, wire);
        if a.Again? {
          return Open;
        }
        if a.Fails? {
          assert [] + low == low;
          ForceClose();
          return Close;
        }
        if a.n != left {
          return Open;
        }
      }
      DrainsAll(l0, answers0, old(wire), answers, wire);
      return Open;
    }

    function Uncomplete(): bool
      reads this`low
    {
      low != [] && low[0].sent != 0
    }

    method RaiseUncomplete()
      requires kind != Invalid && Streaming() && high == [] && low != []
      modifies this`high, this`low
      ensures Streaming() && high == old(low)[..1] && low == old(low)[1..] && high + low == old(high + low)
      ensures low != [] ==> low[0].sent == 0
    {
      var tmp := low[0];
      low := low[1..];
      high := [tmp];
      assert high + low == old(high + low) == old(low);
    }

    /** The part of send_buffer with the high list empty: a message left in part goes to the high list. */
    method SendLow() returns (r: Result)
      requires kind != Invalid && Streaming() && high == []
      modifies this`kind, this`high, this`low, this`wbSize, this`watched, this`answers, this`wire, this`done,
        this`dropped
      ensures r == Close ==> Valid() && kind == Invalid
      ensures r == Open ==> kind == old(kind) && Streaming() && watched == old(watched) && dropped == old(dropped)
      ensures r == Open ==> Accepted() == old(Accepted()) && (low != [] ==> low[0].sent == 0)
      ensures var e := Drain(old(low), old(answers));
        && (r == Close <==> e.failed) && answers == e.answers && wire == old(wire) + e.bytes
        && (r == Close ==> dropped == e.list)
        && (r == Open ==> (high, low) == if e.list != [] && e.list[0].sent != 0 then (e.list[..1], e.list[1..])
             else ([], e.list))
    {
      hide Streaming, Drain;
      r := SendList(Low);
      if r == Open && Uncomplete() {
        RaiseUncomplete();
      }
    }

    /** The part of send_buffer with the high list empty: the low list, or the end of a half-closed socket. */
    method SendLast() returns (r: Result)
      requires Valid() && kind != Invalid && high == []
      modifies this`kind, this`high, this`low, this`wbSize, this`watched, this`answers, this`wire, this`done,
        this`dropped
      ensures Sound() && (old(kind) != Connecting || high + low != [] ==> Valid())
      ensures r == Open ==> kind == old(kind) && Accepted() == old(Accepted())
      ensures r == Close <==> kind == Invalid
      ensures Now() == AfterFlush(old(Now())) && wire == old(wire) + Flush([], old(low), old(answers)).bytes
    {
      hide Streaming, Drain;
      DrainNothing(answers);
      ghost var w := wire;
      assert w + [] == w;
      if low != [] {
        r := SendLow();
        assert [] + dropped == dropped;
        assert [] + Drain(old(low), old(answers)).bytes == Drain(old(low), old(answers)).bytes;
      } else {
        watched := false;
        r := Open;
        if kind == HalfClose {
          ForceClose();
          r := Close;
        }
      }
    }

    /** The lists in turn: the high one first, then the low one. */
    method SendLists() returns (r: Result)
      requires Valid() && kind != Invalid
      modifies this`kind, this`high, this`low, this`wbSize, this`watched, this`answers, this`wire, this`done,
        this`dropped
      ensures Sound() && (old(kind) != Connecting || high + low != [] ==> Valid())
      ensures r == Open ==> kind == old(kind) && Accepted() == old(Accepted())
      ensures r == Close <==> kind == Invalid
      ensures Now() == AfterFlush(old(Now()))
      ensures wire == old(wire) + Flush(old(high), old(low), old(answers)).bytes
    {
      hide Streaming, Drain, Accepted;
      ghost var was, w := Now(), wire;
      assert high + low == [] <==> high == [] && low == [];
      DrainNothing(answers);
      r := SendList(High);
      FlushInTwo(was, w);
      if r == Close {
        return;
      }
      if high == [] {
        hide Flush, AfterFlush;
        r := SendLast();
      }
    }

    /** send_buffer: the high list first, then the low one; at the end a half-closed socket closes. */
    method SendBuffer() returns (r: Result)
      requires Valid() && kind != Invalid
      modifies this`kind, this`high, this`low, this`wbSize, this`watched, this`answers, this`wire, this`done,
        this`dropped
      ensures Sound() && (old(kind) != Connecting || high + low != [] ==> Valid())
      ensures r == Open ==> kind == old(kind) && Accepted() == old(Accepted())
      ensures r == Close <==> kind == Invalid
      ensures Now() == AfterFlush(old(Now()))
      ensures wire == old(wire) + Flush(old(high), old(low), old(answers)).bytes
      ensures AllFit(old(high + low)) && old(wire) <= wire
      ensures Progress(old(high + low), old(answers), if r == Open then high + low else dropped, answers,
                wire[|old(wire)|..], r == Close && dropped != [])
      ensures Willing(old(answers), old(high + low)) && |old(high)| + |old(low)| <= Attempts(old(answers)) ==>
        if r == Open then high == [] && low == [] else dropped == []
    {
      ghost var was, w := Now(), wire;
      QueueFits();
      hide *;
      r := SendLists();
      FlushedProgress(was, Now());
      assert (w + Flush(was.high, was.low, was.answers).bytes)[|w|..] == Flush(was.high, was.low, was.answers).bytes;
    }

    lemma QueueFits()
      requires Valid()
      ensures var s := Now();
        s.high == high && s.low == low && AllFit(s.high + s.low) && (s.kind != Invalid ==> s.dropped == [])
    {
    }

    /** append_sendbuffer and append_sendbuffer_low: a whole message waits in the list of its priority. */
    method AppendBuffer(m: Message)
      requires Valid() && kind in {Connecting, Connected, Bind} && (kind == Connected ==> |high + low| > 0)
      modifies this`high, this`low, this`wbSize, this`accepted
      ensures Valid() && accepted == old(accepted) + [m]
      ensures high == old(high) + if m.priority == High then [Buffer(m, 0)] else []
      ensures low == old(low) + if m.priority == Low then [Buffer(m, 0)] else []
    {
      hide Stream, Messages, Sorted;
      Queues(high, low, m, wire, done, accepted, wbSize);
      if m.priority == Low {
        low := low + [Buffer(m, 0)];
      } else {
        high := high + [Buffer(m, 0)];
      }
      wbSize := wbSize + |m.data|;
      accepted := accepted + [m];
    }

    /** The part of send_socket with nothing waiting: the message is written at once, as far as the kernel takes
        it, and what is left of it waits in the high list. */
    method WriteAtOnce(m: Message) returns (r: Result)
      requires Valid() && kind == Connected && high == low == []
      modifies this
      ensures Valid() && Now() == AfterSend(old(Now()), m)
      ensures accepted == old(accepted) + if r == Open then [m] else []
      ensures if r == Open then kind == Connected else kind == Invalid && Fails in old(answers)
      ensures wire == old(wire) + m.data[..Taken(old(answers), m.data)]
    {
      hide Stream, Messages, Sorted;
      ghost var w := wire;
      assert accepted + [] == accepted;
      var n := 0;
      var a := Write(m.data);
      if a.Takes? {
        n := a.n;
      } else if a.Fails? {
        ForceClose();
        return Close;
      }
      assert high + low == [];
      assert wire == w + m.data[..n];
      WrittenAtOnce(m, n, w, done, accepted, wbSize);
      accepted := accepted + [m];
      if n == |m.data| {
        done := done + [m];
        return Open;
      }
      high := [Buffer(m, n)];
      assert high + low == [Buffer(m, n)];
      wbSize := wbSize + |m.data| - n;
      watched := true;
      return Open;
    }

    /** send_socket, for a request of a message of plain memory. */
    method SendSocket(to: int, m: Message) returns (r: Result)
      requires Valid()
      modifies this
      ensures Valid()
      ensures accepted == old(accepted) || accepted == old(accepted) + [m]
      ensures accepted == old(accepted) + [m] <==>
        to == id && old(kind) in {Connecting, Connected, Bind} && r == Open
      ensures Now() == if to == id then AfterSend(old(Now()), m) else old(Now())
      ensures r == Close ==> kind == Invalid && old(kind) == Connected && Fails in old(answers)
      ensures r == Open ==> kind == old(kind)
      ensures old(kind) == Bind ==> wire == old(wire) && !watched
      ensures kind != Invalid && high + low != [] ==> (watched <==> !bound)
      ensures wire == old(wire) + if to == id && old(kind) == Connected && old(high + low) == []
                                  then m.data[..Taken(old(answers), m.data)] else []
      ensures !(to == id && old(kind) in {Connecting, Connected, Bind}) ==> high == old(high) && low == old(low)
      ensures to == id && (old(kind) in {Connecting, Bind} || (old(kind) == Connected && old(high + low) != [])) ==>
        && high == old(high) + (if m.priority == High then [Buffer(m, 0)] else [])
        && low == old(low) + if m.priority == Low then [Buffer(m, 0)] else []
    {
      hide Stream, Messages, Sorted;
      if kind == Invalid || to != id || kind == HalfClose || kind == Paccept {
        return Open;
      }
      if kind == Plisten || kind == Listen {
        return Open;
      }
      if high == [] && low == [] && kind == Connected {
        hide AfterSend;
        r := WriteAtOnce(m);
      } else {
        assert kind == Connected ==> |high + low| > 0;
        AppendBuffer(m);
        r := Open;
      }
    }

    /** close_socket: at once if nothing waits or on shutdown, or when all is written. */
    method CloseSocket(to: int, shutdown: bool) returns (r: Result)
      requires Valid()
      modifies this
      ensures Valid() && accepted == old(accepted)
      ensures Now() == if to == id then AfterShut(old(Now()), shutdown) else old(Now())
      ensures wire == old(wire) + Writes(old(Now()), id, Shut(to, shutdown))
      ensures to != id || old(kind) == Invalid ==> r == Close
      ensures to == id && old(kind) != Invalid ==>
        if r == Close then kind == Invalid else kind == HalfClose && !shutdown && high + low != []
    {
      hide Stream, Messages, Sorted, Flush, WritesLast, Progress, Willing, Attempts, AllFit;
      assert wire + [] == wire;
      if kind == Invalid || to != id {
        return Close;
      }
      assert high + low == [] <==> !Waits(Now());
      if high + low != [] {
        r := SendBuffer();
        if r != Open {
          return;
        }
      }
      assert high + low == [] <==> !Waits(Now());
      if shutdown || high + low == [] {
        ForceClose();
        return Close;
      }
      kind := HalfClose;
      return Open;
    }

    /** report_connect. */
    method ReportConnect(ok: bool)
      requires Valid() && kind == Connecting
      modifies this
      ensures Valid() && accepted == old(accepted) && wire == old(wire)
      ensures kind == if ok then Connected else Invalid
      ensures ok ==> high == old(high) && low == old(low) && (watched <==> high + low != [])
      ensures Now() == AfterConnect(old(Now()), ok)
    {
      hide Stream, Messages, Sorted;
      assert high + low == [] <==> !Waits(Now());
      if !ok {
        ForceClose();
      } else {
        kind := Connected;
        if high == [] && low == [] {
          watched := false;
        }
      }
    }

    /** forward_message_tcp: what is read goes on, unless the socket is half-closed; at the end of the peer's
        stream and on an error the socket is closed, whatever waits. */
    method ForwardMessage(reading: Reading) returns (report: Report)
      requires Valid() && Polled(kind)
      modifies this`kind, this`high, this`low, this`watched, this`dropped
      ensures Valid() && Now() == if Ends(reading) then Closed(old(Now())) else old(Now())
      ensures report == match reading
                        case Bytes(n) => if old(kind) == HalfClose then Ignored else Data(n)
                        case Nothing => Ignored
                        case End => ClosedByPeer
                        case Error => Errored
    {
      match reading {
        case Nothing => return Ignored;
        case Error =>
          ForceClose();
          return Errored;
        case End =>
          ForceClose();
          return ClosedByPeer;
        case Bytes(n) =>
          if kind == HalfClose {
            return Ignored;
          }
          return Data(n);
      }
    }

    /** One request or event; write events come only when asked for. */
    method Happen(e: Event)
      requires Valid()
      modifies this
      ensures Valid() && Now() == Next(old(Now()), id, e)
      ensures wire == old(wire) + Writes(old(Now()), id, e) && accepted == old(accepted) + Accepts(old(Now()), id, e)
    {
      hide AfterSend, AfterShut, AfterConnect, AfterFlush, Flush, Valid;
      assert wire + [] == wire && accepted + [] == accepted;
      match e {
        case Send(to, p, data) =>
          var r := SendSocket(to, Message(p, data));
        case Shut(to, shutdown) =>
          var r := CloseSocket(to, shutdown);
        case ConnectDone(ok) =>
          if kind == Connecting {
            ReportConnect(ok);
          } else {
            NoConnection(Now(), ok);
          }
        case Writable =>
          if Polled(kind) && watched {
            var r := SendBuffer();
          }
        case Readable(reading) =>
          if Polled(kind) {
            var report := ForwardMessage(reading);
          }
      }
    }

    method HappenAll(events: seq<Event>)
      requires Valid()
      modifies this
      ensures Valid() && Now() == After(old(Now()), id, events)
      ensures accepted == old(accepted) + AcceptedIn(old(Now()), id, events)
    {
      hide Valid, Next, Accepts, After, AcceptedIn;
      ghost var was, before := Now(), accepted;
      assert events[..0] == [] && before + [] == before;
      NoEvents(was, id);
      for i := 0 to |events|
        invariant Valid() && Now() == After(was, id, events[..i])
        invariant accepted == before + AcceptedIn(was, id, events[..i])
      {
        OneMore(was, id, events[..i], events[i]);
        assert events[..i + 1] == events[..i] + [events[i]];
        Happen(events[i]);
        ghost var so, more := AcceptedIn(was, id, events[..i]), Accepts(After(was, id, events[..i]), id, events[i]);
        assert (before + so) + more == before + (so + more);
      }
      assert events[..|events|] == events;
    }

    /** After any sequence of events: the bytes written are whole messages and the beginning of at
        most one more; of each priority they and what waits are the accepted messages in order. What waited
        is dropped if and only if one of the events cuts it off, by a failed write, a shutdown, a failed connect
        or the end of reading; else a closed socket has written everything. */
    method Run(events: seq<Event>) returns (ghost waiting: seq<Buffer>)
      requires Valid()
      modifies this
      ensures Valid() && waiting == (if kind == Invalid then dropped else high + low)
      ensures Now() == After(old(Now()), id, events)
      ensures accepted == old(accepted) + AcceptedIn(old(Now()), id, events)
      ensures FrontOnly(waiting) && wire == Flat(done) + Begun(waiting)
      ensures forall p :: OfPriority(done + Messages(waiting), p) == OfPriority(accepted, p)
      ensures kind != Invalid ==> wbSize == Unsent(high + low) && (low != [] ==> low[0].sent == 0)
      ensures kind != Invalid && high + low != [] ==> (watched <==> !bound)
      ensures kind == HalfClose && !bound ==> watched
      ensures bound ==> kind in {Bind, HalfClose, Invalid} && !watched
      ensures old(kind) != Invalid ==> (dropped != [] <==> exists k: nat :: CutsOffAt(old(Now()), id, events, k))
      ensures old(kind) != Invalid && Fails !in old(answers) && Unforced(events, id) ==> dropped == []
      ensures kind == Invalid && dropped == [] ==>
        wire == Flat(done) && forall p :: OfPriority(done, p) == OfPriority(accepted, p)
    {
      hide After, AcceptedIn, CutsOffAt;
      ghost var was := Now();
      HappenAll(events);
      waiting := if kind == Invalid then dropped else high + low;
      if was.kind != Invalid {
        CutOffInRun(was, id, events);
        if Fails !in was.answers && Unforced(events, id) {
          NothingLost(was, id, events);
        }
      }
      if kind == Invalid && dropped == [] {
        AllWritten(wire, done, accepted, 0);
      }
    }

    /** After any events, if the kernel takes what it is given from then on, one write event gets everything that
        was accepted onto the wire, each priority in order. */
    method RunOut(events: seq<Event>)
      requires Valid()
      modifies this
      ensures Valid() && accepted == old(accepted) + AcceptedIn(old(Now()), id, events)
      ensures var s := After(old(Now()), id, events);
        && s.kind !in {Invalid, Connecting, Listen} && s.watched
        && Willing(s.answers, s.high + s.low) && |s.high| + |s.low| <= Attempts(s.answers) ==>
          && high == [] && low == [] && dropped == [] && wire == Flat(done)
          && forall p :: OfPriority(done, p) == OfPriority(accepted, p)
    {
      hide *;
      HappenAll(events);
      ghost var s := Now();
      QueueFits();
      Happen(Writable);
      AcceptsNothing(s);
      assert accepted + [] == accepted;
      PolledKinds();
      if && Polled(s.kind) && s.watched && Willing(s.answers, s.high + s.low)
         && |s.high| + |s.low| <= Attempts(s.answers) {
        AllOut(s);
      }
    }

    lemma AcceptsNothing(s: State)
      ensures Accepts(s, id, Writable) == []
    {
    }

    lemma AllOut(s: State)
      requires Valid() && Now() == Next(s, id, Writable) && Polled(s.kind) && s.watched && AllFit(s.high + s.low)
      requires Willing(s.answers, s.high + s.low) && |s.high| + |s.low| <= Attempts(s.answers)
      requires s.kind != Invalid ==> s.dropped == []
      ensures high == [] && low == [] && dropped == [] && wire == Flat(done)
      ensures forall p :: OfPriority(done, p) == OfPriority(accepted, p)
    {
      WritableEmpties(s, id);
      LiveDropsNothing(s, id, Writable);
      hide Next, Willing, Attempts;
      AllWritten(wire, done, accepted, 0);
    }
  }

  /** A message on a bound socket waits, and whatever happens short of a close, not a byte is written. */
  method BindAndSend(id: int, answers: seq<Answer>, p: Priority, data: seq<Byte>, events: seq<Event>)
        returns (s: Socket)
    requires Unforced(events, id) && forall k :: 0 <= k < |events| ==> !events[k].Shut?
    ensures s.Valid() && s.kind == Bind && !s.watched && |s.high| + |s.low| > 0 && s.wire == []
  {
    hide Next, Writes, Accepts, Socket.Valid;
    s := new Socket(id, Bind, answers);
    BoundWaits(s.Now(), id, Send(id, p, data));
    s.Happen(Send(id, p, data));
    for i := 0 to |events|
      invariant fresh(s) && s.Valid() && s.kind == Bind && !s.watched && s.wire == [] && Waits(s.Now()) && s.id == id
    {
      BoundWaits(s.Now(), id, events[i]);
      s.Happen(events[i]);
    }
  }

  /** The peer ends its side of a connection while a message waits: the message is dropped, although nothing
      failed and nobody closed the socket here. */
  method PeerEnds(id: int, p: Priority, data: seq<Byte>) returns (s: Socket)
    requires data != []
    ensures s.Valid() && s.kind == Invalid && s.accepted == [Message(p, data)] && s.wire == []
    ensures s.dropped == [Buffer(Message(p, data), 0)]
  {
    hide Socket.Valid, Next, Writes, Accepts;
    s := new Socket(id, Connected, []);
    var t := State(Connected, [Buffer(Message(p, data), 0)], [], true, [], []);
    SendWaits(s.Now(), id, p, data);
    s.Happen(Send(id, p, data));
    assert s.Now() == t;
    EndCloses(t, id);
    s.Happen(Readable(End));
  }
}
