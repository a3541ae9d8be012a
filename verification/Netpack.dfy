/** Cutting the byte streams of many connections into packages. */
module Netpack {

  import opened Frames

  const QUEUESIZE := 1024
  const HASHSIZE := 4096

  datatype Package = Package(fd: nat, data: seq<Byte>)

  /** A package of which bytes are missing: 'read' is -1 when only the first length byte has
      come, else 'buffer' has the bytes read so far of the 'size' ones. */
  datatype Uncomplete = Uncomplete(fd: nat, size: nat, buffer: seq<Byte>, read: int, header: Byte)

  /** The bytes of the stream that an uncomplete package stands for. */
  function Pending(uc: Uncomplete): seq<Byte> {
    if uc.read < 0 then [uc.header]
    else if uc.size < 0x10000 then [uc.size / 256, uc.size % 256] + uc.buffer
    else []
  }

  predicate Partial(uc: Uncomplete) {
    if uc.read < 0 then uc.read == -1 else uc.read == |uc.buffer| < uc.size < 0x10000
  }

  function HashFd(fd: nat): (h: nat)
    ensures h < HASHSIZE
  {
    (fd / 0x100_0000 + fd / 0x1000 + fd) % HASHSIZE
  }

  /** Where the first entry for 'fd' is in a list. */
  function Index(list: seq<Uncomplete>, fd: nat): (i: nat)
    ensures i <= |list| && (i < |list| ==> list[i].fd == fd) && forall k :: 0 <= k < i ==> list[k].fd != fd
  {
    if list == [] || list[0].fd == fd then 0 else 1 + Index(list[1..], fd)
  }

  /** What the connection 'fd' left over, according to its list. */
  function Left(list: seq<Uncomplete>, fd: nat): seq<Byte> {
    var i := Index(list, fd);
    if i < |list| then Pending(list[i]) else []
  }

  ghost predicate Once(list: seq<Uncomplete>) {
    forall j, k :: 0 <= j < k < |list| ==> list[j].fd != list[k].fd
  }

  /** What a call of the filter gives back at once. */
  datatype Result = Nothing | Data(p: Package) | More

  /** What the socket server reports of a connection: some bytes, or its end. Its number may then be that of
      a new connection. */
  datatype Event = Chunk(fd: nat, data: seq<Byte>) | Close(fd: nat)

  /** The bytes of the connection that 'fd' is the number of now. */
  function Stream(events: seq<Event>, fd: nat): seq<Byte> {
    if events == [] then []
    else
      var last, before := events[|events| - 1], Stream(events[..|events| - 1], fd);
      if last.fd != fd then before
      else if last.Close? then []
      else before + last.data
  }

  /** The packages of the connections that 'fd' was the number of before. */
  function Earlier(events: seq<Event>, fd: nat): seq<seq<Byte>> {
    if events == [] then []
    else
      var last, front := events[|events| - 1], events[..|events| - 1];
      Earlier(front, fd) + if last.Close? && last.fd == fd then Parse(Stream(front, fd)).packages else []
  }

  /** The packages of 'fd' in a list of packages. */
  function Of(ps: seq<Package>, fd: nat): seq<seq<Byte>> {
    if ps == [] then []
    else Of(ps[..|ps| - 1], fd) + if ps[|ps| - 1].fd == fd then [ps[|ps| - 1].data] else []
  }

  function Tagged(fd: nat, data: seq<seq<Byte>>): (ps: seq<Package>)
    ensures |ps| == |data|
  {
    seq(|data|, i requires 0 <= i < |data| => Package(fd, data[i]))
  }

  // ----- lists of uncomplete packages -----

  /** A list of one slot of the hash table. */
  ghost predicate Listed(list: seq<Uncomplete>, h: nat) {
    Once(list) && forall k :: 0 <= k < |list| ==> HashFd(list[k].fd) == h && Partial(list[k])
  }

  lemma IndexIs(list: seq<Uncomplete>, fd: nat, i: nat)
    requires i <= |list| && (i < |list| ==> list[i].fd == fd) && forall k :: 0 <= k < i ==> list[k].fd != fd
    ensures Index(list, fd) == i
  {
  }

  lemma Removes(list: seq<Uncomplete>, i: nat, h: nat)
    requires i < |list| && Listed(list, h)
    ensures var l := list[..i] + list[i + 1..];
      Listed(l, h) && Left(l, list[i].fd) == [] && forall fd :: fd != list[i].fd ==> Left(l, fd) == Left(list, fd)
  {
    var l := list[..i] + list[i + 1..];
    IndexIs(l, list[i].fd, |l|);
    forall fd: nat | fd != list[i].fd ensures Left(l, fd) == Left(list, fd) {
      var j := Index(list, fd);
      IndexIs(l, fd, if j < i then j else j - 1);
    }
  }

  lemma Adds(list: seq<Uncomplete>, uc: Uncomplete, h: nat)
    requires Listed(list, h) && Left(list, uc.fd) == [] && HashFd(uc.fd) == h && Partial(uc)
    ensures var l := [uc] + list;
      Listed(l, h) && Left(l, uc.fd) == Pending(uc) && forall fd :: fd != uc.fd ==> Left(l, fd) == Left(list, fd)
  {
    var l := [uc] + list;
    assert l[1..] == list;
    LeftNothing(list, uc.fd, h);
    IndexIs(l, uc.fd, 0);
    forall fd: nat | fd != uc.fd ensures Left(l, fd) == Left(list, fd) {
      IndexIs(l, fd, 1 + Index(list, fd));
    }
  }

  lemma LeftNothing(list: seq<Uncomplete>, fd: nat, h: nat)
    requires Listed(list, h)
    ensures Left(list, fd) == [] <==> Index(list, fd) == |list|
  {
  }

  // ----- filling an uncomplete package -----

  lemma Fills(uc: Uncomplete, b: seq<Byte>)
    requires uc.read == |uc.buffer| && uc.size < 0x10000 && |uc.buffer| <= uc.size
    ensures var s, need := Pending(uc) + b, uc.size - uc.read;
      if |b| < need then !Whole(s) && s == Pending(uc.(buffer := uc.buffer + b, read := uc.read + |b|))
      else Whole(s) && First(s) == uc.buffer + b[..need] && After(s) == b[need..]
  {
    var s, need := Pending(uc) + b, uc.size - uc.read;
    assert Length(s[0], s[1]) == uc.size;
    assert s[2..] == uc.buffer + b;
    if |b| >= need {
      assert s[2..2 + uc.size] == s[2..][..uc.size];
      assert s[2 + uc.size..] == s[2..][uc.size..];
    } else {
      assert s == [uc.size / 256, uc.size % 256] + (uc.buffer + b);
    }
  }

  /** The second length byte has come. */
  lemma ReadsSize(uc: Uncomplete, b: seq<Byte>)
    requires uc.read == -1 && b != []
    ensures var size := Length(uc.header, b[0]);
      size < 0x10000 && Pending(uc) + b == Pending(uc.(size := size, buffer := [], read := 0)) + b[1..]
  {
    var size := Length(uc.header, b[0]);
    assert size / 256 == uc.header && size % 256 == b[0];
  }

  class Queue {
    var cap: nat
    var head: nat
    var tail: nat
    var queue: array<Package>
    /** The lists of the hash table; a list is never long. */
    var hash: array<seq<Uncomplete>>

    ghost predicate Valid()
      reads this, queue, hash
    {
      && queue.Length == cap > 0 && head < cap && tail < cap && hash.Length == HASHSIZE
      && forall h :: 0 <= h < HASHSIZE ==> Listed(hash[h], h)
    }

    /** The packages waiting, oldest first. */
    ghost function Contents(): (s: seq<Package>)
      reads this, queue
      requires queue.Length == cap && head < cap && tail < cap
    {
      if head <= tail then queue[head..tail] else queue[head..] + queue[..tail]
    }

    ghost function Rest(fd: nat): seq<Byte>
      reads this`hash, hash
      requires hash.Length == HASHSIZE
    {
      Left(hash[HashFd(fd)], fd)
    }

    constructor ()
      ensures Valid() && fresh(queue) && fresh(hash) && Contents() == [] && forall fd :: Rest(fd) == []
    {
      cap, head, tail := QUEUESIZE, 0, 0;
      queue := new Package[QUEUESIZE](_ => Package(0, []));
      hash := new seq<Uncomplete>[HASHSIZE](_ => []);
    }

    /** find_uncomplete: takes what the connection left over out of its list. */
    method FindUncomplete(fd: nat) returns (found: bool, uc: Uncomplete)
      requires Valid()
      modifies hash
      ensures Valid() && Rest(fd) == [] && forall g :: g != fd ==> Rest(g) == old(Rest(g))
      ensures Contents() == old(Contents())
      ensures found <==> old(Rest(fd)) != []
      ensures found ==> uc.fd == fd && Partial(uc) && Pending(uc) == old(Rest(fd))
    {
      var h := HashFd(fd);
      var list := hash[h];
      var i := 0;
      while i < |list| && list[i].fd != fd
        invariant i <= |list| && forall k :: 0 <= k < i ==> list[k].fd != fd
      {
        i := i + 1;
      }
      IndexIs(list, fd, i);
      LeftNothing(list, fd, h);
      found := i < |list|;
      if !found {
        uc := Uncomplete(fd, 0, [], 0, 0);
        return;
      }
      uc := list[i];
      Removes(list, i, h);
      hash[h] := list[..i] + list[i + 1..];
    }

    /** save_uncomplete, with the fields that its callers set. */
    method SaveUncomplete(uc: Uncomplete)
      requires Valid() && Rest(uc.fd) == [] && Partial(uc)
      modifies hash
      ensures Valid() && Rest(uc.fd) == Pending(uc) && forall g :: g != uc.fd ==> Rest(g) == old(Rest(g))
      ensures Contents() == old(Contents())
    {
      var h := HashFd(uc.fd);
      Adds(hash[h], uc, h);
      hash[h] := [uc] + hash[h];
    }

    /** expand_queue, called when the tail has caught up with the head. */
    method ExpandQueue()
      requires Valid() && head == tail
      modifies this
      ensures Valid() && fresh(queue) && hash == old(hash)
      ensures Contents() == old(queue[head..] + queue[..head])
    {
      ghost var was := queue[head..] + queue[..head];
      var bigger := new Package[cap + QUEUESIZE](_ => Package(0, []));
      for i := 0 to cap
        modifies bigger
        invariant forall k :: 0 <= k < i ==> bigger[k] == was[k]
      {
        assert (head + i) % cap == if head + i < cap then head + i else head + i - cap by {
          Wrap(head, i, cap);
        }
        bigger[i] := queue[(head + i) % cap];
      }
      head, tail, cap := 0, cap, cap + QUEUESIZE;
      queue := bigger;
      assert queue[0..tail] == was;
    }

    /** push_data. */
    method PushData(p: Package)
      requires Valid()
      modifies this, queue
      ensures Valid() && hash == old(hash) && (queue == old(queue) || fresh(queue))
      ensures Contents() == old(Contents()) + [p]
    {
      ghost var was := Contents();
      queue[tail] := p;
      tail := tail + 1;
      if tail >= cap {
        tail := tail - cap;
      }
      if head == tail {
        assert queue[head..] + queue[..head] == was + [p];
        ExpandQueue();
      }
    }

    /** lpop. */
    method Pop() returns (found: bool, p: Package)
      requires Valid()
      modifies this`head
      ensures Valid() && (forall fd :: Rest(fd) == old(Rest(fd)))
      ensures found == (old(Contents()) != [])
      ensures found ==> p == old(Contents())[0] && Contents() == old(Contents())[1..]
      ensures !found ==> Contents() == old(Contents())
    {
      found := head != tail;
      p := queue[head];
      if found {
        head := head + 1;
        if head >= cap {
          head := 0;
        }
      }
    }

    /** push_more: all whole packages go to the queue, the rest is kept. */
    method PushMore(fd: nat, buffer: seq<Byte>)
      requires Valid() && buffer != [] && Rest(fd) == []
      modifies this, queue, hash
      ensures Valid() && hash == old(hash) && (queue == old(queue) || fresh(queue))
      ensures Rest(fd) == Parse(buffer).rest && forall g :: g != fd ==> Rest(g) == old(Rest(g))
      ensures Contents() == old(Contents()) + Tagged(fd, Parse(buffer).packages)
      decreases |buffer|
    {
      hide Parse, Listed, HashFd, Left;
      if |buffer| == 1 {
        NotWhole(buffer);
        SaveUncomplete(Uncomplete(fd, 0, [], -1, buffer[0]));
        return;
      }
      var packSize := Length(buffer[0], buffer[1]);
      var rest := buffer[2..];
      SizeFits(buffer);
      if |rest| < packSize {
        NotWhole(buffer);
        SaveUncomplete(Uncomplete(fd, packSize, rest, |rest|, 0));
        return;
      }
      ParseFirst(buffer);
      PushData(Package(fd, rest[..packSize]));
      rest := rest[packSize..];
      assert rest == After(buffer) && First(buffer) == buffer[2..][..packSize];
      TaggedFirst(fd, First(buffer), Parse(rest).packages);
      if |rest| > 0 {
        PushMore(fd, rest);
      } else {
        NotWhole(rest);
      }
    }

    /** What a call of the filter makes of the bytes of a connection that now are 'stream'. */
    twostate predicate Filtered(fd: nat, stream: seq<Byte>, r: Result)
      requires old(Valid()) && Valid()
      reads this, queue, hash
    {
      var e := Parse(stream);
      && Rest(fd) == e.rest && (forall g :: g != fd ==> Rest(g) == old(Rest(g)))
      && match r
         case Nothing => e.packages == [] && Contents() == old(Contents())
         case Data(p) => Tagged(fd, e.packages) == [p] && Contents() == old(Contents())
         case More => e.packages != [] && Contents() == old(Contents()) + Tagged(fd, e.packages)
    }

    /** filter_data_ for a connection with an uncomplete package, which was taken out of its list. */
    method FillUncomplete(fd: nat, given: Uncomplete, buffer: seq<Byte>) returns (r: Result)
      requires Valid() && buffer != [] && Rest(fd) == [] && given.fd == fd && Partial(given)
      modifies this, queue, hash
      ensures Valid() && hash == old(hash) && (queue == old(queue) || fresh(queue))
      ensures Filtered(fd, Pending(given) + buffer, r)
    {
      hide Parse, Listed, HashFd, Left, Whole, First, After, Pending, Partial, Tagged;
      ghost var stream := Pending(given) + buffer;
      var uc, b := given, buffer;
      PartialIs(uc);
      if uc.read < 0 {
        ReadsSize(uc, b);
        var packSize := Length(uc.header, b[0]);
        b := b[1..];
        uc := uc.(size := packSize, buffer := [], read := 0);
      }
      Fills(uc, b);
      var need := uc.size - uc.read;
      if |b| < need {
        NotWhole(stream);
        NoPackages(fd);
        PartialIs(uc.(buffer := uc.buffer + b, read := uc.read + |b|));
        SaveUncomplete(uc.(buffer := uc.buffer + b, read := uc.read + |b|));
        return Nothing;
      }
      var data := uc.buffer + b[..need];
      b := b[need..];
      ParseFirst(stream);
      TaggedFirst(fd, data, Parse(b).packages);
      if |b| == 0 {
        NoBytes(b);
        return Data(Package(fd, data));
      }
      PushData(Package(fd, data));
      PushMore(fd, b);
      return More;
    }

    /** filter_data_ for a connection that left nothing over. */
    method FilterFresh(fd: nat, buffer: seq<Byte>) returns (r: Result)
      requires Valid() && buffer != [] && Rest(fd) == []
      modifies this, queue, hash
      ensures Valid() && hash == old(hash) && (queue == old(queue) || fresh(queue))
      ensures Filtered(fd, buffer, r)
    {
      hide Parse, Listed, HashFd, Left, Whole, First, After;
      var b := buffer;
      if |b| == 1 {
        OneByte(b);
        SaveUncomplete(Uncomplete(fd, 0, [], -1, b[0]));
        return Nothing;
      }
      var packSize := Length(b[0], b[1]);
      SizeFits(b);
      b := b[2..];
      Splits(buffer, packSize);
      if |b| < packSize {
        NotWhole(buffer);
        SaveUncomplete(Uncomplete(fd, packSize, b, |b|, 0));
        return Nothing;
      }
      ParseFirst(buffer);
      TaggedFirst(fd, b[..packSize], Parse(b[packSize..]).packages);
      if |b| == packSize {
        NoBytes(b[packSize..]);
        assert b[..packSize] == b;
        return Data(Package(fd, b));
      }
      PushData(Package(fd, b[..packSize]));
      b := b[packSize..];
      PushMore(fd, b);
      return More;
    }

    /** filter_data_: whole packages are given back or queued, the rest is kept. */
    method FilterData(fd: nat, buffer: seq<Byte>) returns (r: Result)
      requires Valid() && buffer != []
      modifies this, queue, hash
      ensures Valid() && hash == old(hash) && (queue == old(queue) || fresh(queue))
      ensures Filtered(fd, old(Rest(fd)) + buffer, r)
    {
      hide Parse, Listed, HashFd, Left;
      var found, uc := FindUncomplete(fd);
      if found {
        r := FillUncomplete(fd, uc, buffer);
      } else {
        assert [] + buffer == buffer;
        r := FilterFresh(fd, buffer);
      }
    }

    /** close_uncomplete. */
    method CloseUncomplete(fd: nat)
      requires Valid()
      modifies hash
      ensures Valid() && Rest(fd) == [] && (forall g :: g != fd ==> Rest(g) == old(Rest(g)))
      ensures Contents() == old(Contents())
    {
      var _, _ := FindUncomplete(fd);
    }

    /** Empties the queue, as the receiver does after each call that gives "more". */
    method PopAll() returns (ps: seq<Package>)
      requires Valid()
      modifies this`head
      ensures Valid() && Contents() == [] && ps == old(Contents()) && forall fd :: Rest(fd) == old(Rest(fd))
    {
      hide Contents, Rest, Listed;
      ps := [];
      ghost var all := Contents();
      var found, p := Pop();
      while found
        invariant Valid() && (forall fd :: Rest(fd) == old(Rest(fd)))
        invariant if found then all == ps + [p] + Contents() else all == ps && Contents() == []
        decreases |Contents()|, found
      {
        ps := ps + [p];
        found, p := Pop();
      }
    }

    /** A chunk, with what the receiver then takes out of the queue. */
    method ReceiveChunk(fd: nat, data: seq<Byte>) returns (ps: seq<Package>)
      requires Valid() && Contents() == [] && data != []
      modifies this, queue, hash
      ensures Valid() && hash == old(hash) && (queue == old(queue) || fresh(queue)) && Contents() == []
      ensures var e := Parse(old(Rest(fd)) + data);
        ps == Tagged(fd, e.packages) && Rest(fd) == e.rest
      ensures forall g :: g != fd ==> Rest(g) == old(Rest(g))
    {
      hide Parse, Listed, HashFd, Left, Contents, Rest;
      var r := FilterData(fd, data);
      match r {
        case Nothing =>
          TaggedNone(fd);
          ps := [];
        case Data(p) =>
          ps := [p];
        case More =>
          ps := PopAll();
      }
    }

    /** Any chunks and closes of any connections in any order: the packages that come out under a number are
        the parse of the bytes of each of its connections, one connection after the other. */
    method Receive(events: seq<Event>) returns (ps: seq<Package>)
      requires Valid() && Contents() == [] && (forall fd :: Rest(fd) == [])
      requires forall k :: 0 <= k < |events| && events[k].Chunk? ==> events[k].data != []
      modifies this, queue, hash
      ensures Valid() && hash == old(hash)
      ensures forall fd :: Of(ps, fd) == Earlier(events, fd) + Parse(Stream(events, fd)).packages
      ensures forall fd :: Rest(fd) == Parse(Stream(events, fd)).rest
    {
      hide Parse, Contents, Rest, Listed, Of, Stream, Earlier, Tagged;
      ps := [];
      NothingYet();
      for i := 0 to |events|
        invariant Valid() && Contents() == [] && hash == old(hash) && (queue == old(queue) || fresh(queue))
        invariant forall fd :: Of(ps, fd) == Earlier(events[..i], fd) + Parse(Stream(events[..i], fd)).packages
        invariant forall fd :: Rest(fd) == Parse(Stream(events[..i], fd)).rest
      {
        ghost var was := ps;
        match events[i] {
          case Chunk(fd, data) =>
            var more := ReceiveChunk(fd, data);
            ps := ps + more;
          case Close(fd) =>
            CloseUncomplete(fd);
        }
        forall fd: nat
          ensures Of(ps, fd) == Earlier(events[..i + 1], fd) + Parse(Stream(events[..i + 1], fd)).packages
          ensures Rest(fd) == Parse(Stream(events[..i + 1], fd)).rest
        {
          OneEvent(events, i, fd, was);
        }
      }
      assert events[..|events|] == events;
    }
  }

  lemma Wrap(head: nat, k: nat, cap: nat)
    requires head < cap && k < cap
    ensures (head + k) % cap == if head + k < cap then head + k else head + k - cap
  {
  }

  lemma SizeFits(s: seq<Byte>)
    requires |s| >= 2
    ensures var n := Length(s[0], s[1]); n < 0x10000 && n / 256 == s[0] && n % 256 == s[1]
    ensures s == [s[0], s[1]] + s[2..]
  {
  }

  lemma TaggedFirst(fd: nat, data: seq<Byte>, more: seq<seq<Byte>>)
    ensures Tagged(fd, [data] + more) == [Package(fd, data)] + Tagged(fd, more)
  {
  }

  lemma NoPackages(fd: nat)
    ensures Tagged(fd, []) == []
  {
  }

  lemma PartialIs(uc: Uncomplete)
    ensures Partial(uc) <==>
      if uc.read < 0 then uc.read == -1 else uc.read == |uc.buffer| && uc.read < uc.size && uc.size < 0x10000
  {
  }

  lemma OneByte(s: seq<Byte>)
    requires |s| == 1
    ensures Parse(s) == Parsed([], s)
  {
  }

  lemma NoBytes(s: seq<Byte>)
    requires |s| == 0
    ensures Parse(s) == Parsed([], []) && Tagged(0, Parse(s).packages) == []
    ensures forall fd :: Tagged(fd, Parse(s).packages) == []
  {
  }

  lemma Splits(s: seq<Byte>, n: nat)
    requires |s| >= 2 && n == Length(s[0], s[1])
    ensures Whole(s) <==> |s| - 2 >= n
    ensures Whole(s) ==> First(s) == s[2..][..n] && After(s) == s[2..][n..]
  {
  }

  lemma TaggedNone(fd: nat)
    ensures Tagged(fd, []) == []
  {
  }

  lemma NothingYet()
    ensures forall fd :: Of([], fd) == Earlier([], fd) + Parse(Stream([], fd)).packages
    ensures forall fd :: Parse(Stream([], fd)).rest == []
  {
  }

  lemma {:induction false} OfTagged(ps: seq<Package>, fd: nat, data: seq<seq<Byte>>, g: nat)
    ensures Of(ps + Tagged(fd, data), g) == Of(ps, g) + if g == fd then data else []
    decreases |data|
  {
    var all := ps + Tagged(fd, data);
    if data == [] {
      assert all == ps;
    } else {
      var last := |data| - 1;
      assert all[..|all| - 1] == ps + Tagged(fd, data[..last]);
      OfTagged(ps, fd, data[..last], g);
      assert data == data[..last] + [data[last]];
    }
  }

  /** The stream of a connection after one more event. */
  lemma OneMore(events: seq<Event>, i: nat, fd: nat)
    requires i < |events|
    ensures var e, s := events[i], Stream(events[..i], fd);
      Stream(events[..i + 1], fd) == if e.fd != fd then s else if e.Close? then [] else s + e.data
    ensures var e, q := events[i], Earlier(events[..i], fd);
      Earlier(events[..i + 1], fd)
      == q + if e.Close? && e.fd == fd then Parse(Stream(events[..i], fd)).packages else []
  {
    assert events[..i + 1][..i] == events[..i];
    hide Parse;
  }

  lemma Regroups(q: seq<seq<Byte>>, x: seq<seq<Byte>>, y: seq<seq<Byte>>)
    ensures q + (x + y) == (q + x) + y && q + [] == q && (q + x) + [] == q + x
  {
  }

  /** One more event: a chunk goes on with the stream, a close ends it, and nothing changes for the others. */
  lemma OneEvent(events: seq<Event>, i: nat, fd: nat, was: seq<Package>)
    requires i < |events| && Of(was, fd) == Earlier(events[..i], fd) + Parse(Stream(events[..i], fd)).packages
    ensures var e, p := events[i], Parse(Stream(events[..i], fd));
      var next, q := Parse(Stream(events[..i + 1], fd)), Earlier(events[..i + 1], fd);
      if e.fd != fd then next == p && q == Earlier(events[..i], fd)
      else if e.Close? then next == Parsed([], []) && Of(was, fd) == q + []
      else
        var m := Parse(p.rest + e.data);
        next.rest == m.rest && q + next.packages == Of(was, fd) + m.packages
    ensures var e := events[i];
      e.Chunk? ==> forall data :: Of(was + Tagged(e.fd, data), fd) == Of(was, fd) + if fd == e.fd then data else []
  {
    NotWhole([]);
    hide *;
    OneMore(events, i, fd);
    var e, s, q := events[i], Stream(events[..i], fd), Earlier(events[..i], fd);
    Regroups(q, Parse(s).packages, if e.Chunk? then Parse(Parse(s).rest + e.data).packages else []);
    if e.Chunk? {
      ParseAppend(s, e.data);
      forall data ensures Of(was + Tagged(e.fd, data), fd) == Of(was, fd) + if fd == e.fd then data else [] {
        OfTagged(was, e.fd, data, fd);
      }
    }
  }
}
