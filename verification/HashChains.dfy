/** The node array of a frozen table: every key is reached from the slot its hash selects. */
module HashChains {

  type Byte = b: int | 0 <= b < 256

  datatype Key = IntKey(k: int) | StrKey(s: seq<Byte>)

  /** Values are not looked into. */
  type Value = int

  /** 'next' is the slot of the next key with the same main slot, or -1. */
  datatype Node =
    | Empty
    | Full(key: Key, hash: nat, next: int, nocolliding: bool, value: Value)

  function Mixed(s: seq<Byte>, l: nat, step: nat, h: bv32): bv32
    requires l <= |s| && step > 0
    decreases l
  {
    if l < step then h else Mixed(s, l - step, step, h ^ ((h << 5) + (h >> 2) + (s[l - 1] as bv32)))
  }

  /** calchash. */
  function CalcHash(s: seq<Byte>): nat
    requires |s| < 0x1_0000_0000
  {
    Mixed(s, |s|, |s| / 32 + 1, |s| as bv32) as nat
  }

  predicate GoodKey(key: Key) {
    if key.IntKey? then -0x8000_0000 <= key.k < 0x8000_0000 else |key.s| < 0x1_0000_0000
  }

  function HashOf(key: Key): nat
    requires GoodKey(key)
  {
    if key.IntKey? then key.k % 0x1_0000_0000 else CalcHash(key.s)
  }

  /** The slot that a node's hash selects. */
  function Main(h: seq<Node>, i: int): int
    requires 0 <= i < |h| && h[i].Full?
  {
    h[i].hash % |h|
  }

  predicate FullAt(h: seq<Node>, i: int) {
    0 <= i < |h| && h[i].Full?
  }

  predicate Links(h: seq<Node>, l: seq<int>, p: int)
    requires 0 <= p < |l| && FullAt(h, l[p])
  {
    h[l[p]].next == if p + 1 < |l| then l[p + 1] else -1
  }

  /** 'l' lists the slots from 'm' on along 'next'; they are those of main slot 'm'. */
  ghost predicate Chain(h: seq<Node>, m: int, l: seq<int>) {
    && (l != [] ==> l[0] == m)
    && (forall p :: 0 <= p < |l| ==> FullAt(h, l[p]) && Main(h, l[p]) == m)
    && (forall p :: 0 <= p < |l| ==> Links(h, l, p))
    && (forall p, q :: 0 <= p < q < |l| ==> l[p] != l[q])
  }

  /** The chains of all slots; each full slot is in the chain of its main slot. */
  ghost predicate Chained(h: seq<Node>, c: seq<seq<int>>) {
    && |c| == |h|
    && (forall m :: 0 <= m < |h| ==> Chain(h, m, c[m]))
    && (forall i :: FullAt(h, i) ==> i in c[Main(h, i)])
    && (forall i :: FullAt(h, i) && h[i].nocolliding ==> c[i] == [i])
  }

  ghost predicate Hashed(h: seq<Node>) {
    forall i :: FullAt(h, i) ==> GoodKey(h[i].key) && h[i].hash == HashOf(h[i].key)
  }

  ghost predicate DistinctKeys(h: seq<Node>) {
    forall i, j :: FullAt(h, i) && FullAt(h, j) && h[i].key == h[j].key ==> i == j
  }

  ghost predicate Wellformed(h: seq<Node>, c: seq<seq<int>>) {
    Chained(h, c) && Hashed(h) && DistinctKeys(h)
  }

  predicate HasKey(h: seq<Node>, key: Key) {
    exists i :: 0 <= i < |h| && h[i].Full? && h[i].key == key
  }

  /** The first key of a main slot goes there. */
  lemma PutMain(h: seq<Node>, c: seq<seq<int>>, key: Key, value: Value)
    requires Wellformed(h, c) && GoodKey(key) && |h| > 0 && !HasKey(h, key) && h[HashOf(key) % |h|].Empty?
    ensures var m := HashOf(key) % |h|;
      Wellformed(h[m := Full(key, HashOf(key), -1, true, value)], c[m := [m]])
  {
    var m := HashOf(key) % |h|;
    var h1, c1 := h[m := Full(key, HashOf(key), -1, true, value)], c[m := [m]];
    forall i | 0 <= i < |h| && i != m ensures Chain(h1, i, c1[i]) {
      forall p | 0 <= p < |c[i]| ensures c[i][p] != m {
        assert FullAt(h, c[i][p]);
      }
      ChainStays(h, h1, c[i], i);
    }
    forall i | FullAt(h1, i) ensures i in c1[Main(h1, i)] {
      if i != m {
        assert FullAt(h, i);
      }
    }
  }

  lemma ChainGrows(h: seq<Node>, h1: seq<Node>, l: seq<int>, m: int, n: int)
    requires Chain(h, m, l) && l != [] && n !in l && |h1| == |h| && 0 <= n < |h| && n != m
    requires FullAt(h1, n) && h1[n].hash % |h| == m && h1[n].next == h[m].next
    requires FullAt(h1, m) && h1[m].hash == h[m].hash && h1[m].next == n
    requires forall i :: 0 <= i < |h| && i != m && i != n ==> h1[i] == h[i]
    ensures Chain(h1, m, [m, n] + l[1..])
  {
    var k := [m, n] + l[1..];
    assert l[0] == m && k[0] == m && k[1] == n;
    forall p | 2 <= p < |k| ensures k[p] == l[p - 1] && k[p] != m && k[p] != n && FullAt(h, k[p]) {
    }
    forall p | 0 <= p < |k| ensures Links(h1, k, p) {
      if p >= 1 {
        assert Links(h, l, p - 1);
      }
    }
  }

  /** A chain that does not pass the changed slots stays. */
  lemma ChainStays(h: seq<Node>, h1: seq<Node>, l: seq<int>, i: int)
    requires Chain(h, i, l) && |h1| == |h|
    requires forall p :: 0 <= p < |l| ==> 0 <= l[p] < |h| && h1[l[p]] == h[l[p]]
    ensures Chain(h1, i, l)
  {
    forall p | 0 <= p < |l| ensures Links(h1, l, p) {
      assert Links(h, l, p);
    }
  }

  /** The nodes when a key goes to the free slot 'n', behind the first one of its chain. */
  function Behind(h: seq<Node>, key: Key, value: Value, n: int): seq<Node>
    requires GoodKey(key) && |h| > 0 && 0 <= n < |h| && h[HashOf(key) % |h|].Full?
  {
    var m := HashOf(key) % |h|;
    h[m := h[m].(next := n, nocolliding := false)][n := Full(key, HashOf(key), h[m].next, false, value)]
  }

  /** Keys, values and main slots stay, and the new key is in slot 'n'. */
  lemma BehindKeeps(h: seq<Node>, key: Key, value: Value, n: int)
    requires GoodKey(key) && |h| > 0 && 0 <= n < |h| && h[HashOf(key) % |h|].Full? && h[n].Empty?
    ensures var h1 := Behind(h, key, value, n);
      && |h1| == |h| && FullAt(h1, n) && h1[n].key == key && h1[n].value == value && h1[n].hash == HashOf(key)
      && (forall i :: FullAt(h, i) ==> FullAt(h1, i))
      && (forall i :: FullAt(h1, i) && i != n ==>
            FullAt(h, i) && h1[i].key == h[i].key && h1[i].value == h[i].value && h1[i].hash == h[i].hash
              && Main(h1, i) == Main(h, i))
  {
  }

  /** The chain of the main slot takes the new slot in, the other chains stay. */
  lemma BehindChains(h: seq<Node>, c: seq<seq<int>>, key: Key, value: Value, n: int)
    requires Chained(h, c) && GoodKey(key) && |h| > 0 && 0 <= n < |h| && h[n].Empty?
    requires h[HashOf(key) % |h|].Full? && Main(h, HashOf(key) % |h|) == HashOf(key) % |h|
    ensures var m := HashOf(key) % |h|; var h1, c1 := Behind(h, key, value, n), c[m := [m, n] + c[m][1..]];
      forall i :: 0 <= i < |h| ==> Chain(h1, i, c1[i])
  {
    var m := HashOf(key) % |h|;
    var h1 := Behind(h, key, value, n);
    assert FullAt(h, m) && m in c[m];
    forall i, p | 0 <= i < |h| && 0 <= p < |c[i]| ensures c[i][p] != n && FullAt(h, c[i][p]) && Main(h, c[i][p]) == i {
      assert Chain(h, i, c[i]);
    }
    ChainGrows(h, h1, c[m], m, n);
    forall i | 0 <= i < |h| && i != m ensures Chain(h1, i, c[i]) {
      ChainStays(h, h1, c[i], i);
    }
  }

  /** A further key of a main slot goes to a free slot, behind the first one of its chain. */
  lemma PutBehind(h: seq<Node>, c: seq<seq<int>>, key: Key, value: Value, n: int)
    requires Wellformed(h, c) && GoodKey(key) && |h| > 0 && !HasKey(h, key)
    requires 0 <= n < |h| && h[n].Empty? && h[HashOf(key) % |h|].Full?
    requires Main(h, HashOf(key) % |h|) == HashOf(key) % |h|
    ensures var m := HashOf(key) % |h|; Wellformed(Behind(h, key, value, n), c[m := [m, n] + c[m][1..]])
  {
    var m := HashOf(key) % |h|;
    var h1 := Behind(h, key, value, n);
    var c1 := c[m := [m, n] + c[m][1..]];
    BehindChains(h, c, key, value, n);
    BehindMembers(h, c, key, value, n);
    BehindKeeps(h, key, value, n);
    hide Chain, Behind, Main;
    forall i | FullAt(h1, i) ensures GoodKey(h1[i].key) && h1[i].hash == HashOf(h1[i].key) {
      assert i != n ==> FullAt(h, i);
    }
    forall i, j | FullAt(h1, i) && FullAt(h1, j) && h1[i].key == h1[j].key ensures i == j {
      assert i != n ==> FullAt(h, i);
      assert j != n ==> FullAt(h, j);
    }
  }

  /** Each full slot is still in the chain of its main slot. */
  lemma BehindMembers(h: seq<Node>, c: seq<seq<int>>, key: Key, value: Value, n: int)
    requires Chained(h, c) && GoodKey(key) && |h| > 0 && 0 <= n < |h| && h[n].Empty?
    requires h[HashOf(key) % |h|].Full? && Main(h, HashOf(key) % |h|) == HashOf(key) % |h|
    ensures var m := HashOf(key) % |h|; var h1, c1 := Behind(h, key, value, n), c[m := [m, n] + c[m][1..]];
      && (forall i :: FullAt(h1, i) ==> i in c1[Main(h1, i)])
      && (forall i :: FullAt(h1, i) && h1[i].nocolliding ==> c1[i] == [i])
  {
    var m := HashOf(key) % |h|;
    var h1 := Behind(h, key, value, n);
    var c1 := c[m := [m, n] + c[m][1..]];
    assert FullAt(h, m) && m in c[m] && c[m][0] == m;
    hide Chain, HashOf;
    forall i | FullAt(h1, i) ensures i in c1[Main(h1, i)] {
      if i == n {
        assert c1[m][1] == n;
      } else {
        assert FullAt(h, i) && Main(h1, i) == Main(h, i);
        if Main(h, i) == m {
          InLonger(c[m], m, n, i);
        }
      }
    }
    forall i | FullAt(h1, i) && h1[i].nocolliding ensures c1[i] == [i] {
      assert FullAt(h, i) && i != m;
    }
  }

  lemma InLonger(l: seq<int>, m: int, n: int, i: int)
    requires i in l && l[0] == m
    ensures i in [m, n] + l[1..]
  {
    var p :| 0 <= p < |l| && l[p] == i;
    if p > 0 {
      assert ([m, n] + l[1..])[p + 1] == i;
    } else {
      assert ([m, n] + l[1..])[0] == i;
    }
  }

  // ----- counting -----

  ghost function KeySet(h: seq<Node>): set<Key> {
    set i | 0 <= i < |h| && h[i].Full? :: h[i].key
  }

  function FullCount(h: seq<Node>): (n: nat)
    ensures n <= |h| && (n == |h| <==> forall i :: 0 <= i < |h| ==> h[i].Full?)
  {
    if h == [] then 0
    else
      assert h == h[..|h| - 1] + [h[|h| - 1]];
      FullCount(h[..|h| - 1]) + if h[|h| - 1].Full? then 1 else 0
  }

  lemma LastKey(h: seq<Node>)
    requires DistinctKeys(h) && h != []
    ensures var g, last := h[..|h| - 1], h[|h| - 1];
      && DistinctKeys(g)
      && KeySet(h) == KeySet(g) + (if last.Full? then {last.key} else {})
      && (last.Full? ==> last.key !in KeySet(g))
  {
    var g, last := h[..|h| - 1], h[|h| - 1];
    assert forall i :: FullAt(g, i) ==> FullAt(h, i);
    assert last.Full? ==> FullAt(h, |h| - 1);
    assert last.Full? ==> forall i :: FullAt(g, i) ==> g[i].key != last.key;
    assert forall i :: 0 <= i < |g| && g[i].Full? ==> FullAt(g, i);
  }

  lemma {:induction false} CountKeys(h: seq<Node>)
    requires DistinctKeys(h)
    ensures |KeySet(h)| == FullCount(h)
  {
    if h != [] {
      LastKey(h);
      CountKeys(h[..|h| - 1]);
      hide KeySet, DistinctKeys;
    }
  }

  /** As long as a key is missing of as many as there are slots, a slot is free. */
  lemma FreeSlot(h: seq<Node>, keys: set<Key>, missing: Key)
    requires DistinctKeys(h) && |keys| == |h| && missing in keys
    requires forall i :: FullAt(h, i) ==> h[i].key in keys && h[i].key != missing
    ensures exists i :: 0 <= i < |h| && h[i].Empty?
  {
    CountKeys(h);
    forall k | k in KeySet(h) ensures k in keys - {missing} {
      var i :| 0 <= i < |h| && h[i].Full? && h[i].key == k;
      assert FullAt(h, i);
    }
    Subset(KeySet(h), keys - {missing});
  }

  lemma {:induction false} Subset(a: set<Key>, b: set<Key>)
    requires a <= b
    ensures |a| <= |b| && (|a| == |b| ==> a == b)
  {
    if a != {} {
      var x :| x in a;
      Subset(a - {x}, b - {x});
    }
  }

  /** When all of as many keys as there are slots are in, no slot is free. */
  lemma NoFreeSlot(h: seq<Node>, keys: set<Key>)
    requires DistinctKeys(h) && |keys| == |h| && forall k :: k in keys ==> HasKey(h, k)
    ensures forall i :: 0 <= i < |h| ==> h[i].Full? && h[i].key in keys
  {
    CountKeys(h);
    forall k | k in keys ensures k in KeySet(h) {
      var i :| 0 <= i < |h| && h[i].Full? && h[i].key == k;
    }
    Subset(keys, KeySet(h));
    forall i | 0 <= i < |h| ensures h[i].Full? && h[i].key in keys {
      assert h[i].key in KeySet(h);
    }
  }
}
