/** A table converted once and then shared read-only: building it in two passes, looking keys up
    and going through them. */
module FrozenTable {

  import opened HashChains

  datatype Option<T> = None | Some(value: T)

  datatype Item = Item(key: Key, value: Value)

  predicate GoodItems(items: seq<Item>) {
    && (forall i :: 0 <= i < |items| ==> GoodKey(items[i].key))
    && (forall i, j :: 0 <= i < j < |items| ==> items[i].key != items[j].key)
  }

  /** Keys 1 to 'sizearray' go to the array. */
  predicate ArrayKey(key: Key, sizearray: nat) {
    key.IntKey? && 0 < key.k <= sizearray
  }

  ghost function HashKeys(items: seq<Item>, sizearray: nat): set<Key> {
    set i | 0 <= i < |items| && !ArrayKey(items[i].key, sizearray) :: items[i].key
  }

  /** What the source table has for a key. */
  function Wanted(items: seq<Item>, key: Key): Option<Value> {
    if items == [] then None
    else if items[|items| - 1].key == key then Some(items[|items| - 1].value)
    else Wanted(items[..|items| - 1], key)
  }

  lemma {:induction false} WantedIs(items: seq<Item>, key: Key)
    ensures Wanted(items, key).None? <==> forall i :: 0 <= i < |items| ==> items[i].key != key
    ensures GoodItems(items) ==> forall i :: 0 <= i < |items| && items[i].key == key ==>
      Wanted(items, key) == Some(items[i].value)
  {
    if items != [] {
      WantedIs(items[..|items| - 1], key);
    }
  }

  /** The node holds one of the first 'n' items. */
  predicate From(items: seq<Item>, n: int, node: Node)
    requires node.Full? && n <= |items|
  {
    exists t :: 0 <= t < n && items[t].key == node.key && items[t].value == node.value
  }

  predicate MainTaken(h: seq<Node>, key: Key)
    requires GoodKey(key)
  {
    |h| > 0 && var m := HashOf(key) % |h|; h[m].Full? && Main(h, m) == m
  }

  /** After 'j' items of the first pass: each node is in its main slot, and no main slot is free. */
  ghost predicate FirstPass(h: seq<Node>, c: seq<seq<int>>, items: seq<Item>, j: int, sizearray: nat) {
    && 0 <= j <= |items| && GoodItems(items) && Wellformed(h, c)
    && (forall i :: FullAt(h, i) ==> Main(h, i) == i && From(items, j, h[i]) && !ArrayKey(h[i].key, sizearray))
    && (forall t :: 0 <= t < j && !ArrayKey(items[t].key, sizearray) ==> MainTaken(h, items[t].key))
  }

  lemma FirstPassMore(h: seq<Node>, c: seq<seq<int>>, items: seq<Item>, j: int, sizearray: nat)
    requires FirstPass(h, c, items, j, sizearray) && j < |items|
    requires ArrayKey(items[j].key, sizearray) || MainTaken(h, items[j].key)
    ensures FirstPass(h, c, items, j + 1, sizearray)
  {
    forall i | FullAt(h, i) ensures From(items, j + 1, h[i]) {
      assert From(items, j, h[i]);
    }
  }

  lemma FirstPassPut(h: seq<Node>, c: seq<seq<int>>, items: seq<Item>, j: int, sizearray: nat)
    requires FirstPass(h, c, items, j, sizearray) && j < |items| && |h| > 0 && !ArrayKey(items[j].key, sizearray)
    requires h[HashOf(items[j].key) % |h|].Empty?
    ensures var key := items[j].key; var m := HashOf(key) % |h|;
      FirstPass(h[m := Full(key, HashOf(key), -1, true, items[j].value)], c[m := [m]], items, j + 1, sizearray)
  {
    var key := items[j].key;
    var m := HashOf(key) % |h|;
    forall i | 0 <= i < |h| && h[i].Full? ensures h[i].key != key {
      assert FullAt(h, i) && From(items, j, h[i]);
    }
    assert !HasKey(h, key);
    PutMain(h, c, key, items[j].value);
    hide Wellformed;
    var h1 := h[m := Full(key, HashOf(key), -1, true, items[j].value)];
    forall i | FullAt(h1, i) ensures Main(h1, i) == i && From(items, j + 1, h1[i]) && !ArrayKey(h1[i].key, sizearray) {
      if i != m {
        assert FullAt(h, i) && From(items, j, h[i]);
      }
    }
    forall t | 0 <= t < j + 1 && !ArrayKey(items[t].key, sizearray) ensures MainTaken(h1, items[t].key) {
      if t < j {
        assert MainTaken(h, items[t].key);
      }
    }
  }

  /** After 'j' items of the second pass: their keys are in, and every chain begins in its main slot. */
  ghost predicate SecondPass(h: seq<Node>, c: seq<seq<int>>, items: seq<Item>, j: int, sizearray: nat) {
    && 0 <= j <= |items| && GoodItems(items) && Wellformed(h, c)
    && (forall i :: FullAt(h, i) ==> From(items, |items|, h[i]) && !ArrayKey(h[i].key, sizearray))
    && (forall i :: FullAt(h, i) && Main(h, i) != i ==> From(items, j, h[i]))
    && (forall t :: 0 <= t < |items| && !ArrayKey(items[t].key, sizearray) ==> MainTaken(h, items[t].key))
    && (forall t :: 0 <= t < j && !ArrayKey(items[t].key, sizearray) ==> HasKey(h, items[t].key))
  }

  lemma SecondPassMore(h: seq<Node>, c: seq<seq<int>>, items: seq<Item>, j: int, sizearray: nat)
    requires SecondPass(h, c, items, j, sizearray) && j < |items|
    requires ArrayKey(items[j].key, sizearray) || HasKey(h, items[j].key)
    ensures SecondPass(h, c, items, j + 1, sizearray)
  {
    forall i | FullAt(h, i) && Main(h, i) != i ensures From(items, j + 1, h[i]) {
      assert From(items, j, h[i]);
    }
  }

  /** A key that is not in its main slot is not in the table yet. */
  lemma NotInYet(h: seq<Node>, c: seq<seq<int>>, items: seq<Item>, j: int, sizearray: nat)
    requires SecondPass(h, c, items, j, sizearray) && j < |items| && !ArrayKey(items[j].key, sizearray)
    requires MainTaken(h, items[j].key) && h[HashOf(items[j].key) % |h|].key != items[j].key
    ensures !HasKey(h, items[j].key)
  {
    forall i | 0 <= i < |h| && h[i].Full? ensures h[i].key != items[j].key {
      assert FullAt(h, i);
      if Main(h, i) != i {
        assert From(items, j, h[i]);
      }
    }
  }

  lemma SecondPassPut(h: seq<Node>, c: seq<seq<int>>, items: seq<Item>, j: int, sizearray: nat, n: int)
    requires SecondPass(h, c, items, j, sizearray) && j < |items| && !ArrayKey(items[j].key, sizearray)
    requires MainTaken(h, items[j].key) && !HasKey(h, items[j].key) && 0 <= n < |h| && h[n].Empty?
    ensures var m := HashOf(items[j].key) % |h|;
      SecondPass(Behind(h, items[j].key, items[j].value, n), c[m := [m, n] + c[m][1..]], items, j + 1, sizearray)
  {
    var key, value := items[j].key, items[j].value;
    var h1 := Behind(h, key, value, n);
    PutBehind(h, c, key, value, n);
    BehindKeeps(h, key, value, n);
    BehindKeepsTaken(h, key, value, n);
    BehindNodes(h, c, items, j, sizearray, n);
    BehindKeys(h, c, items, j, sizearray, n);
    hide Wellformed, HasKey, Behind, Main, HashOf, From;
  }

  lemma BehindNodes(h: seq<Node>, c: seq<seq<int>>, items: seq<Item>, j: int, sizearray: nat, n: int)
    requires SecondPass(h, c, items, j, sizearray) && j < |items| && !ArrayKey(items[j].key, sizearray)
    requires MainTaken(h, items[j].key) && 0 <= n < |h| && h[n].Empty?
    ensures var h1 := Behind(h, items[j].key, items[j].value, n);
      && (forall i :: FullAt(h1, i) ==> From(items, |items|, h1[i]) && !ArrayKey(h1[i].key, sizearray))
      && (forall i :: FullAt(h1, i) && Main(h1, i) != i ==> From(items, j + 1, h1[i]))
  {
    BehindKeeps(h, items[j].key, items[j].value, n);
    var h1 := Behind(h, items[j].key, items[j].value, n);
    hide Wellformed, HasKey, Behind, Main, HashOf, MainTaken;
    forall i | FullAt(h1, i)
      ensures From(items, |items|, h1[i]) && !ArrayKey(h1[i].key, sizearray)
      ensures Main(h1, i) != i ==> From(items, j + 1, h1[i])
    {
      assert i != n ==> FullAt(h, i) && From(items, |items|, h[i]) && (Main(h, i) != i ==> From(items, j, h[i]));
    }
  }

  lemma BehindKeys(h: seq<Node>, c: seq<seq<int>>, items: seq<Item>, j: int, sizearray: nat, n: int)
    requires SecondPass(h, c, items, j, sizearray) && j < |items| && !ArrayKey(items[j].key, sizearray)
    requires MainTaken(h, items[j].key) && 0 <= n < |h| && h[n].Empty?
    ensures var h1 := Behind(h, items[j].key, items[j].value, n);
      forall t :: 0 <= t < j + 1 && !ArrayKey(items[t].key, sizearray) ==> HasKey(h1, items[t].key)
  {
    var key, value := items[j].key, items[j].value;
    var h1 := Behind(h, key, value, n);
    BehindKeeps(h, key, value, n);
    hide Wellformed, HasKey, Behind, Main, HashOf, From;
    forall t | 0 <= t < j + 1 && !ArrayKey(items[t].key, sizearray) ensures HasKey(h1, items[t].key) {
      if t < j {
        StillHas(h, key, value, n, items[t].key);
      } else {
        Has(h1, n);
      }
    }
  }

  lemma BehindKeepsTaken(h: seq<Node>, key: Key, value: Value, n: int)
    requires GoodKey(key) && |h| > 0 && 0 <= n < |h| && h[HashOf(key) % |h|].Full? && h[n].Empty?
    ensures forall k :: GoodKey(k) && MainTaken(h, k) ==> MainTaken(Behind(h, key, value, n), k)
  {
    BehindKeeps(h, key, value, n);
    forall k | GoodKey(k) && MainTaken(h, k) ensures MainTaken(Behind(h, key, value, n), k) {
      assert FullAt(h, HashOf(k) % |h|);
    }
  }

  lemma Has(h: seq<Node>, i: int)
    requires FullAt(h, i)
    ensures HasKey(h, h[i].key)
  {
  }

  lemma StillHas(h: seq<Node>, key: Key, value: Value, n: int, other: Key)
    requires GoodKey(key) && |h| > 0 && 0 <= n < |h| && h[HashOf(key) % |h|].Full? && h[n].Empty? && HasKey(h, other)
    ensures HasKey(Behind(h, key, value, n), other)
  {
    var i :| 0 <= i < |h| && h[i].Full? && h[i].key == other;
    BehindKeeps(h, key, value, n);
    assert FullAt(h, i) && FullAt(Behind(h, key, value, n), i);
  }

  /** In the second pass there is a free slot for every key that is still missing. */
  lemma SlotForMissing(h: seq<Node>, c: seq<seq<int>>, items: seq<Item>, j: int, sizearray: nat)
    requires SecondPass(h, c, items, j, sizearray) && j < |items| && !ArrayKey(items[j].key, sizearray)
    requires !HasKey(h, items[j].key) && |h| == |HashKeys(items, sizearray)|
    ensures exists i :: 0 <= i < |h| && h[i].Empty?
  {
    var keys := HashKeys(items, sizearray);
    forall i | FullAt(h, i) ensures h[i].key in keys && h[i].key != items[j].key {
      assert From(items, |items|, h[i]);
    }
    FreeSlot(h, keys, items[j].key);
  }

  class Table {
    var sizearray: nat
    var arr: array<Option<Value>>
    var hash: array<Node>
    ghost var chains: seq<seq<int>>
    /** The table to convert, in the order that lua_next gives it. */
    var items: seq<Item>

    ghost predicate Valid()
      reads this, hash
    {
      arr.Length == sizearray && Wellformed(hash[..], chains)
    }

    /** countsize: the keys that need a node. */
    static method CountSize(items: seq<Item>, sizearray: nat) returns (n: nat)
      requires GoodItems(items)
      ensures n == |HashKeys(items, sizearray)|
    {
      n := 0;
      assert HashKeys(items[..0], sizearray) == {};
      for j := 0 to |items|
        invariant n == |HashKeys(items[..j], sizearray)|
      {
        OneMoreKey(items, j, sizearray);
        if !ArrayKey(items[j].key, sizearray) {
          n := n + 1;
        }
      }
      assert items[..|items|] == items;
    }

    /** fillnocolliding: the first key of each main slot takes it. */
    method FillNoColliding()
      requires Valid() && FirstPass(hash[..], chains, items, 0, sizearray) && hash.Length > 0
      requires forall k :: 0 <= k < sizearray ==> arr[k] == None
      modifies this`chains, arr, hash
      ensures Valid() && FirstPass(hash[..], chains, items, |items|, sizearray)
      ensures forall k :: 0 <= k < sizearray ==> arr[k] == Wanted(items, IntKey(k + 1))
    {
      hide FirstPass, Wellformed, HashOf;
      for j := 0 to |items|
        invariant arr.Length == sizearray && FirstPass(hash[..], chains, items, j, sizearray)
        invariant forall k :: 0 <= k < sizearray ==> arr[k] == Wanted(items[..j], IntKey(k + 1))
      {
        var key, value := items[j].key, items[j].value;
        assert items[..j + 1][..j] == items[..j];
        FirstPassShape(hash[..], chains, items, j, sizearray);
        if ArrayKey(key, sizearray) {
          arr[key.k - 1] := Some(value);
          FirstPassMore(hash[..], chains, items, j, sizearray);
        } else {
          var m := HashOf(key) % hash.Length;
          if hash[m].Empty? {
            FirstPassPut(hash[..], chains, items, j, sizearray);
            ghost var h := hash[..];
            chains := chains[m := [m]];
            hash[m] := Full(key, HashOf(key), -1, true, value);
            assert hash[..] == h[m := hash[m]];
          } else {
            FirstPassMore(hash[..], chains, items, j, sizearray);
          }
        }
      }
      FirstPassShape(hash[..], chains, items, |items|, sizearray);
      assert items[..|items|] == items;
    }

    /** fillcolliding: every other key goes to a free slot, which there always is. */
    method FillColliding()
      requires Valid() && SecondPass(hash[..], chains, items, 0, sizearray)
      requires hash.Length == |HashKeys(items, sizearray)|
      modifies this`chains, hash
      ensures Valid() && SecondPass(hash[..], chains, items, |items|, sizearray)
    {
      hide SecondPass, Wellformed, HashOf, HashKeys;
      for j := 0 to |items|
        invariant arr.Length == sizearray && SecondPass(hash[..], chains, items, j, sizearray)
      {
        var key, value := items[j].key, items[j].value;
        SecondPassShape(hash[..], chains, items, j, sizearray);
        if !ArrayKey(key, sizearray) {
          var mainpos := HashOf(key) % hash.Length;
          if hash[mainpos].key != key {
            NotInYet(hash[..], chains, items, j, sizearray);
            SlotForMissing(hash[..], chains, items, j, sizearray);
            var n := 0;
            while hash[n].Full?
              invariant 0 <= n < hash.Length && forall i :: 0 <= i < n ==> hash[i].Full?
              decreases hash.Length - n
            {
              n := n + 1;
            }
            SecondPassPut(hash[..], chains, items, j, sizearray, n);
            ghost var h := hash[..];
            chains := chains[mainpos := [mainpos, n] + chains[mainpos][1..]];
            var next := hash[mainpos].next;
            hash[mainpos] := hash[mainpos].(next := n, nocolliding := false);
            hash[n] := Full(key, HashOf(key), next, false, value);
            assert hash[..] == Behind(h, key, value, n);
          } else {
            assert hash[..][mainpos].key == key;
            SecondPassMore(hash[..], chains, items, j, sizearray);
          }
        } else {
          SecondPassMore(hash[..], chains, items, j, sizearray);
        }
      }
      SecondPassShape(hash[..], chains, items, |items|, sizearray);
    }

    /** What holds of a converted table. */
    ghost predicate Frozen()
      reads this, arr, hash
    {
      && Valid() && Holds(hash[..], chains, items, sizearray) && sizearray < 0x8000_0000
      && forall k :: 0 <= k < sizearray ==> arr[k] == Wanted(items, IntKey(k + 1))
    }

    /** convtable without keys that need a node: the array is filled in order. */
    method FillArray()
      requires arr.Length == sizearray && forall k :: 0 <= k < sizearray ==> arr[k] == None
      modifies arr
      ensures forall k :: 0 <= k < sizearray ==> arr[k] == Wanted(items, IntKey(k + 1))
    {
      for i := 0 to sizearray
        invariant forall k :: 0 <= k < sizearray ==> arr[k] == if k < i then Wanted(items, IntKey(k + 1)) else None
      {
        arr[i] := Wanted(items, IntKey(i + 1));
      }
    }

    /** convtable, after the allocation of the array and of the nodes. */
    method Fill()
      requires arr.Length == sizearray < 0x8000_0000 && GoodItems(items)
      requires |chains| == hash.Length == |HashKeys(items, sizearray)|
      requires forall i :: 0 <= i < hash.Length ==> hash[i] == Empty && chains[i] == []
      requires forall k :: 0 <= k < sizearray ==> arr[k] == None
      modifies this`chains, arr, hash
      ensures Frozen()
    {
      hide FirstPass, SecondPass, Holds, Wellformed, HashKeys, HashOf;
      EmptyPasses(hash[..], chains, items, sizearray);
      if hash.Length > 0 {
        FillNoColliding();
        PassesMeet(hash[..], chains, items, sizearray);
        FillColliding();
        PassesDone(hash[..], chains, items, sizearray);
      } else {
        FillArray();
        NothingHashed(chains, items, sizearray);
      }
    }

    /** convtable, for the items in the order of lua_next and the length of the table. */
    constructor (items: seq<Item>, length: nat)
      requires GoodItems(items) && length < 0x8000_0000
      ensures Frozen() && fresh(arr) && fresh(hash) && this.items == items && sizearray == length
    {
      sizearray, arr := length, new Option<Value>[length](_ => None);
      this.items := items;
      var sizehash := CountSize(items, length);
      hash, chains := new Node[sizehash](_ => Empty), seq(sizehash, _ => []);
      new;
      Fill();
    }

    /** lookup_key: the node of a key, or -1. */
    method LookupKey(key: Key) returns (i: int)
      requires Frozen() && GoodKey(key)
      ensures if i < 0 then !HasKey(hash[..], key) else FullAt(hash[..], i) && hash[i].key == key
    {
      if hash.Length == 0 {
        return -1;
      }
      ghost var h := hash[..];
      i := HashOf(key) % hash.Length;
      ghost var p, l := StartOfSearch(h, chains, items, sizearray, key);
      hide Holds, HasKey, HashOf, Wellformed, Chain;
      if HashOf(key) != hash[i].hash && hash[i].nocolliding {
        AloneInChain(h, chains, items, sizearray, key, i);
        return -1;
      }
      while hash[i].key != key
        invariant FullAt(h, i) && OnChain(h, l, p, i) && (HasKey(h, key) ==> KeyAhead(h, l, p, key))
        decreases |l| - p
      {
        Onwards(h, l, p, i, key);
        if hash[i].next < 0 {
          return -1;
        }
        i, p := hash[i].next, p + 1;
      }
    }

    /** lindexconf: what the source table has for the key. */
    method Index(key: Key) returns (v: Option<Value>)
      requires Frozen() && GoodKey(key)
      ensures v == Wanted(items, key)
    {
      hide Holds, HasKey, HashOf, Wellformed, Wanted;
      if ArrayKey(key, sizearray) {
        return arr[key.k - 1];
      }
      var n := LookupKey(key);
      NodeOrNothing(hash[..], chains, items, sizearray, key, n);
      return if n >= 0 then Some(hash[n].value) else None;
    }

    /** pushfirsthash. */
    method FirstHash() returns (k: Option<Key>)
      requires Frozen()
      ensures k == First(HashFrom(hash[..], 0))
    {
      if hash.Length > 0 {
        assert FullAt(hash[..], 0);
        return Some(hash[0].key);
      }
      return None;
    }

    /** lnextkey: the first key, or the one after a key of the table. */
    method NextKey(key: Option<Key>) returns (k: Option<Key>)
      requires Frozen() && (key.Some? ==> GoodKey(key.value))
      ensures k == First(KeysAfter(arr[..], hash[..], key))
    {
      hide HasKey, Wellformed, From;
      if key.None? || ArrayKey(key.value, sizearray) {
        var from := if key.None? then 0 else key.value.k;
        for i := from to sizearray
          invariant ArrayFrom(arr[..], i) == ArrayFrom(arr[..], from)
        {
          if arr[i].Some? {
            return Some(IntKey(i + 1));
          }
        }
        k := FirstHash();
        assert [] + HashFrom(hash[..], 0) == HashFrom(hash[..], 0);
        return;
      }
      var n := LookupKey(key.value);
      SlotIs(hash[..], chains, key.value, n);
      if n < 0 || n + 1 == hash.Length {
        return None;
      }
      assert FullAt(hash[..], n + 1);
      return Some(hash[n + 1].key);
    }

    /** Going through the table with NextKey visits every key of the source table exactly once. */
    method AllKeys() returns (keys: seq<Key>)
      requires Frozen()
      ensures forall i, j :: 0 <= i < j < |keys| ==> keys[i] != keys[j]
      ensures forall key :: key in keys <==> Wanted(items, key).Some?
    {
      keys := [];
      ghost var a, h := arr[..], hash[..];
      ghost var all := KeysAfter(a, h, None);
      var k := NextKey(None);
      ghost var left := all;
      AllIsSuffix(a, h);
      EveryKeyOnce(a, h, chains, items);
      hide KeysAfter, Holds, Suffix, Wanted, ArrayFrom, HashFrom, Wellformed;
      while k.Some?
        invariant keys + left == all && k == First(left) && Suffix(a, h, left)
        decreases |left|
      {
        StepOn(a, h, chains, items, left);
        Shift(keys, left);
        keys := keys + [k.value];
        left := left[1..];
        k := NextKey(k);
      }
      assert keys + [] == keys;
    }
  }

  lemma Shift(keys: seq<Key>, left: seq<Key>)
    requires left != []
    ensures keys + left == (keys + [left[0]]) + left[1..]
  {
  }

  predicate AllFull(h: seq<Node>) {
    forall j :: 0 <= j < |h| ==> h[j].Full?
  }

  function First(keys: seq<Key>): Option<Key> {
    if keys == [] then None else Some(keys[0])
  }

  /** The keys of the array from index 'i' on. */
  function ArrayFrom(a: seq<Option<Value>>, i: nat): seq<Key>
    decreases |a| - i
  {
    if i >= |a| then [] else (if a[i].Some? then [IntKey(i + 1)] else []) + ArrayFrom(a, i + 1)
  }

  /** The keys of the nodes from slot 'i' on. */
  function HashFrom(h: seq<Node>, i: nat): seq<Key>
    requires AllFull(h)
    decreases |h| - i
  {
    if i >= |h| then [] else [h[i].key] + HashFrom(h, i + 1)
  }

  /** The slot of a key, or -1. */
  function Slot(h: seq<Node>, key: Key): (i: int)
    requires AllFull(h)
    ensures i < |h| && (i >= 0 ==> h[i].key == key) && (i < 0 ==> forall j :: 0 <= j < |h| ==> h[j].key != key)
  {
    if h == [] then -1
    else if h[|h| - 1].key == key then |h| - 1
    else
      assert forall j :: 0 <= j < |h| - 1 ==> h[..|h| - 1][j] == h[j];
      Slot(h[..|h| - 1], key)
  }

  /** The keys that follow a key, in the order of lnextkey; those that follow nothing are all. */
  ghost function KeysAfter(a: seq<Option<Value>>, h: seq<Node>, key: Option<Key>): seq<Key>
    requires AllFull(h)
  {
    if key.None? then ArrayFrom(a, 0) + HashFrom(h, 0)
    else if ArrayKey(key.value, |a|) then ArrayFrom(a, key.value.k) + HashFrom(h, 0)
    else if Slot(h, key.value) < 0 then []
    else HashFrom(h, Slot(h, key.value) + 1)
  }

  ghost predicate Suffix(a: seq<Option<Value>>, h: seq<Node>, left: seq<Key>)
    requires AllFull(h)
  {
    (exists i: nat :: left == ArrayFrom(a, i) + HashFrom(h, 0)) || (exists i: nat :: left == HashFrom(h, i))
  }

  lemma AllIsSuffix(a: seq<Option<Value>>, h: seq<Node>)
    requires AllFull(h)
    ensures Suffix(a, h, KeysAfter(a, h, None))
  {
  }

  lemma {:induction false} FirstOfArray(a: seq<Option<Value>>, i: nat) returns (k: nat)
    requires ArrayFrom(a, i) != []
    ensures i < k <= |a| && ArrayFrom(a, i) == [IntKey(k)] + ArrayFrom(a, k)
    decreases |a| - i
  {
    if a[i].Some? {
      k := i + 1;
    } else {
      k := FirstOfArray(a, i + 1);
    }
  }

  lemma StepInArray(a: seq<Option<Value>>, h: seq<Node>, i: nat, left: seq<Key>)
    requires AllFull(h) && |a| < 0x8000_0000
    requires left == ArrayFrom(a, i) + HashFrom(h, 0) && ArrayFrom(a, i) != []
    ensures GoodKey(left[0]) && KeysAfter(a, h, Some(left[0])) == left[1..] && Suffix(a, h, left[1..])
  {
    var k := FirstOfArray(a, i);
    hide ArrayFrom, HashFrom;
    assert left[0] == IntKey(k);
    assert left[1..] == ArrayFrom(a, k) + HashFrom(h, 0);
  }

  lemma NodeFacts(h: seq<Node>, c: seq<seq<int>>, items: seq<Item>, sizearray: nat, i: nat)
    requires Holds(h, c, items, sizearray) && i < |h|
    ensures AllFull(h) && GoodKey(h[i].key) && !ArrayKey(h[i].key, sizearray) && Slot(h, h[i].key) == i
  {
    assert FullAt(h, i);
    SlotIs(h, c, h[i].key, i);
  }

  lemma StepInHash(a: seq<Option<Value>>, h: seq<Node>, i: nat, left: seq<Key>)
    requires AllFull(h) && left == HashFrom(h, i) && i < |h|
    requires GoodKey(h[i].key) && !ArrayKey(h[i].key, |a|) && Slot(h, h[i].key) == i
    ensures GoodKey(left[0]) && KeysAfter(a, h, Some(left[0])) == left[1..] && Suffix(a, h, left[1..])
  {
    hide ArrayFrom, Slot;
    assert left[0] == h[i].key && left[1..] == HashFrom(h, i + 1);
  }

  /** What follows the first of the keys left is the rest of them. */
  lemma StepOn(a: seq<Option<Value>>, h: seq<Node>, c: seq<seq<int>>, items: seq<Item>, left: seq<Key>)
    requires Holds(h, c, items, |a|) && |a| < 0x8000_0000 && left != [] && Suffix(a, h, left)
    ensures GoodKey(left[0]) && KeysAfter(a, h, Some(left[0])) == left[1..] && Suffix(a, h, left[1..])
  {
    assert AllFull(h);
    EndOfHash(h);
    hide KeysAfter, Holds, ArrayFrom, HashFrom, AllFull;
    var i: nat;
    if n: nat :| left == ArrayFrom(a, n) + HashFrom(h, 0) {
      if ArrayFrom(a, n) != [] {
        StepInArray(a, h, n, left);
        return;
      }
      assert [] + HashFrom(h, 0) == HashFrom(h, 0);
      i := 0;
    } else {
      i :| left == HashFrom(h, i);
    }
    NodeFacts(h, c, items, |a|, i);
    StepInHash(a, h, i, left);
  }

  lemma EndOfHash(h: seq<Node>)
    requires AllFull(h)
    ensures forall i: nat :: HashFrom(h, i) != [] ==> i < |h|
  {
  }

  lemma {:induction false} InArrayFrom(a: seq<Option<Value>>, i: nat)
    ensures forall key :: key in ArrayFrom(a, i) <==> key.IntKey? && i < key.k <= |a| && a[key.k - 1].Some?
    ensures forall x, y :: 0 <= x < y < |ArrayFrom(a, i)| ==> ArrayFrom(a, i)[x] != ArrayFrom(a, i)[y]
    decreases |a| - i
  {
    if i < |a| {
      InArrayFrom(a, i + 1);
      var first := if a[i].Some? then [IntKey(i + 1)] else [];
      assert forall key :: key in ArrayFrom(a, i) <==> key in first || key in ArrayFrom(a, i + 1);
      assert IntKey(i + 1) !in ArrayFrom(a, i + 1);
    }
  }

  lemma {:induction false} InHashFrom(h: seq<Node>, i: nat)
    requires DistinctKeys(h) && AllFull(h)
    ensures forall key :: key in HashFrom(h, i) <==> exists j :: i <= j < |h| && h[j].key == key
    ensures forall x, y :: 0 <= x < y < |HashFrom(h, i)| ==> HashFrom(h, i)[x] != HashFrom(h, i)[y]
    decreases |h| - i
  {
    if i < |h| {
      InHashFrom(h, i + 1);
      assert FullAt(h, i);
      forall j | i + 1 <= j < |h| ensures h[j].key != h[i].key {
        assert FullAt(h, j);
      }
      assert h[i].key !in HashFrom(h, i + 1);
      forall key ensures key in HashFrom(h, i) <==> exists j :: i <= j < |h| && h[j].key == key {
        assert key in HashFrom(h, i) <==> key == h[i].key || key in HashFrom(h, i + 1);
      }
    }
  }

  lemma HashKeyWanted(h: seq<Node>, c: seq<seq<int>>, items: seq<Item>, sizearray: nat, j: int)
    requires Holds(h, c, items, sizearray) && 0 <= j < |h|
    ensures Wanted(items, h[j].key).Some? && !ArrayKey(h[j].key, sizearray)
  {
    assert From(items, |items|, h[j]);
    WantedIs(items, h[j].key);
  }

  lemma WantedIsThere(a: seq<Option<Value>>, h: seq<Node>, c: seq<seq<int>>, items: seq<Item>, key: Key)
    requires Holds(h, c, items, |a|) && (forall k :: 0 <= k < |a| ==> a[k] == Wanted(items, IntKey(k + 1)))
    requires Wanted(items, key).Some?
    ensures if ArrayKey(key, |a|) then key.IntKey? && 0 < key.k <= |a| && a[key.k - 1].Some?
            else exists j :: 0 <= j < |h| && h[j].key == key
  {
    WantedIs(items, key);
    var t :| 0 <= t < |items| && items[t].key == key;
    if ArrayKey(key, |a|) {
      assert a[key.k - 1] == Wanted(items, IntKey(key.k - 1 + 1));
    }
  }

  lemma BothOnce(x: seq<Key>, y: seq<Key>)
    requires (forall i, j :: 0 <= i < j < |x| ==> x[i] != x[j]) && (forall i, j :: 0 <= i < j < |y| ==> y[i] != y[j])
    requires forall key | key in y :: key !in x
    ensures forall i, j :: 0 <= i < j < |x + y| ==> (x + y)[i] != (x + y)[j]
  {
    var z := x + y;
    forall i, j | 0 <= i < j < |z| ensures z[i] != z[j] {
      if i < |x| <= j {
        assert z[j] == y[j - |x|] && z[j] in y;
      }
    }
  }

  lemma EveryKeyOnce(a: seq<Option<Value>>, h: seq<Node>, c: seq<seq<int>>, items: seq<Item>)
    requires Holds(h, c, items, |a|) && forall k :: 0 <= k < |a| ==> a[k] == Wanted(items, IntKey(k + 1))
    ensures var keys := KeysAfter(a, h, None);
      && (forall i, j :: 0 <= i < j < |keys| ==> keys[i] != keys[j])
      && (forall key :: key in keys <==> Wanted(items, key).Some?)
  {
    hide Wanted, HashFrom, ArrayFrom;
    var x, y := ArrayFrom(a, 0), HashFrom(h, 0);
    InArrayFrom(a, 0);
    InHashFrom(h, 0);
    forall key | key in y ensures key !in x && Wanted(items, key).Some? {
      var j :| 0 <= j < |h| && h[j].key == key;
      HashKeyWanted(h, c, items, |a|, j);
    }
    forall key | Wanted(items, key).Some? ensures key in x || key in y {
      WantedIsThere(a, h, c, items, key);
    }
    BothOnce(x, y);
  }

  lemma SlotIs(h: seq<Node>, c: seq<seq<int>>, key: Key, n: int)
    requires Wellformed(h, c) && AllFull(h)
    requires if n < 0 then !HasKey(h, key) else FullAt(h, n) && h[n].key == key
    ensures if n < 0 then Slot(h, key) < 0 else Slot(h, key) == n
  {
    assert Slot(h, key) >= 0 ==> FullAt(h, Slot(h, key));
  }

  /** The position 'p' of slot 'i' in the list 'l', which is the part of a chain from there on. */
  ghost predicate OnChain(h: seq<Node>, l: seq<int>, p: int, i: int) {
    && 0 <= p < |l| && l[p] == i
    && (forall q :: 0 <= q < |l| ==> FullAt(h, l[q]))
    && (forall q :: 0 <= q < |l| ==> Links(h, l, q))
  }

  ghost predicate KeyAhead(h: seq<Node>, l: seq<int>, p: int, key: Key) {
    exists q :: 0 <= p <= q < |l| && FullAt(h, l[q]) && h[l[q]].key == key
  }

  /** The search starts in some chain; if the key is in the table, at the beginning of its own. */
  lemma StartOfSearch(h: seq<Node>, c: seq<seq<int>>, items: seq<Item>, sizearray: nat, key: Key)
        returns (p: int, l: seq<int>)
    requires Holds(h, c, items, sizearray) && GoodKey(key) && |h| > 0
    ensures var i := HashOf(key) % |h|;
      FullAt(h, i) && OnChain(h, l, p, i) && (HasKey(h, key) ==> KeyAhead(h, l, p, key))
  {
    var i := HashOf(key) % |h|;
    assert FullAt(h, i);
    l := c[Main(h, i)];
    p :| 0 <= p < |l| && l[p] == i;
    if HasKey(h, key) {
      var j :| 0 <= j < |h| && h[j].Full? && h[j].key == key;
      assert FullAt(h, j) && Main(h, j) == i && j in c[i];
      assert c[i][0] == i && FullAt(h, c[i][0]);
      assert l == c[i] && p == 0;
      var q :| 0 <= q < |l| && l[q] == j;
    }
  }

  lemma AloneInChain(h: seq<Node>, c: seq<seq<int>>, items: seq<Item>, sizearray: nat, key: Key, i: int)
    requires Holds(h, c, items, sizearray) && GoodKey(key) && |h| > 0 && i == HashOf(key) % |h|
    requires FullAt(h, i) && h[i].hash != HashOf(key) && h[i].nocolliding
    ensures !HasKey(h, key)
  {
    forall j | 0 <= j < |h| && h[j].Full? ensures h[j].key != key {
      assert FullAt(h, j) && j in c[Main(h, j)];
    }
  }

  lemma Onwards(h: seq<Node>, l: seq<int>, p: int, i: int, key: Key)
    requires OnChain(h, l, p, i) && h[i].key != key && (HasKey(h, key) ==> KeyAhead(h, l, p, key))
    ensures if h[i].next < 0 then !HasKey(h, key)
      else FullAt(h, h[i].next) && OnChain(h, l, p + 1, h[i].next) && (HasKey(h, key) ==> KeyAhead(h, l, p + 1, key))
  {
    assert Links(h, l, p);
    if p + 1 < |l| {
      assert FullAt(h, l[p + 1]);
    }
  }

  lemma NodeOrNothing(h: seq<Node>, c: seq<seq<int>>, items: seq<Item>, sizearray: nat, key: Key, n: int)
    requires Holds(h, c, items, sizearray) && !ArrayKey(key, sizearray)
    requires if n < 0 then !HasKey(h, key) else FullAt(h, n) && h[n].key == key
    ensures Wanted(items, key) == if n >= 0 then Some(h[n].value) else None
  {
    WantedIs(items, key);
    if n >= 0 {
      assert From(items, |items|, h[n]);
    }
  }

  /** Every slot is taken, and the nodes are the items whose keys do not go to the array. */
  ghost predicate Holds(h: seq<Node>, c: seq<seq<int>>, items: seq<Item>, sizearray: nat) {
    && GoodItems(items) && Wellformed(h, c)
    && (forall i :: 0 <= i < |h| ==> h[i].Full? && From(items, |items|, h[i]) && !ArrayKey(h[i].key, sizearray))
    && (forall t :: 0 <= t < |items| && !ArrayKey(items[t].key, sizearray) ==>
         HasKey(h, items[t].key) && MainTaken(h, items[t].key))
  }

  lemma EmptyPasses(h: seq<Node>, c: seq<seq<int>>, items: seq<Item>, sizearray: nat)
    requires GoodItems(items) && |c| == |h| && forall i :: 0 <= i < |h| ==> h[i] == Empty && c[i] == []
    ensures Wellformed(h, c) && FirstPass(h, c, items, 0, sizearray)
  {
  }

  /** The first pass leaves what the second one starts from. */
  lemma PassesMeet(h: seq<Node>, c: seq<seq<int>>, items: seq<Item>, sizearray: nat)
    requires FirstPass(h, c, items, |items|, sizearray)
    ensures SecondPass(h, c, items, 0, sizearray)
  {
  }

  lemma PassesDone(h: seq<Node>, c: seq<seq<int>>, items: seq<Item>, sizearray: nat)
    requires SecondPass(h, c, items, |items|, sizearray) && |h| == |HashKeys(items, sizearray)|
    ensures Holds(h, c, items, sizearray)
  {
    NoFreeSlot(h, HashKeys(items, sizearray));
    assert forall i :: 0 <= i < |h| ==> FullAt(h, i);
  }

  lemma NothingHashed(c: seq<seq<int>>, items: seq<Item>, sizearray: nat)
    requires GoodItems(items) && HashKeys(items, sizearray) == {} && c == []
    ensures Holds([], c, items, sizearray)
  {
    forall t | 0 <= t < |items| ensures ArrayKey(items[t].key, sizearray) {
      assert items[t].key in HashKeys(items, sizearray) || ArrayKey(items[t].key, sizearray);
    }
  }

  lemma FirstPassShape(h: seq<Node>, c: seq<seq<int>>, items: seq<Item>, j: int, sizearray: nat)
    requires FirstPass(h, c, items, j, sizearray)
    ensures |c| == |h| && GoodItems(items) && Wellformed(h, c)
    ensures j < |items| && |h| > 0 && h[HashOf(items[j].key) % |h|].Full? ==> MainTaken(h, items[j].key)
  {
    assert j < |items| && |h| > 0 && h[HashOf(items[j].key) % |h|].Full? ==> FullAt(h, HashOf(items[j].key) % |h|);
  }

  lemma SecondPassShape(h: seq<Node>, c: seq<seq<int>>, items: seq<Item>, j: int, sizearray: nat)
    requires SecondPass(h, c, items, j, sizearray)
    ensures |c| == |h| && GoodItems(items) && Wellformed(h, c)
    ensures j < |items| && !ArrayKey(items[j].key, sizearray) ==>
      MainTaken(h, items[j].key) && FullAt(h, HashOf(items[j].key) % |h|) && c[HashOf(items[j].key) % |h|] != []
  {
    if j < |items| && !ArrayKey(items[j].key, sizearray) {
      var m := HashOf(items[j].key) % |h|;
      assert MainTaken(h, items[j].key) && FullAt(h, m) && m in c[Main(h, m)];
    }
  }

  lemma OneMoreKey(items: seq<Item>, j: nat, sizearray: nat)
    requires GoodItems(items) && j < |items|
    ensures |HashKeys(items[..j + 1], sizearray)|
      == |HashKeys(items[..j], sizearray)| + if ArrayKey(items[j].key, sizearray) then 0 else 1
  {
    var a, b := HashKeys(items[..j], sizearray), HashKeys(items[..j + 1], sizearray);
    if ArrayKey(items[j].key, sizearray) {
      assert a == b;
    } else {
      assert b == a + {items[j].key};
    }
  }
}
