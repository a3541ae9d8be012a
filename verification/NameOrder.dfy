/** Strings in the order of strcmp, and strictly sorted lists of names. */
module NameOrder {

  type Name = seq<int>

  /** strcmp: negative, zero or positive. */
  function Compare(a: Name, b: Name): int {
    if a == [] && b == [] then 0
    else if a == [] then -1
    else if b == [] then 1
    else if a[0] < b[0] then -1
    else if a[0] > b[0] then 1
    else Compare(a[1..], b[1..])
  }

  lemma {:induction false} CompareFlips(a: Name, b: Name)
    ensures Compare(a, b) == -Compare(b, a) && (Compare(a, b) == 0 <==> a == b)
  {
    if a != [] && b != [] && a[0] == b[0] {
      CompareFlips(a[1..], b[1..]);
      assert a == [a[0]] + a[1..] && b == [b[0]] + b[1..];
    }
  }

  lemma {:induction false} CompareTrans(a: Name, b: Name, c: Name)
    requires Compare(a, b) < 0 && Compare(b, c) < 0
    ensures Compare(a, c) < 0
  {
    if a != [] && b != [] && c != [] && a[0] == b[0] == c[0] {
      CompareTrans(a[1..], b[1..], c[1..]);
    }
  }

  datatype Entry = Entry(name: Name, handle: nat)

  ghost predicate Sorted(s: seq<Entry>) {
    forall i, j :: 0 <= i < j < |s| ==> Compare(s[i].name, s[j].name) < 0
  }

  /** The names and handles of a list, as a map. */
  ghost function Meaning(s: seq<Entry>): map<Name, nat> {
    if s == [] then map[] else Meaning(s[..|s| - 1])[s[|s| - 1].name := s[|s| - 1].handle]
  }

  predicate HasName(s: seq<Entry>, n: Name) {
    exists i :: 0 <= i < |s| && s[i].name == n
  }

  lemma HasNameStep(s: seq<Entry>, n: Name)
    requires s != []
    ensures HasName(s, n) <==> n == s[|s| - 1].name || HasName(s[..|s| - 1], n)
  {
    if HasName(s[..|s| - 1], n) {
      var i :| 0 <= i < |s| - 1 && s[..|s| - 1][i].name == n;
      assert s[i].name == n;
    }
    if i :| 0 <= i < |s| && s[i].name == n && i < |s| - 1 {
      assert s[..|s| - 1][i].name == n;
    }
  }

  lemma {:induction false} MeaningKeys(s: seq<Entry>)
    ensures forall n :: n in Meaning(s) <==> HasName(s, n)
  {
    if s != [] {
      MeaningKeys(s[..|s| - 1]);
      hide HasName;
      forall n ensures n in Meaning(s) <==> HasName(s, n) {
        HasNameStep(s, n);
      }
    }
  }

  lemma {:induction false} MeaningValues(s: seq<Entry>)
    requires Sorted(s)
    ensures forall i :: 0 <= i < |s| ==> s[i].name in Meaning(s) && Meaning(s)[s[i].name] == s[i].handle
  {
    if s != [] {
      var t, last := s[..|s| - 1], s[|s| - 1];
      MeaningValues(t);
      forall i | 0 <= i < |t| ensures t[i].name != last.name {
        CompareFlips(s[i].name, last.name);
      }
      hide Compare;
    }
  }

  lemma MeaningIs(s: seq<Entry>)
    requires Sorted(s)
    ensures forall n :: n in Meaning(s) <==> HasName(s, n)
    ensures forall i :: 0 <= i < |s| ==> s[i].name in Meaning(s) && Meaning(s)[s[i].name] == s[i].handle
  {
    MeaningKeys(s);
    MeaningValues(s);
    hide Meaning, Compare;
  }

  lemma {:induction false} MeaningSize(s: seq<Entry>)
    requires Sorted(s)
    ensures |Meaning(s)| == |s|
  {
    if s != [] {
      var t, last := s[..|s| - 1], s[|s| - 1];
      MeaningSize(t);
      MeaningKeys(t);
      forall i | 0 <= i < |t| ensures t[i].name != last.name {
        CompareFlips(s[i].name, last.name);
      }
      hide Compare;
      assert last.name !in Meaning(t);
    }
  }

  /** A sorted list is known by its map: the entries of the one are the pairs of the other. */
  lemma MeaningOf(s: seq<Entry>, m: map<Name, nat>)
    requires Sorted(s)
    requires forall i :: 0 <= i < |s| ==> s[i].name in m && m[s[i].name] == s[i].handle
    requires forall n :: n in m ==> HasName(s, n)
    ensures Meaning(s) == m
  {
    MeaningIs(s);
  }

  /** Everything before 'begin' is smaller, everything after 'end' is greater. */
  ghost predicate Bracketed(s: seq<Entry>, name: Name, begin: int, end: int) {
    && 0 <= begin <= |s| && -1 <= end < |s| && begin <= end + 1
    && (forall i :: 0 <= i < begin ==> Compare(s[i].name, name) < 0)
    && (forall i :: end < i < |s| ==> Compare(s[i].name, name) > 0)
  }

  /** One turn of the binary search. */
  lemma Narrows(s: seq<Entry>, name: Name, begin: int, end: int, mid: int)
    requires Sorted(s) && Bracketed(s, name, begin, end) && begin <= mid <= end
    ensures Compare(s[mid].name, name) < 0 ==> Bracketed(s, name, mid + 1, end)
    ensures Compare(s[mid].name, name) > 0 ==> Bracketed(s, name, begin, mid - 1)
  {
    if Compare(s[mid].name, name) < 0 {
      forall i | 0 <= i < mid ensures Compare(s[i].name, name) < 0 {
        CompareTrans(s[i].name, s[mid].name, name);
      }
    } else if Compare(s[mid].name, name) > 0 {
      forall i | mid < i < |s| ensures Compare(s[i].name, name) > 0 {
        CompareFlips(s[mid].name, name);
        CompareTrans(name, s[mid].name, s[i].name);
        CompareFlips(name, s[i].name);
      }
    }
  }

  lemma NotThere(s: seq<Entry>, name: Name, begin: int, end: int)
    requires Sorted(s) && Bracketed(s, name, begin, end) && begin > end
    ensures name !in Meaning(s)
  {
    MeaningIs(s);
    forall i | 0 <= i < |s| ensures s[i].name != name {
      CompareFlips(s[i].name, name);
    }
  }

  lemma There(s: seq<Entry>, name: Name, mid: int)
    requires Sorted(s) && 0 <= mid < |s| && Compare(s[mid].name, name) == 0
    ensures name in Meaning(s) && Meaning(s)[name] == s[mid].handle
  {
    MeaningIs(s);
    CompareFlips(s[mid].name, name);
  }

  lemma InsertsSorted(s: seq<Entry>, e: Entry, before: int)
    requires Sorted(s) && Bracketed(s, e.name, before, before - 1)
    ensures Sorted(s[..before] + [e] + s[before..])
  {
    var t := s[..before] + [e] + s[before..];
    forall i, j | 0 <= i < j < |t| ensures Compare(t[i].name, t[j].name) < 0 {
      if i == before {
        CompareFlips(e.name, t[j].name);
      }
    }
  }

  /** The place where the search ends is where a new name belongs. */
  lemma Inserts(s: seq<Entry>, e: Entry, before: int)
    requires Sorted(s) && Bracketed(s, e.name, before, before - 1)
    ensures var t := s[..before] + [e] + s[before..]; Sorted(t) && Meaning(t) == Meaning(s)[e.name := e.handle]
  {
    var t := s[..before] + [e] + s[before..];
    InsertsSorted(s, e, before);
    NotThere(s, e.name, before, before - 1);
    MeaningIs(s);
    InsertsValues(s, e, before, t, Meaning(s));
    InsertsNames(s, e, before, t);
    hide Compare, Sorted, Bracketed, Meaning, HasName;
    MeaningOf(t, Meaning(s)[e.name := e.handle]);
  }

  lemma InsertsAt(s: seq<Entry>, e: Entry, before: nat, t: seq<Entry>)
    requires before <= |s| && t == s[..before] + [e] + s[before..]
    ensures |t| == |s| + 1 && t[before] == e
    ensures forall i :: 0 <= i < |t| && i != before ==> t[i] == s[if i < before then i else i - 1]
  {
  }

  lemma InsertsValues(s: seq<Entry>, e: Entry, before: nat, t: seq<Entry>, m: map<Name, nat>)
    requires before <= |s| && t == s[..before] + [e] + s[before..] && e.name !in m
    requires forall i :: 0 <= i < |s| ==> s[i].name in m && m[s[i].name] == s[i].handle
    ensures forall i :: 0 <= i < |t| ==>
      t[i].name in m[e.name := e.handle] && m[e.name := e.handle][t[i].name] == t[i].handle
  {
    InsertsAt(s, e, before, t);
    forall i | 0 <= i < |t|
      ensures t[i].name in m[e.name := e.handle] && m[e.name := e.handle][t[i].name] == t[i].handle
    {
      InsertedValue(s, m, e, t[i], if i < before then i else i - 1, i == before);
    }
  }

  lemma InsertedValue(s: seq<Entry>, m: map<Name, nat>, e: Entry, u: Entry, k: int, here: bool)
    requires e.name !in m && forall i :: 0 <= i < |s| ==> s[i].name in m && m[s[i].name] == s[i].handle
    requires if here then u == e else 0 <= k < |s| && u == s[k]
    ensures u.name in m[e.name := e.handle] && m[e.name := e.handle][u.name] == u.handle
  {
  }

  lemma InsertsNames(s: seq<Entry>, e: Entry, before: nat, t: seq<Entry>)
    requires before <= |s| && t == s[..before] + [e] + s[before..]
    ensures HasName(t, e.name) && forall n :: HasName(s, n) ==> HasName(t, n)
  {
    assert t[before].name == e.name;
    forall n | HasName(s, n) ensures HasName(t, n) {
      var k :| 0 <= k < |s| && s[k].name == n;
      assert t[if k < before then k else k + 1].name == n;
    }
  }

  /** The entries that do not belong to a handle, in order. */
  function Without(s: seq<Entry>, handle: nat): (t: seq<Entry>)
    ensures |t| <= |s|
  {
    if s == [] then []
    else Without(s[..|s| - 1], handle) + if s[|s| - 1].handle == handle then [] else [s[|s| - 1]]
  }

  /** One more entry, which stays unless it is of the handle. */
  lemma WithoutNext(s: seq<Entry>, i: nat, handle: nat)
    ensures Without(s[..0], handle) == []
    ensures i < |s| ==>
      Without(s[..i + 1], handle) == Without(s[..i], handle) + if s[i].handle == handle then [] else [s[i]]
  {
    if i < |s| {
      assert s[..i + 1][..i] == s[..i];
    }
  }

  lemma SortedFront(t: seq<Entry>, last: Entry)
    requires Sorted(t + [last])
    ensures Sorted(t) && forall e :: e in t ==> Compare(e.name, last.name) < 0
  {
    var s := t + [last];
    forall i | 0 <= i < |t| ensures Compare(t[i].name, last.name) < 0 {
      assert s[i] == t[i] && s[|t|] == last;
    }
    forall i, j | 0 <= i < j < |t| ensures Compare(t[i].name, t[j].name) < 0 {
      assert s[i] == t[i] && s[j] == t[j];
    }
  }

  lemma SortedBehind(u: seq<Entry>, last: Entry)
    requires Sorted(u) && forall e :: e in u ==> Compare(e.name, last.name) < 0
    ensures Sorted(u + [last])
  {
  }

  lemma {:induction false} WithoutSorted(s: seq<Entry>, handle: nat)
    requires Sorted(s)
    ensures Sorted(Without(s, handle))
    ensures forall e :: e in Without(s, handle) <==> e in s && e.handle != handle
  {
    if s != [] {
      var t, last := s[..|s| - 1], s[|s| - 1];
      assert s == t + [last];
      SortedFront(t, last);
      WithoutSorted(t, handle);
      SortedBehind(Without(t, handle), last);
      assert Without(t, handle) + [] == Without(t, handle);
      hide Sorted, Compare;
    }
  }

  /** Leaving out the entries of a handle leaves out its pairs. */
  lemma WithoutMeans(s: seq<Entry>, handle: nat)
    requires Sorted(s)
    ensures Meaning(Without(s, handle)) == map n | n in Meaning(s) && Meaning(s)[n] != handle :: Meaning(s)[n]
  {
    var t := Without(s, handle);
    var m := map n | n in Meaning(s) && Meaning(s)[n] != handle :: Meaning(s)[n];
    WithoutSorted(s, handle);
    MeaningIs(s);
    forall i | 0 <= i < |t| ensures t[i].name in m && m[t[i].name] == t[i].handle {
      assert t[i] in s;
      var k :| 0 <= k < |s| && s[k] == t[i];
    }
    forall n | n in m ensures HasName(t, n) {
      var k :| 0 <= k < |s| && s[k].name == n;
      assert s[k] in t;
      var i :| 0 <= i < |t| && t[i] == s[k];
    }
    MeaningOf(t, m);
  }
}
