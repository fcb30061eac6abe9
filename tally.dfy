/** Counting labels into an insertion-ordered dictionary, as both the
    dashboard (`dist[v.severity] = (dist[v.severity] || 0) + 1`) and the
    report (`severity_counts[sev] = severity_counts.get(sev, 0) + 1`) do, and
    ordering the resulting entries by a rank, descending and stably. A
    dictionary is modelled as the sequence of its entries in key order. */
module Tally {

  /** One key of a counting dictionary with its value. */
  datatype Entry = Entry(key: string, count: nat)

  predicate Distinct(s: seq<string>)
  {
    forall i, j :: 0 <= i < j < |s| ==> s[i] != s[j]
  }

  /** Number of occurrences of `x` in `s`. */
  function Occurrences(s: seq<string>, x: string): (n: nat)
    ensures n <= |s|
    ensures n > 0 <==> x in s
    decreases |s|
  {
    if s == [] then 0
    else
      assert s == s[..|s| - 1] + [s[|s| - 1]];
      Occurrences(s[..|s| - 1], x) + (if s[|s| - 1] == x then 1 else 0)
  }

  /** Counting over a concatenation adds the counts of both parts. */
  lemma {:induction false} OccurrencesAppend(a: seq<string>, b: seq<string>, x: string)
    ensures Occurrences(a + b, x) == Occurrences(a, x) + Occurrences(b, x)
    decreases |b|
  {
    if b != [] {
      var b' := b[..|b| - 1];
      assert (a + b)[..|a + b| - 1] == a + b';
      OccurrencesAppend(a, b', x);
    } else {
      assert a + b == a;
    }
  }

  /** The distinct elements of `s`, in the order of their first occurrence:
      the key order of a dictionary filled from `s`. */
  function FirstSeen(s: seq<string>): (keys: seq<string>)
    ensures Distinct(keys)
    ensures forall x :: x in keys <==> x in s
    decreases |s|
  {
    if s == [] then []
    else
      assert s == s[..|s| - 1] + [s[|s| - 1]];
      var prev := FirstSeen(s[..|s| - 1]);
      if s[|s| - 1] in prev then prev else prev + [s[|s| - 1]]
  }

  /** Seeing one more label adds it as the last key unless it is a key already. */
  lemma FirstSeenSnoc(s: seq<string>, x: string)
    ensures FirstSeen(s + [x]) == if x in FirstSeen(s) then FirstSeen(s) else FirstSeen(s) + [x]
  {
    assert (s + [x])[..|s|] == s;
  }

  /** The entries for `keys`, in that order, each with its number of
      occurrences in `labels`. */
  function Counted(keys: seq<string>, labels: seq<string>): (t: seq<Entry>)
    ensures |t| == |keys|
    ensures forall i :: 0 <= i < |keys| ==> t[i] == Entry(keys[i], Occurrences(labels, keys[i]))
    decreases |keys|
  {
    if keys == [] then []
    else
      var k := keys[|keys| - 1];
      Counted(keys[..|keys| - 1], labels) + [Entry(k, Occurrences(labels, k))]
  }

  /** The dictionary that counting `labels` one by one produces. */
  function Tallied(labels: seq<string>): (t: seq<Entry>)
  {
    Counted(FirstSeen(labels), labels)
  }

  /** Each entry of a tally is a label that occurs, with its number of
      occurrences, in first-seen order. */
  lemma TalliedEntries(labels: seq<string>)
    ensures |Tallied(labels)| == |FirstSeen(labels)|
    ensures forall i :: 0 <= i < |Tallied(labels)| ==>
      var e := Tallied(labels)[i];
      e.key == FirstSeen(labels)[i] && e.count == Occurrences(labels, e.key) && e.count > 0
  {
  }

  /** Sum of the values of a counting dictionary. */
  function Total(t: seq<Entry>): nat
    decreases |t|
  {
    if t == [] then 0 else Total(t[..|t| - 1]) + t[|t| - 1].count
  }

  lemma {:induction false} TotalAppend(a: seq<Entry>, b: seq<Entry>)
    ensures Total(a + b) == Total(a) + Total(b)
    decreases |b|
  {
    if b == [] {
      assert a + b == a;
    } else {
      assert (a + b)[..|a + b| - 1] == a + b[..|b| - 1];
      TotalAppend(a, b[..|b| - 1]);
    }
  }

  lemma CountedTotalLast(keys: seq<string>, s: seq<string>)
    requires keys != []
    ensures Total(Counted(keys, s)) == Total(Counted(keys[..|keys| - 1], s)) + Occurrences(s, keys[|keys| - 1])
  {
    var t := Counted(keys, s);
    assert t[..|t| - 1] == Counted(keys[..|keys| - 1], s);
  }

  /** One more label adds one to the total exactly when the label is a key. */
  lemma {:induction false} TotalCountedStep(keys: seq<string>, s: seq<string>, x: string)
    requires Distinct(keys)
    ensures Total(Counted(keys, s + [x])) == Total(Counted(keys, s)) + (if x in keys then 1 else 0)
    decreases |keys|
  {
    if keys != [] {
      var ks, k := keys[..|keys| - 1], keys[|keys| - 1];
      assert keys == ks + [k];
      TotalCountedStep(ks, s, x);
      CountedTotalLast(keys, s);
      CountedTotalLast(keys, s + [x]);
      OccurrencesSnoc(s, x, k);
      assert x in keys <==> x in ks || x == k;
      assert x == k ==> x !in ks;
    }
  }

  /** When every label is one of the (distinct) keys, the counts of the keys
      add up to the number of labels. */
  lemma {:induction false} TotalCountedCovers(keys: seq<string>, s: seq<string>)
    requires Distinct(keys)
    requires forall x :: x in s ==> x in keys
    ensures Total(Counted(keys, s)) == |s|
    decreases |s|
  {
    if s == [] {
      ZeroCounts(keys, s);
    } else {
      var s', x := s[..|s| - 1], s[|s| - 1];
      assert s == s' + [x];
      TotalCountedCovers(keys, s');
      TotalCountedStep(keys, s', x);
    }
  }

  lemma {:induction false} ZeroCounts(keys: seq<string>, s: seq<string>)
    requires s == []
    ensures Total(Counted(keys, s)) == 0
    decreases |keys|
  {
    if keys != [] {
      ZeroCounts(keys[..|keys| - 1], s);
    }
  }

  /** The counts of a tally add up to the number of labels counted. */
  lemma TalliedTotal(labels: seq<string>)
    ensures Total(Tallied(labels)) == |labels|
  {
    TotalCountedCovers(FirstSeen(labels), labels);
  }

  /** A label is a key of the tally exactly when it occurs among the labels:
      no zero-filled keys and no label missing. */
  lemma TalliedKeys(labels: seq<string>, x: string)
    ensures (exists i :: 0 <= i < |Tallied(labels)| && Tallied(labels)[i].key == x) <==> x in labels
  {
    var t, keys := Tallied(labels), FirstSeen(labels);
    if x in labels {
      var i :| 0 <= i < |keys| && keys[i] == x;
      assert t[i].key == x;
    }
  }

  lemma OccurrencesSnoc(s: seq<string>, x: string, k: string)
    ensures Occurrences(s + [x], k) == Occurrences(s, k) + (if k == x then 1 else 0)
  {
    assert (s + [x])[..|s|] == s;
  }

  /** Counting a label that is already a key increments its entry in place. */
  lemma TalliedSnocExisting(s: seq<string>, x: string, j: nat)
    requires j < |Tallied(s)| && Tallied(s)[j].key == x
    ensures Tallied(s + [x]) == Tallied(s)[j := Entry(x, Tallied(s)[j].count + 1)]
  {
    var s' := s + [x];
    assert s'[..|s'| - 1] == s;
    assert FirstSeen(s') == FirstSeen(s);
    var t, t' := Tallied(s), Tallied(s');
    forall i | 0 <= i < |t| ensures t'[i] == t[j := Entry(x, t[j].count + 1)][i] {
      OccurrencesSnoc(s, x, t[i].key);
    }
  }

  /** Counting a label that is not yet a key appends an entry with count 1. */
  lemma TalliedSnocNew(s: seq<string>, x: string)
    requires forall j :: 0 <= j < |Tallied(s)| ==> Tallied(s)[j].key != x
    ensures Tallied(s + [x]) == Tallied(s) + [Entry(x, 1)]
  {
    var keys := FirstSeen(s);
    assert x !in keys by {
      forall j | 0 <= j < |keys| ensures keys[j] != x {
        assert Tallied(s)[j].key == keys[j];
      }
    }
    var s' := s + [x];
    assert Occurrences(s, x) == 0;
    OccurrencesSnoc(s, x, x);
    var e := Entry(x, Occurrences(s', x));
    assert e == Entry(x, 1);
    FirstSeenSnoc(s, x);
    assert Tallied(s') == Counted(keys + [x], s');
    CountedSnoc(keys, x, s');
    CountedOtherLabel(keys, s, x);
    assert Counted(keys + [x], s') == Counted(keys, s) + [e];
  }

  /** One more key adds its entry at the end. */
  lemma CountedSnoc(keys: seq<string>, k: string, labels: seq<string>)
    ensures Counted(keys + [k], labels) == Counted(keys, labels) + [Entry(k, Occurrences(labels, k))]
  {
    assert (keys + [k])[..|keys|] == keys;
  }

  /** A label that is not a key leaves the entries of the keys as they were. */
  lemma CountedOtherLabel(keys: seq<string>, s: seq<string>, x: string)
    requires x !in keys
    ensures Counted(keys, s + [x]) == Counted(keys, s)
  {
    var t, t' := Counted(keys, s), Counted(keys, s + [x]);
    forall i | 0 <= i < |keys| ensures t'[i] == t[i] {
      OccurrencesSnoc(s, x, keys[i]);
    }
  }

  /** Index of the entry with key `x`, or `|dict|` when there is none: the
      dictionary lookup `dict[x]`. */
  method FindKey(dict: seq<Entry>, x: string) returns (j: nat)
    ensures j <= |dict|
    ensures j < |dict| ==> dict[j].key == x
    ensures j == |dict| ==> forall k :: 0 <= k < |dict| ==> dict[k].key != x
  {
    j := 0;
    while j < |dict| && dict[j].key != x
      invariant j <= |dict|
      invariant forall k :: 0 <= k < j ==> dict[k].key != x
    {
      j := j + 1;
    }
  }

  /** Counts `labels` into a fresh dictionary, one label at a time. */
  method CountLabels(labels: seq<string>) returns (dict: seq<Entry>)
    ensures dict == Tallied(labels)
  {
    dict := [];
    for i := 0 to |labels|
      invariant dict == Tallied(labels[..i])
    {
      dict := CountOne(dict, labels[i], labels[..i]);
      assert labels[..i + 1] == labels[..i] + [labels[i]];
    }
    assert labels[..|labels|] == labels;
  }

  /** `dict[x] = dict.get(x, 0) + 1` on the tally of `seen`. */
  method CountOne(dict: seq<Entry>, x: string, ghost seen: seq<string>) returns (next: seq<Entry>)
    requires dict == Tallied(seen)
    ensures next == Tallied(seen + [x])
  {
    var j := FindKey(dict, x);
    if j < |dict| {
      TalliedSnocExisting(seen, x, j);
      next := dict[j := Entry(x, dict[j].count + 1)];
    } else {
      TalliedSnocNew(seen, x);
      next := dict + [Entry(x, 1)];
    }
  }

  /** Entries ordered by `rank` of their label, highest first. */
  predicate SortedByRank(t: seq<Entry>, rank: string -> int)
  {
    forall i, j :: 0 <= i < j < |t| ==> rank(t[i].key) >= rank(t[j].key)
  }

  /** Inserts `e` before the first entry whose rank is not above its own. */
  function InsertByRank(e: Entry, t: seq<Entry>, rank: string -> int): (r: seq<Entry>)
    requires SortedByRank(t, rank)
    ensures SortedByRank(r, rank)
    ensures multiset(r) == multiset(t) + multiset{e}
    ensures forall y :: y in r ==> y == e || y in t
    decreases |t|
  {
    if t == [] || rank(t[0].key) <= rank(e.key) then
      InsertInFront(e, t, rank);
      [e] + t
    else
      var rest := InsertByRank(e, t[1..], rank);
      assert t == [t[0]] + t[1..];
      InsertBehindHead(e, t, rest, rank);
      [t[0]] + rest
  }

  /** An entry ranked no lower than the head of a sorted sequence may go
      in front of it. */
  lemma InsertInFront(e: Entry, t: seq<Entry>, rank: string -> int)
    requires SortedByRank(t, rank) && (t == [] || rank(t[0].key) <= rank(e.key))
    ensures SortedByRank([e] + t, rank)
  {
    var r := [e] + t;
    forall i, j | 0 <= i < j < |r| ensures rank(r[i].key) >= rank(r[j].key) {
      assert r[j] == t[j - 1];
      if i > 0 {
        assert r[i] == t[i - 1];
      }
    }
  }

  /** The head of a sorted sequence may stay in front of a sorted sequence
      made of its other entries and an entry of lower rank. */
  lemma InsertBehindHead(e: Entry, t: seq<Entry>, rest: seq<Entry>, rank: string -> int)
    requires SortedByRank(t, rank) && t != [] && rank(t[0].key) > rank(e.key)
    requires SortedByRank(rest, rank)
    requires forall y :: y in rest ==> y == e || y in t[1..]
    ensures SortedByRank([t[0]] + rest, rank)
  {
    var r := [t[0]] + rest;
    forall i, j | 0 <= i < j < |r| ensures rank(r[i].key) >= rank(r[j].key) {
      if i == 0 {
        var y := rest[j - 1];
        assert y in rest;
        if y != e {
          var k :| 0 <= k < |t[1..]| && t[1..][k] == y;
          assert t[k + 1] == y;
        }
      } else {
        assert r[i] == rest[i - 1] && r[j] == rest[j - 1];
      }
    }
  }

  lemma {:induction false} InsertByRankTotal(e: Entry, t: seq<Entry>, rank: string -> int)
    requires SortedByRank(t, rank)
    ensures Total(InsertByRank(e, t, rank)) == Total(t) + e.count
    decreases |t|
  {
    TotalAppend([e], t);
    if !(t == [] || rank(t[0].key) <= rank(e.key)) {
      var rest := InsertByRank(e, t[1..], rank);
      assert t == [t[0]] + t[1..];
      InsertByRankTotal(e, t[1..], rank);
      TotalAppend([t[0]], t[1..]);
      TotalAppend([t[0]], rest);
    }
  }

  /** The entries of `t` sorted by rank, highest first; entries of equal rank
      keep their order (Python's `sorted(..., reverse=True)` and JavaScript's
      `Array.prototype.sort` with a rank comparator are both stable). */
  function SortByRank(t: seq<Entry>, rank: string -> int): (r: seq<Entry>)
    ensures SortedByRank(r, rank)
    ensures multiset(r) == multiset(t)
    decreases |t|
  {
    if t == [] then []
    else
      assert t == [t[0]] + t[1..];
      InsertByRank(t[0], SortByRank(t[1..], rank), rank)
  }

  /** Sorting does not change the sum of the counts. */
  lemma {:induction false} SortByRankTotal(t: seq<Entry>, rank: string -> int)
    ensures Total(SortByRank(t, rank)) == Total(t)
    decreases |t|
  {
    if t != [] {
      assert t == [t[0]] + t[1..];
      SortByRankTotal(t[1..], rank);
      InsertByRankTotal(t[0], SortByRank(t[1..], rank), rank);
      TotalAppend([t[0]], t[1..]);
    }
  }

  /** The entries of `t` whose label has rank `v`, in their order in `t`. */
  function OfRank(t: seq<Entry>, rank: string -> int, v: int): seq<Entry>
    decreases |t|
  {
    if t == [] then []
    else (if rank(t[0].key) == v then [t[0]] else []) + OfRank(t[1..], rank, v)
  }

  /** Inserting `e` puts it ahead of every entry of the same rank. */
  lemma {:induction false} InsertByRankOfRank(e: Entry, t: seq<Entry>, rank: string -> int, v: int)
    requires SortedByRank(t, rank)
    ensures OfRank(InsertByRank(e, t, rank), rank, v) == (if rank(e.key) == v then [e] else []) + OfRank(t, rank, v)
    decreases |t|
  {
    var r := InsertByRank(e, t, rank);
    if t == [] || rank(t[0].key) <= rank(e.key) {
      assert r == [e] + t;
      assert r[0] == e && r[1..] == t;
    } else {
      var rest := InsertByRank(e, t[1..], rank);
      assert r == [t[0]] + rest;
      assert r[0] == t[0] && r[1..] == rest;
      InsertByRankOfRank(e, t[1..], rank, v);
      assert !(rank(t[0].key) == v && rank(e.key) == v);
    }
  }

  /** `SortByRank` is stable: the entries of any one rank come out in the
      order they went in. With `SortedByRank` and the permutation this pins
      the result down completely. */
  lemma {:induction false} SortByRankStable(t: seq<Entry>, rank: string -> int, v: int)
    ensures OfRank(SortByRank(t, rank), rank, v) == OfRank(t, rank, v)
    decreases |t|
  {
    if t != [] {
      SortByRankStable(t[1..], rank, v);
      InsertByRankOfRank(t[0], SortByRank(t[1..], rank), rank, v);
    }
  }
}
