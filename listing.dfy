/** Orderings the store's queries promise: newest first (by id, since ids
    grow with creation time), natural order (oldest first), and ascending
    by name under the store's binary string comparison. */
module Listing {
  import opened Common

  predicate StrictlyDescending(r: seq<Id>)
  {
    forall i, j :: 0 <= i < j < |r| ==> r[i] > r[j]
  }

  predicate StrictlyAscending(r: seq<Id>)
  {
    forall i, j :: 0 <= i < j < |r| ==> r[i] < r[j]
  }

  /** The keys of `ks` below `n`, newest first. */
  function NewestFirst(ks: set<Id>, n: nat): (r: seq<Id>)
    ensures forall i :: 0 <= i < |r| ==> r[i] in ks && r[i] < n
    ensures forall k :: k in ks && k < n ==> k in r
    ensures StrictlyDescending(r)
  {
    if n == 0 then []
    else (if n - 1 in ks then [n - 1] else []) + NewestFirst(ks, n - 1)
  }

  /** The keys of `ks` below `n`, oldest first. */
  function OldestFirst(ks: set<Id>, n: nat): (r: seq<Id>)
    ensures forall i :: 0 <= i < |r| ==> r[i] in ks && r[i] < n
    ensures forall k :: k in ks && k < n ==> k in r
    ensures StrictlyAscending(r)
  {
    if n == 0 then []
    else OldestFirst(ks, n - 1) + (if n - 1 in ks then [n - 1] else [])
  }

  /** Binary (code point by code point) comparison of strings: `a` sorts no later than `b`. */
  predicate LexLe(a: string, b: string)
  {
    a == [] || (b != [] && (a[0] < b[0] || (a[0] == b[0] && LexLe(a[1..], b[1..]))))
  }

  lemma {:induction false} LexLeTotal(a: string, b: string)
    ensures LexLe(a, b) || LexLe(b, a)
  {
    if a != [] && b != [] && a[0] == b[0] {
      LexLeTotal(a[1..], b[1..]);
    }
  }

  lemma {:induction false} LexLeTransitive(a: string, b: string, c: string)
    requires LexLe(a, b) && LexLe(b, c)
    ensures LexLe(a, c)
  {
    if a != [] && b != [] && c != [] && a[0] == b[0] && b[0] == c[0] {
      LexLeTransitive(a[1..], b[1..], c[1..]);
    }
  }

  /** A listing entry: its sort key and the document it names. */
  datatype Entry = Entry(key: string, id: Id)

  predicate SortedByKey(r: seq<Entry>)
  {
    forall i, j :: 0 <= i < j < |r| ==> LexLe(r[i].key, r[j].key)
  }

  /** Puts `x` before the first entry whose key it does not exceed. */
  function Insert(x: Entry, r: seq<Entry>): (o: seq<Entry>)
    ensures multiset(o) == multiset(r) + multiset{x}
    ensures forall e :: e in o <==> e == x || e in r
  {
    if r == [] then [x]
    else if LexLe(x.key, r[0].key) then [x] + r
    else
      assert r == [r[0]] + r[1..];
      [r[0]] + Insert(x, r[1..])
  }

  lemma {:induction false} InsertSorted(x: Entry, r: seq<Entry>)
    requires SortedByKey(r)
    ensures SortedByKey(Insert(x, r))
  {
    if r == [] {
    } else if LexLe(x.key, r[0].key) {
      forall j | 0 <= j < |r| ensures LexLe(x.key, r[j].key) {
        if j > 0 {
          LexLeTransitive(x.key, r[0].key, r[j].key);
        }
      }
    } else {
      LexLeTotal(x.key, r[0].key);
      InsertSorted(x, r[1..]);
      var tail := Insert(x, r[1..]);
      forall j | 0 <= j < |tail| ensures LexLe(r[0].key, tail[j].key) {
        assert tail[j] in tail;
        if tail[j] != x {
          var m :| 0 <= m < |r[1..]| && r[1..][m] == tail[j];
          assert r[m + 1] == tail[j];
        }
      }
      var o := [r[0]] + tail;
      forall i, j | 0 <= i < j < |o| ensures LexLe(o[i].key, o[j].key) {
        if i == 0 {
          assert o[j] == tail[j - 1];
        } else {
          assert o[i] == tail[i - 1] && o[j] == tail[j - 1];
        }
      }
    }
  }

  /** Insertion sort: ascending by key and a permutation of the input. */
  function SortByKey(xs: seq<Entry>): (r: seq<Entry>)
    ensures SortedByKey(r)
    ensures multiset(r) == multiset(xs)
    ensures |r| == |xs|
  {
    if xs == [] then []
    else
      var rest := SortByKey(xs[1..]);
      assert xs == [xs[0]] + xs[1..];
      InsertSorted(xs[0], rest);
      Insert(xs[0], rest)
  }

  /** No two entries name the same document. */
  predicate DistinctIds(r: seq<Entry>)
  {
    forall i, j :: 0 <= i < j < |r| ==> r[i].id != r[j].id
  }

  lemma {:induction false} InsertDistinct(x: Entry, r: seq<Entry>)
    requires DistinctIds(r) && forall e :: e in r ==> e.id != x.id
    ensures DistinctIds(Insert(x, r))
  {
    if r != [] && !LexLe(x.key, r[0].key) {
      assert r[0] in r;
      forall e | e in r[1..] ensures e.id != x.id {
        assert e in r;
      }
      InsertDistinct(x, r[1..]);
      var tail := Insert(x, r[1..]);
      forall j | 0 <= j < |tail| ensures tail[j].id != r[0].id {
        assert tail[j] in tail;
        if tail[j] != x {
          var m :| 0 <= m < |r[1..]| && r[1..][m] == tail[j];
          assert r[m + 1] == tail[j];
        }
      }
      var o := [r[0]] + tail;
      forall i, j | 0 <= i < j < |o| ensures o[i].id != o[j].id {
        if i == 0 {
          assert o[j] == tail[j - 1];
        } else {
          assert o[i] == tail[i - 1] && o[j] == tail[j - 1];
        }
      }
    } else if r != [] {
      forall j | 0 <= j < |r| ensures r[j].id != x.id {
        assert r[j] in r;
      }
    }
  }

  /** Sorting entries that name distinct documents keeps them distinct, so
      no document is listed twice. */
  lemma {:induction false} SortKeepsDistinct(xs: seq<Entry>)
    requires DistinctIds(xs)
    ensures DistinctIds(SortByKey(xs))
  {
    if xs != [] {
      var tail := xs[1..];
      assert DistinctIds(tail) by {
        forall i, j | 0 <= i < j < |tail| ensures tail[i].id != tail[j].id {
          assert tail[i] == xs[i + 1] && tail[j] == xs[j + 1];
        }
      }
      SortKeepsDistinct(tail);
      var rest := SortByKey(tail);
      SortKeeps(tail);
      forall e | e in rest ensures e.id != xs[0].id {
        assert e in tail;
        var m :| 0 <= m < |tail| && tail[m] == e;
        assert xs[m + 1] == e;
      }
      InsertDistinct(xs[0], rest);
    }
  }

  /** Sorting neither drops nor invents an entry. */
  lemma SortKeeps(xs: seq<Entry>)
    ensures forall e :: e in SortByKey(xs) <==> e in xs
  {
    var r := SortByKey(xs);
    forall e
      ensures e in r <==> e in xs
    {
      assert e in r <==> e in multiset(r);
      assert e in xs <==> e in multiset(xs);
    }
  }

  /** A listing as the JSON array of the documents it names. */
  function Refs(ids: seq<Id>): (v: Val)
    ensures v.Arr? && |v.items| == |ids|
    ensures forall i :: 0 <= i < |ids| ==> v.items[i] == Ref(ids[i])
  {
    Arr(seq(|ids|, i requires 0 <= i < |ids| => Ref(ids[i])))
  }

  function Ids(r: seq<Entry>): (ids: seq<Id>)
    ensures |ids| == |r| && forall i :: 0 <= i < |r| ==> ids[i] == r[i].id
  {
    seq(|r|, i requires 0 <= i < |r| => r[i].id)
  }

  /** Sorting lists the same documents. */
  lemma SortKeepsIds(es: seq<Entry>)
    ensures forall k :: k in Ids(SortByKey(es)) <==> k in Ids(es)
  {
    var r := SortByKey(es);
    SortKeeps(es);
    forall k
      ensures k in Ids(r) <==> k in Ids(es)
    {
      if k in Ids(r) {
        var i :| 0 <= i < |r| && Ids(r)[i] == k;
        assert r[i] in es;
        var j :| 0 <= j < |es| && es[j] == r[i];
        assert Ids(es)[j] == k;
      }
      if k in Ids(es) {
        var j :| 0 <= j < |es| && Ids(es)[j] == k;
        assert es[j] in r;
        var i :| 0 <= i < |r| && r[i] == es[j];
        assert Ids(r)[i] == k;
      }
    }
  }

  /** The documents of `m` as `(name, id)` entries in natural order, ready
      for a sort by name. */
  function NameEntries<T>(m: map<Id, T>, name: T -> string, n: nat): (es: seq<Entry>)
    ensures Ids(es) == OldestFirst(m.Keys, n)
    ensures forall i :: 0 <= i < |es| ==> es[i].id in m && es[i].key == name(m[es[i].id])
  {
    var ids := OldestFirst(m.Keys, n);
    seq(|ids|, i requires 0 <= i < |ids| => Entry(name(m[ids[i]]), ids[i]))
  }

  /** `find().sort({ name: 1 })`: ordered by name, every document named
      exactly once, each entry carrying its own document's name. */
  lemma SortedByName<T>(m: map<Id, T>, name: T -> string, n: nat)
    requires forall k :: k in m ==> k < n
    ensures SortedByKey(SortByKey(NameEntries(m, name, n)))
    ensures forall k :: k in m <==> k in Ids(SortByKey(NameEntries(m, name, n)))
    ensures DistinctIds(SortByKey(NameEntries(m, name, n)))
    ensures var r := SortByKey(NameEntries(m, name, n));
      forall i :: 0 <= i < |r| ==> r[i].id in m && r[i].key == name(m[r[i].id])
  {
    var es := NameEntries(m, name, n);
    var r := SortByKey(es);
    SortKeepsIds(es);
    SortKeeps(es);
    assert DistinctIds(es) by {
      forall i, j | 0 <= i < j < |es| ensures es[i].id != es[j].id {
        assert Ids(es)[i] == es[i].id && Ids(es)[j] == es[j].id;
      }
    }
    SortKeepsDistinct(es);
    forall i | 0 <= i < |r|
      ensures r[i].id in m && r[i].key == name(m[r[i].id])
    {
      assert r[i] in es;
      var j :| 0 <= j < |es| && es[j] == r[i];
    }
  }
}
