/** The order an ORDER BY clause imposes. Every sortable column value is
    mapped to a sequence of integers, compared lexicographically; rows are
    sorted by their key, ascending or descending. */
module Ordering {
  import opened Common

  /** Lexicographic order on integer sequences; a prefix comes first. */
  predicate LexLe(x: seq<int>, y: seq<int>)
  {
    x == [] || (y != [] && (x[0] < y[0] || (x[0] == y[0] && LexLe(x[1..], y[1..]))))
  }

  lemma {:induction false} LexLeTotal(x: seq<int>, y: seq<int>)
    ensures LexLe(x, y) || LexLe(y, x)
  {
    if x != [] && y != [] && x[0] == y[0] {
      LexLeTotal(x[1..], y[1..]);
    }
  }

  lemma {:induction false} LexLeTransitive(x: seq<int>, y: seq<int>, z: seq<int>)
    requires LexLe(x, y) && LexLe(y, z)
    ensures LexLe(x, z)
  {
    if x != [] && x[0] == y[0] && y[0] == z[0] {
      LexLeTransitive(x[1..], y[1..], z[1..]);
    }
  }

  /** a may stand before b in a listing ordered by key, ascending or
      descending. */
  predicate Precedes(key: Id -> seq<int>, desc: bool, a: Id, b: Id)
  {
    if desc then LexLe(key(b), key(a)) else LexLe(key(a), key(b))
  }

  predicate SortedBy(s: seq<Id>, key: Id -> seq<int>, desc: bool)
  {
    forall i, j :: 0 <= i < j < |s| ==> Precedes(key, desc, s[i], s[j])
  }

  lemma PrecedesTotal(key: Id -> seq<int>, desc: bool, a: Id, b: Id)
    ensures Precedes(key, desc, a, b) || Precedes(key, desc, b, a)
  {
    LexLeTotal(key(a), key(b));
  }

  lemma PrecedesTransitive(key: Id -> seq<int>, desc: bool, a: Id, b: Id, c: Id)
    requires Precedes(key, desc, a, b) && Precedes(key, desc, b, c)
    ensures Precedes(key, desc, a, c)
  {
    if desc {
      LexLeTransitive(key(c), key(b), key(a));
    } else {
      LexLeTransitive(key(a), key(b), key(c));
    }
  }

  /** Insert x into a sorted sequence, before the first element it may precede. */
  function Insert(x: Id, s: seq<Id>, key: Id -> seq<int>, desc: bool): (r: seq<Id>)
    requires SortedBy(s, key, desc)
    ensures multiset(r) == multiset(s) + multiset{x}
    ensures SortedBy(r, key, desc)
  {
    if s == [] then [x]
    else if Precedes(key, desc, x, s[0]) then
      PrecedesSorted(x, s, key, desc);
      ConsSorted(x, s, key, desc);
      assert s == [s[0]] + s[1..];
      [x] + s
    else
      PrecedesTotal(key, desc, x, s[0]);
      var t := Insert(x, s[1..], key, desc);
      HeadPrecedesInserted(x, s, t, key, desc);
      ConsSorted(s[0], t, key, desc);
      assert s == [s[0]] + s[1..];
      [s[0]] + t
  }

  /** An element that may precede the head of a sorted sequence may
      precede all of it. */
  lemma PrecedesSorted(x: Id, s: seq<Id>, key: Id -> seq<int>, desc: bool)
    requires SortedBy(s, key, desc) && s != [] && Precedes(key, desc, x, s[0])
    ensures forall j :: 0 <= j < |s| ==> Precedes(key, desc, x, s[j])
  {
    forall j | 0 < j < |s| ensures Precedes(key, desc, x, s[j]) {
      PrecedesTransitive(key, desc, x, s[0], s[j]);
    }
  }

  /** The head of a sorted sequence precedes every element of the tail
      with x inserted, when it precedes x. */
  lemma HeadPrecedesInserted(x: Id, s: seq<Id>, t: seq<Id>, key: Id -> seq<int>, desc: bool)
    requires SortedBy(s, key, desc) && s != [] && Precedes(key, desc, s[0], x)
    requires multiset(t) == multiset(s[1..]) + multiset{x}
    ensures forall j :: 0 <= j < |t| ==> Precedes(key, desc, s[0], t[j])
  {
    forall j | 0 <= j < |t| ensures Precedes(key, desc, s[0], t[j]) {
      assert t[j] in multiset(t);
      if t[j] != x {
        assert t[j] in multiset(s[1..]);
        var k :| 0 <= k < |s[1..]| && s[1..][k] == t[j];
        assert s[k + 1] == t[j];
      }
    }
  }

  /** A sorted sequence stays sorted behind an element that precedes all
      of it. */
  lemma ConsSorted(x: Id, s: seq<Id>, key: Id -> seq<int>, desc: bool)
    requires SortedBy(s, key, desc)
    requires forall j :: 0 <= j < |s| ==> Precedes(key, desc, x, s[j])
    ensures SortedBy([x] + s, key, desc)
  {
    var r := [x] + s;
    forall i, j | 0 <= i < j < |r| ensures Precedes(key, desc, r[i], r[j]) {
      if i == 0 {
        assert r[j] == s[j - 1];
      } else {
        assert r[i] == s[i - 1] && r[j] == s[j - 1];
      }
    }
  }

  /** Insertion sort: a sorted permutation of its input. */
  function SortBy(s: seq<Id>, key: Id -> seq<int>, desc: bool): (r: seq<Id>)
    ensures multiset(r) == multiset(s)
    ensures SortedBy(r, key, desc)
  {
    if s == [] then []
    else
      assert s == [s[0]] + s[1..];
      Insert(s[0], SortBy(s[1..], key, desc), key, desc)
  }
}
