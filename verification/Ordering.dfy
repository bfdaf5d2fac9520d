/**
 The row order of both queues: `ORDER BY CreatedAt ASC, CommandId ASC`.
 Ids are text compared byte by byte; a row is addressed by its (CreatedAt, CommandId) key.
 */
module Ordering {

  datatype Option<+T> = None | Some(value: T)

  predicate TextLt(a: string, b: string) {
    if a == [] || b == [] then a == [] && b != []
    else a[0] < b[0] || (a[0] == b[0] && TextLt(a[1..], b[1..]))
  }

  datatype Key = Key(createdAt: int, id: string)

  predicate Lt(a: Key, b: Key) {
    a.createdAt < b.createdAt || (a.createdAt == b.createdAt && TextLt(a.id, b.id))
  }

  predicate Increasing(s: seq<Key>) {
    forall i, j | 0 <= i < j < |s| :: Lt(s[i], s[j])
  }

  lemma {:induction false} TextLtTotal(a: string, b: string)
    ensures TextLt(a, b) || a == b || TextLt(b, a)
    ensures TextLt(a, b) ==> a != b && !TextLt(b, a)
  {
    if a != [] && b != [] && a[0] == b[0] {
      TextLtTotal(a[1..], b[1..]);
      assert a == [a[0]] + a[1..] && b == [b[0]] + b[1..];
    }
  }

  lemma {:induction false} TextLtTransitive(a: string, b: string, c: string)
    requires TextLt(a, b) && TextLt(b, c)
    ensures TextLt(a, c)
  {
    if a != [] && b != [] && c != [] && a[0] == b[0] && b[0] == c[0] {
      TextLtTransitive(a[1..], b[1..], c[1..]);
    }
  }

  lemma LtTotal(a: Key, b: Key)
    ensures Lt(a, b) || a == b || Lt(b, a)
    ensures Lt(a, b) ==> a != b && !Lt(b, a)
  {
    TextLtTotal(a.id, b.id);
  }

  lemma LtTransitive(a: Key, b: Key, c: Key)
    requires Lt(a, b) && Lt(b, c)
    ensures Lt(a, c)
  {
    if a.createdAt == b.createdAt == c.createdAt {
      TextLtTransitive(a.id, b.id, c.id);
    }
  }

  /** Where two texts part: one ends there, or has the smaller character. */
  predicate PartsAt(a: string, b: string, i: nat) {
    && i <= |a| && i <= |b| && a[..i] == b[..i]
    && (if i < |a| && i < |b| then a[i] < b[i] else i == |a| < |b|)
  }

  /** What the text order means: decided by the first character in which the texts differ. */
  lemma {:induction false} TextLtIff(a: string, b: string)
    ensures TextLt(a, b) <==> exists i :: PartsAt(a, b, i)
  {
    if a == [] || b == [] {
      assert PartsAt(a, b, 0) <==> a == [] && b != [];
    } else if a[0] != b[0] {
      assert PartsAt(a, b, 0) <==> a[0] < b[0];
      forall i: nat | i > 0 ensures !PartsAt(a, b, i) {
        if i <= |a| && i <= |b| { assert a[..i][0] == a[0] && b[..i][0] == b[0]; }
      }
    } else {
      TextLtIff(a[1..], b[1..]);
      forall i: nat ensures PartsAt(a, b, i + 1) <==> PartsAt(a[1..], b[1..], i) {
        PartsTail(a, b, i);
      }
      if i: nat :| PartsAt(a[1..], b[1..], i) { assert PartsAt(a, b, i + 1); }
      if i: nat :| PartsAt(a, b, i) {
        assert i > 0;
        PartsTail(a, b, i - 1);
        assert PartsAt(a[1..], b[1..], i - 1);
      }
    }
  }

  lemma PartsTail(a: string, b: string, i: nat)
    requires a != [] && b != [] && a[0] == b[0]
    ensures PartsAt(a, b, i + 1) <==> PartsAt(a[1..], b[1..], i)
  {
    if i < |a| && i < |b| {
      assert a[..i + 1] == [a[0]] + a[1..][..i] && b[..i + 1] == [b[0]] + b[1..][..i];
      assert a[..i + 1][1..] == a[1..][..i] && b[..i + 1][1..] == b[1..][..i];
    }
  }

  ghost predicate IsLeast(k: Key, s: set<Key>) {
    k in s && forall j | j in s && j != k :: Lt(k, j)
  }

  lemma LeastUnique(k: Key, j: Key, s: set<Key>)
    requires IsLeast(k, s) && IsLeast(j, s)
    ensures k == j
  {
    LtTotal(k, j);
  }

  /** Selects the first row of the order, as `ORDER BY ... LIMIT 1` does. */
  method FindLeast(s: set<Key>) returns (k: Key)
    requires s != {}
    ensures IsLeast(k, s)
  {
    k :| k in s;
    var rest := s - {k};
    while rest != {}
      invariant rest <= s && k in s && k !in rest
      invariant forall j | j in s && j !in rest && j != k :: Lt(k, j)
      decreases |rest|
    {
      var j :| j in rest;
      LtTotal(k, j);
      if Lt(j, k) {
        forall i | i in s && i !in rest && i != k ensures Lt(j, i) {
          LtTransitive(j, k, i);
        }
        k := j;
      }
      rest := rest - {j};
    }
  }

  lemma LeastExists(s: set<Key>)
    requires s != {}
    ensures exists k :: IsLeast(k, s)
  {
    var k :| k in s;
    var rest := s - {k};
    if rest == {} {
      assert s == {k};
      assert IsLeast(k, s);
    } else {
      LeastExists(rest);
      var m :| IsLeast(m, rest);
      LtTotal(k, m);
      if Lt(k, m) {
        forall j | j in s && j != k ensures Lt(k, j) {
          if j != m { LtTransitive(k, m, j); }
        }
        assert IsLeast(k, s);
      } else {
        assert IsLeast(m, s);
      }
    }
  }

  ghost function Least(s: set<Key>): (k: Key)
    requires s != {}
    ensures IsLeast(k, s)
  {
    LeastExists(s);
    var k :| IsLeast(k, s);
    k
  }

  /** The whole table in row order. */
  ghost function Sorted(s: set<Key>): seq<Key> {
    if s == {} then [] else
      var k := Least(s);
      [k] + Sorted(s - {k})
  }

  lemma SortedCons(k: Key, s: set<Key>)
    requires IsLeast(k, s)
    ensures Sorted(s) == [k] + Sorted(s - {k})
  {
    LeastUnique(k, Least(s), s);
  }

  /** The listing holds exactly the rows, in increasing order. */
  lemma {:induction false} SortedLists(s: set<Key>)
    ensures Increasing(Sorted(s))
    ensures forall k :: k in Sorted(s) <==> k in s
    ensures |Sorted(s)| == |s|
  {
    if s != {} {
      var k := Least(s);
      SortedLists(s - {k});
    }
  }

  /** Oldest first; rows of the same time by their ids. */
  lemma SortedOldestFirst(s: set<Key>, i: nat, j: nat)
    requires i < j < |Sorted(s)|
    ensures var a, b := Sorted(s)[i], Sorted(s)[j];
            a.createdAt < b.createdAt || (a.createdAt == b.createdAt && exists n :: PartsAt(a.id, b.id, n))
  {
    SortedLists(s);
    TextLtIff(Sorted(s)[i].id, Sorted(s)[j].id);
  }

  /** A row order leaves no freedom: an increasing listing is determined by its rows. */
  lemma {:induction false} IncreasingUnique(a: seq<Key>, s: set<Key>)
    requires Increasing(a)
    requires forall k :: k in a <==> k in s
    ensures a == Sorted(s)
    decreases |a|
  {
    if a == [] {
      assert s == {};
    } else {
      var k, t := a[0], a[1..];
      assert a == [k] + t;
      assert k !in t by { if k in t { LtTotal(k, k); } }
      assert IsLeast(k, s);
      assert Increasing(t);
      IncreasingUnique(t, s - {k});
      SortedCons(k, s);
    }
  }

  /** Builds the listing one row at a time, as a query loop appending to a slice does. */
  method List(s: set<Key>) returns (r: seq<Key>)
    ensures r == Sorted(s)
  {
    r := [];
    var rest := s;
    while rest != {}
      invariant r + Sorted(rest) == Sorted(s)
      decreases |rest|
    {
      var k := FindLeast(rest);
      SortedCons(k, rest);
      assert r + ([k] + Sorted(rest - {k})) == (r + [k]) + Sorted(rest - {k});
      r, rest := r + [k], rest - {k};
    }
  }

  // ---- Sub-sequences ----

  /** `a` can be obtained from `b` by dropping elements. */
  predicate Subsequence<T(==)>(a: seq<T>, b: seq<T>) {
    if a == [] then true
    else if b == [] then false
    else if a[0] == b[0] && Subsequence(a[1..], b[1..]) then true
    else Subsequence(a, b[1..])
  }

  lemma {:induction false} SubsequenceMember<T>(a: seq<T>, b: seq<T>, x: T)
    requires Subsequence(a, b) && x in a
    ensures x in b
    decreases |b|
  {
    if a[0] == b[0] && Subsequence(a[1..], b[1..]) {
      if x != a[0] { SubsequenceMember(a[1..], b[1..], x); }
    } else {
      SubsequenceMember(a, b[1..], x);
    }
  }

  /** Offering one more element: it is either kept by both or dropped by the smaller. */
  lemma {:induction false} SubsequenceAppend<T>(a: seq<T>, b: seq<T>, x: T)
    requires Subsequence(a, b)
    ensures Subsequence(a + [x], b + [x])
    ensures Subsequence(a, b + [x])
    decreases |b|
  {
    if a == [] {
      if b == [] {
      } else {
        SubsequenceAppend(a, b[1..], x);
        assert (b + [x])[1..] == b[1..] + [x];
      }
    } else {
      assert (b + [x])[1..] == b[1..] + [x];
      if a[0] == b[0] && Subsequence(a[1..], b[1..]) {
        SubsequenceAppend(a[1..], b[1..], x);
        assert (a + [x])[1..] == a[1..] + [x];
      } else {
        SubsequenceAppend(a, b[1..], x);
      }
    }
  }

  lemma {:induction false} SubsequenceOfLonger<T>(a: seq<T>, b: seq<T>, front: seq<T>)
    requires Subsequence(a, b)
    ensures Subsequence(a, front + b)
    decreases |front|
  {
    if front == [] {
      assert front + b == b;
    } else {
      SubsequenceOfLonger(a, b, front[1..]);
      assert (front + b)[1..] == front[1..] + b;
    }
  }

  lemma {:induction false} SubsequenceIncreasing(a: seq<Key>, b: seq<Key>)
    requires Subsequence(a, b) && Increasing(b)
    ensures Increasing(a)
    decreases |b|
  {
    if a != [] {
      if a[0] == b[0] && Subsequence(a[1..], b[1..]) {
        SubsequenceIncreasing(a[1..], b[1..]);
        forall j | 0 < j < |a| ensures Lt(a[0], a[j]) {
          assert a[1..][j - 1] == a[j];
          SubsequenceMember(a[1..], b[1..], a[j]);
        }
        forall i, j | 0 <= i < j < |a| ensures Lt(a[i], a[j]) {
          if i > 0 { assert a[1..][i - 1] == a[i] && a[1..][j - 1] == a[j]; }
        }
      } else {
        SubsequenceIncreasing(a, b[1..]);
      }
    }
  }
}
