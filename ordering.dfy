/**
 * Multi-key ordering. Every sort key turns a row into a sequence of integers
 * (its sort key value); keys compare lexicographically, a descending key with
 * the comparison reversed, and the first key that tells two rows apart
 * decides. Rows are ordered by an insertion sort over that comparison.
 */
module Ordering {

  /** Lexicographic comparison of integer sequences: -1, 0 or 1. */
  function CmpInts(a: seq<int>, b: seq<int>): (c: int)
    ensures -1 <= c <= 1
  {
    if a == [] && b == [] then 0
    else if a == [] then -1
    else if b == [] then 1
    else if a[0] < b[0] then -1
    else if a[0] > b[0] then 1
    else CmpInts(a[1..], b[1..])
  }

  lemma {:induction false} CmpIntsFlip(a: seq<int>, b: seq<int>)
    ensures CmpInts(a, b) == -CmpInts(b, a)
  {
    if a != [] && b != [] && a[0] == b[0] {
      CmpIntsFlip(a[1..], b[1..]);
    }
  }

  lemma {:induction false} CmpIntsZero(a: seq<int>, b: seq<int>)
    ensures CmpInts(a, b) == 0 <==> a == b
  {
    if a != [] && b != [] && a[0] == b[0] {
      CmpIntsZero(a[1..], b[1..]);
      assert a == [a[0]] + a[1..] && b == [b[0]] + b[1..];
    }
  }

  lemma {:induction false} CmpIntsTrans(a: seq<int>, b: seq<int>, c: seq<int>)
    requires CmpInts(a, b) <= 0 && CmpInts(b, c) <= 0
    ensures CmpInts(a, c) <= 0
  {
    if a != [] && b != [] && c != [] && a[0] == b[0] == c[0] {
      CmpIntsTrans(a[1..], b[1..], c[1..]);
    }
  }

  /** The first key of a key vector; a missing key reads as the empty sequence. */
  function Head(a: seq<seq<int>>): seq<int> {
    if a == [] then [] else a[0]
  }

  function Tail(a: seq<seq<int>>): seq<seq<int>> {
    if a == [] then [] else a[1..]
  }

  /**
   * Compare two rows' key vectors under the given directions (true = descending).
   * The first position whose keys differ decides.
   */
  function CmpKeys(desc: seq<bool>, a: seq<seq<int>>, b: seq<seq<int>>): (c: int)
    ensures -1 <= c <= 1
  {
    if desc == [] then 0
    else
      var c := CmpInts(Head(a), Head(b));
      if c != 0 then (if desc[0] then -c else c)
      else CmpKeys(desc[1..], Tail(a), Tail(b))
  }

  lemma {:induction false} CmpKeysFlip(desc: seq<bool>, a: seq<seq<int>>, b: seq<seq<int>>)
    ensures CmpKeys(desc, a, b) == -CmpKeys(desc, b, a)
  {
    if desc != [] {
      CmpIntsFlip(Head(a), Head(b));
      CmpKeysFlip(desc[1..], Tail(a), Tail(b));
    }
  }

  lemma {:induction false} CmpKeysTrans(desc: seq<bool>, a: seq<seq<int>>, b: seq<seq<int>>, c: seq<seq<int>>)
    requires CmpKeys(desc, a, b) <= 0 && CmpKeys(desc, b, c) <= 0
    ensures CmpKeys(desc, a, c) <= 0
  {
    if desc != [] {
      var a0, b0, c0 := Head(a), Head(b), Head(c);
      var x, y := CmpInts(a0, b0), CmpInts(b0, c0);
      CmpIntsZero(a0, b0);
      CmpIntsZero(b0, c0);
      CmpIntsZero(a0, c0);
      CmpIntsFlip(a0, b0);
      CmpIntsFlip(b0, c0);
      CmpIntsFlip(a0, c0);
      if x == 0 && y == 0 {
        CmpKeysTrans(desc[1..], Tail(a), Tail(b), Tail(c));
      } else if x != 0 && y != 0 {
        if desc[0] {
          CmpIntsTrans(c0, b0, a0);
        } else {
          CmpIntsTrans(a0, b0, c0);
        }
      }
    }
  }

  /** Insert x before the first element it does not sort after. */
  function Insert<T>(key: T -> seq<seq<int>>, desc: seq<bool>, x: T, s: seq<T>): (r: seq<T>)
    ensures |r| == |s| + 1
    ensures multiset(r) == multiset(s) + multiset{x}
  {
    if s == [] then [x]
    else if CmpKeys(desc, key(x), key(s[0])) <= 0 then [x] + s
    else
      assert s == [s[0]] + s[1..];
      [s[0]] + Insert(key, desc, x, s[1..])
  }

  function Sort<T>(key: T -> seq<seq<int>>, desc: seq<bool>, s: seq<T>): (r: seq<T>)
    ensures multiset(r) == multiset(s)
  {
    if s == [] then []
    else
      assert s == [s[0]] + s[1..];
      Insert(key, desc, s[0], Sort(key, desc, s[1..]))
  }

  /** Every earlier element sorts no later than every later element. */
  ghost predicate Sorted<T>(key: T -> seq<seq<int>>, desc: seq<bool>, s: seq<T>) {
    forall i, j :: 0 <= i < j < |s| ==> CmpKeys(desc, key(s[i]), key(s[j])) <= 0
  }

  lemma {:induction false} InsertSorted<T>(key: T -> seq<seq<int>>, desc: seq<bool>, x: T, s: seq<T>)
    requires Sorted(key, desc, s)
    ensures Sorted(key, desc, Insert(key, desc, x, s))
  {
    if s == [] {
    } else if CmpKeys(desc, key(x), key(s[0])) <= 0 {
      var r := [x] + s;
      forall i, j | 0 <= i < j < |r| ensures CmpKeys(desc, key(r[i]), key(r[j])) <= 0 {
        if i == 0 && j > 1 {
          CmpKeysTrans(desc, key(x), key(s[0]), key(s[j - 1]));
        }
      }
    } else {
      CmpKeysFlip(desc, key(x), key(s[0]));
      var rest := Insert(key, desc, x, s[1..]);
      InsertSorted(key, desc, x, s[1..]);
      var r := [s[0]] + rest;
      forall i, j | 0 <= i < j < |r| ensures CmpKeys(desc, key(r[i]), key(r[j])) <= 0 {
        if i == 0 {
          assert r[j] in multiset(rest);
          assert r[j] == x || r[j] in multiset(s[1..]);
          if r[j] != x {
            var k :| 0 <= k < |s[1..]| && s[1..][k] == r[j];
            assert s[k + 1] == r[j];
          }
        }
      }
    }
  }

  /** The insertion sort orders its input. */
  lemma {:induction false} SortSorted<T>(key: T -> seq<seq<int>>, desc: seq<bool>, s: seq<T>)
    ensures Sorted(key, desc, Sort(key, desc, s))
  {
    if s != [] {
      SortSorted(key, desc, s[1..]);
      InsertSorted(key, desc, s[0], Sort(key, desc, s[1..]));
    }
  }
}
