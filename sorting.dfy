/**
 * Python's `list.sort(key=..., reverse=...)` and `sorted(..., key=...)`:
 * a stable sort by a key, ascending or descending. Keys are integers
 * (sizes, modification times) or strings, compared as Python compares
 * `str` values: code point by code point.
 */
module Sorting {

  datatype Key = IntKey(i: int) | StrKey(s: string)

  /** Python's `a < b` on `str`. */
  predicate LexLess(a: string, b: string)
    decreases |a|
  {
    if a == [] then b != []
    else if b == [] then false
    else a[0] < b[0] || (a[0] == b[0] && LexLess(a[1..], b[1..]))
  }

  /** Integers and strings never share one sort; putting integers first keeps the order total. */
  predicate KeyLess(a: Key, b: Key)
  {
    match (a, b)
    case (IntKey(x), IntKey(y)) => x < y
    case (StrKey(x), StrKey(y)) => LexLess(x, y)
    case (IntKey(_), StrKey(_)) => true
    case (StrKey(_), IntKey(_)) => false
  }

  lemma {:induction false} LexLessIrreflexive(a: string)
    ensures !LexLess(a, a)
    decreases |a|
  {
    if a != [] {
      LexLessIrreflexive(a[1..]);
    }
  }

  lemma {:induction false} LexLessTransitive(a: string, b: string, c: string)
    requires LexLess(a, b) && LexLess(b, c)
    ensures LexLess(a, c)
    decreases |a|
  {
    if a != [] && b != [] && c != [] && a[0] == b[0] && b[0] == c[0] {
      LexLessTransitive(a[1..], b[1..], c[1..]);
    }
  }

  lemma {:induction false} LexLessTotal(a: string, b: string)
    ensures a == b || LexLess(a, b) || LexLess(b, a)
    decreases |a|
  {
    if a != [] && b != [] && a[0] == b[0] {
      LexLessTotal(a[1..], b[1..]);
      if a[1..] == b[1..] {
        assert a == [a[0]] + a[1..] && b == [b[0]] + b[1..];
      }
    }
  }

  lemma KeyLessIrreflexive(a: Key)
    ensures !KeyLess(a, a)
  {
    if a.StrKey? {
      LexLessIrreflexive(a.s);
    }
  }

  lemma KeyLessTransitive(a: Key, b: Key, c: Key)
    requires KeyLess(a, b) && KeyLess(b, c)
    ensures KeyLess(a, c)
  {
    if a.StrKey? && b.StrKey? && c.StrKey? {
      LexLessTransitive(a.s, b.s, c.s);
    }
  }

  lemma KeyLessTotal(a: Key, b: Key)
    ensures a == b || KeyLess(a, b) || KeyLess(b, a)
  {
    if a.StrKey? && b.StrKey? {
      LexLessTotal(a.s, b.s);
    }
  }

  /** "Not less" is transitive: `a <= b <= c` implies `a <= c`. */
  lemma KeyLeTransitive(a: Key, b: Key, c: Key)
    requires !KeyLess(b, a) && !KeyLess(c, b)
    ensures !KeyLess(c, a)
  {
    KeyLessTotal(a, b);
    KeyLessTotal(b, c);
    if a == b {
    } else if b == c {
    } else {
      KeyLessTransitive(a, b, c);
      if KeyLess(c, a) {
        KeyLessTransitive(c, a, c);
        KeyLessIrreflexive(c);
      }
    }
  }

  /** With `desc`, `a` must come before `b` when its key is larger (Python's `reverse=True`). */
  predicate Before<T>(key: T -> Key, desc: bool, a: T, b: T)
  {
    if desc then KeyLess(key(b), key(a)) else KeyLess(key(a), key(b))
  }

  /** No element is placed after one it must come before: keys non-decreasing, or non-increasing with `desc`. */
  predicate SortedBy<T>(s: seq<T>, key: T -> Key, desc: bool)
  {
    forall i, j :: 0 <= i < j < |s| ==> !Before(key, desc, s[j], s[i])
  }

  /** Puts `x` in front of the first element that need not come before it, so ties keep their input order. */
  function Insert<T>(x: T, t: seq<T>, key: T -> Key, desc: bool): seq<T>
  {
    if t == [] || !Before(key, desc, t[0], x) then [x] + t
    else [t[0]] + Insert(x, t[1..], key, desc)
  }

  /** The stable sort. */
  function SortBy<T>(s: seq<T>, key: T -> Key, desc: bool): seq<T>
  {
    if s == [] then [] else Insert(s[0], SortBy(s[1..], key, desc), key, desc)
  }

  lemma BeforeAsymmetric<T>(key: T -> Key, desc: bool, a: T, b: T)
    requires Before(key, desc, a, b)
    ensures !Before(key, desc, b, a)
  {
    if KeyLess(key(a), key(b)) && KeyLess(key(b), key(a)) {
      KeyLessTransitive(key(a), key(b), key(a));
      KeyLessIrreflexive(key(a));
    }
  }

  lemma NotBeforeTransitive<T>(key: T -> Key, desc: bool, a: T, b: T, c: T)
    requires !Before(key, desc, b, a) && !Before(key, desc, c, b)
    ensures !Before(key, desc, c, a)
  {
    if desc {
      KeyLeTransitive(key(c), key(b), key(a));
    } else {
      KeyLeTransitive(key(a), key(b), key(c));
    }
  }

  lemma {:induction false} InsertMultiset<T>(x: T, t: seq<T>, key: T -> Key, desc: bool)
    ensures multiset(Insert(x, t, key, desc)) == multiset(t) + multiset{x}
  {
    if t != [] && Before(key, desc, t[0], x) {
      InsertMultiset(x, t[1..], key, desc);
      assert t == [t[0]] + t[1..];
    }
  }

  lemma {:induction false} InsertSpec<T>(x: T, t: seq<T>, key: T -> Key, desc: bool)
    requires SortedBy(t, key, desc)
    ensures multiset(Insert(x, t, key, desc)) == multiset(t) + multiset{x}
    ensures SortedBy(Insert(x, t, key, desc), key, desc)
  {
    InsertMultiset(x, t, key, desc);
    var r := Insert(x, t, key, desc);
    if t == [] || !Before(key, desc, t[0], x) {
      forall i, j | 0 <= i < j < |r| ensures !Before(key, desc, r[j], r[i]) {
        if i == 0 && j > 1 {
          NotBeforeTransitive(key, desc, x, t[0], t[j - 1]);
        }
      }
    } else {
      var rest := Insert(x, t[1..], key, desc);
      assert SortedBy(t[1..], key, desc);
      InsertSpec(x, t[1..], key, desc);
      BeforeAsymmetric(key, desc, t[0], x);
      forall j | 0 <= j < |rest| ensures !Before(key, desc, rest[j], t[0]) {
        InsertMember(x, t[1..], key, desc, j);
      }
      assert r == [t[0]] + rest;
    }
  }

  /** Every element of the result is `x` or an element of `t`. */
  lemma {:induction false} InsertMember<T>(x: T, t: seq<T>, key: T -> Key, desc: bool, j: int)
    requires 0 <= j < |Insert(x, t, key, desc)|
    ensures Insert(x, t, key, desc)[j] == x || exists k :: 0 <= k < |t| && t[k] == Insert(x, t, key, desc)[j]
  {
    if t != [] && Before(key, desc, t[0], x) && j > 0 {
      InsertMember(x, t[1..], key, desc, j - 1);
      if Insert(x, t[1..], key, desc)[j - 1] != x {
        var k :| 0 <= k < |t[1..]| && t[1..][k] == Insert(x, t[1..], key, desc)[j - 1];
        assert t[k + 1] == t[1..][k];
      }
    } else if t != [] && !Before(key, desc, t[0], x) && j > 0 {
      assert t[j - 1] == Insert(x, t, key, desc)[j];
    }
  }

  /** The sort returns a permutation of its input, in key order. */
  lemma {:induction false} SortBySpec<T>(s: seq<T>, key: T -> Key, desc: bool)
    ensures multiset(SortBy(s, key, desc)) == multiset(s)
    ensures |SortBy(s, key, desc)| == |s|
    ensures SortedBy(SortBy(s, key, desc), key, desc)
  {
    var r := SortBy(s, key, desc);
    if s != [] {
      var rest := SortBy(s[1..], key, desc);
      SortBySpec(s[1..], key, desc);
      InsertSpec(s[0], rest, key, desc);
      assert r == Insert(s[0], rest, key, desc);
      assert multiset(s) == multiset(s[1..]) + multiset{s[0]} by {
        assert s == [s[0]] + s[1..];
      }
    }
    assert |r| == |multiset(r)|;
  }

  /** The elements of `s` whose key is `k`, in their order in `s`. */
  function WithKey<T>(s: seq<T>, key: T -> Key, k: Key): seq<T>
  {
    if s == [] then [] else (if key(s[0]) == k then [s[0]] else []) + WithKey(s[1..], key, k)
  }

  /** Inserting passes over only elements of a different key. */
  lemma {:induction false} InsertWithKey<T>(x: T, t: seq<T>, key: T -> Key, desc: bool, k: Key)
    ensures WithKey(Insert(x, t, key, desc), key, k) == (if key(x) == k then [x] else []) + WithKey(t, key, k)
  {
    var r := Insert(x, t, key, desc);
    if t != [] && Before(key, desc, t[0], x) {
      var rest := Insert(x, t[1..], key, desc);
      InsertWithKey(x, t[1..], key, desc, k);
      assert r == [t[0]] + rest;
      assert r[1..] == rest;
      KeyLessIrreflexive(key(x));
      assert key(t[0]) != key(x);
    } else {
      assert r == [x] + t;
      assert r[1..] == t;
    }
  }

  /**
   * The sort is stable: the elements of any one key keep their relative
   * order.
   */
  lemma {:induction false} SortByStable<T>(s: seq<T>, key: T -> Key, desc: bool, k: Key)
    ensures WithKey(SortBy(s, key, desc), key, k) == WithKey(s, key, k)
  {
    if s != [] {
      SortByStable(s[1..], key, desc, k);
      InsertWithKey(s[0], SortBy(s[1..], key, desc), key, desc, k);
    }
  }

}
