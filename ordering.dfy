/**
 * Python's ordering of strings and tuples, and its stable `sorted`/`list.sort`
 * (with `key=` and `reverse=`), specified as a stable insertion sort.
 */
module Ordering {

  /** Python's `a < b` on strings: lexicographic by code point. */
  predicate LexLess(a: string, b: string)
    decreases |a|
  {
    if a == [] then b != []
    else b != [] && (a[0] < b[0] || (a[0] == b[0] && LexLess(a[1..], b[1..])))
  }

  lemma {:induction false} LexLessIrreflexive(a: string)
    ensures !LexLess(a, a)
    decreases |a|
  {
    if a != [] {
      LexLessIrreflexive(a[1..]);
    }
  }

  lemma {:induction false} LexLessTransitive(a: string, b: string, c: string)
    requires LexLess(a, b) && LexLess(b, c)
    ensures LexLess(a, c)
    decreases |a|
  {
    if a != [] && a[0] == b[0] && b[0] == c[0] {
      LexLessTransitive(a[1..], b[1..], c[1..]);
    }
  }

  lemma {:induction false} LexLessTotal(a: string, b: string)
    ensures a == b || LexLess(a, b) || LexLess(b, a)
    decreases |a|
  {
    if a != [] && b != [] && a[0] == b[0] {
      LexLessTotal(a[1..], b[1..]);
      if a[1..] == b[1..] {
        assert a == [a[0]] + a[1..] && b == [b[0]] + b[1..];
      }
    }
  }

  /** One component of a sort key: a string or an integer (`len(line)`). */
  datatype Atom = Str(s: string) | Num(n: int)

  /** Python's `<` on key components. Keys never mix the two kinds; ordering
      integers before strings only makes the relation total. */
  predicate AtomLess(a: Atom, b: Atom) {
    match (a, b)
    case (Num(x), Num(y)) => x < y
    case (Str(x), Str(y)) => LexLess(x, y)
    case (Num(_), Str(_)) => true
    case (Str(_), Num(_)) => false
  }

  /** Python's `<` on tuples: lexicographic over the components. */
  predicate KeyLess(a: seq<Atom>, b: seq<Atom>)
    decreases |a|
  {
    if a == [] then b != []
    else b != [] && (AtomLess(a[0], b[0]) || (a[0] == b[0] && KeyLess(a[1..], b[1..])))
  }

  lemma AtomLessOrder(a: Atom, b: Atom, c: Atom)
    ensures !AtomLess(a, a)
    ensures AtomLess(a, b) && AtomLess(b, c) ==> AtomLess(a, c)
    ensures a == b || AtomLess(a, b) || AtomLess(b, a)
  {
    if a.Str? {
      LexLessIrreflexive(a.s);
      if b.Str? {
        LexLessTotal(a.s, b.s);
        if c.Str? && AtomLess(a, b) && AtomLess(b, c) {
          LexLessTransitive(a.s, b.s, c.s);
        }
      }
    }
  }

  lemma {:induction false} KeyLessIrreflexive(a: seq<Atom>)
    ensures !KeyLess(a, a)
    decreases |a|
  {
    if a != [] {
      AtomLessOrder(a[0], a[0], a[0]);
      KeyLessIrreflexive(a[1..]);
    }
  }

  lemma {:induction false} KeyLessTransitive(a: seq<Atom>, b: seq<Atom>, c: seq<Atom>)
    requires KeyLess(a, b) && KeyLess(b, c)
    ensures KeyLess(a, c)
    decreases |a|
  {
    if a != [] {
      AtomLessOrder(a[0], b[0], c[0]);
      if a[0] == b[0] && b[0] == c[0] {
        KeyLessTransitive(a[1..], b[1..], c[1..]);
      }
    }
  }

  lemma {:induction false} KeyLessTotal(a: seq<Atom>, b: seq<Atom>)
    ensures a == b || KeyLess(a, b) || KeyLess(b, a)
    decreases |a|
  {
    if a != [] && b != [] {
      AtomLessOrder(a[0], b[0], b[0]);
      if a[0] == b[0] {
        KeyLessTotal(a[1..], b[1..]);
        if a[1..] == b[1..] {
          assert a == [a[0]] + a[1..] && b == [b[0]] + b[1..];
        }
      }
    }
  }

  // ---------------------------------------------------------------------
  // Stable sorting by a key
  // ---------------------------------------------------------------------

  /** `x` must be placed strictly before `y`: its key is smaller (or larger,
      under `reverse=True`). */
  predicate Precedes<T>(key: T -> seq<Atom>, desc: bool, x: T, y: T) {
    if desc then KeyLess(key(y), key(x)) else KeyLess(key(x), key(y))
  }

  /** No element is placed after one that it must precede. */
  predicate SortedBy<T>(s: seq<T>, key: T -> seq<Atom>, desc: bool) {
    forall i, j :: 0 <= i < j < |s| ==> !Precedes(key, desc, s[j], s[i])
  }

  /** Inserts `x` in front of the first element it does not have to follow. */
  function Insert<T>(x: T, t: seq<T>, key: T -> seq<Atom>, desc: bool): (r: seq<T>)
    ensures multiset(r) == multiset(t) + multiset{x}
  {
    if t == [] then [x]
    else if Precedes(key, desc, t[0], x) then
      assert t == [t[0]] + t[1..];
      [t[0]] + Insert(x, t[1..], key, desc)
    else [x] + t
  }

  /** Python's `sorted(s, key=key, reverse=desc)`. */
  function SortBy<T>(s: seq<T>, key: T -> seq<Atom>, desc: bool): (r: seq<T>)
    ensures multiset(r) == multiset(s)
  {
    if s == [] then []
    else
      assert s == [s[0]] + s[1..];
      Insert(s[0], SortBy(s[1..], key, desc), key, desc)
  }

  lemma PrecedesAsymmetric<T>(key: T -> seq<Atom>, desc: bool, x: T, y: T)
    ensures !(Precedes(key, desc, x, y) && Precedes(key, desc, y, x))
  {
    if Precedes(key, desc, x, y) && Precedes(key, desc, y, x) {
      KeyLessTransitive(key(x), key(y), key(x));
      KeyLessIrreflexive(key(x));
    }
  }

  /** Not having to precede is transitive, because keys are totally ordered. */
  lemma NotPrecedesTransitive<T>(key: T -> seq<Atom>, desc: bool, x: T, y: T, z: T)
    requires !Precedes(key, desc, x, y) && !Precedes(key, desc, y, z)
    ensures !Precedes(key, desc, x, z)
  {
    KeyLessTotal(key(x), key(y));
    KeyLessTotal(key(y), key(z));
    if Precedes(key, desc, x, z) {
      if desc {
        if KeyLess(key(x), key(y)) {
          KeyLessTransitive(key(z), key(x), key(y));
        }
      } else {
        if KeyLess(key(y), key(x)) {
          KeyLessTransitive(key(y), key(x), key(z));
        }
      }
    }
  }

  lemma {:induction false} InsertSorted<T>(x: T, t: seq<T>, key: T -> seq<Atom>, desc: bool)
    requires SortedBy(t, key, desc)
    ensures SortedBy(Insert(x, t, key, desc), key, desc)
  {
    var r := Insert(x, t, key, desc);
    if t == [] {
    } else if Precedes(key, desc, t[0], x) {
      InsertSorted(x, t[1..], key, desc);
      var rest := Insert(x, t[1..], key, desc);
      assert r == [t[0]] + rest;
      forall j | 0 < j < |r|
        ensures !Precedes(key, desc, r[j], t[0])
      {
        assert r[j] in multiset(rest);
        if r[j] == x {
          PrecedesAsymmetric(key, desc, x, t[0]);
        } else {
          assert r[j] in multiset(t[1..]);
          var k :| 0 <= k < |t[1..]| && t[1..][k] == r[j];
          assert t[k + 1] == r[j];
        }
      }
    } else {
      forall j | 0 < j < |r|
        ensures !Precedes(key, desc, r[j], x)
      {
        assert r[j] == t[j - 1];
        if j == 1 {
          KeyLessIrreflexive(key(t[0]));
        }
        NotPrecedesTransitive(key, desc, r[j], t[0], x);
      }
    }
  }

  lemma {:induction false} SortSorted<T>(s: seq<T>, key: T -> seq<Atom>, desc: bool)
    ensures SortedBy(SortBy(s, key, desc), key, desc)
  {
    if s != [] {
      SortSorted(s[1..], key, desc);
      InsertSorted(s[0], SortBy(s[1..], key, desc), key, desc);
    }
  }

  /** The elements of `s` whose key is `k`, in order. */
  function WithKey<T>(s: seq<T>, key: T -> seq<Atom>, k: seq<Atom>): (r: seq<T>)
    ensures |r| <= |s|
    ensures forall x <- r :: x in s && key(x) == k
  {
    if s == [] then []
    else (if key(s[0]) == k then [s[0]] else []) + WithKey(s[1..], key, k)
  }

  lemma {:induction false} InsertWithKey<T>(x: T, t: seq<T>, key: T -> seq<Atom>, desc: bool, k: seq<Atom>)
    ensures WithKey(Insert(x, t, key, desc), key, k)
         == (if key(x) == k then [x] else []) + WithKey(t, key, k)
  {
    if t != [] && Precedes(key, desc, t[0], x) {
      InsertWithKey(x, t[1..], key, desc, k);
      KeyLessIrreflexive(key(x));
      InsertWithKeyStep(x, t, key, desc, k);
    } else if t != [] {
      WithKeyCons(x, t, key, k);
    }
  }

  lemma WithKeyCons<T>(a: T, r: seq<T>, key: T -> seq<Atom>, k: seq<Atom>)
    ensures WithKey([a] + r, key, k) == (if key(a) == k then [a] else []) + WithKey(r, key, k)
  {
    assert ([a] + r)[1..] == r;
  }

  /** Inserting behind a head that must precede `x`: the two keys differ, so
      at most one of them is `k`. */
  lemma InsertWithKeyStep<T>(x: T, t: seq<T>, key: T -> seq<Atom>, desc: bool, k: seq<Atom>)
    requires t != [] && Precedes(key, desc, t[0], x) && key(t[0]) != key(x)
    requires WithKey(Insert(x, t[1..], key, desc), key, k)
          == (if key(x) == k then [x] else []) + WithKey(t[1..], key, k)
    ensures WithKey(Insert(x, t, key, desc), key, k)
         == (if key(x) == k then [x] else []) + WithKey(t, key, k)
  {
    var a: seq<T> := if key(x) == k then [x] else [];
    var b: seq<T> := if key(t[0]) == k then [t[0]] else [];
    var w := WithKey(t[1..], key, k);
    InsertBehind(x, t, key, desc, k);
    HeadTail(t, key, k);
    SwapDisjoint(a, b, w);
  }

  lemma InsertBehind<T>(x: T, t: seq<T>, key: T -> seq<Atom>, desc: bool, k: seq<Atom>)
    requires t != [] && Precedes(key, desc, t[0], x)
    ensures WithKey(Insert(x, t, key, desc), key, k)
         == (if key(t[0]) == k then [t[0]] else []) + WithKey(Insert(x, t[1..], key, desc), key, k)
  {
    WithKeyCons(t[0], Insert(x, t[1..], key, desc), key, k);
  }

  lemma HeadTail<T>(t: seq<T>, key: T -> seq<Atom>, k: seq<Atom>)
    requires t != []
    ensures WithKey(t, key, k) == (if key(t[0]) == k then [t[0]] else []) + WithKey(t[1..], key, k)
  {
  }

  lemma SwapDisjoint<T>(a: seq<T>, b: seq<T>, w: seq<T>)
    requires a == [] || b == []
    ensures b + (a + w) == a + (b + w)
  {
  }

  /** Stability: elements with equal keys keep their relative order, also
      under `reverse=True`. */
  lemma {:induction false} SortStable<T>(s: seq<T>, key: T -> seq<Atom>, desc: bool, k: seq<Atom>)
    ensures WithKey(SortBy(s, key, desc), key, k) == WithKey(s, key, k)
  {
    if s != [] {
      SortStable(s[1..], key, desc, k);
      InsertWithKey(s[0], SortBy(s[1..], key, desc), key, desc, k);
    }
  }

  /** Dropping the head keeps a sequence sorted and its keys unique. */
  lemma TailFacts<T>(s: seq<T>, key: T -> seq<Atom>, desc: bool)
    requires s != []
    ensures multiset(s[1..]) == multiset(s) - multiset{s[0]}
    ensures SortedBy(s, key, desc) ==> SortedBy(s[1..], key, desc)
    ensures (forall i, j :: 0 <= i < j < |s| ==> key(s[i]) != key(s[j]))
        ==> (forall i, j :: 0 <= i < j < |s[1..]| ==> key(s[1..][i]) != key(s[1..][j]))
  {
    assert s == [s[0]] + s[1..];
  }

  lemma ConsEqual<T>(s: seq<T>, t: seq<T>)
    requires s != [] && t != [] && s[0] == t[0] && s[1..] == t[1..]
    ensures s == t
  {
    assert s == [s[0]] + s[1..] && t == [t[0]] + t[1..];
  }

  /** Two sorted permutations of a sequence with unique keys start alike:
      each head is minimal, so the heads share a key and are one element. */
  lemma SortedHeadsEqual<T>(s: seq<T>, t: seq<T>, key: T -> seq<Atom>, desc: bool)
    requires s != [] && multiset(s) == multiset(t)
    requires SortedBy(s, key, desc) && SortedBy(t, key, desc)
    requires forall i, j :: 0 <= i < j < |s| ==> key(s[i]) != key(s[j])
    ensures t != [] && s[0] == t[0]
  {
    assert s[0] in multiset(t);
    assert |t| == |multiset(t)| == |s|;
    assert t[0] in multiset(s);
    var i :| 0 <= i < |t| && t[i] == s[0];
    var j :| 0 <= j < |s| && s[j] == t[0];
    KeyLessIrreflexive(key(s[0]));
    KeyLessIrreflexive(key(t[0]));
    assert !Precedes(key, desc, s[j], s[0]);
    assert !Precedes(key, desc, t[i], t[0]);
    KeyLessTotal(key(s[0]), key(t[0]));
    assert key(s[0]) == key(s[j]);
  }

  /** When no two elements share a key, the sorted order is the only one:
      any sorted permutation equals `SortBy`. */
  lemma {:induction false} SortUnique<T>(s: seq<T>, t: seq<T>, key: T -> seq<Atom>, desc: bool)
    requires multiset(s) == multiset(t)
    requires SortedBy(s, key, desc) && SortedBy(t, key, desc)
    requires forall i, j :: 0 <= i < j < |s| ==> key(s[i]) != key(s[j])
    ensures s == t
    decreases |s|
  {
    if s == [] {
      assert |t| == |multiset(t)| == 0;
    } else {
      SortedHeadsEqual(s, t, key, desc);
      TailFacts(s, key, desc);
      TailFacts(t, key, desc);
      SortUnique(s[1..], t[1..], key, desc);
      ConsEqual(s, t);
    }
  }
}
