/** The orderings the screens sort by: JavaScript's `<` on strings and on
    numbers, a three-way comparator built from it, and the stable sort that
    `Array.prototype.sort` performs with such a comparator. */
module Ordering {

  /** A sort key: a number, or a string compared code unit by code unit. */
  datatype Key = Num(n: int) | Txt(s: string)

  /** JavaScript's `<` on two strings: lexicographic, a proper prefix first. */
  predicate StrLt(a: string, b: string)
  {
    if a == [] then b != []
    else b != [] && (a[0] < b[0] || (a[0] == b[0] && StrLt(a[1..], b[1..])))
  }

  lemma {:induction false} StrLtIrreflexive(a: string)
    ensures !StrLt(a, a)
  {
    if a != [] { StrLtIrreflexive(a[1..]); }
  }

  lemma {:induction false} StrLtTransitive(a: string, b: string, c: string)
    requires StrLt(a, b) && StrLt(b, c)
    ensures StrLt(a, c)
  {
    if a != [] && a[0] == b[0] && b[0] == c[0] {
      StrLtTransitive(a[1..], b[1..], c[1..]);
    }
  }

  lemma {:induction false} StrLtTotal(a: string, b: string)
    ensures a == b || StrLt(a, b) || StrLt(b, a)
  {
    if a != [] && b != [] && a[0] == b[0] {
      StrLtTotal(a[1..], b[1..]);
      if a[1..] == b[1..] {
        assert a == [a[0]] + a[1..] && b == [b[0]] + b[1..];
      }
    }
  }

  /** The strict order on keys: numbers by value, strings by `StrLt`; a number
      is put before a string (a sort field here is either always a number or
      always a string). */
  predicate KeyLt(a: Key, b: Key)
  {
    match (a, b)
    case (Num(x), Num(y)) => x < y
    case (Txt(x), Txt(y)) => StrLt(x, y)
    case (Num(_), Txt(_)) => true
    case (Txt(_), Num(_)) => false
  }

  lemma KeyLtStrictTotal(a: Key, b: Key, c: Key)
    ensures !KeyLt(a, a)
    ensures KeyLt(a, b) && KeyLt(b, c) ==> KeyLt(a, c)
    ensures a == b || KeyLt(a, b) || KeyLt(b, a)
    ensures !(KeyLt(a, b) && KeyLt(b, a))
  {
    if a.Txt? { StrLtIrreflexive(a.s); }
    if a.Txt? && b.Txt? && c.Txt? && StrLt(a.s, b.s) && StrLt(b.s, c.s) {
      StrLtTransitive(a.s, b.s, c.s);
    }
    if a.Txt? && b.Txt? {
      StrLtTotal(a.s, b.s);
      if StrLt(a.s, b.s) && StrLt(b.s, a.s) {
        StrLtTransitive(a.s, b.s, a.s);
      }
    }
  }

  /** A three-way comparator: -1 when `a` goes first, 1 when `b` goes first,
      0 when neither is smaller. `asc` false inverts the signs. */
  function Compare(a: Key, b: Key, asc: bool): (r: int)
    ensures -1 <= r <= 1
  {
    if KeyLt(a, b) then (if asc then -1 else 1)
    else if KeyLt(b, a) then (if asc then 1 else -1)
    else 0
  }

  /** The comparator is 0 exactly on equal keys, swapping the arguments or the
      direction negates it, and its sign follows `<`. */
  lemma CompareFacts(a: Key, b: Key, asc: bool)
    ensures Compare(a, b, asc) == 0 <==> a == b
    ensures Compare(a, b, asc) == -Compare(b, a, asc)
    ensures Compare(a, b, !asc) == -Compare(a, b, asc)
    ensures Compare(a, b, true) == -1 <==> KeyLt(a, b)
    ensures Compare(a, b, true) == 1 <==> KeyLt(b, a)
  {
    KeyLtStrictTotal(a, b, a);
  }

  /** `a` may stand before `b` in a list sorted with the comparator. */
  predicate Precedes(a: Key, b: Key, asc: bool)
  {
    Compare(a, b, asc) <= 0
  }

  lemma PrecedesTotalPreorder(a: Key, b: Key, c: Key, asc: bool)
    ensures Precedes(a, b, asc) || Precedes(b, a, asc)
    ensures Precedes(a, b, asc) && Precedes(b, c, asc) ==> Precedes(a, c, asc)
  {
    KeyLtStrictTotal(a, b, c);
    KeyLtStrictTotal(c, b, a);
    KeyLtStrictTotal(a, c, b);
    KeyLtStrictTotal(b, a, c);
    KeyLtStrictTotal(c, a, b);
    KeyLtStrictTotal(b, c, a);
  }

  ghost predicate Sorted<T>(s: seq<T>, key: T -> Key, asc: bool)
  {
    forall i, j :: 0 <= i < j < |s| ==> Precedes(key(s[i]), key(s[j]), asc)
  }

  /** Place `x` before the first element it may precede. */
  function Insert<T>(x: T, s: seq<T>, key: T -> Key, asc: bool): seq<T>
  {
    if s == [] || Precedes(key(x), key(s[0]), asc) then [x] + s
    else [s[0]] + Insert(x, s[1..], key, asc)
  }

  /** A stable sort (insertion sort): the result `Array.prototype.sort` gives
      for a comparator that is a total preorder. */
  function Sort<T>(s: seq<T>, key: T -> Key, asc: bool): seq<T>
  {
    if s == [] then [] else Insert(s[0], Sort(s[1..], key, asc), key, asc)
  }

  /** The elements of `s` whose key is `k`, in their order in `s`. */
  function WithKey<T>(s: seq<T>, key: T -> Key, k: Key): seq<T>
  {
    if s == [] then []
    else (if key(s[0]) == k then [s[0]] else []) + WithKey(s[1..], key, k)
  }

  lemma {:induction false} InsertPermutation<T>(x: T, s: seq<T>, key: T -> Key, asc: bool)
    ensures multiset(Insert(x, s, key, asc)) == multiset(s) + multiset{x}
  {
    if s != [] && !Precedes(key(x), key(s[0]), asc) {
      InsertPermutation(x, s[1..], key, asc);
      assert s == [s[0]] + s[1..];
    }
  }

  lemma {:induction false} InsertSorted<T>(x: T, s: seq<T>, key: T -> Key, asc: bool)
    requires Sorted(s, key, asc)
    ensures Sorted(Insert(x, s, key, asc), key, asc)
  {
    var r := Insert(x, s, key, asc);
    if s == [] {
    } else if Precedes(key(x), key(s[0]), asc) {
      forall i, j | 0 <= i < j < |r| ensures Precedes(key(r[i]), key(r[j]), asc) {
        if i == 0 && j > 1 {
          PrecedesTotalPreorder(key(x), key(s[0]), key(s[j - 1]), asc);
        }
      }
    } else {
      var rest := Insert(x, s[1..], key, asc);
      InsertSorted(x, s[1..], key, asc);
      InsertPermutation(x, s[1..], key, asc);
      PrecedesTotalPreorder(key(x), key(s[0]), key(x), asc);
      forall j | 0 <= j < |rest| ensures Precedes(key(s[0]), key(rest[j]), asc) {
        assert rest[j] in multiset(rest);
        if rest[j] != x {
          assert rest[j] in multiset(s[1..]);
          var m :| 0 <= m < |s[1..]| && s[1..][m] == rest[j];
          assert s[m + 1] == rest[j];
        }
      }
    }
  }

  lemma {:induction false} InsertWithKey<T>(x: T, s: seq<T>, key: T -> Key, asc: bool, k: Key)
    ensures WithKey(Insert(x, s, key, asc), key, k)
         == (if key(x) == k then [x] else []) + WithKey(s, key, k)
  {
    if s != [] && !Precedes(key(x), key(s[0]), asc) {
      InsertStep(x, s, key, asc);
      var t := Insert(x, s[1..], key, asc);
      WithKeyCons(s[0], t, key, k);
      InsertWithKey(x, s[1..], key, asc, k);
      NotPrecedesDistinct(key(x), key(s[0]), asc);
      var a := if key(s[0]) == k then [s[0]] else [];
      var w := WithKey(s[1..], key, k);
      assert WithKey(s, key, k) == a + w;
      if key(x) == k {
        assert a == [];
      } else {
        assert a + ([] + w) == [] + (a + w);
      }
    }
  }

  lemma InsertStep<T>(x: T, s: seq<T>, key: T -> Key, asc: bool)
    requires s != [] && !Precedes(key(x), key(s[0]), asc)
    ensures Insert(x, s, key, asc) == [s[0]] + Insert(x, s[1..], key, asc)
  {
  }

  lemma NotPrecedesDistinct(a: Key, b: Key, asc: bool)
    requires !Precedes(a, b, asc)
    ensures a != b
  {
    KeyLtStrictTotal(a, a, a);
  }

  lemma WithKeyCons<T>(a: T, s: seq<T>, key: T -> Key, k: Key)
    ensures WithKey([a] + s, key, k) == (if key(a) == k then [a] else []) + WithKey(s, key, k)
  {
    assert ([a] + s)[1..] == s;
  }

  /** The sort returns a permutation of its input, ordered by the comparator,
      and keeps elements with equal keys in their input order. */
  lemma SortCorrect<T>(s: seq<T>, key: T -> Key, asc: bool)
    ensures multiset(Sort(s, key, asc)) == multiset(s)
    ensures |Sort(s, key, asc)| == |s|
    ensures Sorted(Sort(s, key, asc), key, asc)
    ensures forall k :: WithKey(Sort(s, key, asc), key, k) == WithKey(s, key, k)
  {
    SortPermutation(s, key, asc);
    SortSorted(s, key, asc);
    forall k ensures WithKey(Sort(s, key, asc), key, k) == WithKey(s, key, k) {
      SortStable(s, key, asc, k);
    }
  }

  lemma {:induction false} SortPermutation<T>(s: seq<T>, key: T -> Key, asc: bool)
    ensures multiset(Sort(s, key, asc)) == multiset(s)
    ensures |Sort(s, key, asc)| == |s|
  {
    if s != [] {
      SortPermutation(s[1..], key, asc);
      InsertPermutation(s[0], Sort(s[1..], key, asc), key, asc);
      assert s == [s[0]] + s[1..];
    }
    assert |multiset(Sort(s, key, asc))| == |multiset(s)|;
  }

  lemma {:induction false} SortSorted<T>(s: seq<T>, key: T -> Key, asc: bool)
    ensures Sorted(Sort(s, key, asc), key, asc)
  {
    if s != [] {
      SortSorted(s[1..], key, asc);
      InsertSorted(s[0], Sort(s[1..], key, asc), key, asc);
    }
  }

  lemma {:induction false} SortStable<T>(s: seq<T>, key: T -> Key, asc: bool, k: Key)
    ensures WithKey(Sort(s, key, asc), key, k) == WithKey(s, key, k)
  {
    if s != [] {
      SortStable(s[1..], key, asc, k);
      InsertWithKey(s[0], Sort(s[1..], key, asc), key, asc, k);
    }
  }
}
