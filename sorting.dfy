/** The stable sort behind `Array.prototype.sort` with a numeric comparator,
    modelled as an insertion sort by an integer key (ascending). A comparator
    `(a, b) => b.m - a.m` is the key `-m`; `(a, b) => a.t - b.t` is the key `t`. */
module Sorting {

  ghost predicate SortedBy<T>(s: seq<T>, key: T -> int) {
    forall i, j :: 0 <= i < j < |s| ==> key(s[i]) <= key(s[j])
  }

  /** The elements of `s` whose key is `v`, in their order in `s`. */
  function KeyFilter<T>(s: seq<T>, key: T -> int, v: int): seq<T> {
    if s == [] then []
    else (if key(s[0]) == v then [s[0]] else []) + KeyFilter(s[1..], key, v)
  }

  /** Inserts `x` after every element whose key is not greater than its own. */
  function InsertBy<T>(x: T, s: seq<T>, key: T -> int): seq<T> {
    if s == [] then [x]
    else if key(s[0]) <= key(x) then [s[0]] + InsertBy(x, s[1..], key)
    else [x] + s
  }

  /** Sorts by inserting the elements one at a time, first to last. */
  function SortBy<T>(s: seq<T>, key: T -> int): seq<T> {
    if s == [] then [] else InsertBy(s[|s| - 1], SortBy(s[..|s| - 1], key), key)
  }

  lemma {:induction false} InsertByFacts<T>(x: T, s: seq<T>, key: T -> int)
    requires SortedBy(s, key)
    ensures multiset(InsertBy(x, s, key)) == multiset(s) + multiset{x}
    ensures SortedBy(InsertBy(x, s, key), key)
  {
    if s == [] {
    } else if key(s[0]) <= key(x) {
      InsertByFacts(x, s[1..], key);
      var r := InsertBy(x, s[1..], key);
      assert s == [s[0]] + s[1..];
      InsertByBound(key(s[0]), x, s[1..], key);
      SortedCons(s[0], r, key);
    } else {
      SortedCons(x, s, key);
    }
  }

  /** A lower bound of `x` and of every element of `s` bounds every element
      after the insertion. */
  lemma {:induction false} InsertByBound<T>(b: int, x: T, s: seq<T>, key: T -> int)
    requires b <= key(x) && forall k :: 0 <= k < |s| ==> b <= key(s[k])
    ensures forall k :: 0 <= k < |InsertBy(x, s, key)| ==> b <= key(InsertBy(x, s, key)[k])
  {
    if s != [] && key(s[0]) <= key(x) {
      InsertByBound(b, x, s[1..], key);
      assert InsertBy(x, s, key) == [s[0]] + InsertBy(x, s[1..], key);
    }
  }

  lemma SortedCons<T>(y: T, r: seq<T>, key: T -> int)
    requires SortedBy(r, key)
    requires forall k :: 0 <= k < |r| ==> key(y) <= key(r[k])
    ensures SortedBy([y] + r, key)
  {
    forall i, j | 0 <= i < j < |[y] + r| ensures key(([y] + r)[i]) <= key(([y] + r)[j]) {
      assert ([y] + r)[j] == r[j - 1];
      if i > 0 {
        assert ([y] + r)[i] == r[i - 1];
      }
    }
  }

  lemma {:induction false} KeyFilterConcat<T>(a: seq<T>, b: seq<T>, key: T -> int, v: int)
    ensures KeyFilter(a + b, key, v) == KeyFilter(a, key, v) + KeyFilter(b, key, v)
  {
    if a == [] {
      assert a + b == b;
    } else {
      var h := if key(a[0]) == v then [a[0]] else [];
      assert (a + b)[0] == a[0];
      assert (a + b)[1..] == a[1..] + b;
      KeyFilterConcat(a[1..], b, key, v);
      calc {
        KeyFilter(a + b, key, v);
        h + KeyFilter(a[1..] + b, key, v);
        h + (KeyFilter(a[1..], key, v) + KeyFilter(b, key, v));
        (h + KeyFilter(a[1..], key, v)) + KeyFilter(b, key, v);
        KeyFilter(a, key, v) + KeyFilter(b, key, v);
      }
    }
  }

  lemma {:induction false} KeyFilterNone<T>(s: seq<T>, key: T -> int, v: int)
    requires forall k :: 0 <= k < |s| ==> key(s[k]) != v
    ensures KeyFilter(s, key, v) == []
  {
    if s != [] {
      KeyFilterNone(s[1..], key, v);
    }
  }

  lemma {:induction false} InsertByStable<T>(x: T, s: seq<T>, key: T -> int, v: int)
    requires SortedBy(s, key)
    ensures KeyFilter(InsertBy(x, s, key), key, v)
         == KeyFilter(s, key, v) + (if key(x) == v then [x] else [])
  {
    if s == [] {
      assert KeyFilter([x], key, v) == (if key(x) == v then [x] else []) + KeyFilter([x][1..], key, v);
    } else if key(s[0]) <= key(x) {
      assert SortedBy(s[1..], key);
      InsertByStable(x, s[1..], key, v);
      InsertByStablePast(x, s, key, v);
    } else {
      InsertByStableAhead(x, s, key, v);
    }
  }

  /** Inserting past the first element keeps it first among its key. */
  lemma InsertByStablePast<T>(x: T, s: seq<T>, key: T -> int, v: int)
    requires s != [] && key(s[0]) <= key(x)
    requires KeyFilter(InsertBy(x, s[1..], key), key, v)
          == KeyFilter(s[1..], key, v) + (if key(x) == v then [x] else [])
    ensures KeyFilter(InsertBy(x, s, key), key, v)
         == KeyFilter(s, key, v) + (if key(x) == v then [x] else [])
  {
    var tail := if key(x) == v then [x] else [];
    var h := if key(s[0]) == v then [s[0]] else [];
    var r := InsertBy(x, s, key);
    assert r[0] == s[0] && r[1..] == InsertBy(x, s[1..], key);
    calc {
      KeyFilter(r, key, v);
      h + KeyFilter(InsertBy(x, s[1..], key), key, v);
      h + (KeyFilter(s[1..], key, v) + tail);
      (h + KeyFilter(s[1..], key, v)) + tail;
      KeyFilter(s, key, v) + tail;
    }
  }

  /** Inserting ahead of a sorted sequence whose keys all exceed `x`'s. */
  lemma InsertByStableAhead<T>(x: T, s: seq<T>, key: T -> int, v: int)
    requires SortedBy(s, key) && s != [] && key(x) < key(s[0])
    ensures KeyFilter(InsertBy(x, s, key), key, v)
         == KeyFilter(s, key, v) + (if key(x) == v then [x] else [])
  {
    var r := [x] + s;
    assert r[0] == x && r[1..] == s;
    if key(x) == v {
      KeyFilterNone(s, key, v);
    }
    assert KeyFilter(r, key, v) == (if key(x) == v then [x] else []) + KeyFilter(s, key, v);
  }

  /** The sorted sequence is a permutation of the input and is sorted. */
  lemma {:induction false} SortByPermutes<T>(s: seq<T>, key: T -> int)
    ensures multiset(SortBy(s, key)) == multiset(s)
    ensures SortedBy(SortBy(s, key), key)
  {
    if s != [] {
      var init := s[..|s| - 1];
      SortByPermutes(init, key);
      InsertByFacts(s[|s| - 1], SortBy(init, key), key);
      assert s == init + [s[|s| - 1]];
    }
  }

  /** Stability: among elements with equal keys the input order is kept. */
  lemma {:induction false} SortByStable<T>(s: seq<T>, key: T -> int, v: int)
    ensures KeyFilter(SortBy(s, key), key, v) == KeyFilter(s, key, v)
  {
    if s != [] {
      var init, x := s[..|s| - 1], s[|s| - 1];
      var tail := if key(x) == v then [x] else [];
      SortByStable(init, key, v);
      SortByPermutes(init, key);
      InsertByStable(x, SortBy(init, key), key, v);
      assert s == init + [x];
      KeyFilterConcat(init, [x], key, v);
      assert KeyFilter([x], key, v) == tail by {
        assert [x][1..] == [];
      }
      calc {
        KeyFilter(SortBy(s, key), key, v);
        KeyFilter(InsertBy(x, SortBy(init, key), key), key, v);
        KeyFilter(SortBy(init, key), key, v) + tail;
        KeyFilter(init, key, v) + KeyFilter([x], key, v);
        KeyFilter(s, key, v);
      }
    }
  }
}
