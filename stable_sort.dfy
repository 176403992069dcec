/**
 * Python's `list.sort(key=..., reverse=True)` on an integer key: the result is in
 * descending key order, is a permutation of the input, and keeps elements with
 * equal keys in their original order (Python's sort is stable, also when reversed).
 */
module StableSort {
  import opened Seqs

  predicate SortedDesc<T>(s: seq<T>, key: T -> int) {
    forall i, j :: 0 <= i < j < |s| ==> key(s[i]) >= key(s[j])
  }

  /** The elements whose key is `k`, in order. */
  function WithKey<T>(s: seq<T>, key: T -> int, k: int): seq<T>
    decreases |s|
  {
    if s == [] then []
    else (if key(s[0]) == k then [s[0]] else []) + WithKey(s[1..], key, k)
  }

  lemma {:induction false} WithKeyAppend<T>(a: seq<T>, b: seq<T>, key: T -> int, k: int)
    ensures WithKey(a + b, key, k) == WithKey(a, key, k) + WithKey(b, key, k)
    decreases |a|
  {
    if a == [] {
      assert a + b == b;
    } else {
      var ab := a + b;
      var head := if key(a[0]) == k then [a[0]] else [];
      assert ab[0] == a[0];
      assert ab[1..] == a[1..] + b;
      WithKeyAppend(a[1..], b, key, k);
      calc {
        WithKey(ab, key, k);
        head + WithKey(a[1..] + b, key, k);
        head + (WithKey(a[1..], key, k) + WithKey(b, key, k));
        { SeqAssoc(head, WithKey(a[1..], key, k), WithKey(b, key, k)); }
        head + WithKey(a[1..], key, k) + WithKey(b, key, k);
        WithKey(a, key, k) + WithKey(b, key, k);
      }
    }
  }

  /** The elements of a prefix with a given key are a prefix of the whole's. */
  lemma WithKeyPrefix<T>(s: seq<T>, n: nat, key: T -> int, k: int)
    requires n <= |s|
    ensures var f := WithKey(s[..n], key, k);
      var g := WithKey(s, key, k);
      |f| <= |g| && f == g[..|f|]
  {
    assert s == s[..n] + s[n..];
    WithKeyAppend(s[..n], s[n..], key, k);
  }

  lemma {:induction false} WithKeyBelow<T>(s: seq<T>, key: T -> int, k: int)
    requires forall i :: 0 <= i < |s| ==> key(s[i]) < k
    ensures WithKey(s, key, k) == []
    decreases |s|
  {
    if s != [] {
      WithKeyBelow(s[1..], key, k);
    }
  }

  /** Put `x` after every element whose key is at least its own. */
  function Insert<T>(x: T, s: seq<T>, key: T -> int): seq<T>
    decreases |s|
  {
    if s == [] then [x]
    else if key(s[0]) >= key(x) then [s[0]] + Insert(x, s[1..], key)
    else [x] + s
  }

  lemma {:induction false} InsertMember<T>(x: T, s: seq<T>, key: T -> int, y: T)
    ensures y in Insert(x, s, key) <==> y in s || y == x
    decreases |s|
  {
    if s != [] && key(s[0]) >= key(x) {
      InsertMember(x, s[1..], key, y);
      assert s == [s[0]] + s[1..];
    }
  }

  lemma {:induction false} InsertPermutes<T>(x: T, s: seq<T>, key: T -> int)
    ensures multiset(Insert(x, s, key)) == multiset(s) + multiset{x}
    decreases |s|
  {
    if s != [] && key(s[0]) >= key(x) {
      InsertPermutes(x, s[1..], key);
      assert s == [s[0]] + s[1..];
    }
  }

  lemma {:induction false} InsertSorted<T>(x: T, s: seq<T>, key: T -> int)
    requires SortedDesc(s, key)
    ensures SortedDesc(Insert(x, s, key), key)
    decreases |s|
  {
    if s != [] && key(s[0]) >= key(x) {
      InsertSorted(x, s[1..], key);
      var t := Insert(x, s[1..], key);
      forall i, j | 0 <= i < j < |[s[0]] + t|
        ensures key(([s[0]] + t)[i]) >= key(([s[0]] + t)[j])
      {
        if i > 0 {
          assert ([s[0]] + t)[i] == t[i - 1] && ([s[0]] + t)[j] == t[j - 1];
        } else {
          var y := ([s[0]] + t)[j];
          assert ([s[0]] + t)[0] == s[0];
          assert y == t[j - 1];
          InsertMember(x, s[1..], key, y);
          if y in s[1..] {
            var m :| 0 <= m < |s[1..]| && s[1..][m] == y;
            assert s[m + 1] == y;
          }
        }
      }
    }
  }

  lemma SortedTail<T>(s: seq<T>, key: T -> int)
    requires s != [] && SortedDesc(s, key)
    ensures SortedDesc(s[1..], key)
    ensures forall i :: 0 <= i < |s| ==> key(s[i]) <= key(s[0])
  {
    forall i, j | 0 <= i < j < |s[1..]| ensures key(s[1..][i]) >= key(s[1..][j]) {
      assert s[1..][i] == s[i + 1] && s[1..][j] == s[j + 1];
    }
  }

  lemma WithKeyOne<T>(x: T, key: T -> int, k: int)
    ensures WithKey([x], key, k) == if key(x) == k then [x] else []
  {
    assert [x][1..] == [];
  }

  lemma {:induction false} InsertWithKey<T>(x: T, s: seq<T>, key: T -> int, k: int)
    requires SortedDesc(s, key)
    ensures WithKey(Insert(x, s, key), key, k) == WithKey(s, key, k) + (if key(x) == k then [x] else [])
    decreases |s|
  {
    if s == [] {
      WithKeyOne(x, key, k);
    } else if key(s[0]) >= key(x) {
      var rest := s[1..];
      var t := Insert(x, rest, key);
      var h := WithKey([s[0]], key, k);
      var added := if key(x) == k then [x] else [];
      ConsSplit(s, []);
      assert s == [s[0]] + rest;
      SortedTail(s, key);
      InsertWithKey(x, rest, key, k);
      WithKeyAppend([s[0]], t, key, k);
      WithKeyAppend([s[0]], rest, key, k);
      calc {
        WithKey(Insert(x, s, key), key, k);
        WithKey([s[0]] + t, key, k);
        h + WithKey(t, key, k);
        h + (WithKey(rest, key, k) + added);
        { SeqAssoc(h, WithKey(rest, key, k), added); }
        WithKey(s, key, k) + added;
      }
    } else {
      InsertFrontWithKey(x, s, key, k);
    }
  }

  /** Inserting in front of elements of smaller key. */
  lemma InsertFrontWithKey<T>(x: T, s: seq<T>, key: T -> int, k: int)
    requires SortedDesc(s, key) && s != [] && key(s[0]) < key(x)
    ensures WithKey(Insert(x, s, key), key, k) == WithKey(s, key, k) + (if key(x) == k then [x] else [])
  {
    assert Insert(x, s, key) == [x] + s;
    WithKeyAppend([x], s, key, k);
    WithKeyOne(x, key, k);
    if key(x) == k {
      SortedTail(s, key);
      WithKeyBelow(s, key, k);
    }
  }

  /** A stable sort on descending key, by insertion. */
  function SortDesc<T>(s: seq<T>, key: T -> int): (r: seq<T>)
    ensures SortedDesc(r, key)
    decreases |s|
  {
    if s == [] then []
    else
      var sorted := SortDesc(s[..|s| - 1], key);
      InsertSorted(s[|s| - 1], sorted, key);
      Insert(s[|s| - 1], sorted, key)
  }

  /** The sort is a permutation of its input. */
  lemma {:induction false} SortPermutes<T>(s: seq<T>, key: T -> int)
    ensures multiset(SortDesc(s, key)) == multiset(s)
    decreases |s|
  {
    if s != [] {
      SortPermutes(s[..|s| - 1], key);
      InsertPermutes(s[|s| - 1], SortDesc(s[..|s| - 1], key), key);
      assert s == s[..|s| - 1] + [s[|s| - 1]];
    }
  }

  /** Elements with equal keys leave the sort in the order they entered it. */
  lemma {:induction false} SortStable<T>(s: seq<T>, key: T -> int, k: int)
    ensures WithKey(SortDesc(s, key), key, k) == WithKey(s, key, k)
    decreases |s|
  {
    if s != [] {
      var init := s[..|s| - 1];
      var x := s[|s| - 1];
      SortStable(init, key, k);
      InsertWithKey(x, SortDesc(init, key), key, k);
      assert s == init + [x];
      WithKeyAppend(init, [x], key, k);
    }
  }

  /** The sort keeps the length of its input. */
  lemma SortLength<T>(s: seq<T>, key: T -> int)
    ensures |SortDesc(s, key)| == |s|
  {
    SortPermutes(s, key);
    assert |multiset(SortDesc(s, key))| == |multiset(s)|;
  }

  /** The sort keeps exactly the elements of its input. */
  lemma SortMember<T>(s: seq<T>, key: T -> int, y: T)
    ensures y in SortDesc(s, key) <==> y in s
  {
    var r := SortDesc(s, key);
    SortPermutes(s, key);
    assert y in r <==> y in multiset(r);
    assert y in s <==> y in multiset(s);
  }

  predicate DistinctBy<T, K(==)>(s: seq<T>, name: T -> K) {
    forall i, j :: 0 <= i < j < |s| ==> name(s[i]) != name(s[j])
  }

  lemma {:induction false} InsertDistinct<T, K>(x: T, s: seq<T>, key: T -> int, name: T -> K)
    requires DistinctBy(s, name)
    requires forall y :: y in s ==> name(y) != name(x)
    ensures DistinctBy(Insert(x, s, key), name)
    decreases |s|
  {
    if s != [] && key(s[0]) >= key(x) {
      InsertDistinct(x, s[1..], key, name);
      var t := Insert(x, s[1..], key);
      assert s[0] in s;
      forall y | y in t ensures name(y) != name(s[0]) {
        InsertMember(x, s[1..], key, y);
        if y in s[1..] {
          var m :| 0 <= m < |s[1..]| && s[1..][m] == y;
          assert s[m + 1] == y;
        }
      }
      forall i, j | 0 <= i < j < |[s[0]] + t|
        ensures name(([s[0]] + t)[i]) != name(([s[0]] + t)[j])
      {
        if i > 0 {
          assert ([s[0]] + t)[i] == t[i - 1] && ([s[0]] + t)[j] == t[j - 1];
        } else {
          assert ([s[0]] + t)[j] in t;
        }
      }
    } else if s != [] {
      forall i, j | 0 <= i < j < |[x] + s|
        ensures name(([x] + s)[i]) != name(([x] + s)[j])
      {
        if i > 0 {
          assert ([x] + s)[i] == s[i - 1] && ([x] + s)[j] == s[j - 1];
        } else {
          assert ([x] + s)[j] in s;
        }
      }
    }
  }

  /** Sorting never makes two elements share a name. */
  lemma {:induction false} SortDistinct<T, K>(s: seq<T>, key: T -> int, name: T -> K)
    requires DistinctBy(s, name)
    ensures DistinctBy(SortDesc(s, key), name)
    decreases |s|
  {
    if s != [] {
      var init := s[..|s| - 1];
      var x := s[|s| - 1];
      assert DistinctBy(init, name) by {
        forall i, j | 0 <= i < j < |init| ensures name(init[i]) != name(init[j]) {
          assert init[i] == s[i] && init[j] == s[j];
        }
      }
      SortDistinct(init, key, name);
      var sorted := SortDesc(init, key);
      forall y | y in sorted ensures name(y) != name(x) {
        SortMember(init, key, y);
        var m :| 0 <= m < |init| && init[m] == y;
        assert s[m] == y;
      }
      InsertDistinct(x, sorted, key, name);
    }
  }
}
