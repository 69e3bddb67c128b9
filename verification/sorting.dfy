/** Stable sorting by an integer key: the model of `[...xs].sort((a, b) => key(a) - key(b))`,
    which JavaScript engines perform stably. */
module Sorting {

  ghost predicate SortedBy<T>(s: seq<T>, key: T -> int) {
    forall i, j :: 0 <= i < j < |s| ==> key(s[i]) <= key(s[j])
  }

  /** The elements of `s` whose key is `k`, in their order in `s`. */
  function KeyClass<T>(s: seq<T>, key: T -> int, k: int): seq<T> {
    if s == [] then []
    else KeyClass(s[..|s| - 1], key, k) + (if key(s[|s| - 1]) == k then [s[|s| - 1]] else [])
  }

  lemma {:induction false} KeyClassAppend<T>(a: seq<T>, b: seq<T>, key: T -> int, k: int)
    ensures KeyClass(a + b, key, k) == KeyClass(a, key, k) + KeyClass(b, key, k)
    decreases |b|
  {
    if b == [] {
      assert a + b == a;
    } else {
      assert (a + b)[..|a + b| - 1] == a + b[..|b| - 1];
      KeyClassAppend(a, b[..|b| - 1], key, k);
    }
  }

  /** Inserts `x` into `r` after the longest suffix of `r` whose keys all exceed `key(x)`;
      on a sorted `r` that is after every element whose key is at most `key(x)`. */
  function InsertBy<T>(r: seq<T>, x: T, key: T -> int): (q: seq<T>)
    ensures |q| == |r| + 1
    ensures multiset(q) == multiset(r) + multiset{x}
  {
    if r == [] || key(r[|r| - 1]) <= key(x) then r + [x]
    else
      assert r == r[..|r| - 1] + [r[|r| - 1]];
      InsertBy(r[..|r| - 1], x, key) + [r[|r| - 1]]
  }

  lemma {:induction false} InsertBySorted<T>(r: seq<T>, x: T, key: T -> int)
    requires SortedBy(r, key)
    ensures SortedBy(InsertBy(r, x, key), key)
  {
    if r != [] && key(r[|r| - 1]) > key(x) {
      var last := r[|r| - 1];
      var init := r[..|r| - 1];
      assert SortedBy(init, key) by {
        forall i, j | 0 <= i < j < |init|
          ensures key(init[i]) <= key(init[j])
        {
          assert init[i] == r[i] && init[j] == r[j];
        }
      }
      InsertBySorted(init, x, key);
      var q' := InsertBy(init, x, key);
      assert forall i :: 0 <= i < |init| ==> key(init[i]) <= key(last) by {
        forall i | 0 <= i < |init|
          ensures key(init[i]) <= key(last)
        {
          assert init[i] == r[i];
        }
      }
      AllBelowLast(init, last, x, key);
      SortedAppend(q', last, key);
    }
  }

  /** Inserting an element below a bound into elements below it stays below it. */
  lemma AllBelowLast<T>(init: seq<T>, last: T, x: T, key: T -> int)
    requires forall i :: 0 <= i < |init| ==> key(init[i]) <= key(last)
    requires key(x) < key(last)
    ensures forall i :: 0 <= i < |InsertBy(init, x, key)| ==> key(InsertBy(init, x, key)[i]) <= key(last)
  {
    var q' := InsertBy(init, x, key);
    forall i | 0 <= i < |q'|
      ensures key(q'[i]) <= key(last)
    {
      assert q'[i] in multiset(q');
      if q'[i] != x {
        assert q'[i] in multiset(init);
        var m :| 0 <= m < |init| && init[m] == q'[i];
      }
    }
  }

  /** Appending an element whose key bounds every key keeps a sequence sorted. */
  lemma SortedAppend<T>(q: seq<T>, last: T, key: T -> int)
    requires SortedBy(q, key)
    requires forall i :: 0 <= i < |q| ==> key(q[i]) <= key(last)
    ensures SortedBy(q + [last], key)
  {
    var s := q + [last];
    forall i, j | 0 <= i < j < |s|
      ensures key(s[i]) <= key(s[j])
    {
      if j < |q| {
        assert s[i] == q[i] && s[j] == q[j];
      } else {
        assert s[i] == q[i] && s[j] == last;
      }
    }
  }

  /** Inserting `x` appends it to its own key class and leaves every other class alone. */
  lemma {:induction false} InsertByKeyClass<T>(r: seq<T>, x: T, key: T -> int, k: int)
    ensures KeyClass(InsertBy(r, x, key), key, k)
         == KeyClass(r, key, k) + (if key(x) == k then [x] else [])
  {
    if r == [] || key(r[|r| - 1]) <= key(x) {
      assert (r + [x])[..|r|] == r;
    } else {
      var last := r[|r| - 1];
      var init := r[..|r| - 1];
      var q' := InsertBy(init, x, key);
      InsertByKeyClass(init, x, key, k);
      assert (q' + [last])[..|q'|] == q';
    }
  }

  function SortBy<T>(s: seq<T>, key: T -> int): (r: seq<T>)
    ensures |r| == |s|
    ensures multiset(r) == multiset(s)
  {
    if s == [] then []
    else
      assert s == s[..|s| - 1] + [s[|s| - 1]];
      InsertBy(SortBy(s[..|s| - 1], key), s[|s| - 1], key)
  }

  lemma {:induction false} SortBySorted<T>(s: seq<T>, key: T -> int)
    ensures SortedBy(SortBy(s, key), key)
  {
    if s != [] {
      SortBySorted(s[..|s| - 1], key);
      InsertBySorted(SortBy(s[..|s| - 1], key), s[|s| - 1], key);
    }
  }

  /** Stability: sorting keeps the relative order of the elements of every key class. */
  lemma {:induction false} SortByStable<T>(s: seq<T>, key: T -> int, k: int)
    ensures KeyClass(SortBy(s, key), key, k) == KeyClass(s, key, k)
  {
    if s != [] {
      SortByStable(s[..|s| - 1], key, k);
      InsertByKeyClass(SortBy(s[..|s| - 1], key), s[|s| - 1], key, k);
    }
  }

  /** Every element of the sorted sequence comes from the input. */
  lemma SortByElements<T>(s: seq<T>, key: T -> int)
    ensures forall i :: 0 <= i < |SortBy(s, key)| ==> SortBy(s, key)[i] in s
  {
    var r := SortBy(s, key);
    forall i | 0 <= i < |r|
      ensures r[i] in s
    {
      assert r[i] in multiset(r);
    }
  }

  /** No two elements share a key. */
  ghost predicate KeysDistinct<T>(s: seq<T>, key: T -> int) {
    forall i, j :: 0 <= i < j < |s| ==> key(s[i]) != key(s[j])
  }

  lemma {:induction false} KeyClassEmpty<T>(s: seq<T>, key: T -> int, k: int)
    requires forall i :: 0 <= i < |s| ==> key(s[i]) != k
    ensures KeyClass(s, key, k) == []
  {
    if s != [] {
      KeyClassEmpty(s[..|s| - 1], key, k);
    }
  }

  /** Two elements with key `k` at distinct positions put two elements in the class of `k`. */
  lemma {:induction false} KeyClassAtLeastTwo<T>(s: seq<T>, key: T -> int, i: int, j: int)
    requires 0 <= i < j < |s| && key(s[i]) == key(s[j])
    ensures |KeyClass(s, key, key(s[i]))| >= 2
  {
    var k := key(s[i]);
    var a := s[..j];
    var b := s[j..];
    assert s == a + b;
    KeyClassAppend(a, b, key, k);
    KeyClassMember(a, key, i);
    assert b == [s[j]] + b[1..];
    KeyClassAppend([s[j]], b[1..], key, k);
    assert [s[j]][..0] == [];
  }

  lemma {:induction false} KeyClassMember<T>(s: seq<T>, key: T -> int, i: int)
    requires 0 <= i < |s|
    ensures |KeyClass(s, key, key(s[i]))| >= 1
  {
    if i < |s| - 1 {
      KeyClassMember(s[..|s| - 1], key, i);
    }
  }

  lemma {:induction false} KeysDistinctIffClassesSmall<T>(s: seq<T>, key: T -> int)
    ensures KeysDistinct(s, key) <==> forall k :: |KeyClass(s, key, k)| <= 1
    decreases |s|
  {
    if KeysDistinct(s, key) {
      forall k
        ensures |KeyClass(s, key, k)| <= 1
      {
        if s != [] {
          var init := s[..|s| - 1];
          var last := s[|s| - 1];
          assert KeyClass(s, key, k) == KeyClass(init, key, k) + (if key(last) == k then [last] else []);
          assert KeysDistinct(init, key) by {
            forall i, j | 0 <= i < j < |init|
              ensures key(init[i]) != key(init[j])
            {
              assert init[i] == s[i] && init[j] == s[j];
            }
          }
          KeysDistinctIffClassesSmall(init, key);
          if key(last) == k {
            forall i | 0 <= i < |init|
              ensures key(init[i]) != k
            {
              assert init[i] == s[i];
            }
            KeyClassEmpty(init, key, k);
          } else {
            assert |KeyClass(init, key, k)| <= 1;
          }
        }
      }
    }
    if !KeysDistinct(s, key) {
      var i, j :| 0 <= i < j < |s| && key(s[i]) == key(s[j]);
      KeyClassAtLeastTwo(s, key, i, j);
    }
  }

  /** Sorting a sequence whose keys are pairwise distinct yields strictly increasing keys. */
  lemma SortByStrict<T>(s: seq<T>, key: T -> int)
    requires KeysDistinct(s, key)
    ensures KeysDistinct(SortBy(s, key), key)
    ensures forall i, j :: 0 <= i < j < |SortBy(s, key)| ==> key(SortBy(s, key)[i]) < key(SortBy(s, key)[j])
  {
    var r := SortBy(s, key);
    SortBySorted(s, key);
    KeysDistinctIffClassesSmall(s, key);
    forall i, j | 0 <= i < j < |r|
      ensures key(r[i]) != key(r[j])
    {
      if key(r[i]) == key(r[j]) {
        KeyClassAtLeastTwo(r, key, i, j);
        SortByStable(s, key, key(r[i]));
        assert false;
      }
    }
  }
}
