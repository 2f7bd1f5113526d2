/** Stable sorting by an integer key, the behaviour of `Array.prototype.sort`
    with a comparator `(a, b) => key(a) - key(b)` (the language requires the
    sort to be stable).

    A stable sort is characterised by two properties: the result is ordered by
    key, and for every key the elements carrying it keep their input order
    (`WithKey` is unchanged). `SortByKey` has both, and `SortedWithKeysUnique`
    shows that they determine the result. */
module StableSort {

  /** `s` is in ascending key order. */
  predicate Sorted<T>(s: seq<T>, key: T -> int)
  {
    forall i, j :: 0 <= i < j < |s| ==> key(s[i]) <= key(s[j])
  }

  /** Every element of `s` has a key of at least `m`. */
  predicate AllAtLeast<T>(s: seq<T>, key: T -> int, m: int)
  {
    forall i :: 0 <= i < |s| ==> m <= key(s[i])
  }

  /** The elements of `s` whose key is `k`, in their order in `s`. */
  function WithKey<T>(s: seq<T>, key: T -> int, k: int): (r: seq<T>)
    ensures |r| <= |s|
  {
    if |s| == 0 then []
    else (if key(s[0]) == k then [s[0]] else []) + WithKey(s[1..], key, k)
  }

  /** No element has key `k` when every key is above it. */
  lemma {:induction false} WithKeyBelow<T>(s: seq<T>, key: T -> int, k: int)
    requires AllAtLeast(s, key, k + 1)
    ensures WithKey(s, key, k) == []
    decreases |s|
  {
    if |s| > 0 {
      WithKeyBelow(s[1..], key, k);
    }
  }

  /** An element of `s` makes its key's subsequence non-empty. */
  lemma {:induction false} WithKeyHas<T>(s: seq<T>, key: T -> int, i: nat)
    requires i < |s|
    ensures WithKey(s, key, key(s[i])) != []
    decreases i
  {
    if i > 0 && key(s[0]) != key(s[i]) {
      WithKeyHas(s[1..], key, i - 1);
    }
  }

  /** A non-empty subsequence for `k` means some element has key `k`. */
  lemma {:induction false} WithKeyNonEmpty<T>(s: seq<T>, key: T -> int, k: int)
    requires WithKey(s, key, k) != []
    ensures exists i :: 0 <= i < |s| && key(s[i]) == k
    decreases |s|
  {
    if key(s[0]) != k {
      WithKeyNonEmpty(s[1..], key, k);
      var i :| 0 <= i < |s[1..]| && key(s[1..][i]) == k;
      assert key(s[i + 1]) == k;
    }
  }

  lemma {:induction false} WithKeyConcat<T>(a: seq<T>, b: seq<T>, key: T -> int, k: int)
    ensures WithKey(a + b, key, k) == WithKey(a, key, k) + WithKey(b, key, k)
    decreases |a|
  {
    if |a| == 0 {
      assert a + b == b;
    } else {
      var h := if key(a[0]) == k then [a[0]] else [];
      assert (a + b)[0] == a[0];
      assert (a + b)[1..] == a[1..] + b;
      WithKeyConcat(a[1..], b, key, k);
      calc {
        WithKey(a + b, key, k);
        h + WithKey(a[1..] + b, key, k);
        h + (WithKey(a[1..], key, k) + WithKey(b, key, k));
        (h + WithKey(a[1..], key, k)) + WithKey(b, key, k);
      }
    }
  }

  /** `x` placed after every element of `t` whose key is not larger than its
      own. */
  function Insert<T>(t: seq<T>, x: T, key: T -> int): (r: seq<T>)
    requires Sorted(t, key)
    ensures Sorted(r, key)
    ensures |r| == |t| + 1
    ensures forall m :: AllAtLeast(t, key, m) && m <= key(x) ==> AllAtLeast(r, key, m)
    decreases |t|
  {
    if |t| == 0 then [x]
    else if key(t[0]) <= key(x) then
      var rest := Insert(t[1..], x, key);
      assert t == [t[0]] + t[1..];
      assert AllAtLeast(t[1..], key, key(t[0]));
      [t[0]] + rest
    else
      [x] + t
  }

  /** Inserting `x` appends it to the elements of its own key and leaves every
      other key's elements alone. */
  lemma {:induction false} InsertWithKey<T>(t: seq<T>, x: T, key: T -> int, k: int)
    requires Sorted(t, key)
    ensures WithKey(Insert(t, x, key), key, k) == WithKey(t, key, k) + (if key(x) == k then [x] else [])
    decreases |t|
  {
    if |t| == 0 {
      assert Insert(t, x, key) == [x];
      assert WithKey([x], key, k) == (if key(x) == k then [x] else []) + WithKey([x][1..], key, k);
    } else if key(t[0]) <= key(x) {
      InsertWithKey(t[1..], x, key, k);
      InsertWithKeyAfterHead(t, x, key, k);
    } else {
      InsertWithKeyInFront(t, x, key, k);
    }
  }

  /** The step of `InsertWithKey` where `x` goes after the head of `t`. */
  lemma InsertWithKeyAfterHead<T>(t: seq<T>, x: T, key: T -> int, k: int)
    requires Sorted(t, key) && |t| > 0 && key(t[0]) <= key(x)
    requires WithKey(Insert(t[1..], x, key), key, k) == WithKey(t[1..], key, k) + (if key(x) == k then [x] else [])
    ensures WithKey(Insert(t, x, key), key, k) == WithKey(t, key, k) + (if key(x) == k then [x] else [])
  {
    var tail := if key(x) == k then [x] else [];
    var r := Insert(t, x, key);
    var h := if key(t[0]) == k then [t[0]] else [];
    assert r[0] == t[0];
    assert r[1..] == Insert(t[1..], x, key);
    calc {
      WithKey(r, key, k);
      h + WithKey(r[1..], key, k);
      h + (WithKey(t[1..], key, k) + tail);
      (h + WithKey(t[1..], key, k)) + tail;
    }
  }

  /** The step of `InsertWithKey` where `x` goes in front of `t`. */
  lemma InsertWithKeyInFront<T>(t: seq<T>, x: T, key: T -> int, k: int)
    requires Sorted(t, key) && |t| > 0 && key(x) < key(t[0])
    ensures WithKey(Insert(t, x, key), key, k) == WithKey(t, key, k) + (if key(x) == k then [x] else [])
  {
    var r := Insert(t, x, key);
    assert r[0] == x && r[1..] == t;
    if key(x) == k {
      assert AllAtLeast(t, key, k + 1);
      WithKeyBelow(t, key, k);
    }
    assert WithKey(r, key, k) == (if key(x) == k then [x] else []) + WithKey(t, key, k);
  }

  /** Insertion sort from the back: each element goes after every earlier
      element with a key not larger than its own, which keeps equal keys in
      input order. */
  function SortByKey<T>(s: seq<T>, key: T -> int): (r: seq<T>)
    ensures Sorted(r, key)
    ensures |r| == |s|
    decreases |s|
  {
    if |s| == 0 then []
    else
      assert s == s[..|s| - 1] + [s[|s| - 1]];
      Insert(SortByKey(s[..|s| - 1], key), s[|s| - 1], key)
  }

  lemma {:induction false} InsertMembers<T>(t: seq<T>, x: T, key: T -> int)
    requires Sorted(t, key)
    ensures forall i :: 0 <= i < |Insert(t, x, key)| ==> Insert(t, x, key)[i] in t || Insert(t, x, key)[i] == x
    decreases |t|
  {
    if |t| > 0 && key(t[0]) <= key(x) {
      InsertMembers(t[1..], x, key);
      var r := Insert(t, x, key);
      forall i | 0 <= i < |r| ensures r[i] in t || r[i] == x {
        if i > 0 {
          assert r[i] == Insert(t[1..], x, key)[i - 1];
        }
      }
    }
  }

  /** Sorting neither invents nor loses elements: every element of the result
      comes from the input. */
  lemma {:induction false} SortByKeyMembers<T>(s: seq<T>, key: T -> int)
    ensures forall i :: 0 <= i < |SortByKey(s, key)| ==> SortByKey(s, key)[i] in s
    decreases |s|
  {
    if |s| > 0 {
      var init := s[..|s| - 1];
      SortByKeyMembers(init, key);
      InsertMembers(SortByKey(init, key), s[|s| - 1], key);
      assert forall y :: y in init ==> y in s;
    }
  }

  /** Sorting keeps, for every key, the elements with that key in input
      order: the sort is stable. */
  lemma {:induction false} SortByKeyStable<T>(s: seq<T>, key: T -> int, k: int)
    ensures WithKey(SortByKey(s, key), key, k) == WithKey(s, key, k)
    decreases |s|
  {
    if |s| > 0 {
      var init := s[..|s| - 1];
      var x := s[|s| - 1];
      var tail := if key(x) == k then [x] else [];
      SortByKeyStable(init, key, k);
      InsertWithKey(SortByKey(init, key), x, key, k);
      assert s == init + [x];
      WithKeyConcat(init, [x], key, k);
      assert WithKey([x], key, k) == tail + WithKey([x][1..], key, k);
      assert [x][1..] == [];
    }
  }

  /** Removing one equal first element keeps the per-key subsequences equal. */
  lemma {:induction false} TailsAgree<T>(r1: seq<T>, r2: seq<T>, key: T -> int, k: int)
    requires |r1| > 0 && |r2| > 0 && r1[0] == r2[0]
    requires WithKey(r1, key, k) == WithKey(r2, key, k)
    ensures WithKey(r1[1..], key, k) == WithKey(r2[1..], key, k)
  {
    var h := if key(r1[0]) == k then [r1[0]] else [];
    var a := WithKey(r1[1..], key, k);
    var b := WithKey(r2[1..], key, k);
    assert WithKey(r1, key, k) == h + a;
    assert WithKey(r2, key, k) == h + b;
    assert (h + a)[|h|..] == a;
    assert (h + b)[|h|..] == b;
  }

  /** Two sorted sequences that agree on every key's elements start with the
      same element. */
  lemma HeadsAgree<T>(r1: seq<T>, r2: seq<T>, key: T -> int)
    requires Sorted(r1, key) && Sorted(r2, key) && |r1| > 0
    requires forall k :: WithKey(r1, key, k) == WithKey(r2, key, k)
    ensures |r2| > 0 && r1[0] == r2[0]
  {
    var m := key(r1[0]);
    WithKeyHas(r1, key, 0);
    WithKeyNonEmpty(r2, key, m);
    var i :| 0 <= i < |r2| && key(r2[i]) == m;
    WithKeyHas(r2, key, 0);
    WithKeyNonEmpty(r1, key, key(r2[0]));
    var j :| 0 <= j < |r1| && key(r1[j]) == key(r2[0]);
    assert key(r2[0]) <= key(r2[i]);
    assert key(r1[0]) <= key(r1[j]);
    assert WithKey(r1, key, m)[0] == r1[0];
    assert WithKey(r2, key, m)[0] == r2[0];
  }

  /** Two sequences that are both ordered by key and agree on every key's
      elements are equal: the stable sort of a sequence is unique. */
  lemma {:induction false} SortedWithKeysUnique<T>(r1: seq<T>, r2: seq<T>, key: T -> int)
    requires Sorted(r1, key) && Sorted(r2, key)
    requires forall k :: WithKey(r1, key, k) == WithKey(r2, key, k)
    ensures r1 == r2
    decreases |r1|
  {
    if |r1| == 0 {
      if |r2| > 0 {
        WithKeyHas(r2, key, 0);
      }
    } else {
      HeadsAgree(r1, r2, key);
      forall k ensures WithKey(r1[1..], key, k) == WithKey(r2[1..], key, k) {
        TailsAgree(r1, r2, key, k);
      }
      SortedWithKeysUnique(r1[1..], r2[1..], key);
      assert r1 == [r1[0]] + r1[1..];
      assert r2 == [r2[0]] + r2[1..];
    }
  }
}
