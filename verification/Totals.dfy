/** An optional value, for map lookups and nil pointers. */
module Wrappers {
  datatype Option<+T> = None | Some(value: T) {
    function GetOr(default: T): T {
      match this
      case Some(v) => v
      case None => default
    }
  }
}

/** Sums, maxima and counts over sequences, read from the front, as loops read them. */
module Totals {
  function Max(a: int, b: int): int {
    if a < b then b else a
  }

  function SumBy<T>(f: T -> nat, s: seq<T>): nat {
    if s == [] then 0 else SumBy(f, s[..|s| - 1]) + f(s[|s| - 1])
  }

  /** The largest f-value, and 0 for the empty sequence. */
  function MaxBy<T>(f: T -> nat, s: seq<T>): nat {
    if s == [] then 0 else Max(MaxBy(f, s[..|s| - 1]), f(s[|s| - 1]))
  }

  /** The largest f-value is at most a number exactly when all of them are. */
  lemma {:induction false} MaxByIsLeast<T>(f: T -> nat, s: seq<T>, bound: nat)
    ensures MaxBy(f, s) <= bound <==> forall x | x in s :: f(x) <= bound
  {
    if s != [] {
      MaxByIsLeast(f, s[..|s| - 1], bound);
      assert s == s[..|s| - 1] + [s[|s| - 1]];
    }
  }

  lemma {:induction false} SumByAppend<T>(f: T -> nat, s: seq<T>, t: seq<T>)
    ensures SumBy(f, s + t) == SumBy(f, s) + SumBy(f, t)
  {
    if t == [] {
      assert s + t == s;
    } else {
      SumByAppend(f, s, t[..|t| - 1]);
      assert (s + t)[..|s + t| - 1] == s + t[..|t| - 1];
    }
  }

  lemma SumByPush<T>(f: T -> nat, s: seq<T>, x: T)
    ensures SumBy(f, s + [x]) == SumBy(f, s) + f(x)
  {
    assert (s + [x])[..|s|] == s;
  }

  lemma SumByInsert<T>(f: T -> nat, a: seq<T>, x: T, b: seq<T>)
    ensures SumBy(f, a + [x] + b) == SumBy(f, a + b) + f(x)
  {
    SumByAppend(f, a + [x], b);
    SumByPush(f, a, x);
    SumByAppend(f, a, b);
  }

  lemma SplitAt<T>(s: seq<T>, i: nat)
    requires i < |s|
    ensures s == s[..i] + [s[i]] + s[i + 1..]
  {
  }

  lemma SumByRemove<T>(f: T -> nat, s: seq<T>, i: nat)
    requires i < |s|
    ensures SumBy(f, s) == SumBy(f, s[..i] + s[i + 1..]) + f(s[i])
  {
    SplitAt(s, i);
    SumByInsert(f, s[..i], s[i], s[i + 1..]);
  }

  lemma {:induction false} SumByMonotone<T>(f: T -> nat, g: T -> nat, s: seq<T>)
    requires forall x :: x in s ==> f(x) <= g(x)
    ensures SumBy(f, s) <= SumBy(g, s)
  {
    if s != [] {
      SumByMonotone(f, g, s[..|s| - 1]);
    }
  }

  lemma {:induction false} RealOfProduct(a: int, b: nat)
    ensures (a * b) as real == a as real * b as real
  {
    if b > 0 {
      RealOfProduct(a, b - 1);
      assert a * b == a * (b - 1) + a;
    }
  }
}

/** Rearranging a sequence, and the existence of sorted rearrangements. */
module Permutations {
  import opened Totals

  ghost predicate SortedBy<T(!new)>(key: T -> int, s: seq<T>) {
    forall i, j | 0 <= i < j < |s| :: key(s[i]) <= key(s[j])
  }

  ghost predicate Permutes<T(!new)>(a: seq<T>, b: seq<T>) {
    multiset(a) == multiset(b)
  }

  lemma InsertKeepsOrder<T(!new)>(key: T -> int, r: seq<T>, n: nat, x: T)
    requires SortedBy(key, r) && n <= |r|
    requires n > 0 ==> key(r[n - 1]) <= key(x)
    requires forall j | n <= j < |r| :: key(r[j]) > key(x)
    ensures SortedBy(key, r[..n] + [x] + r[n..])
  {
    var t := r[..n] + [x] + r[n..];
    forall i, j | 0 <= i < j < |t| ensures key(t[i]) <= key(t[j]) {
      if i < n {
        assert t[i] == r[i] && key(r[i]) <= key(r[n - 1]);
      }
    }
  }

  lemma InsertAdds<T(!new)>(r: seq<T>, n: nat, x: T)
    requires n <= |r|
    ensures multiset(r[..n] + [x] + r[n..]) == multiset(r) + multiset{x}
  {
    assert r == r[..n] + r[n..];
  }

  /** Inserts after the last element whose key is not larger. */
  method Insert<T(!new)>(key: T -> int, s: seq<T>, x: T) returns (r: seq<T>)
    requires SortedBy(key, s)
    ensures SortedBy(key, r) && multiset(r) == multiset(s) + multiset{x}
  {
    var n := |s|;
    while n > 0 && key(s[n - 1]) > key(x)
      invariant 0 <= n <= |s|
      invariant forall j | n <= j < |s| :: key(s[j]) > key(x)
    {
      n := n - 1;
    }
    InsertKeepsOrder(key, s, n, x);
    InsertAdds(s, n, x);
    r := s[..n] + [x] + s[n..];
  }

  /** Sorts by a key; callers may not rely on the order among equal keys. */
  method Sort<T(!new)>(key: T -> int, s: seq<T>) returns (r: seq<T>)
    ensures SortedBy(key, r) && Permutes(s, r)
  {
    r := [];
    for i := 0 to |s|
      invariant SortedBy(key, r) && Permutes(s[..i], r)
    {
      assert s[..i + 1] == s[..i] + [s[i]];
      r := Insert(key, r, s[i]);
    }
    assert s[..|s|] == s;
  }

  lemma RemoveFromBoth<T(!new)>(a: seq<T>, b: seq<T>, x: T)
    requires multiset(a) + multiset{x} == multiset(b) + multiset{x}
    ensures Permutes(a, b)
  {
    assert multiset(a) == multiset(a) + multiset{x} - multiset{x};
    assert multiset(b) == multiset(b) + multiset{x} - multiset{x};
  }

  lemma {:induction false} SumOfPermutation<T(!new)>(f: T -> nat, a: seq<T>, b: seq<T>)
    requires Permutes(a, b)
    ensures SumBy(f, a) == SumBy(f, b)
  {
    if a == [] {
      assert |multiset(b)| == 0;
    } else {
      var x := a[|a| - 1];
      assert x in multiset(b);
      var i :| 0 <= i < |b| && b[i] == x;
      SplitAt(b, i);
      assert a == a[..|a| - 1] + [x];
      assert multiset(b) == multiset(b[..i] + b[i + 1..]) + multiset{x};
      SumByRemove(f, b, i);
      RemoveFromBoth(a[..|a| - 1], b[..i] + b[i + 1..], x);
      SumOfPermutation(f, a[..|a| - 1], b[..i] + b[i + 1..]);
    }
  }
}

/** Keys made of names with slashes between them. */
module Keys {
  lemma NameIsInKey(a: string, x: string, i: nat)
    ensures i < |a| ==> (a + "/" + x)[i] in a
  {
    if i < |a| {
      assert (a + "/" + x)[i] == a[i];
    }
  }

  /** A name without a slash is what comes before the first slash of a key. */
  lemma PrefixBeforeSlash(a: string, b: string, x: string, y: string)
    requires '/' !in a && '/' !in b && a + "/" + x == b + "/" + y
    ensures a == b
  {
    var key := a + "/" + x;
    assert key[|a|] == '/' && key[|b|] == '/';
    NameIsInKey(b, y, |a|);
    NameIsInKey(a, x, |b|);
    assert a == key[..|a|] && b == key[..|b|];
  }

  lemma SuffixAfterSlash(a: string, x: string, y: string)
    requires a + "/" + x == a + "/" + y
    ensures x == y
  {
    assert (a + "/" + x)[|a| + 1..] == x && (a + "/" + y)[|a| + 1..] == y;
  }
}
