/** Order-preserving filters on sequences, used to describe key orders. */
module Seqs {

  /** Key names of a UI node. */
  type Key = string

  /** No element occurs twice. */
  predicate NoDup<T(==)>(s: seq<T>)
  {
    forall i, j :: 0 <= i < j < |s| ==> s[i] != s[j]
  }

  /** The set of elements of a sequence. */
  function Elems(s: seq<Key>): set<Key>
  {
    set x | x in s
  }

  /** The elements of `s` that lie in `p`, in their order in `s`. */
  function Keep(s: seq<Key>, p: set<Key>): (r: seq<Key>)
    ensures forall x {:trigger x in r} :: x in r <==> x in s && x in p
    ensures |r| <= |s|
  {
    if s == [] then [] else (if s[0] in p then [s[0]] else []) + Keep(s[1..], p)
  }

  /** The elements of `s` that lie outside `p`, in their order in `s`. */
  function Drop(s: seq<Key>, p: set<Key>): (r: seq<Key>)
    ensures forall x {:trigger x in r} :: x in r <==> x in s && x !in p
    ensures |r| <= |s|
  {
    if s == [] then [] else (if s[0] in p then [] else [s[0]]) + Drop(s[1..], p)
  }

  /** Position of the first occurrence of `x` (Python's `list.index`). */
  function IndexOf<T(==)>(s: seq<T>, x: T): (i: nat)
    requires x in s
    ensures i < |s| && s[i] == x
    ensures forall j :: 0 <= j < i ==> s[j] != x
  {
    if s[0] == x then 0 else 1 + IndexOf(s[1..], x)
  }

  /** `s[::-1]`. */
  function Reversed<T>(s: seq<T>): (r: seq<T>)
    ensures |r| == |s|
    ensures forall i :: 0 <= i < |s| ==> r[i] == s[|s| - 1 - i]
  {
    seq(|s|, i requires 0 <= i < |s| => s[|s| - 1 - i])
  }

  lemma {:induction false} KeepAppend(a: seq<Key>, b: seq<Key>, p: set<Key>)
    ensures Keep(a + b, p) == Keep(a, p) + Keep(b, p)
  {
    if a == [] {
      assert a + b == b;
    } else {
      assert (a + b)[0] == a[0];
      assert (a + b)[1..] == a[1..] + b;
      KeepAppend(a[1..], b, p);
      AppendAssoc(if a[0] in p then [a[0]] else [], Keep(a[1..], p), Keep(b, p));
    }
  }

  lemma {:induction false} DropAppend(a: seq<Key>, b: seq<Key>, p: set<Key>)
    ensures Drop(a + b, p) == Drop(a, p) + Drop(b, p)
  {
    if a == [] {
      assert a + b == b;
    } else {
      assert (a + b)[0] == a[0];
      assert (a + b)[1..] == a[1..] + b;
      DropAppend(a[1..], b, p);
      AppendAssoc(if a[0] in p then [] else [a[0]], Drop(a[1..], p), Drop(b, p));
    }
  }

  /** Dropping elements no element of `s` belongs to changes nothing. */
  lemma {:induction false} DropDisjoint(s: seq<Key>, p: set<Key>)
    requires forall x :: x in s ==> x !in p
    ensures Drop(s, p) == s
  {
    if s != [] {
      assert s[0] in s;
      assert forall x :: x in s[1..] ==> x in s;
      DropDisjoint(s[1..], p);
    }
  }

  /** Keeping a superset of the elements of `s` keeps all of `s`. */
  lemma {:induction false} KeepCovering(s: seq<Key>, p: set<Key>)
    requires forall x :: x in s ==> x in p
    ensures Keep(s, p) == s
  {
    if s != [] {
      assert s[0] in s;
      assert forall x :: x in s[1..] ==> x in s;
      KeepCovering(s[1..], p);
    }
  }

  /** Keeping elements none of which occurs in `s` keeps nothing. */
  lemma {:induction false} KeepDisjoint(s: seq<Key>, p: set<Key>)
    requires forall x :: x in s ==> x !in p
    ensures Keep(s, p) == []
  {
    if s != [] {
      assert s[0] in s;
      assert forall x :: x in s[1..] ==> x in s;
      KeepDisjoint(s[1..], p);
    }
  }

  /** Dropping a superset of the elements of `s` drops everything. */
  lemma {:induction false} DropCovering(s: seq<Key>, p: set<Key>)
    requires forall x :: x in s ==> x in p
    ensures Drop(s, p) == []
  {
    if s != [] {
      assert s[0] in s;
      assert forall x :: x in s[1..] ==> x in s;
      DropCovering(s[1..], p);
    }
  }

  /** Two drops of the union. */
  lemma {:induction false} DropDrop(s: seq<Key>, p: set<Key>, q: set<Key>)
    ensures Drop(Drop(s, p), q) == Drop(s, p + q)
  {
    if s != [] {
      DropDrop(s[1..], p, q);
      var t := Drop(s, p);
      if s[0] in p {
        assert t == Drop(s[1..], p);
        assert Drop(s, p + q) == Drop(s[1..], p + q);
      } else {
        assert t == [s[0]] + Drop(s[1..], p);
        assert t != [] && t[0] == s[0] && t[1..] == Drop(s[1..], p);
        assert Drop(t, q) == (if s[0] in q then [] else [s[0]]) + Drop(Drop(s[1..], p), q);
        assert Drop(s, p + q) == (if s[0] in q then [] else [s[0]]) + Drop(s[1..], p + q);
      }
    }
  }

  /** Dropping after keeping keeps the difference. */
  lemma {:induction false} DropKeep(s: seq<Key>, p: set<Key>, q: set<Key>)
    ensures Drop(Keep(s, p), q) == Keep(s, p - q)
  {
    if s != [] {
      DropKeep(s[1..], p, q);
      var t := Keep(s, p);
      if s[0] in p {
        assert t == [s[0]] + Keep(s[1..], p);
        assert t != [] && t[0] == s[0] && t[1..] == Keep(s[1..], p);
        assert Drop(t, q) == (if s[0] in q then [] else [s[0]]) + Drop(Keep(s[1..], p), q);
        assert Keep(s, p - q) == (if s[0] in q then [] else [s[0]]) + Keep(s[1..], p - q);
      } else {
        assert t == Keep(s[1..], p);
        assert Keep(s, p - q) == Keep(s[1..], p - q);
      }
    }
  }

  /** Keeping only depends on the part of `p` that occurs in `s`. */
  lemma {:induction false} KeepRelevant(s: seq<Key>, p: set<Key>, q: set<Key>)
    requires forall x :: x in s ==> (x in p <==> x in q)
    ensures Keep(s, p) == Keep(s, q)
  {
    if s != [] {
      assert s[0] in s;
      assert forall x :: x in s[1..] ==> x in s;
      KeepRelevant(s[1..], p, q);
    }
  }

  /** Dropping only depends on the part of `p` that occurs in `s`. */
  lemma {:induction false} DropRelevant(s: seq<Key>, p: set<Key>, q: set<Key>)
    requires forall x :: x in s ==> (x in p <==> x in q)
    ensures Drop(s, p) == Drop(s, q)
  {
    if s != [] {
      assert s[0] in s;
      assert forall x :: x in s[1..] ==> x in s;
      DropRelevant(s[1..], p, q);
    }
  }

  lemma {:induction false} KeepNoDup(s: seq<Key>, p: set<Key>)
    requires NoDup(s)
    ensures NoDup(Keep(s, p))
  {
    if s != [] {
      assert NoDup(s[1..]) by {
        forall i, j | 0 <= i < j < |s[1..]| ensures s[1..][i] != s[1..][j] {
          assert s[1..][i] == s[i + 1] && s[1..][j] == s[j + 1];
        }
      }
      KeepNoDup(s[1..], p);
      assert s[0] !in s[1..] by {
        forall k | 0 <= k < |s[1..]| ensures s[1..][k] != s[0] { assert s[1..][k] == s[k + 1]; }
      }
      NoDupConcat((if s[0] in p then [s[0]] else []), Keep(s[1..], p));
    }
  }

  lemma {:induction false} DropNoDup(s: seq<Key>, p: set<Key>)
    requires NoDup(s)
    ensures NoDup(Drop(s, p))
  {
    if s != [] {
      assert NoDup(s[1..]) by {
        forall i, j | 0 <= i < j < |s[1..]| ensures s[1..][i] != s[1..][j] {
          assert s[1..][i] == s[i + 1] && s[1..][j] == s[j + 1];
        }
      }
      DropNoDup(s[1..], p);
      assert s[0] !in s[1..] by {
        forall k | 0 <= k < |s[1..]| ensures s[1..][k] != s[0] { assert s[1..][k] == s[k + 1]; }
      }
      NoDupConcat((if s[0] in p then [] else [s[0]]), Drop(s[1..], p));
    }
  }

  /** Concatenating two duplicate-free sequences with no common element. */
  lemma NoDupConcat<T>(a: seq<T>, b: seq<T>)
    requires NoDup(a) && NoDup(b)
    requires forall x :: x in a ==> x !in b
    ensures NoDup(a + b)
  {
    forall i, j | 0 <= i < j < |a + b| ensures (a + b)[i] != (a + b)[j] {
      if j < |a| {
      } else if i < |a| {
        assert (a + b)[i] in a && (a + b)[j] == b[j - |a|];
      } else {
        assert (a + b)[i] == b[i - |a|] && (a + b)[j] == b[j - |a|];
      }
    }
  }

  /** Two places of a duplicate-free sequence hold different elements. */
  lemma NoDupAt<T>(s: seq<T>, i: nat, j: nat)
    requires NoDup(s) && i < j < |s|
    ensures s[i] != s[j]
  {
  }

  /** An element before the last of `s + [x]` is one of `s`. */
  lemma SnocAt<T>(s: seq<T>, x: T, k: nat)
    requires k < |s|
    ensures (s + [x])[k] == s[k]
  {
  }

  /** A sequence is what comes before place `k`, the element there, and the rest. */
  lemma SplitAt<T>(s: seq<T>, k: nat)
    requires k < |s|
    ensures s == (s[..k] + [s[k]]) + s[k + 1..]
  {
    assert s == (s[..k] + [s[k]]) + s[k + 1..];
  }

  /** The last element of `s + [x]` is `x`. */
  lemma SnocLast<T>(s: seq<T>, x: T)
    ensures (s + [x])[|s|] == x
  {
  }

  /** Whatever a prefix holds, the whole sequence holds. */
  lemma TakeIn<T>(s: seq<T>, n: nat)
    requires n <= |s|
    ensures forall x :: x in s[..n] ==> x in s
  {
  }

  /** A prefix keeps the elements it covers. */
  lemma TakeAt<T>(s: seq<T>, n: nat, k: nat)
    requires k < n <= |s|
    ensures s[..n][k] == s[k]
  {
  }

  /** The last element of a join comes from its second part. */
  lemma AppendLast<T>(a: seq<T>, b: seq<T>)
    requires b != []
    ensures (a + b)[..|a + b| - 1] == a + b[..|b| - 1]
    ensures (a + b)[|a + b| - 1] == b[|b| - 1]
  {
    assert (a + b)[..|a + b| - 1] == a + b[..|b| - 1];
  }

  /** `Keep` and `Drop` on a sequence with a given first element. */
  lemma KeepDropCons(x: Key, s: seq<Key>, p: set<Key>)
    ensures Keep([x] + s, p) == (if x in p then [x] else []) + Keep(s, p)
    ensures Drop([x] + s, p) == (if x in p then [] else [x]) + Drop(s, p)
  {
    assert ([x] + s)[0] == x;
    assert ([x] + s)[1..] == s;
  }

  lemma AppendAssoc<T>(a: seq<T>, b: seq<T>, c: seq<T>)
    ensures (a + b) + c == a + (b + c)
  {
  }

}
