/** Generic sequence operations behind the array idioms of the user interface:
    filtering, membership, appending one element, and the duplicate-free union. */
module Seqs {

  /** No element occurs twice. */
  predicate NoDups<T(==)>(s: seq<T>) {
    forall i, j :: 0 <= i < j < |s| ==> s[i] != s[j]
  }

  /** The elements of `s` that satisfy `p`, in their order in `s`. */
  function Filter<T>(s: seq<T>, p: T -> bool): (r: seq<T>)
    ensures |r| <= |s|
    ensures forall i :: 0 <= i < |r| ==> r[i] in s && p(r[i])
    ensures forall i :: 0 <= i < |s| && p(s[i]) ==> s[i] in r
  {
    if s == [] then []
    else (if p(s[0]) then [s[0]] else []) + Filter(s[1..], p)
  }

  /** Filtering distributes over concatenation, so the filter keeps the relative order. */
  lemma {:induction false} FilterAppend<T>(a: seq<T>, b: seq<T>, p: T -> bool)
    ensures Filter(a + b, p) == Filter(a, p) + Filter(b, p)
  {
    if a == [] {
      assert a + b == b;
    } else {
      assert (a + b)[0] == a[0];
      assert (a + b)[1..] == a[1..] + b;
      FilterAppend(a[1..], b, p);
    }
  }

  /** The `i`-th and `j`-th elements of `r` occur in `s`, in that order. */
  ghost predicate OrderedPair<T>(r: seq<T>, s: seq<T>, i: int, j: int)
    requires 0 <= i < j < |r|
  {
    exists i', j' :: 0 <= i' < j' < |s| && s[i'] == r[i] && s[j'] == r[j]
  }

  /** Every two elements of `r` occur in `s` in the same relative order. */
  ghost predicate KeepsOrder<T>(r: seq<T>, s: seq<T>) {
    forall i, j :: 0 <= i < j < |r| ==> OrderedPair(r, s, i, j)
  }

  /** Order kept with respect to the tail of `s` is kept with respect to `s`. */
  lemma KeepsOrderTail<T>(r: seq<T>, s: seq<T>)
    requires s != [] && KeepsOrder(r, s[1..])
    ensures KeepsOrder(r, s)
  {
    forall i, j | 0 <= i < j < |r| ensures OrderedPair(r, s, i, j) {
      assert OrderedPair(r, s[1..], i, j);
      var a, b :| 0 <= a < b < |s[1..]| && s[1..][a] == r[i] && s[1..][b] == r[j];
      assert s[a + 1] == r[i] && s[b + 1] == r[j];
    }
  }

  /** Putting the head of `s` in front of elements of its tail kept in order keeps the order. */
  lemma KeepsOrderCons<T>(t: seq<T>, s: seq<T>)
    requires s != [] && KeepsOrder(t, s[1..])
    requires forall k :: 0 <= k < |t| ==> t[k] in s[1..]
    ensures KeepsOrder([s[0]] + t, s)
  {
    var r := [s[0]] + t;
    forall i, j | 0 <= i < j < |r| ensures OrderedPair(r, s, i, j) {
      if i == 0 {
        assert r[j] == t[j - 1] && t[j - 1] in s[1..];
        var k :| 0 <= k < |s[1..]| && s[1..][k] == t[j - 1];
        assert s[0] == r[0] && s[k + 1] == r[j];
      } else {
        assert r[i] == t[i - 1] && r[j] == t[j - 1];
        assert OrderedPair(t, s[1..], i - 1, j - 1);
        var a, b :| 0 <= a < b < |s[1..]| && s[1..][a] == t[i - 1] && s[1..][b] == t[j - 1];
        assert s[a + 1] == r[i] && s[b + 1] == r[j];
      }
    }
  }

  /** A filter keeps the relative order of the elements it keeps. */
  lemma {:induction false} FilterOrder<T>(s: seq<T>, p: T -> bool)
    ensures KeepsOrder(Filter(s, p), s)
  {
    if s != [] {
      var t := Filter(s[1..], p);
      FilterOrder(s[1..], p);
      if p(s[0]) {
        assert Filter(s, p) == [s[0]] + t;
        KeepsOrderCons(t, s);
      } else {
        assert Filter(s, p) == t;
        KeepsOrderTail(t, s);
      }
    }
  }

  /** The test that both `p` and `q` pass. */
  function Both<T>(p: T -> bool, q: T -> bool): T -> bool {
    x => p(x) && q(x)
  }

  /** Filtering twice is filtering once by both tests. */
  lemma {:induction false} FilterFilter<T>(s: seq<T>, p: T -> bool, q: T -> bool)
    ensures Filter(Filter(s, p), q) == Filter(s, Both(p, q))
  {
    if s != [] {
      FilterFilter(s[1..], p, q);
      if p(s[0]) {
        var f := Filter(s, p);
        assert f == [s[0]] + Filter(s[1..], p);
        assert f[0] == s[0] && f[1..] == Filter(s[1..], p);
      } else {
        assert Filter(s, p) == Filter(s[1..], p);
      }
    }
  }

  /** A filter that every element passes returns its input. */
  lemma {:induction false} FilterAll<T>(s: seq<T>, p: T -> bool)
    requires forall i :: 0 <= i < |s| ==> p(s[i])
    ensures Filter(s, p) == s
  {
    if s != [] {
      FilterAll(s[1..], p);
    }
  }

  /** The first element a filter returns is the first element of the input that passes. */
  lemma {:induction false} FilterHead<T>(s: seq<T>, p: T -> bool)
    requires Filter(s, p) != []
    ensures exists i :: 0 <= i < |s| && s[i] == Filter(s, p)[0] && p(s[i]) && forall j :: 0 <= j < i ==> !p(s[j])
  {
    if !p(s[0]) {
      FilterHead(s[1..], p);
      var i :| 0 <= i < |s[1..]| && s[1..][i] == Filter(s[1..], p)[0] && p(s[1..][i]) &&
        forall j :: 0 <= j < i ==> !p(s[1..][j]);
      assert s[i + 1] == Filter(s, p)[0];
      assert forall j :: 1 <= j < i + 1 ==> s[j] == s[1..][j - 1];
    }
  }

  /** Filtering keeps a duplicate-free sequence duplicate-free. */
  lemma {:induction false} FilterNoDups<T>(s: seq<T>, p: T -> bool)
    requires NoDups(s)
    ensures NoDups(Filter(s, p))
  {
    if s != [] {
      assert NoDups(s[1..]) by {
        forall i, j | 0 <= i < j < |s[1..]| ensures s[1..][i] != s[1..][j] {
          assert s[1..][i] == s[i + 1] && s[1..][j] == s[j + 1];
        }
      }
      FilterNoDups(s[1..], p);
      assert s[0] !in s[1..];
    }
  }

  /** The test that every element other than `x` passes, used to remove every occurrence of `x`. */
  function Differs<T(==)>(x: T): T -> bool {
    y => y != x
  }

  /** The test that the elements outside `ys` pass. */
  function NotIn<T(==)>(ys: seq<T>): T -> bool {
    y => y !in ys
  }

  /** Removing every occurrence of `x` keeps every other element with its multiplicity. */
  lemma {:induction false} FilterMultisetDiffers<T>(s: seq<T>, x: T)
    ensures multiset(Filter(s, Differs(x))) == multiset(s)[x := 0]
  {
    if s != [] {
      FilterMultisetDiffers(s[1..], x);
      assert s == [s[0]] + s[1..];
    }
  }

  /** Toggling `x`: removed with every occurrence when present, appended when absent. */
  function Toggle<T(==)>(s: seq<T>, x: T): (r: seq<T>)
    ensures x in s ==> x !in r
    ensures x in s ==> forall i :: 0 <= i < |s| && s[i] != x ==> s[i] in r
    ensures x in s ==> forall i :: 0 <= i < |r| ==> r[i] in s
    ensures x in s ==> KeepsOrder(r, s)
    ensures x in s ==> multiset(r) == multiset(s)[x := 0]
    ensures x !in s ==> |r| == |s| + 1 && r[..|s|] == s && r[|s|] == x
  {
    if x in s then
      FilterOrder(s, Differs(x));
      FilterMultisetDiffers(s, x);
      Filter(s, Differs(x))
    else s + [x]
  }

  /** Toggling an absent element twice gives back the original sequence. */
  lemma ToggleTwiceAbsent<T>(s: seq<T>, x: T)
    requires x !in s
    ensures Toggle(Toggle(s, x), x) == s
  {
    var p := Differs(x);
    FilterAppend(s, [x], p);
    FilterAll(s, p);
    assert Filter([x], p) == [] by {
      assert [x][1..] == [];
    }
  }

  /** Toggling keeps a duplicate-free sequence duplicate-free. */
  lemma ToggleNoDups<T>(s: seq<T>, x: T)
    requires NoDups(s)
    ensures NoDups(Toggle(s, x))
  {
    if x in s {
      FilterNoDups(s, Differs(x));
    }
  }

  /** The first occurrence of every element, in order. */
  function Dedup<T(==)>(s: seq<T>): (r: seq<T>)
    ensures NoDups(r)
    ensures |r| <= |s|
    ensures forall i :: 0 <= i < |s| ==> s[i] in r
    ensures forall i :: 0 <= i < |r| ==> r[i] in s
  {
    if s == [] then []
    else
      var d := Dedup(s[..|s| - 1]);
      assert s == s[..|s| - 1] + [s[|s| - 1]];
      if s[|s| - 1] in d then d else d + [s[|s| - 1]]
  }

  /** The index of the first occurrence of `x` in `s` (`s.indexOf(x)`). */
  function FirstIndex<T(==)>(s: seq<T>, x: T): (k: nat)
    requires x in s
    ensures k < |s| && s[k] == x && x !in s[..k]
  {
    if s[0] == x then 0 else 1 + FirstIndex(s[1..], x)
  }

  /** Appending an element does not move the first occurrence of one already present,
      and an element appended fresh is first found at the end. */
  lemma {:induction false} FirstIndexAppend<T>(s: seq<T>, e: T, x: T)
    requires x in s + [e]
    ensures x in s ==> FirstIndex(s + [e], x) == FirstIndex(s, x)
    ensures x !in s ==> FirstIndex(s + [e], x) == |s|
  {
    if s == [] {
      assert [e][0] == x;
    } else if s[0] != x {
      assert (s + [e])[1..] == s[1..] + [e];
      FirstIndexAppend(s[1..], e, x);
    }
  }

  /** Deduplication lists the distinct elements by increasing first occurrence. */
  lemma {:induction false} DedupOrder<T>(s: seq<T>)
    ensures forall i, j :: 0 <= i < j < |Dedup(s)| ==>
              FirstIndex(s, Dedup(s)[i]) < FirstIndex(s, Dedup(s)[j])
  {
    if s != [] {
      var s', e := s[..|s| - 1], s[|s| - 1];
      assert s == s' + [e];
      var d' := Dedup(s');
      DedupOrder(s');
      var d := Dedup(s);
      forall i, j | 0 <= i < j < |d| ensures FirstIndex(s, d[i]) < FirstIndex(s, d[j]) {
        assert d[i] in s';
        FirstIndexAppend(s', e, d[i]);
        FirstIndexAppend(s', e, d[j]);
        if j < |d'| {
          assert d[i] == d'[i] && d[j] == d'[j];
        }
      }
    }
  }

  /** A duplicate-free sequence is its own deduplication. */
  lemma {:induction false} DedupOfNoDups<T>(s: seq<T>)
    requires NoDups(s)
    ensures Dedup(s) == s
  {
    if s != [] {
      var s' := s[..|s| - 1];
      assert NoDups(s');
      DedupOfNoDups(s');
      assert s == s' + [s[|s| - 1]];
    }
  }

  /** Deduplicating `a + b` with `a` duplicate-free starts with `a` itself. */
  lemma {:induction false} DedupKeepsPrefix<T>(a: seq<T>, b: seq<T>)
    requires NoDups(a)
    ensures |a| <= |Dedup(a + b)| && Dedup(a + b)[..|a|] == a
  {
    if b == [] {
      assert a + b == a;
      DedupOfNoDups(a);
    } else {
      var b' := b[..|b| - 1];
      DedupKeepsPrefix(a, b');
      assert (a + b)[..|a + b| - 1] == a + b';
    }
  }
}
