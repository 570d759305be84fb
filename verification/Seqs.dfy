/** Facts about sequences that several components share: the last `n` elements, and the
    stable sort that `sort_by` performs. */
module Seqs {

  datatype Option<+T> = None | Some(value: T)

  /** The last `n` elements of `s`, or all of them. */
  function Last<T>(s: seq<T>, n: nat): (r: seq<T>)
    ensures |r| == if |s| <= n then |s| else n
  {
    if |s| <= n then s else s[|s| - n..]
  }

  lemma LastAppend<T>(s: seq<T>, t: seq<T>, n: nat)
    ensures Last(Last(s, n) + t, n) == Last(s + t, n)
  {
  }

  lemma LastOfLast<T>(s: seq<T>, t: seq<T>, n: nat)
    ensures Last(s + Last(t, n), n) == Last(s + t, n)
  {
    if |t| > n {
      var u := t[|t| - n..];
      assert (s + u)[|s| + |u| - n..] == u;
      assert (s + t)[|s| + |t| - n..] == u;
    }
  }

  function Map<A, B>(f: A -> B, s: seq<A>): (r: seq<B>)
    ensures |r| == |s| && forall i :: 0 <= i < |s| ==> r[i] == f(s[i])
  {
    if s == [] then [] else [f(s[0])] + Map(f, s[1..])
  }

  lemma MapAppend<A, B>(f: A -> B, s: seq<A>, t: seq<A>)
    ensures Map(f, s + t) == Map(f, s) + Map(f, t)
  {
  }

  lemma MapLast<A, B>(f: A -> B, s: seq<A>, n: nat)
    ensures Map(f, Last(s, n)) == Last(Map(f, s), n)
  {
  }

  ghost predicate NoDup<T>(s: seq<T>) {
    forall i, j :: 0 <= i < j < |s| ==> s[i] != s[j]
  }

  /** The elements of `s` that satisfy `p`, in order. */
  function Filter<T(!new)>(p: T -> bool, s: seq<T>): (r: seq<T>)
    ensures forall x :: x in r <==> x in s && p(x)
  {
    if s == [] then []
    else if p(s[0]) then [s[0]] + Filter(p, s[1..])
    else Filter(p, s[1..])
  }

  lemma {:induction false} FilterAll<T(!new)>(p: T -> bool, s: seq<T>)
    requires forall i :: 0 <= i < |s| ==> p(s[i])
    ensures Filter(p, s) == s
  {
    if s != [] {
      FilterAll(p, s[1..]);
    }
  }

  lemma {:induction false} FilterWithout<T(!new)>(p: T -> bool, s: seq<T>, k: nat)
    requires k < |s| && !p(s[k]) && forall i :: 0 <= i < |s| && i != k ==> p(s[i])
    ensures Filter(p, s) == s[..k] + s[k + 1..]
  {
    if k == 0 {
      FilterAll(p, s[1..]);
    } else {
      var rest := s[1..];
      FilterWithout(p, rest, k - 1);
      assert s[..k] + s[k + 1..] == [s[0]] + (rest[..k - 1] + rest[k..]);
    }
  }

  function Insert<T>(x: T, s: seq<T>, le: (T, T) -> bool): seq<T> {
    if s == [] then [x]
    else if le(x, s[0]) then [x] + s
    else [s[0]] + Insert(x, s[1..], le)
  }

  /** Stable insertion sort: among equals, the earlier element stays first. */
  function Sort<T>(s: seq<T>, le: (T, T) -> bool): seq<T> {
    if s == [] then [] else Insert(s[0], Sort(s[1..], le), le)
  }

  ghost predicate SortedBy<T>(s: seq<T>, le: (T, T) -> bool) {
    forall i, j :: 0 <= i < j < |s| ==> le(s[i], s[j])
  }

  ghost predicate TotalPreorder<T(!new)>(le: (T, T) -> bool) {
    && (forall a, b :: le(a, b) || le(b, a))
    && (forall a, b, c :: le(a, b) && le(b, c) ==> le(a, c))
  }

  lemma {:induction false} InsertMultiset<T>(x: T, s: seq<T>, le: (T, T) -> bool)
    ensures multiset(Insert(x, s, le)) == multiset{x} + multiset(s)
  {
    if s != [] && !le(x, s[0]) {
      InsertMultiset(x, s[1..], le);
      assert s == [s[0]] + s[1..];
    }
  }

  lemma {:induction false} SortMultiset<T>(s: seq<T>, le: (T, T) -> bool)
    ensures multiset(Sort(s, le)) == multiset(s)
    ensures forall x :: x in Sort(s, le) <==> x in s
  {
    if s != [] {
      SortMultiset(s[1..], le);
      InsertMultiset(s[0], Sort(s[1..], le), le);
      assert s == [s[0]] + s[1..];
    }
    assert forall x :: x in Sort(s, le) <==> x in multiset(Sort(s, le));
  }

  lemma {:induction false} InsertSorted<T(!new)>(x: T, s: seq<T>, le: (T, T) -> bool)
    requires TotalPreorder(le) && SortedBy(s, le)
    ensures SortedBy(Insert(x, s, le), le)
  {
    if s != [] && !le(x, s[0]) {
      InsertSorted(x, s[1..], le);
      InsertMultiset(x, s[1..], le);
      var r := Insert(x, s[1..], le);
      forall k | 0 <= k < |r| ensures le(s[0], r[k]) {
        assert r[k] in multiset(r);
        assert r[k] == x || r[k] in s[1..];
      }
    }
  }

  lemma {:induction false} SortSorted<T(!new)>(s: seq<T>, le: (T, T) -> bool)
    requires TotalPreorder(le)
    ensures SortedBy(Sort(s, le), le)
  {
    if s != [] {
      SortSorted(s[1..], le);
      InsertSorted(s[0], Sort(s[1..], le), le);
    }
  }

  lemma SameHead<T>(s: seq<T>, t: seq<T>, le: (T, T) -> bool)
    requires s != [] && multiset(s) == multiset(t) && SortedBy(s, le) && SortedBy(t, le)
    ensures t != [] && t[0] in s && (s[0] == t[0] || (le(s[0], t[0]) && le(t[0], s[0])))
  {
    assert s[0] in multiset(t);
    assert t[0] in multiset(s);
  }

  lemma TailMultiset<T>(s: seq<T>)
    requires s != []
    ensures multiset(s[1..]) == multiset(s) - multiset{s[0]}
  {
    assert s == [s[0]] + s[1..];
  }

  /** Two sorted arrangements of the same elements are equal when no two different elements tie. */
  lemma {:induction false} SortedUnique<T>(s: seq<T>, t: seq<T>, le: (T, T) -> bool)
    requires multiset(s) == multiset(t) && SortedBy(s, le) && SortedBy(t, le)
    requires forall a, b :: a in s && b in s && le(a, b) && le(b, a) ==> a == b
    ensures s == t
  {
    if s == [] {
      assert |multiset(t)| == 0;
    } else {
      SameHead(s, t, le);
      TailMultiset(s);
      TailMultiset(t);
      SortedUnique(s[1..], t[1..], le);
      assert s == [s[0]] + s[1..] && t == [t[0]] + t[1..];
    }
  }

  lemma {:induction false} InsertStable<T(!new)>(p: T -> bool, x: T, s: seq<T>, le: (T, T) -> bool)
    requires forall a, b :: p(a) && p(b) ==> le(a, b)
    ensures Filter(p, Insert(x, s, le)) == Filter(p, [x] + s)
  {
    if s != [] && !le(x, s[0]) {
      InsertStable(p, x, s[1..], le);
      assert ([x] + s)[1..] == s && ([x] + s[1..])[1..] == s[1..];
      assert ([s[0]] + Insert(x, s[1..], le))[1..] == Insert(x, s[1..], le);
    }
  }

  /** Stability: elements that all tie keep their relative order. */
  lemma {:induction false} SortStable<T(!new)>(p: T -> bool, s: seq<T>, le: (T, T) -> bool)
    requires forall a, b :: p(a) && p(b) ==> le(a, b)
    ensures Filter(p, Sort(s, le)) == Filter(p, s)
  {
    if s != [] {
      SortStable(p, s[1..], le);
      InsertStable(p, s[0], Sort(s[1..], le), le);
      assert ([s[0]] + Sort(s[1..], le))[1..] == Sort(s[1..], le);
    }
  }

  // ---- The first `n` elements of a set under a strict order ----

  /** `p` lists, in order, the first `n` elements of `all` (all of them if there are fewer). */
  ghost predicate FirstOf<T>(p: seq<T>, all: set<T>, lt: (T, T) -> bool, n: nat) {
    && |p| <= n
    && (forall m :: m in p ==> m in all)
    && (forall i, j :: 0 <= i < j < |p| ==> lt(p[i], p[j]))
    && (forall m :: m in all && m !in p ==> |p| == n && forall q :: q in p ==> lt(q, m))
  }

  ghost predicate Asymmetric<T(!new)>(lt: (T, T) -> bool) {
    forall a, b :: lt(a, b) ==> !lt(b, a)
  }

  lemma FirstOfIndex<T(!new)>(p: seq<T>, q: seq<T>, all: set<T>, lt: (T, T) -> bool, n: nat, k: nat)
    requires Asymmetric(lt) && FirstOf(p, all, lt, n) && FirstOf(q, all, lt, n)
    requires k < |p| && k < |q| && p[..k] == q[..k]
    ensures p[k] == q[k] || lt(q[k], p[k])
  {
    if p[k] in q {
      var j :| 0 <= j < |q| && q[j] == p[k];
    } else {
      assert q[k] in q;
    }
  }

  lemma {:induction false} FirstOfPrefix<T(!new)>(p: seq<T>, q: seq<T>, all: set<T>, lt: (T, T) -> bool, n: nat, k: nat)
    requires Asymmetric(lt) && FirstOf(p, all, lt, n) && FirstOf(q, all, lt, n)
    requires k <= |p| && k <= |q|
    ensures p[..k] == q[..k]
  {
    if k > 0 {
      FirstOfPrefix(p, q, all, lt, n, k - 1);
      FirstOfIndex(p, q, all, lt, n, k - 1);
      FirstOfIndex(q, p, all, lt, n, k - 1);
      assert p[..k] == p[..k - 1] + [p[k - 1]] && q[..k] == q[..k - 1] + [q[k - 1]];
    }
  }

  lemma NotInPrefix<T(!new)>(q: seq<T>, lt: (T, T) -> bool, k: nat)
    requires Asymmetric(lt) && forall i, j :: 0 <= i < j < |q| ==> lt(q[i], q[j])
    requires k < |q|
    ensures q[k] in q && q[k] !in q[..k]
  {
  }

  lemma FirstOfLength<T(!new)>(p: seq<T>, q: seq<T>, all: set<T>, lt: (T, T) -> bool, n: nat)
    requires Asymmetric(lt) && FirstOf(p, all, lt, n) && FirstOf(q, all, lt, n)
    ensures |q| <= |p|
  {
    if |p| < |q| {
      FirstOfPrefix(p, q, all, lt, n, |p|);
      NotInPrefix(q, lt, |p|);
    }
  }

  /** The description determines the list. */
  lemma FirstOfUnique<T(!new)>(p: seq<T>, q: seq<T>, all: set<T>, lt: (T, T) -> bool, n: nat)
    requires Asymmetric(lt) && FirstOf(p, all, lt, n) && FirstOf(q, all, lt, n)
    ensures p == q
  {
    FirstOfLength(p, q, all, lt, n);
    FirstOfLength(q, p, all, lt, n);
    FirstOfPrefix(p, q, all, lt, n, |p|);
  }
}
