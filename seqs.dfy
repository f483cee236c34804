/** Array operations of the JavaScript runtime that the pages use: `filter`, `find` and a stable `sort`. */
module Seqs {
  import opened Common

  /** `sub` can be obtained from `s` by deleting zero or more elements, keeping the order of the rest. */
  ghost predicate IsSubsequence<T>(sub: seq<T>, s: seq<T>)
    decreases |s|
  {
    if sub == [] then true
    else if s == [] then false
    else (sub[0] == s[0] && IsSubsequence(sub[1..], s[1..])) || IsSubsequence(sub, s[1..])
  }

  /** `Array.prototype.filter`: the elements of `s` that satisfy `p`, in their original order. */
  function Filter<T(!new)>(p: T -> bool, s: seq<T>): (r: seq<T>)
    ensures |r| <= |s|
  {
    if s == [] then []
    else if p(s[0]) then [s[0]] + Filter(p, s[1..]) else Filter(p, s[1..])
  }

  /** What `filter` returns: a subsequence of its input in which every element that satisfies `p`
      occurs as often as in `s`, and no other element occurs. */
  lemma {:induction false} FilterSelects<T(!new)>(p: T -> bool, s: seq<T>)
    ensures IsSubsequence(Filter(p, s), s)
    ensures forall x :: multiset(Filter(p, s))[x] == if p(x) then multiset(s)[x] else 0
    ensures forall i :: 0 <= i < |Filter(p, s)| ==> p(Filter(p, s)[i])
  {
    if s != [] {
      FilterSelects(p, s[1..]);
      assert s == [s[0]] + s[1..];
    }
  }

  /** When every element passes, `filter` returns its input unchanged. */
  lemma {:induction false} FilterKeepsAll<T(!new)>(p: T -> bool, s: seq<T>)
    requires forall i :: 0 <= i < |s| ==> p(s[i])
    ensures Filter(p, s) == s
  {
    if s != [] {
      FilterKeepsAll(p, s[1..]);
    }
  }

  /** `Array.prototype.find`: the first element of `s` that satisfies `p`, or `None` when there is none. */
  function Find<T>(p: T -> bool, s: seq<T>): (r: Option<T>)
    ensures r.None? <==> forall i :: 0 <= i < |s| ==> !p(s[i])
    ensures r.Some? ==> exists i :: 0 <= i < |s| && s[i] == r.value && p(s[i]) && forall j :: 0 <= j < i ==> !p(s[j])
  {
    if s == [] then None
    else if p(s[0]) then Some(s[0])
    else
      var r := Find(p, s[1..]);
      assert r.Some? ==> exists i :: 1 <= i < |s| && s[i] == r.value && p(s[i]) && forall j :: 0 <= j < i ==> !p(s[j]) by {
        if r.Some? {
          var i :| 0 <= i < |s[1..]| && s[1..][i] == r.value && p(s[1..][i]) && forall j :: 0 <= j < i ==> !p(s[1..][j]);
          assert s[i + 1] == r.value && forall j :: 0 <= j < i + 1 ==> !p(s[j]);
        }
      }
      r
  }

  /** `r` is ordered by `key` from largest to smallest. */
  ghost predicate NonIncreasing<T>(key: T -> int, r: seq<T>)
  {
    forall i, j :: 0 <= i < j < |r| ==> key(r[i]) >= key(r[j])
  }

  /** The test "has sort key `k`", used to state stability. */
  function HasKey<T>(key: T -> int, k: int): T -> bool
  {
    x => key(x) == k
  }

  /** Elements with equal keys appear in `r` in the same relative order as in `s`. */
  ghost predicate StableWrt<T(!new)>(key: T -> int, r: seq<T>, s: seq<T>)
  {
    forall k :: Filter(HasKey(key, k), r) == Filter(HasKey(key, k), s)
  }

  /** `filter` on a sequence with a known first element. */
  lemma FilterCons<T(!new)>(p: T -> bool, a: T, s: seq<T>)
    ensures Filter(p, [a] + s) == (if p(a) then [a] else []) + Filter(p, s)
  {
    assert ([a] + s)[1..] == s;
  }

  /** Puts `x` in front of the first element whose key is not larger than its own. */
  function Insert<T(!new)>(key: T -> int, x: T, s: seq<T>): (r: seq<T>)
    ensures multiset(r) == multiset(s) + multiset{x}
  {
    if s == [] || key(x) >= key(s[0]) then [x] + s
    else
      assert s == [s[0]] + s[1..];
      [s[0]] + Insert(key, x, s[1..])
  }

  /** Inserting into a sequence ordered by `key` keeps it ordered. */
  lemma {:induction false} InsertOrdered<T(!new)>(key: T -> int, x: T, s: seq<T>)
    requires NonIncreasing(key, s)
    ensures NonIncreasing(key, Insert(key, x, s))
  {
    if s == [] || key(x) >= key(s[0]) {
      assert forall j :: 0 <= j < |s| ==> key(x) >= key(s[j]);
    } else {
      var t := Insert(key, x, s[1..]);
      InsertOrdered(key, x, s[1..]);
      forall j | 0 <= j < |t| ensures key(s[0]) >= key(t[j]) {
        assert t[j] in multiset(t);
        if t[j] != x {
          assert t[j] in multiset(s[1..]);
          var m :| 0 <= m < |s[1..]| && s[1..][m] == t[j];
          assert s[m + 1] == t[j];
        }
      }
      assert Insert(key, x, s) == [s[0]] + t;
    }
  }

  /** Inserting `x` ahead of every element with its own key keeps each key's elements in input order. */
  lemma {:induction false} InsertStable<T(!new)>(key: T -> int, x: T, s: seq<T>, k: int)
    ensures Filter(HasKey(key, k), Insert(key, x, s)) == Filter(HasKey(key, k), [x] + s)
  {
    var p := HasKey(key, k);
    if s != [] && key(x) < key(s[0]) {
      var t := Insert(key, x, s[1..]);
      InsertStable(key, x, s[1..], k);
      assert Insert(key, x, s) == [s[0]] + t;
      assert [s[0]] + s[1..] == s;
      FilterCons(p, s[0], t);
      FilterCons(p, x, s[1..]);
      FilterCons(p, s[0], s[1..]);
      FilterCons(p, x, s);
      // s[0] and x have different keys, so at most one of them has key k
      if p(x) {
        assert !p(s[0]);
        assert Filter(p, [s[0]] + t) == Filter(p, t) == [x] + Filter(p, s[1..]);
        assert Filter(p, s) == Filter(p, s[1..]);
      } else {
        assert Filter(p, t) == Filter(p, s[1..]);
        assert Filter(p, [x] + s) == Filter(p, s);
      }
    }
  }

  /** A stable sort from the largest key to the smallest, as `Array.prototype.sort` does with the
      comparator `(a, b) => key(b) - key(a)`: the result is a permutation of `s`, ordered by `key`,
      and elements with equal keys keep their input order. */
  function SortDesc<T(!new)>(key: T -> int, s: seq<T>): (r: seq<T>)
    ensures multiset(r) == multiset(s)
    ensures NonIncreasing(key, r)
    ensures StableWrt(key, r, s)
  {
    if s == [] then []
    else
      var t := SortDesc(key, s[1..]);
      assert s == [s[0]] + s[1..];
      InsertOrdered(key, s[0], t);
      assert StableWrt(key, Insert(key, s[0], t), s) by {
        forall k ensures Filter(HasKey(key, k), Insert(key, s[0], t)) == Filter(HasKey(key, k), s) {
          InsertStable(key, s[0], t, k);
          FilterCons(HasKey(key, k), s[0], t);
          FilterCons(HasKey(key, k), s[0], s[1..]);
        }
      }
      Insert(key, s[0], t)
  }

  /** A comparator that always answers 0 leaves a stable sort's input where it was. */
  lemma ConstantKeySortIsIdentity<T(!new)>(key: T -> int, s: seq<T>, c: int)
    requires forall x :: key(x) == c
    ensures SortDesc(key, s) == s
  {
    var r := SortDesc(key, s);
    var p := HasKey(key, c);
    assert Filter(p, r) == Filter(p, s);
    FilterKeepsAll(p, r);
    FilterKeepsAll(p, s);
  }
}
