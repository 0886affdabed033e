/** Array.prototype.filter on sequences, and what it means for two filters to
    split a sequence. */
module Seqs {

  /** The elements of s that satisfy p, in their order in s. */
  function Filter<T>(p: T -> bool, s: seq<T>): seq<T> {
    if s == [] then [] else (if p(s[0]) then [s[0]] else []) + Filter(p, s[1..])
  }

  /** Filter keeps exactly the elements of s that satisfy p. */
  lemma {:induction false} FilterMembers<T>(p: T -> bool, s: seq<T>)
    ensures |Filter(p, s)| <= |s|
    ensures forall x :: x in Filter(p, s) <==> x in s && p(x)
  {
    if s != [] {
      FilterMembers(p, s[1..]);
      assert s == [s[0]] + s[1..];
    }
  }

  lemma {:induction false} FilterKeepsAll<T>(p: T -> bool, s: seq<T>)
    requires forall x :: x in s ==> p(x)
    ensures Filter(p, s) == s
  {
    if s != [] {
      FilterKeepsAll(p, s[1..]);
    }
  }

  /** s is a merge of a and b: every element of s is taken, in order, from the
      front of exactly one of them, and nothing of a or b is left over. */
  predicate Interleaves<T(==)>(s: seq<T>, a: seq<T>, b: seq<T>)
    decreases |s|
  {
    if s == [] then a == [] && b == []
    else
      (a != [] && a[0] == s[0] && Interleaves(s[1..], a[1..], b))
      || (b != [] && b[0] == s[0] && Interleaves(s[1..], a, b[1..]))
  }

  /** a is obtained from s by deleting elements. */
  predicate Subsequence<T(==)>(a: seq<T>, s: seq<T>)
    decreases |s|
  {
    if a == [] then true
    else s != [] && (if a[0] == s[0] then Subsequence(a[1..], s[1..]) else Subsequence(a, s[1..]))
  }

  lemma {:induction false} SubsequenceOfTail<T>(a: seq<T>, s: seq<T>)
    requires s != [] && Subsequence(a, s[1..])
    ensures Subsequence(a, s)
    decreases |s| + |a|
  {
    if a != [] && a[0] == s[0] {
      SubsequenceDropHead(a, s[1..]);
    }
  }

  lemma {:induction false} SubsequenceDropHead<T>(a: seq<T>, t: seq<T>)
    requires a != [] && Subsequence(a, t)
    ensures Subsequence(a[1..], t)
    decreases |t| + |a|
  {
    if a[0] != t[0] {
      SubsequenceDropHead(a, t[1..]);
    }
    SubsequenceOfTail(a[1..], t);
  }

  /** Two filters with complementary conditions split s between them, each
      keeping the order of s. */
  lemma {:induction false} FilterPartition<T>(p: T -> bool, q: T -> bool, s: seq<T>)
    requires forall x :: q(x) == !p(x)
    ensures Interleaves(s, Filter(p, s), Filter(q, s))
  {
    if s != [] {
      FilterPartition(p, q, s[1..]);
      if p(s[0]) {
        assert Filter(p, s) == [s[0]] + Filter(p, s[1..]);
        assert Filter(q, s) == Filter(q, s[1..]);
      } else {
        assert Filter(q, s) == [s[0]] + Filter(q, s[1..]);
        assert Filter(p, s) == Filter(p, s[1..]);
      }
    }
  }

  /** A merge loses and duplicates nothing. */
  lemma {:induction false} InterleavesMultiset<T>(s: seq<T>, a: seq<T>, b: seq<T>)
    requires Interleaves(s, a, b)
    ensures multiset(s) == multiset(a) + multiset(b)
    decreases |s|
  {
    if s != [] {
      assert s == [s[0]] + s[1..];
      if a != [] && a[0] == s[0] && Interleaves(s[1..], a[1..], b) {
        InterleavesMultiset(s[1..], a[1..], b);
        assert a == [a[0]] + a[1..];
      } else {
        InterleavesMultiset(s[1..], a, b[1..]);
        assert b == [b[0]] + b[1..];
      }
    }
  }

  /** Each side of a merge keeps the relative order of the merged sequence. */
  lemma {:induction false} InterleavesSubsequences<T>(s: seq<T>, a: seq<T>, b: seq<T>)
    requires Interleaves(s, a, b)
    ensures Subsequence(a, s) && Subsequence(b, s)
    decreases |s|
  {
    if s != [] {
      if a != [] && a[0] == s[0] && Interleaves(s[1..], a[1..], b) {
        InterleavesSubsequences(s[1..], a[1..], b);
        SubsequenceOfTail(b, s);
      } else {
        InterleavesSubsequences(s[1..], a, b[1..]);
        SubsequenceOfTail(a, s);
      }
    }
  }
}
