/** Sequence facts shared by the trade collections and the sync pipeline. */
module Seqs {

  lemma {:induction false} AppendAssoc<T>(a: seq<T>, b: seq<T>, c: seq<T>)
    ensures a + b + c == a + (b + c)
  {
  }

  /** `s` backwards. */
  function Reversed<T>(s: seq<T>): (r: seq<T>)
    ensures |r| == |s|
    ensures forall k :: 0 <= k < |s| ==> r[k] == s[|s| - 1 - k]
  {
    if s == [] then [] else Reversed(s[1..]) + [s[0]]
  }

  lemma {:induction false} ReversedInvolution<T>(s: seq<T>)
    ensures Reversed(Reversed(s)) == s
  {
    var r := Reversed(Reversed(s));
    assert |r| == |s|;
    forall k | 0 <= k < |s| ensures r[k] == s[k] {
      assert r[k] == Reversed(s)[|s| - 1 - k];
    }
  }

  lemma {:induction false} ReversedMultiset<T>(s: seq<T>)
    ensures multiset(Reversed(s)) == multiset(s)
  {
    if s != [] {
      ReversedMultiset(s[1..]);
      assert s == [s[0]] + s[1..];
    }
  }

  /** `a` is obtained from `b` by deleting elements, keeping the relative order of the rest. */
  predicate IsSubsequence<T(==)>(a: seq<T>, b: seq<T>)
    decreases |b|
  {
    if a == [] then true
    else if b == [] then false
    else if a[0] == b[0] then IsSubsequence(a[1..], b[1..])
    else IsSubsequence(a, b[1..])
  }

  lemma {:induction false} SubsequenceOfEmpty<T>(b: seq<T>)
    ensures IsSubsequence([], b)
  {
  }

  lemma {:induction false} SubsequenceReflexive<T>(a: seq<T>)
    ensures IsSubsequence(a, a)
    decreases |a|
  {
    if a != [] { SubsequenceReflexive(a[1..]); }
  }

  /** Putting an element in front of the larger sequence keeps a subsequence a subsequence. */
  lemma {:induction false} SubsequenceConsSkip<T>(a: seq<T>, x: T, b: seq<T>)
    requires IsSubsequence(a, b)
    ensures IsSubsequence(a, [x] + b)
    decreases |b|, 1
  {
    if a != [] {
      assert ([x] + b)[1..] == b;
      if a[0] == x {
        SubsequenceDropHead(a, b);
      }
    }
  }

  /** Dropping the head of a subsequence leaves a subsequence. */
  lemma {:induction false} SubsequenceDropHead<T>(a: seq<T>, b: seq<T>)
    requires a != [] && IsSubsequence(a, b)
    ensures IsSubsequence(a[1..], b)
    decreases |b|, 0
  {
    assert b == [b[0]] + b[1..];
    if a[0] == b[0] {
      SubsequenceConsSkip(a[1..], b[0], b[1..]);
    } else {
      SubsequenceDropHead(a, b[1..]);
      SubsequenceConsSkip(a[1..], b[0], b[1..]);
    }
  }

  lemma {:induction false} SubsequenceCons<T>(x: T, a: seq<T>, b: seq<T>)
    requires IsSubsequence(a, b)
    ensures IsSubsequence([x] + a, [x] + b)
  {
    assert ([x] + a)[1..] == a;
    assert ([x] + b)[1..] == b;
  }

  lemma {:induction false} SubsequenceAppend<T>(a1: seq<T>, b1: seq<T>, a2: seq<T>, b2: seq<T>)
    requires IsSubsequence(a1, b1) && IsSubsequence(a2, b2)
    ensures IsSubsequence(a1 + a2, b1 + b2)
    decreases |b1|
  {
    if b1 == [] {
      assert a1 == [];
      assert a1 + a2 == a2 && b1 + b2 == b2;
    } else if a1 == [] {
      SubsequenceAppend(a1, b1[1..], a2, b2);
      assert a1 + a2 == a2;
      SubsequenceConsSkip(a2, b1[0], b1[1..] + b2);
      assert [b1[0]] + (b1[1..] + b2) == b1 + b2;
    } else if a1[0] == b1[0] {
      SubsequenceAppend(a1[1..], b1[1..], a2, b2);
      SubsequenceCons(a1[0], a1[1..] + a2, b1[1..] + b2);
      assert [a1[0]] + (a1[1..] + a2) == a1 + a2;
      assert [b1[0]] + (b1[1..] + b2) == b1 + b2;
    } else {
      SubsequenceAppend(a1, b1[1..], a2, b2);
      SubsequenceConsSkip(a1 + a2, b1[0], b1[1..] + b2);
      assert [b1[0]] + (b1[1..] + b2) == b1 + b2;
    }
  }

  /** A sequence is a subsequence of itself followed by anything. */
  lemma {:induction false} PrefixSubsequence<T>(a: seq<T>, b: seq<T>)
    ensures IsSubsequence(a, a + b)
  {
    SubsequenceReflexive(a);
    SubsequenceOfEmpty(b);
    SubsequenceAppend(a, a, [], b);
    assert a + [] == a;
  }

  /** A subsequence of a subsequence is a subsequence. */
  lemma {:induction false} SubsequenceTransitive<T>(a: seq<T>, b: seq<T>, c: seq<T>)
    requires IsSubsequence(a, b) && IsSubsequence(b, c)
    ensures IsSubsequence(a, c)
    decreases |c|
  {
    if a != [] {
      if b[0] == c[0] {
        if a[0] == b[0] {
          SubsequenceTransitive(a[1..], b[1..], c[1..]);
        } else {
          SubsequenceTransitive(a, b[1..], c[1..]);
        }
      } else {
        SubsequenceTransitive(a, b, c[1..]);
        if a[0] == c[0] {
          SubsequenceDropHead(a, c[1..]);
        }
      }
    }
  }

  /** Every element of a subsequence occurs in the larger sequence. */
  lemma {:induction false} SubsequenceElements<T>(a: seq<T>, b: seq<T>)
    requires IsSubsequence(a, b)
    ensures forall x :: x in a ==> x in b
    decreases |b|
  {
    if a != [] {
      if a[0] == b[0] {
        SubsequenceElements(a[1..], b[1..]);
        assert a == [a[0]] + a[1..];
      } else {
        SubsequenceElements(a, b[1..]);
      }
    }
  }
}
