/** Optional and fallible values, and facts about finite collections that several parts use. */
module Collections {
  datatype Option<+T> = None | Some(value: T)

  datatype Result<+T> = Ok(value: T) | Err

  predicate NoRepeats<T(==)>(s: seq<T>) {
    forall i, j :: 0 <= i < j < |s| ==> s[i] != s[j]
  }

  lemma {:induction false} SubsetSize<T>(a: set<T>, b: set<T>)
    requires a <= b
    ensures |a| <= |b|
    decreases |a|
  {
    if a != {} {
      var x :| x in a;
      SubsetSize(a - {x}, b - {x});
    }
  }

  lemma UnionSize<T>(a: set<T>, b: set<T>)
    ensures |a + b| <= |a| + |b|
  {
    assert a + b == a + (b - a);
    SubsetSize(b - a, b);
  }

  lemma SameMembers<T>(a: seq<T>, b: seq<T>)
    requires multiset(a) == multiset(b)
    ensures forall x :: x in a <==> x in b
  {
    forall x ensures x in a <==> x in b {
      assert x in multiset(a) <==> x in multiset(b);
    }
  }

  lemma TwiceCounted<T>(s: seq<T>, i: nat, j: nat)
    requires i < j < |s| && s[i] == s[j]
    ensures multiset(s)[s[i]] >= 2
  {
    assert s == s[..j] + [s[j]] + s[j + 1..];
    assert s[i] in s[..j];
    assert s[i] in multiset(s[..j]);
  }

  lemma {:induction false} OnceCounted<T>(s: seq<T>, x: T)
    requires NoRepeats(s)
    ensures multiset(s)[x] <= 1
    decreases |s|
  {
    if s != [] {
      var n := |s| - 1;
      OnceCounted(s[..n], x);
      assert s == s[..n] + [s[n]];
      if s[n] == x {
        assert x !in s[..n];
        assert x !in multiset(s[..n]);
      }
    }
  }

  /** A permutation of a sequence without repetitions has none either. */
  lemma NoRepeatsPermuted<T>(a: seq<T>, b: seq<T>)
    requires NoRepeats(a) && multiset(a) == multiset(b)
    ensures NoRepeats(b)
  {
    forall i, j | 0 <= i < j < |b| ensures b[i] != b[j] {
      if b[i] == b[j] {
        TwiceCounted(b, i, j);
        OnceCounted(a, b[i]);
      }
    }
  }

  lemma TailContents<T>(s: seq<T>)
    requires s != []
    ensures multiset(s[1..]) == multiset(s) - multiset{s[0]}
  {
    assert s == [s[0]] + s[1..];
  }

  lemma PrefixContents<T>(s: seq<T>, i: nat)
    requires i < |s|
    ensures multiset(s[..i + 1]) == multiset(s[..i]) + multiset{s[i]}
  {
    assert s[..i + 1] == s[..i] + [s[i]];
  }

  lemma SameHeadAndTail<T>(a: seq<T>, b: seq<T>)
    requires a != [] && b != [] && a[0] == b[0] && a[1..] == b[1..]
    ensures a == b
  {
    assert a == [a[0]] + a[1..];
    assert b == [b[0]] + b[1..];
  }

  lemma EmptyContents<T>(s: seq<T>)
    requires multiset(s) == multiset{}
    ensures s == []
  {
    assert |multiset(s)| == |s|;
  }

  lemma PrefixFromHead<T>(s: seq<T>, j: nat)
    requires 0 < j <= |s|
    ensures s[..j] == [s[0]] + s[1..][..j - 1]
  {
  }
}
