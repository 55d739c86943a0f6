/** Facts about finite sequences shared by every component: order-preserving
    removal, subsequences and duplicate-freedom. */
module Sequences {

  predicate NoDup<T(==)>(s: seq<T>) {
    forall i, j :: 0 <= i < j < |s| ==> s[i] != s[j]
  }

  /** `a` can be obtained from `b` by deleting elements, keeping the order. */
  predicate Subseq<T(==)>(a: seq<T>, b: seq<T>)
    decreases |b|
  {
    if a == [] then true
    else if b == [] then false
    else
      || (a[|a| - 1] == b[|b| - 1] && Subseq(a[..|a| - 1], b[..|b| - 1]))
      || Subseq(a, b[..|b| - 1])
  }

  /** The elements of `s` whose flag in `gone` is false, in order. */
  function Kept<T>(s: seq<T>, gone: seq<bool>): (r: seq<T>)
    requires |s| == |gone|
    ensures |r| <= |s|
  {
    if s == [] then []
    else
      var front := Kept(s[..|s| - 1], gone[..|s| - 1]);
      if gone[|s| - 1] then front else front + [s[|s| - 1]]
  }

  lemma {:induction false} SubseqRefl<T>(a: seq<T>)
    ensures Subseq(a, a)
  {
    if a != [] { SubseqRefl(a[..|a| - 1]); }
  }

  lemma SubseqSnoc<T>(a: seq<T>, b: seq<T>, x: T)
    requires Subseq(a, b)
    ensures Subseq(a, b + [x])
    ensures Subseq(a + [x], b + [x])
  {
    assert (b + [x])[..|b|] == b;
    assert (a + [x])[..|a|] == a;
  }

  lemma {:induction false} SubseqPrefixed<T>(p: seq<T>, a: seq<T>, b: seq<T>)
    requires Subseq(a, b)
    ensures Subseq(p + a, p + b)
    decreases |b|
  {
    if a == [] {
      SubseqOfExtension(p, b);
      assert p + a == p;
    } else {
      var a', b' := a[..|a| - 1], b[..|b| - 1];
      assert (p + a)[..|p + a| - 1] == p + a';
      assert (p + b)[..|p + b| - 1] == p + b';
      if a[|a| - 1] == b[|b| - 1] && Subseq(a', b') {
        SubseqPrefixed(p, a', b');
      } else {
        SubseqPrefixed(p, a, b');
      }
    }
  }

  lemma {:induction false} SubseqOfExtension<T>(p: seq<T>, b: seq<T>)
    ensures Subseq(p, p + b)
  {
    if b == [] {
      SubseqRefl(p);
      assert p + b == p;
    } else {
      SubseqOfExtension(p, b[..|b| - 1]);
      assert (p + b)[..|p + b| - 1] == p + b[..|b| - 1];
    }
  }

  lemma {:induction false} SubseqTrans<T>(a: seq<T>, b: seq<T>, c: seq<T>)
    requires Subseq(a, b) && Subseq(b, c)
    ensures Subseq(a, c)
    decreases |b| + |c|
  {
    if a != [] {
      var a', b', c' := a[..|a| - 1], b[..|b| - 1], c[..|c| - 1];
      if Subseq(b, c') {
        SubseqTrans(a, b, c');
      } else if Subseq(a, b') {
        SubseqTrans(a, b', c');
      } else {
        SubseqTrans(a', b', c');
      }
    }
  }

  lemma {:induction false} SubseqMembers<T>(a: seq<T>, b: seq<T>)
    requires Subseq(a, b)
    ensures forall x :: x in a ==> x in b
    ensures |a| <= |b|
    decreases |b|
  {
    if a != [] {
      var a', b' := a[..|a| - 1], b[..|b| - 1];
      assert a == a' + [a[|a| - 1]] && b == b' + [b[|b| - 1]];
      if Subseq(a, b') { SubseqMembers(a, b'); } else { SubseqMembers(a', b'); }
    }
  }

  lemma {:induction false} SubseqNoDup<T>(a: seq<T>, b: seq<T>)
    requires Subseq(a, b) && NoDup(b)
    ensures NoDup(a)
    decreases |b|
  {
    if a != [] {
      var a', b' := a[..|a| - 1], b[..|b| - 1];
      assert b == b' + [b[|b| - 1]];
      if Subseq(a, b') {
        SubseqNoDup(a, b');
      } else {
        SubseqNoDup(a', b');
        SubseqMembers(a', b');
        forall i | 0 <= i < |a'| ensures a[i] != a[|a| - 1] {
          assert a[i] in a';
        }
      }
    }
  }

  /** Order-preserving removal: a subsequence holding exactly the unflagged entries. */
  lemma {:induction false} KeptSubseq<T>(s: seq<T>, gone: seq<bool>)
    requires |s| == |gone|
    ensures Subseq(Kept(s, gone), s)
    ensures true !in gone ==> Kept(s, gone) == s
    ensures true in gone ==> |Kept(s, gone)| < |s|
  {
    if s != [] {
      var s', g' := s[..|s| - 1], gone[..|s| - 1];
      assert gone == g' + [gone[|s| - 1]];
      KeptSubseq(s', g');
      assert s == s' + [s[|s| - 1]];
      SubseqSnoc(Kept(s', g'), s', s[|s| - 1]);
    }
  }

  lemma {:induction false} KeptMembers<T>(s: seq<T>, gone: seq<bool>)
    requires |s| == |gone|
    ensures forall x :: x in Kept(s, gone) <==> exists i :: 0 <= i < |s| && s[i] == x && !gone[i]
  {
    if s != [] {
      var s', g' := s[..|s| - 1], gone[..|s| - 1];
      KeptMembers(s', g');
      forall x
        ensures x in Kept(s, gone) <==> exists i :: 0 <= i < |s| && s[i] == x && !gone[i]
      {
        if x in Kept(s, gone) {
          if x in Kept(s', g') {
            var i :| 0 <= i < |s'| && s'[i] == x && !g'[i];
            assert s[i] == x && !gone[i];
          } else {
            assert s[|s| - 1] == x && !gone[|s| - 1];
          }
        }
        if i :| 0 <= i < |s| && s[i] == x && !gone[i] {
          if i < |s| - 1 { assert s'[i] == x && !g'[i]; }
        }
      }
    }
  }

  /** Every survivor comes from an unflagged place. */
  lemma {:induction false} KeptFrom<T>(s: seq<T>, gone: seq<bool>, j: nat) returns (i: nat)
    requires |s| == |gone| && j < |Kept(s, gone)|
    ensures i < |s| && !gone[i] && s[i] == Kept(s, gone)[j]
  {
    var n := |s| - 1;
    if j < |Kept(s[..n], gone[..n])| { i := KeptFrom(s[..n], gone[..n], j); } else { i := n; }
  }

  lemma KeptPrefix<T>(s: seq<T>, gone: seq<bool>, i: nat)
    requires |s| == |gone| && i < |s|
    ensures Kept(s[..i + 1], gone[..i + 1]) == Kept(s[..i], gone[..i]) + if gone[i] then [] else [s[i]]
    ensures true in gone[..i + 1] <==> true in gone[..i] || gone[i]
  {
    assert s[..i + 1][..i] == s[..i] && gone[..i + 1][..i] == gone[..i];
    assert gone[..i + 1] == gone[..i] + [gone[i]];
  }

  lemma NoDupSplit<T>(a: seq<T>, b: seq<T>)
    requires NoDup(a + b)
    ensures NoDup(a) && NoDup(b)
    ensures forall x :: x in a ==> x !in b
  {
    forall i, j | 0 <= i < j < |a| ensures a[i] != a[j] {
      assert (a + b)[i] == a[i] && (a + b)[j] == a[j];
    }
    forall i, j | 0 <= i < j < |b| ensures b[i] != b[j] {
      assert (a + b)[|a| + i] == b[i] && (a + b)[|a| + j] == b[j];
    }
    forall x | x in a ensures x !in b {
      var i :| 0 <= i < |a| && a[i] == x;
      assert (a + b)[i] == x;
      forall j | 0 <= j < |b| ensures b[j] != x {
        assert (a + b)[|a| + j] == b[j];
      }
    }
  }

  lemma SliceOfExtension<T>(s: seq<T>, more: seq<T>, i: nat, j: nat)
    requires i <= j <= |s|
    ensures (s + more)[i..j] == s[i..j]
    ensures (s + more)[j..] == s[j..] + more
  {
    forall k | 0 <= k < j - i ensures (s + more)[i..j][k] == s[i..j][k] {}
  }

  lemma ConcatAssoc<T>(a: seq<T>, b: seq<T>, c: seq<T>)
    ensures a + b + c == a + (b + c)
  {
  }

  /** A flag that is set exactly by the steps in `sets` is set by one of them. */
  lemma {:induction false} SetBySome(flag: seq<bool>, sets: seq<bool>, k: nat)
    requires |flag| == |sets| + 1 && !flag[0] && k <= |sets|
    requires forall i :: 0 <= i < |sets| ==> flag[i + 1] == (flag[i] || sets[i])
    ensures flag[k] <==> exists i :: 0 <= i < k && sets[i]
  {
    if k > 0 { SetBySome(flag, sets, k - 1); }
  }
}
