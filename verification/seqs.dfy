/** Small facts about sequences that the lexer and parser proofs share. */
module Seqs {

  /** f occurs in s starting at index i. */
  ghost predicate At<T>(s: seq<T>, i: nat, f: seq<T>) {
    i + |f| <= |s| && forall k {:trigger Elem(f, k)} :: 0 <= k < |f| ==> s[i + k] == Elem(f, k)
  }

  /** `f[k]`, named so that the quantifier of `At` is used only where a proof
      asks for an element through `AtElement`. */
  ghost function Elem<T>(f: seq<T>, k: nat): T
    requires k < |f|
  {
    f[k]
  }

  lemma AtSlice<T>(s: seq<T>, i: nat, f: seq<T>)
    requires At(s, i, f)
    ensures s[i..i + |f|] == f
  {
    forall k | 0 <= k < |f|
      ensures s[i..i + |f|][k] == f[k]
    {
      assert Elem(f, k) == f[k];
    }
  }

  lemma AtSplit<T>(s: seq<T>, i: nat, a: seq<T>, b: seq<T>)
    requires At(s, i, a + b)
    ensures At(s, i, a) && At(s, i + |a|, b)
  {
    forall k | 0 <= k < |a|
      ensures s[i + k] == Elem(a, k)
    {
      assert Elem(a + b, k) == a[k];
    }
    forall k | 0 <= k < |b|
      ensures s[i + |a| + k] == Elem(b, k)
    {
      assert Elem(a + b, |a| + k) == b[k];
    }
  }

  lemma AtJoin<T>(s: seq<T>, i: nat, a: seq<T>, b: seq<T>)
    requires At(s, i, a) && At(s, i + |a|, b)
    ensures At(s, i, a + b)
  {
    forall k | 0 <= k < |a| + |b|
      ensures s[i + k] == Elem(a + b, k)
    {
      if k >= |a| {
        assert s[i + |a| + (k - |a|)] == Elem(b, k - |a|);
      } else {
        assert s[i + k] == Elem(a, k);
      }
    }
  }

  /** Each part of a concatenation occurs in it where it was put. */
  lemma AtConcat<T>(a: seq<T>, b: seq<T>)
    ensures At(a + b, 0, a) && At(a + b, |a|, b)
  {
  }

  /** A sequence occurs in itself at 0. */
  lemma AtWhole<T>(s: seq<T>)
    ensures At(s, 0, s)
  {
  }

  lemma AtElement<T>(s: seq<T>, i: nat, f: seq<T>, k: nat)
    requires At(s, i, f) && k < |f|
    ensures s[i + k] == f[k]
  {
    assert Elem(f, k) == f[k];
  }

  /** `s` written n times in a row, as the serializer builds an indent prefix. */
  function Repeat<T>(s: seq<T>, n: nat): (r: seq<T>)
    ensures |r| == n * |s|
  {
    if n == 0 then [] else s + Repeat(s, n - 1)
  }

  /** Every element of `Repeat(s, n)` is an element of `s`. */
  lemma {:induction false} RepeatElements<T>(s: seq<T>, n: nat, k: nat)
    requires k < |Repeat(s, n)|
    ensures Repeat(s, n)[k] in s
  {
    if k >= |s| {
      RepeatElements(s, n - 1, k - |s|);
    }
  }
}
