/** A value that may be absent, and enumerations of a set in some order. */
module Wrappers {
  datatype Option<+T> = None | Some(value: T)

  predicate NoDup<T(==)>(s: seq<T>) {
    forall i, j :: 0 <= i < j < |s| ==> s[i] != s[j]
  }

  /** `s` lists the elements of `S`, each once, in some order: what ranging over a Go map yields. */
  predicate Enumerates<T(==)>(s: seq<T>, S: set<T>) {
    NoDup(s) && (forall x :: x in s ==> x in S) && (forall x :: x in S ==> x in s)
  }

  /** Ranging over a set: every element once, in an order nothing depends on. */
  method Range<T(==)>(S: set<T>) returns (s: seq<T>)
    ensures Enumerates(s, S)
  {
    s := [];
    var todo := S;
    while todo != {}
      invariant NoDup(s) && todo <= S
      invariant forall x :: x in S <==> x in s || x in todo
      invariant forall x :: x in s ==> x !in todo
      decreases todo
    {
      var x :| x in todo;
      s := s + [x];
      todo := todo - {x};
    }
  }

  /** Every set can be listed. */
  lemma {:induction false} SomeOrder<T>(S: set<T>) returns (s: seq<T>)
    ensures Enumerates(s, S)
  {
    if S == {} {
      s := [];
    } else {
      var x :| x in S;
      var rest := SomeOrder(S - {x});
      s := rest + [x];
    }
  }

  /** Two enumerations of the same elements are permutations of each other. */
  lemma {:induction false} SamePermutation<T>(s: seq<T>, t: seq<T>)
    requires NoDup(s) && NoDup(t) && forall x :: x in s <==> x in t
    ensures multiset(s) == multiset(t)
  {
    forall x
      ensures multiset(s)[x] == multiset(t)[x]
    {
      OnceEach(s, x);
      OnceEach(t, x);
    }
  }

  lemma {:induction false} OnceEach<T>(s: seq<T>, x: T)
    requires NoDup(s)
    ensures multiset(s)[x] == if x in s then 1 else 0
  {
    if s != [] {
      var n := |s| - 1;
      OnceEach(s[..n], x);
      assert s == s[..n] + [s[n]];
      assert x in s <==> x in s[..n] || x == s[n];
    }
  }
}
