/** Order-preserving de-duplication, the operation both `list(dict.fromkeys(xs))`
    and a membership-checked append loop perform, and list flattening. */
module Sequences {

  predicate NoDuplicates<T(==)>(s: seq<T>)
  {
    forall i, j :: 0 <= i < j < |s| ==> s[i] != s[j]
  }

  /** `s.index(x)`: the position of the first occurrence of `x`. */
  function FirstIndex<T(==)>(s: seq<T>, x: T): (k: nat)
    requires x in s
    ensures k < |s| && s[k] == x
    ensures forall i :: 0 <= i < k ==> s[i] != x
  {
    if s[0] == x then 0 else 1 + FirstIndex(s[1..], x)
  }

  /** The distinct elements of `s`, each kept where it first occurs. */
  function Dedup<T(==)>(s: seq<T>): (r: seq<T>)
    ensures NoDuplicates(r)
    ensures forall i :: 0 <= i < |r| ==> r[i] in s
    ensures forall i :: 0 <= i < |s| ==> s[i] in r
    ensures |r| <= |s|
  {
    if s == [] then []
    else
      var d := Dedup(s[..|s| - 1]);
      var x := s[|s| - 1];
      assert forall i :: 0 <= i < |s| - 1 ==> s[i] == s[..|s| - 1][i];
      if x in d then d else d + [x]
  }

  /** The result holds exactly the input's elements. */
  lemma DedupMembers<T>(s: seq<T>)
    ensures forall x :: x in Dedup(s) <==> x in s
  {
    var r := Dedup(s);
    forall x | x in s ensures x in r {
      var i :| 0 <= i < |s| && s[i] == x;
    }
  }

  /** De-duplication keeps first-occurrence order: an element placed earlier
      in the result first occurs earlier in the input. */
  lemma {:induction false} DedupOrder<T>(s: seq<T>)
    ensures forall i, j :: 0 <= i < j < |Dedup(s)| ==> FirstIndex(s, Dedup(s)[i]) < FirstIndex(s, Dedup(s)[j])
  {
    if s != [] {
      var p := s[..|s| - 1];
      var d := Dedup(p);
      var x := s[|s| - 1];
      DedupOrder(p);
      forall y | y in p
        ensures FirstIndex(s, y) == FirstIndex(p, y)
      {
        FirstIndexPrefix(s, p, y);
      }
      if x !in d {
        assert FirstIndex(s, x) == |p|;
      }
    }
  }

  lemma FirstIndexPrefix<T>(s: seq<T>, p: seq<T>, y: T)
    requires p <= s && y in p
    ensures FirstIndex(s, y) == FirstIndex(p, y)
  {
    var k := FirstIndex(p, y);
    assert s[k] == y;
  }

  /** A list that already has no duplicates is its own de-duplication. */
  lemma {:induction false} DedupOfDistinct<T>(s: seq<T>)
    requires NoDuplicates(s)
    ensures Dedup(s) == s
  {
    if s != [] {
      var p := s[..|s| - 1];
      assert NoDuplicates(p);
      DedupOfDistinct(p);
      assert s[|s| - 1] !in p;
      assert p + [s[|s| - 1]] == s;
    }
  }

  /** De-duplicating twice is de-duplicating once. */
  lemma DedupIdempotent<T>(s: seq<T>)
    ensures Dedup(Dedup(s)) == Dedup(s)
  {
    DedupOfDistinct(Dedup(s));
  }

  /** The lists of `ls` concatenated in order (`for l in ls: out.extend(l)`). */
  function Flatten<T>(ls: seq<seq<T>>): seq<T>
  {
    if ls == [] then [] else Flatten(ls[..|ls| - 1]) + ls[|ls| - 1]
  }

  /** Every element of every list is in the flattening, and only those. */
  lemma {:induction false} FlattenMembers<T>(ls: seq<seq<T>>)
    ensures forall x :: x in Flatten(ls) <==> exists i :: 0 <= i < |ls| && x in ls[i]
  {
    if ls != [] {
      var p := ls[..|ls| - 1];
      FlattenMembers(p);
      forall x
        ensures x in Flatten(ls) <==> exists i :: 0 <= i < |ls| && x in ls[i]
      {
        if x in Flatten(ls) && x !in Flatten(p) {
          assert x in ls[|ls| - 1];
        }
        if x in Flatten(p) {
          var i :| 0 <= i < |p| && x in p[i];
          assert ls[i] == p[i];
        }
        if exists i :: 0 <= i < |ls| && x in ls[i] {
          var i :| 0 <= i < |ls| && x in ls[i];
          if i < |p| {
            assert p[i] == ls[i];
          }
        }
      }
    }
  }

  /** `f` applied to each element in turn, the results concatenated. */
  function FlatMap<A, B>(f: A -> seq<B>, s: seq<A>): seq<B>
  {
    if s == [] then [] else FlatMap(f, s[..|s| - 1]) + f(s[|s| - 1])
  }

  lemma {:induction false} FlatMapAppend<A, B>(f: A -> seq<B>, a: seq<A>, b: seq<A>)
    ensures FlatMap(f, a + b) == FlatMap(f, a) + FlatMap(f, b)
    decreases |b|
  {
    if b == [] {
      assert a + b == a;
    } else {
      assert (a + b)[..|a + b| - 1] == a + b[..|b| - 1];
      FlatMapAppend(f, a, b[..|b| - 1]);
    }
  }

  /** An element is in the concatenation exactly when some element's image
      holds it. */
  lemma {:induction false} FlatMapMembers<A, B>(f: A -> seq<B>, s: seq<A>, x: B)
    ensures x in FlatMap(f, s) <==> exists j :: 0 <= j < |s| && x in f(s[j])
  {
    if s != [] {
      var p := s[..|s| - 1];
      FlatMapMembers(f, p, x);
      if exists j :: 0 <= j < |s| && x in f(s[j]) {
        var j :| 0 <= j < |s| && x in f(s[j]);
        if j < |p| {
          assert s[j] == p[j];
        }
      }
      if exists j :: 0 <= j < |p| && x in f(p[j]) {
        var j :| 0 <= j < |p| && x in f(p[j]);
        assert s[j] == p[j];
      }
    }
  }

  /** `f` applied to each element, in order. */
  function Map<A, B>(f: A -> B, s: seq<A>): seq<B>
  {
    if s == [] then [] else Map(f, s[..|s| - 1]) + [f(s[|s| - 1])]
  }

  lemma {:induction false} MapSpec<A, B>(f: A -> B, s: seq<A>)
    ensures |Map(f, s)| == |s| && forall i :: 0 <= i < |s| ==> Map(f, s)[i] == f(s[i])
  {
    if s != [] {
      MapSpec(f, s[..|s| - 1]);
    }
  }
}
