/** Types shared by the models of the components. */
module Basics {
  datatype Option<+T> = None | Some(value: T)

  /** The concatenation of the pieces, in order. */
  function Flatten<T>(pieces: seq<seq<T>>): (all: seq<T>) {
    if pieces == [] then [] else pieces[0] + Flatten(pieces[1..])
  }

  lemma {:induction false} FlattenAppend<T>(a: seq<seq<T>>, b: seq<seq<T>>)
    ensures Flatten(a + b) == Flatten(a) + Flatten(b)
  {
    if a == [] {
      assert a + b == b;
    } else {
      assert (a + b)[1..] == a[1..] + b;
      FlattenAppend(a[1..], b);
    }
  }

  lemma Assoc<T>(a: seq<T>, b: seq<T>, c: seq<T>)
    ensures a + b + c == a + (b + c)
  {}

  lemma MultisetCancel<T>(m: multiset<T>, n: multiset<T>, x: T)
    requires m + multiset{x} == n + multiset{x}
    ensures m == n
  {
    assert m == (m + multiset{x}) - multiset{x};
    assert n == (n + multiset{x}) - multiset{x};
  }

  /** A sequence is one of its items and the rest. */
  lemma MultisetWithout<T>(s: seq<T>, i: nat)
    requires i < |s|
    ensures multiset(s) == multiset(s[..i] + s[i + 1..]) + multiset{s[i]}
  {
    assert s == s[..i] + [s[i]] + s[i + 1..];
  }

  /** A permutation of `a` has the last item of `a` somewhere; without it the rest is permuted. */
  lemma RemoveOne<T>(a: seq<T>, b: seq<T>) returns (i: nat)
    requires a != [] && multiset(a) == multiset(b)
    ensures i < |b| && b[i] == a[|a| - 1]
    ensures multiset(a[..|a| - 1]) == multiset(b[..i] + b[i + 1..])
  {
    var x := a[|a| - 1];
    assert x in multiset(b);
    i :| 0 <= i < |b| && b[i] == x;
    MultisetWithout(b, i);
    MultisetWithout(a, |a| - 1);
    assert a[..|a| - 1] + a[|a|..] == a[..|a| - 1];
    MultisetCancel(multiset(a[..|a| - 1]), multiset(b[..i] + b[i + 1..]), x);
  }

  function Map<T, U>(f: T -> U, s: seq<T>): (r: seq<U>)
    ensures |r| == |s| && forall i :: 0 <= i < |s| ==> r[i] == f(s[i])
  {
    seq(|s|, i requires 0 <= i < |s| => f(s[i]))
  }

  lemma MapWithout<T, U>(f: T -> U, s: seq<T>, i: nat)
    requires i < |s|
    ensures Map(f, s[..i] + s[i + 1..]) == Map(f, s)[..i] + Map(f, s)[i + 1..]
  {
    var t := s[..i] + s[i + 1..];
    var l, r := Map(f, t), Map(f, s)[..i] + Map(f, s)[i + 1..];
    forall j | 0 <= j < |t| ensures l[j] == r[j] {
      assert t[j] == if j < i then s[j] else s[j + 1];
    }
  }

  lemma MapLast<T, U>(f: T -> U, s: seq<T>, x: T)
    ensures Map(f, s + [x]) == Map(f, s) + [f(x)]
  {}

  lemma MapAppend<T, U>(f: T -> U, a: seq<T>, b: seq<T>)
    ensures Map(f, a + b) == Map(f, a) + Map(f, b)
  {}

  lemma {:induction false} MapPermuted<T, U>(f: T -> U, a: seq<T>, b: seq<T>)
    requires multiset(a) == multiset(b)
    ensures multiset(Map(f, a)) == multiset(Map(f, b))
    decreases |a|
  {
    if a == [] {
      assert |multiset(b)| == |b|;
    } else {
      var i := RemoveOne(a, b);
      MapPermuted(f, a[..|a| - 1], b[..i] + b[i + 1..]);
      MapWithout(f, b, i);
      MultisetWithout(Map(f, b), i);
      assert Map(f, a) == Map(f, a[..|a| - 1]) + [f(a[|a| - 1])];
    }
  }

  /** A permutation of the images comes from a permutation of the items. */
  lemma {:induction false} MapLift<T, U>(f: T -> U, s: seq<T>, images: seq<U>) returns (p: seq<T>)
    requires multiset(images) == multiset(Map(f, s))
    ensures multiset(p) == multiset(s) && Map(f, p) == images
    decreases |images|
  {
    if images == [] {
      assert |multiset(Map(f, s))| == |s|;
      p := [];
    } else {
      var i := RemoveOne(images, Map(f, s));
      MapWithout(f, s, i);
      var rest := MapLift(f, s[..i] + s[i + 1..], images[..|images| - 1]);
      p := rest + [s[i]];
      MultisetWithout(s, i);
      MapLast(f, rest, s[i]);
      assert images == images[..|images| - 1] + [images[|images| - 1]];
    }
  }

  /** The items that satisfy `f`, in order. */
  function Pick<T>(f: T -> bool, s: seq<T>): seq<T> {
    if s == [] then [] else Pick(f, s[..|s| - 1]) + if f(s[|s| - 1]) then [s[|s| - 1]] else []
  }

  lemma {:induction false} PickAppend<T>(f: T -> bool, a: seq<T>, b: seq<T>)
    ensures Pick(f, a + b) == Pick(f, a) + Pick(f, b)
  {
    if b == [] {
      assert a + b == a;
    } else {
      PickAppend(f, a, b[..|b| - 1]);
      assert (a + b)[..|a + b| - 1] == a + b[..|b| - 1];
    }
  }

  lemma {:induction false} PickNone<T>(f: T -> bool, s: seq<T>)
    requires forall i :: 0 <= i < |s| ==> !f(s[i])
    ensures Pick(f, s) == []
  {
    if s != [] {
      PickNone(f, s[..|s| - 1]);
    }
  }

  /** What `f` gives for each item, joined. */
  function Concat<T, U>(f: T -> seq<U>, s: seq<T>): seq<U> {
    if s == [] then [] else Concat(f, s[..|s| - 1]) + f(s[|s| - 1])
  }

  lemma {:induction false} ConcatAppend<T, U>(f: T -> seq<U>, a: seq<T>, b: seq<T>)
    ensures Concat(f, a + b) == Concat(f, a) + Concat(f, b)
  {
    if b == [] {
      assert a + b == a;
    } else {
      var n := |b| - 1;
      assert (a + b)[..|a| + n] == a + b[..n];
      ConcatAppend(f, a, b[..n]);
      Assoc(Concat(f, a), Concat(f, b[..n]), f(b[n]));
    }
  }

  lemma ConcatOne<T, U>(f: T -> seq<U>, x: T)
    ensures Concat(f, [x]) == f(x)
  {
    assert [x][..0] == [];
  }
}
