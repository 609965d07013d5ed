/**
 Order-preserving de-duplication and filtering of string lists, as used by the
 configuration loader and by the filesystem enforcer.
 */
module Lists {

  predicate NoDuplicates<T(==)>(s: seq<T>) {
    forall i, j | 0 <= i < j < |s| :: s[i] != s[j]
  }

  function Elements<T>(s: seq<T>): set<T> {
    set x | x in s
  }

  /** The elements of `s` without repetitions, each kept where it occurs first. */
  function Dedupe<T(==)>(s: seq<T>): seq<T> {
    if s == [] then []
    else
      var front, last := s[..|s| - 1], s[|s| - 1];
      if last in front then Dedupe(front) else Dedupe(front) + [last]
  }

  /** The elements of `s` that satisfy `keep`, in order. */
  function Filter<T>(s: seq<T>, keep: T -> bool): seq<T> {
    if s == [] then []
    else
      var front, last := s[..|s| - 1], s[|s| - 1];
      if keep(last) then Filter(front, keep) + [last] else Filter(front, keep)
  }

  /** Where `x` occurs first in `s`. */
  function FirstIndex<T(==)>(s: seq<T>, x: T): (i: nat)
    requires x in s
    ensures i < |s| && s[i] == x && forall j | 0 <= j < i :: s[j] != x
  {
    if s[0] == x then 0
    else 1 + FirstIndex(s[1..], x)
  }

  /** What de-duplication promises: same elements, no repetition, order of first occurrence. */
  ghost predicate IsDedupeOf<T>(d: seq<T>, s: seq<T>) {
    && (forall x | x in d :: x in s)
    && (forall x | x in s :: x in d)
    && (forall i, j | 0 <= i < j < |d| :: d[i] in s && d[j] in s && FirstIndex(s, d[i]) < FirstIndex(s, d[j]))
  }

  lemma FirstIndexInFront<T>(s: seq<T>, x: T)
    requires s != [] && x in s[..|s| - 1]
    ensures FirstIndex(s, x) == FirstIndex(s[..|s| - 1], x)
  {
    hide FirstIndex;
    var front := s[..|s| - 1];
    assert s[FirstIndex(front, x)] == x;
    assert FirstIndex(s, x) <= FirstIndex(front, x);
    assert front[FirstIndex(s, x)] == x;
  }

  lemma {:induction false} DedupeHasSameElements<T>(s: seq<T>)
    ensures forall x | x in Dedupe(s) :: x in s
    ensures forall x | x in s :: x in Dedupe(s)
  {
    if s != [] {
      DedupeHasSameElements(s[..|s| - 1]);
      assert s == s[..|s| - 1] + [s[|s| - 1]];
    }
  }

  lemma {:induction false} DedupeMeetsSpec<T>(s: seq<T>)
    ensures IsDedupeOf(Dedupe(s), s)
    ensures NoDuplicates(Dedupe(s))
  {
    hide FirstIndex;
    DedupeHasSameElements(s);
    if s != [] {
      var n := |s| - 1;
      var front := s[..n];
      DedupeMeetsSpec(front);
      var d := Dedupe(front);
      forall i | 0 <= i < |d|
        ensures d[i] in s && FirstIndex(s, d[i]) == FirstIndex(front, d[i]) < n
      {
        assert d[i] in d;
        FirstIndexInFront(s, d[i]);
      }
      if s[n] !in front {
        assert FirstIndex(s, s[n]) == n;
      }
    }
  }

  predicate Ascending(a: seq<int>) {
    forall i, j | 0 <= i < j < |a| :: a[i] < a[j]
  }

  lemma AscendingFront(a: seq<int>)
    requires Ascending(a) && a != []
    ensures var m := |a| - 1; forall x | x in a :: x == a[m] || (x < a[m] && x in a[..m])
    ensures var m := |a| - 1; forall x | x in a[..m] :: x in a && x < a[m]
  {
  }

  /** Strictly ascending lists are determined by their elements. */
  lemma {:induction false} AscendingIsUnique(a: seq<int>, b: seq<int>)
    requires Ascending(a) && Ascending(b)
    requires forall x :: x in a <==> x in b
    ensures a == b
  {
    var m, n := |a| - 1, |b| - 1;
    if a != [] {
      assert a[m] in a;
    }
    if b != [] {
      assert b[n] in b;
    }
    if a != [] && b != [] {
      AscendingFront(a);
      AscendingFront(b);
      assert a[m] == b[n];
      AscendingIsUnique(a[..m], b[..n]);
      assert a == a[..m] + [a[m]] && b == b[..n] + [b[n]];
    }
  }

  /** The specification leaves no freedom: any list that meets it is the one computed. */
  lemma DedupeIsTheOnlyOne<T>(d: seq<T>, s: seq<T>)
    requires IsDedupeOf(d, s)
    ensures d == Dedupe(s)
  {
    hide FirstIndex, Dedupe;
    DedupeMeetsSpec(s);
    var e := Dedupe(s);
    var di := seq(|d|, i requires 0 <= i < |d| => assert d[i] in d; FirstIndex(s, d[i]));
    var ei := seq(|e|, i requires 0 <= i < |e| => assert e[i] in e; FirstIndex(s, e[i]));
    forall k
      ensures k in di <==> k in ei
    {
      if k in di {
        var i :| 0 <= i < |di| && di[i] == k;
        assert d[i] in d && d[i] in e;
        var j :| 0 <= j < |e| && e[j] == d[i];
        assert ei[j] == k;
      }
      if k in ei {
        var i :| 0 <= i < |ei| && ei[i] == k;
        assert e[i] in e && e[i] in d;
        var j :| 0 <= j < |d| && d[j] == e[i];
        assert di[j] == k;
      }
    }
    AscendingIsUnique(di, ei);
    forall i | 0 <= i < |d|
      ensures d[i] == e[i]
    {
      assert d[i] in d && e[i] in e;
      assert di[i] == ei[i];
      assert d[i] == s[di[i]] && e[i] == s[ei[i]];
    }
  }

  lemma DedupeOfDistinct<T>(s: seq<T>)
    requires NoDuplicates(s)
    ensures Dedupe(s) == s
  {
    forall i | 0 <= i < |s|
      ensures FirstIndex(s, s[i]) == i
    {
    }
    DedupeIsTheOnlyOne(s, s);
  }

  lemma {:induction false} FilterMeetsSpec<T>(s: seq<T>, keep: T -> bool)
    ensures forall x | x in Filter(s, keep) :: x in s && keep(x)
    ensures forall x | x in s && keep(x) :: x in Filter(s, keep)
    ensures NoDuplicates(s) ==> NoDuplicates(Filter(s, keep))
  {
    if s != [] {
      FilterMeetsSpec(s[..|s| - 1], keep);
      assert s == s[..|s| - 1] + [s[|s| - 1]];
    }
  }

  /** Filtering keeps the order: what it leaves of a list is what it leaves of the parts. */
  lemma {:induction false} FilterDistributes<T>(a: seq<T>, b: seq<T>, keep: T -> bool)
    ensures Filter(a + b, keep) == Filter(a, keep) + Filter(b, keep)
  {
    if b == [] {
      assert a + b == a;
    } else {
      FilterDistributes(a, b[..|b| - 1], keep);
      assert (a + b)[..|a + b| - 1] == a + b[..|b| - 1];
    }
  }

  lemma {:induction false} FilterOfAll<T>(s: seq<T>, keep: T -> bool)
    requires forall x | x in s :: keep(x)
    ensures Filter(s, keep) == s
  {
    if s != [] {
      FilterOfAll(s[..|s| - 1], keep);
      assert s == s[..|s| - 1] + [s[|s| - 1]];
    }
  }

  /** The loader's loop: a set of seen items decides what is appended. */
  method DedupePreserveOrder<T(==)>(input: seq<T>) returns (output: seq<T>)
    ensures output == Dedupe(input)
  {
    output := [];
    var seen := {};
    for i := 0 to |input|
      invariant output == Dedupe(input[..i])
      invariant forall x :: x in seen <==> x in input[..i]
    {
      assert input[..i + 1][..i] == input[..i];
      if input[i] !in seen {
        seen := seen + {input[i]};
        output := output + [input[i]];
      }
    }
    assert input[..|input|] == input;
  }
}
