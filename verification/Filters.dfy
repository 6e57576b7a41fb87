/** Keeping the elements of a sequence that satisfy a test. */
module Filters {
  function Filter<T>(s: seq<T>, keep: T -> bool): seq<T> {
    if s == [] then [] else (if keep(s[0]) then [s[0]] else []) + Filter(s[1..], keep)
  }

  predicate Pairwise<T>(s: seq<T>, rel: (T, T) -> bool) {
    forall i, j :: 0 <= i < j < |s| ==> rel(s[i], s[j])
  }

  function Complement<T>(keep: T -> bool): T -> bool {
    x => !keep(x)
  }

  lemma {:induction false} FilterMembers<T>(s: seq<T>, keep: T -> bool)
    ensures forall x :: x in Filter(s, keep) ==> x in s && keep(x)
    ensures forall x :: x in s && keep(x) ==> x in Filter(s, keep)
  {
    if s != [] {
      FilterMembers(s[1..], keep);
      assert forall x :: x in s <==> x == s[0] || x in s[1..];
    }
  }

  lemma FilterStep<T>(s: seq<T>, keep: T -> bool)
    requires s != []
    ensures Filter(s, keep) == (if keep(s[0]) then [s[0]] else []) + Filter(s[1..], keep)
  {
  }

  lemma {:induction false} FilterSnoc<T>(s: seq<T>, x: T, keep: T -> bool)
    ensures Filter(s + [x], keep) == Filter(s, keep) + if keep(x) then [x] else []
  {
    var last := if keep(x) then [x] else [];
    if s == [] {
      assert s + [x] == [x] && [x][1..] == [];
      assert last + [] == last == Filter(s, keep) + last;
    } else {
      hide Filter;
      var first := if keep(s[0]) then [s[0]] else [];
      assert (s + [x])[0] == s[0] && (s + [x])[1..] == s[1..] + [x];
      FilterStep(s + [x], keep);
      FilterStep(s, keep);
      FilterSnoc(s[1..], x, keep);
      assert first + (Filter(s[1..], keep) + last) == first + Filter(s[1..], keep) + last;
    }
  }

  lemma {:induction false} FilterSame<T>(s: seq<T>, keep: T -> bool, keep': T -> bool)
    requires forall x :: x in s ==> keep(x) == keep'(x)
    ensures Filter(s, keep) == Filter(s, keep')
  {
    if s != [] {
      forall x | x in s[1..] ensures keep(x) == keep'(x) {
        assert x in s;
      }
      assert s[0] in s;
      FilterSame(s[1..], keep, keep');
    }
  }

  lemma {:induction false} FilterAll<T>(s: seq<T>, keep: T -> bool)
    requires forall x :: x in s ==> keep(x)
    ensures Filter(s, keep) == s
  {
    if s != [] {
      assert s[0] in s && forall x :: x in s[1..] ==> x in s;
      FilterAll(s[1..], keep);
    }
  }

  lemma {:induction false} FilterNone<T>(s: seq<T>, keep: T -> bool)
    requires forall x :: x in s ==> !keep(x)
    ensures Filter(s, keep) == []
  {
    if s != [] {
      assert s[0] in s && forall x :: x in s[1..] ==> x in s;
      FilterNone(s[1..], keep);
    }
  }

  lemma {:induction false} FilterTwice<T>(s: seq<T>, f: T -> bool, g: T -> bool, both: T -> bool)
    requires forall x :: x in s ==> both(x) == (f(x) && g(x))
    ensures Filter(Filter(s, f), g) == Filter(s, both)
  {
    if s != [] {
      assert s[0] in s && forall x :: x in s[1..] ==> x in s;
      FilterTwice(s[1..], f, g, both);
      if f(s[0]) {
        assert ([s[0]] + Filter(s[1..], f))[1..] == Filter(s[1..], f);
      } else {
        assert [] + Filter(s[1..], f) == Filter(s[1..], f);
      }
    }
  }

  lemma {:induction false} FilterPairwise<T>(s: seq<T>, keep: T -> bool, rel: (T, T) -> bool)
    requires Pairwise(s, rel)
    ensures Pairwise(Filter(s, keep), rel)
  {
    if s != [] {
      FilterPairwise(s[1..], keep, rel);
      FilterMembers(s[1..], keep);
      var tail := Filter(s[1..], keep);
      forall j | 0 <= j < |tail| ensures rel(s[0], tail[j]) {
        assert tail[j] in tail;
        var rest := s[1..];
        assert tail[j] in rest;
        var k :| 0 <= k < |rest| && rest[k] == tail[j];
        assert s[k + 1] == tail[j];
      }
    }
  }

  lemma {:induction false} FilterSplit<T>(s: seq<T>, keep: T -> bool)
    ensures |Filter(s, keep)| + |Filter(s, Complement(keep))| == |s|
  {
    if s != [] {
      FilterSplit(s[1..], keep);
    }
  }

  lemma PairwiseJoin<T>(s: seq<T>, t: seq<T>, rel: (T, T) -> bool)
    requires Pairwise(s, rel) && Pairwise(t, rel)
    requires forall i, j :: 0 <= i < |s| && 0 <= j < |t| ==> rel(s[i], t[j])
    ensures Pairwise(s + t, rel)
  {
  }
}
