/** `Array.prototype.filter`, and how filters compose. */
module Filtering {

  ghost predicate NoRepeats<T>(s: seq<T>) {
    forall i, j :: 0 <= i < j < |s| ==> s[i] != s[j]
  }

  function Filter<T>(p: T -> bool, s: seq<T>): (r: seq<T>)
    ensures |r| <= |s|
  {
    if s == [] then []
    else if p(s[|s| - 1]) then Filter(p, s[..|s| - 1]) + [s[|s| - 1]]
    else Filter(p, s[..|s| - 1])
  }

  lemma FilterSnoc<T>(p: T -> bool, s: seq<T>, x: T)
    ensures Filter(p, s + [x]) == if p(x) then Filter(p, s) + [x] else Filter(p, s)
  {
    assert (s + [x])[..|s|] == s;
  }

  lemma {:induction false} FilterAppend<T>(p: T -> bool, a: seq<T>, b: seq<T>)
    ensures Filter(p, a + b) == Filter(p, a) + Filter(p, b)
  {
    if b == [] {
      assert a + b == a;
    } else {
      var init, last := b[..|b| - 1], b[|b| - 1];
      FilterAppend(p, a, init);
      assert a + b == (a + init) + [last];
      FilterSnoc(p, a + init, last);
    }
  }

  lemma {:induction false} FilterMember<T>(p: T -> bool, s: seq<T>, x: T)
    ensures x in Filter(p, s) <==> x in s && p(x)
  {
    if s != [] {
      FilterMember(p, s[..|s| - 1], x);
      assert s == s[..|s| - 1] + [s[|s| - 1]];
    }
  }

  /** A filter that keeps everything, and one that keeps nothing. */
  lemma {:induction false} FilterAllOrNone<T>(p: T -> bool, s: seq<T>)
    ensures (forall x :: x in s ==> p(x)) ==> Filter(p, s) == s
    ensures (forall x :: x in s ==> !p(x)) ==> Filter(p, s) == []
  {
    if s != [] {
      var init, last := s[..|s| - 1], s[|s| - 1];
      assert s == init + [last];
      assert last in s && forall x :: x in init ==> x in s;
      FilterAllOrNone(p, init);
    }
  }

  /** Filtering by `q` first makes no difference when `p` implies it, and leaves nothing when `p` excludes it. */
  lemma {:induction false} FilterAfter<T(!new)>(p: T -> bool, q: T -> bool, s: seq<T>)
    ensures (forall x :: p(x) ==> q(x)) ==> Filter(p, Filter(q, s)) == Filter(p, s)
    ensures (forall x :: p(x) ==> !q(x)) ==> Filter(p, Filter(q, s)) == []
  {
    if s != [] {
      var init, last := s[..|s| - 1], s[|s| - 1];
      FilterAfter(p, q, init);
      if q(last) { FilterSnoc(p, Filter(q, init), last); }
    }
  }

  lemma {:induction false} FilterCommutes<T>(p: T -> bool, q: T -> bool, s: seq<T>)
    ensures Filter(p, Filter(q, s)) == Filter(q, Filter(p, s))
  {
    if s != [] {
      var init, last := s[..|s| - 1], s[|s| - 1];
      FilterCommutes(p, q, init);
      FilterSnoc(p, Filter(q, init), last);
      FilterSnoc(q, Filter(p, init), last);
    }
  }

  /** Elements that are related stay related. */
  lemma {:induction false} FilterPairwise<T>(p: T -> bool, related: (T, T) -> bool, s: seq<T>)
    requires forall i, j :: 0 <= i < j < |s| ==> related(s[i], s[j])
    ensures forall i, j :: 0 <= i < j < |Filter(p, s)| ==> related(Filter(p, s)[i], Filter(p, s)[j])
  {
    if s != [] {
      var init, last := s[..|s| - 1], s[|s| - 1];
      FilterPairwise(p, related, init);
      var f := Filter(p, init);
      forall i | 0 <= i < |f| ensures related(f[i], last) {
        assert f[i] in f;
        FilterMember(p, init, f[i]);
        var k :| 0 <= k < |init| && init[k] == f[i];
        assert related(s[k], s[|s| - 1]);
      }
    }
  }
}
