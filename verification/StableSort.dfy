/**
  `Array.prototype.sort` as ECMAScript 2019 specifies it: stable, ascending in a
  numeric key.  Three parts of the system sort this way (event times, IoU scores,
  detection confidences), so the order is defined once and characterised once:
  a sequence is *the* stable sort of another exactly when it is sorted and keeps,
  for every key, the original order of the elements with that key.
*/
module StableSort {
  import opened Filtering

  /** Inserts `x` behind every element whose key is not greater. */
  function Insert<T>(key: T -> real, x: T, s: seq<T>): (r: seq<T>)
    ensures |r| == |s| + 1
  {
    if s == [] || key(s[|s| - 1]) <= key(x) then s + [x]
    else Insert(key, x, s[..|s| - 1]) + [s[|s| - 1]]
  }

  function Sort<T>(key: T -> real, s: seq<T>): (r: seq<T>)
    ensures |r| == |s|
  {
    if s == [] then [] else Insert(key, s[|s| - 1], Sort(key, s[..|s| - 1]))
  }

  ghost predicate Sorted<T>(key: T -> real, s: seq<T>) {
    forall i, j :: 0 <= i < j < |s| ==> key(s[i]) <= key(s[j])
  }

  function HasKey<T>(key: T -> real, k: real): T -> bool { (x: T) => key(x) == k }

  /** The elements whose key is `k`, in order. */
  function Class<T>(key: T -> real, k: real, s: seq<T>): seq<T> {
    Filter(HasKey(key, k), s)
  }

  /** `a` and `b` hold the same elements, and elements with equal keys in the same order. */
  ghost predicate SameClasses<T(!new)>(key: T -> real, a: seq<T>, b: seq<T>) {
    forall k :: Class(key, k, a) == Class(key, k, b)
  }

  lemma ClassMember<T>(key: T -> real, k: real, s: seq<T>, x: T)
    ensures x in Class(key, k, s) <==> x in s && key(x) == k
  {
    FilterMember(HasKey(key, k), s, x);
  }

  lemma ClassSnoc<T>(key: T -> real, k: real, s: seq<T>, x: T)
    ensures Class(key, k, s + [x]) == if key(x) == k then Class(key, k, s) + [x] else Class(key, k, s)
  {
    FilterSnoc(HasKey(key, k), s, x);
  }

  lemma ClassAppend<T>(key: T -> real, k: real, a: seq<T>, b: seq<T>)
    ensures Class(key, k, a + b) == Class(key, k, a) + Class(key, k, b)
  {
    FilterAppend(HasKey(key, k), a, b);
  }

  /** The first element with a given key heads that key's class. */
  lemma ClassHead<T>(key: T -> real, k: real, s: seq<T>)
    requires s != []
    ensures Class(key, k, s) == (if key(s[0]) == k then [s[0]] else []) + Class(key, k, s[1..])
  {
    assert s == [s[0]] + s[1..];
    ClassAppend(key, k, [s[0]], s[1..]);
    assert [s[0]][..0] == [];
  }

  lemma {:induction false} InsertMember<T>(key: T -> real, x: T, s: seq<T>, y: T)
    ensures y in Insert(key, x, s) <==> y == x || y in s
  {
    if s != [] && key(s[|s| - 1]) > key(x) {
      InsertMember(key, x, s[..|s| - 1], y);
      assert s == s[..|s| - 1] + [s[|s| - 1]];
    }
  }

  lemma {:induction false} InsertSorts<T>(key: T -> real, x: T, s: seq<T>)
    requires Sorted(key, s)
    ensures Sorted(key, Insert(key, x, s))
  {
    if s != [] && key(s[|s| - 1]) > key(x) {
      var init, last := s[..|s| - 1], s[|s| - 1];
      InsertSorts(key, x, init);
      var r := Insert(key, x, init);
      forall i | 0 <= i < |r| ensures key(r[i]) <= key(last) {
        assert r[i] in r;
        InsertMember(key, x, init, r[i]);
        if r[i] != x {
          var k :| 0 <= k < |init| && init[k] == r[i];
          assert key(s[k]) <= key(s[|s| - 1]);
        }
      }
    }
  }

  /** Inserting puts `x` last among the elements with its key. */
  lemma {:induction false} InsertClass<T>(key: T -> real, x: T, s: seq<T>, k: real)
    requires Sorted(key, s)
    ensures Class(key, k, Insert(key, x, s)) == if key(x) == k then Class(key, k, s) + [x] else Class(key, k, s)
  {
    if s == [] || key(s[|s| - 1]) <= key(x) {
      ClassSnoc(key, k, s, x);
    } else {
      var init, last := s[..|s| - 1], s[|s| - 1];
      InsertClass(key, x, init, k);
      assert s == init + [last];
      ClassSnoc(key, k, init, last);
      ClassSnoc(key, k, Insert(key, x, init), last);
    }
  }

  lemma {:induction false} SortMember<T>(key: T -> real, s: seq<T>, x: T)
    ensures x in Sort(key, s) <==> x in s
  {
    if s != [] {
      SortMember(key, s[..|s| - 1], x);
      InsertMember(key, s[|s| - 1], Sort(key, s[..|s| - 1]), x);
      assert s == s[..|s| - 1] + [s[|s| - 1]];
    }
  }

  lemma {:induction false} SortSorted<T>(key: T -> real, s: seq<T>)
    ensures Sorted(key, Sort(key, s))
  {
    if s != [] {
      SortSorted(key, s[..|s| - 1]);
      InsertSorts(key, s[|s| - 1], Sort(key, s[..|s| - 1]));
    }
  }

  lemma {:induction false} SortClass<T>(key: T -> real, s: seq<T>, k: real)
    ensures Class(key, k, Sort(key, s)) == Class(key, k, s)
  {
    if s != [] {
      var init, last := s[..|s| - 1], s[|s| - 1];
      SortClass(key, init, k);
      SortSorted(key, init);
      InsertClass(key, last, Sort(key, init), k);
      assert s == init + [last];
      ClassSnoc(key, k, init, last);
    }
  }

  /** What sorting promises: order, the same elements, and ties as they were. */
  lemma SortSpec<T(!new)>(key: T -> real, s: seq<T>)
    ensures Sorted(key, Sort(key, s))
    ensures SameClasses(key, Sort(key, s), s)
    ensures forall x :: x in Sort(key, s) <==> x in s
  {
    SortSorted(key, s);
    forall k ensures Class(key, k, Sort(key, s)) == Class(key, k, s) { SortClass(key, s, k); }
    forall x ensures x in Sort(key, s) <==> x in s { SortMember(key, s, x); }
  }

  lemma SameMember<T(!new)>(key: T -> real, a: seq<T>, b: seq<T>, x: T)
    requires SameClasses(key, a, b)
    ensures x in a <==> x in b
  {
    ClassMember(key, key(x), a, x);
    ClassMember(key, key(x), b, x);
    assert Class(key, key(x), a) == Class(key, key(x), b);
  }

  lemma HeadsAgree<T(!new)>(key: T -> real, a: seq<T>, b: seq<T>)
    requires a != [] && b != []
    requires Sorted(key, a) && Sorted(key, b) && SameClasses(key, a, b)
    ensures a[0] == b[0]
  {
    SameMember(key, a, b, a[0]);
    SameMember(key, a, b, b[0]);
    assert a[0] in b && b[0] in a;
    assert key(b[0]) <= key(a[0]) && key(a[0]) <= key(b[0]);
    var k := key(a[0]);
    ClassHead(key, k, a);
    ClassHead(key, k, b);
    assert Class(key, k, a) == Class(key, k, b);
    assert Class(key, k, a)[0] == a[0] && Class(key, k, b)[0] == b[0];
  }

  lemma TailsAgree<T(!new)>(key: T -> real, a: seq<T>, b: seq<T>)
    requires a != [] && b != [] && a[0] == b[0] && SameClasses(key, a, b)
    ensures SameClasses(key, a[1..], b[1..])
  {
    forall k ensures Class(key, k, a[1..]) == Class(key, k, b[1..]) {
      ClassHead(key, k, a);
      ClassHead(key, k, b);
      var h := if key(a[0]) == k then [a[0]] else [];
      assert Class(key, k, a) == Class(key, k, b);
      assert Class(key, k, a[1..]) == (h + Class(key, k, a[1..]))[|h|..];
      assert Class(key, k, b[1..]) == (h + Class(key, k, b[1..]))[|h|..];
    }
  }

  /** A sorted sequence is determined by its classes. */
  lemma {:induction false} SortedUnique<T(!new)>(key: T -> real, a: seq<T>, b: seq<T>)
    requires Sorted(key, a) && Sorted(key, b) && SameClasses(key, a, b)
    ensures a == b
  {
    if a != [] { SameMember(key, a, b, a[0]); }
    if b != [] { SameMember(key, a, b, b[0]); }
    if a != [] && b != [] {
      HeadsAgree(key, a, b);
      TailsAgree(key, a, b);
      SortedUnique(key, a[1..], b[1..]);
      assert a == [a[0]] + a[1..] && b == [b[0]] + b[1..];
    }
  }

  /** Recognising the stable sort: sorted, and class by class the original. */
  lemma SortCharacterised<T(!new)>(key: T -> real, a: seq<T>, s: seq<T>)
    ensures a == Sort(key, s) <==> Sorted(key, a) && SameClasses(key, a, s)
  {
    SortSpec(key, s);
    if Sorted(key, a) && SameClasses(key, a, s) {
      forall k ensures Class(key, k, a) == Class(key, k, Sort(key, s)) {
        assert Class(key, k, a) == Class(key, k, s);
        assert Class(key, k, Sort(key, s)) == Class(key, k, s);
      }
      SortedUnique(key, a, Sort(key, s));
    }
  }

  /** Same classes, same elements with the same multiplicities. */
  lemma SameClassesPermute<T(!new)>(key: T -> real, a: seq<T>, b: seq<T>, x: T)
    requires SameClasses(key, a, b)
    ensures multiset(a)[x] == multiset(b)[x]
  {
    ClassCount(key, a, x);
    ClassCount(key, b, x);
    assert Class(key, key(x), a) == Class(key, key(x), b);
  }

  lemma {:induction false} ClassCount<T>(key: T -> real, s: seq<T>, x: T)
    ensures multiset(Class(key, key(x), s))[x] == multiset(s)[x]
  {
    if s != [] {
      var init, last := s[..|s| - 1], s[|s| - 1];
      ClassCount(key, init, x);
      assert s == init + [last];
      ClassSnoc(key, key(x), init, last);
    }
  }
}
