/** The stable sort that `Array.prototype.sort` performs for a comparator,
    written as insertion from the right; `le(a, b)` stands for `cmp(a, b) <= 0`. */
module Sorting {

  ghost predicate TotalPreorder<T(!new)>(le: (T, T) -> bool) {
    && (forall a, b :: le(a, b) || le(b, a))
    && (forall a, b, c :: le(a, b) && le(b, c) ==> le(a, c))
  }

  ghost predicate SortedBy<T>(le: (T, T) -> bool, s: seq<T>) {
    forall i, j :: 0 <= i < j < |s| ==> le(s[i], s[j])
  }

  function Insert<T>(le: (T, T) -> bool, x: T, s: seq<T>): seq<T> {
    if s == [] || le(x, s[0]) then [x] + s else [s[0]] + Insert(le, x, s[1..])
  }

  function Sort<T>(le: (T, T) -> bool, s: seq<T>): seq<T> {
    if s == [] then [] else Insert(le, s[0], Sort(le, s[1..]))
  }

  lemma {:induction false} InsertPermutes<T>(le: (T, T) -> bool, x: T, s: seq<T>)
    ensures multiset(Insert(le, x, s)) == multiset(s) + multiset{x}
  {
    if s == [] || le(x, s[0]) {
      assert multiset([x] + s) == multiset{x} + multiset(s);
    } else {
      var rest := Insert(le, x, s[1..]);
      InsertPermutes(le, x, s[1..]);
      assert multiset([s[0]] + rest) == multiset{s[0]} + multiset(rest);
      assert s == [s[0]] + s[1..];
    }
  }

  lemma {:induction false} InsertSorted<T(!new)>(le: (T, T) -> bool, x: T, s: seq<T>)
    requires TotalPreorder(le) && SortedBy(le, s)
    ensures SortedBy(le, Insert(le, x, s))
  {
    if s == [] || le(x, s[0]) {
      assert forall i :: 0 <= i < |s| ==> le(x, s[i]);
    } else {
      InsertSorted(le, x, s[1..]);
      var r := Insert(le, x, s[1..]);
      forall i | 0 <= i < |r| ensures le(s[0], r[i]) {
        InsertPermutes(le, x, s[1..]);
        assert r[i] in multiset(r);
        if r[i] != x { assert r[i] in multiset(s[1..]); assert r[i] in s[1..]; }
      }
    }
  }

  /** Sorting permutes its input into comparator order. */
  lemma {:induction false} SortCorrect<T(!new)>(le: (T, T) -> bool, s: seq<T>)
    requires TotalPreorder(le)
    ensures SortedBy(le, Sort(le, s)) && multiset(Sort(le, s)) == multiset(s) && |Sort(le, s)| == |s|
  {
    if s != [] {
      SortCorrect(le, s[1..]);
      InsertSorted(le, s[0], Sort(le, s[1..]));
      InsertPermutes(le, s[0], Sort(le, s[1..]));
      assert s == [s[0]] + s[1..];
      assert |Sort(le, s)| == |multiset(Sort(le, s))| == |multiset(s)| == |s|;
    }
  }

  lemma {:induction false} SortMembers<T(!new)>(le: (T, T) -> bool, s: seq<T>, x: T)
    requires TotalPreorder(le)
    ensures x in Sort(le, s) <==> x in s
  {
    SortCorrect(le, s);
    assert x in Sort(le, s) <==> x in multiset(Sort(le, s));
    assert x in s <==> x in multiset(s);
  }

  ghost predicate Distinct<T>(s: seq<T>) {
    forall i, j :: 0 <= i < j < |s| ==> s[i] != s[j]
  }

  lemma {:induction false} DistinctCounts<T>(s: seq<T>)
    ensures Distinct(s) <==> forall x :: x in s ==> multiset(s)[x] == 1
  {
    if s != [] {
      var t := s[1..];
      assert s == [s[0]] + t;
      DistinctCounts(t);
      if Distinct(s) {
        forall i, j | 0 <= i < j < |t| ensures t[i] != t[j] { assert s[i + 1] != s[j + 1]; }
        assert s[0] !in t;
        assert multiset(t)[s[0]] == 0;
      }
      if forall x :: x in s ==> multiset(s)[x] == 1 {
        assert multiset(s)[s[0]] == 1 && multiset(s) == multiset{s[0]} + multiset(t);
        assert s[0] !in multiset(t);
        forall x | x in t ensures multiset(t)[x] == 1 {
          assert x in s; assert x != s[0]; assert multiset(s)[x] == multiset(t)[x];
        }
        forall i, j | 0 <= i < j < |s| ensures s[i] != s[j] {
          if i > 0 { assert t[i - 1] != t[j - 1]; } else { assert s[j] == t[j - 1]; }
        }
      }
    }
  }

  lemma {:induction false} SortDistinct<T(!new)>(le: (T, T) -> bool, s: seq<T>)
    requires TotalPreorder(le) && Distinct(s)
    ensures Distinct(Sort(le, s))
  {
    SortCorrect(le, s);
    DistinctCounts(s);
    DistinctCounts(Sort(le, s));
    forall x | x in Sort(le, s) ensures multiset(Sort(le, s))[x] == 1 { SortMembers(le, s, x); }
  }

  lemma {:induction false} SortedHead<T(!new)>(le: (T, T) -> bool, a: seq<T>, b: seq<T>)
    requires a != [] && b != [] && multiset(a) == multiset(b)
    requires SortedBy(le, a)
    ensures b[0] in a && (b[0] == a[0] || le(a[0], b[0]))
  {
    assert b[0] in multiset(b);
    assert b[0] in multiset(a);
    var j :| 0 <= j < |a| && a[j] == b[0];
  }

  lemma {:induction false} TailMultiset<T>(s: seq<T>)
    requires s != []
    ensures multiset(s[1..]) == multiset(s) - multiset{s[0]}
  {
    assert s == [s[0]] + s[1..];
  }

  ghost predicate NoTies<T>(le: (T, T) -> bool, s: seq<T>) {
    forall i, j :: 0 <= i < |s| && 0 <= j < |s| && le(s[i], s[j]) && le(s[j], s[i]) ==> s[i] == s[j]
  }

  lemma {:induction false} SameHead<T(!new)>(le: (T, T) -> bool, a: seq<T>, b: seq<T>)
    requires a != [] && b != [] && multiset(a) == multiset(b)
    requires SortedBy(le, a) && SortedBy(le, b) && NoTies(le, a)
    ensures a[0] == b[0]
  {
    SortedHead(le, a, b);
    SortedHead(le, b, a);
    var j :| 0 <= j < |a| && a[j] == b[0];
  }

  /** With no ties the sorted order is unique: two arrangements of the same
      elements sort to the same sequence. */
  lemma {:induction false} SortedUnique<T(!new)>(le: (T, T) -> bool, a: seq<T>, b: seq<T>)
    requires SortedBy(le, a) && SortedBy(le, b) && multiset(a) == multiset(b)
    requires NoTies(le, a)
    ensures a == b
  {
    assert |a| == |multiset(a)| == |multiset(b)| == |b|;
    if a != [] {
      SameHead(le, a, b);
      TailMultiset(a);
      TailMultiset(b);
      SortedUnique(le, a[1..], b[1..]);
      assert a == [a[0]] + a[1..] && b == [b[0]] + b[1..];
    }
  }

  /** Wherever the order ties two elements, the one that satisfies `before` comes first. */
  ghost predicate TiesKeep<T>(le: (T, T) -> bool, before: (T, T) -> bool, s: seq<T>) {
    forall i, j :: 0 <= i < j < |s| && le(s[j], s[i]) ==> before(s[i], s[j])
  }

  lemma {:induction false} InsertKeepsTies<T(!new)>(le: (T, T) -> bool, before: (T, T) -> bool, x: T, s: seq<T>)
    requires TotalPreorder(le) && SortedBy(le, s) && TiesKeep(le, before, s)
    requires forall y :: y in s ==> before(x, y)
    ensures TiesKeep(le, before, Insert(le, x, s))
  {
    if s != [] && !le(x, s[0]) {
      var r := Insert(le, x, s[1..]);
      InsertKeepsTies(le, before, x, s[1..]);
      InsertPermutes(le, x, s[1..]);
      forall j | 0 <= j < |r| && le(r[j], s[0]) ensures before(s[0], r[j]) {
        assert r[j] in multiset(r);
        if r[j] != x {
          assert r[j] in s[1..];
          var k :| 0 <= k < |s[1..]| && s[1..][k] == r[j];
          assert s[k + 1] == r[j];
        }
      }
      forall i, j | 0 <= i < j < |[s[0]] + r| && le(([s[0]] + r)[j], ([s[0]] + r)[i])
        ensures before(([s[0]] + r)[i], ([s[0]] + r)[j])
      {
        if i > 0 { assert le(r[j - 1], r[i - 1]); }
      }
    }
  }

  /** The sort is stable: tied elements keep the order they came in. */
  lemma {:induction false} SortKeepsTies<T(!new)>(le: (T, T) -> bool, before: (T, T) -> bool, s: seq<T>)
    requires TotalPreorder(le) && forall i, j :: 0 <= i < j < |s| ==> before(s[i], s[j])
    ensures TiesKeep(le, before, Sort(le, s))
  {
    if s != [] {
      forall i, j | 0 <= i < j < |s[1..]| ensures before(s[1..][i], s[1..][j]) { assert before(s[i + 1], s[j + 1]); }
      SortKeepsTies(le, before, s[1..]);
      SortCorrect(le, s[1..]);
      forall y | y in Sort(le, s[1..]) ensures before(s[0], y) {
        SortMembers(le, s[1..], y);
        var k :| 0 <= k < |s[1..]| && s[1..][k] == y;
        assert before(s[0], s[k + 1]);
      }
      InsertKeepsTies(le, before, s[0], Sort(le, s[1..]));
    }
  }
}
