/** Sorting by an order given as a function, and the order of strings. */
module Sorting {

  ghost predicate TotalOrder<T(!new)>(leq: (T, T) -> bool) {
    && (forall a, b :: leq(a, b) || leq(b, a))
    && (forall a, b, c :: leq(a, b) && leq(b, c) ==> leq(a, c))
  }

  ghost predicate Ordered<T>(leq: (T, T) -> bool, s: seq<T>) {
    forall i, j :: 0 <= i < j < |s| ==> leq(s[i], s[j])
  }

  function Insert<T>(leq: (T, T) -> bool, x: T, s: seq<T>): (r: seq<T>)
    ensures |r| == |s| + 1
  {
    if s == [] then [x]
    else if leq(x, s[0]) then [x] + s
    else [s[0]] + Insert(leq, x, s[1..])
  }

  function Sort<T>(leq: (T, T) -> bool, s: seq<T>): (r: seq<T>)
    ensures |r| == |s|
  {
    if s == [] then [] else Insert(leq, s[0], Sort(leq, s[1..]))
  }

  lemma {:induction false} InsertKeeps<T>(leq: (T, T) -> bool, x: T, s: seq<T>)
    ensures multiset(Insert(leq, x, s)) == multiset(s) + multiset{x}
  {
    if s != [] {
      assert s == [s[0]] + s[1..];
      InsertKeeps(leq, x, s[1..]);
    }
  }

  lemma {:induction false} InsertOrders<T(!new)>(leq: (T, T) -> bool, x: T, s: seq<T>)
    requires TotalOrder(leq) && Ordered(leq, s)
    ensures Ordered(leq, Insert(leq, x, s))
  {
    if s != [] && !leq(x, s[0]) {
      var rest := Insert(leq, x, s[1..]);
      InsertOrders(leq, x, s[1..]);
      InsertKeeps(leq, x, s[1..]);
      forall i | 0 <= i < |rest| ensures leq(s[0], rest[i]) {
        assert rest[i] in multiset(rest);
        assert rest[i] == x || rest[i] in s[1..];
      }
    }
  }

  lemma {:induction false} SortSorts<T(!new)>(leq: (T, T) -> bool, s: seq<T>)
    requires TotalOrder(leq)
    ensures multiset(Sort(leq, s)) == multiset(s) && Ordered(leq, Sort(leq, s))
  {
    if s != [] {
      assert s == [s[0]] + s[1..];
      SortSorts(leq, s[1..]);
      InsertKeeps(leq, s[0], Sort(leq, s[1..]));
      InsertOrders(leq, s[0], Sort(leq, s[1..]));
    }
  }

  function IfTie<T>(leq: (T, T) -> bool, x: T, e: T): seq<T> {
    if leq(x, e) && leq(e, x) then [x] else []
  }

  /** The elements that tie with e, in order. */
  function Ties<T>(leq: (T, T) -> bool, s: seq<T>, e: T): seq<T> {
    if s == [] then [] else IfTie(leq, s[0], e) + Ties(leq, s[1..], e)
  }

  lemma TiesOfCons<T>(leq: (T, T) -> bool, x: T, s: seq<T>, e: T)
    ensures Ties(leq, [x] + s, e) == IfTie(leq, x, e) + Ties(leq, s, e)
  {
    assert ([x] + s)[1..] == s;
  }

  lemma OneTie<T(!new)>(leq: (T, T) -> bool, x: T, y: T, e: T)
    requires TotalOrder(leq) && !leq(x, y)
    ensures IfTie(leq, x, e) == [] || IfTie(leq, y, e) == []
  {
  }

  lemma {:induction false} InsertKeepsTies<T(!new)>(leq: (T, T) -> bool, x: T, s: seq<T>, e: T)
    requires TotalOrder(leq)
    ensures Ties(leq, Insert(leq, x, s), e) == IfTie(leq, x, e) + Ties(leq, s, e)
  {
    hide Ties, IfTie, TotalOrder;
    TiesOfCons(leq, x, s, e);
    if s == [] {
      assert [x] + s == [x];
    } else if !leq(x, s[0]) {
      var rest := s[1..];
      assert s == [s[0]] + rest;
      InsertKeepsTies(leq, x, rest, e);
      TiesOfCons(leq, s[0], Insert(leq, x, rest), e);
      TiesOfCons(leq, s[0], rest, e);
      OneTie(leq, x, s[0], e);
    }
  }

  /** The sort rearranges, orders, and keeps ties as they came. */
  lemma {:induction false} SortIsStable<T(!new)>(leq: (T, T) -> bool, s: seq<T>, e: T)
    requires TotalOrder(leq)
    ensures Ties(leq, Sort(leq, s), e) == Ties(leq, s, e)
  {
    if s != [] {
      SortIsStable(leq, s[1..], e);
      InsertKeepsTies(leq, s[0], Sort(leq, s[1..]), e);
    }
  }

  lemma SameMembers<T>(a: seq<T>, b: seq<T>)
    requires multiset(a) == multiset(b)
    ensures forall x :: x in a <==> x in b
  {
    forall x ensures x in a <==> x in b {
      assert x in a <==> x in multiset(a);
    }
  }

  /** Strings compared character by character. */
  predicate StringLeq(a: string, b: string) {
    a == "" || (b != "" && (a[0] < b[0] || (a[0] == b[0] && StringLeq(a[1..], b[1..]))))
  }

  lemma {:induction false} StringsAreOrdered(a: string, b: string, c: string)
    ensures StringLeq(a, b) || StringLeq(b, a)
    ensures StringLeq(a, b) && StringLeq(b, a) ==> a == b
    ensures StringLeq(a, b) && StringLeq(b, c) ==> StringLeq(a, c)
  {
    if a != "" && b != "" {
      if c == "" {
        StringsAreOrdered(a[1..], b[1..], "");
      } else {
        StringsAreOrdered(a[1..], b[1..], c[1..]);
      }
    }
  }
}
