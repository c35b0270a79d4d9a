/** Stable sorting by a comparison, and that order and ties leave no choice about its result. */
module StableSort {

  type Less<!T> = (T, T) -> bool

  /** Asymmetric, and whatever lies before something lies before or behind anything between them. */
  ghost predicate Orders<T(!new)>(less: Less<T>) {
    && (forall a, b :: less(a, b) ==> !less(b, a))
    && (forall a, b, c :: less(a, c) ==> less(a, b) || less(b, c))
  }

  predicate InOrder<T>(less: Less<T>, s: seq<T>) {
    forall i, j :: 0 <= i < j < |s| ==> !less(s[j], s[i])
  }

  predicate Ties<T>(less: Less<T>, a: T, b: T) {
    !less(a, b) && !less(b, a)
  }

  /** The elements that tie with `e`, in their order. */
  function Tied<T>(less: Less<T>, e: T, s: seq<T>): seq<T> {
    if |s| == 0 then [] else (if Ties(less, e, s[0]) then [s[0]] else []) + Tied(less, e, s[1..])
  }

  /** In front of everything that is not less. */
  function Insert<T>(less: Less<T>, x: T, s: seq<T>): seq<T> {
    if |s| == 0 || !less(s[0], x) then [x] + s else [s[0]] + Insert(less, x, s[1..])
  }

  function Sort<T>(less: Less<T>, s: seq<T>): seq<T> {
    if |s| == 0 then [] else Insert(less, s[0], Sort(less, s[1..]))
  }

  /** In order, and ties in the order they were in before. */
  ghost predicate SortedFrom<T(!new)>(less: Less<T>, t: seq<T>, s: seq<T>) {
    InOrder(less, t) && forall e :: Tied(less, e, t) == Tied(less, e, s)
  }

  // ---------------------------------------------------------------- inserting

  lemma ConsIsMore<T>(x: T, s: seq<T>)
    ensures multiset([x] + s) == multiset{x} + multiset(s)
  {
  }

  lemma {:induction false} InsertAdds<T>(less: Less<T>, x: T, s: seq<T>)
    ensures multiset(Insert(less, x, s)) == multiset{x} + multiset(s)
  {
    if |s| > 0 && less(s[0], x) {
      InsertAdds(less, x, s[1..]);
      ConsIsMore(s[0], Insert(less, x, s[1..]));
      ConsIsMore(s[0], s[1..]);
      assert [s[0]] + s[1..] == s;
    } else {
      ConsIsMore(x, s);
    }
  }

  /** Nothing in `s` is less than `x`. */
  predicate Leads<T>(less: Less<T>, x: T, s: seq<T>) {
    forall k :: 0 <= k < |s| ==> !less(s[k], x)
  }

  lemma ConsInOrder<T>(less: Less<T>, x: T, s: seq<T>)
    requires InOrder(less, s) && Leads(less, x, s)
    ensures InOrder(less, [x] + s)
  {
  }

  lemma {:induction false} InsertKeepsOrder<T(!new)>(less: Less<T>, x: T, s: seq<T>)
    requires Orders(less) && InOrder(less, s)
    ensures InOrder(less, Insert(less, x, s))
    ensures forall y :: Leads(less, y, s) && !less(x, y) ==> Leads(less, y, Insert(less, x, s))
  {
    if |s| == 0 || !less(s[0], x) {
      assert Leads(less, x, s);
      ConsInOrder(less, x, s);
    } else {
      var rest := s[1..];
      InsertKeepsOrder(less, x, rest);
      assert Leads(less, s[0], rest);
      ConsInOrder(less, s[0], Insert(less, x, rest));
      assert forall y :: Leads(less, y, s) ==> !less(s[0], y) && Leads(less, y, rest);
    }
  }

  lemma TiedCons<T>(less: Less<T>, e: T, x: T, s: seq<T>)
    ensures Tied(less, e, [x] + s) == (if Ties(less, e, x) then [x] else []) + Tied(less, e, s)
  {
    assert ([x] + s)[1..] == s;
  }

  /** Inserting passes no tie: nothing that is less than `x` ties with what `x` ties with. */
  lemma {:induction false} InsertKeepsTies<T(!new)>(less: Less<T>, x: T, s: seq<T>, e: T)
    requires Orders(less)
    ensures Tied(less, e, Insert(less, x, s)) == Tied(less, e, [x] + s)
  {
    TiedCons(less, e, x, s);
    if |s| > 0 && less(s[0], x) {
      var rest := s[1..];
      InsertKeepsTies(less, x, rest, e);
      TiedCons(less, e, x, rest);
      TiedCons(less, e, s[0], Insert(less, x, rest));
      assert !(Ties(less, e, x) && Ties(less, e, s[0]));
    }
  }

  // ---------------------------------------------------------------- the sort

  lemma {:induction false} SortPermutes<T>(less: Less<T>, s: seq<T>)
    ensures multiset(Sort(less, s)) == multiset(s)
  {
    if |s| > 0 {
      SortPermutes(less, s[1..]);
      InsertAdds(less, s[0], Sort(less, s[1..]));
      ConsIsMore(s[0], s[1..]);
      assert [s[0]] + s[1..] == s;
    }
  }

  lemma {:induction false} SortSorts<T(!new)>(less: Less<T>, s: seq<T>)
    requires Orders(less)
    ensures SortedFrom(less, Sort(less, s), s)
  {
    if |s| > 0 {
      var rest := Sort(less, s[1..]);
      SortSorts(less, s[1..]);
      InsertKeepsOrder(less, s[0], rest);
      forall e
        ensures Tied(less, e, Sort(less, s)) == Tied(less, e, s)
      {
        InsertKeepsTies(less, s[0], rest, e);
        TiedCons(less, e, s[0], rest);
      }
    }
  }

  // ---------------------------------------------------------------- nothing else is sorted from it

  lemma {:induction false} TiedIsThere<T>(less: Less<T>, e: T, s: seq<T>)
    ensures forall x :: x in Tied(less, e, s) ==> x in s && Ties(less, e, x)
  {
    if |s| > 0 {
      TiedIsThere(less, e, s[1..]);
    }
  }

  /** Two lists in order with the same ties start with the same element. */
  lemma SameFirst<T(!new)>(less: Less<T>, t: seq<T>, u: seq<T>)
    requires Orders(less) && InOrder(less, t) && |t| > 0 && |u| > 0
    requires Tied(less, u[0], t) == Tied(less, u[0], u)
    ensures !less(u[0], t[0])
  {
    assert u[0] in Tied(less, u[0], u);
    TiedIsThere(less, u[0], t);
  }

  lemma Cancel<T>(p: seq<T>, a: seq<T>, b: seq<T>)
    requires p + a == p + b
    ensures a == b
  {
    assert (p + a)[|p|..] == a && (p + b)[|p|..] == b;
  }

  lemma {:induction false} SortedIsUnique<T(!new)>(less: Less<T>, t: seq<T>, u: seq<T>)
    requires Orders(less) && InOrder(less, u) && SortedFrom(less, t, u)
    ensures t == u
  {
    if |t| == 0 || |u| == 0 {
      assert |u| > 0 ==> u[0] in Tied(less, u[0], u);
      assert |t| > 0 ==> t[0] in Tied(less, t[0], t);
    } else {
      SameFirst(less, t, u);
      SameFirst(less, u, t);
      assert Tied(less, t[0], t)[0] == t[0] && Tied(less, t[0], u)[0] == u[0];
      forall e
        ensures Tied(less, e, t[1..]) == Tied(less, e, u[1..])
      {
        TiedCons(less, e, t[0], t[1..]);
        TiedCons(less, e, t[0], u[1..]);
        assert [t[0]] + t[1..] == t && [t[0]] + u[1..] == u;
        Cancel(if Ties(less, e, t[0]) then [t[0]] else [], Tied(less, e, t[1..]), Tied(less, e, u[1..]));
      }
      SortedIsUnique(less, t[1..], u[1..]);
      assert [t[0]] + t[1..] == t && [t[0]] + u[1..] == u;
    }
  }

  /** So whatever is sorted from `s` is what the sort gives, and a permutation of it. */
  lemma SortedIsSort<T(!new)>(less: Less<T>, t: seq<T>, s: seq<T>)
    requires Orders(less)
    ensures SortedFrom(less, t, s) <==> t == Sort(less, s)
    ensures SortedFrom(less, t, s) ==> multiset(t) == multiset(s)
  {
    SortSorts(less, s);
    SortPermutes(less, s);
    if SortedFrom(less, t, s) {
      SortedIsUnique(less, t, Sort(less, s));
    }
  }
}
