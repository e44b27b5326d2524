/** Stable sorting by a comparison, as Array.prototype.sort does it, and when its result is unique. */
module StableSort {

  /** A strict weak order: what a consistent comparator gives. */
  ghost predicate WeakOrder<T(!new)>(less: (T, T) -> bool) {
    && (forall x, y :: !(less(x, y) && less(y, x)))
    && (forall x, y, z | less(x, z) :: less(x, y) || less(y, z))
  }

  predicate Ordered<T>(less: (T, T) -> bool, s: seq<T>) {
    forall i, j | 0 <= i < j < |s| :: !less(s[j], s[i])
  }

  function Insert<T>(less: (T, T) -> bool, x: T, s: seq<T>): (r: seq<T>)
    ensures multiset(r) == multiset(s) + multiset{x}
  {
    if s == [] || !less(s[0], x) then
      assert multiset([x] + s) == multiset(s) + multiset{x};
      [x] + s
    else
      assert s == [s[0]] + s[1..];
      [s[0]] + Insert(less, x, s[1..])
  }

  function Sort<T>(less: (T, T) -> bool, s: seq<T>): (r: seq<T>)
    ensures multiset(r) == multiset(s)
  {
    if s == [] then []
    else
      assert s == [s[0]] + s[1..];
      Insert(less, s[0], Sort(less, s[1..]))
  }

  lemma InMultiset<T>(s: seq<T>, t: seq<T>)
    requires multiset(s) == multiset(t)
    ensures |s| == |t| && forall x :: x in s <==> x in t
  {
    assert |multiset(s)| == |multiset(t)|;
    forall x
      ensures x in s <==> x in t
    {
      assert x in multiset(s) <==> x in multiset(t);
    }
  }

  function Without<T>(s: seq<T>, j: nat): seq<T>
    requires j < |s|
  {
    s[..j] + s[j + 1..]
  }

  lemma WithoutOne<T>(s: seq<T>, j: nat)
    requires j < |s|
    ensures multiset(s) == multiset(Without(s, j)) + multiset{s[j]}
    ensures multiset(Without(s, j)) == multiset(s) - multiset{s[j]}
  {
    assert s == s[..j] + [s[j]] + s[j + 1..];
  }

  lemma {:induction false} InsertOrders<T(!new)>(less: (T, T) -> bool, x: T, s: seq<T>)
    requires WeakOrder(less) && Ordered(less, s)
    ensures Ordered(less, Insert(less, x, s))
  {
    if s != [] && less(s[0], x) {
      var rest := Insert(less, x, s[1..]);
      InsertOrders(less, x, s[1..]);
      forall j | 0 <= j < |rest|
        ensures !less(rest[j], s[0])
      {
        assert rest[j] in multiset(rest);
        if rest[j] in s[1..] {
          var k :| 0 <= k < |s[1..]| && s[1..][k] == rest[j];
          assert s[k + 1] == rest[j];
        }
      }
    }
  }

  lemma {:induction false} SortOrders<T(!new)>(less: (T, T) -> bool, s: seq<T>)
    requires WeakOrder(less)
    ensures Ordered(less, Sort(less, s))
  {
    if s != [] {
      SortOrders(less, s[1..]);
      InsertOrders(less, s[0], Sort(less, s[1..]));
    }
  }

  /** No two different elements compare as equal. */
  ghost predicate Untied<T>(less: (T, T) -> bool, s: seq<T>) {
    forall x, y | x in s && y in s && !less(x, y) && !less(y, x) :: x == y
  }

  lemma {:induction false} OrderedUnique<T(!new)>(less: (T, T) -> bool, s: seq<T>, t: seq<T>)
    requires Ordered(less, s) && Ordered(less, t) && multiset(s) == multiset(t) && Untied(less, s)
    ensures s == t
    decreases |s|
  {
    InMultiset(s, t);
    if s != [] {
      FirstIsLeast(less, s, t);
      FirstIsLeast(less, t, s);
      assert s[0] == t[0];
      SameTails(s, t);
      RestUntied(less, s);
      OrderedUnique(less, s[1..], t[1..]);
      assert s == [s[0]] + s[1..] && t == [t[0]] + t[1..];
    }
  }

  lemma RestUntied<T>(less: (T, T) -> bool, s: seq<T>)
    requires Untied(less, s) && s != []
    ensures Untied(less, s[1..])
  {
    assert forall x :: x in s[1..] ==> x in s;
  }

  lemma SameTails<T>(s: seq<T>, t: seq<T>)
    requires s != [] && t != [] && s[0] == t[0] && multiset(s) == multiset(t)
    ensures multiset(s[1..]) == multiset(t[1..])
  {
    assert s == [s[0]] + s[1..] && t == [t[0]] + t[1..];
    assert multiset(s[1..]) == multiset(s) - multiset{s[0]};
    assert multiset(t[1..]) == multiset(t) - multiset{t[0]};
  }

  lemma FirstIsLeast<T(!new)>(less: (T, T) -> bool, s: seq<T>, t: seq<T>)
    requires Ordered(less, s) && s != [] && t != [] && t[0] in s
    ensures t[0] == s[0] || !less(t[0], s[0])
  {
  }

  /** Sorting forgets the order it was given, as long as no two different elements tie. */
  lemma SortForgets<T(!new)>(less: (T, T) -> bool, s: seq<T>, t: seq<T>)
    requires WeakOrder(less) && multiset(s) == multiset(t) && Untied(less, s)
    ensures Sort(less, s) == Sort(less, t)
  {
    SortOrders(less, s);
    SortOrders(less, t);
    InMultiset(s, Sort(less, s));
    OrderedUnique(less, Sort(less, s), Sort(less, t));
  }

  // ---------------------------------------------------------------- ties keep their order

  /** Two elements that tie are inserted side by side, the later one in front. */
  lemma {:induction false} TiedInserts<T(!new)>(less: (T, T) -> bool, x: T, y: T, s: seq<T>) returns (a: seq<T>, b: seq<T>)
    requires !less(x, y) && !less(y, x) && forall z <- s :: less(z, x) == less(z, y)
    ensures Insert(less, x, Insert(less, y, s)) == a + [x, y] + b
    ensures Insert(less, y, Insert(less, x, s)) == a + [y, x] + b
  {
    if s == [] || !less(s[0], y) {
      InsertsFirst(less, x, y, s);
      InsertsFirst(less, y, x, s);
      return [], s;
    }
    var a', b' := TiedInserts(less, x, y, s[1..]);
    InsertsLater(less, x, y, s, a', b');
    InsertsLater(less, y, x, s, a', b');
    return [s[0]] + a', b';
  }

  lemma InsertsFirst<T(!new)>(less: (T, T) -> bool, x: T, y: T, s: seq<T>)
    requires !less(y, x) && (s == [] || !less(s[0], y))
    ensures Insert(less, x, Insert(less, y, s)) == [] + [x, y] + s
  {
    assert Insert(less, y, s) == [y] + s;
  }

  lemma {:induction false} InsertLater<T>(less: (T, T) -> bool, x: T, first: T, s: seq<T>)
    requires less(first, x)
    ensures Insert(less, x, [first] + s) == [first] + Insert(less, x, s)
  {
    assert ([first] + s)[1..] == s;
  }

  lemma {:induction false} InsertsLater<T>(less: (T, T) -> bool, x: T, y: T, s: seq<T>, a: seq<T>, b: seq<T>)
    requires s != [] && less(s[0], x) && less(s[0], y) && Insert(less, x, Insert(less, y, s[1..])) == a + [x, y] + b
    ensures Insert(less, x, Insert(less, y, s)) == [s[0]] + a + [x, y] + b
  {
    assert s == [s[0]] + s[1..];
    InsertLater(less, y, s[0], s[1..]);
    InsertLater(less, x, s[0], Insert(less, y, s[1..]));
    InFront(s[0], a, [x, y], b);
  }

  lemma InFront<T>(x: T, a: seq<T>, b: seq<T>, c: seq<T>)
    ensures [x] + (a + b + c) == [x] + a + b + c
  {
  }

  lemma TiesAlike<T(!new)>(less: (T, T) -> bool, x: T, y: T, s: seq<T>)
    requires WeakOrder(less) && !less(x, y) && !less(y, x)
    ensures forall z <- s :: less(z, x) == less(z, y)
  {
  }

  /** Conversely, two elements that tie come out in the order they went in. */
  lemma {:induction false} TiesShow<T(!new)>(less: (T, T) -> bool, x: T, y: T, rest: seq<T>) returns (p: nat)
    requires WeakOrder(less) && !less(x, y) && !less(y, x)
    ensures var s, t := Sort(less, [x, y] + rest), Sort(less, [y, x] + rest);
            p < |s| == |t| && s[p] == x && t[p] == y
  {
    TiesAlike(less, x, y, Sort(less, rest));
    var a, b := TiedInserts(less, x, y, Sort(less, rest));
    SortsTwo(less, x, y, rest);
    SortsTwo(less, y, x, rest);
    p := |a|;
  }

  lemma {:induction false} SortsTwo<T>(less: (T, T) -> bool, x: T, y: T, rest: seq<T>)
    ensures Sort(less, [x, y] + rest) == Insert(less, x, Insert(less, y, Sort(less, rest)))
  {
    assert ([x, y] + rest)[1..] == [y] + rest && ([y] + rest)[1..] == rest;
  }

  /** Two elements can be brought to the front. */
  lemma ToTheFront<T>(s: seq<T>, x: T, y: T) returns (rest: seq<T>)
    requires x in s && y in s && x != y
    ensures multiset([x, y] + rest) == multiset(s) && multiset([y, x] + rest) == multiset(s)
  {
    var t := OneToTheFront(s, x);
    assert y in multiset(s) && multiset(s)[y] == multiset(t)[y];
    assert y in multiset(t);
    rest := OneToTheFront(t, y);
    assert [x, y] + rest == [x] + ([y] + rest) && [y, x] + rest == [y] + ([x] + rest);
  }

  lemma OneToTheFront<T>(s: seq<T>, x: T) returns (rest: seq<T>)
    requires x in s
    ensures multiset(s) == multiset(rest) + multiset{x} && multiset([x] + rest) == multiset(s)
  {
    var i: nat :| i < |s| && s[i] == x;
    WithoutOne(s, i);
    rest := Without(s, i);
  }

  /** Sorting forgets the order it was given exactly when no two different elements tie. */
  lemma {:induction false} SortForgetsExactly<T(!new)>(less: (T, T) -> bool, s: seq<T>)
    requires WeakOrder(less)
    ensures (forall t | multiset(t) == multiset(s) :: Sort(less, t) == Sort(less, s)) <==> Untied(less, s)
  {
    if Untied(less, s) {
      forall t | multiset(t) == multiset(s) ensures Sort(less, t) == Sort(less, s) { SortForgets(less, s, t); }
    } else {
      var a, b := TiedSorts(less, s);
    }
  }

  lemma {:induction false} TiedSorts<T(!new)>(less: (T, T) -> bool, s: seq<T>) returns (a: seq<T>, b: seq<T>)
    requires WeakOrder(less) && !Untied(less, s)
    ensures multiset(a) == multiset(s) && multiset(b) == multiset(s) && Sort(less, a) != Sort(less, b)
  {
    var x, y :| x in s && y in s && !less(x, y) && !less(y, x) && x != y;
    var rest := ToTheFront(s, x, y);
    var p := TiesShow(less, x, y, rest);
    a, b := [x, y] + rest, [y, x] + rest;
  }

  // ---------------------------------------------------------------- mapping

  function Map<A, B>(f: A -> B, s: seq<A>): (r: seq<B>)
    ensures |r| == |s| && forall i | 0 <= i < |r| :: r[i] == f(s[i])
  {
    seq(|s|, i requires 0 <= i < |s| => f(s[i]))
  }

  lemma MapWithout<A, B>(f: A -> B, s: seq<A>, j: nat)
    requires j < |s|
    ensures multiset(Map(f, s)) == multiset(Map(f, Without(s, j))) + multiset{f(s[j])}
  {
    WithoutOne(Map(f, s), j);
    assert Map(f, Without(s, j)) == Without(Map(f, s), j);
  }

  /** Mapping permutations gives permutations. */
  lemma {:induction false} MapMultiset<A, B>(f: A -> B, s: seq<A>, t: seq<A>)
    requires multiset(s) == multiset(t)
    ensures multiset(Map(f, s)) == multiset(Map(f, t))
    decreases |s|
  {
    InMultiset(s, t);
    if s != [] {
      assert s[0] in t;
      var j :| 0 <= j < |t| && t[j] == s[0];
      WithoutOne(s, 0);
      WithoutOne(t, j);
      MapMultiset(f, Without(s, 0), Without(t, j));
      MapWithout(f, s, 0);
      MapWithout(f, t, j);
    }
  }
}
