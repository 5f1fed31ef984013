/** Byte-wise (lexicographic) order, as Rust compares strings, paths and redb keys, and sorting by it. */
module Order {

  predicate Less(a: seq<int>, b: seq<int>) {
    b != [] && (a == [] || a[0] < b[0] || (a[0] == b[0] && Less(a[1..], b[1..])))
  }

  predicate Le(a: seq<int>, b: seq<int>) {
    a == b || Less(a, b)
  }

  lemma {:induction false} Trichotomy(a: seq<int>, b: seq<int>)
    ensures a == b || Less(a, b) || Less(b, a)
    ensures !(Less(a, b) && (a == b || Less(b, a)))
  {
    if a != [] && b != [] && a[0] == b[0] {
      Trichotomy(a[1..], b[1..]);
      assert a == [a[0]] + a[1..] && b == [b[0]] + b[1..];
    }
  }

  lemma {:induction false} Transitive(a: seq<int>, b: seq<int>, c: seq<int>)
    requires Le(a, b) && Le(b, c)
    ensures Le(a, c)
  {
    if a != [] && b != [] && c != [] && a != b && b != c && a[0] == b[0] == c[0] {
      Transitive(a[1..], b[1..], c[1..]);
      assert a == [a[0]] + a[1..] && c == [c[0]] + c[1..];
    }
  }

  /** A common prefix does not affect the comparison. */
  lemma {:induction false} CommonPrefix(p: seq<int>, a: seq<int>, b: seq<int>)
    ensures Less(p + a, p + b) <==> Less(a, b)
  {
    if p == [] {
      assert p + a == a && p + b == b;
    } else {
      assert (p + a)[1..] == p[1..] + a && (p + b)[1..] == p[1..] + b;
      CommonPrefix(p[1..], a, b);
    }
  }

  /** Strings of equal length that already differ compare the same whatever follows. */
  lemma {:induction false} DecidedEarly(a: seq<int>, b: seq<int>, x: seq<int>, y: seq<int>)
    requires |a| == |b| && Less(a, b)
    ensures Less(a + x, b + y)
  {
    assert a != [] && (a + x)[0] == a[0] && (b + y)[0] == b[0];
    if a[0] == b[0] {
      DecidedEarly(a[1..], b[1..], x, y);
      assert (a + x)[1..] == a[1..] + x && (b + y)[1..] == b[1..] + y;
    }
  }

  /** The order is decided by the first difference, and a proper prefix comes first. */
  lemma FirstDifferenceDecides(p: seq<int>, x: int, a: seq<int>, y: int, b: seq<int>)
    requires x != y
    ensures Less(p + ([x] + a), p + ([y] + b)) <==> x < y
    ensures Less(p, p + ([x] + a)) && !Less(p + ([x] + a), p)
  {
    CommonPrefix(p, [x] + a, [y] + b);
    CommonPrefix(p, [], [x] + a);
    CommonPrefix(p, [x] + a, []);
    assert p + [] == p;
  }

  ghost predicate SortedBy<T(!new)>(s: seq<T>, key: T -> seq<int>) {
    forall i, j | 0 <= i < j < |s| :: Le(key(s[i]), key(s[j]))
  }

  function InsertBy<T>(x: T, s: seq<T>, key: T -> seq<int>): seq<T> {
    if s == [] || Le(key(x), key(s[0])) then [x] + s else [s[0]] + InsertBy(x, s[1..], key)
  }

  /** The order `slice::sort` leaves a slice in. */
  function SortBy<T>(s: seq<T>, key: T -> seq<int>): seq<T> {
    if s == [] then [] else InsertBy(s[0], SortBy(s[1..], key), key)
  }

  lemma {:induction false} InsertPermutes<T>(x: T, s: seq<T>, key: T -> seq<int>)
    ensures multiset(InsertBy(x, s, key)) == multiset(s) + multiset{x}
  {
    hide Le;
    if s != [] && !Le(key(x), key(s[0])) {
      InsertPermutes(x, s[1..], key);
      assert s == [s[0]] + s[1..];
    }
  }

  lemma SortedCons<T(!new)>(x: T, s: seq<T>, key: T -> seq<int>)
    requires SortedBy(s, key) && forall y | y in s :: Le(key(x), key(y))
    ensures SortedBy([x] + s, key)
  {
    hide Le;
    forall i, j | 0 <= i < j < |s| + 1 ensures Le(key(([x] + s)[i]), key(([x] + s)[j])) {
      assert ([x] + s)[j] == s[j - 1];
    }
  }

  lemma {:induction false} InsertSorted<T(!new)>(x: T, s: seq<T>, key: T -> seq<int>)
    requires SortedBy(s, key)
    ensures SortedBy(InsertBy(x, s, key), key)
  {
    hide Less;
    if s != [] {
      Trichotomy(key(x), key(s[0]));
      if Le(key(x), key(s[0])) {
        forall y | y in s ensures Le(key(x), key(y)) {
          Transitive(key(x), key(s[0]), key(y));
        }
        SortedCons(x, s, key);
      } else {
        InsertSorted(x, s[1..], key);
        var r := InsertBy(x, s[1..], key);
        InsertPermutes(x, s[1..], key);
        forall y | y in r ensures Le(key(s[0]), key(y)) {
          assert y in multiset(r);
          assert y == x || y in s[1..];
        }
        SortedCons(s[0], r, key);
      }
    }
  }

  lemma {:induction false} SortSorts<T(!new)>(s: seq<T>, key: T -> seq<int>)
    ensures SortedBy(SortBy(s, key), key)
    ensures multiset(SortBy(s, key)) == multiset(s)
  {
    if s != [] {
      SortSorts(s[1..], key);
      InsertSorted(s[0], SortBy(s[1..], key), key);
      InsertPermutes(s[0], SortBy(s[1..], key), key);
      assert s == [s[0]] + s[1..];
    }
  }

  ghost predicate InjectiveOn<T(!new)>(s: seq<T>, key: T -> seq<int>) {
    forall x, y | x in s && y in s && key(x) == key(y) :: x == y
  }

  /** With an injective key a sorted listing is unique, so sorting forgets the order it started from. */
  lemma {:induction false} SortedUnique<T(!new)>(s: seq<T>, t: seq<T>, key: T -> seq<int>)
    requires SortedBy(s, key) && SortedBy(t, key)
    requires multiset(s) == multiset(t) && InjectiveOn(s, key)
    ensures s == t
  {
    hide SortedBy, InjectiveOn, Less, Le;
    assert |s| == |multiset(s)| && |t| == |multiset(t)|;
    if s != [] {
      HeadsEqual(s, t, key);
      TailFacts(s, key);
      TailFacts(t, key);
      SortedUnique(s[1..], t[1..], key);
      assert s == [s[0]] + s[1..] && t == [t[0]] + t[1..];
    }
  }

  lemma TailFacts<T(!new)>(s: seq<T>, key: T -> seq<int>)
    requires s != [] && SortedBy(s, key)
    ensures SortedBy(s[1..], key) && (InjectiveOn(s, key) ==> InjectiveOn(s[1..], key))
    ensures multiset(s[1..]) == multiset(s) - multiset{s[0]}
  {
    hide Less;
    assert s == [s[0]] + s[1..];
    assert forall x | x in s[1..] :: x in s;
  }

  lemma HeadsEqual<T(!new)>(s: seq<T>, t: seq<T>, key: T -> seq<int>)
    requires SortedBy(s, key) && SortedBy(t, key)
    requires multiset(s) == multiset(t) && s != [] && t != [] && InjectiveOn(s, key)
    ensures s[0] == t[0]
  {
    hide Less;
    assert s[0] in multiset(t) && t[0] in multiset(s);
    HeadIsLeast(s, t[0], key);
    HeadIsLeast(t, s[0], key);
    Trichotomy(key(s[0]), key(t[0]));
  }

  lemma HeadIsLeast<T(!new)>(s: seq<T>, x: T, key: T -> seq<int>)
    requires s != [] && SortedBy(s, key) && x in multiset(s)
    ensures Le(key(s[0]), key(x))
  {
    var i :| 0 <= i < |s| && s[i] == x;
  }
}
