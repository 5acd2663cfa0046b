/** ORDER BY over text columns: the order of column lists, sorted listings of a set,
    and their uniqueness (the queries of internal/snapshot/snapshot.go). */
module Orders {
  import opened Text

  /** Lexicographic order of column lists. */
  predicate Precedes(a: seq<string>, b: seq<string>) {
    b != [] && (a == [] || Less(a[0], b[0]) || (a[0] == b[0] && Precedes(a[1..], b[1..])))
  }

  lemma {:induction false} PrecedesIrreflexive(a: seq<string>)
    ensures !Precedes(a, a)
  {
    if a != [] {
      LessIrreflexive(a[0]);
      PrecedesIrreflexive(a[1..]);
    }
  }

  lemma {:induction false} PrecedesTransitive(a: seq<string>, b: seq<string>, c: seq<string>)
    requires Precedes(a, b) && Precedes(b, c)
    ensures Precedes(a, c)
  {
    if a != [] {
      LessIrreflexive(b[0]);
      if a[0] == b[0] && b[0] == c[0] {
        PrecedesTransitive(a[1..], b[1..], c[1..]);
      } else if Less(a[0], b[0]) && Less(b[0], c[0]) {
        LessTransitive(a[0], b[0], c[0]);
      }
    }
  }

  lemma {:induction false} PrecedesTotal(a: seq<string>, b: seq<string>)
    ensures a == b || Precedes(a, b) || Precedes(b, a)
  {
    if a != [] && b != [] {
      LessTotal(a[0], b[0]);
      PrecedesTotal(a[1..], b[1..]);
      if a[0] == b[0] && a[1..] == b[1..] {
        assert a == [a[0]] + a[1..] && b == [b[0]] + b[1..];
      }
    }
  }

  /** Strictly ascending by the columns key gives. */
  ghost predicate Sorted<T(!new)>(s: seq<T>, key: T -> seq<string>) {
    forall i, j | 0 <= i < j < |s| :: Precedes(key(s[i]), key(s[j]))
  }

  lemma {:induction false} SortedDistinct<T(!new)>(s: seq<T>, key: T -> seq<string>)
    requires Sorted(s, key)
    ensures forall i, j | 0 <= i < j < |s| :: s[i] != s[j]
  {
    forall i, j | 0 <= i < j < |s|
      ensures s[i] != s[j]
    {
      PrecedesIrreflexive(key(s[i]));
    }
  }

  lemma {:induction false} TailWithoutHead<T(!new)>(s: seq<T>, key: T -> seq<string>, x: T)
    requires s != [] && Sorted(s, key)
    ensures x in s[1..] <==> x in s && x != s[0]
  {
    SortedDistinct(s, key);
    assert s == [s[0]] + s[1..];
    if x in s[1..] {
      var i :| 0 <= i < |s[1..]| && s[1..][i] == x;
      assert s[i + 1] == x;
    }
  }

  lemma {:induction false} HeadsAgree<T(!new)>(s: seq<T>, t: seq<T>, key: T -> seq<string>)
    requires s != [] && t != [] && Sorted(s, key) && Sorted(t, key)
    requires s[0] in t && t[0] in s
    ensures s[0] == t[0]
  {
    if s[0] != t[0] {
      var i :| 0 <= i < |t| && t[i] == s[0];
      var j :| 0 <= j < |s| && s[j] == t[0];
      PrecedesTransitive(key(s[0]), key(t[0]), key(s[0]));
      PrecedesIrreflexive(key(s[0]));
    }
  }

  /** A set has only one sorted listing. */
  lemma {:induction false} SortedUnique<T(!new)>(s: seq<T>, t: seq<T>, key: T -> seq<string>)
    requires Sorted(s, key) && Sorted(t, key)
    requires forall x :: x in s <==> x in t
    ensures s == t
  {
    assert t != [] ==> t[0] in t;
    if s != [] {
      assert s[0] in t && t != [] && t[0] in s;
      HeadsAgree(s, t, key);
      forall x
        ensures x in s[1..] <==> x in t[1..]
      {
        TailWithoutHead(s, key, x);
        TailWithoutHead(t, key, x);
      }
      SortedUnique(s[1..], t[1..], key);
      assert s == [s[0]] + s[1..] && t == [t[0]] + t[1..];
    }
  }

  function Insert<T>(x: T, s: seq<T>, key: T -> seq<string>): seq<T> {
    if s == [] || Precedes(key(x), key(s[0])) then [x] + s else [s[0]] + Insert(x, s[1..], key)
  }

  lemma {:induction false} InsertElements<T(!new)>(x: T, s: seq<T>, key: T -> seq<string>)
    ensures forall y :: y in Insert(x, s, key) <==> y == x || y in s
  {
    if s != [] {
      InsertElements(x, s[1..], key);
      assert s == [s[0]] + s[1..];
    }
  }

  lemma {:induction false} InsertSorted<T(!new)>(x: T, s: seq<T>, key: T -> seq<string>)
    requires Sorted(s, key) && forall y | y in s :: key(y) != key(x)
    ensures Sorted(Insert(x, s, key), key)
  {
    if s != [] {
      if Precedes(key(x), key(s[0])) {
        forall j | 0 <= j < |s|
          ensures Precedes(key(x), key(s[j]))
        {
          if j > 0 {
            PrecedesTransitive(key(x), key(s[0]), key(s[j]));
          }
        }
      } else {
        var t := Insert(x, s[1..], key);
        assert s[0] in s && s == [s[0]] + s[1..];
        PrecedesTotal(key(x), key(s[0]));
        InsertElements(x, s[1..], key);
        InsertSorted(x, s[1..], key);
        forall j | 0 <= j < |t|
          ensures Precedes(key(s[0]), key(t[j]))
        {
          assert t[j] in t;
          if t[j] != x {
            var i :| 0 <= i < |s[1..]| && s[1..][i] == t[j];
            assert s[i + 1] == t[j];
          }
        }
      }
    }
  }

  /** The rows a query returns in its ORDER BY order. */
  method Listing<T(==, !new)>(elems: set<T>, key: T -> seq<string>) returns (s: seq<T>)
    requires forall x, y | x in elems && y in elems && key(x) == key(y) :: x == y
    ensures Sorted(s, key)
    ensures forall x :: x in s <==> x in elems
  {
    s := [];
    var rest := elems;
    while rest != {}
      invariant rest <= elems
      invariant Sorted(s, key)
      invariant forall x :: x in s <==> x in elems - rest
    {
      var x :| x in rest;
      InsertElements(x, s, key);
      InsertSorted(x, s, key);
      s := Insert(x, s, key);
      rest := rest - {x};
    }
  }
}
