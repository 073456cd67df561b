/** Sorting by a strict total order, and the order the Go and JavaScript sorts use on strings. */
module Ordering {
  ghost predicate StrictOn<T(!new)>(less: (T, T) -> bool, s: set<T>) {
    && (forall x | x in s :: !less(x, x))
    && (forall x, y | x in s && y in s :: x == y || less(x, y) || less(y, x))
    && (forall x, y, z | x in s && y in s && z in s && less(x, y) && less(y, z) :: less(x, z))
  }

  ghost predicate Ascending<T(!new)>(less: (T, T) -> bool, r: seq<T>) {
    forall i, j | 0 <= i < j < |r| :: less(r[i], r[j])
  }

  function Elements<T>(r: seq<T>): set<T> {
    set x | x in r
  }

  lemma {:induction false} LeastExists<T(!new)>(less: (T, T) -> bool, s: set<T>)
    requires StrictOn(less, s) && s != {}
    ensures exists m :: m in s && forall x | x in s :: x == m || less(m, x)
    decreases |s|
  {
    var a :| a in s;
    var rest := s - {a};
    if rest == {} {
      assert s == {a};
    } else {
      LeastExists(less, rest);
      var m :| m in rest && forall x | x in rest :: x == m || less(m, x);
      var least := if less(a, m) then a else m;
      assert least in s && forall x | x in s :: x == least || less(least, x);
    }
  }

  lemma AscendingCons<T(!new)>(less: (T, T) -> bool, m: T, rest: seq<T>)
    requires Ascending(less, rest) && forall x | x in Elements(rest) :: less(m, x)
    ensures Ascending(less, [m] + rest)
    ensures Elements([m] + rest) == {m} + Elements(rest)
  {
    assert forall x | x in rest :: x in Elements(rest);
  }

  /** The one ascending sequence of the elements of `s` (`sort.Strings`, `sort.Slice`, `.sort()`, `ORDER BY`). */
  ghost function Sorted<T(!new)>(less: (T, T) -> bool, s: set<T>): (r: seq<T>)
    requires StrictOn(less, s)
    ensures |r| == |s| && Elements(r) == s
    ensures Ascending(less, r)
    decreases |s|
  {
    if s == {} then []
    else
      LeastExists(less, s);
      var m :| m in s && forall x | x in s :: x == m || less(m, x);
      var rest := Sorted(less, s - {m});
      AscendingCons(less, m, rest);
      [m] + rest
  }

  lemma {:induction false} SortedUnique<T(!new)>(less: (T, T) -> bool, a: seq<T>, b: seq<T>)
    requires StrictOn(less, Elements(a)) && Elements(a) == Elements(b)
    requires Ascending(less, a) && Ascending(less, b)
    ensures a == b
    decreases |a|
  {
    assert (a != [] ==> a[0] in Elements(a)) && (b != [] ==> b[0] in Elements(b));
    if a != [] && b != [] {
      assert a[0] == b[0];
      var x := a[0];
      forall y ensures y in Elements(a[1..]) <==> y in Elements(a) && y != x {
        if y in a[1..] { assert y in a; }
        if y in a && y != x { assert y in [x] + a[1..]; assert a == [x] + a[1..]; }
      }
      forall y ensures y in Elements(b[1..]) <==> y in Elements(b) && y != x {
        if y in b[1..] { assert y in b; }
        if y in b && y != x { assert b == [x] + b[1..]; }
      }
      SortedUnique(less, a[1..], b[1..]);
      assert a == [x] + a[1..] && b == [x] + b[1..];
    }
  }

  /** Library sort: repeatedly takes the least remaining element. */
  method SortSet<T(!new, ==)>(less: (T, T) -> bool, s: set<T>) returns (r: seq<T>)
    requires StrictOn(less, s)
    ensures r == Sorted(less, s)
  {
    r := [];
    var rest := s;
    while rest != {}
      invariant rest <= s && Elements(r) == s - rest
      invariant Ascending(less, r)
      invariant forall x, y | x in r && y in rest :: less(x, y)
      decreases rest
    {
      LeastExists(less, rest);
      var m :| m in rest && forall x | x in rest :: x == m || less(m, x);
      assert Elements(r + [m]) == Elements(r) + {m};
      assert forall x | x in r :: x in Elements(r);
      r, rest := r + [m], rest - {m};
    }
    SortedUnique(less, r, Sorted(less, s));
  }

  predicate LexLess(a: string, b: string) {
    b != "" && (a == "" || a[0] < b[0] || (a[0] == b[0] && LexLess(a[1..], b[1..])))
  }

  lemma {:induction false} LexIrreflexive(a: string)
    ensures !LexLess(a, a)
  {
    if a != "" { LexIrreflexive(a[1..]); }
  }

  lemma {:induction false} LexTrichotomy(a: string, b: string)
    ensures a == b || LexLess(a, b) || LexLess(b, a)
  {
    if a != "" && b != "" {
      LexTrichotomy(a[1..], b[1..]);
      if a[0] == b[0] && a[1..] == b[1..] {
        assert a == [a[0]] + a[1..] && b == [b[0]] + b[1..];
      }
    }
  }

  lemma {:induction false} LexTransitive(a: string, b: string, c: string)
    requires LexLess(a, b) && LexLess(b, c)
    ensures LexLess(a, c)
  {
    if a != "" && a[0] == b[0] == c[0] {
      LexTransitive(a[1..], b[1..], c[1..]);
    }
  }

  lemma LexStrict(s: set<string>)
    ensures StrictOn(LexLess, s)
  {
    forall x, y ensures (x == y || LexLess(x, y) || LexLess(y, x)) && !LexLess(x, x) {
      LexIrreflexive(x);
      LexTrichotomy(x, y);
    }
    forall x, y, z | LexLess(x, y) && LexLess(y, z) ensures LexLess(x, z) {
      LexTransitive(x, y, z);
    }
  }

  /** The order on strings: a prefix comes first, and otherwise the first character that differs decides. */
  lemma {:induction false} LexByFirstDifference(prefix: string, a: string, b: string)
    requires a == "" || b == "" || a[0] != b[0]
    ensures LexLess(prefix + a, prefix + b) <==> b != "" && (a == "" || a[0] < b[0])
    decreases |prefix|
  {
    if prefix == "" {
      assert prefix + a == a && prefix + b == b;
    } else {
      assert (prefix + a)[1..] == prefix[1..] + a && (prefix + b)[1..] == prefix[1..] + b;
      LexByFirstDifference(prefix[1..], a, b);
    }
  }
}
