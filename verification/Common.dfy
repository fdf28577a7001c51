/** Small vocabulary shared by every module. */
module Common {
  datatype Option<+T> = None | Some(value: T)

  /** The elements of a sequence, as a set. */
  function Elements<T>(s: seq<T>): set<T> {
    set x | x in s
  }

  lemma ElementsSnoc<T>(s: seq<T>)
    requires s != []
    ensures Elements(s) == Elements(s[..|s| - 1]) + {s[|s| - 1]}
  {
    assert s == s[..|s| - 1] + [s[|s| - 1]];
  }

  /** The integers from lo up to, not including, hi. */
  function Range(lo: int, hi: int): (r: set<int>)
    ensures forall i :: i in r <==> lo <= i < hi
    decreases hi - lo
  {
    if lo >= hi then {} else Range(lo, hi - 1) + {hi - 1}
  }

  lemma {:induction false} RangeSize(lo: int, hi: int)
    requires lo <= hi
    ensures |Range(lo, hi)| == hi - lo
    decreases hi - lo
  {
    if lo < hi {
      RangeSize(lo, hi - 1);
    }
  }

  lemma {:induction false} ElementsSize<T>(s: seq<T>)
    ensures |Elements(s)| <= |s|
  {
    if s != [] {
      ElementsSize(s[..|s| - 1]);
      ElementsSnoc(s);
    }
  }

  lemma SubsetSize<T>(a: set<T>, b: set<T>)
    requires a <= b
    ensures |a| <= |b|
  {
    assert b == a + (b - a);
  }

  lemma GrowsByOne<T>(a: set<T>, b: set<T>, x: T)
    requires a <= b + {x}
    ensures |a| <= |b| + 1
  {
    SubsetSize(a, b + {x});
    if x !in b {
      assert |b + {x}| == |b| + 1;
    } else {
      assert b + {x} == b;
    }
  }

  lemma EqualBySize<T>(a: set<T>, b: set<T>)
    requires a <= b && |a| >= |b|
    ensures a == b
  {
    assert b == a + (b - a);
    assert |b - a| == 0;
  }

  predicate EndsWith(s: string, t: string) {
    |t| <= |s| && s[|s| - |t|..] == t
  }

  /** Two words that are equal once joined are joined at the same place, or one
      of the front parts goes on past the other's separator. */
  lemma JoinedFront(c: char, a: string, x: string, b: string, y: string)
    requires a + [c] + x == b + [c] + y
    ensures (a == b && x == y) || a + [c] <= b || b + [c] <= a
  {
    var s := a + [c] + x;
    assert s[..|a| + 1] == a + [c] && s[..|b| + 1] == b + [c];
    assert s[|a| + 1..] == x && s[|b| + 1..] == y;
    if |a| < |b| {
      assert b == s[..|b|];
    } else if |b| < |a| {
      assert a == s[..|a|];
    } else {
      assert a == s[..|a|] == b;
    }
  }

  /** ... or one of the back parts reaches back past the other's separator. */
  lemma JoinedBack(c: char, a: string, x: string, b: string, y: string)
    requires a + [c] + x == b + [c] + y
    ensures (a == b && x == y) || EndsWith(y, [c] + x) || EndsWith(x, [c] + y)
  {
    var s := a + [c] + x;
    assert s[|a|..] == [c] + x && s[|b|..] == [c] + y;
    assert s[|a| + 1..] == x && s[|b| + 1..] == y;
    if |a| < |b| {
      assert s[|a| + 1..][|b| - |a| - 1..] == s[|b|..];
    } else if |b| < |a| {
      assert s[|b| + 1..][|a| - |b| - 1..] == s[|a|..];
    } else {
      assert a == s[..|a|] == b;
    }
  }

  lemma FrontHolds(c: char, a: string, b: string)
    ensures a + [c] <= b ==> c in b
  {
    if a + [c] <= b {
      assert (a + [c])[|a|] == b[|a|];
    }
  }

  lemma BackHolds(c: char, x: string, y: string)
    ensures EndsWith(y, [c] + x) ==> c in y
  {
    if EndsWith(y, [c] + x) {
      assert ([c] + x)[0] == y[|y| - |x| - 1];
    }
  }

  lemma SplitAtFirst(c: char, a: string, x: string, b: string, y: string)
    requires c !in a && c !in b && a + [c] + x == b + [c] + y
    ensures a == b && x == y
  {
    JoinedFront(c, a, x, b, y);
    FrontHolds(c, a, b);
    FrontHolds(c, b, a);
  }

  lemma SplitAtLast(c: char, a: string, x: string, b: string, y: string)
    requires c !in x && c !in y && a + [c] + x == b + [c] + y
    ensures a == b && x == y
  {
    JoinedBack(c, a, x, b, y);
    BackHolds(c, x, y);
    BackHolds(c, y, x);
  }
}
