// Python string operations used by the generators and checkers: ordering
// of str values (code point by code point), sorted(set(xs)), prefix tests
// and stripping characters from both ends.
module Text {

  /** Python's a < b on str: lexicographic by code point, a proper prefix first. */
  predicate StrLess(a: string, b: string)
  {
    if |a| == 0 then |b| > 0
    else if |b| == 0 then false
    else a[0] < b[0] || (a[0] == b[0] && StrLess(a[1..], b[1..]))
  }

  lemma {:induction false} StrLessIrreflexive(a: string)
    ensures !StrLess(a, a)
  {
    if |a| > 0 {
      StrLessIrreflexive(a[1..]);
    }
  }

  lemma {:induction false} StrLessTransitive(a: string, b: string, c: string)
    requires StrLess(a, b) && StrLess(b, c)
    ensures StrLess(a, c)
  {
    if |a| > 0 && a[0] == b[0] && b[0] == c[0] {
      StrLessTransitive(a[1..], b[1..], c[1..]);
    }
  }

  /** Any two different strings are ordered one way or the other. */
  lemma {:induction false} StrLessTotal(a: string, b: string)
    requires a != b
    ensures StrLess(a, b) || StrLess(b, a)
  {
    if |a| > 0 && |b| > 0 && a[0] == b[0] {
      assert a == [a[0]] + a[1..] && b == [b[0]] + b[1..];
      StrLessTotal(a[1..], b[1..]);
    }
  }

  lemma StrLessAsymmetric(a: string, b: string)
    requires StrLess(a, b)
    ensures !StrLess(b, a)
  {
    if StrLess(b, a) {
      StrLessTransitive(a, b, a);
      StrLessIrreflexive(a);
    }
  }

  /** Strictly increasing, hence also free of duplicates. */
  predicate StrictlySorted(xs: seq<string>)
  {
    forall i, j :: 0 <= i < j < |xs| ==> StrLess(xs[i], xs[j])
  }

  /** The least element of a non-empty finite set of strings. */
  lemma {:induction false} LeastExists(s: set<string>)
    requires s != {}
    ensures exists m :: m in s && forall x :: x in s ==> !StrLess(x, m)
    decreases |s|
  {
    var y :| y in s;
    var rest := s - {y};
    if rest == {} {
      assert s == {y};
      StrLessIrreflexive(y);
    } else {
      LeastExists(rest);
      var m :| m in rest && forall x :: x in rest ==> !StrLess(x, m);
      if StrLess(y, m) {
        forall x | x in s
          ensures !StrLess(x, y)
        {
          if x != y && StrLess(x, y) {
            StrLessTransitive(x, y, m);
          }
          StrLessIrreflexive(y);
        }
      } else {
        assert forall x :: x in s ==> !StrLess(x, m);
      }
    }
  }

  function Least(s: set<string>): (m: string)
    requires s != {}
    ensures m in s && forall x :: x in s ==> !StrLess(x, m)
  {
    LeastExists(s);
    var m :| m in s && (forall x :: x in s ==> !StrLess(x, m));
    LeastUnique(s, m);
    m
  }

  lemma LeastUnique(s: set<string>, m: string)
    requires m in s && forall x :: x in s ==> !StrLess(x, m)
    ensures forall m' :: m' in s && (forall x :: x in s ==> !StrLess(x, m')) ==> m' == m
  {
    forall m' | m' in s && (forall x :: x in s ==> !StrLess(x, m'))
      ensures m' == m
    {
      if m' != m {
        StrLessTotal(m, m');
      }
    }
  }

  /** Python's sorted(s) for a set of strings. */
  function SortedSet(s: set<string>): (r: seq<string>)
    decreases |s|
  {
    if s == {} then [] else [Least(s)] + SortedSet(s - {Least(s)})
  }

  /** sorted(s) lists exactly the elements of s, in strictly increasing order. */
  lemma {:induction false} SortedSetSpec(s: set<string>)
    ensures StrictlySorted(SortedSet(s))
    ensures forall x :: x in SortedSet(s) <==> x in s
    ensures |SortedSet(s)| == |s|
    decreases |s|
  {
    if s != {} {
      var m := Least(s);
      var rest := SortedSet(s - {m});
      SortedSetSpec(s - {m});
      assert SortedSet(s) == [m] + rest;
      forall i, j | 0 <= i < j < |SortedSet(s)|
        ensures StrLess(SortedSet(s)[i], SortedSet(s)[j])
      {
        if i == 0 {
          var x := rest[j - 1];
          assert x in rest;
          assert x in s && x != m;
          StrLessTotal(x, m);
        }
      }
    }
  }

  /** A strictly sorted list starts with its least element. */
  lemma HeadLeast(xs: seq<string>, x: string)
    requires StrictlySorted(xs) && x in xs
    ensures x == xs[0] || StrLess(xs[0], x)
  {
  }

  lemma NonEmptyBoth(xs: seq<string>, ys: seq<string>)
    requires forall x :: x in xs ==> x in ys
    ensures |xs| > 0 ==> |ys| > 0
  {
    if |xs| > 0 {
      assert xs[0] in ys;
    }
  }

  /** A strictly sorted list is determined by its elements. */
  lemma {:induction false} SortedUnique(xs: seq<string>, ys: seq<string>)
    requires StrictlySorted(xs) && StrictlySorted(ys)
    requires forall x :: x in xs <==> x in ys
    ensures xs == ys
    decreases |xs|
  {
    NonEmptyBoth(xs, ys);
    NonEmptyBoth(ys, xs);
    if |xs| > 0 {
      HeadLeast(xs, ys[0]);
      HeadLeast(ys, xs[0]);
      if StrLess(xs[0], ys[0]) {
        StrLessAsymmetric(xs[0], ys[0]);
      }
      assert xs == [xs[0]] + xs[1..] && ys == [ys[0]] + ys[1..];
      forall x
        ensures x in xs[1..] <==> x in ys[1..]
      {
        if x in xs[1..] {
          var k :| 0 <= k < |xs[1..]| && xs[1..][k] == x;
          assert StrLess(xs[0], xs[k + 1]);
          StrLessIrreflexive(x);
          assert x in ys && x != ys[0];
        }
        if x in ys[1..] {
          var k :| 0 <= k < |ys[1..]| && ys[1..][k] == x;
          assert StrLess(ys[0], ys[k + 1]);
          StrLessIrreflexive(x);
          assert x in xs && x != xs[0];
        }
      }
      SortedUnique(xs[1..], ys[1..]);
    }
  }

  predicate StartsWith(s: string, prefix: string)
  {
    |prefix| <= |s| && s[..|prefix|] == prefix
  }

  /** Drops leading and then trailing characters in `cs`, as Python's s.strip(cs). */
  function StripLeft(s: string, cs: set<char>): (r: string)
    ensures |r| <= |s| && r == s[|s| - |r|..]
    ensures |r| > 0 ==> r[0] !in cs
    ensures forall i :: 0 <= i < |s| - |r| ==> s[i] in cs
  {
    if |s| > 0 && s[0] in cs then StripLeft(s[1..], cs) else s
  }

  function StripRight(s: string, cs: set<char>): (r: string)
    ensures |r| <= |s| && r == s[..|r|]
    ensures |r| > 0 ==> r[|r| - 1] !in cs
    ensures forall i :: |r| <= i < |s| ==> s[i] in cs
  {
    if |s| > 0 && s[|s| - 1] in cs then StripRight(s[..|s| - 1], cs) else s
  }

  function Strip(s: string, cs: set<char>): (r: string)
  {
    StripRight(StripLeft(s, cs), cs)
  }

  /** What Strip leaves is a slice of s, with no character of cs at either end. */
  lemma StripSpec(s: string, cs: set<char>)
    ensures exists i, j :: 0 <= i <= j <= |s| && Strip(s, cs) == s[i..j]
    ensures |Strip(s, cs)| > 0 ==> Strip(s, cs)[0] !in cs && Strip(s, cs)[|Strip(s, cs)| - 1] !in cs
  {
    var l := StripLeft(s, cs);
    var r := StripRight(l, cs);
    var i := |s| - |l|;
    assert r == s[i..i + |r|];
    if |r| > 0 {
      assert r[0] == l[0];
    }
  }

  /** Strip only removes characters. */
  lemma StripWithin(s: string, cs: set<char>)
    ensures forall c :: c in Strip(s, cs) ==> c in s
  {
    StripSpec(s, cs);
    var i, j :| 0 <= i <= j <= |s| && Strip(s, cs) == s[i..j];
    assert forall c :: c in s[i..j] ==> c in s;
  }

  /** The ASCII whitespace Python's str.strip() removes. */
  const WHITESPACE: set<char> := {' ', '\t', '\n', '\r', '\U{B}', '\U{C}'}

  /** Length of the leading whitespace. */
  function WsLen(s: string): (n: nat)
    ensures n <= |s|
  {
    if |s| > 0 && s[0] in WHITESPACE then 1 + WsLen(s[1..]) else 0
  }

  /** Python's s.find(c), with |s| for "not found": the position of the first c. */
  function IndexOf(s: string, c: char): (n: nat)
    ensures n <= |s|
    ensures n < |s| ==> s[n] == c
  {
    if |s| == 0 || s[0] == c then 0 else 1 + IndexOf(s[1..], c)
  }

  lemma {:induction false} WsLenOf(w: string, s: string)
    requires forall c :: c in w ==> c in WHITESPACE
    requires |s| > 0 && s[0] !in WHITESPACE
    ensures WsLen(w + s) == |w|
  {
    if |w| > 0 {
      assert (w + s)[0] == w[0] && (w + s)[1..] == w[1..] + s;
      assert forall c :: c in w[1..] ==> c in w;
      WsLenOf(w[1..], s);
    } else {
      assert w + s == s;
    }
  }

  /** The first c after a c-free name is right after the name. */
  lemma {:induction false} IndexOfAfter(name: string, c: char, t: string)
    requires c !in name
    ensures IndexOf(name + [c] + t, c) == |name|
  {
    if |name| > 0 {
      assert (name + [c] + t)[0] == name[0] && (name + [c] + t)[1..] == name[1..] + [c] + t;
      IndexOfAfter(name[1..], c, t);
    } else {
      assert name + [c] + t == [c] + t;
    }
  }

  /** The leading whitespace is whitespace. */
  lemma {:induction false} WsPrefix(s: string)
    ensures forall c :: c in s[..WsLen(s)] ==> c in WHITESPACE
  {
    if |s| > 0 && s[0] in WHITESPACE {
      WsPrefix(s[1..]);
      assert s[..WsLen(s)] == [s[0]] + s[1..][..WsLen(s[1..])];
    }
  }

  /** The text before the first c holds no c. */
  lemma {:induction false} BeforeIndex(s: string, c: char)
    ensures c !in s[..IndexOf(s, c)]
  {
    if |s| > 0 && s[0] != c {
      BeforeIndex(s[1..], c);
      assert s[..IndexOf(s, c)] == [s[0]] + s[1..][..IndexOf(s[1..], c)];
    }
  }
}
