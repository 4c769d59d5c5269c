/**
 * The order in which a `std::map<std::string, _>` visits its keys:
 * ascending by `std::string`'s `operator<`, which compares character by
 * character and puts a proper prefix first.
 */
module KeyOrder {

  predicate StrLess(a: string, b: string)
  {
    if |a| == 0 then |b| > 0
    else |b| > 0 && (a[0] < b[0] || (a[0] == b[0] && StrLess(a[1..], b[1..])))
  }

  lemma {:induction false} StrLessIrreflexive(a: string)
    ensures !StrLess(a, a)
    decreases |a|
  {
    if |a| > 0 {
      StrLessIrreflexive(a[1..]);
    }
  }

  lemma {:induction false} StrLessTransitive(a: string, b: string, c: string)
    requires StrLess(a, b) && StrLess(b, c)
    ensures StrLess(a, c)
    decreases |a|
  {
    if |a| > 0 && a[0] == b[0] && b[0] == c[0] {
      StrLessTransitive(a[1..], b[1..], c[1..]);
    }
  }

  lemma {:induction false} StrLessTotal(a: string, b: string)
    requires a != b
    ensures StrLess(a, b) || StrLess(b, a)
    decreases |a|
  {
    if |a| > 0 && |b| > 0 && a[0] == b[0] {
      assert a == [a[0]] + a[1..] && b == [b[0]] + b[1..];
      StrLessTotal(a[1..], b[1..]);
    }
  }

  /** `m` is the smallest key of `s`. */
  predicate IsLeast(m: string, s: set<string>)
  {
    m in s && forall x :: x in s && x != m ==> StrLess(m, x)
  }

  lemma {:induction false} LeastExists(s: set<string>)
    requires s != {}
    ensures exists m :: IsLeast(m, s)
    decreases |s|
  {
    var y :| y in s;
    if s - {y} == {} {
      forall x | x in s
        ensures x == y
      {
        assert x !in s - {y};
      }
      assert IsLeast(y, s);
    } else {
      LeastExists(s - {y});
      var m :| IsLeast(m, s - {y});
      if StrLess(y, m) {
        forall x | x in s && x != y
          ensures StrLess(y, x)
        {
          if x != m {
            StrLessTransitive(y, m, x);
          }
        }
        assert IsLeast(y, s);
      } else {
        StrLessTotal(y, m);
        assert IsLeast(m, s);
      }
    }
  }

  lemma LeastUnique(m1: string, m2: string, s: set<string>)
    requires IsLeast(m1, s) && IsLeast(m2, s)
    ensures m1 == m2
  {
    if m1 != m2 {
      StrLessTransitive(m1, m2, m1);
      StrLessIrreflexive(m1);
    }
  }

  ghost function Least(s: set<string>): (m: string)
    requires s != {}
    ensures IsLeast(m, s)
  {
    LeastExists(s);
    var m :| IsLeast(m, s);
    m
  }

  /** The keys of `s` in the order a `std::map` visits them. */
  ghost function InOrder(s: set<string>): (r: seq<string>)
    ensures |r| == |s|
    ensures forall x :: x in r <==> x in s
    decreases |s|
  {
    if s == {} then []
    else
      var m := Least(s);
      [m] + InOrder(s - {m})
  }

  /** Every key is visited once, in strictly ascending order. */
  lemma {:induction false} InOrderAscending(s: set<string>)
    ensures forall i, j :: 0 <= i < j < |InOrder(s)| ==> StrLess(InOrder(s)[i], InOrder(s)[j])
    decreases |s|
  {
    if s != {} {
      var m := Least(s);
      var rest := InOrder(s - {m});
      var r := InOrder(s);
      assert r == [m] + rest;
      InOrderAscending(s - {m});
      forall i, j | 0 <= i < j < |r|
        ensures StrLess(r[i], r[j])
      {
        if i == 0 {
          assert r[j] == rest[j - 1] && r[j] in s - {m};
        } else {
          assert r[i] == rest[i - 1] && r[j] == rest[j - 1];
        }
      }
    }
  }

  /** Visiting the least remaining key moves it from the rest of the visit to what has been visited. */
  lemma InOrderStep(done: seq<string>, s: set<string>, n: string)
    requires IsLeast(n, s)
    ensures done + InOrder(s) == (done + [n]) + InOrder(s - {n})
  {
    InOrderUnfold(s, n);
  }

  /** The visit starts at whichever key is least. */
  lemma InOrderUnfold(s: set<string>, n: string)
    requires IsLeast(n, s)
    ensures InOrder(s) == [n] + InOrder(s - {n})
  {
    LeastUnique(Least(s), n, s);
  }
}
