/** Lists without repetition: children, queues and hash chains. */
module Lists {
  ghost predicate Distinct(s: seq<nat>) {
    forall i, j :: 0 <= i < j < |s| ==> s[i] != s[j]
  }

  lemma JoinDistinct(a: seq<nat>, b: seq<nat>)
    requires Distinct(a) && Distinct(b) && forall x :: x in b ==> x !in a
    ensures Distinct(a + b)
  {
    forall i, j | 0 <= i < j < |a + b| ensures (a + b)[i] != (a + b)[j] {
      if i < |a| <= j {
        assert b[j - |a|] in b && a[i] in a;
      }
    }
  }

  function IndexOf(s: seq<nat>, x: nat): (i: nat)
    requires x in s
    ensures i < |s| && s[i] == x
  {
    if s[0] == x then 0 else 1 + IndexOf(s[1..], x)
  }

  lemma IndexUnique(s: seq<nat>, i: nat)
    requires Distinct(s) && i < |s|
    ensures IndexOf(s, s[i]) == i
  {
  }

  function Remove(s: seq<nat>, x: nat): seq<nat> {
    if s == [] then [] else if s[0] == x then s[1..] else [s[0]] + Remove(s[1..], x)
  }

  lemma {:induction false} RemoveIs(s: seq<nat>, x: nat)
    requires Distinct(s)
    ensures Distinct(Remove(s, x)) && (forall y :: y in Remove(s, x) <==> y in s && y != x)
    ensures |Remove(s, x)| == |s| - (if x in s then 1 else 0)
  {
    if s != [] {
      assert Distinct(s[1..]) && forall y :: y in s <==> y == s[0] || y in s[1..];
      assert s[0] !in s[1..];
      if s[0] != x {
        RemoveIs(s[1..], x);
        JoinDistinct([s[0]], Remove(s[1..], x));
      }
    }
  }

  lemma {:induction false} RemoveSplits(a: seq<nat>, x: nat, b: seq<nat>)
    requires x !in a
    ensures Remove(a + [x] + b, x) == a + b
  {
    if a == [] {
      assert a + [x] + b == [x] + b;
      assert ([x] + b)[1..] == b;
    } else {
      assert (a + [x] + b)[1..] == a[1..] + [x] + b;
      RemoveSplits(a[1..], x, b);
      assert [a[0]] + (a[1..] + b) == a + b;
    }
  }

  /** Cutting a list at one of its members. */
  lemma Cut(s: seq<nat>, x: nat) returns (a: seq<nat>, b: seq<nat>)
    requires Distinct(s) && x in s
    ensures s == a + [x] + b && x !in a && Remove(s, x) == a + b
  {
    var i := IndexOf(s, x);
    a, b := s[..i], s[i + 1..];
    assert s == a + [x] + b;
    assert x !in a;
    RemoveSplits(a, x, b);
  }

  /** The end of a list does not notice the removal of something before it. */
  lemma {:induction false} RemoveSuffix(s: seq<nat>, seg: seq<nat>, x: nat)
    requires x !in seg
    ensures Remove(s + seg, x) == Remove(s, x) + seg
  {
    if s == [] {
      assert s + seg == seg;
      RemoveAbsent(seg, x);
    } else {
      assert (s + seg)[1..] == s[1..] + seg;
      RemoveSuffix(s[1..], seg, x);
    }
  }

  lemma {:induction false} RemoveAbsent(s: seq<nat>, x: nat)
    requires x !in s
    ensures Remove(s, x) == s
  {
    if s != [] {
      RemoveAbsent(s[1..], x);
    }
  }

  lemma {:induction false} RemoveEnd(s: seq<nat>, d: nat)
    requires d !in s
    ensures Remove(s + [d], d) == s
  {
    if s != [] {
      assert (s + [d])[1..] == s[1..] + [d];
      RemoveEnd(s[1..], d);
    }
  }

  /** What is left of a list without those in a set, in order. */
  function Minus(s: seq<nat>, gone: set<nat>): seq<nat> {
    if s == [] then [] else (if s[0] in gone then [] else [s[0]]) + Minus(s[1..], gone)
  }

  lemma {:induction false} MinusNone(s: seq<nat>)
    ensures Minus(s, {}) == s
  {
    if s != [] {
      MinusNone(s[1..]);
    }
  }

  lemma {:induction false} MinusOne(s: seq<nat>, gone: set<nat>, x: nat)
    requires Distinct(s) && x !in gone
    ensures Remove(Minus(s, gone), x) == Minus(s, gone + {x})
  {
    if s != [] {
      assert Distinct(s[1..]) && s[0] !in s[1..];
      if s[0] == x {
        assert Minus(s, gone) == [x] + Minus(s[1..], gone);
        MinusMore(s[1..], gone, x);
      } else {
        MinusOne(s[1..], gone, x);
        assert ([s[0]] + Minus(s[1..], gone))[1..] == Minus(s[1..], gone)
          && [] + Minus(s[1..], gone) == Minus(s[1..], gone);
        assert [] + Minus(s[1..], gone + {x}) == Minus(s[1..], gone + {x});
      }
    }
  }

  lemma {:induction false} MinusMore(s: seq<nat>, gone: set<nat>, x: nat)
    requires x !in s
    ensures Minus(s, gone + {x}) == Minus(s, gone)
  {
    if s != [] {
      MinusMore(s[1..], gone, x);
    }
  }

  // ---- Sums

  ghost function Sum(f: map<nat, int>, s: seq<nat>): int
    requires forall x :: x in s ==> x in f
  {
    if s == [] then 0 else f[s[0]] + Sum(f, s[1..])
  }

  lemma {:induction false} SumJoin(f: map<nat, int>, a: seq<nat>, b: seq<nat>)
    requires forall x :: x in a + b ==> x in f
    ensures (forall x :: x in a || x in b ==> x in a + b) && Sum(f, a + b) == Sum(f, a) + Sum(f, b)
    decreases |a|
  {
    assert forall x :: x in a || x in b ==> x in a + b;
    if a == [] {
      assert a + b == b;
    } else {
      assert (a + b)[1..] == a[1..] + b;
      SumJoin(f, a[1..], b);
    }
  }

  lemma SumNext(f: map<nat, int>, s: seq<nat>, x: nat)
    requires x in f && forall y :: y in s ==> y in f
    ensures (forall y :: y in s + [x] ==> y in f) && Sum(f, s + [x]) == Sum(f, s) + f[x]
  {
    SumJoin(f, s, [x]);
  }

  lemma {:induction false} SumSame(f: map<nat, int>, g: map<nat, int>, s: seq<nat>)
    requires forall y :: y in s ==> y in f && y in g && f[y] == g[y]
    ensures Sum(g, s) == Sum(f, s)
  {
    if s != [] {
      SumSame(f, g, s[1..]);
    }
  }

  /** A sum changes by as much as its one term that changes. */
  lemma {:induction false} SumDiffer(f: map<nat, int>, g: map<nat, int>, s: seq<nat>, x: nat)
    requires Distinct(s) && x in s && forall y :: y in s ==> y in f && y in g && (y != x ==> f[y] == g[y])
    ensures Sum(g, s) == Sum(f, s) + g[x] - f[x]
  {
    if s[0] == x {
      forall y | y in s[1..] ensures y in s && y != x {}
      SumSame(f, g, s[1..]);
    } else {
      SumDiffer(f, g, s[1..], x);
    }
  }
}
