/** Sequences of instants: those after a cutoff, and how many fall in an interval. */
module Timeline {

  /** The instants after a cutoff: ZREMRANGEBYSCORE -inf cutoff. */
  function Trim(s: seq<int>, cutoff: int): seq<int> {
    if s == [] then []
    else if s[0] <= cutoff then Trim(s[1..], cutoff)
    else [s[0]] + Trim(s[1..], cutoff)
  }

  predicate Sorted(s: seq<int>) { forall i, j :: 0 <= i < j < |s| ==> s[i] <= s[j] }

  predicate AtMost(s: seq<int>, x: int) { forall i :: 0 <= i < |s| ==> s[i] <= x }

  /** How many instants fall in the half-open interval [from, to). */
  function CountIn(s: seq<int>, from: int, to: int): nat {
    if s == [] then 0 else (if from <= s[0] < to then 1 else 0) + CountIn(s[1..], from, to)
  }

  lemma {:induction false} TrimAppend(s: seq<int>, x: int, c: int)
    ensures Trim(s + [x], c) == Trim(s, c) + (if x <= c then [] else [x])
  {
    if s == [] {
      assert [] + [x] == [x] && [x][1..] == [];
    } else {
      TrimAppend(s[1..], x, c);
      assert (s + [x])[1..] == s[1..] + [x];
    }
  }

  lemma {:induction false} TrimTwice(s: seq<int>, a: int, c: int)
    requires a <= c
    ensures Trim(Trim(s, a), c) == Trim(s, c)
  {
    if s != [] {
      TrimTwice(s[1..], a, c);
      if s[0] > a {
        assert Trim(s, a)[1..] == Trim(s[1..], a);
      }
    }
  }

  lemma {:induction false} TrimAll(s: seq<int>, c: int)
    requires AtMost(s, c)
    ensures Trim(s, c) == []
  {
    if s != [] {
      TrimAll(s[1..], c);
    }
  }

  lemma {:induction false} TrimAtMost(s: seq<int>, x: int, c: int)
    requires AtMost(s, x)
    ensures AtMost(Trim(s, c), x)
  {
    if s != [] {
      TrimAtMost(s[1..], x, c);
    }
  }

  lemma {:induction false} CountAppend(s: seq<int>, x: int, from: int, to: int)
    ensures CountIn(s + [x], from, to) == CountIn(s, from, to) + if from <= x < to then 1 else 0
  {
    if s == [] {
      assert [] + [x] == [x] && [x][1..] == [];
    } else {
      CountAppend(s[1..], x, from, to);
      assert (s + [x])[1..] == s[1..] + [x];
    }
  }

  /** An interval that starts after the cutoff counts only what trimming keeps. */
  lemma {:induction false} CountWithinTrim(s: seq<int>, c: int, from: int, to: int)
    requires c < from
    ensures CountIn(s, from, to) <= |Trim(s, c)|
  {
    if s != [] {
      CountWithinTrim(s[1..], c, from, to);
    }
  }

  lemma {:induction false} TrimIsCount(s: seq<int>, c: int, now: int)
    requires AtMost(s, now)
    ensures |Trim(s, c)| == CountIn(s, c + 1, now + 1)
  {
    if s != [] {
      TrimIsCount(s[1..], c, now);
    }
  }

  /** Trimming a sorted history past its first survivor drops it; trimming below keeps everything. */
  lemma {:induction false} TrimPastFirst(s: seq<int>, a: int, c: int)
    requires Sorted(s) && a <= c && Trim(s, a) != []
    ensures a < Trim(s, a)[0]
    ensures Trim(s, a)[0] <= c ==> |Trim(s, c)| < |Trim(s, a)|
    ensures Trim(s, a)[0] > c ==> Trim(s, c) == Trim(s, a)
    decreases |s|
  {
    if s[0] <= a {
      TrimPastFirst(s[1..], a, c);
    } else {
      TrimTwice(s[1..], a, c);
      TrimShrinks(Trim(s[1..], a), c);
      if s[0] > c {
        TrimNone(s, a);
        TrimNone(s, c);
      }
    }
  }

  lemma {:induction false} TrimShrinks(s: seq<int>, c: int)
    ensures |Trim(s, c)| <= |s|
  {
    if s != [] {
      TrimShrinks(s[1..], c);
    }
  }

  lemma {:induction false} TrimNone(s: seq<int>, c: int)
    requires forall i :: 0 <= i < |s| ==> s[i] > c
    ensures Trim(s, c) == s
  {
    if s != [] {
      TrimNone(s[1..], c);
    }
  }

  lemma {:induction false} TrimConcat(a: seq<int>, b: seq<int>, c: int)
    ensures Trim(a + b, c) == Trim(a, c) + Trim(b, c)
  {
    if b == [] {
      assert a + b == a;
    } else {
      var front, x := b[..|b| - 1], b[|b| - 1];
      assert a + b == (a + front) + [x] && b == front + [x];
      TrimConcat(a, front, c);
      TrimAppend(a + front, x, c);
      TrimAppend(front, x, c);
    }
  }

  lemma {:induction false} CountConcat(a: seq<int>, b: seq<int>, from: int, to: int)
    ensures CountIn(a + b, from, to) == CountIn(a, from, to) + CountIn(b, from, to)
  {
    if b == [] {
      assert a + b == a;
    } else {
      var front, x := b[..|b| - 1], b[|b| - 1];
      assert a + b == (a + front) + [x] && b == front + [x];
      CountConcat(a, front, from, to);
      CountAppend(a + front, x, from, to);
      CountAppend(front, x, from, to);
    }
  }

  lemma {:induction false} CountAtMostLength(s: seq<int>, from: int, to: int)
    ensures CountIn(s, from, to) <= |s|
  {
    if s != [] {
      CountAtMostLength(s[1..], from, to);
    }
  }

  /** An interval that holds every instant counts them all. */
  lemma {:induction false} CountInside(s: seq<int>, from: int, to: int)
    requires forall i :: 0 <= i < |s| ==> from <= s[i] < to
    ensures CountIn(s, from, to) == |s|
  {
    if s != [] {
      CountInside(s[1..], from, to);
    }
  }

  /** An interval that ends before every instant counts none of them. */
  lemma {:induction false} CountBefore(s: seq<int>, from: int, to: int)
    requires forall i :: 0 <= i < |s| ==> s[i] >= to
    ensures CountIn(s, from, to) == 0
  {
    if s != [] {
      CountBefore(s[1..], from, to);
    }
  }
}
