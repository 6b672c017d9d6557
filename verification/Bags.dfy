/** Multisets gathered from a sequence of actors. */
module Bags {
  ghost function Bag<T, U>(f: T -> multiset<U>, s: seq<T>): multiset<U> {
    if s == [] then multiset{} else Bag(f, s[..|s| - 1]) + f(s[|s| - 1])
  }

  lemma BagAppend<T, U>(f: T -> multiset<U>, s: seq<T>, t: T)
    ensures Bag(f, s + [t]) == Bag(f, s) + f(t)
  {
    assert (s + [t])[..|s|] == s;
  }

  lemma {:induction false} BagFirst<T, U>(f: T -> multiset<U>, s: seq<T>)
    requires s != []
    ensures Bag(f, s) == f(s[0]) + Bag(f, s[1..])
  {
    if |s| > 1 {
      BagFirst(f, s[..|s| - 1]);
      assert s[..|s| - 1][1..] == s[1..][..|s| - 2];
    } else {
      assert s[..0] == [] == s[1..];
    }
  }

  lemma AddBoth<U>(a: multiset<U>, b: multiset<U>, c: multiset<U>, d: multiset<U>, e: multiset<U>)
    requires a + b == c + d
    ensures a + e + b == c + e + d
  {
    assert a + e + b == (a + b) + e;
    assert c + e + d == (c + d) + e;
  }

  lemma Balanced<U>(t: multiset<U>, t': multiset<U>, b: multiset<U>, b': multiset<U>, h: multiset<U>, h': multiset<U>,
                    m: multiset<U>, m': multiset<U>, gain: multiset<U>, out: multiset<U>)
    requires t == b + h && t' == t + gain && h' == h + out
    requires b' + m == b + m' && m' + out == m + gain
    ensures t' == b' + h'
  {
    forall u ensures t'[u] == (b' + h')[u] {
      assert (b' + m)[u] == (b + m')[u];
      assert (m' + out)[u] == (m + gain)[u];
    }
    assert t' == b' + h';
  }

  /** Changing one actor changes the bag by what that actor holds. */
  lemma {:induction false} BagUpdate<T, U>(f: T -> multiset<U>, s: seq<T>, i: nat, t: T)
    requires i < |s|
    ensures Bag(f, s[i := t]) + f(s[i]) == Bag(f, s) + f(t)
  {
    var n := |s| - 1;
    if i == n {
      assert s[i := t][..n] == s[..n];
    } else {
      assert s[i := t][..n] == s[..n][i := t];
      BagUpdate(f, s[..n], i, t);
      assert s[..n][i] == s[i];
      AddBoth(Bag(f, s[..n][i := t]), f(s[i]), Bag(f, s[..n]), f(t), f(s[n]));
    }
  }

  /** Book-keeping: the total t is what the actors hold plus what they have handed on, h. One actor takes `gain` in and
      hands `out` on; if total and account move along, the books still balance. */
  lemma Books<T, U>(f: T -> multiset<U>, s: seq<T>, i: nat, w: T, t: multiset<U>, t': multiset<U>,
                    h: multiset<U>, h': multiset<U>, gain: multiset<U>, out: multiset<U>)
    requires i < |s| && t == Bag(f, s) + h
    requires t' == t + gain && h' == h + out
    requires f(w) + out == f(s[i]) + gain
    ensures t' == Bag(f, s[i := w]) + h'
  {
    BagUpdate(f, s, i, w);
    Balanced(t, t', Bag(f, s), Bag(f, s[i := w]), h, h', f(s[i]), f(w), gain, out);
  }

  lemma {:induction false} BagMember<T, U>(f: T -> multiset<U>, s: seq<T>, i: nat)
    requires i < |s|
    ensures f(s[i]) <= Bag(f, s)
  {
    if i >= |s| - 1 {
    } else {
      assert s[..|s| - 1][i] == s[i];
      BagMember(f, s[..|s| - 1], i);
    }
  }

  lemma {:induction false} BagEmpty<T, U>(f: T -> multiset<U>, s: seq<T>)
    requires forall t <- s :: f(t) == multiset{}
    ensures Bag(f, s) == multiset{}
  {
    if s == [] {
    } else {
      assert forall t <- s[..|s| - 1] :: t in s;
      BagEmpty(f, s[..|s| - 1]);
    }
  }

  /** If each actor holds at most one, the bag is no larger than the sequence. */
  lemma {:induction false} BagAtMostOneEach<T, U>(f: T -> multiset<U>, s: seq<T>)
    requires forall t <- s :: |f(t)| <= 1
    ensures |Bag(f, s)| <= |s|
  {
    if s == [] {
    } else {
      assert forall t <- s[..|s| - 1] :: t in s;
      BagAtMostOneEach(f, s[..|s| - 1]);
      assert s[|s| - 1] in s;
    }
  }

  /** If each holds exactly one, it is just as large. */
  lemma {:induction false} BagOneEach<T, U>(f: T -> multiset<U>, s: seq<T>)
    requires forall t <- s :: |f(t)| == 1
    ensures |Bag(f, s)| == |s|
  {
    if s == [] {
    } else {
      assert forall t <- s[..|s| - 1] :: t in s;
      BagOneEach(f, s[..|s| - 1]);
      assert s[|s| - 1] in s;
    }
  }

  lemma SubBagSize<U>(a: multiset<U>, b: multiset<U>)
    requires a <= b
    ensures |a| <= |b|
  {
    assert b == a + (b - a);
  }

  // ---- Sums over a sequence of actors

  ghost function Tally<T>(f: T -> nat, s: seq<T>): nat {
    if s == [] then 0 else Tally(f, s[..|s| - 1]) + f(s[|s| - 1])
  }

  lemma TallyAppend<T>(f: T -> nat, s: seq<T>, t: T)
    ensures Tally(f, s + [t]) == Tally(f, s) + f(t)
  {
    assert (s + [t])[..|s|] == s;
  }

  lemma {:induction false} TallyUpdate<T>(f: T -> nat, s: seq<T>, i: nat, t: T)
    requires i < |s|
    ensures Tally(f, s[i := t]) + f(s[i]) == Tally(f, s) + f(t)
  {
    var n := |s| - 1;
    if i == n {
      assert s[i := t][..n] == s[..n];
    } else {
      assert s[i := t][..n] == s[..n][i := t];
      TallyUpdate(f, s[..n], i, t);
      assert s[..n][i] == s[i];
    }
  }

  lemma {:induction false} TallyFirst<T>(f: T -> nat, s: seq<T>)
    requires s != []
    ensures Tally(f, s) == f(s[0]) + Tally(f, s[1..])
  {
    if |s| > 1 {
      TallyFirst(f, s[..|s| - 1]);
      assert s[..|s| - 1][1..] == s[1..][..|s| - 2];
    } else {
      assert s[..0] == [] == s[1..];
    }
  }

  lemma {:induction false} TallyEach<T>(f: T -> nat, s: seq<T>, c: nat)
    requires forall t <- s :: f(t) == c
    ensures Tally(f, s) == c * |s|
  {
    if s == [] {
    } else {
      assert forall t <- s[..|s| - 1] :: t in s;
      TallyEach(f, s[..|s| - 1], c);
      assert c * |s| == c * (|s| - 1) + c;
    }
  }

  /** One member grows by what is appended on the other side. */
  lemma TallyMove<T, U>(f: T -> nat, s: seq<T>, i: nat, t: T, g: U -> nat, u: seq<U>, x: U)
    requires i < |s| && Tally(f, s) == Tally(g, u) && f(t) == f(s[i]) + g(x)
    ensures Tally(f, s[i := t]) == Tally(g, u + [x])
  {
    TallyUpdate(f, s, i, t);
    TallyAppend(g, u, x);
  }

  lemma {:induction false} TallyConcat<T>(f: T -> nat, a: seq<T>, b: seq<T>)
    ensures Tally(f, a + b) == Tally(f, a) + Tally(f, b)
  {
    if b == [] {
      assert a + b == a;
    } else {
      assert (a + b)[..|a + b| - 1] == a + b[..|b| - 1];
      TallyConcat(f, a, b[..|b| - 1]);
    }
  }

  lemma {:induction false} TallyMember<T>(f: T -> nat, s: seq<T>, i: nat)
    requires i < |s|
    ensures f(s[i]) <= Tally(f, s)
  {
    if i == |s| - 1 {
    } else {
      assert s[..|s| - 1][i] == s[i];
      TallyMember(f, s[..|s| - 1], i);
    }
  }

  /** Smaller member by member, smaller in all. */
  lemma {:induction false} TallyAtMost<T, U>(f: T -> nat, s: seq<T>, g: U -> nat, t: seq<U>)
    requires |s| == |t| && forall i :: 0 <= i < |s| ==> f(s[i]) <= g(t[i])
    ensures Tally(f, s) <= Tally(g, t)
  {
    if s == [] {
    } else {
      var n := |s| - 1;
      forall i | 0 <= i < n ensures f(s[..n][i]) <= g(t[..n][i]) { assert f(s[i]) <= g(t[i]); }
      TallyAtMost(f, s[..n], g, t[..n]);
      assert f(s[n]) <= g(t[n]);
    }
  }

  /** If each counts for one at most, the sum falls short of the length exactly when one counts for nothing. */
  lemma {:induction false} TallyShort<T>(f: T -> nat, s: seq<T>)
    requires forall t <- s :: f(t) <= 1
    ensures Tally(f, s) <= |s|
    ensures Tally(f, s) < |s| <==> exists t <- s :: f(t) == 0
  {
    if s == [] {
    } else {
      var init, last := s[..|s| - 1], s[|s| - 1];
      assert s == init + [last];
      assert forall t <- init :: t in s;
      TallyShort(f, init);
      assert last in s;
      assert f(last) == 0 ==> exists t <- s :: f(t) == 0;
    }
  }
}
