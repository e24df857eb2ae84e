/** Sums and multisets gathered over a sequence, and how they move when one element changes. */
module Folds {

  function Sum<T>(weight: T -> nat, xs: seq<T>): nat {
    if xs == [] then 0 else Sum(weight, xs[..|xs| - 1]) + weight(xs[|xs| - 1])
  }

  lemma SumAppend<T>(weight: T -> nat, xs: seq<T>, x: T)
    ensures Sum(weight, xs + [x]) == Sum(weight, xs) + weight(x)
  {
    assert (xs + [x])[..|xs|] == xs;
  }

  lemma {:induction false} SumUpdate<T>(weight: T -> nat, xs: seq<T>, i: nat, x: T)
    requires i < |xs|
    ensures Sum(weight, xs[i := x]) + weight(xs[i]) == Sum(weight, xs) + weight(x)
  {
    var n := |xs| - 1;
    if i == n {
      assert xs[i := x][..n] == xs[..n];
    } else {
      assert xs[i := x][..n] == xs[..n][i := x];
      SumUpdate(weight, xs[..n], i, x);
    }
  }

  lemma {:induction false} SumAtLeast<T>(weight: T -> nat, xs: seq<T>, i: nat)
    requires i < |xs|
    ensures weight(xs[i]) <= Sum(weight, xs)
  {
    if i == |xs| - 1 {
    } else {
      SumAtLeast(weight, xs[..|xs| - 1], i);
    }
  }

  ghost function Gather<T>(part: T -> multiset<nat>, xs: seq<T>): multiset<nat> {
    if xs == [] then multiset{} else Gather(part, xs[..|xs| - 1]) + part(xs[|xs| - 1])
  }

  lemma GatherAppend<T>(part: T -> multiset<nat>, xs: seq<T>, x: T)
    ensures Gather(part, xs + [x]) == Gather(part, xs) + part(x)
  {
    assert (xs + [x])[..|xs|] == xs;
  }

  lemma Regroup(a: multiset<nat>, b: multiset<nat>, c: multiset<nat>, d: multiset<nat>, e: multiset<nat>)
    requires a + b == c + d
    ensures (a + e) + b == (c + e) + d
  {
    assert (a + e) + b == (a + b) + e;
  }

  lemma {:induction false} GatherUpdate<T>(part: T -> multiset<nat>, xs: seq<T>, i: nat, x: T)
    requires i < |xs|
    ensures Gather(part, xs[i := x]) + part(xs[i]) == Gather(part, xs) + part(x)
  {
    var n := |xs| - 1;
    if i == n {
      assert xs[i := x][..n] == xs[..n] && xs[i := x][n] == x;
      assert Gather(part, xs[i := x]) == Gather(part, xs[..n]) + part(x);
    } else {
      var ys := xs[i := x];
      assert ys[..n] == xs[..n][i := x] && ys[n] == xs[n];
      GatherUpdate(part, xs[..n], i, x);
      Regroup(Gather(part, ys[..n]), part(xs[i]), Gather(part, xs[..n]), part(x), part(xs[n]));
    }
  }

  lemma CancelRight(a: multiset<nat>, b: multiset<nat>, c: multiset<nat>)
    requires a + b == c + b
    ensures a == c
  {
    forall t: nat
      ensures a[t] == c[t]
    {
      assert (a + b)[t] == (c + b)[t];
    }
  }

  /** Changing an element that gathers the same changes nothing. */
  lemma GatherUnchanged<T>(part: T -> multiset<nat>, xs: seq<T>, i: nat, x: T)
    requires i < |xs| && part(xs[i]) == part(x)
    ensures Gather(part, xs[i := x]) == Gather(part, xs)
  {
    GatherUpdate(part, xs, i, x);
    CancelRight(Gather(part, xs[i := x]), part(x), Gather(part, xs));
  }

  lemma {:induction false} GatherHas<T>(part: T -> multiset<nat>, xs: seq<T>, t: nat)
    ensures t in Gather(part, xs) <==> exists i | 0 <= i < |xs| :: t in part(xs[i])
  {
    if xs == [] {
    } else {
      var front := xs[..|xs| - 1];
      GatherHas(part, front, t);
      if t in Gather(part, front) {
        var i :| 0 <= i < |front| && t in part(front[i]);
        assert t in part(xs[i]);
      }
      forall i | 0 <= i < |xs| && t in part(xs[i])
        ensures t in Gather(part, xs)
      {
        if i < |front| {
          assert t in part(front[i]);
        }
      }
    }
  }

  /** Gathering at most one thing from each element gathers at most as many as there are. */
  lemma {:induction false} GatherIsSmall<T>(part: T -> multiset<nat>, xs: seq<T>)
    requires forall x | x in xs :: |part(x)| <= 1
    ensures |Gather(part, xs)| <= |xs|
  {
    if xs == [] {
    } else {
      GatherIsSmall(part, xs[..|xs| - 1]);
    }
  }

  /** 0, 1, ..., n - 1, each once. */
  ghost function Upto(n: nat): (m: multiset<nat>)
    ensures forall t: nat :: m[t] == if t < n then 1 else 0
  {
    if n == 0 then multiset{} else Upto(n - 1) + multiset{n - 1}
  }

  lemma UptoStep(n: nat)
    ensures Upto(n + 1) == Upto(n) + multiset{n}
  {
  }

  lemma {:induction false} UptoSize(n: nat)
    ensures |Upto(n)| == n
  {
    if n == 0 {
    } else {
      UptoSize(n - 1);
    }
  }

  /** Two of three parts of a total change by amounts that balance: the total changes by the rest. */
  lemma Balance(was: multiset<nat>, now: multiset<nat>, lost: multiset<nat>, gained: multiset<nat>,
                before: multiset<nat>, after: multiset<nat>, others: multiset<nat>,
                total: multiset<nat>, newTotal: multiset<nat>)
    requires now + lost == was + gained
    requires was + before + others == total
    requires gained + after + total == lost + before + newTotal
    ensures now + after + others == newTotal
  {
    forall n: nat
      ensures (now + after + others)[n] == newTotal[n]
    {
      assert (now + lost)[n] == (was + gained)[n];
      assert (was + before + others)[n] == total[n];
      assert (gained + after + total)[n] == (lost + before + newTotal)[n];
    }
  }

  /** The numbers below n with the property, in order. */
  function Kept(n: nat, p: nat -> bool): (at: seq<nat>)
    ensures forall j: nat :: j in at <==> j < n && p(j)
    ensures Ascending(at)
  {
    if n == 0 then []
    else
      var front := Kept(n - 1, p);
      assert forall i | 0 <= i < |front| :: front[i] in front;
      front + if p(n - 1) then [n - 1] else []
  }

  lemma SomeElement(a: seq<nat>)
    ensures a != [] ==> exists n :: n in a
  {
    assert a != [] ==> a[0] in a;
  }

  predicate Ascending(a: seq<nat>) {
    forall i, j | 0 <= i < j < |a| :: a[i] < a[j]
  }

  /** The last of an ascending list is its largest, and the others are the rest. */
  lemma LastIsLargest(a: seq<nat>, n: nat)
    requires Ascending(a) && a != []
    ensures n in a ==> n <= a[|a| - 1]
    ensures a[|a| - 1] in a
    ensures n in a[..|a| - 1] <==> n in a && n != a[|a| - 1]
  {
    assert a == a[..|a| - 1] + [a[|a| - 1]];
  }

  /** Two ascending lists of the same numbers are one list. */
  lemma {:induction false} SameAscending(a: seq<nat>, b: seq<nat>)
    requires Ascending(a) && Ascending(b)
    requires forall n: nat :: n in a <==> n in b
    ensures a == b
  {
    SomeElement(a);
    SomeElement(b);
    if a == [] {
    } else {
      var x, y := a[|a| - 1], b[|b| - 1];
      LastIsLargest(a, y);
      LastIsLargest(b, x);
      var front, others := a[..|a| - 1], b[..|b| - 1];
      forall n: nat
        ensures n in front <==> n in others
      {
        LastIsLargest(a, n);
        LastIsLargest(b, n);
      }
      SameAscending(front, others);
      assert a == front + [x] && b == others + [y];
    }
  }
}
