// What the draws of a shuffle can lead to (randomPermutation, internal/crypto/shuffle.go:96-118).
module RandomOrder {
  import opened Shuffle

  // -------------------------------------------------------------------- permutations

  function Below(n: nat): (r: set<nat>)
    ensures |r| == n && forall x: nat :: x in r <==> x < n
  {
    if n == 0 then {} else Below(n - 1) + {n - 1}
  }

  function Members(xs: seq<nat>): set<nat> {
    set x | x in xs
  }

  lemma {:induction false} MembersSize(xs: seq<nat>)
    requires forall i, j :: 0 <= i < j < |xs| ==> xs[i] != xs[j]
    ensures |Members(xs)| == |xs|
  {
    if xs != [] {
      MembersSize(xs[1..]);
      assert Members(xs) == Members(xs[1..]) + {xs[0]};
    }
  }

  lemma SizeBelow(a: set<nat>, b: set<nat>)
    requires a <= b
    ensures |a| <= |b|
  {
    assert b == a + (b - a);
  }

  /** Every number below n has its place in a permutation. */
  lemma PlaceOf(perm: seq<nat>, n: nat, v: nat) returns (i: nat)
    requires Permutes(perm, n) && v < n
    ensures i < n && perm[i] == v
  {
    if v !in perm {
      MembersSize(perm);
      SizeBelow(Members(perm), Below(n) - {v});
      assert false;
    }
    i :| 0 <= i < n && perm[i] == v;
  }

  // --------------------------------------------------------------------------- draws

  /** The swaps below slot m leave the slots from m on as they are. */
  lemma {:induction false} SlotsAbove(perm: seq<nat>, draws: seq<nat>, m: nat, k: nat)
    requires m <= k < |perm| && Draws(draws, |perm|)
    ensures SwapsBelow(perm, draws, m)[k] == perm[k]
    decreases m
  {
    if m > 1 {
      SlotsAbove(Swapped(perm, m - 1, draws[m - 1]), draws, m - 1, k);
    }
  }

  lemma {:induction false} DrawsAlike(perm: seq<nat>, a: seq<nat>, b: seq<nat>, m: nat)
    requires m <= |perm| && Draws(a, |perm|) && Draws(b, |perm|)
    requires forall i :: 1 <= i < m ==> a[i] == b[i]
    ensures SwapsBelow(perm, a, m) == SwapsBelow(perm, b, m)
    decreases m
  {
    if m > 1 {
      DrawsAlike(Swapped(perm, m - 1, a[m - 1]), a, b, m - 1);
    }
  }

  ghost predicate AgreeFrom(p: seq<nat>, q: seq<nat>, m: nat) {
    |p| == |q| && forall k :: m <= k < |p| ==> p[k] == q[k]
  }

  /** The slot below m that holds what p has at slot m - 1. */
  lemma Partner(p: seq<nat>, q: seq<nat>, n: nat, m: nat) returns (j: nat)
    requires Permutes(p, n) && Permutes(q, n) && 1 <= m <= n && AgreeFrom(p, q, m)
    ensures j < m && q[j] == p[m - 1]
  {
    j := PlaceOf(q, n, p[m - 1]);
    if j >= m {
      assert false;
    }
  }

  /** Some draws below m lead from q to p when the two agree from slot m on. */
  lemma {:induction false} DrawsLeadTo(p: seq<nat>, q: seq<nat>, n: nat, m: nat) returns (draws: seq<nat>)
    requires Permutes(p, n) && Permutes(q, n) && 1 <= m <= n && AgreeFrom(p, q, m)
    ensures |draws| == n && Draws(draws, n) && SwapsBelow(q, draws, m) == p
    decreases m
  {
    var j := Partner(p, q, n, m);
    if m == 1 {
      draws := seq(n, _ => 0);
      assert p == q;
    } else {
      var next := Swapped(q, m - 1, j);
      SwappedPermutes(q, n, m - 1, j);
      var rest := DrawsLeadTo(p, next, n, m - 1);
      draws := rest[m - 1 := j];
      DrawsAlike(next, draws, rest, m - 1);
    }
  }

  /** Every permutation can be drawn. */
  lemma EveryOrderDrawn(p: seq<nat>, n: nat)
    requires Permutes(p, n)
    ensures exists draws :: |draws| == n && Draws(draws, n) && Drawn(n, draws) == p
  {
    if n == 0 {
      assert Drawn(0, []) == p;
    } else {
      var draws := DrawsLeadTo(p, InOrder(n), n, n);
      assert Drawn(n, draws) == p;
    }
  }

  /** Draws that lead from one permutation to the same one are the same from slot 1 on. */
  lemma {:induction false} SameSwaps(perm: seq<nat>, a: seq<nat>, b: seq<nat>, m: nat)
    requires Permutes(perm, |perm|) && m <= |perm| && Draws(a, |perm|) && Draws(b, |perm|)
    requires SwapsBelow(perm, a, m) == SwapsBelow(perm, b, m)
    ensures forall i :: 1 <= i < m ==> a[i] == b[i]
    decreases m
  {
    if m > 1 {
      var p, q := Swapped(perm, m - 1, a[m - 1]), Swapped(perm, m - 1, b[m - 1]);
      SwappedPermutes(perm, |perm|, m - 1, a[m - 1]);
      SlotsAbove(p, a, m - 1, m - 1);
      SlotsAbove(q, b, m - 1, m - 1);
      assert perm[a[m - 1]] == perm[b[m - 1]];
      SameSwaps(p, a, b, m - 1);
    }
  }

  /** Two draws lead to the same permutation exactly if they are the same in every slot but the first. */
  lemma DrawnOnce(n: nat, a: seq<nat>, b: seq<nat>)
    requires Draws(a, n) && Draws(b, n)
    ensures Drawn(n, a) == Drawn(n, b) <==> forall i :: 1 <= i < n ==> a[i] == b[i]
  {
    if Drawn(n, a) == Drawn(n, b) {
      SameSwaps(InOrder(n), a, b, n);
    } else if forall i :: 1 <= i < n ==> a[i] == b[i] {
      DrawsAlike(InOrder(n), a, b, n);
    }
  }

  // ------------------------------------------------------------- one seat's permutation

  ghost predicate AllPermute(perms: seq<seq<nat>>, n: nat) {
    forall k :: 0 <= k < |perms| ==> Permutes(perms[k], n)
  }

  /** Where each position of the shuffled deck comes from. */
  ghost function Order(perms: seq<seq<nat>>, n: nat): (r: seq<nat>)
    requires AllPermute(perms, n)
    ensures |r| == n
  {
    seq(n, i requires 0 <= i < n => Origin(perms, |perms|, i, n))
  }

  lemma OrderPermutes(perms: seq<seq<nat>>, n: nat)
    requires AllPermute(perms, n)
    ensures Permutes(Order(perms, n), n)
  {
    forall i, j | 0 <= i < j < n ensures Order(perms, n)[i] != Order(perms, n)[j] {
      OriginInjective(perms, |perms|, i, j, n);
    }
  }

  lemma {:induction false} OriginOfPrefix(perms: seq<seq<nat>>, more: seq<seq<nat>>, k: nat, i: nat, n: nat)
    requires AllPermute(perms, n) && AllPermute(more, n) && k <= |perms| && perms <= more && i < n
    ensures Origin(perms, k, i, n) == Origin(more, k, i, n)
  {
    if k > 0 {
      assert Permutes(perms[k - 1], n);
      OriginOfPrefix(perms, more, k - 1, perms[k - 1][i], n);
    }
  }

  /** The first steps are undone last: the order of all steps goes through the order of the first ones. */
  lemma {:induction false} OriginSplits(first: seq<seq<nat>>, later: seq<seq<nat>>, i: nat, n: nat)
    requires AllPermute(first, n) && AllPermute(later, n) && i < n
    ensures AllPermute(first + later, n)
    ensures Origin(first + later, |first + later|, i, n) == Order(first, n)[Order(later, n)[i]]
    decreases |later|
  {
    if later == [] {
      assert first + [] == first;
    } else {
      var front, last := later[..|later| - 1], later[|later| - 1];
      var all := first + later;
      assert all == first + front + [last] && Permutes(last, n);
      OriginSplits(first, front, last[i], n);
      OriginOfPrefix(first + front, all, |first + front|, last[i], n);
      OriginOfPrefix(front, later, |front|, last[i], n);
    }
  }

  lemma OrderThrough(before: seq<seq<nat>>, q: seq<nat>, after: seq<seq<nat>>, n: nat, i: nat)
    requires AllPermute(before, n) && AllPermute(after, n) && Permutes(q, n) && i < n
    ensures AllPermute(before + [q] + after, n)
    ensures Order(before + [q] + after, n)[i] == Order(before, n)[q[Order(after, n)[i]]]
  {
    var x := Order(after, n)[i];
    OriginSplits(before + [q], after, i, n);
    OriginSplits(before, [q], x, n);
    assert Order([q], n)[x] == q[x] by {
      assert Origin([q], 1, x, n) == Origin([q], 0, q[x], n);
    }
  }

  ghost function Place(perm: seq<nat>, n: nat, v: nat): (i: nat)
    requires Permutes(perm, n) && v < n
    ensures i < n && perm[i] == v
  {
    assert exists i: nat :: i < n && perm[i] == v by {
      var i := PlaceOf(perm, n, v);
    }
    var i: nat :| i < n && perm[i] == v;
    i
  }

  /** What seat's permutation makes the order of the whole shuffle the target. */
  ghost function Choice(before: seq<nat>, after: seq<nat>, target: seq<nat>, n: nat): (q: seq<nat>)
    requires Permutes(before, n) && Permutes(after, n) && Permutes(target, n)
    ensures |q| == n && forall x :: 0 <= x < n ==> q[x] < n && before[q[x]] == target[Place(after, n, x)]
  {
    seq(n, x requires 0 <= x < n => Place(before, n, target[Place(after, n, x)]))
  }

  lemma ChoicePermutes(before: seq<nat>, after: seq<nat>, target: seq<nat>, n: nat)
    requires Permutes(before, n) && Permutes(after, n) && Permutes(target, n)
    ensures Permutes(Choice(before, after, target, n), n)
  {
    var q := Choice(before, after, target, n);
    forall x, y | 0 <= x < y < n ensures q[x] != q[y] {
      var i, j := Place(after, n, x), Place(after, n, y);
      assert after[i] != after[j];
      assert target[i] != target[j] by {
        assert if i < j then target[i] != target[j] else target[j] != target[i];
      }
    }
  }

  /** With seat's permutation q between those of the seats before and after, the deck is in the target order. */
  ghost predicate Leads(before: seq<seq<nat>>, q: seq<nat>, after: seq<seq<nat>>, n: nat, target: seq<nat>) {
    Permutes(q, n) && AllPermute(before + [q] + after, n) && Order(before + [q] + after, n) == target
  }

  lemma ChoiceLeads(before: seq<seq<nat>>, after: seq<seq<nat>>, n: nat, target: seq<nat>, q: seq<nat>)
    requires AllPermute(before, n) && AllPermute(after, n) && Permutes(target, n)
    requires Permutes(Order(before, n), n) && Permutes(Order(after, n), n)
    requires q == Choice(Order(before, n), Order(after, n), target, n)
    ensures Leads(before, q, after, n, target)
  {
    var b, a := Order(before, n), Order(after, n);
    ChoicePermutes(b, a, target, n);
    assert AllPermute(before + [q] + after, n);
    forall i | 0 <= i < n ensures Order(before + [q] + after, n)[i] == target[i] {
      OrderThrough(before, q, after, n, i);
      var j := Place(a, n, a[i]);
      assert j == i by {
        assert a[j] == a[i];
      }
    }
  }

  lemma OneChoice(before: seq<seq<nat>>, after: seq<seq<nat>>, n: nat, target: seq<nat>, q: seq<nat>, q': seq<nat>)
    requires AllPermute(before, n) && AllPermute(after, n)
    requires Leads(before, q, after, n, target) && Leads(before, q', after, n, target)
    ensures q == q'
  {
    var b, a := Order(before, n), Order(after, n);
    OrderPermutes(before, n);
    OrderPermutes(after, n);
    forall x | 0 <= x < n ensures q[x] == q'[x] {
      var i := PlaceOf(a, n, x);
      OrderThrough(before, q, after, n, i);
      OrderThrough(before, q', after, n, i);
      assert b[q[x]] == b[q'[x]];
    }
  }

  /**
   * Whatever the other seats do, one seat's permutation decides: every order of the deck comes
   * of one choice of it, and of one only.
   */
  lemma OneSeatDecides(before: seq<seq<nat>>, after: seq<seq<nat>>, n: nat, target: seq<nat>)
    requires AllPermute(before, n) && AllPermute(after, n) && Permutes(target, n)
    ensures exists q :: Leads(before, q, after, n, target)
    ensures forall q, q' :: Leads(before, q, after, n, target) && Leads(before, q', after, n, target) ==> q == q'
  {
    OrderPermutes(before, n);
    OrderPermutes(after, n);
    var q := Choice(Order(before, n), Order(after, n), target, n);
    ChoiceLeads(before, after, n, target, q);
    forall q, q' | Leads(before, q, after, n, target) && Leads(before, q', after, n, target) ensures q == q' {
      OneChoice(before, after, n, target, q, q');
    }
  }
}
