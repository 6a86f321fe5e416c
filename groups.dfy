/**
 * pygame sprite groups as sequences in insertion order (the order a Group
 * iterates in). Removing sprites with kill() leaves the others in order.
 */
module Groups {
  /** How many flags are set. */
  function Count(flags: seq<bool>): (n: nat)
    ensures n <= |flags|
  {
    if flags == [] then 0 else Count(flags[..|flags| - 1]) + (if flags[|flags| - 1] then 1 else 0)
  }

  /** The members of xs whose flag is set, in order. */
  function Keep<T>(xs: seq<T>, keep: seq<bool>): (kept: seq<T>)
    requires |xs| == |keep|
    ensures |kept| == Count(keep) <= |xs|
  {
    if xs == [] then []
    else Keep(xs[..|xs| - 1], keep[..|keep| - 1]) + (if keep[|keep| - 1] then [xs[|xs| - 1]] else [])
  }

  /** No sprite is in a group twice: each member is new to the members added before it. */
  predicate Distinct<T(==)>(xs: seq<T>)
  {
    xs == [] || (Distinct(xs[..|xs| - 1]) && xs[|xs| - 1] !in xs[..|xs| - 1])
  }

  /** Two places of a group of distinct sprites hold two different sprites. */
  lemma {:induction false} DistinctAt<T>(xs: seq<T>, i: nat, j: nat)
    requires Distinct(xs) && i < |xs| && j < |xs| && i != j
    ensures xs[i] != xs[j]
  {
    var n := |xs| - 1;
    if i == n {
      assert xs[j] == xs[..n][j];
    } else if j == n {
      assert xs[i] == xs[..n][i];
    } else {
      DistinctAt(xs[..n], i, j);
    }
  }

  /** A kept member is a member whose flag is set, and every such member is kept. */
  lemma {:induction false} KeepMembers<T>(xs: seq<T>, keep: seq<bool>, x: T)
    requires |xs| == |keep|
    ensures x in Keep(xs, keep) <==> exists i :: 0 <= i < |xs| && keep[i] && xs[i] == x
  {
    if xs != [] {
      var n := |xs| - 1;
      KeepMembers(xs[..n], keep[..n], x);
      assert Keep(xs, keep) == Keep(xs[..n], keep[..n]) + (if keep[n] then [xs[n]] else []);
      if x in Keep(xs[..n], keep[..n]) {
        var i :| 0 <= i < n && keep[..n][i] && xs[..n][i] == x;
        assert keep[i] && xs[i] == x;
      }
      if exists i :: 0 <= i < n + 1 && keep[i] && xs[i] == x {
        var i :| 0 <= i < n + 1 && keep[i] && xs[i] == x;
        if i < n {
          assert xs[..n][i] == x && keep[..n][i];
        }
      }
    }
  }

  /** Removing members from a group of distinct sprites leaves distinct sprites. */
  lemma {:induction false} KeepDistinct<T>(xs: seq<T>, keep: seq<bool>)
    requires |xs| == |keep| && Distinct(xs)
    ensures Distinct(Keep(xs, keep))
  {
    if xs != [] {
      var n := |xs| - 1;
      var front := Keep(xs[..n], keep[..n]);
      KeepDistinct(xs[..n], keep[..n]);
      if keep[n] {
        assert Keep(xs, keep) == front + [xs[n]];
        assert (front + [xs[n]])[..|front|] == front;
        KeepMembers(xs[..n], keep[..n], xs[n]);
      } else {
        assert Keep(xs, keep) == front;
      }
    }
  }


  /** Extending a group and its flags by one member extends the kept members by at most that member. */
  lemma KeepSnoc<T>(xs: seq<T>, keep: seq<bool>, x: T, k: bool)
    requires |xs| == |keep|
    ensures Keep(xs + [x], keep + [k]) == Keep(xs, keep) + (if k then [x] else [])
  {
    assert (xs + [x])[..|xs|] == xs;
    assert (keep + [k])[..|keep|] == keep;
  }

  /** Removing from a group every member whose flag is clear, keeping the others in order. */
  method Filter<T>(xs: seq<T>, keep: seq<bool>) returns (kept: seq<T>)
    requires |xs| == |keep|
    ensures kept == Keep(xs, keep)
  {
    kept := [];
    var i := 0;
    while i < |xs|
      invariant 0 <= i <= |xs|
      invariant kept == Keep(xs[..i], keep[..i])
    {
      assert xs[..i + 1][..i] == xs[..i] && keep[..i + 1][..i] == keep[..i];
      if keep[i] {
        kept := kept + [xs[i]];
      }
      i := i + 1;
    }
    assert xs[..i] == xs && keep[..i] == keep;
  }
}
