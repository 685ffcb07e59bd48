/** getPermutations: every ordering of a list, built recursively (script.js:386-400, tmp_dump_daily.js:17-29). */
module Permutations {

  /** `[...arr.slice(0, i), ...arr.slice(i + 1)]`: the list without its i-th element. */
  function RemoveAt<T>(s: seq<T>, i: nat): (r: seq<T>)
    requires i < |s|
    ensures |r| == |s| - 1
  {
    s[..i] + s[i + 1..]
  }

  /** Removing the i-th element takes one copy of it out of the multiset. */
  lemma RemoveAtMultiset<T>(s: seq<T>, i: nat)
    requires i < |s|
    ensures multiset(RemoveAt(s, i)) == multiset(s) - multiset{s[i]}
  {
    assert s == s[..i] + [s[i]] + s[i + 1..];
    assert RemoveAt(s, i) == s[..i] + s[i + 1..];
  }

  /** Every list of `ps` with `x` put in front. */
  function Prefixed<T>(x: T, ps: seq<seq<T>>): (r: seq<seq<T>>)
    ensures |r| == |ps|
  {
    if ps == [] then [] else [[x] + ps[0]] + Prefixed(x, ps[1..])
  }

  /** The orderings getPermutations returns, in its order. */
  function Perms<T>(s: seq<T>): seq<seq<T>>
    decreases |s|, 1
  {
    if |s| <= 1 then [s] else PermsFrom(s, 0)
  }

  /** The orderings that start with the i-th, (i+1)-th, ... element of `s`. */
  function PermsFrom<T>(s: seq<T>, i: nat): seq<seq<T>>
    requires i <= |s|
    decreases |s|, 0, |s| - i
  {
    if i == |s| then [] else Prefixed(s[i], Perms(RemoveAt(s, i))) + PermsFrom(s, i + 1)
  }

  /** getPermutations, with its accumulator. */
  method GetPermutations<T>(arr: seq<T>) returns (perms: seq<seq<T>>)
    ensures perms == Perms(arr)
    decreases |arr|
  {
    if |arr| <= 1 {
      return [arr];
    }
    perms := [];
    var i := 0;
    while i < |arr|
      invariant 0 <= i <= |arr|
      invariant perms + PermsFrom(arr, i) == Perms(arr)
    {
      var current := arr[i];
      var remaining := RemoveAt(arr, i);
      var remainingPerms := GetPermutations(remaining);
      ghost var before := perms;
      perms := PushAll(perms, current, remainingPerms);
      assert PermsFrom(arr, i) == Prefixed(current, remainingPerms) + PermsFrom(arr, i + 1);
      assert perms + PermsFrom(arr, i + 1) == before + PermsFrom(arr, i);
      i := i + 1;
    }
  }

  /** The inner loop of getPermutations: `perms.push([current, ...perm])` for every `perm`. */
  method PushAll<T>(perms0: seq<seq<T>>, current: T, remainingPerms: seq<seq<T>>) returns (perms: seq<seq<T>>)
    ensures perms == perms0 + Prefixed(current, remainingPerms)
  {
    perms := perms0;
    var j := 0;
    assert remainingPerms[j..] == remainingPerms;
    while j < |remainingPerms|
      invariant 0 <= j <= |remainingPerms|
      invariant perms + Prefixed(current, remainingPerms[j..]) == perms0 + Prefixed(current, remainingPerms)
    {
      PushPrefixed(perms, current, remainingPerms, j);
      perms := perms + [[current] + remainingPerms[j]];
      j := j + 1;
    }
    assert remainingPerms[j..] == [];
  }

  /** The k-th list of `Prefixed(x, ps)` is the k-th of `ps` with `x` in front. */
  lemma {:induction false} PrefixedAt<T>(x: T, ps: seq<seq<T>>, k: nat)
    requires k < |ps|
    ensures Prefixed(x, ps)[k] == [x] + ps[k]
  {
    if k > 0 {
      PrefixedAt(x, ps[1..], k - 1);
    }
  }

  /** One step of the inner loop of getPermutations. */
  lemma PushPrefixed<T>(perms: seq<seq<T>>, x: T, ps: seq<seq<T>>, j: nat)
    requires j < |ps|
    ensures perms + Prefixed(x, ps[j..]) == (perms + [[x] + ps[j]]) + Prefixed(x, ps[j + 1..])
  {
    PrefixedCons(x, ps[j..]);
    assert ps[j..][1..] == ps[j + 1..];
  }

  lemma PrefixedCons<T>(x: T, ps: seq<seq<T>>)
    requires ps != []
    ensures Prefixed(x, ps) == [[x] + ps[0]] + Prefixed(x, ps[1..])
  {
  }

  function Factorial(n: nat): (r: nat)
    ensures r >= 1
  {
    if n == 0 then 1 else n * Factorial(n - 1)
  }

  lemma {:induction false} PermsFromCount<T>(s: seq<T>, i: nat)
    requires 2 <= |s| && i <= |s|
    ensures |PermsFrom(s, i)| == (|s| - i) * Factorial(|s| - 1)
    decreases |s|, 0, |s| - i
  {
    if i < |s| {
      PermsFromCount(s, i + 1);
      PermsCount(RemoveAt(s, i));
      calc {
        |PermsFrom(s, i)|;
        |Perms(RemoveAt(s, i))| + |PermsFrom(s, i + 1)|;
        Factorial(|s| - 1) + (|s| - i - 1) * Factorial(|s| - 1);
        { assert (|s| - i) * Factorial(|s| - 1) == Factorial(|s| - 1) + (|s| - i - 1) * Factorial(|s| - 1); }
        (|s| - i) * Factorial(|s| - 1);
      }
    }
  }

  /** A list of n elements has n! orderings; four numbers have 24. */
  lemma {:induction false} PermsCount<T>(s: seq<T>)
    ensures |Perms(s)| == Factorial(|s|)
    decreases |s|, 1
  {
    if |s| >= 2 {
      PermsFromCount(s, 0);
    }
  }

  lemma {:induction false} PermsFromMember<T>(s: seq<T>, i: nat, p: seq<T>)
    requires i <= |s| && p in PermsFrom(s, i)
    ensures exists k :: i <= k < |s| && |p| >= 1 && p[0] == s[k] && p[1..] in Perms(RemoveAt(s, k))
    decreases |s| - i
  {
    var head := Prefixed(s[i], Perms(RemoveAt(s, i)));
    if p in head {
      var k :| 0 <= k < |head| && head[k] == p;
      PrefixedAt(s[i], Perms(RemoveAt(s, i)), k);
      assert p == [s[i]] + Perms(RemoveAt(s, i))[k];
      assert p[1..] == Perms(RemoveAt(s, i))[k];
    } else {
      PermsFromMember(s, i + 1, p);
    }
  }

  /** Every list getPermutations returns is a reordering of its input. */
  lemma {:induction false} PermsAreReorderings<T>(s: seq<T>, p: seq<T>)
    requires p in Perms(s)
    ensures multiset(p) == multiset(s)
    decreases |s|
  {
    if |s| >= 2 {
      PermsFromMember(s, 0, p);
      var k :| 0 <= k < |s| && |p| >= 1 && p[0] == s[k] && p[1..] in Perms(RemoveAt(s, k));
      PermsAreReorderings(RemoveAt(s, k), p[1..]);
      ConsReordering(s, p, k);
    }
  }

  /** Putting `s[k]` in front of a reordering of the rest gives a reordering of `s`. */
  lemma ConsReordering<T>(s: seq<T>, p: seq<T>, k: nat)
    requires k < |s| && |p| >= 1 && p[0] == s[k] && multiset(p[1..]) == multiset(RemoveAt(s, k))
    ensures multiset(p) == multiset(s)
  {
    assert p == [p[0]] + p[1..];
    assert s[k] in multiset(s);
    RemoveAtMultiset(s, k);
    calc {
      multiset(p);
      multiset([p[0]]) + multiset(p[1..]);
      multiset{s[k]} + (multiset(s) - multiset{s[k]});
      multiset(s);
    }
  }

  lemma {:induction false} PermsFromContains<T>(s: seq<T>, i: nat, k: nat, p: seq<T>)
    requires i <= k < |s| && p in Prefixed(s[k], Perms(RemoveAt(s, k)))
    ensures p in PermsFrom(s, i)
    decreases k - i
  {
    if i < k {
      PermsFromContains(s, i + 1, k, p);
    }
  }

  /** Every reordering of the input is among the lists getPermutations returns. */
  lemma {:induction false} ReorderingsArePerms<T>(s: seq<T>, p: seq<T>)
    requires multiset(p) == multiset(s)
    ensures p in Perms(s)
    decreases |s|
  {
    assert |p| == |multiset(p)| == |s|;
    if |s| == 0 {
      assert p == s;
    } else if |s| == 1 {
      assert p[0] in multiset(s);
      assert p == s;
    } else {
      assert p[0] in multiset(s);
      var k :| 0 <= k < |s| && s[k] == p[0];
      assert p == [p[0]] + p[1..];
      RemoveAtMultiset(s, k);
      assert multiset(p[1..]) == multiset(RemoveAt(s, k));
      ReorderingsArePerms(RemoveAt(s, k), p[1..]);
      var rs := Perms(RemoveAt(s, k));
      var m :| 0 <= m < |rs| && rs[m] == p[1..];
      PrefixedAt(s[k], rs, m);
      PermsFromContains(s, 0, k, p);
    }
  }

  /** Membership in getPermutations' result is exactly being a reordering of the input. */
  lemma PermsMembership<T>(s: seq<T>, p: seq<T>)
    ensures p in Perms(s) <==> multiset(p) == multiset(s)
  {
    if p in Perms(s) {
      PermsAreReorderings(s, p);
    }
    if multiset(p) == multiset(s) {
      ReorderingsArePerms(s, p);
    }
  }
}
