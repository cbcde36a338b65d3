/** The array operations the services build their lists with: `filter`, pushing a few items
    per element (`forEach` + `push`), and `[...new Set(xs)]`. */
module Collections {
  import opened Strings

  /** `xs.filter(keep)`. */
  function Filter<T>(keep: T -> bool, xs: seq<T>): (r: seq<T>)
    ensures |r| <= |xs|
    ensures forall i :: 0 <= i < |r| ==> r[i] in xs && keep(r[i])
    ensures forall i :: 0 <= i < |xs| && keep(xs[i]) ==> xs[i] in r
    decreases |xs|
  {
    if xs == [] then []
    else
      var rest := Filter(keep, xs[..|xs| - 1]);
      assert xs == xs[..|xs| - 1] + [xs[|xs| - 1]];
      if keep(xs[|xs| - 1]) then rest + [xs[|xs| - 1]] else rest
  }

  /** A filter is non-empty exactly when some element passes the test (`filter(...).length > 0`
      is `some(...)`). */
  lemma FilterNonEmpty<T>(keep: T -> bool, xs: seq<T>)
    ensures |Filter(keep, xs)| > 0 <==> exists i :: 0 <= i < |xs| && keep(xs[i])
  {
    var r := Filter(keep, xs);
    if |r| > 0 {
      assert r[0] in xs && keep(r[0]);
    }
  }

  lemma {:induction false} FilterAppend<T>(keep: T -> bool, a: seq<T>, b: seq<T>)
    ensures Filter(keep, a + b) == Filter(keep, a) + Filter(keep, b)
    decreases |b|
  {
    if b != [] {
      assert (a + b)[..|a + b| - 1] == a + b[..|b| - 1];
      FilterAppend(keep, a, b[..|b| - 1]);
    } else {
      assert a + b == a;
    }
  }

  /** An element the filter drops can be inserted anywhere without changing the result. */
  lemma FilterSkips<T>(keep: T -> bool, xs: seq<T>, i: nat, x: T)
    requires i <= |xs| && !keep(x)
    ensures Filter(keep, xs[..i] + [x] + xs[i..]) == Filter(keep, xs)
  {
    TakeDropJoin(xs, i);
    FilterDropsBetween(keep, xs[..i], xs[i..], x);
  }

  lemma InitLastJoin<T>(xs: seq<T>)
    requires xs != []
    ensures xs == xs[..|xs| - 1] + [xs[|xs| - 1]]
    ensures multiset(xs) == multiset(xs[..|xs| - 1]) + multiset{xs[|xs| - 1]}
  {
    assert xs == xs[..|xs| - 1] + [xs[|xs| - 1]];
  }

  lemma TakeAll<T>(xs: seq<T>)
    ensures xs[..|xs|] == xs
  {
  }

  lemma TakeDropJoin<T>(xs: seq<T>, i: nat)
    requires i <= |xs|
    ensures xs[..i] + xs[i..] == xs
  {
  }

  lemma FilterDropsBetween<T>(keep: T -> bool, pre: seq<T>, post: seq<T>, x: T)
    requires !keep(x)
    ensures Filter(keep, pre + [x] + post) == Filter(keep, pre + post)
  {
    FilterAppend3(keep, pre, [x], post);
    FilterSingle(keep, x);
    FilterAppend(keep, pre, post);
    var fp, fpost := Filter(keep, pre), Filter(keep, post);
    assert fp + [] + fpost == fp + fpost;
  }

  /** The filter of three joined lists. */
  lemma FilterAppend3<T>(keep: T -> bool, a: seq<T>, b: seq<T>, c: seq<T>)
    ensures Filter(keep, a + b + c) == Filter(keep, a) + Filter(keep, b) + Filter(keep, c)
  {
    FilterAppend(keep, a + b, c);
    FilterAppend(keep, a, b);
  }

  /** The filter of one element. */
  lemma FilterSingle<T>(keep: T -> bool, x: T)
    ensures Filter(keep, [x]) == if keep(x) then [x] else []
  {
    assert [x][..0] == [];
  }

  /** The filter of a list grown by one element. */
  lemma FilterSnoc<T>(keep: T -> bool, xs: seq<T>, x: T)
    ensures Filter(keep, xs + [x]) == if keep(x) then Filter(keep, xs) + [x] else Filter(keep, xs)
  {
    assert (xs + [x])[..|xs + [x]| - 1] == xs;
  }

  /** An element the filter keeps, inserted anywhere, adds exactly one to the count. */
  lemma FilterTakes<T>(keep: T -> bool, xs: seq<T>, i: nat, x: T)
    requires i <= |xs| && keep(x)
    ensures |Filter(keep, xs[..i] + [x] + xs[i..])| == |Filter(keep, xs)| + 1
  {
    FilterAppend(keep, xs[..i] + [x], xs[i..]);
    FilterAppend(keep, xs[..i], [x]);
    FilterAppend(keep, xs[..i], xs[i..]);
    assert [x][..0] == [];
    assert xs[..i] + xs[i..] == xs;
  }

  /** Inserting an element never shrinks a filter. */
  lemma FilterGrows<T>(keep: T -> bool, xs: seq<T>, i: nat, x: T)
    requires i <= |xs|
    ensures |Filter(keep, xs)| <= |Filter(keep, xs[..i] + [x] + xs[i..])|
  {
    if keep(x) { FilterTakes(keep, xs, i, x); } else { FilterSkips(keep, xs, i, x); }
  }

  /** Two tests that agree on every element filter alike. */
  lemma {:induction false} FilterAgree<T>(keep: T -> bool, also: T -> bool, xs: seq<T>)
    requires forall i :: 0 <= i < |xs| ==> keep(xs[i]) == also(xs[i])
    ensures Filter(keep, xs) == Filter(also, xs)
    decreases |xs|
  {
    if xs != [] {
      var init := xs[..|xs| - 1];
      assert forall i :: 0 <= i < |init| ==> init[i] == xs[i];
      FilterAgree(keep, also, init);
    }
  }

  /** A filter and the filter of the opposite test split the input between them, element for
      element. */
  lemma {:induction false} FilterPartition<T>(keep: T -> bool, drop: T -> bool, xs: seq<T>)
    requires forall x :: drop(x) == !keep(x)
    ensures multiset(Filter(keep, xs)) + multiset(Filter(drop, xs)) == multiset(xs)
    ensures |Filter(keep, xs)| + |Filter(drop, xs)| == |xs|
    decreases |xs|
  {
    if xs != [] {
      var init, last := xs[..|xs| - 1], xs[|xs| - 1];
      FilterPartition(keep, drop, init);
      InitLastJoin(xs);
      FilterSnoc(keep, init, last);
      FilterSnoc(drop, init, last);
      var k, d := Filter(keep, init), Filter(drop, init);
      if keep(last) {
        assert Filter(keep, xs) == k + [last] && Filter(drop, xs) == d;
      } else {
        assert Filter(keep, xs) == k && Filter(drop, xs) == d + [last];
      }
    }
  }

  /** A filter of a filter is the filter on both tests. */
  lemma {:induction false} FilterFilter<T>(keep: T -> bool, also: T -> bool, both: T -> bool, xs: seq<T>)
    requires forall x :: both(x) == (keep(x) && also(x))
    ensures Filter(also, Filter(keep, xs)) == Filter(both, xs)
    decreases |xs|
  {
    if xs != [] {
      var init := xs[..|xs| - 1];
      var last := xs[|xs| - 1];
      FilterFilter(keep, also, both, init);
      if keep(last) {
        assert Filter(keep, xs) == Filter(keep, init) + [last];
        assert (Filter(keep, init) + [last])[..|Filter(keep, init) + [last]| - 1] == Filter(keep, init);
      }
    }
  }

  /** `sub` is `xs` with some elements left out, the rest in their original order. */
  predicate IsSubsequence<T(==)>(sub: seq<T>, xs: seq<T>)
    decreases |xs|
  {
    if sub == [] then true
    else if xs == [] then false
    else if sub[|sub| - 1] == xs[|xs| - 1] then IsSubsequence(sub[..|sub| - 1], xs[..|xs| - 1])
    else IsSubsequence(sub, xs[..|xs| - 1])
  }

  /** A filter keeps the relative order of what it keeps. */
  lemma {:induction false} FilterKeepsOrder<T>(keep: T -> bool, xs: seq<T>)
    ensures IsSubsequence(Filter(keep, xs), xs)
    decreases |xs|
  {
    if xs != [] {
      var init := xs[..|xs| - 1];
      FilterKeepsOrder(keep, init);
      var r := Filter(keep, xs);
      if keep(xs[|xs| - 1]) {
        assert r[..|r| - 1] == Filter(keep, init);
      }
    }
  }

  /** `xs.map(f)`. */
  function Map<T, U>(f: T -> U, xs: seq<T>): (r: seq<U>)
    ensures |r| == |xs|
    ensures forall i :: 0 <= i < |xs| ==> r[i] == f(xs[i])
  {
    seq(|xs|, i requires 0 <= i < |xs| => f(xs[i]))
  }

  /** Mapping and then filtering counts what a test on the originals counts, when the two
      tests agree through the mapping. */
  lemma {:induction false} FilterMapCount<T, U>(f: T -> U, keepU: U -> bool, keepT: T -> bool, xs: seq<T>)
    requires forall x :: keepU(f(x)) == keepT(x)
    ensures |Filter(keepU, Map(f, xs))| == |Filter(keepT, xs)|
    decreases |xs|
  {
    if xs != [] {
      var init := xs[..|xs| - 1];
      FilterMapCount(f, keepU, keepT, init);
      assert Map(f, xs)[..|xs| - 1] == Map(f, init);
    }
  }

  /** The concatenation of `items(x)` over `xs`, in order: what a `forEach` that pushes
      `items(x)` for each element appends. */
  function FlatMap<T, U>(items: T -> seq<U>, xs: seq<T>): (r: seq<U>)
    ensures xs == [] ==> r == []
    decreases |xs|
  {
    if xs == [] then [] else FlatMap(items, xs[..|xs| - 1]) + items(xs[|xs| - 1])
  }

  /** One more element pushes its items at the end. */
  lemma FlatMapStep<T, U>(items: T -> seq<U>, xs: seq<T>, i: nat)
    requires i < |xs|
    ensures FlatMap(items, xs[..i + 1]) == FlatMap(items, xs[..i]) + items(xs[i])
  {
    assert xs[..i + 1][..i] == xs[..i];
  }

  /** What each element pushes lies in the concatenation, and nothing else does. */
  lemma {:induction false} FlatMapMembers<T, U>(items: T -> seq<U>, xs: seq<T>, y: U)
    ensures y in FlatMap(items, xs) <==> exists i :: 0 <= i < |xs| && y in items(xs[i])
    decreases |xs|
  {
    if xs != [] {
      var init := xs[..|xs| - 1];
      FlatMapMembers(items, init, y);
      if y in FlatMap(items, xs) && y !in FlatMap(items, init) {
        assert y in items(xs[|xs| - 1]);
      }
      if exists i :: 0 <= i < |xs| && y in items(xs[i]) {
        var i :| 0 <= i < |xs| && y in items(xs[i]);
        if i < |xs| - 1 { assert xs[i] == init[i]; }
      }
    }
  }

  /** `[...new Set(xs)]`: each element once, at the place of its first occurrence. */
  function Distinct<T(==)>(xs: seq<T>): (r: seq<T>)
    ensures NoDuplicates(r)
    ensures forall i :: 0 <= i < |r| ==> r[i] in xs
    ensures forall i :: 0 <= i < |xs| ==> xs[i] in r
    ensures |r| <= |xs|
    decreases |xs|
  {
    if xs == [] then []
    else
      var d := Distinct(xs[..|xs| - 1]);
      assert xs == xs[..|xs| - 1] + [xs[|xs| - 1]];
      if xs[|xs| - 1] in d then d else d + [xs[|xs| - 1]]
  }

  /** De-duplication only appends: the de-duplicated front of a list stays at the front. */
  lemma {:induction false} DistinctPrefix<T>(a: seq<T>, b: seq<T>)
    ensures |Distinct(a)| <= |Distinct(a + b)|
    ensures Distinct(a + b)[..|Distinct(a)|] == Distinct(a)
    decreases |b|
  {
    if b == [] {
      assert a + b == a;
    } else {
      var init := b[..|b| - 1];
      assert (a + b)[..|a + b| - 1] == a + init;
      DistinctPrefix(a, init);
    }
  }

  /** A list without repeats is its own de-duplication. */
  lemma {:induction false} DistinctOfDistinct<T>(xs: seq<T>)
    requires NoDuplicates(xs)
    ensures Distinct(xs) == xs
    decreases |xs|
  {
    if xs != [] {
      var init := xs[..|xs| - 1];
      DistinctOfDistinct(init);
      assert xs[|xs| - 1] !in init;
    }
  }

  /** Repeat-free fixed entries pushed first come out first, in order. */
  lemma DistinctKeepsBase<T>(base: seq<T>, rest: seq<T>)
    requires NoDuplicates(base)
    ensures |base| <= |Distinct(base + rest)|
    ensures Distinct(base + rest)[..|base|] == base
  {
    DistinctOfDistinct(base);
    DistinctPrefix(base, rest);
  }

  /** The first element survives de-duplication in first place. */
  lemma DistinctHead<T>(xs: seq<T>)
    requires xs != []
    ensures Distinct(xs) != [] && Distinct(xs)[0] == xs[0]
  {
    DistinctKeepsBase([xs[0]], xs[1..]);
    assert [xs[0]] + xs[1..] == xs;
  }

  /** A list started with repeat-free fixed entries, grown by pushing `items(x)` for each `x`,
      then de-duplicated: no repeats, the fixed entries first, and exactly the fixed and the
      pushed entries. */
  lemma PushedThenDistinct<T, U>(base: seq<U>, items: T -> seq<U>, xs: seq<T>, y: U)
    requires NoDuplicates(base)
    ensures var r := Distinct(base + FlatMap(items, xs));
      && NoDuplicates(r) && |base| <= |r| && r[..|base|] == base
      && (y in r <==> y in base || exists i :: 0 <= i < |xs| && y in items(xs[i]))
  {
    DistinctKeepsBase(base, FlatMap(items, xs));
    FlatMapMembers(items, xs, y);
    var all := base + FlatMap(items, xs);
    var r := Distinct(all);
    if y in r {
      var j :| 0 <= j < |r| && r[j] == y;
      assert y in all;
    }
    if y in all {
      var j :| 0 <= j < |all| && all[j] == y;
      assert y in r;
    }
  }

  /** An entry pushed by exactly the elements passing `when`, and not among the fixed entries,
      ends up in the de-duplicated list exactly when some element passes `when`. */
  lemma PushedMember<T, U>(base: seq<U>, items: T -> seq<U>, xs: seq<T>, y: U, when: T -> bool)
    requires NoDuplicates(base) && y !in base
    requires forall x :: y in items(x) <==> when(x)
    ensures y in Distinct(base + FlatMap(items, xs)) <==> exists i :: 0 <= i < |xs| && when(xs[i])
  {
    PushedThenDistinct(base, items, xs, y);
  }

  /** When every element pushes only allowed items, nothing but the fixed entries and allowed
      items survives de-duplication. */
  lemma PushedWithin<T, U>(base: seq<U>, items: T -> seq<U>, xs: seq<T>, allowed: seq<U>)
    requires forall x, y :: y in items(x) ==> y in allowed
    ensures forall y :: y in Distinct(base + FlatMap(items, xs)) ==> y in base || y in allowed
  {
    var all := base + FlatMap(items, xs);
    forall y | y in Distinct(all) ensures y in base || y in allowed {
      var r := Distinct(all);
      var j :| 0 <= j < |r| && r[j] == y;
      assert y in all;
      FlatMapMembers(items, xs, y);
      if y !in base {
        var i :| 0 <= i < |xs| && y in items(xs[i]);
      }
    }
  }
}
