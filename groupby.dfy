/** `itertools.groupby(s, key)`: splitting a sequence into maximal runs of
    equal keys, and what that gives on a sequence sorted by key. */
module Grouping {
  import opened Comments
  import opened ForkSort

  /** One item yielded by `groupby`: the key of a run and the run itself. */
  datatype Group<T> = Group(fork: Fork, members: seq<T>)

  /** The members of all groups, one group after the other. */
  function Concat<T>(gs: seq<Group<T>>): seq<T> {
    if gs == [] then [] else gs[0].members + Concat(gs[1..])
  }

  /** A run is non-empty and all its members carry the run's key. */
  predicate IsRun<T>(g: Group<T>, key: T -> Fork) {
    g.members != [] && forall i :: 0 <= i < |g.members| ==> key(g.members[i]) == g.fork
  }

  /** The runs of `s`, as `groupby` yields them: a new group starts
      wherever the key differs from the previous element's. */
  function GroupBy<T>(s: seq<T>, key: T -> Fork): seq<Group<T>> {
    if s == [] then []
    else
      var rest := GroupBy(s[1..], key);
      var k := key(s[0]);
      if rest != [] && rest[0].fork == k then [Group(k, [s[0]] + rest[0].members)] + rest[1..]
      else [Group(k, [s[0]])] + rest
  }

  /** The first group has the key of the first element. */
  lemma GroupByHead<T>(s: seq<T>, key: T -> Fork)
    requires s != []
    ensures GroupBy(s, key) != [] && GroupBy(s, key)[0].fork == key(s[0])
  {
  }

  /** The groups are the runs of `s`: together they are `s`, each is a
      run, and two neighbouring runs have different keys, so every run is
      maximal. */
  lemma {:induction false} GroupByRuns<T>(s: seq<T>, key: T -> Fork)
    ensures Concat(GroupBy(s, key)) == s
    ensures forall i :: 0 <= i < |GroupBy(s, key)| ==> IsRun(GroupBy(s, key)[i], key)
    ensures forall i :: 0 < i < |GroupBy(s, key)| ==> GroupBy(s, key)[i - 1].fork != GroupBy(s, key)[i].fork
  {
    if s != [] {
      var rest := GroupBy(s[1..], key);
      GroupByRuns(s[1..], key);
      var k := key(s[0]);
      var r := GroupBy(s, key);
      assert s == [s[0]] + s[1..];
      if rest != [] && rest[0].fork == k {
        assert r == [Group(k, [s[0]] + rest[0].members)] + rest[1..];
        ConcatCons(r[0], rest[1..]);
        ConcatCons(rest[0], rest[1..]);
        assert rest == [rest[0]] + rest[1..];
        assert forall i :: 0 < i < |r| ==> r[i] == rest[i];
        assert IsRun(r[0], key) by {
          assert IsRun(rest[0], key);
          forall i | 0 <= i < |r[0].members| ensures key(r[0].members[i]) == k {
            if i > 0 {
              assert r[0].members[i] == rest[0].members[i - 1];
            }
          }
        }
      } else {
        assert r == [Group(k, [s[0]])] + rest;
        ConcatCons(r[0], rest);
        assert forall i :: 0 < i < |r| ==> r[i] == rest[i - 1];
      }
    }
  }

  lemma ConcatCons<T>(g: Group<T>, gs: seq<Group<T>>)
    ensures Concat([g] + gs) == g.members + Concat(gs)
  {
  }

  lemma {:induction false} ConcatAppend<T>(a: seq<Group<T>>, b: seq<Group<T>>)
    ensures Concat(a + b) == Concat(a) + Concat(b)
  {
    if a == [] {
      assert a + b == b;
    } else {
      assert a + b == [a[0]] + (a[1..] + b);
      ConcatCons(a[0], a[1..] + b);
      ConcatAppend(a[1..], b);
    }
  }

  /** No group for an empty run, otherwise one group. */
  function Run<T>(a: seq<T>, k: Fork): seq<Group<T>> {
    if a == [] then [] else [Group(k, a)]
  }

  /** The group of fork `k` in a sequence sorted by key: none when `s` has
      no element with that key, otherwise all such elements in order. */
  function RunOf<T>(s: seq<T>, key: T -> Fork, k: Fork): seq<Group<T>> {
    Run(Filter(s, key, k), k)
  }

  /** One group per fork that occurs in `s`, in rank order, each holding
      that fork's elements in input order. */
  function ForkGroups<T>(s: seq<T>, key: T -> Fork): seq<Group<T>> {
    RunOf(s, key, Easy) + RunOf(s, key, Main) + RunOf(s, key, Owner)
  }

  /** A leading run of key `k` that the rest does not continue becomes one
      group of its own (no group at all when it is empty). */
  lemma {:induction false} GroupByLeadingRun<T>(a: seq<T>, b: seq<T>, key: T -> Fork, k: Fork)
    requires forall i :: 0 <= i < |a| ==> key(a[i]) == k
    requires b == [] || key(b[0]) != k
    ensures GroupBy(a + b, key) == Run(a, k) + GroupBy(b, key)
  {
    if a == [] {
      assert a + b == b;
    } else {
      var s := a + b;
      assert s[0] == a[0] && s[1..] == a[1..] + b;
      if b != [] {
        GroupByHead(b, key);
      }
      GroupByLeadingRun(a[1..], b, key, k);
      var rest := GroupBy(a[1..] + b, key);
      if a[1..] == [] {
        assert rest == GroupBy(b, key);
        assert GroupBy(s, key) == [Group(k, [a[0]])] + rest;
        assert [a[0]] == a;
      } else {
        assert rest == [Group(k, a[1..])] + GroupBy(b, key);
        assert GroupBy(s, key) == [Group(k, [a[0]] + a[1..])] + rest[1..];
        assert rest[1..] == GroupBy(b, key);
        assert [a[0]] + a[1..] == a;
      }
    }
  }

  /** Grouping the stably sorted sequence gives the reference groups. */
  lemma GroupBySortedIsForkGroups<T>(s: seq<T>, key: T -> Fork)
    ensures GroupBy(StableSort(s, key), key) == ForkGroups(s, key)
  {
    StableSortIsByFork(s, key);
    GroupByThreeRuns(Filter(s, key, Easy), Filter(s, key, Main), Filter(s, key, Owner), key);
  }

  lemma GroupByThreeRuns<T>(e: seq<T>, m: seq<T>, o: seq<T>, key: T -> Fork)
    requires forall i :: 0 <= i < |e| ==> key(e[i]) == Easy
    requires forall i :: 0 <= i < |m| ==> key(m[i]) == Main
    requires forall i :: 0 <= i < |o| ==> key(o[i]) == Owner
    ensures GroupBy(e + m + o, key) == Run(e, Easy) + Run(m, Main) + Run(o, Owner)
  {
    GroupByLeadingRun(o, [], key, Owner);
    assert o + [] == o;
    GroupByLeadingRun(m, o, key, Main);
    assert m + o == [] || key((m + o)[0]) != Easy by {
      if m != [] {
        assert (m + o)[0] == m[0];
      } else if o != [] {
        assert (m + o)[0] == o[0];
      }
    }
    GroupByLeadingRun(e, m + o, key, Easy);
    assert e + m + o == e + (m + o);
  }

  /** A group of the reference groups is the run of its fork, which is
      non-empty and holds exactly the elements with that fork. */
  lemma ForkGroupsMembers<T>(s: seq<T>, key: T -> Fork)
    ensures var gs := ForkGroups(s, key);
      forall i :: 0 <= i < |gs| ==> gs[i].members == Filter(s, key, gs[i].fork) && gs[i].members != []
  {
  }

  /** The forks of the reference groups strictly increase, so no fork has
      two groups and there are at most three. */
  lemma ForkGroupsOrder<T>(s: seq<T>, key: T -> Fork)
    ensures var gs := ForkGroups(s, key);
      && (forall i, j :: 0 <= i < j < |gs| ==> gs[i].fork.Rank() < gs[j].fork.Rank())
      && |gs| <= 3
  {
  }

  /** A fork has a reference group exactly when some element has it. */
  lemma ForkGroupsPresence<T>(s: seq<T>, key: T -> Fork, k: Fork)
    ensures var gs := ForkGroups(s, key);
      (exists i :: 0 <= i < |gs| && gs[i].fork == k) <==> Filter(s, key, k) != []
  {
    var gs := ForkGroups(s, key);
    ForkGroupsMembers(s, key);
    if Filter(s, key, k) != [] {
      var g := Group(k, Filter(s, key, k));
      assert g in RunOf(s, key, k);
      assert g in gs;
    }
  }

  /** Together the reference groups are the per-fork concatenation. */
  lemma ForkGroupsConcat<T>(s: seq<T>, key: T -> Fork)
    ensures Concat(ForkGroups(s, key)) == ByFork(s, key)
  {
    var re, rm, ro := RunOf(s, key, Easy), RunOf(s, key, Main), RunOf(s, key, Owner);
    ConcatAppend(re, rm);
    ConcatAppend(re + rm, ro);
    ConcatRunOf(s, key, Easy);
    ConcatRunOf(s, key, Main);
    ConcatRunOf(s, key, Owner);
  }

  lemma ConcatRunOf<T>(s: seq<T>, key: T -> Fork, k: Fork)
    ensures Concat(RunOf(s, key, k)) == Filter(s, key, k)
  {
  }
}
