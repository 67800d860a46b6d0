/** A Python `dict` from keys to lists that is filled with
    `d.setdefault(key, []).append(value)`: a sequence of groups in the order
    their keys were first seen, each with its values in the order added. */
module Grouping {
  import opened Sorting

  datatype Group<K, V> = Group(key: K, members: seq<V>)

  function Keys<K, V>(gs: seq<Group<K, V>>): (ks: seq<K>)
    ensures |ks| == |gs| && forall i :: 0 <= i < |gs| ==> ks[i] == gs[i].key
  {
    seq(|gs|, i requires 0 <= i < |gs| => gs[i].key)
  }

  function MembersOf<K, V>(g: Group<K, V>): seq<V> { g.members }

  /** The values of all groups, group after group. */
  function AllMembers<K, V>(gs: seq<Group<K, V>>): seq<V>
  {
    FlatMap(MembersOf, gs)
  }

  predicate DistinctKeys<K(==), V>(gs: seq<Group<K, V>>) {
    forall i, j :: 0 <= i < j < |gs| ==> gs[i].key != gs[j].key
  }

  predicate NonEmptyGroups<K, V>(gs: seq<Group<K, V>>) {
    forall i :: 0 <= i < |gs| ==> gs[i].members != []
  }

  /** The values paired with key `k`, in order. */
  function ValuesWith<K(==), V>(pairs: seq<(K, V)>, k: K): (vs: seq<V>)
    ensures forall j :: 0 <= j < |pairs| && pairs[j].0 == k ==> pairs[j].1 in vs
    ensures forall i :: 0 <= i < |vs| ==> exists j :: 0 <= j < |pairs| && pairs[j].0 == k && pairs[j].1 == vs[i]
  {
    if pairs == [] then []
    else
      var vs := ValuesWith(pairs[..|pairs| - 1], k) + (if pairs[|pairs| - 1].0 == k then [pairs[|pairs| - 1].1] else []);
      assert forall j :: 0 <= j < |pairs| - 1 ==> pairs[..|pairs| - 1][j] == pairs[j];
      vs
  }

  function Values<K, V>(pairs: seq<(K, V)>): (vs: seq<V>)
    ensures |vs| == |pairs| && forall j :: 0 <= j < |pairs| ==> vs[j] == pairs[j].1
  {
    seq(|pairs|, j requires 0 <= j < |pairs| => pairs[j].1)
  }

  lemma AllMembersAppend<K, V>(a: seq<Group<K, V>>, b: seq<Group<K, V>>)
    ensures AllMembers(a + b) == AllMembers(a) + AllMembers(b)
  {
    FlatMapAppend(MembersOf, a, b);
  }

  /** Where key `k` is in `gs`: the first index holding it, or `|gs|`. */
  function Find<K(==), V>(gs: seq<Group<K, V>>, k: K): (i: nat)
    ensures i <= |gs|
    ensures i < |gs| ==> gs[i].key == k
    ensures forall j :: 0 <= j < i ==> gs[j].key != k
  {
    if gs == [] then 0
    else if gs[0].key == k then 0
    else 1 + Find(gs[1..], k)
  }

  lemma {:induction false} AllMembersAppendAt<K, V>(gs: seq<Group<K, V>>, i: nat, v: V)
    requires i < |gs|
    ensures multiset(AllMembers(gs[i := Group(gs[i].key, gs[i].members + [v])]))
         == multiset(AllMembers(gs)) + multiset{v}
  {
    var g := Group(gs[i].key, gs[i].members + [v]);
    assert gs == gs[..i] + [gs[i]] + gs[i + 1..];
    assert gs[i := g] == gs[..i] + [g] + gs[i + 1..];
    AllMembersAppend(gs[..i] + [gs[i]], gs[i + 1..]);
    AllMembersAppend(gs[..i], [gs[i]]);
    AllMembersAppend(gs[..i] + [g], gs[i + 1..]);
    AllMembersAppend(gs[..i], [g]);
    assert AllMembers([g]) == g.members + AllMembers([g][1..]);
    assert AllMembers([gs[i]]) == gs[i].members + AllMembers([gs[i]][1..]);
  }

  /** `d.setdefault(k, []).append(v)`. */
  function Add<K(==), V>(gs: seq<Group<K, V>>, k: K, v: V): (r: seq<Group<K, V>>)
    ensures Find(gs, k) == |gs| ==> r == gs + [Group(k, [v])]
    ensures Find(gs, k) < |gs| ==> |r| == |gs|
    ensures Find(r, k) == Find(gs, k)
    ensures forall i :: 0 <= i < |gs| ==> r[i].key == gs[i].key
    ensures forall i :: 0 <= i < |gs| ==>
              r[i].members == gs[i].members + (if i == Find(gs, k) then [v] else [])
    ensures multiset(AllMembers(r)) == multiset(AllMembers(gs)) + multiset{v}
  {
    var i := Find(gs, k);
    if i == |gs| then
      AllMembersAppend(gs, [Group(k, [v])]);
      assert AllMembers([Group(k, [v])]) == [v] + AllMembers([Group(k, [v])][1..]);
      FindAppend(gs, Group(k, [v]), k);
      gs + [Group(k, [v])]
    else
      var r := gs[i := Group(k, gs[i].members + [v])];
      AllMembersAppendAt(gs, i, v);
      FindSameKeys(gs, r, k);
      r
  }

  lemma AddKeepsShape<K, V>(gs: seq<Group<K, V>>, k: K, v: V)
    ensures DistinctKeys(gs) ==> DistinctKeys(Add(gs, k, v))
    ensures NonEmptyGroups(gs) ==> NonEmptyGroups(Add(gs, k, v))
  {
    var r := Add(gs, k, v);
    if Find(gs, k) == |gs| {
      assert forall i :: 0 <= i < |gs| ==> r[i] == gs[i];
    }
  }

  lemma {:induction false} FindAppend<K, V>(gs: seq<Group<K, V>>, g: Group<K, V>, k: K)
    requires Find(gs, k) == |gs| && g.key == k
    ensures Find(gs + [g], k) == |gs|
  {
    if gs != [] {
      assert (gs + [g])[1..] == gs[1..] + [g];
      FindAppend(gs[1..], g, k);
    }
  }

  lemma {:induction false} FindSameKeys<K, V>(a: seq<Group<K, V>>, b: seq<Group<K, V>>, k: K)
    requires |a| == |b| && forall i :: 0 <= i < |a| ==> a[i].key == b[i].key
    ensures Find(a, k) == Find(b, k)
  {
    if a != [] && a[0].key != k {
      FindSameKeys(a[1..], b[1..], k);
    }
  }

  /** The dictionary after `setdefault(k, []).append(v)` for each pair in turn. */
  function GroupAll<K(==), V>(pairs: seq<(K, V)>): seq<Group<K, V>>
  {
    if pairs == [] then []
    else Add(GroupAll(pairs[..|pairs| - 1]), pairs[|pairs| - 1].0, pairs[|pairs| - 1].1)
  }

  /** One more pair is one more `setdefault(k, []).append(v)`. */
  lemma GroupAllSnoc<K, V>(pairs: seq<(K, V)>, last: (K, V))
    ensures GroupAll(pairs + [last]) == Add(GroupAll(pairs), last.0, last.1)
  {
    assert (pairs + [last])[..|pairs|] == pairs;
  }

  /** Grouping puts every value under its own key, once: the keys are
      distinct, every pair's key has a group, each group holds exactly the
      values paired with its key in their original order, and no value is
      lost or duplicated. */
  lemma GroupAllSpec<K, V>(pairs: seq<(K, V)>)
    ensures DistinctKeys(GroupAll(pairs)) && NonEmptyGroups(GroupAll(pairs))
    ensures forall j :: 0 <= j < |pairs| ==> Find(GroupAll(pairs), pairs[j].0) < |GroupAll(pairs)|
    ensures forall i :: 0 <= i < |GroupAll(pairs)| ==>
              GroupAll(pairs)[i].members == ValuesWith(pairs, GroupAll(pairs)[i].key)
    ensures multiset(AllMembers(GroupAll(pairs))) == multiset(Values(pairs))
  {
    GroupAllShape(pairs);
    GroupAllMembers(pairs);
    GroupAllMultiset(pairs);
  }

  lemma {:induction false} GroupAllShape<K, V>(pairs: seq<(K, V)>)
    ensures DistinctKeys(GroupAll(pairs)) && NonEmptyGroups(GroupAll(pairs))
  {
    if pairs != [] {
      GroupAllShape(pairs[..|pairs| - 1]);
      AddKeepsShape(GroupAll(pairs[..|pairs| - 1]), pairs[|pairs| - 1].0, pairs[|pairs| - 1].1);
    }
  }

  lemma {:induction false} GroupAllMembers<K, V>(pairs: seq<(K, V)>)
    ensures forall j :: 0 <= j < |pairs| ==> Find(GroupAll(pairs), pairs[j].0) < |GroupAll(pairs)|
    ensures forall i :: 0 <= i < |GroupAll(pairs)| ==>
              GroupAll(pairs)[i].members == ValuesWith(pairs, GroupAll(pairs)[i].key)
  {
    if pairs != [] {
      var init := pairs[..|pairs| - 1];
      var last := pairs[|pairs| - 1];
      assert pairs == init + [last];
      GroupAllShape(init);
      GroupAllMembers(init);
      GroupAllStep(init, last);
    }
  }

  lemma {:induction false} GroupAllMultiset<K, V>(pairs: seq<(K, V)>)
    ensures multiset(AllMembers(GroupAll(pairs))) == multiset(Values(pairs))
  {
    if pairs != [] {
      var init := pairs[..|pairs| - 1];
      var last := pairs[|pairs| - 1];
      GroupAllMultiset(init);
      assert Values(pairs) == Values(init) + [last.1];
    }
  }

  lemma {:induction false} GroupAllStep<K, V>(init: seq<(K, V)>, last: (K, V))
    requires DistinctKeys(GroupAll(init))
    requires forall j :: 0 <= j < |init| ==> Find(GroupAll(init), init[j].0) < |GroupAll(init)|
    requires forall i :: 0 <= i < |GroupAll(init)| ==>
               GroupAll(init)[i].members == ValuesWith(init, GroupAll(init)[i].key)
    ensures forall j :: 0 <= j < |init + [last]| ==>
              Find(GroupAll(init + [last]), (init + [last])[j].0) < |GroupAll(init + [last])|
    ensures forall i :: 0 <= i < |GroupAll(init + [last])| ==>
              GroupAll(init + [last])[i].members == ValuesWith(init + [last], GroupAll(init + [last])[i].key)
  {
    var pairs := init + [last];
    assert pairs[..|pairs| - 1] == init;
    var g := GroupAll(init);
    var r := Add(g, last.0, last.1);
    assert GroupAll(pairs) == r;
    forall j | 0 <= j < |pairs| ensures Find(r, pairs[j].0) < |r| {
      if j < |pairs| - 1 {
        assert pairs[j] == init[j];
        FindSameKeysPrefix(g, r, pairs[j].0);
      }
    }
    forall i | 0 <= i < |r| ensures r[i].members == ValuesWith(pairs, r[i].key) {
      if i < |g| {
        assert r[i].key == g[i].key;
        assert (i == Find(g, last.0)) == (g[i].key == last.0);
      } else {
        forall j | 0 <= j < |init| ensures init[j].0 != last.0 {
        }
        ValuesWithAbsent(init, last.0);
      }
    }
  }

  lemma {:induction false} FindSameKeysPrefix<K, V>(a: seq<Group<K, V>>, b: seq<Group<K, V>>, k: K)
    requires |a| <= |b| && forall i :: 0 <= i < |a| ==> a[i].key == b[i].key
    requires Find(a, k) < |a|
    ensures Find(b, k) == Find(a, k)
  {
    if a[0].key != k {
      FindSameKeysPrefix(a[1..], b[1..], k);
    }
  }

  lemma {:induction false} ValuesWithAbsent<K, V>(pairs: seq<(K, V)>, k: K)
    requires forall j :: 0 <= j < |pairs| ==> pairs[j].0 != k
    ensures ValuesWith(pairs, k) == []
  {
    if pairs != [] {
      ValuesWithAbsent(pairs[..|pairs| - 1], k);
    }
  }

  /** Reordering groups with distinct keys keeps the keys distinct. */
  lemma PermutationKeepsKeys<K, V>(gs: seq<Group<K, V>>, os: seq<Group<K, V>>)
    requires multiset(os) == multiset(gs) && DistinctKeys(gs)
    ensures DistinctKeys(os)
  {
    assert Distinct(gs);
    PermutationDistinct(os, gs);
    forall i, j | 0 <= i < j < |os| ensures os[i].key != os[j].key {
      assert os[i] in multiset(gs) && os[j] in multiset(gs);
      var x :| 0 <= x < |gs| && gs[x] == os[i];
      var y :| 0 <= y < |gs| && gs[y] == os[j];
      if x != y {
        assert gs[x].key != gs[y].key;
      }
    }
  }

  /** A group holds `v` exactly when `v` was paired with the group's key. */
  lemma GroupAllMembership<K, V>(pairs: seq<(K, V)>, x: nat, v: V)
    requires x < |GroupAll(pairs)|
    ensures v in GroupAll(pairs)[x].members <==> (GroupAll(pairs)[x].key, v) in pairs
  {
    GroupAllSpec(pairs);
    var k := GroupAll(pairs)[x].key;
    var vs := ValuesWith(pairs, k);
    if v in vs {
      var i :| 0 <= i < |vs| && vs[i] == v;
      var j :| 0 <= j < |pairs| && pairs[j].0 == k && pairs[j].1 == vs[i];
      assert pairs[j] == (k, v);
    }
    if (k, v) in pairs {
      var j :| 0 <= j < |pairs| && pairs[j] == (k, v);
      assert pairs[j].0 == k;
    }
  }

  lemma GroupAllMembersIff<K, V>(pairs: seq<(K, V)>)
    ensures forall x, v :: 0 <= x < |GroupAll(pairs)| ==>
              (v in GroupAll(pairs)[x].members <==> (GroupAll(pairs)[x].key, v) in pairs)
  {
    forall x, v | 0 <= x < |GroupAll(pairs)|
      ensures v in GroupAll(pairs)[x].members <==> (GroupAll(pairs)[x].key, v) in pairs
    {
      GroupAllMembership(pairs, x, v);
    }
  }

  /** No value is lost or duplicated by the grouping. */
  lemma GroupAllValues<K, V>(pairs: seq<(K, V)>)
    ensures multiset(AllMembers(GroupAll(pairs))) == multiset(Values(pairs))
  {
    GroupAllSpec(pairs);
  }

  /** Every key that was paired with a value has a group. */
  lemma GroupAllHasKey<K, V>(pairs: seq<(K, V)>, j: nat)
    requires j < |pairs|
    ensures Find(GroupAll(pairs), pairs[j].0) < |GroupAll(pairs)|
  {
    GroupAllSpec(pairs);
  }

  /** Grouping three pairs is three `setdefault` calls. */
  lemma GroupThree<K, V>(a: (K, V), b: (K, V), c: (K, V))
    ensures GroupAll([a, b, c]) == Add(Add(Add([], a.0, a.1), b.0, b.1), c.0, c.1)
  {
    assert [a, b, c][..2] == [a, b];
    assert [a, b][..1] == [a];
    assert [a][..0] == [];
    assert GroupAll([a]) == Add([], a.0, a.1);
    assert GroupAll([a, b]) == Add(GroupAll([a]), b.0, b.1);
  }
  /** One pair makes one group. */
  lemma GroupOne<K, V>(a: (K, V))
    ensures GroupAll([a]) == [Group(a.0, [a.1])]
  {
    assert [a][..0] == [];
  }

  lemma AddToOne<K, V>(g0: Group<K, V>, k: K, v: V)
    ensures Add([g0], k, v) == if k == g0.key then [Group(g0.key, g0.members + [v])] else [g0, Group(k, [v])]
  {
    var r := Add([g0], k, v);
    if k == g0.key {
      assert Find([g0], k) == 0;
      assert r[0] == Group(g0.key, g0.members + [v]);
    } else {
      assert [g0][1..] == [];
      assert Find([g0], k) == 1;
    }
  }

  lemma AddToTwo<K, V>(g0: Group<K, V>, g1: Group<K, V>, k: K, v: V)
    requires g0.key != g1.key
    ensures Add([g0, g1], k, v) ==
      if k == g0.key then [Group(g0.key, g0.members + [v]), g1]
      else if k == g1.key then [g0, Group(g1.key, g1.members + [v])]
      else [g0, g1, Group(k, [v])]
  {
    var r := Add([g0, g1], k, v);
    assert [g0, g1][1..] == [g1];
    assert [g1][1..] == [];
    if k == g0.key {
      assert Find([g0, g1], k) == 0;
      assert r[0] == Group(g0.key, g0.members + [v]) && r[1] == g1;
    } else if k == g1.key {
      assert Find([g0, g1], k) == 1;
      assert r[0] == g0 && r[1] == Group(g1.key, g1.members + [v]);
    } else {
      assert Find([g0, g1], k) == 2;
    }
  }

  /** Two pairs share a group exactly when their keys are equal. */
  lemma GroupTwoCases<K, V>(a: (K, V), b: (K, V))
    ensures a.0 == b.0 ==> GroupAll([a, b]) == [Group(a.0, [a.1, b.1])]
    ensures a.0 != b.0 ==> GroupAll([a, b]) == [Group(a.0, [a.1]), Group(b.0, [b.1])]
  {
    assert [a, b][..1] == [a];
    GroupOne(a);
    assert GroupAll([a, b]) == Add([Group(a.0, [a.1])], b.0, b.1);
    AddToOne(Group(a.0, [a.1]), b.0, b.1);
    assert [a.1] + [b.1] == [a.1, b.1];
  }

  lemma GroupThreeSnoc<K, V>(a: (K, V), b: (K, V), c: (K, V))
    ensures GroupAll([a, b, c]) == Add(GroupAll([a, b]), c.0, c.1)
  {
    assert [a, b, c][..2] == [a, b];
  }

  lemma GroupThreeOne<K, V>(a: (K, V), b: (K, V), c: (K, V))
    requires a.0 == b.0 && b.0 == c.0
    ensures GroupAll([a, b, c]) == [Group(a.0, [a.1, b.1, c.1])]
  {
    GroupThreeSnoc(a, b, c);
    GroupTwoCases(a, b);
    AddToOne(Group(a.0, [a.1, b.1]), c.0, c.1);
    assert [a.1, b.1] + [c.1] == [a.1, b.1, c.1];
  }

  lemma GroupThreeAB<K, V>(a: (K, V), b: (K, V), c: (K, V))
    requires a.0 == b.0 && b.0 != c.0
    ensures GroupAll([a, b, c]) == [Group(a.0, [a.1, b.1]), Group(c.0, [c.1])]
  {
    GroupThreeSnoc(a, b, c);
    GroupTwoCases(a, b);
    AddToOne(Group(a.0, [a.1, b.1]), c.0, c.1);
  }

  lemma GroupThreeApart<K, V>(a: (K, V), b: (K, V), c: (K, V))
    requires a.0 != b.0
    ensures GroupAll([a, b, c]) == Add([Group(a.0, [a.1]), Group(b.0, [b.1])], c.0, c.1)
  {
    GroupThreeSnoc(a, b, c);
    GroupTwoCases(a, b);
  }

  lemma GroupThreeAC<K, V>(a: (K, V), b: (K, V), c: (K, V))
    requires a.0 != b.0 && a.0 == c.0
    ensures GroupAll([a, b, c]) == [Group(a.0, [a.1, c.1]), Group(b.0, [b.1])]
  {
    GroupThreeApart(a, b, c);
    AddToTwo(Group(a.0, [a.1]), Group(b.0, [b.1]), c.0, c.1);
    assert [a.1] + [c.1] == [a.1, c.1];
  }

  lemma GroupThreeBC<K, V>(a: (K, V), b: (K, V), c: (K, V))
    requires a.0 != b.0 && b.0 == c.0
    ensures GroupAll([a, b, c]) == [Group(a.0, [a.1]), Group(b.0, [b.1, c.1])]
  {
    GroupThreeApart(a, b, c);
    AddToTwo(Group(a.0, [a.1]), Group(b.0, [b.1]), c.0, c.1);
    assert [b.1] + [c.1] == [b.1, c.1];
  }

  lemma GroupThreeDistinct<K, V>(a: (K, V), b: (K, V), c: (K, V))
    requires a.0 != b.0 && a.0 != c.0 && b.0 != c.0
    ensures GroupAll([a, b, c]) == [Group(a.0, [a.1]), Group(b.0, [b.1]), Group(c.0, [c.1])]
  {
    GroupThreeApart(a, b, c);
    AddToTwo(Group(a.0, [a.1]), Group(b.0, [b.1]), c.0, c.1);
  }

  /** Three pairs are grouped by their keys, in the order the keys first
      appear. */
  lemma GroupThreeCases<K, V>(a: (K, V), b: (K, V), c: (K, V))
    ensures a.0 == b.0 && b.0 == c.0 ==> GroupAll([a, b, c]) == [Group(a.0, [a.1, b.1, c.1])]
    ensures a.0 == b.0 && b.0 != c.0 ==> GroupAll([a, b, c]) == [Group(a.0, [a.1, b.1]), Group(c.0, [c.1])]
    ensures a.0 != b.0 && a.0 == c.0 ==> GroupAll([a, b, c]) == [Group(a.0, [a.1, c.1]), Group(b.0, [b.1])]
    ensures a.0 != b.0 && b.0 == c.0 ==> GroupAll([a, b, c]) == [Group(a.0, [a.1]), Group(b.0, [b.1, c.1])]
    ensures a.0 != b.0 && a.0 != c.0 && b.0 != c.0 ==>
              GroupAll([a, b, c]) == [Group(a.0, [a.1]), Group(b.0, [b.1]), Group(c.0, [c.1])]
  {
    if a.0 == b.0 && b.0 == c.0 {
      GroupThreeOne(a, b, c);
    } else if a.0 == b.0 {
      GroupThreeAB(a, b, c);
    } else if a.0 == c.0 {
      GroupThreeAC(a, b, c);
    } else if b.0 == c.0 {
      GroupThreeBC(a, b, c);
    } else {
      GroupThreeDistinct(a, b, c);
    }
  }

  /** Groups of three distinct values `x`, `y`, `z`: `x`'s group comes
      first and no other group holds `x`, and `y`'s group comes no later
      than `z`'s unless `z` is in `x`'s. */
  ghost predicate FirstAndOrdered<K, V>(gs: seq<Group<K, V>>, x: V, y: V, z: V) {
    && |gs| > 0 && x in gs[0].members
    && (forall i :: 0 < i < |gs| ==> x !in gs[i].members)
    && (forall i, j :: 0 <= i < |gs| && 0 < j < |gs| && y in gs[i].members && z in gs[j].members ==> i <= j)
  }

  lemma ShapeOrdered<K, V>(gs: seq<Group<K, V>>, a: (K, V), b: (K, V), c: (K, V))
    requires a.1 != b.1 && a.1 != c.1 && b.1 != c.1
    requires || gs == [Group(a.0, [a.1, b.1, c.1])]
             || gs == [Group(a.0, [a.1, b.1]), Group(c.0, [c.1])]
             || gs == [Group(a.0, [a.1, c.1]), Group(b.0, [b.1])]
             || gs == [Group(a.0, [a.1]), Group(b.0, [b.1, c.1])]
             || gs == [Group(a.0, [a.1]), Group(b.0, [b.1]), Group(c.0, [c.1])]
    ensures FirstAndOrdered(gs, a.1, b.1, c.1) && gs[0].key == a.0
  {
  }

  /** Grouping three pairs with distinct values: the first value's group
      comes first, under its key, and no other group holds it; and the
      second value's group comes no later than the third's unless the
      third shares the first's. */
  lemma GroupThreeOrder<K, V>(a: (K, V), b: (K, V), c: (K, V))
    requires a.1 != b.1 && a.1 != c.1 && b.1 != c.1
    ensures FirstAndOrdered(GroupAll([a, b, c]), a.1, b.1, c.1) && GroupAll([a, b, c])[0].key == a.0
  {
    GroupThreeCases(a, b, c);
    ShapeOrdered(GroupAll([a, b, c]), a, b, c);
  }
}
