/** The document store's `$group` stage with a `$sum: 1` counter: one
    `{ _id, count }` document per distinct key, in order of first appearance. */
module Grouping {

  /** One output document of a grouping stage. */
  datatype Group<K> = Group(key: K, count: nat)

  /** The count that writing the groups one after another into a table
      leaves for `k`: the last group with key `k` wins, and 0 when there is none. */
  function Lookup<K(==)>(gs: seq<Group<K>>, k: K): nat {
    if gs == [] then 0
    else if gs[|gs| - 1].key == k then gs[|gs| - 1].count
    else Lookup(gs[..|gs| - 1], k)
  }

  /** The table keeps, for each key, the count of the last group with that
      key, and 0 for a key no group has. */
  lemma {:induction false} LookupLastWins<K>(gs: seq<Group<K>>, k: K)
    ensures (forall i :: 0 <= i < |gs| ==> gs[i].key != k) ==> Lookup(gs, k) == 0
    ensures (exists i :: 0 <= i < |gs| && gs[i].key == k) ==>
      exists i :: 0 <= i < |gs| && gs[i].key == k && gs[i].count == Lookup(gs, k)
        && forall j :: i < j < |gs| ==> gs[j].key != k
  {
    if gs != [] {
      var n := |gs| - 1;
      LookupLastWins(gs[..n], k);
      if gs[n].key != k {
        if exists i :: 0 <= i < |gs| && gs[i].key == k {
          var i :| 0 <= i < |gs| && gs[i].key == k;
          assert gs[..n][i].key == k;
          var m :| 0 <= m < n && gs[..n][m].key == k && gs[..n][m].count == Lookup(gs[..n], k)
            && forall j :: m < j < n ==> gs[..n][j].key != k;
          assert gs[m] == gs[..n][m];
        }
        assert forall i :: 0 <= i < n ==> gs[..n][i] == gs[i];
      }
    }
  }

  /** No two groups share a key. */
  ghost predicate DistinctKeys<K>(gs: seq<Group<K>>) {
    forall i, j :: 0 <= i < j < |gs| ==> gs[i].key != gs[j].key
  }

  /** The sum of all counts. */
  function TotalCount<K>(gs: seq<Group<K>>): nat {
    if gs == [] then 0 else TotalCount(gs[..|gs| - 1]) + gs[|gs| - 1].count
  }

  /** The keys of the groups, in order. */
  function KeysOf<K>(gs: seq<Group<K>>): (r: seq<K>)
    ensures |r| == |gs| && forall i :: 0 <= i < |gs| ==> r[i] == gs[i].key
  {
    seq(|gs|, i requires 0 <= i < |gs| => gs[i].key)
  }

  /** Counts one more document with key `k`: the group of `k` grows by one,
      or a group `{ k, 1 }` is appended. */
  function Bump<K(==)>(gs: seq<Group<K>>, k: K): seq<Group<K>> {
    if gs == [] then [Group(k, 1)]
    else
      var init, last := gs[..|gs| - 1], gs[|gs| - 1];
      if last.key == k then init + [Group(k, last.count + 1)]
      else Bump(init, k) + [last]
  }

  /** Bumping `k` adds one to the count of `k` and leaves every other count. */
  lemma {:induction false} BumpLookup<K>(gs: seq<Group<K>>, k: K, k': K)
    ensures Lookup(Bump(gs, k), k') == Lookup(gs, k') + (if k' == k then 1 else 0)
    decreases |gs|
  {
    var r := Bump(gs, k);
    if gs == [] {
      assert r[..|r| - 1] == [];
    } else {
      var init, last := gs[..|gs| - 1], gs[|gs| - 1];
      if last.key == k {
        assert r[..|r| - 1] == init;
      } else {
        assert r[..|r| - 1] == Bump(init, k);
        BumpLookup(init, k, k');
      }
    }
  }

  /** Bumping adds one to the sum of the counts. */
  lemma {:induction false} BumpTotal<K>(gs: seq<Group<K>>, k: K)
    ensures TotalCount(Bump(gs, k)) == TotalCount(gs) + 1
    decreases |gs|
  {
    var r := Bump(gs, k);
    if gs == [] {
      assert r[..|r| - 1] == [];
    } else {
      var init, last := gs[..|gs| - 1], gs[|gs| - 1];
      if last.key == k {
        assert r[..|r| - 1] == init;
      } else {
        assert r[..|r| - 1] == Bump(init, k);
        BumpTotal(init, k);
      }
    }
  }

  /** Bumping introduces no key but `k`, and keeps the keys distinct. */
  lemma {:induction false} BumpKeys<K>(gs: seq<Group<K>>, k: K)
    ensures forall i :: 0 <= i < |Bump(gs, k)| ==> Bump(gs, k)[i].key == k || Bump(gs, k)[i].key in KeysOf(gs)
    ensures DistinctKeys(gs) ==> DistinctKeys(Bump(gs, k))
    decreases |gs|
  {
    if gs != [] {
      var init, last := gs[..|gs| - 1], gs[|gs| - 1];
      assert forall i :: 0 <= i < |init| ==> KeysOf(gs)[i] == KeysOf(init)[i];
      if last.key != k {
        BumpKeys(init, k);
        var front := Bump(init, k);
        var r := front + [last];
        assert forall i :: 0 <= i < |front| ==> r[i] == front[i];
        if DistinctKeys(gs) {
          forall i | 0 <= i < |front|
            ensures front[i].key != last.key
          {
            if front[i].key != k {
              var j :| 0 <= j < |init| && KeysOf(init)[j] == front[i].key;
              assert gs[j] == init[j];
            }
          }
        }
      }
    }
  }

  /** The groups of `ks`: for every key, the count is its number of
      occurrences; the keys are distinct and all occur in `ks`; and the counts
      add up to the number of documents. */
  function GroupCounts<K(==,!new)>(ks: seq<K>): (r: seq<Group<K>>)
    ensures forall k :: Lookup(r, k) == multiset(ks)[k]
    ensures DistinctKeys(r)
    ensures forall i :: 0 <= i < |r| ==> r[i].key in ks
    ensures TotalCount(r) == |ks|
  {
    if ks == [] then []
    else
      var init, last := ks[..|ks| - 1], ks[|ks| - 1];
      assert ks == init + [last];
      var before := GroupCounts(init);
      var r := Bump(before, last);
      forall k ensures Lookup(r, k) == multiset(ks)[k] {
        BumpLookup(before, last, k);
      }
      BumpTotal(before, last);
      BumpKeys(before, last);
      forall i | 0 <= i < |r| ensures r[i].key in ks {
        if r[i].key != last {
          var j :| 0 <= j < |before| && KeysOf(before)[j] == r[i].key;
          assert init[..] <= ks;
          assert before[j].key in init;
        }
      }
      r
  }

  /** With distinct keys, looking a group's key up gives that group's count. */
  lemma {:induction false} LookupOfDistinct<K>(gs: seq<Group<K>>, i: nat)
    requires DistinctKeys(gs) && i < |gs|
    ensures Lookup(gs, gs[i].key) == gs[i].count
    decreases |gs|
  {
    if i < |gs| - 1 {
      var init := gs[..|gs| - 1];
      assert init[i] == gs[i];
      LookupOfDistinct(init, i);
    }
  }

  /** Every group of `GroupCounts(ks)` counts at least one document, and
      exactly as many as `ks` holds of its key; every key of `ks` has a group. */
  lemma GroupCountsExact<K(!new)>(ks: seq<K>)
    ensures forall i :: 0 <= i < |GroupCounts(ks)| ==> GroupCounts(ks)[i].count == multiset(ks)[GroupCounts(ks)[i].key] >= 1
    ensures forall k :: k in ks ==> exists i :: 0 <= i < |GroupCounts(ks)| && GroupCounts(ks)[i].key == k
  {
    var r := GroupCounts(ks);
    forall i | 0 <= i < |r|
      ensures r[i].count == multiset(ks)[r[i].key] >= 1
    {
      LookupOfDistinct(r, i);
    }
    forall k | k in ks
      ensures exists i :: 0 <= i < |r| && r[i].key == k
    {
      assert multiset(ks)[k] > 0;
      assert Lookup(r, k) > 0;
      LookupFindsGroup(r, k);
    }
  }

  /** A positive lookup comes from a group with that key. */
  lemma {:induction false} LookupFindsGroup<K>(gs: seq<Group<K>>, k: K)
    requires Lookup(gs, k) > 0
    ensures exists i :: 0 <= i < |gs| && gs[i].key == k
    decreases |gs|
  {
    if gs[|gs| - 1].key != k {
      var init := gs[..|gs| - 1];
      LookupFindsGroup(init, k);
      var i :| 0 <= i < |init| && init[i].key == k;
      assert gs[i] == init[i];
    }
  }
}
