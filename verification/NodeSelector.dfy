/**
 The node selector validator (controllers/nodeselector.go): all names of all selected nodes in
 one list, and a scan for a name that occurs twice. Proved to mean that no node is selected by
 two of the listed DeviceConfigs.
 */
module NodeSelector {
  import opened Wrappers
  import opened Ordering
  import opened Api
  import opened Store

  predicate Selects(c: World, d: DeviceConfig, n: string) {
    n in c.nodes && Matches(Selector(d), c.nodes[n])
  }

  function SelectedSet(c: World, d: DeviceConfig): set<string> {
    set n | n in c.nodes && Selects(c, d, n)
  }

  /** The names the validator appends for one DeviceConfig. */
  function SelectedNames(c: World, d: DeviceConfig): (names: seq<string>)
    ensures NoDup(names) && Elements(names) == SelectedSet(c, d)
  {
    SelectionExact(c, Selector(d));
    Names(SelectNodes(c, Selector(d)))
  }

  function Lists(c: World, items: seq<DeviceConfig>): seq<seq<string>> {
    seq(|items|, i requires 0 <= i < |items| => SelectedNames(c, items[i]))
  }

  function AllNames(c: World, items: seq<DeviceConfig>): seq<string> {
    Flatten(Lists(c, items))
  }

  lemma NoNamesYet(c: World, items: seq<DeviceConfig>)
    ensures AllNames(c, items[..0]) == []
    ensures items == [] ==> AllNames(c, items) == []
  {
    assert Lists(c, items[..0]) == [];
    assert items == [] ==> Lists(c, items) == [];
  }

  lemma OneMoreList(c: World, items: seq<DeviceConfig>, i: nat)
    requires i < |items|
    ensures AllNames(c, items[..i + 1]) == AllNames(c, items[..i]) + SelectedNames(c, items[i])
    ensures items[..|items|] == items
  {
    hide SelectedNames;
    var lists := Lists(c, items[..i + 1]);
    assert lists[..|lists| - 1] == Lists(c, items[..i]);
  }

  /** No node of the cluster is selected by both. */
  predicate Disjoint(c: World, a: DeviceConfig, b: DeviceConfig) {
    forall n :: n in c.nodes ==> !(Selects(c, a, n) && Selects(c, b, n))
  }

  predicate PairwiseDisjoint(c: World, items: seq<DeviceConfig>) {
    forall i, j :: 0 <= i < j < |items| ==> Disjoint(c, items[i], items[j])
  }

  method ContainsDuplicates(arr: seq<string>) returns (dup: bool)
    ensures dup <==> !NoDup(arr)
  {
    var visited: map<string, bool> := map[];
    for i := 0 to |arr|
      invariant NoDup(arr[..i])
      invariant forall e :: e in visited <==> e in arr[..i]
    {
      if arr[i] in visited {
        assert exists j :: 0 <= j < i && arr[j] == arr[i];
        return true;
      }
      visited := visited[arr[i] := true];
      assert arr[..i + 1] == arr[..i] + [arr[i]];
    }
    assert arr[..|arr|] == arr;
    return false;
  }

  // ---------- lists of lists of names ----------

  function Elements(s: seq<string>): set<string> {
    set x | x in s
  }

  function Flatten(lists: seq<seq<string>>): seq<string> {
    if lists == [] then [] else Flatten(lists[..|lists| - 1]) + lists[|lists| - 1]
  }

  function Union(lists: seq<seq<string>>): set<string> {
    if lists == [] then {} else Union(lists[..|lists| - 1]) + Elements(lists[|lists| - 1])
  }

  function SumOfSizes(lists: seq<seq<string>>): nat {
    if lists == [] then 0 else SumOfSizes(lists[..|lists| - 1]) + |Elements(lists[|lists| - 1])|
  }

  predicate ListsDisjoint(lists: seq<seq<string>>) {
    forall i, j :: 0 <= i < j < |lists| ==> Elements(lists[i]) !! Elements(lists[j])
  }

  lemma {:induction false} UnionHolds(lists: seq<seq<string>>)
    ensures Union(lists) == Elements(Flatten(lists))
    ensures forall i :: 0 <= i < |lists| ==> Elements(lists[i]) <= Union(lists)
    ensures forall x :: x in Union(lists) ==> exists i :: 0 <= i < |lists| && x in Elements(lists[i])
  {
    if lists != [] {
      var init, last := lists[..|lists| - 1], lists[|lists| - 1];
      UnionHolds(init);
      forall i | 0 <= i < |lists| ensures Elements(lists[i]) <= Union(lists) {
        if i < |init| { assert lists[i] == init[i]; }
      }
      forall x | x in Union(lists) ensures exists i :: 0 <= i < |lists| && x in Elements(lists[i]) {
        if x in Union(init) {
          var i :| 0 <= i < |init| && x in Elements(init[i]);
          assert lists[i] == init[i];
        }
      }
    }
  }

  lemma DisjointPrefix(lists: seq<seq<string>>)
    requires lists != [] && ListsDisjoint(lists)
    ensures ListsDisjoint(lists[..|lists| - 1]) && Union(lists[..|lists| - 1]) !! Elements(lists[|lists| - 1])
  {
    hide Union, Flatten;
    var init, last := lists[..|lists| - 1], lists[|lists| - 1];
    UnionHolds(init);
    forall x | x in Union(init) ensures x !in Elements(last) {
      var i :| 0 <= i < |init| && x in Elements(init[i]);
      assert Elements(lists[i]) !! Elements(lists[|init|]);
    }
    forall i, j | 0 <= i < j < |init| ensures Elements(init[i]) !! Elements(init[j]) {
      assert init[i] == lists[i] && init[j] == lists[j];
    }
  }

  lemma DisjointSnoc(lists: seq<seq<string>>)
    requires lists != []
    ensures ListsDisjoint(lists) <==>
            ListsDisjoint(lists[..|lists| - 1]) && Union(lists[..|lists| - 1]) !! Elements(lists[|lists| - 1])
  {
    hide Union, Flatten, Elements;
    var init, last := lists[..|lists| - 1], lists[|lists| - 1];
    if ListsDisjoint(lists) {
      DisjointPrefix(lists);
    }
    if ListsDisjoint(init) && Union(init) !! Elements(last) {
      UnionHolds(init);
      forall i, j | 0 <= i < j < |lists| ensures Elements(lists[i]) !! Elements(lists[j]) {
        assert lists[i] == init[i];
        if j < |init| { assert lists[j] == init[j]; }
      }
    }
  }

  lemma NoDupConcat(a: seq<string>, b: seq<string>)
    ensures NoDup(a + b) <==> NoDup(a) && NoDup(b) && Elements(a) !! Elements(b)
  {
    var s := a + b;
    if NoDup(s) {
      forall i, j | 0 <= i < j < |a| ensures a[i] != a[j] { assert s[i] == a[i] && s[j] == a[j]; }
      forall i, j | 0 <= i < j < |b| ensures b[i] != b[j] { assert s[|a| + i] == b[i] && s[|a| + j] == b[j]; }
      forall i, j | 0 <= i < |a| && 0 <= j < |b| ensures a[i] != b[j] { assert s[i] == a[i] && s[|a| + j] == b[j]; }
    }
    if NoDup(a) && NoDup(b) && Elements(a) !! Elements(b) {
      forall i, j | 0 <= i < j < |s| ensures s[i] != s[j] {
        if i < |a| <= j { assert a[i] in Elements(a) && b[j - |a|] in Elements(b); }
      }
    }
  }

  /** Given lists without repetition, their concatenation has none exactly when they are disjoint. */
  lemma {:induction false} FlattenIsExact(lists: seq<seq<string>>)
    requires forall i :: 0 <= i < |lists| ==> NoDup(lists[i])
    ensures NoDup(Flatten(lists)) <==> ListsDisjoint(lists)
  {
    if lists != [] {
      var init, last := lists[..|lists| - 1], lists[|lists| - 1];
      FlattenIsExact(init);
      DisjointSnoc(lists);
      UnionHolds(init);
      NoDupConcat(Flatten(init), last);
    }
  }

  lemma {:induction false} SizesAreExact(lists: seq<seq<string>>)
    ensures |Union(lists)| <= SumOfSizes(lists)
    ensures |Union(lists)| == SumOfSizes(lists) <==> ListsDisjoint(lists)
  {
    if lists != [] {
      var init, last := lists[..|lists| - 1], lists[|lists| - 1];
      SizesAreExact(init);
      DisjointSnoc(lists);
      var a, b := Union(init), Elements(last);
      assert |a + b| == |a| + |b| - |a * b|;
      if a !! b {
        assert a * b == {};
      } else {
        var x :| x in a && x in b;
        assert x in a * b;
      }
    }
  }

  // ---------- exactness ----------

  lemma PairwiseDisjointAsLists(c: World, items: seq<DeviceConfig>)
    ensures PairwiseDisjoint(c, items) <==> ListsDisjoint(Lists(c, items))
  {
    var lists := Lists(c, items);
    forall i, j | 0 <= i < j < |items|
      ensures Disjoint(c, items[i], items[j]) <==> Elements(lists[i]) !! Elements(lists[j])
    {
      assert Elements(lists[i]) == SelectedSet(c, items[i]) && Elements(lists[j]) == SelectedSet(c, items[j]);
      DisjointAsSets(c, items[i], items[j]);
    }
  }

  lemma DisjointAsSets(c: World, a: DeviceConfig, b: DeviceConfig)
    ensures Disjoint(c, a, b) <==> SelectedSet(c, a) !! SelectedSet(c, b)
  {
    if SelectedSet(c, a) !! SelectedSet(c, b) {
      forall n | n in c.nodes ensures !(Selects(c, a, n) && Selects(c, b, n)) {
        assert n in SelectedSet(c, a) <==> Selects(c, a, n);
      }
    }
  }

  /** The duplicate scan finds a conflict exactly when two listed DeviceConfigs share a node;
      equally, when the sizes of the selections add up to more than the size of their union. */
  lemma ScanIsExact(c: World, items: seq<DeviceConfig>)
    ensures NoDup(AllNames(c, items)) <==> PairwiseDisjoint(c, items)
    ensures NoDup(AllNames(c, items)) <==> |Union(Lists(c, items))| == SumOfSizes(Lists(c, items))
  {
    PairwiseDisjointAsLists(c, items);
    FlattenIsExact(Lists(c, items));
    SizesAreExact(Lists(c, items));
  }

  // ---------- laws of the verdict ----------

  /** What the validator accepts in the absence of failures: it looks at the whole store. */
  predicate ConflictFree(c: World) {
    PairwiseDisjoint(c, ListDeviceConfigs(c))
  }

  lemma DisjointIsSymmetric(c: World, a: DeviceConfig, b: DeviceConfig)
    ensures Disjoint(c, a, b) <==> Disjoint(c, b, a)
  {
  }

  lemma {:induction false} ConflictFreeMeans(c: World)
    requires Keyed(c)
    ensures ConflictFree(c) <==>
            forall k1, k2 :: k1 in c.dcs && k2 in c.dcs && k1 != k2 ==> Disjoint(c, c.dcs[k1], c.dcs[k2])
  {
    hide ListDeviceConfigs, Disjoint;
    var items := ListDeviceConfigs(c);
    ListedKeysDistinct(c);
    if ConflictFree(c) {
      forall k1, k2 | k1 in c.dcs && k2 in c.dcs && k1 != k2 ensures Disjoint(c, c.dcs[k1], c.dcs[k2]) {
        ListedOnce(c, k1);
        ListedOnce(c, k2);
        var i :| 0 <= i < |items| && items[i] == c.dcs[k1];
        var j :| 0 <= j < |items| && items[j] == c.dcs[k2];
        if i < j {
          assert Disjoint(c, items[i], items[j]);
        } else {
          assert Disjoint(c, items[j], items[i]);
          DisjointIsSymmetric(c, items[j], items[i]);
        }
      }
    }
    if forall k1, k2 :: k1 in c.dcs && k2 in c.dcs && k1 != k2 ==> Disjoint(c, c.dcs[k1], c.dcs[k2]) {
      forall i, j | 0 <= i < j < |items| ensures Disjoint(c, items[i], items[j]) {
        ListedIsStored(c, i);
        ListedIsStored(c, j);
      }
    }
  }

  /** Every node of the smaller cluster is in the larger one, and every DeviceConfig of the
      smaller one is there with a selector at least as weak. */
  predicate Weaker(small: World, large: World) {
    && (forall n :: n in small.nodes ==> n in large.nodes && large.nodes[n] == small.nodes[n])
    && (forall k :: k in small.dcs ==> k in large.dcs)
    && (forall k, n :: k in small.dcs && n in small.nodes && Selects(small, small.dcs[k], n) ==>
          Selects(large, large.dcs[k], n))
  }

  /** Adding nodes or DeviceConfigs, or weakening selectors, never turns a conflict into
      acceptance; removing them or strengthening selectors never turns acceptance into a conflict. */
  lemma {:induction false} VerdictMonotone(small: World, large: World)
    requires Keyed(small)
    requires Keyed(large)
    requires Weaker(small, large) && ConflictFree(large)
    ensures ConflictFree(small)
  {
    ConflictFreeMeans(small);
    ConflictFreeMeans(large);
    forall k1, k2 | k1 in small.dcs && k2 in small.dcs && k1 != k2
      ensures Disjoint(small, small.dcs[k1], small.dcs[k2])
    {
      assert Disjoint(large, large.dcs[k1], large.dcs[k2]);
    }
  }

  /** A selector with more requirements selects fewer nodes. */
  lemma StrongerSelectsFewer(c: World, weak: DeviceConfig, strong: DeviceConfig, n: string)
    requires forall l :: l in Selector(weak) ==> l in Selector(strong) && Selector(strong)[l] == Selector(weak)[l]
    requires Selects(c, strong, n)
    ensures Selects(c, weak, n)
  {
  }
}
