/**
 * The subtree of some zones, level by level, and its deletion from the
 * deepest level up. Parent links come from the database and may form cycles.
 */
module ZoneLevels {
  import opened Wrappers

  type Id = nat

  datatype Zone = Zone(id: Id, parentId: Option<Id>)

  /** The id is the primary key of the table. */
  predicate UniqueIds(zones: seq<Zone>) { forall i, j :: 0 <= i < j < |zones| ==> zones[i].id != zones[j].id }

  predicate Distinct(s: seq<Id>) { forall i, j :: 0 <= i < j < |s| ==> s[i] != s[j] }

  predicate IsChild(zones: seq<Zone>, c: Id, p: Id) { exists i :: 0 <= i < |zones| && zones[i] == Zone(c, Some(p)) }

  // ----- The shortest way from a root -------------------------------------

  /** `path` leads from the root it starts with, each zone to one of its children, and ends in `id`. */
  predicate IsPath(zones: seq<Zone>, roots: seq<Id>, path: seq<Id>, id: Id) {
    && path != [] && path[0] in roots && path[|path| - 1] == id
    && forall k :: 0 <= k < |path| - 1 ==> IsChild(zones, path[k + 1], path[k])
  }

  /** There is a way of `n` links from a root. */
  ghost predicate Reach(zones: seq<Zone>, roots: seq<Id>, id: Id, n: nat) {
    exists path :: |path| == n + 1 && IsPath(zones, roots, path, id)
  }

  /** The shortest way has `n` links. */
  ghost predicate Distance(zones: seq<Zone>, roots: seq<Id>, id: Id, n: nat) {
    Reach(zones, roots, id, n) && forall m: nat :: m < n ==> !Reach(zones, roots, id, m)
  }

  lemma RootsAreReached(zones: seq<Zone>, roots: seq<Id>, id: Id)
    ensures Reach(zones, roots, id, 0) <==> id in roots
  {
    if id in roots { assert IsPath(zones, roots, [id], id); }
  }

  lemma ReachNext(zones: seq<Zone>, roots: seq<Id>, id: Id, n: nat)
    ensures Reach(zones, roots, id, n + 1) <==> exists p :: IsChild(zones, id, p) && Reach(zones, roots, p, n)
  {
    if Reach(zones, roots, id, n + 1) {
      var path :| |path| == n + 2 && IsPath(zones, roots, path, id);
      assert IsPath(zones, roots, path[..n + 1], path[n]);
      assert IsChild(zones, path[n + 1], path[n]);
    }
    if p :| IsChild(zones, id, p) && Reach(zones, roots, p, n) {
      var path :| |path| == n + 1 && IsPath(zones, roots, path, p);
      assert IsPath(zones, roots, path + [id], id);
    }
  }

  lemma {:induction false} DistanceExists(zones: seq<Zone>, roots: seq<Id>, id: Id, n: nat)
    requires Reach(zones, roots, id, n)
    ensures exists m: nat :: m <= n && Distance(zones, roots, id, m)
  {
    if m: nat :| m < n && Reach(zones, roots, id, m) { DistanceExists(zones, roots, id, m); }
    else { assert Distance(zones, roots, id, n); }
  }

  lemma DistanceNext(zones: seq<Zone>, roots: seq<Id>, id: Id, n: nat)
    ensures Distance(zones, roots, id, n + 1) <==>
              (exists p :: IsChild(zones, id, p) && Distance(zones, roots, p, n))
              && forall m: nat :: m <= n ==> !Distance(zones, roots, id, m)
  {
    ReachNext(zones, roots, id, n);
    if Distance(zones, roots, id, n + 1) {
      var p :| IsChild(zones, id, p) && Reach(zones, roots, p, n);
      forall m: nat | m < n ensures !Reach(zones, roots, p, m) { ReachNext(zones, roots, id, m); }
      assert Distance(zones, roots, p, n);
    }
    if (exists p :: IsChild(zones, id, p) && Distance(zones, roots, p, n))
      && forall m: nat :: m <= n ==> !Distance(zones, roots, id, m) {
      forall m: nat | m < n + 1 ensures !Reach(zones, roots, id, m) {
        if Reach(zones, roots, id, m) { DistanceExists(zones, roots, id, m); }
      }
    }
  }

  // ----- The collections of the code ---------------------------------------

  function ChildrenOf(zones: seq<Zone>, p: Id): seq<Id> {
    if zones == [] then [] else (if zones[0].parentId == Some(p) then [zones[0].id] else []) + ChildrenOf(zones[1..], p)
  }

  lemma {:induction false} ChildrenAppend(zones: seq<Zone>, z: Zone, p: Id)
    ensures ChildrenOf(zones + [z], p) == ChildrenOf(zones, p) + if z.parentId == Some(p) then [z.id] else []
  {
    if zones == [] {
      assert zones + [z] == [z];
      assert ChildrenOf([z][1..], p) == [];
    } else {
      var own := if zones[0].parentId == Some(p) then [zones[0].id] else [];
      assert (zones + [z])[1..] == zones[1..] + [z];
      assert ChildrenOf(zones + [z], p) == own + ChildrenOf(zones[1..] + [z], p);
      ChildrenAppend(zones[1..], z, p);
    }
  }

  lemma {:induction false} ChildrenAre(zones: seq<Zone>, p: Id, c: Id)
    ensures c in ChildrenOf(zones, p) <==> IsChild(zones, c, p)
  {
    if zones != [] {
      ChildrenAre(zones[1..], p, c);
      if i :| 0 <= i < |zones| && zones[i] == Zone(c, Some(p)) {
        assert i > 0 ==> zones[1..][i - 1] == Zone(c, Some(p));
      }
      if i :| 0 <= i < |zones| - 1 && zones[1..][i] == Zone(c, Some(p)) { assert zones[i + 1] == Zone(c, Some(p)); }
    }
  }

  lemma {:induction false} ChildrenAreDistinct(zones: seq<Zone>, p: Id)
    requires UniqueIds(zones)
    ensures Distinct(ChildrenOf(zones, p))
  {
    if zones != [] {
      ChildrenAreDistinct(zones[1..], p);
      ChildrenAre(zones[1..], p, zones[0].id);
    }
  }

  function Unique(ids: seq<Id>): seq<Id> {
    if ids == [] then []
    else
      var rest := Unique(ids[..|ids| - 1]);
      if ids[|ids| - 1] in rest then rest else rest + [ids[|ids| - 1]]
  }

  lemma {:induction false} UniqueIsDistinct(ids: seq<Id>)
    ensures Distinct(Unique(ids)) && forall id :: id in Unique(ids) <==> id in ids
  {
    if ids != [] {
      UniqueIsDistinct(ids[..|ids| - 1]);
      assert ids == ids[..|ids| - 1] + [ids[|ids| - 1]];
    }
  }

  function Unvisited(ids: seq<Id>, visited: set<Id>): seq<Id> {
    if ids == [] then [] else (if ids[0] in visited then [] else [ids[0]]) + Unvisited(ids[1..], visited)
  }

  lemma {:induction false} UnvisitedKeeps(ids: seq<Id>, visited: set<Id>)
    ensures forall id :: id in Unvisited(ids, visited) <==> id in ids && id !in visited
    ensures Distinct(ids) ==> Distinct(Unvisited(ids, visited))
  {
    if ids != [] { UnvisitedKeeps(ids[1..], visited); }
  }

  function AllChildren(zones: seq<Zone>, level: seq<Id>): seq<Id> {
    if level == [] then [] else ChildrenOf(zones, level[0]) + AllChildren(zones, level[1..])
  }

  lemma {:induction false} AllChildrenAre(zones: seq<Zone>, level: seq<Id>, c: Id)
    ensures c in AllChildren(zones, level) <==> exists p :: p in level && IsChild(zones, c, p)
  {
    if level != [] {
      AllChildrenAre(zones, level[1..], c);
      ChildrenAre(zones, level[0], c);
    }
  }

  lemma OneParent(zones: seq<Zone>, c: Id, p: Id, q: Id)
    requires UniqueIds(zones) && IsChild(zones, c, p) && IsChild(zones, c, q)
    ensures p == q
  {
  }

  lemma DistinctConcat(a: seq<Id>, b: seq<Id>)
    requires Distinct(a) && Distinct(b) && forall c :: c in a ==> c !in b
    ensures Distinct(a + b)
  {
    forall i, j | 0 <= i < j < |a + b| ensures (a + b)[i] != (a + b)[j] {
      if i < |a| <= j { assert a[i] in a && b[j - |a|] in b; }
    }
  }

  lemma {:induction false} AllChildrenAreDistinct(zones: seq<Zone>, level: seq<Id>)
    requires UniqueIds(zones) && Distinct(level)
    ensures Distinct(AllChildren(zones, level))
  {
    if level != [] {
      var own, rest := ChildrenOf(zones, level[0]), AllChildren(zones, level[1..]);
      ChildrenAreDistinct(zones, level[0]);
      AllChildrenAreDistinct(zones, level[1..]);
      forall c | c in own ensures c !in rest {
        ChildrenAre(zones, level[0], c);
        AllChildrenAre(zones, level[1..], c);
        if p :| p in level[1..] && IsChild(zones, c, p) { OneParent(zones, c, level[0], p); }
      }
      DistinctConcat(own, rest);
    }
  }

  // ----- The levels ---------------------------------------------------------

  /** Level n holds, once each, exactly the zones whose shortest way from a root has n links. */
  ghost predicate LevelsUpTo(zones: seq<Zone>, roots: seq<Id>, levels: seq<seq<Id>>) {
    forall n :: 0 <= n < |levels| ==>
      levels[n] != [] && Distinct(levels[n]) && forall id :: id in levels[n] <==> Distance(zones, roots, id, n)
  }

  /** And nothing is reached beyond the last. */
  ghost predicate IsLevels(zones: seq<Zone>, roots: seq<Id>, levels: seq<seq<Id>>) {
    LevelsUpTo(zones, roots, levels) && forall id, n: nat :: Distance(zones, roots, id, n) ==> n < |levels|
  }

  ghost predicate IsNext(zones: seq<Zone>, roots: seq<Id>, levels: seq<seq<Id>>, next: seq<Id>) {
    forall id :: id in next <==>
      if levels == [] then id in roots else exists p :: IsChild(zones, id, p) && Distance(zones, roots, p, |levels| - 1)
  }

  ghost predicate IsVisited(zones: seq<Zone>, roots: seq<Id>, levels: seq<seq<Id>>, visited: set<Id>) {
    forall id :: id in visited <==> exists m: nat :: m < |levels| && Distance(zones, roots, id, m)
  }

  lemma LevelIsDistance(zones: seq<Zone>, roots: seq<Id>, levels: seq<seq<Id>>, next: seq<Id>, visited: set<Id>, id: Id)
    requires IsNext(zones, roots, levels, next) && IsVisited(zones, roots, levels, visited)
    ensures id in next && id !in visited <==> Distance(zones, roots, id, |levels|)
  {
    if levels == [] { RootsAreReached(zones, roots, id); }
    else { DistanceNext(zones, roots, id, |levels| - 1); }
  }

  lemma {:induction false} NothingBeyond(zones: seq<Zone>, roots: seq<Id>, last: nat, id: Id, n: nat)
    requires (forall x :: !Distance(zones, roots, x, last)) && last <= n
    ensures !Distance(zones, roots, id, n)
    decreases n
  {
    if last < n {
      DistanceNext(zones, roots, id, n - 1);
      if Distance(zones, roots, id, n) {
        var p :| IsChild(zones, id, p) && Distance(zones, roots, p, n - 1);
        NothingBeyond(zones, roots, last, p, n - 1);
      }
    }
  }

  function Get(table: map<Id, seq<Id>>, p: Id): seq<Id> { if p in table then table[p] else [] }

  function WithZone(table: map<Id, seq<Id>>, z: Zone): map<Id, seq<Id>> {
    if z.parentId.Some? then table[z.parentId.value := Get(table, z.parentId.value) + [z.id]] else table
  }

  lemma GroupsGrow(zones: seq<Zone>, z: Zone, before: map<Id, seq<Id>>, after: map<Id, seq<Id>>)
    requires (forall p :: Get(before, p) == ChildrenOf(zones, p)) && after == WithZone(before, z)
    ensures forall p :: Get(after, p) == ChildrenOf(zones + [z], p)
  {
    forall p: Id ensures Get(after, p) == ChildrenOf(zones + [z], p) { ChildrenAppend(zones, z, p); }
  }

  method GroupByParent(zones: seq<Zone>) returns (childrenByParent: map<Id, seq<Id>>)
    ensures forall p :: Get(childrenByParent, p) == ChildrenOf(zones, p)
  {
    childrenByParent := map[];
    for n := 0 to |zones|
      invariant forall p :: Get(childrenByParent, p) == ChildrenOf(zones[..n], p)
    {
      var z := zones[n];
      ghost var before := childrenByParent;
      if z.parentId.Some? {
        childrenByParent := childrenByParent[z.parentId.value := Get(childrenByParent, z.parentId.value) + [z.id]];
      }
      assert zones[..n + 1] == zones[..n] + [z];
      GroupsGrow(zones[..n], z, before, childrenByParent);
    }
    assert zones[..|zones|] == zones;
  }

  function FlatMap(level: seq<Id>, table: map<Id, seq<Id>>): seq<Id> {
    if level == [] then [] else Get(table, level[0]) + FlatMap(level[1..], table)
  }

  lemma {:induction false} FlatMapIsAllChildren(zones: seq<Zone>, level: seq<Id>, table: map<Id, seq<Id>>)
    requires forall p :: Get(table, p) == ChildrenOf(zones, p)
    ensures FlatMap(level, table) == AllChildren(zones, level)
  {
    if level != [] { FlatMapIsAllChildren(zones, level[1..], table); }
  }

  /** Everything a level can hold: the roots and the zones of the table. */
  function Known(zones: seq<Zone>, roots: seq<Id>): set<Id> { (set r | r in roots) + (set z | z in zones :: z.id) }

  lemma DistanceIsKnown(zones: seq<Zone>, roots: seq<Id>, id: Id, n: nat)
    requires Distance(zones, roots, id, n)
    ensures id in Known(zones, roots)
  {
    if n == 0 { RootsAreReached(zones, roots, id); }
    else {
      ReachNext(zones, roots, id, n - 1);
      var p :| IsChild(zones, id, p) && Reach(zones, roots, p, n - 1);
      var i :| 0 <= i < |zones| && zones[i] == Zone(id, Some(p));
      assert zones[i] in zones;
    }
  }

  /** One turn of the loop keeps its invariant. */
  lemma LevelStep(zones: seq<Zone>, roots: seq<Id>, levels: seq<seq<Id>>, next: seq<Id>, visited: set<Id>,
                  level: seq<Id>)
    requires UniqueIds(zones) && LevelsUpTo(zones, roots, levels) && IsNext(zones, roots, levels, next)
    requires IsVisited(zones, roots, levels, visited) && Distinct(next) && level == Unvisited(next, visited)
             && level != []
    ensures var more := levels + [level];
            && LevelsUpTo(zones, roots, more) && IsNext(zones, roots, more, AllChildren(zones, level))
            && IsVisited(zones, roots, more, visited + set id | id in level) && Distinct(AllChildren(zones, level))
  {
    UnvisitedKeeps(next, visited);
    forall id ensures id in level <==> Distance(zones, roots, id, |levels|) {
      LevelIsDistance(zones, roots, levels, next, visited, id);
    }
    forall id
      ensures id in AllChildren(zones, level) <==>
              exists p :: IsChild(zones, id, p) && Distance(zones, roots, p, |levels|)
    {
      AllChildrenAre(zones, level, id);
    }
    AllChildrenAreDistinct(zones, level);
  }

  /** A level that is not empty visits some zone for the first time. */
  lemma LevelIsNew(zones: seq<Zone>, roots: seq<Id>, levels: seq<seq<Id>>, next: seq<Id>, visited: set<Id>,
                   level: seq<Id>)
    requires IsNext(zones, roots, levels, next) && IsVisited(zones, roots, levels, visited)
    requires level == Unvisited(next, visited) && level != []
    ensures level[0] in Known(zones, roots) && level[0] !in visited
    ensures Known(zones, roots) - (visited + set id | id in level) < Known(zones, roots) - visited
  {
    UnvisitedKeeps(next, visited);
    assert level[0] in level;
    LevelIsDistance(zones, roots, levels, next, visited, level[0]);
    DistanceIsKnown(zones, roots, level[0], |levels|);
    assert level[0] in Known(zones, roots) - visited;
  }

  /**
   * Terminates on any parent links, and puts every zone that can be reached at
   * its shortest distance from the roots.
   */
  method CollectZoneSubtree(zones: seq<Zone>, rootIds: seq<Id>) returns (levels: seq<seq<Id>>)
    requires UniqueIds(zones)
    ensures IsLevels(zones, rootIds, levels)
  {
    var childrenByParent := GroupByParent(zones);
    levels := [];
    var currentLevel := Unique(rootIds);
    UniqueIsDistinct(rootIds);
    var visited: set<Id> := {};
    ghost var ended := false;
    while currentLevel != []
      invariant LevelsUpTo(zones, rootIds, levels) && IsNext(zones, rootIds, levels, currentLevel)
      invariant IsVisited(zones, rootIds, levels, visited) && Distinct(currentLevel)
      decreases Known(zones, rootIds) - visited
    {
      var level := Unvisited(currentLevel, visited);
      UnvisitedKeeps(currentLevel, visited);
      if level == [] { break; }
      LevelStep(zones, rootIds, levels, currentLevel, visited, level);
      LevelIsNew(zones, rootIds, levels, currentLevel, visited, level);
      FlatMapIsAllChildren(zones, level, childrenByParent);
      levels := levels + [level];
      visited := visited + set id | id in level;
      currentLevel := FlatMap(level, childrenByParent);
    }
    LastLevel(zones, rootIds, levels, currentLevel, visited);
  }

  lemma LastLevel(zones: seq<Zone>, roots: seq<Id>, levels: seq<seq<Id>>, next: seq<Id>, visited: set<Id>)
    requires IsNext(zones, roots, levels, next) && IsVisited(zones, roots, levels, visited)
    requires forall id :: id in next ==> id in visited
    ensures forall id, n: nat :: Distance(zones, roots, id, n) ==> n < |levels|
  {
    forall id
      ensures !Distance(zones, roots, id, |levels|)
    {
      LevelIsDistance(zones, roots, levels, next, visited, id);
    }
    forall id, n: nat | Distance(zones, roots, id, n) ensures n < |levels| {
      if n >= |levels| { NothingBeyond(zones, roots, |levels|, id, n); }
    }
  }

  // ----- What the levels mean ----------------------------------------------

  ghost predicate Reachable(zones: seq<Zone>, roots: seq<Id>, id: Id) { exists n: nat :: Reach(zones, roots, id, n) }

  predicate Listed(levels: seq<seq<Id>>, id: Id) { exists n :: 0 <= n < |levels| && id in levels[n] }

  /** The levels list exactly the zones that can be reached, each on one level only. */
  lemma ListedIffReachable(zones: seq<Zone>, roots: seq<Id>, levels: seq<seq<Id>>, id: Id)
    requires IsLevels(zones, roots, levels)
    ensures Listed(levels, id) <==> Reachable(zones, roots, id)
    ensures forall m, n :: 0 <= m < |levels| && 0 <= n < |levels| && id in levels[m] && id in levels[n] ==> m == n
  {
    if Reachable(zones, roots, id) {
      var n: nat :| Reach(zones, roots, id, n);
      DistanceExists(zones, roots, id, n);
      var m: nat :| m <= n && Distance(zones, roots, id, m);
      assert m < |levels| && id in levels[m];
    }
    if Listed(levels, id) {
      var n :| 0 <= n < |levels| && id in levels[n];
      assert Distance(zones, roots, id, n);
    }
  }

  /** A zone that is no root stands exactly one level below its parent. */
  lemma OneBelowParent(zones: seq<Zone>, roots: seq<Id>, levels: seq<seq<Id>>, n: nat, c: Id, p: Id)
    requires UniqueIds(zones) && IsLevels(zones, roots, levels) && n < |levels| && c in levels[n] && c !in roots
             && IsChild(zones, c, p)
    ensures n > 0 && p in levels[n - 1]
  {
    assert Distance(zones, roots, c, n);
    RootsAreReached(zones, roots, c);
    DistanceNext(zones, roots, c, n - 1);
    var q :| IsChild(zones, c, q) && Distance(zones, roots, q, n - 1);
    OneParent(zones, c, p, q);
  }

  // ----- Deletion ------------------------------------------------------------

  function Without(zones: seq<Zone>, gone: seq<Id>): seq<Zone> {
    if zones == [] then [] else (if zones[0].id in gone then [] else [zones[0]]) + Without(zones[1..], gone)
  }

  lemma {:induction false} WithoutKeeps(zones: seq<Zone>, gone: seq<Id>, z: Zone)
    ensures z in Without(zones, gone) <==> z in zones && z.id !in gone
  {
    if zones != [] {
      WithoutKeeps(zones[1..], gone, z);
      assert z in zones <==> z == zones[0] || z in zones[1..];
    }
  }

  /** What is left just before level `n` is deleted, the deeper levels being gone. */
  predicate LeftBefore(zones: seq<Zone>, levels: seq<seq<Id>>, n: int, z: Zone) {
    z in zones && !exists m :: 0 <= m < |levels| && n < m && z.id in levels[m]
  }

  /** When a zone is deleted, no zone that is not a root still names it as its parent. */
  lemma NoChildLeftBehind(zones: seq<Zone>, roots: seq<Id>, levels: seq<seq<Id>>, n: nat, p: Id, c: Zone)
    requires UniqueIds(zones) && IsLevels(zones, roots, levels) && n < |levels| && p in levels[n]
    requires LeftBefore(zones, levels, n, c) && c.parentId == Some(p)
    ensures c.id in roots
  {
    var i :| 0 <= i < |zones| && zones[i] == c;
    assert IsChild(zones, c.id, p);
    assert Reach(zones, roots, p, n) by { assert Distance(zones, roots, p, n); }
    ReachNext(zones, roots, c.id, n);
    ListedIffReachable(zones, roots, levels, c.id);
    var m :| 0 <= m < |levels| && c.id in levels[m];
    if c.id !in roots {
      OneBelowParent(zones, roots, levels, m, c.id, p);
      ListedIffReachable(zones, roots, levels, p);
    }
  }

  /** The table while the deletion runs: before each level goes, no other zone but a root hangs from it. */
  method DeleteDeepestFirst(zones: seq<Zone>, ghost roots: seq<Id>, levels: seq<seq<Id>>) returns (left: seq<Zone>)
    requires UniqueIds(zones) && IsLevels(zones, roots, levels)
    ensures forall z :: z in left <==> z in zones && !Reachable(zones, roots, z.id)
    ensures forall z :: z in left && z.parentId.Some? ==> !Reachable(zones, roots, z.parentId.value)
  {
    left := zones;
    var n := |levels|;
    while n > 0
      invariant n <= |levels|
      invariant forall z :: z in left <==> LeftBefore(zones, levels, n - 1, z)
    {
      n := n - 1;
      assert forall c, p :: c in left && p in levels[n] && c.parentId == Some(p) ==> c.id in roots by {
        forall c, p | c in left && p in levels[n] && c.parentId == Some(p) ensures c.id in roots {
          NoChildLeftBehind(zones, roots, levels, n, p, c);
        }
      }
      forall z
        ensures z in Without(left, levels[n]) <==> LeftBefore(zones, levels, n - 1, z)
      {
        WithoutKeeps(left, levels[n], z);
      }
      left := Without(left, levels[n]);
    }
    forall z ensures z in left <==> z in zones && !Reachable(zones, roots, z.id) {
      ListedIffReachable(zones, roots, levels, z.id);
      assert LeftBefore(zones, levels, -1, z) <==> z in zones && !Listed(levels, z.id);
    }
    forall z | z in left && z.parentId.Some? ensures !Reachable(zones, roots, z.parentId.value) {
      NoOrphan(zones, roots, z);
    }
  }

  /** A child of a zone that is reached is reached. */
  lemma NoOrphan(zones: seq<Zone>, roots: seq<Id>, z: Zone)
    requires z in zones && z.parentId.Some? && !Reachable(zones, roots, z.id)
    ensures !Reachable(zones, roots, z.parentId.value)
  {
    if n: nat :| Reach(zones, roots, z.parentId.value, n) {
      var i :| 0 <= i < |zones| && zones[i] == z;
      assert IsChild(zones, z.id, z.parentId.value);
      ReachNext(zones, roots, z.id, n);
    }
  }
}
