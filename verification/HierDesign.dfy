/** What the listing of a design is: read off the design itself, without the traversal. */
module HierDesign {
  import opened Common
  import opened Utf8
  import opened HierModel
  import opened HierMerge
  import opened HierListing
  import opened HierDepth
  import opened HierResults

  // ---- the objects of a design ----

  function Under(parent: Bytes, name: Bytes): Bytes {
    if parent == [] then name else parent + [DOT] + name
  }

  /** A module is listed with the name of its definition, if that is known, and no width. */
  predicate IsModule(m: Module, full: Bytes, level: int, e: HierEntry) {
    && e.path == full && e.level == level && e.bitwidth == -1 && e.sigType == None
    && e.moduleName == if m.defName == Some([]) then None else m.defName
  }

  /** The nets, then the regs, then the memories. */
  function Leaves(m: Module): seq<Leaf> {
    m.nets + m.regs + m.memories
  }

  /** The first object of its name in its module, one level below it, with its width: a net is a wire, others are regs. */
  predicate IsLeaf(m: Module, full: Bytes, level: int, e: HierEntry, j: nat) {
    var leaves := Leaves(m);
    && j < |leaves| && leaves[j].name.Some?
    && (forall i | 0 <= i < j :: leaves[i].name != leaves[j].name)
    && e.path == Under(full, leaves[j].name.value) && e.moduleName == None
    && e.sigType == Some(if j < |m.nets| then [0x77, 0x69, 0x72, 0x65] else [0x72, 0x65, 0x67])
    && e.level == level + 1 && e.bitwidth == leaves[j].width
  }

  ghost predicate IsObject(m: Module, full: Bytes, level: int, e: HierEntry) {
    exists j: nat :: IsLeaf(m, full, level, e, j)
  }

  /** `e` is the module itself, one of its objects, or listed somewhere below. */
  ghost predicate InModule(m: Module, parent: Bytes, level: int, e: HierEntry)
    decreases m
  {
    m.name.Some? &&
    var full := Under(parent, m.name.value);
    IsModule(m, full, level, e) || IsObject(m, full, level, e) || InDesign(m.inner, full, level + 1, e)
  }

  ghost predicate InDesign(ms: seq<Module>, parent: Bytes, level: int, e: HierEntry)
    decreases ms
  {
    exists i :: 0 <= i < |ms| && InModule(ms[i], parent, level, e)
  }

  // ---- designs in which names tell objects apart ----

  ghost predicate ModulesDiffer(ms: seq<Module>) {
    forall i, j | 0 <= i < j < |ms| && ms[i].name.Some? :: ms[i].name != ms[j].name
  }

  /** Neighbouring modules have different names, and none that of an object beside them, all the way down. */
  ghost predicate Distinct(ms: seq<Module>)
    decreases ms
  {
    ModulesDiffer(ms) && forall i | 0 <= i < |ms| :: DistinctModule(ms[i])
  }

  ghost predicate DistinctModule(m: Module)
    decreases m
  {
    && (forall j, k | 0 <= j < |Leaves(m)| && 0 <= k < |m.inner| && Leaves(m)[j].name.Some? :: Leaves(m)[j].name != m.inner[k].name)
    && Distinct(m.inner)
  }

  // ---- the traversal pushes exactly the objects ----

  /** `e` is what the first object of its name pushes. */
  ghost predicate Pushed(objects: seq<(Bytes, Leaf)>, full: Bytes, level: int, e: HierEntry, j: nat) {
    && j < |objects| && objects[j].1.name.Some?
    && (forall i | 0 <= i < j :: objects[i].1.name != objects[j].1.name)
    && e == HierEntry(Under(full, objects[j].1.name.value), None, Some(objects[j].0), level, objects[j].1.width)
  }

  lemma {:induction false} LeafPushesAre(full: Bytes, objects: seq<(Bytes, Leaf)>, level: int, visited: set<Bytes>, e: HierEntry)
    requires full != []
    requires forall j | 0 <= j < |objects| :: PlainName(objects[j].1.name)
    ensures e in LeafPushes(full, objects, level, visited) <==>
      exists j: nat :: Pushed(objects, full, level, e, j) && objects[j].1.name.value !in visited
  {
    if objects != [] {
      var (sigType, leaf) := objects[0];
      var more := if leaf.name.None? || leaf.name.value in visited then visited else visited + {leaf.name.value};
      assert PlainName(objects[0].1.name);
      LeafPushesAre(full, objects[1..], level, more, e);
      if j: nat :| Pushed(objects, full, level, e, j) && objects[j].1.name.value !in visited {
        if j > 0 {
          assert objects[1..][j - 1] == objects[j];
          assert Pushed(objects[1..], full, level, e, j - 1);
        }
      }
      if j: nat :| Pushed(objects[1..], full, level, e, j) && objects[1..][j].1.name.value !in more {
        assert objects[j + 1] == objects[1..][j];
        forall i | 0 <= i < j + 1 ensures objects[i].1.name != objects[j + 1].1.name {
          if i > 0 {
            assert objects[1..][i - 1] == objects[i];
          }
        }
        assert Pushed(objects, full, level, e, j + 1);
      }
      if leaf.name.Some? && leaf.name.value !in visited {
        assert Pushed(objects, full, level, HierEntry(Under(full, leaf.name.value), None, Some(sigType), level, leaf.width), 0);
      }
    }
  }

  lemma PushedLeaf(m: Module, full: Bytes, level: int, e: HierEntry, j: nat)
    ensures Pushed(Objects(m), full, level + 1, e, j) <==> IsLeaf(m, full, level, e, j)
  {
    var os := Objects(m);
    assert |os| == |Leaves(m)|;
    assert forall i | 0 <= i < |os| :: os[i].1 == Leaves(m)[i] && os[i].0 == if i < |m.nets| then WIRE else REG;
  }

  lemma ObjectsAre(m: Module, full: Bytes, level: int, e: HierEntry)
    requires PlainModule(m) && full != []
    ensures e in LeafPushes(full, Objects(m), level + 1, {}) <==> IsObject(m, full, level, e)
  {
    var os := Objects(m);
    assert |os| == |Leaves(m)|;
    assert forall j | 0 <= j < |os| :: os[j].1 == Leaves(m)[j];
    PlainObjects(m);
    LeafPushesAre(full, os, level + 1, {}, e);
    forall j: nat ensures Pushed(os, full, level + 1, e, j) <==> IsLeaf(m, full, level, e, j) {
      PushedLeaf(m, full, level, e, j);
    }
    if IsObject(m, full, level, e) {
      var j: nat :| IsLeaf(m, full, level, e, j);
      assert Pushed(os, full, level + 1, e, j) && os[j].1.name.value !in {};
    }
    if e in LeafPushes(full, os, level + 1, {}) {
      var j: nat :| Pushed(os, full, level + 1, e, j) && os[j].1.name.value !in {};
      assert IsLeaf(m, full, level, e, j);
    }
  }

  lemma PlainObjects(m: Module)
    requires PlainModule(m)
    ensures forall j | 0 <= j < |Objects(m)| :: PlainName(Objects(m)[j].1.name)
    ensures forall j | 0 <= j < |Leaves(m)| :: PlainName(Leaves(m)[j].name)
  {
  }

  lemma {:induction false} ModulePushesAre(m: Module, parent: Bytes, level: int, e: HierEntry)
    requires PlainModule(m)
    ensures e in ModulePushes(m, parent, level, 0) <==> InModule(m, parent, level, e)
    decreases m
  {
    if m.name.Some? {
      var full := Under(parent, m.name.value);
      ObjectsAre(m, full, level, e);
      TreePushesAre(m.inner, full, level + 1, e);
      SelfIs(m, full, level, e);
    }
  }

  lemma SelfIs(m: Module, full: Bytes, level: int, e: HierEntry)
    ensures e == HierEntry(full, DefName(m), None, level, -1) <==> IsModule(m, full, level, e)
  {
  }

  lemma {:induction false} TreePushesAre(ms: seq<Module>, parent: Bytes, level: int, e: HierEntry)
    requires Plain(ms)
    ensures e in TreePushes(ms, parent, level, 0) <==> InDesign(ms, parent, level, e)
    decreases ms
  {
    hide ModulePushes, InModule, PlainModule;
    if ms != [] {
      ModulePushesAre(ms[0], parent, level, e);
      TreePushesAre(ms[1..], parent, level, e);
      if InDesign(ms, parent, level, e) {
        var i :| 0 <= i < |ms| && InModule(ms[i], parent, level, e);
        assert i > 0 ==> ms[1..][i - 1] == ms[i];
      }
      if InDesign(ms[1..], parent, level, e) {
        var i :| 0 <= i < |ms[1..]| && InModule(ms[1..][i], parent, level, e);
        assert ms[i + 1] == ms[1..][i];
      }
    }
  }

  // ---- a path belongs to one object ----

  /** What is listed for a module lies at its path or below it. */
  lemma {:induction false} ModuleBelowPath(m: Module, parent: Bytes, level: int, e: HierEntry)
    requires PlainModule(m) && InModule(m, parent, level, e)
    ensures SelfOrScope(Under(parent, m.name.value), e.path)
    ensures e.path == Under(parent, m.name.value) <==> IsModule(m, Under(parent, m.name.value), level, e)
    decreases m
  {
    var full := Under(parent, m.name.value);
    if IsObject(m, full, level, e) {
      var _ := LeafBelow(m, full, level, e);
    } else if InDesign(m.inner, full, level + 1, e) {
      DesignBelowPath(m.inner, full, level + 1, e);
    }
  }

  lemma LeafBelow(m: Module, full: Bytes, level: int, e: HierEntry) returns (j: nat)
    requires IsObject(m, full, level, e) && full != []
    ensures IsLeaf(m, full, level, e, j)
    ensures e.path != full && SelfOrScope(full, e.path)
  {
    j :| IsLeaf(m, full, level, e, j);
    UnderIsBelow(full, Leaves(m)[j].name.value);
  }

  lemma UnderIsBelow(full: Bytes, name: Bytes)
    requires full != []
    ensures SelfOrScope(full, Under(full, name)) && Under(full, name) != full
  {
    assert Under(full, name)[..|full|] == full;
  }

  lemma {:induction false} DesignBelowPath(ms: seq<Module>, full: Bytes, level: int, e: HierEntry)
    requires Plain(ms) && full != [] && InDesign(ms, full, level, e)
    ensures SelfOrScope(full, e.path) && e.path != full
    decreases ms
  {
    var i :| 0 <= i < |ms| && InModule(ms[i], full, level, e);
    ModuleBelowPath(ms[i], full, level, e);
    UnderIsBelow(full, ms[i].name.value);
    ScopeTransitive(full, Under(full, ms[i].name.value), e.path);
  }

  /** The segment after `parent` is determined by the path. */
  lemma SegmentUnique(parent: Bytes, a: Bytes, b: Bytes, path: Bytes)
    requires a != [] && b != [] && DOT !in a && DOT !in b
    requires SelfOrScope(Under(parent, a), path) && SelfOrScope(Under(parent, b), path)
    ensures a == b
  {
    var start := if parent == [] then 0 else |parent| + 1;
    SegmentAt(parent, a, path, start);
    SegmentAt(parent, b, path, start);
    assert forall k | 0 <= k < |a| :: path[start + k] == a[k] && a[k] != DOT;
    assert forall k | 0 <= k < |b| :: path[start + k] == b[k] && b[k] != DOT;
    assert |a| == |b|;
  }

  lemma SegmentAt(parent: Bytes, a: Bytes, path: Bytes, start: nat)
    requires SelfOrScope(Under(parent, a), path) && start == if parent == [] then 0 else |parent| + 1
    ensures start + |a| <= |path| && path[start..start + |a|] == a
    ensures start + |a| == |path| || path[start + |a|] == DOT
  {
    var full := Under(parent, a);
    assert path[..|full|] == full;
    assert full[start..] == a;
    assert path[start..|full|] == path[..|full|][start..];
  }

  lemma {:induction false} OneInDesign(ms: seq<Module>, parent: Bytes, level: int, x: HierEntry, y: HierEntry)
    requires Plain(ms) && Distinct(ms) && InDesign(ms, parent, level, x) && InDesign(ms, parent, level, y)
    requires x.path == y.path
    ensures x == y
    decreases ms
  {
    hide InModule, DistinctModule;
    var i :| 0 <= i < |ms| && InModule(ms[i], parent, level, x);
    var k :| 0 <= k < |ms| && InModule(ms[k], parent, level, y);
    NamedIn(ms[i], parent, level, x);
    NamedIn(ms[k], parent, level, y);
    ModuleBelowPath(ms[i], parent, level, x);
    ModuleBelowPath(ms[k], parent, level, y);
    SegmentUnique(parent, ms[i].name.value, ms[k].name.value, x.path);
    assert i == k;
    OneInModule(ms[i], parent, level, x, y);
  }

  lemma NamedIn(m: Module, parent: Bytes, level: int, e: HierEntry)
    requires PlainModule(m) && InModule(m, parent, level, e)
    ensures m.name.Some? && m.name.value != [] && DOT !in m.name.value
  {
  }

  lemma {:induction false} OneInModule(m: Module, parent: Bytes, level: int, x: HierEntry, y: HierEntry)
    requires PlainModule(m) && DistinctModule(m) && InModule(m, parent, level, x) && InModule(m, parent, level, y)
    requires x.path == y.path
    ensures x == y
    decreases m
  {
    hide IsObject, InDesign, Leaves;
    var full := Under(parent, m.name.value);
    ModuleBelowPath(m, parent, level, x);
    ModuleBelowPath(m, parent, level, y);
    if !IsModule(m, full, level, x) {
      if IsObject(m, full, level, x) && IsObject(m, full, level, y) {
        SameLeaf(m, full, level, x, y);
      } else if IsObject(m, full, level, x) {
        LeafIsNoScope(m, full, level, x, y);
      } else if IsObject(m, full, level, y) {
        LeafIsNoScope(m, full, level, y, x);
      } else {
        OneInDesign(m.inner, full, level + 1, x, y);
      }
    }
  }

  lemma SameLeaf(m: Module, full: Bytes, level: int, x: HierEntry, y: HierEntry)
    requires PlainModule(m) && full != []
    requires IsObject(m, full, level, x) && IsObject(m, full, level, y) && x.path == y.path
    ensures x == y
  {
    hide IsObject;
    var j := LeafBelow(m, full, level, x);
    var k := LeafBelow(m, full, level, y);
    PlainObjects(m);
    var a, b := Leaves(m)[j].name.value, Leaves(m)[k].name.value;
    SegmentUnique(full, a, b, x.path);
    assert j == k;
  }

  lemma LeafIsNoScope(m: Module, full: Bytes, level: int, x: HierEntry, y: HierEntry)
    requires PlainModule(m) && DistinctModule(m) && full != []
    requires IsObject(m, full, level, x) && InDesign(m.inner, full, level + 1, y)
    ensures x.path != y.path
  {
    hide IsObject;
    var j := LeafBelow(m, full, level, x);
    var k :| 0 <= k < |m.inner| && InModule(m.inner[k], full, level + 1, y);
    PlainObjects(m);
    NamedIn(m.inner[k], full, level + 1, y);
    ModuleBelowPath(m.inner[k], full, level + 1, y);
    if x.path == y.path {
      SegmentUnique(full, Leaves(m)[j].name.value, m.inner[k].name.value, x.path);
    }
  }

  // ---- the listing ----

  /** Where a path belongs to one entry, merging changes nothing. */
  lemma NothingMerged(ps: Pushes, e: HierEntry)
    requires forall x, y | x in ps && y in ps && x.path == y.path :: x == y
    ensures Resolved(ps, e.path) == Some(e) <==> e in ps
  {
    FirstOccurs(ps, e.path);
    if e in ps {
      FirstThere(ps, e);
    }
  }

  lemma {:induction false} FirstThere(ps: Pushes, e: HierEntry)
    requires e in ps
    ensures First(ps, e.path).Some?
  {
    if ps[0].path != e.path {
      FirstThere(ps[1..], e);
    }
  }

  /**
   In a design with plain names in which neighbouring modules and objects have different names, the
   listing holds exactly the named modules with their definition names, and the named nets, regs and
   memories of each with their types and widths, the first of each name, down to the depth limit; once
   each, ordered by path.
   */
  lemma ListsTheDesign(top: seq<Module>, maxLevel: int)
    requires Plain(top) && Distinct(top)
    ensures forall e :: e in Collect(top, maxLevel) <==> InDesign(top, [], 0, e) && (maxLevel == 0 || e.level <= maxLevel)
    ensures Ordered(Collect(top, maxLevel))
  {
    hide InDesign, TreePushes, Distinct, Collect, Resolved;
    var ps := FullPushes(top);
    forall e ensures e in ps <==> InDesign(top, [], 0, e) {
      TreeIs(top, e);
    }
    forall x, y | x in ps && y in ps && x.path == y.path ensures x == y {
      OneInDesign(top, [], 0, x, y);
    }
    SnapshotResolves(ps);
    forall e ensures e in Collect(top, 0) <==> InDesign(top, [], 0, e) {
      NothingMerged(ps, e);
      CollectIs(top);
    }
    CollectIs(top);
    CachedIsPruned(top, maxLevel);
    if maxLevel != 0 {
      UpToElements(Collect(top, 0), maxLevel);
    }
  }

  lemma TreeIs(top: seq<Module>, e: HierEntry)
    requires Plain(top)
    ensures e in FullPushes(top) <==> InDesign(top, [], 0, e)
  {
    TreePushesAre(top, [], 0, e);
  }

  lemma CollectIs(top: seq<Module>)
    ensures Collect(top, 0) == Snapshot(FullPushes(top))
  {
  }
}
