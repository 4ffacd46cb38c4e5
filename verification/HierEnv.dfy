/** The collector as it runs: a list and a set of seen paths, filled by a recursive walk. */
module HierEnv {
  import opened Common
  import opened Utf8
  import opened HierModel
  import opened HierMerge

  // ---- traversal in place ----

  class HierarchyCollector {
    var entries: seq<HierEntry>
    var seenPaths: set<Bytes>

    ghost predicate Valid()
      reads this
    {
      forall p: Bytes :: p in seenPaths <==> PathIn(entries, p)
    }

    constructor ()
      ensures Valid() && entries == []
    {
      entries, seenPaths := [], {};
    }

    method PushEntry(e: HierEntry)
      requires Valid()
      modifies this
      ensures Valid() && entries == Push(old(entries), e)
    {
      if e.path in seenPaths {
        if e.sigType == Some(REG) {
          UpgradeExisting(e.path);
        }
        return;
      }
      seenPaths := seenPaths + {e.path};
      PathInSnoc(entries, e);
      entries := entries + [e];
    }

    lemma PathInSnoc(es: seq<HierEntry>, e: HierEntry)
      ensures forall p: Bytes :: PathIn(es + [e], p) <==> PathIn(es, p) || p == e.path
    {
      forall p: Bytes ensures PathIn(es + [e], p) <==> PathIn(es, p) || p == e.path {
        if PathIn(es, p) {
          var i :| 0 <= i < |es| && es[i].path == p;
          assert (es + [e])[i].path == p;
        }
        assert (es + [e])[|es|].path == e.path;
      }
    }

    /** The search for the existing entry and the change of its type. */
    method UpgradeExisting(path: Bytes)
      requires Valid()
      modifies this`entries
      ensures Valid() && entries == Upgrade(old(entries), path)
    {
      ghost var before := entries;
      var i := 0;
      while i < |entries| && entries[i].path != path
        invariant 0 <= i <= |entries| && entries == before
        invariant Upgrade(before, path) == before[..i] + Upgrade(before[i..], path)
      {
        assert before[i..][1..] == before[i + 1..];
        i := i + 1;
      }
      if i < |entries| {
        assert before[i..][1..] == before[i + 1..];
        entries := entries[..i] + [entries[i].(sigType := Some(REG))] + entries[i + 1..];
        assert entries == Upgrade(before, path);
      }
      PathInUpgrade(before, path);
    }

    lemma PathInUpgrade(es: seq<HierEntry>, path: Bytes)
      ensures forall p: Bytes :: PathIn(Upgrade(es, path), p) <==> PathIn(es, p)
    {
      UpgradeEffect(es, path);
      forall p: Bytes ensures PathIn(es, p) <==> PathIn(Upgrade(es, path), p) {
        if PathIn(es, p) {
          var k :| 0 <= k < |es| && es[k].path == p;
          assert Upgrade(es, path)[k].path == p;
        }
      }
    }

    /** The nets, regs and memories of one module. */
    method CollectLeaves(full: Bytes, objects: seq<(Bytes, Leaf)>, level: int)
      requires Valid()
      modifies this
      ensures Valid() && entries == PushAll(old(entries), LeafPushes(full, objects, level, {}))
    {
      var visited: set<Bytes> := {};
      var i := 0;
      ghost var goal := PushAll(entries, LeafPushes(full, objects, level, {}));
      while i < |objects|
        invariant 0 <= i <= |objects| && Valid()
        invariant goal == PushAll(entries, LeafPushes(full, objects[i..], level, visited))
      {
        hide Push;
        var (sigType, leaf) := objects[i];
        assert objects[i..][1..] == objects[i + 1..];
        if leaf.name.Some? && leaf.name.value !in visited {
          visited := visited + {leaf.name.value};
          var e := HierEntry(LeafPath(full, leaf.name.value), None, Some(sigType), level, leaf.width);
          assert ([e] + LeafPushes(full, objects[i + 1..], level, visited))[1..] == LeafPushes(full, objects[i + 1..], level, visited);
          PushEntry(e);
        }
        i := i + 1;
      }
    }

    /** The recursive traversal: one loop over the modules of a scope. */
    method CollectRecursive(ms: seq<Module>, parent: Bytes, level: int, maxLevel: int)
      requires Valid()
      modifies this
      ensures Valid() && entries == PushAll(old(entries), TreePushes(ms, parent, level, maxLevel))
      decreases ms, 0
    {
      hide Push, LeafPushes, Objects;
      if maxLevel != 0 && level > maxLevel {
        return;
      }
      ghost var goal := PushAll(entries, TreePushes(ms, parent, level, maxLevel));
      var i := 0;
      while i < |ms|
        invariant 0 <= i <= |ms| && Valid()
        invariant goal == PushAll(entries, TreePushes(ms[i..], parent, level, maxLevel))
      {
        assert ms[i..][1..] == ms[i + 1..];
        PushAllConcat(entries, ModulePushes(ms[i], parent, level, maxLevel), TreePushes(ms[i + 1..], parent, level, maxLevel));
        if ms[i].name.Some? {
          CollectModule(ms[i], parent, level, maxLevel);
        }
        i := i + 1;
      }
    }

    method CollectModule(m: Module, parent: Bytes, level: int, maxLevel: int)
      requires Valid() && m.name.Some?
      modifies this
      ensures Valid() && entries == PushAll(old(entries), ModulePushes(m, parent, level, maxLevel))
      decreases m, 1
    {
      var full := if parent == [] then m.name.value else parent + [DOT] + m.name.value;
      var self := HierEntry(full, if m.defName == Some([]) then None else m.defName, None, level, -1);
      ghost var leaves := if LeavesWanted(level, maxLevel) then LeafPushes(full, Objects(m), level + 1, {}) else [];
      ghost var below := TreePushes(m.inner, full, level + 1, maxLevel);
      PushAllConcat(entries, [self] + leaves, below);
      PushAllConcat(entries, [self], leaves);
      PushAllOne(entries, self);
      PushEntry(self);
      if maxLevel == 0 || level < maxLevel {
        CollectLeaves(full, Objects(m), level + 1);
      }
      CollectRecursive(m.inner, full, level + 1, maxLevel);
    }

    lemma PushAllOne(es: seq<HierEntry>, e: HierEntry)
      ensures PushAll(es, [e]) == Push(es, e)
    {
      hide Push;
      assert [e][1..] == [];
    }
  }

  method CollectHierarchyEntries(top: seq<Module>, maxLevel: int) returns (sorted: seq<HierEntry>)
    ensures sorted == Collect(top, maxLevel)
  {
    var c := new HierarchyCollector();
    c.CollectRecursive(top, [], 0, maxLevel);
    sorted := Sort(c.entries);
  }
}
