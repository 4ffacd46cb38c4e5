/** Filtering the full snapshot by level, against pruning the traversal. */
module HierDepth {
  import opened Common
  import opened Utf8
  import opened HierModel
  import opened HierMerge

  // ---- the pruned traversal pushes what the filter keeps ----

  lemma {:induction false} UpToConcat(a: Pushes, b: Pushes, m: int)
    ensures UpTo(a + b, m) == UpTo(a, m) + UpTo(b, m)
  {
    hide UpTo;
    if a == [] {
      assert a + b == b;
      UpToNone(m);
    } else {
      var x, rest := a[0], a[1..];
      UpToConcat(rest, b, m);
      assert a == [x] + rest && a + b == [x] + (rest + b);
      UpToCons(x, rest, m);
      UpToCons(x, rest + b, m);
      assert [x] + (UpTo(rest, m) + UpTo(b, m)) == [x] + UpTo(rest, m) + UpTo(b, m);
    }
  }

  lemma UpToNone(m: int)
    ensures UpTo([], m) == []
  {
  }

  lemma UpToCons(x: HierEntry, ps: Pushes, m: int)
    ensures UpTo([x] + ps, m) == if x.level <= m then [x] + UpTo(ps, m) else UpTo(ps, m)
  {
    assert ([x] + ps)[1..] == ps;
  }

  lemma {:induction false} UpToAtLevel(ps: Pushes, level: int, m: int)
    requires forall i | 0 <= i < |ps| :: ps[i].level == level
    ensures UpTo(ps, m) == if level <= m then ps else []
  {
    if ps != [] {
      UpToAtLevel(ps[1..], level, m);
      assert ps == [ps[0]] + ps[1..];
    }
  }

  lemma {:induction false} LeafLevels(full: Bytes, objects: seq<(Bytes, Leaf)>, level: int, visited: set<Bytes>)
    ensures forall i | 0 <= i < |LeafPushes(full, objects, level, visited)| ::
      LeafPushes(full, objects, level, visited)[i].level == level
  {
    if objects != [] {
      var (_, leaf) := objects[0];
      LeafLevels(full, objects[1..], level, visited);
      if leaf.name.Some? {
        LeafLevels(full, objects[1..], level, visited + {leaf.name.value});
      }
    }
  }

  lemma {:induction false} TreeBelow(ms: seq<Module>, parent: Bytes, level: int, m: int)
    requires level > m
    ensures UpTo(TreePushes(ms, parent, level, 0), m) == []
    decreases ms
  {
    if ms != [] {
      ModuleBelow(ms[0], parent, level, m);
      TreeBelow(ms[1..], parent, level, m);
      UpToConcat(ModulePushes(ms[0], parent, level, 0), TreePushes(ms[1..], parent, level, 0), m);
    }
  }

  lemma {:induction false} ModuleBelow(x: Module, parent: Bytes, level: int, m: int)
    requires level > m
    ensures UpTo(ModulePushes(x, parent, level, 0), m) == []
    decreases x
  {
    if x.name.Some? {
      ModuleParts(x, parent, level, m);
      TreeBelow(x.inner, ModulePath(parent, x.name.value), level + 1, m);
    }
  }

  lemma ModuleParts(x: Module, parent: Bytes, level: int, m: int)
    requires x.name.Some?
    ensures
      var full := ModulePath(parent, x.name.value);
      var leaves := LeafPushes(full, Objects(x), level + 1, {});
      UpTo(ModulePushes(x, parent, level, 0), m) ==
        (if level <= m then [HierEntry(full, DefName(x), None, level, -1)] else [])
        + (if level + 1 <= m then leaves else [])
        + UpTo(TreePushes(x.inner, full, level + 1, 0), m)
  {
    var full := ModulePath(parent, x.name.value);
    var self := [HierEntry(full, DefName(x), None, level, -1)];
    var leaves, below := LeafPushes(full, Objects(x), level + 1, {}), TreePushes(x.inner, full, level + 1, 0);
    LeafLevels(full, Objects(x), level + 1, {});
    UpToAtLevel(leaves, level + 1, m);
    UpToAtLevel(self, level, m);
    UpToConcat(self + leaves, below, m);
    UpToConcat(self, leaves, m);
  }

  /** For every depth limit, also a negative one, the traversal pushes exactly what filtering the unlimited one keeps. */
  lemma {:induction false} PruningIsFiltering(ms: seq<Module>, parent: Bytes, level: int, m: int)
    requires m != 0
    ensures TreePushes(ms, parent, level, m) == UpTo(TreePushes(ms, parent, level, 0), m)
    decreases ms
  {
    if level > m {
      TreeBelow(ms, parent, level, m);
    } else if ms != [] {
      ModulePruning(ms[0], parent, level, m);
      PruningIsFiltering(ms[1..], parent, level, m);
      UpToConcat(ModulePushes(ms[0], parent, level, 0), TreePushes(ms[1..], parent, level, 0), m);
    }
  }

  lemma {:induction false} ModulePruning(x: Module, parent: Bytes, level: int, m: int)
    requires m != 0 && level <= m
    ensures ModulePushes(x, parent, level, m) == UpTo(ModulePushes(x, parent, level, 0), m)
    decreases x
  {
    if x.name.Some? {
      ModuleParts(x, parent, level, m);
      PruningIsFiltering(x.inner, ModulePath(parent, x.name.value), level + 1, m);
    }
  }

  // ---- merging and filtering ----

  lemma {:induction false} FirstUpTo(ps: Pushes, path: Bytes, m: int)
    ensures First(ps, path).Some? && First(ps, path).value.level <= m ==> First(UpTo(ps, m), path) == First(ps, path)
    ensures First(UpTo(ps, m), path).Some? ==> First(ps, path).Some? && First(UpTo(ps, m), path).value.level <= m
  {
    if ps != [] {
      FirstUpTo(ps[1..], path, m);
    }
  }

  lemma {:induction false} AnyRegUpTo(ps: Pushes, path: Bytes, m: int)
    ensures AnyReg(UpTo(ps, m), path) <==>
      exists i | 0 <= i < |ps| :: ps[i].path == path && ps[i].sigType == Some(REG) && ps[i].level <= m
  {
    if ps != [] {
      var rest := UpTo(ps[1..], m);
      AnyRegUpTo(ps[1..], path, m);
      if AnyReg(UpTo(ps, m), path) {
        var i :| 0 <= i < |UpTo(ps, m)| && UpTo(ps, m)[i].path == path && UpTo(ps, m)[i].sigType == Some(REG);
        if ps[0].level <= m {
          if i > 0 {
            assert rest[i - 1] == UpTo(ps, m)[i];
          }
        }
      }
      if AnyReg(rest, path) && ps[0].level <= m {
        var i :| 0 <= i < |rest| && rest[i].path == path && rest[i].sigType == Some(REG);
        assert UpTo(ps, m)[i + 1] == rest[i];
      }
      if k :| 0 <= k < |ps| && ps[k].path == path && ps[k].sigType == Some(REG) && ps[k].level <= m {
        if k == 0 {
          assert UpTo(ps, m)[0] == ps[0];
        } else {
          assert ps[1..][k - 1] == ps[k];
        }
      }
    }
  }

  /** The nearest depth limits around `level` that a caller can ask for: 0 means no limit. */
  function LimitBelow(level: int): int {
    if level == 1 then -1 else level - 1
  }

  function LimitAt(level: int): int {
    if level == 0 then 1 else level
  }

  /** No limit that hides the first push of the path shows a later one, and if any push is a reg, so is one near the first. */
  predicate Settled(ps: Pushes, path: Bytes) {
    match First(ps, path)
    case None => true
    case Some(f) =>
      && First(UpTo(ps, LimitBelow(f.level)), path).None?
      && (AnyReg(ps, path) ==> AnyReg(UpTo(ps, LimitAt(f.level)), path))
  }

  ghost predicate SettlesEveryPath(ps: Pushes) {
    forall path: Bytes :: Settled(ps, path)
  }

  ghost predicate AgreeAt(ps: Pushes, m: int) {
    UpTo(Snapshot(ps), m) == Snapshot(UpTo(ps, m))
  }

  lemma {:induction false} UpToElements(s: seq<HierEntry>, m: int)
    requires Ordered(s)
    ensures Ordered(UpTo(s, m))
    ensures forall e :: e in UpTo(s, m) <==> e in s && e.level <= m
  {
    if s != [] {
      UpToElements(s[1..], m);
      var rest := UpTo(s[1..], m);
      forall j | 0 <= j < |rest| ensures rest[j].path != s[0].path && BytesLe(s[0].path, rest[j].path) {
        assert rest[j] in s[1..];
        var k :| 0 <= k < |s[1..]| && s[1..][k] == rest[j];
        assert s[k + 1] == rest[j];
      }
      assert s == [s[0]] + s[1..];
    }
  }

  /** Both sides, entry by entry. */
  lemma AgreeByEntry(ps: Pushes, m: int)
    ensures AgreeAt(ps, m) <==> forall e: HierEntry ::
      (Resolved(ps, e.path) == Some(e) && e.level <= m) <==> Resolved(UpTo(ps, m), e.path) == Some(e)
  {
    var a, b := UpTo(Snapshot(ps), m), Snapshot(UpTo(ps, m));
    SnapshotResolves(ps);
    SnapshotResolves(UpTo(ps, m));
    UpToElements(Snapshot(ps), m);
    assert forall e: HierEntry :: e in a <==> Resolved(ps, e.path) == Some(e) && e.level <= m;
    assert forall e: HierEntry :: e in b <==> Resolved(UpTo(ps, m), e.path) == Some(e);
    if forall e: HierEntry :: (Resolved(ps, e.path) == Some(e) && e.level <= m) <==> Resolved(UpTo(ps, m), e.path) == Some(e) {
      OrderedUnique(a, b);
    }
  }

  lemma SettledAgrees(ps: Pushes, m: int, e: HierEntry)
    requires Settled(ps, e.path) && m != 0
    ensures (Resolved(ps, e.path) == Some(e) && e.level <= m) <==> Resolved(UpTo(ps, m), e.path) == Some(e)
  {
    var path := e.path;
    FirstUpTo(ps, path, m);
    AnyRegUpTo(ps, path, m);
    if First(ps, path).Some? {
      var f := First(ps, path).value;
      AnyRegUpTo(ps, path, LimitAt(f.level));
      if f.level > m {
        NoneBelow(ps, path, LimitBelow(f.level), m);
      }
    }
  }

  lemma NoneBelow(ps: Pushes, path: Bytes, high: int, low: int)
    requires low <= high && First(UpTo(ps, high), path).None?
    ensures First(UpTo(ps, low), path).None?
  {
    UpToTwice(ps, high, low);
    FirstUpTo(UpTo(ps, high), path, low);
  }

  lemma {:induction false} UpToTwice(ps: Pushes, high: int, low: int)
    requires low <= high
    ensures UpTo(UpTo(ps, high), low) == UpTo(ps, low)
  {
    if ps != [] {
      UpToTwice(ps[1..], high, low);
    }
  }

  lemma {:induction false} FirstIn(ps: Pushes, path: Bytes)
    ensures First(ps, path).Some? && First(ps, path).value.sigType == Some(REG) ==> AnyReg(ps, path)
  {
    if ps != [] {
      if ps[0].path == path {
        assert ps[0] == First(ps, path).value;
      } else {
        FirstIn(ps[1..], path);
        if AnyReg(ps[1..], path) {
          var i :| 0 <= i < |ps[1..]| && ps[1..][i].path == path && ps[1..][i].sigType == Some(REG);
          assert ps[i + 1] == ps[1..][i];
        }
      }
    }
  }

  ghost predicate AgreesAtEveryDepth(ps: Pushes) {
    forall m: int | m != 0 :: AgreeAt(ps, m)
  }

  lemma AgreementIsShallow(ps: Pushes, f: HierEntry, m: int)
    requires First(ps, f.path) == Some(f) && m < f.level && AgreeAt(ps, m)
    ensures First(UpTo(ps, m), f.path).None?
  {
    hide AgreeAt, UpTo, AnyReg;
    AgreeByEntry(ps, m);
    FirstUpTo(ps, f.path, m);
    var shallow := Resolved(UpTo(ps, m), f.path);
  }

  lemma AgreementKeepsReg(ps: Pushes, f: HierEntry, m: int)
    requires First(ps, f.path) == Some(f) && f.level <= m && AgreeAt(ps, m) && AnyReg(ps, f.path)
    ensures AnyReg(UpTo(ps, m), f.path)
  {
    hide AgreeAt, UpTo, AnyReg;
    AgreeByEntry(ps, m);
    var e := Resolved(ps, f.path).value;
    assert Resolved(UpTo(ps, m), e.path) == Some(e);
    FirstIn(UpTo(ps, m), f.path);
  }

  lemma AgreementSettles(ps: Pushes, path: Bytes)
    requires AgreesAtEveryDepth(ps)
    ensures Settled(ps, path)
  {
    hide AgreeAt, UpTo, AnyReg;
    if First(ps, path).Some? {
      var f := First(ps, path).value;
      AgreementIsShallow(ps, f, LimitBelow(f.level));
      if AnyReg(ps, path) {
        AgreementKeepsReg(ps, f, LimitAt(f.level));
      }
    }
  }

  /**
   * Filtering the merged snapshot and merging the filtered pushes agree at every depth limit if and
   * only if no path shows up again nearer the root than its first push, nor turns into a reg only
   * deeper down.
   */
  lemma AgreesAtEveryDepthIff(ps: Pushes)
    ensures AgreesAtEveryDepth(ps) <==> SettlesEveryPath(ps)
  {
    if AgreesAtEveryDepth(ps) {
      forall path: Bytes ensures Settled(ps, path) {
        AgreementSettles(ps, path);
      }
    }
    if SettlesEveryPath(ps) {
      forall m: int | m != 0 ensures AgreeAt(ps, m) {
        forall e: HierEntry
          ensures (Resolved(ps, e.path) == Some(e) && e.level <= m) <==> Resolved(UpTo(ps, m), e.path) == Some(e)
        {
          SettledAgrees(ps, m, e);
        }
        AgreeByEntry(ps, m);
      }
    }
  }
}
