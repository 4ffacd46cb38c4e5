/** The cached snapshot filtered by level is the depth-limited traversal, for designs with plain names. */
module HierResults {
  import opened Common
  import opened Utf8
  import opened HierModel
  import opened HierMerge
  import opened HierDepth

  predicate PlainName(name: Option<Bytes>) {
    name.Some? ==> name.value != [] && DOT !in name.value
  }

  predicate PlainLeaves(leaves: seq<Leaf>) {
    forall i | 0 <= i < |leaves| :: PlainName(leaves[i].name)
  }

  /** No object of the design has an empty name or one with a dot in it. */
  predicate Plain(ms: seq<Module>) {
    forall i | 0 <= i < |ms| :: PlainModule(ms[i])
  }

  predicate PlainModule(m: Module) {
    && PlainName(m.name)
    && PlainLeaves(m.nets) && PlainLeaves(m.regs) && PlainLeaves(m.memories)
    && Plain(m.inner)
  }

  function Dots(path: Bytes): nat {
    if path == [] then 0 else (if path[0] == DOT then 1 else 0) + Dots(path[1..])
  }

  lemma {:induction false} DotsConcat(a: Bytes, b: Bytes)
    ensures Dots(a + b) == Dots(a) + Dots(b)
  {
    if a == [] {
      assert a + b == b;
    } else {
      DotsConcat(a[1..], b);
      assert (a + b)[1..] == a[1..] + b;
    }
  }

  lemma {:induction false} NoDots(name: Bytes)
    requires DOT !in name
    ensures Dots(name) == 0
  {
    if name != [] {
      NoDots(name[1..]);
    }
  }

  lemma JoinedDots(parent: Bytes, name: Bytes)
    requires DOT !in name
    ensures Dots(parent + [DOT] + name) == Dots(parent) + 1
  {
    NoDots(name);
    DotsConcat(parent + [DOT], name);
    DotsConcat(parent, [DOT]);
    assert [DOT][1..] == [];
  }

  /** Every push at the level its path has dots. */
  ghost predicate LevelsAreDots(ps: Pushes) {
    forall i | 0 <= i < |ps| :: ps[i].level == Dots(ps[i].path)
  }

  lemma LevelsConcat(a: Pushes, b: Pushes)
    requires LevelsAreDots(a) && LevelsAreDots(b)
    ensures LevelsAreDots(a + b)
  {
  }

  lemma {:induction false} LeafDots(full: Bytes, objects: seq<(Bytes, Leaf)>, visited: set<Bytes>)
    requires forall i | 0 <= i < |objects| :: PlainName(objects[i].1.name)
    ensures LevelsAreDots(LeafPushes(full, objects, Dots(full) + 1, visited))
  {
    if objects != [] {
      var (_, leaf) := objects[0];
      assert PlainName(objects[0].1.name);
      LeafDots(full, objects[1..], visited);
      if leaf.name.Some? {
        LeafDots(full, objects[1..], visited + {leaf.name.value});
        JoinedDots(full, leaf.name.value);
      }
    }
  }

  lemma {:induction false} TreeDots(ms: seq<Module>, parent: Bytes, level: int)
    requires Plain(ms)
    requires level == if parent == [] then 0 else Dots(parent) + 1
    ensures LevelsAreDots(TreePushes(ms, parent, level, 0))
    decreases ms
  {
    if ms != [] {
      ModuleDots(ms[0], parent, level);
      TreeDots(ms[1..], parent, level);
    }
  }

  lemma {:induction false} ModuleDots(m: Module, parent: Bytes, level: int)
    requires PlainModule(m)
    requires level == if parent == [] then 0 else Dots(parent) + 1
    ensures LevelsAreDots(ModulePushes(m, parent, level, 0))
    decreases m
  {
    if m.name.Some? {
      var full := ModulePath(parent, m.name.value);
      NoDots(m.name.value);
      if parent != [] {
        JoinedDots(parent, m.name.value);
      }
      LeafDots(full, Objects(m), {});
      TreeDots(m.inner, full, level + 1);
      LevelsConcat([HierEntry(full, DefName(m), None, level, -1)], LeafPushes(full, Objects(m), level + 1, {}));
    }
  }

  lemma {:induction false} FirstOccurs(ps: Pushes, path: Bytes)
    ensures First(ps, path).Some? ==> First(ps, path).value in ps
  {
    if ps != [] {
      FirstOccurs(ps[1..], path);
    }
  }

  lemma {:induction false} UpToOccurs(ps: Pushes, m: int)
    ensures forall e :: e in UpTo(ps, m) <==> e in ps && e.level <= m
  {
    if ps != [] {
      UpToOccurs(ps[1..], m);
      assert ps == [ps[0]] + ps[1..];
    }
  }

  lemma LevelsAreDotsSettles(ps: Pushes, path: Bytes)
    requires LevelsAreDots(ps)
    ensures Settled(ps, path)
  {
    if First(ps, path).Some? {
      var f := First(ps, path).value;
      FirstOccurs(ps, path);
      var above := UpTo(ps, LimitBelow(f.level));
      FirstOccurs(above, path);
      UpToOccurs(ps, LimitBelow(f.level));
      AnyRegUpTo(ps, path, LimitAt(f.level));
    }
  }

  function FullPushes(top: seq<Module>): Pushes {
    TreePushes(top, [], 0, 0)
  }

  /** At every depth limit, reading the full snapshot through the level filter is collecting with that limit. */
  ghost predicate CacheIsTransparent(top: seq<Module>) {
    forall m: int :: Shown(Collect(top, 0), m) == Collect(top, m)
  }

  /**
   * Cached hierarchy. The full snapshot filtered by level is the snapshot of the pruned traversal at
   * every depth limit, exactly for the designs whose traversal settles every path.
   */
  lemma CachedIsPrunedIff(top: seq<Module>)
    ensures CacheIsTransparent(top) <==> SettlesEveryPath(FullPushes(top))
  {
    var ps := FullPushes(top);
    AgreesAtEveryDepthIff(ps);
    if CacheIsTransparent(top) {
      forall m: int | m != 0 ensures AgreeAt(ps, m) {
        PruningIsFiltering(top, [], 0, m);
        assert Shown(Collect(top, 0), m) == Collect(top, m);
      }
      assert AgreesAtEveryDepth(ps);
    }
    if AgreesAtEveryDepth(ps) {
      forall m: int ensures Shown(Collect(top, 0), m) == Collect(top, m) {
        if m != 0 {
          PruningIsFiltering(top, [], 0, m);
          assert AgreeAt(ps, m);
        }
      }
    }
  }

  /** Plain names settle every path, so for them the agreement is unconditional. */
  lemma CachedIsPruned(top: seq<Module>, maxLevel: int)
    requires Plain(top)
    ensures Shown(Collect(top, 0), maxLevel) == Collect(top, maxLevel)
    ensures Shown(Collect(top, maxLevel), maxLevel) == Collect(top, maxLevel)
  {
    TreeDots(top, [], 0);
    forall path: Bytes ensures Settled(FullPushes(top), path) {
      LevelsAreDotsSettles(FullPushes(top), path);
    }
    CachedIsPrunedIff(top);
    UpToIdempotent(Collect(top, 0), maxLevel);
  }

  lemma {:induction false} UpToIdempotent(s: seq<HierEntry>, m: int)
    ensures UpTo(UpTo(s, m), m) == UpTo(s, m)
  {
    if s != [] {
      UpToIdempotent(s[1..], m);
    }
  }

  /** A top module t with a net named t.u.x, and below it the module u with a reg x. */
  function AliasedDesign(): seq<Module> {
    var x: Byte, t: Byte, u: Byte := 0x78, 0x74, 0x75;
    [Module(Some([t]), None, [Leaf(Some([t, DOT, u, DOT, x]), 1)], [], [],
      [Module(Some([u]), None, [], [Leaf(Some([x]), 1)], [], [])])]
  }

  function AliasPath(): Bytes {
    [0x74, DOT, 0x75, DOT, 0x78]
  }

  lemma AliasedPushes()
    ensures FullPushes(AliasedDesign()) == [
      HierEntry([0x74], None, None, 0, -1),
      HierEntry(AliasPath(), None, Some(WIRE), 1, 1),
      HierEntry([0x74, DOT, 0x75], None, None, 1, -1),
      HierEntry(AliasPath(), None, Some(REG), 2, 1)]
  {
    var t := AliasedDesign()[0];
    var u := t.inner[0];
    var net, reg := t.nets[0], u.regs[0];
    var tu: Bytes := [0x74, DOT, 0x75];
    assert Objects(t) == [(WIRE, net)];
    assert Objects(u) == [(REG, reg)];
    assert [(WIRE, net)][1..] == [] && [(REG, reg)][1..] == [];
    assert DOT in net.name.value by { assert net.name.value[1] == DOT; }
    assert LeafPushes([0x74], Objects(t), 1, {}) == [HierEntry(AliasPath(), None, Some(WIRE), 1, 1)];
    assert LeafPath(tu, [0x78]) == AliasPath();
    assert LeafPushes(tu, Objects(u), 2, {}) == [HierEntry(AliasPath(), None, Some(REG), 2, 1)];
    assert TreePushes(u.inner, tu, 2, 0) == [];
    assert ModulePath([0x74], [0x75]) == tu;
    assert ModulePushes(u, [0x74], 1, 0) ==
      [HierEntry(tu, None, None, 1, -1), HierEntry(AliasPath(), None, Some(REG), 2, 1)];
    assert [u][1..] == [] && [t][1..] == [];
    assert TreePushes([u], [0x74], 1, 0) == ModulePushes(u, [0x74], 1, 0);
    assert TreePushes([t], [], 0, 0) == ModulePushes(t, [], 0, 0);
  }

  /** With a dotted name the cached listing and the pruned one can differ: the wire is a reg only in the first. */
  lemma DottedNamesDisagree()
    ensures !CacheIsTransparent(AliasedDesign())
  {
    var ps := FullPushes(AliasedDesign());
    AliasedPushes();
    var wire := ps[1];
    assert ps[1..][0] == wire;
    assert First(ps, AliasPath()) == Some(wire);
    assert ps[3].path == AliasPath() && ps[3].sigType == Some(REG);
    AnyRegUpTo(ps, AliasPath(), 1);
    assert !Settled(ps, AliasPath());
    CachedIsPrunedIff(AliasedDesign());
  }
}
