/** Whole queries: with and without the cache, in this run and in the next. */
module HierRuns {
  import opened Common
  import opened Utf8
  import opened HierModel
  import opened HierMerge
  import opened HierResults
  import opened HierListing
  import opened CacheModel
  import opened CacheResults

  /** A query answers the same, errors included, from the full cached snapshot and from a pruned traversal. */
  lemma CachedQuery(top: seq<Module>, q: Query)
    requires Plain(top)
    ensures List(Collect(top, 0), q) == List(Collect(top, q.maxLevel), q)
  {
    CachedIsPruned(top, q.maxLevel);
  }

  // ---- the listing is a forest that reaches the top ----

  /** Every scope around a pushed path is pushed too, or lies around `parent`. */
  ghost predicate ScopesPushed(ps: Pushes, parent: Bytes) {
    forall i, a: Bytes | 0 <= i < |ps| && a != [] && SelfOrScope(a, ps[i].path) ::
      SelfOrScope(a, parent) || HasPath(ps, a)
  }

  ghost predicate HasPath(ps: Pushes, path: Bytes) {
    exists e | e in ps :: e.path == path
  }

  lemma HasPathConcat(a: Pushes, b: Pushes, path: Bytes)
    ensures HasPath(a + b, path) <==> HasPath(a, path) || HasPath(b, path)
  {
  }

  lemma ScopesConcat(a: Pushes, b: Pushes, parent: Bytes)
    requires ScopesPushed(a, parent) && ScopesPushed(b, parent)
    ensures ScopesPushed(a + b, parent)
  {
    forall i, p: Bytes | 0 <= i < |a + b| && p != [] && SelfOrScope(p, (a + b)[i].path)
      ensures SelfOrScope(p, parent) || HasPath(a + b, p)
    {
      HasPathConcat(a, b, p);
      assert (a + b)[i] == if i < |a| then a[i] else b[i - |a|];
    }
  }

  /** Scopes of a joined path: itself, or a scope of the outer part. */
  lemma ScopesOfJoined(outer: Bytes, name: Bytes, a: Bytes)
    requires DOT !in name
    ensures SelfOrScope(a, outer + [DOT] + name) ==> a == outer + [DOT] + name || SelfOrScope(a, outer)
  {
    var whole := outer + [DOT] + name;
    assert forall k | |outer| < k < |whole| :: whole[k] == name[k - |outer| - 1] && name[k - |outer| - 1] in name;
    if SelfOrScope(a, whole) && a != whole {
      assert whole[..|outer|] == outer;
      if |a| < |outer| {
        assert outer[..|a|] == whole[..|a|];
      }
    }
  }

  lemma {:induction false} LeafScopes(full: Bytes, objects: seq<(Bytes, Leaf)>, level: int, visited: set<Bytes>)
    requires forall i | 0 <= i < |objects| :: PlainName(objects[i].1.name)
    ensures ScopesPushed(LeafPushes(full, objects, level, visited), full)
  {
    if objects != [] {
      var (sigType, leaf) := objects[0];
      assert PlainName(objects[0].1.name);
      LeafScopes(full, objects[1..], level, visited);
      if leaf.name.Some? && leaf.name.value !in visited {
        var e := HierEntry(LeafPath(full, leaf.name.value), None, Some(sigType), level, leaf.width);
        LeafScopes(full, objects[1..], level, visited + {leaf.name.value});
        forall a: Bytes | SelfOrScope(a, e.path) ensures SelfOrScope(a, full) || HasPath([e], a) {
          ScopesOfJoined(full, leaf.name.value, a);
          assert e in [e];
        }
        ScopesConcat([e], LeafPushes(full, objects[1..], level, visited + {leaf.name.value}), full);
      }
    }
  }

  lemma {:induction false} TreeScopes(ms: seq<Module>, parent: Bytes, level: int)
    requires Plain(ms)
    ensures ScopesPushed(TreePushes(ms, parent, level, 0), parent)
    decreases ms
  {
    if ms != [] {
      ModuleScopes(ms[0], parent, level);
      TreeScopes(ms[1..], parent, level);
      ScopesConcat(ModulePushes(ms[0], parent, level, 0), TreePushes(ms[1..], parent, level, 0), parent);
    }
  }

  lemma {:induction false} ModuleScopes(m: Module, parent: Bytes, level: int)
    requires PlainModule(m)
    ensures ScopesPushed(ModulePushes(m, parent, level, 0), parent)
    decreases m
  {
    if m.name.Some? {
      var full := ModulePath(parent, m.name.value);
      var self := [HierEntry(full, DefName(m), None, level, -1)];
      var leaves, below := LeafPushes(full, Objects(m), level + 1, {}), TreePushes(m.inner, full, level + 1, 0);
      LeafScopes(full, Objects(m), level + 1, {});
      TreeScopes(m.inner, full, level + 1);
      ScopesConcat(leaves, below, full);
      assert ModulePushes(m, parent, level, 0) == self + (leaves + below);
      OneScopeOut(self[0], leaves + below, parent, m.name.value);
    }
  }

  lemma OneScopeOut(self: HierEntry, inside: Pushes, parent: Bytes, name: Bytes)
    requires self.path == ModulePath(parent, name) && DOT !in name
    requires ScopesPushed(inside, self.path)
    ensures ScopesPushed([self] + inside, parent)
  {
    var all := [self] + inside;
    forall i, a: Bytes | 0 <= i < |all| && a != [] && SelfOrScope(a, all[i].path)
      ensures SelfOrScope(a, parent) || HasPath(all, a)
    {
      HasPathConcat([self], inside, a);
      assert self in [self];
      if i > 0 {
        assert all[i] == inside[i - 1];
      }
      if SelfOrScope(a, self.path) {
        if parent == [] {
          assert forall k | 0 <= k < |name| :: name[k] in name;
        } else {
          ScopesOfJoined(parent, name, a);
        }
      }
    }
  }

  // ---- paths never start with a dot ----

  predicate PlainHead(path: Bytes) {
    path != [] && path[0] != DOT
  }

  ghost predicate PlainHeads(ps: Pushes) {
    forall i | 0 <= i < |ps| :: PlainHead(ps[i].path)
  }

  lemma {:induction false} LeafHeads(full: Bytes, objects: seq<(Bytes, Leaf)>, level: int, visited: set<Bytes>)
    requires PlainHead(full)
    requires forall i | 0 <= i < |objects| :: PlainName(objects[i].1.name)
    ensures PlainHeads(LeafPushes(full, objects, level, visited))
  {
    if objects != [] {
      var (_, leaf) := objects[0];
      assert PlainName(objects[0].1.name);
      LeafHeads(full, objects[1..], level, visited);
      if leaf.name.Some? {
        LeafHeads(full, objects[1..], level, visited + {leaf.name.value});
      }
    }
  }

  lemma {:induction false} TreeHeads(ms: seq<Module>, parent: Bytes, level: int)
    requires Plain(ms) && (parent == [] || PlainHead(parent))
    ensures PlainHeads(TreePushes(ms, parent, level, 0))
    decreases ms
  {
    if ms != [] {
      ModuleHeads(ms[0], parent, level);
      TreeHeads(ms[1..], parent, level);
    }
  }

  lemma {:induction false} ModuleHeads(m: Module, parent: Bytes, level: int)
    requires PlainModule(m) && (parent == [] || PlainHead(parent))
    ensures PlainHeads(ModulePushes(m, parent, level, 0))
    decreases m
  {
    if m.name.Some? {
      var full := ModulePath(parent, m.name.value);
      LeafHeads(full, Objects(m), level + 1, {});
      TreeHeads(m.inner, full, level + 1);
    }
  }

  // ---- from pushes to entries ----

  lemma SnapshotPaths(ps: Pushes, path: Bytes)
    ensures HasPath(Snapshot(ps), path) <==> HasPath(ps, path)
  {
    SnapshotResolves(ps);
    NoPushNoReg(ps, path);
    if HasPath(ps, path) {
      var e :| e in ps && e.path == path;
      var i :| 0 <= i < |ps| && ps[i] == e;
      assert Resolved(ps, path).value in Snapshot(ps);
    }
    if HasPath(Snapshot(ps), path) {
      var e :| e in Snapshot(ps) && e.path == path;
      FirstOccurs(ps, path);
    }
  }

  lemma EntryFacts(top: seq<Module>, e: HierEntry)
    requires Plain(top) && e in Collect(top, 0)
    ensures PlainHead(e.path) && e.level == Dots(e.path)
  {
    var ps := FullPushes(top);
    SnapshotResolves(ps);
    FirstOccurs(ps, e.path);
    TreeHeads(top, [], 0);
    TreeDots(top, [], 0);
  }

  lemma ScopeHasFewerDots(a: Bytes, path: Bytes)
    requires SelfOrScope(a, path)
    ensures Dots(a) <= Dots(path)
  {
    if a != path {
      assert path == a + path[|a|..];
      DotsConcat(a, path[|a|..]);
    }
  }

  /** Every scope around a collected entry is collected with it, at every depth limit. */
  lemma ScopesCollected(top: seq<Module>, maxLevel: int, e: HierEntry, a: Bytes)
    requires Plain(top) && e in Collect(top, maxLevel) && a != [] && SelfOrScope(a, e.path)
    ensures HasPath(Collect(top, maxLevel), a)
  {
    hide Collect, SelfOrScope;
    CachedIsPruned(top, maxLevel);
    UpToOccurs(Collect(top, 0), maxLevel);
    EntryFacts(top, e);
    ScopeInFull(top, e, a);
    var y :| y in Collect(top, 0) && y.path == a;
    EntryFacts(top, y);
    ScopeHasFewerDots(a, e.path);
    assert y in Collect(top, maxLevel);
  }

  lemma ScopeInFull(top: seq<Module>, e: HierEntry, a: Bytes)
    requires Plain(top) && e in Collect(top, 0) && a != [] && SelfOrScope(a, e.path)
    ensures HasPath(Collect(top, 0), a)
  {
    var ps := FullPushes(top);
    TreeScopes(top, [], 0);
    SnapshotPaths(ps, e.path);
    SnapshotPaths(ps, a);
    assert HasPath(Collect(top, 0), e.path);
    var x :| x in ps && x.path == e.path;
    var i :| 0 <= i < |ps| && ps[i] == x;
    assert SelfOrScope(a, ps[i].path);
  }

  /** A tree listing is connected: for every entry in it, each scope around that entry is in it as well. */
  lemma TreeListingIsConnected(top: seq<Module>, q: Query, e: HierEntry, a: Bytes)
    requires Plain(top) && TreeMode(q) && a != [] && SelfOrScope(a, e.path)
    ensures match List(Collect(top, q.maxLevel), q)
      case NoModuleNames(_) => true
      case Listed(out) => e in out ==> HasPath(out, a)
  {
    var es := Collect(top, q.maxLevel);
    CachedIsPruned(top, q.maxLevel);
    var out := Visible(es, VisiblePaths(es, q));
    hide Collect, SelfOrScope;
    if e in out {
      forall x | x in es ensures PlainHead(x.path) {
        UpToOccurs(Collect(top, 0), q.maxLevel);
        EntryFacts(top, x);
      }
      TreeListsScopes(es, q, e);
      ScopesCollected(top, q.maxLevel, e, a);
      var y :| y in es && y.path == a;
      var x :| x in es && EntryMatches(x, q) && SelfOrScope(e.path, x.path);
      ScopeTransitive(a, e.path, x.path);
      assert AroundMatch(y, es, q);
      TreeListsScopes(es, q, y);
    }
  }

  // ---- the next run ----

  /** Rust strings and 32-bit fields. */
  predicate Fits(e: HierEntry) {
    && ValidUtf8(e.path)
    && (e.moduleName.Some? ==> ValidUtf8(e.moduleName.value))
    && (e.sigType.Some? ==> ValidUtf8(e.sigType.value))
    && -0x8000_0000 <= e.level < 0x8000_0000
    && -0x8000_0000 <= e.bitwidth < 0x8000_0000
  }

  predicate AllFit(es: seq<HierEntry>) {
    forall i | 0 <= i < |es| :: Fits(es[i])
  }

  function ToText(s: Option<Bytes>): Option<Text>
    requires s.Some? ==> ValidUtf8(s.value)
  {
    match s
    case None => None
    case Some(b) => Some(b)
  }

  function ToCache(e: HierEntry): Entry
    requires Fits(e)
  {
    Entry(e.path, ToText(e.moduleName), ToText(e.sigType), e.level, e.bitwidth)
  }

  function ToCacheAll(es: seq<HierEntry>): seq<Entry>
    requires AllFit(es)
  {
    seq(|es|, i requires 0 <= i < |es| => ToCache(es[i]))
  }

  function FromText(s: Option<Text>): Option<Bytes> {
    match s
    case None => None
    case Some(t) => Some(t)
  }

  function FromCacheAll(es: seq<Entry>): seq<HierEntry> {
    seq(|es|, i requires 0 <= i < |es| =>
      HierEntry(es[i].path, FromText(es[i].moduleName), FromText(es[i].sigType), es[i].level, es[i].bitwidth))
  }

  /** Traversal never produces an empty optional string, so nothing is lost in the file. */
  ghost predicate NoEmptyNames(ps: Pushes) {
    forall i | 0 <= i < |ps| :: ps[i].moduleName != Some([]) && ps[i].sigType != Some([])
  }

  lemma {:induction false} LeafNames(full: Bytes, objects: seq<(Bytes, Leaf)>, level: int, visited: set<Bytes>)
    requires forall i | 0 <= i < |objects| :: objects[i].0 != []
    ensures NoEmptyNames(LeafPushes(full, objects, level, visited))
  {
    if objects != [] {
      var (_, leaf) := objects[0];
      LeafNames(full, objects[1..], level, visited);
      if leaf.name.Some? {
        LeafNames(full, objects[1..], level, visited + {leaf.name.value});
      }
    }
  }

  lemma {:induction false} TreeNames(ms: seq<Module>, parent: Bytes, level: int, maxLevel: int)
    ensures NoEmptyNames(TreePushes(ms, parent, level, maxLevel))
    decreases ms
  {
    if ms != [] {
      ModuleNames(ms[0], parent, level, maxLevel);
      TreeNames(ms[1..], parent, level, maxLevel);
    }
  }

  lemma {:induction false} ModuleNames(m: Module, parent: Bytes, level: int, maxLevel: int)
    ensures NoEmptyNames(ModulePushes(m, parent, level, maxLevel))
    decreases m
  {
    if m.name.Some? {
      var full := ModulePath(parent, m.name.value);
      LeafNames(full, Objects(m), level + 1, {});
      TreeNames(m.inner, full, level + 1, maxLevel);
    }
  }

  lemma CollectedNames(top: seq<Module>, e: HierEntry)
    requires e in Collect(top, 0)
    ensures e.moduleName != Some([]) && e.sigType != Some([])
  {
    SnapshotResolves(FullPushes(top));
    FirstOccurs(FullPushes(top), e.path);
    TreeNames(top, [], 0, 0);
  }

  lemma SurvivesFile(es: seq<HierEntry>)
    requires AllFit(es) && NoEmptyNames(es)
    ensures FromCacheAll(NormalAll(ToCacheAll(es))) == es
  {
  }

  /**
   * The next run. If the first run's save succeeded and fewer than 2^32 entries were collected, a
   * later run of the same simulation finds the file and answers every query as a fresh traversal would.
   */
  lemma NextRunAnswersTheSame(top: seq<Module>, mtime: Option<U64>, source: Option<Text>, q: Query)
    requires Plain(top) && AllFit(Collect(top, 0)) && |Collect(top, 0)| < U32_LIMIT
    requires Save(ToCacheAll(Collect(top, 0)), mtime, source).ok
    ensures
      var loaded := Load(Save(ToCacheAll(Collect(top, 0)), mtime, source).bytes, mtime, source);
      && loaded.Some?
      && List(FromCacheAll(loaded.value.entries), q) == List(Collect(top, q.maxLevel), q)
  {
    hide Collect, Save, Load, List;
    var es := Collect(top, 0);
    AllEntriesComeBackIff(ToCacheAll(es), mtime, source);
    forall i | 0 <= i < |es| ensures es[i].moduleName != Some([]) && es[i].sigType != Some([]) {
      CollectedNames(top, es[i]);
    }
    SurvivesFile(es);
    CachedQuery(top, q);
  }
}
