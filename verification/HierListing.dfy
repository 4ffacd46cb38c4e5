/** What a hierarchy query lists: the depth filter, the wildcard filter and the ancestors it keeps. */
module HierListing {
  import opened Common
  import opened Utf8
  import opened HierModel
  import opened HierMerge

  // ---- path prefixes ----

  function FirstDot(path: Bytes): (d: nat)
    ensures d <= |path|
    ensures d < |path| ==> path[d] == DOT
    ensures DOT !in path[..d]
  {
    if path == [] || path[0] == DOT then 0
    else
      var d := 1 + FirstDot(path[1..]);
      assert path[..d] == [path[0]] + path[1..][..d - 1];
      d
  }

  function Split(path: Bytes): (segs: seq<Bytes>)
    ensures segs != []
    decreases |path|
  {
    var d := FirstDot(path);
    if d == |path| then [path] else [path[..d]] + Split(path[d + 1..])
  }

  /** The prefixes built up segment by segment; an empty prefix takes the next segment without a dot. */
  function Grow(prefix: Bytes, segs: seq<Bytes>): set<Bytes>
    decreases |segs|
  {
    if segs == [] then {}
    else
      var next := ModulePath(prefix, segs[0]);
      {next} + Grow(next, segs[1..])
  }

  function Prefixes(path: Bytes): set<Bytes> {
    Grow([], Split(path))
  }

  /** `a` names the object itself or a scope around it. */
  predicate SelfOrScope(a: Bytes, path: Bytes) {
    a == path || (|a| < |path| && path[|a|] == DOT && path[..|a|] == a)
  }

  lemma ScopeTransitive(a: Bytes, b: Bytes, c: Bytes)
    requires SelfOrScope(a, b) && SelfOrScope(b, c)
    ensures SelfOrScope(a, c)
  {
    if a != b && b != c {
      assert c[..|a|] == c[..|b|][..|a|];
    }
  }

  /** After `next`, which ends in the dot-free `seg`, nothing between `from` and `next` is a scope. */
  lemma NextScope(whole: Bytes, from: nat, seg: Bytes, next: Bytes, p: Bytes)
    requires DOT !in seg && |next| == from + |seg| <= |whole|
    requires whole[..|next|] == next && whole[from..|next|] == seg
    requires |next| == |whole| || whole[|next|] == DOT
    ensures SelfOrScope(p, whole) && |p| >= from <==> p == next || (SelfOrScope(p, whole) && |p| > |next|)
  {
    if |next| == |whole| {
      assert next == whole;
    }
    assert forall k | from <= k < |next| :: whole[k] == seg[k - from] && seg[k - from] in seg;
    if SelfOrScope(p, whole) && |p| == |next| {
      assert p == whole[..|p|];
    }
  }

  lemma {:induction false} GrowIsScopes(prefix: Bytes, rest: Bytes, p: Bytes)
    requires prefix != []
    ensures p in Grow(prefix, Split(rest)) <==> SelfOrScope(p, prefix + [DOT] + rest) && |p| > |prefix|
    decreases |rest|
  {
    hide SelfOrScope;
    var d := FirstDot(rest);
    var whole, next := prefix + [DOT] + rest, prefix + [DOT] + rest[..d];
    NextScope(whole, |prefix| + 1, rest[..d], next, p);
    ScopeIsShort(p, whole);
    if d == |rest| {
      assert rest[..d] == rest;
      assert Split(rest)[1..] == [];
    } else {
      var tail := rest[d + 1..];
      assert Split(rest)[1..] == Split(tail);
      assert next + [DOT] + tail == whole by {
        assert rest == rest[..d] + [DOT] + tail;
      }
      GrowIsScopes(next, tail, p);
    }
  }

  lemma ScopeIsShort(p: Bytes, path: Bytes)
    ensures SelfOrScope(p, path) ==> |p| <= |path|
  {
  }

  /** For a path that does not start with a dot, the prefixes are the path and the scopes around it. */
  lemma PrefixesAreScopes(path: Bytes, p: Bytes)
    requires path == [] || path[0] != DOT
    ensures p in Prefixes(path) <==> SelfOrScope(p, path)
  {
    hide SelfOrScope;
    var d := FirstDot(path);
    NextScope(path, 0, path[..d], path[..d], p);
    ScopeIsShort(p, path);
    if d == |path| {
      assert path[..d] == path;
      assert Split(path) == [path] && [path][1..] == [];
      assert Grow(path, []) == {};
    } else {
      var head, tail := path[..d], path[d + 1..];
      assert Split(path)[1..] == Split(tail);
      assert path == head + [DOT] + tail;
      GrowIsScopes(head, tail, p);
    }
  }

  lemma {:induction false} GrowIsShort(prefix: Bytes, path: Bytes, p: Bytes)
    requires p in Grow(prefix, Split(path))
    ensures |p| <= |prefix| + 1 + |path|
    ensures prefix == [] ==> |p| <= |path|
    decreases |path|
  {
    var d := FirstDot(path);
    if d < |path| {
      var next := ModulePath(prefix, path[..d]);
      assert Split(path)[1..] == Split(path[d + 1..]);
      if p != next {
        GrowIsShort(next, path[d + 1..], p);
      }
    } else {
      assert Split(path)[1..] == [];
    }
  }

  /** A path is one of its own prefixes unless it starts with a dot. */
  lemma SelfVisibleIff(path: Bytes)
    ensures path in Prefixes(path) <==> path == [] || path[0] != DOT
  {
    if path == [] || path[0] != DOT {
      PrefixesAreScopes(path, path);
    } else {
      assert FirstDot(path) == 0 && path[..0] == [];
      assert Split(path)[1..] == Split(path[1..]);
      if path in Prefixes(path) {
        GrowIsShort([], path[1..], path);
      }
    }
  }

  // ---- queries ----

  datatype Query = Query(
    maxLevel: int, wildcards: seq<Bytes -> bool>, moduleName: Option<Bytes>,
    treePrefixes: bool, requireModuleNames: bool)

  datatype Listing =
    | UnsupportedDpi
    | NullCallback
    | NoModuleNames(filtering: bool)
    | Listed(entries: seq<HierEntry>)

  predicate EntryMatches(e: HierEntry, q: Query) {
    && (q.wildcards == [] || exists i | 0 <= i < |q.wildcards| :: q.wildcards[i](e.path))
    && (q.moduleName.None? || e.moduleName == q.moduleName)
  }

  predicate HasModuleNames(es: seq<HierEntry>) {
    exists i | 0 <= i < |es| :: es[i].moduleName.Some?
  }

  /** Every prefix of every matching path. */
  function VisiblePaths(es: seq<HierEntry>, q: Query): set<Bytes> {
    if es == [] then {}
    else VisiblePaths(Front(es), q) + if EntryMatches(Last(es), q) then Prefixes(Last(es).path) else {}
  }

  function Visible(es: seq<HierEntry>, paths: set<Bytes>): seq<HierEntry> {
    if es == [] then []
    else Visible(Front(es), paths) + if Last(es).path in paths then [Last(es)] else []
  }

  function Matching(es: seq<HierEntry>, q: Query): seq<HierEntry> {
    if es == [] then []
    else Matching(Front(es), q) + if EntryMatches(Last(es), q) then [Last(es)] else []
  }

  predicate TreeMode(q: Query) {
    q.treePrefixes && q.wildcards != []
  }

  function List(all: seq<HierEntry>, q: Query): Listing {
    var es := Shown(all, q.maxLevel);
    if (q.moduleName.Some? || q.requireModuleNames) && !HasModuleNames(es) then NoModuleNames(q.moduleName.Some?)
    else if TreeMode(q) then Listed(Visible(es, VisiblePaths(es, q)))
    else Listed(Matching(es, q))
  }

  /** The exported call: a DPI build refuses first, then a missing callback is reported, and only then are entries read. */
  function Answer(dpi: bool, hasCallback: bool, all: seq<HierEntry>, q: Query): Listing {
    if dpi then UnsupportedDpi else if !hasCallback then NullCallback else List(all, q)
  }

  // ---- what is listed ----

  /** `e` is the object or a scope of some matching entry. */
  ghost predicate AroundMatch(e: HierEntry, es: seq<HierEntry>, q: Query) {
    exists x | x in es :: EntryMatches(x, q) && SelfOrScope(e.path, x.path)
  }

  ghost predicate PlainPaths(es: seq<HierEntry>) {
    forall e | e in es :: e.path == [] || e.path[0] != DOT
  }

  lemma {:induction false} VisiblePathsAre(es: seq<HierEntry>, q: Query, p: Bytes)
    ensures p in VisiblePaths(es, q) <==> exists x | x in es :: EntryMatches(x, q) && p in Prefixes(x.path)
  {
    if es != [] {
      VisiblePathsAre(Front(es), q, p);
      assert es == Front(es) + [Last(es)];
      assert Last(es) in es;
    }
  }

  lemma {:induction false} VisibleElements(es: seq<HierEntry>, paths: set<Bytes>)
    ensures forall e :: e in Visible(es, paths) <==> e in es && e.path in paths
  {
    if es != [] {
      VisibleElements(Front(es), paths);
      assert es == Front(es) + [Last(es)];
    }
  }

  lemma {:induction false} MatchingElements(es: seq<HierEntry>, q: Query)
    ensures forall e :: e in Matching(es, q) <==> e in es && EntryMatches(e, q)
  {
    if es != [] {
      MatchingElements(Front(es), q);
      assert es == Front(es) + [Last(es)];
    }
  }

  /** Tree mode lists an entry if and only if it matches or is a scope around a match. */
  lemma TreeListsScopes(es: seq<HierEntry>, q: Query, e: HierEntry)
    requires PlainPaths(es)
    ensures e in Visible(es, VisiblePaths(es, q)) <==> e in es && AroundMatch(e, es, q)
  {
    VisibleElements(es, VisiblePaths(es, q));
    VisiblePathsAre(es, q, e.path);
    forall x | x in es ensures e.path in Prefixes(x.path) <==> SelfOrScope(e.path, x.path) {
      PrefixesAreScopes(x.path, e.path);
    }
  }

  /** The order of the snapshot survives every mode. */
  lemma {:induction false} VisibleInOrder(es: seq<HierEntry>, paths: set<Bytes>)
    requires Ordered(es)
    ensures Ordered(Visible(es, paths))
  {
    if es != [] {
      VisibleInOrder(Front(es), paths);
      VisibleElements(Front(es), paths);
      LastIsGreatest(es, Visible(Front(es), paths));
    }
  }

  lemma {:induction false} MatchingInOrder(es: seq<HierEntry>, q: Query)
    requires Ordered(es)
    ensures Ordered(Matching(es, q))
  {
    if es != [] {
      MatchingInOrder(Front(es), q);
      MatchingElements(Front(es), q);
      LastIsGreatest(es, Matching(Front(es), q));
    }
  }

  lemma LastIsGreatest(es: seq<HierEntry>, kept: seq<HierEntry>)
    requires es != [] && Ordered(es)
    requires Ordered(kept) && forall e | e in kept :: e in Front(es)
    ensures Ordered(kept + [Last(es)])
  {
    forall i | 0 <= i < |kept| ensures kept[i].path != Last(es).path && BytesLe(kept[i].path, Last(es).path) {
      assert kept[i] in Front(es);
      var k :| 0 <= k < |Front(es)| && Front(es)[k] == kept[i];
      assert es[k] == kept[i];
    }
  }

  lemma {:induction false} ShownElements(all: seq<HierEntry>, maxLevel: int)
    ensures forall e :: e in Shown(all, maxLevel) <==> e in all && (maxLevel == 0 || e.level <= maxLevel)
  {
    if maxLevel != 0 && all != [] {
      ShownElements(all[1..], maxLevel);
      assert all == [all[0]] + all[1..];
    }
  }

  /** Flat mode lists an entry if and only if it is near enough, some wildcard accepts its path, or none is given, and the module name is the one asked for. */
  lemma FlatListsMatches(all: seq<HierEntry>, q: Query, e: HierEntry)
    requires q.wildcards == [] || !q.treePrefixes
    requires Answer(false, true, all, q).Listed?
    ensures e in Answer(false, true, all, q).entries <==>
      && e in all && (q.maxLevel == 0 || e.level <= q.maxLevel)
      && (q.wildcards != [] ==> exists i | 0 <= i < |q.wildcards| :: q.wildcards[i](e.path))
      && (q.moduleName.Some? ==> e.moduleName == q.moduleName)
  {
    ShownElements(all, q.maxLevel);
    MatchingElements(Shown(all, q.maxLevel), q);
  }

  /** In tree mode with plain paths: the same entries, and the scopes around them. */
  lemma TreeListsAround(all: seq<HierEntry>, q: Query, e: HierEntry)
    requires q.wildcards != [] && q.treePrefixes && PlainPaths(all)
    requires Answer(false, true, all, q).Listed?
    ensures e in Answer(false, true, all, q).entries <==>
      && e in all && (q.maxLevel == 0 || e.level <= q.maxLevel)
      && exists x | x in all ::
        && (q.maxLevel == 0 || x.level <= q.maxLevel) && SelfOrScope(e.path, x.path)
        && (exists i | 0 <= i < |q.wildcards| :: q.wildcards[i](x.path))
        && (q.moduleName.Some? ==> x.moduleName == q.moduleName)
  {
    var es := Shown(all, q.maxLevel);
    ShownElements(all, q.maxLevel);
    TreeListsScopes(es, q, e);
  }

  /** When there is no listing: a DPI build, no callback, or module names asked for where no near entry has one. */
  lemma RefusedIff(dpi: bool, hasCallback: bool, all: seq<HierEntry>, q: Query)
    ensures Answer(dpi, hasCallback, all, q).UnsupportedDpi? <==> dpi
    ensures Answer(dpi, hasCallback, all, q).NullCallback? <==> !dpi && !hasCallback
    ensures Answer(dpi, hasCallback, all, q).Listed? <==>
      && !dpi && hasCallback
      && ((q.moduleName.Some? || q.requireModuleNames) ==>
            exists e | e in all :: (q.maxLevel == 0 || e.level <= q.maxLevel) && e.moduleName.Some?)
    ensures Answer(dpi, hasCallback, all, q).NoModuleNames? ==>
      (Answer(dpi, hasCallback, all, q).filtering <==> q.moduleName.Some?)
  {
    var es := Shown(all, q.maxLevel);
    ShownElements(all, q.maxLevel);
    assert HasModuleNames(es) <==> exists e | e in es :: e.moduleName.Some? by {
      if HasModuleNames(es) {
        var i :| 0 <= i < |es| && es[i].moduleName.Some?;
        assert es[i] in es;
      }
    }
  }

  // ---- the query as it runs ----

  method ListHierarchy(dpi: bool, hasCallback: bool, all: seq<HierEntry>, q: Query) returns (r: Listing)
    ensures r == Answer(dpi, hasCallback, all, q)
  {
    if dpi {
      return UnsupportedDpi;
    }
    if !hasCallback {
      return NullCallback;
    }
    var es := Shown(all, q.maxLevel);
    var needNames := q.moduleName.Some? || q.requireModuleNames;
    if needNames && !HasModuleNames(es) {
      return NoModuleNames(q.moduleName.Some?);
    }
    var out: seq<HierEntry> := [];
    if q.treePrefixes && q.wildcards != [] {
      var visible: set<Bytes> := {};
      for i := 0 to |es|
        invariant visible == VisiblePaths(es[..i], q)
      {
        assert es[..i + 1] == es[..i] + [es[i]] && Front(es[..i + 1]) == es[..i];
        if EntryMatches(es[i], q) {
          var added := InsertPrefixes(visible, es[i].path);
          visible := added;
        }
      }
      assert es[..|es|] == es;
      for i := 0 to |es|
        invariant out == Visible(es[..i], visible)
      {
        assert es[..i + 1] == es[..i] + [es[i]] && Front(es[..i + 1]) == es[..i];
        if es[i].path in visible {
          out := out + [es[i]];
        }
      }
    } else {
      for i := 0 to |es|
        invariant out == Matching(es[..i], q)
      {
        assert es[..i + 1] == es[..i] + [es[i]] && Front(es[..i + 1]) == es[..i];
        if EntryMatches(es[i], q) {
          out := out + [es[i]];
        }
      }
      assert es[..|es|] == es;
    }
    return Listed(out);
  }

  /** The inner loop: the growing prefix of one matching path goes into the visible set, segment by segment. */
  method InsertPrefixes(visible: set<Bytes>, path: Bytes) returns (r: set<Bytes>)
    ensures r == visible + Prefixes(path)
  {
    r := visible;
    var segs := Split(path);
    var prefix: Bytes := [];
    for k := 0 to |segs|
      invariant r + Grow(prefix, segs[k..]) == visible + Prefixes(path)
    {
      prefix := if prefix == [] then segs[k] else prefix + [DOT] + segs[k];
      r := r + {prefix};
      assert segs[k..][1..] == segs[k + 1..];
    }
  }
}
