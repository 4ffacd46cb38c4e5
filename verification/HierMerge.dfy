/** What merging and sorting give: for every pushed path exactly one entry, in path order. */
module HierMerge {
  import opened Common
  import opened Utf8
  import opened HierModel

  // ---- an independent reading of the merge ----

  function First(ps: Pushes, path: Bytes): (r: Option<HierEntry>)
    ensures r.Some? ==> r.value.path == path
  {
    if ps == [] then None
    else if ps[0].path == path then Some(ps[0])
    else First(ps[1..], path)
  }

  predicate AnyReg(ps: Pushes, path: Bytes) {
    exists i | 0 <= i < |ps| :: ps[i].path == path && ps[i].sigType == Some(REG)
  }

  /** The entry a path gets: its first push, but a reg if any push of the path is one. */
  function Resolved(ps: Pushes, path: Bytes): Option<HierEntry> {
    match First(ps, path)
    case None => None
    case Some(f) => Some(if AnyReg(ps, path) then f.(sigType := Some(REG)) else f)
  }

  ghost predicate UniquePaths(es: seq<HierEntry>) {
    forall i, j | 0 <= i < j < |es| :: es[i].path != es[j].path
  }

  /** `es` holds exactly the resolved entries. */
  ghost predicate Lists(es: seq<HierEntry>, ps: Pushes) {
    && UniquePaths(es)
    && forall e :: e in es <==> Resolved(ps, e.path) == Some(e)
  }

  lemma {:induction false} FirstSnoc(ps: Pushes, x: HierEntry, path: Bytes)
    ensures First(ps + [x], path)
         == if First(ps, path).Some? then First(ps, path) else if x.path == path then Some(x) else None
    ensures AnyReg(ps + [x], path) <==> AnyReg(ps, path) || (x.path == path && x.sigType == Some(REG))
  {
    if ps != [] {
      FirstSnoc(ps[1..], x, path);
      assert (ps + [x])[1..] == ps[1..] + [x];
    }
    if AnyReg(ps, path) {
      var i :| 0 <= i < |ps| && ps[i].path == path && ps[i].sigType == Some(REG);
      assert (ps + [x])[i] == ps[i];
    }
    assert (ps + [x])[|ps|] == x;
  }

  lemma {:induction false} UpgradeEffect(es: seq<HierEntry>, path: Bytes)
    ensures |Upgrade(es, path)| == |es|
    ensures forall i | 0 <= i < |es| :: Upgrade(es, path)[i].path == es[i].path
    ensures UniquePaths(es) ==> forall i | 0 <= i < |es| ::
      Upgrade(es, path)[i] == if es[i].path == path then es[i].(sigType := Some(REG)) else es[i]
  {
    if es != [] {
      UpgradeEffect(es[1..], path);
    }
  }

  lemma PathInIff(es: seq<HierEntry>, ps: Pushes, path: Bytes)
    requires Lists(es, ps)
    ensures PathIn(es, path) <==> First(ps, path).Some?
  {
    if PathIn(es, path) {
      var i :| 0 <= i < |es| && es[i].path == path;
      assert es[i] in es;
    }
    if First(ps, path).Some? {
      FirstSnoc(ps, First(ps, path).value, path);
      assert Resolved(ps, path).value in es;
    }
  }

  lemma PushLists(es: seq<HierEntry>, ps: Pushes, x: HierEntry)
    requires Lists(es, ps)
    ensures Lists(Push(es, x), ps + [x])
  {
    var out := Push(es, x);
    PathInIff(es, ps, x.path);
    UpgradeEffect(es, x.path);
    forall e ensures e in out <==> Resolved(ps + [x], e.path) == Some(e) {
      FirstSnoc(ps, x, e.path);
      if e.path == x.path {
        PushAtPath(es, ps, x, e);
      } else {
        assert e in out <==> e in es;
      }
    }
  }

  lemma PushAtPath(es: seq<HierEntry>, ps: Pushes, x: HierEntry, e: HierEntry)
    requires Lists(es, ps) && e.path == x.path
    ensures e in Push(es, x) <==> Resolved(ps + [x], e.path) == Some(e)
  {
    FirstSnoc(ps, x, x.path);
    PathInIff(es, ps, x.path);
    UpgradeEffect(es, x.path);
    if PathIn(es, x.path) {
      var k :| 0 <= k < |es| && es[k].path == x.path;
      assert es[k] in es;
      if x.sigType == Some(REG) {
        assert Push(es, x)[k] == es[k].(sigType := Some(REG));
      }
    } else {
      assert !AnyReg(ps, x.path) by {
        NoPushNoReg(ps, x.path);
      }
    }
  }

  lemma {:induction false} NoPushNoReg(ps: Pushes, path: Bytes)
    ensures First(ps, path).None? <==> forall i | 0 <= i < |ps| :: ps[i].path != path
  {
    if ps != [] {
      NoPushNoReg(ps[1..], path);
      if First(ps, path).None? {
        forall i | 0 <= i < |ps| ensures ps[i].path != path {
          if i > 0 {
            assert ps[i] == ps[1..][i - 1];
          }
        }
      }
    }
  }

  lemma {:induction false} PushAllConcat(es: seq<HierEntry>, a: Pushes, b: Pushes)
    ensures PushAll(es, a + b) == PushAll(PushAll(es, a), b)
    decreases |a|
  {
    hide Push;
    if a == [] {
      assert a + b == b;
    } else {
      PushAllConcat(Push(es, a[0]), a[1..], b);
      assert (a + b)[1..] == a[1..] + b;
    }
  }

  /** The merged list holds, once each, the first push of every path, upgraded to reg if any push of it is one. */
  lemma NothingListed()
    ensures Lists([], [])
  {
  }

  lemma {:induction false} MergeResolves(ps: Pushes)
    ensures Lists(PushAll([], ps), ps)
    decreases |ps|
  {
    hide Lists, Push;
    if ps == [] {
      assert Lists([], []) by { NothingListed(); }
    } else {
      MergeResolves(Front(ps));
      PushLists(PushAll([], Front(ps)), Front(ps), Last(ps));
      PushAllConcat([], Front(ps), [Last(ps)]);
      assert ps == Front(ps) + [Last(ps)];
    }
  }

  // ---- order ----

  lemma {:induction false} BytesLeTotal(a: Bytes, b: Bytes)
    ensures BytesLe(a, b) || BytesLe(b, a)
    ensures BytesLe(a, b) && BytesLe(b, a) ==> a == b
  {
    if a != [] && b != [] && a[0] == b[0] {
      BytesLeTotal(a[1..], b[1..]);
      assert a == [a[0]] + a[1..] && b == [b[0]] + b[1..];
    }
  }

  lemma {:induction false} BytesLeTransitive(a: Bytes, b: Bytes, c: Bytes)
    requires BytesLe(a, b) && BytesLe(b, c)
    ensures BytesLe(a, c)
  {
    if a != [] && a[0] == b[0] == c[0] {
      BytesLeTransitive(a[1..], b[1..], c[1..]);
    }
  }

  /** Lexicographic: one is the beginning of the other, or the first byte in which they differ decides. */
  lemma {:induction false} BytesLeIff(a: Bytes, b: Bytes)
    ensures BytesLe(a, b) <==> a <= b || exists k :: 0 <= k < |a| && k < |b| && a[..k] == b[..k] && a[k] < b[k]
  {
    if a != [] && b != [] && a[0] == b[0] {
      BytesLeIff(a[1..], b[1..]);
      assert a == [a[0]] + a[1..] && b == [b[0]] + b[1..];
      if k :| 0 <= k < |a[1..]| && k < |b[1..]| && a[1..][..k] == b[1..][..k] && a[1..][k] < b[1..][k] {
        assert a[..k + 1] == [a[0]] + a[1..][..k] && b[..k + 1] == [b[0]] + b[1..][..k];
        assert a[k + 1] < b[k + 1];
      }
      if k :| 0 <= k < |a| && k < |b| && a[..k] == b[..k] && a[k] < b[k] {
        assert a[1..][..k - 1] == a[..k][1..] && b[1..][..k - 1] == b[..k][1..];
        assert a[1..][k - 1] < b[1..][k - 1];
      }
    } else if a != [] && b != [] && a[0] < b[0] {
      assert a[..0] == b[..0];
    }
  }

  /** Strictly increasing paths: the order a reader of the listing sees. */
  ghost predicate Ordered(s: seq<HierEntry>) {
    forall i, j | 0 <= i < j < |s| :: s[i].path != s[j].path && BytesLe(s[i].path, s[j].path)
  }

  lemma {:induction false} InsertOrdered(s: seq<HierEntry>, e: HierEntry)
    requires Ordered(s) && !PathIn(s, e.path)
    ensures Ordered(Insert(s, e))
    ensures forall x :: x in Insert(s, e) <==> x == e || x in s
  {
    if s != [] {
      BytesLeTotal(s[0].path, e.path);
      assert s[0].path != e.path;
      if EntryLe(s[0], e) {
        InsertOrdered(s[1..], e);
        var rest := Insert(s[1..], e);
        forall j | 0 <= j < |rest| ensures rest[j].path != s[0].path && BytesLe(s[0].path, rest[j].path) {
          assert rest[j] in rest;
          if rest[j] != e {
            var k :| 0 <= k < |s[1..]| && s[1..][k] == rest[j];
            assert s[k + 1] == rest[j];
          }
        }
        assert s == [s[0]] + s[1..];
      } else {
        forall j | 0 <= j < |s| ensures s[j].path != e.path && BytesLe(e.path, s[j].path) {
          if j > 0 {
            BytesLeTransitive(e.path, s[0].path, s[j].path);
          }
        }
      }
    }
  }

  lemma {:induction false} SortOrders(s: seq<HierEntry>)
    requires UniquePaths(s)
    ensures Ordered(Sort(s))
    ensures forall x :: x in Sort(s) <==> x in s
    decreases |s|
  {
    if s != [] {
      SortOrders(Front(s));
      forall i | 0 <= i < |Sort(Front(s))| ensures Sort(Front(s))[i].path != Last(s).path {
        assert Sort(Front(s))[i] in Front(s);
      }
      InsertOrdered(Sort(Front(s)), Last(s));
      assert s == Front(s) + [Last(s)];
    }
  }

  /** The snapshot lists every resolved path once, in strictly increasing order. */
  lemma SnapshotResolves(ps: Pushes)
    ensures Ordered(Snapshot(ps))
    ensures forall e :: e in Snapshot(ps) <==> Resolved(ps, e.path) == Some(e)
  {
    MergeResolves(ps);
    SortOrders(PushAll([], ps));
  }

  /** An ordered list is determined by its elements. */
  lemma {:induction false} OrderedUnique(a: seq<HierEntry>, b: seq<HierEntry>)
    requires Ordered(a) && Ordered(b)
    requires forall e :: e in a <==> e in b
    ensures a == b
  {
    if b != [] {
      assert b[0] in a;
    }
    if a != [] {
      assert a[0] in b;
      var i :| 0 <= i < |b| && b[i] == a[0];
      var j :| 0 <= j < |a| && a[j] == b[0];
      if i > 0 && j > 0 {
        BytesLeTotal(a[0].path, b[0].path);
        assert false;
      }
      assert a[0] == b[0];
      forall e ensures e in a[1..] <==> e in b[1..] {
        TailOf(a, e);
        TailOf(b, e);
      }
      OrderedUnique(a[1..], b[1..]);
      assert a == [a[0]] + a[1..] && b == [b[0]] + b[1..];
    }
  }

  lemma TailOf(s: seq<HierEntry>, e: HierEntry)
    requires Ordered(s) && s != []
    ensures e in s[1..] <==> e in s && e != s[0]
  {
    if e in s && e != s[0] {
      var k :| 0 <= k < |s| && s[k] == e;
      assert s[1..][k - 1] == e;
    }
  }
}
