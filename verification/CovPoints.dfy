/**
 The points a statement contributes, read off the statement alone, and the table the rewriter
 builds from them: dense ids, and an index that is a bijection between guards and ids.
 */
module CovPoints {
  import opened Common
  import opened CovText
  import opened CovModel

  datatype Point = Point(guard: string, at: Loc)

  function Points(s: Stmt, prefix: seq<string>): seq<Point>
    decreases s, 2
  {
    match s
    case If(_, _, _, _, _) => PointsOfChain(s, prefix, "")
    case Block(body) => Points(body, prefix)
    case List(items) => PointsOfAll(items, prefix)
    case Case(_, branches) => PointsOfAll(branches, prefix)
    case Loop(_, body) => Points(body, prefix)
    case _ => []
  }

  function PointsOfAll(items: seq<Stmt>, prefix: seq<string>): seq<Point>
    decreases items, 3
  {
    if items == [] then [] else Points(items[0], prefix) + PointsOfAll(items[1..], prefix)
  }

  function PointsOfThen(s: Stmt, prefix: seq<string>, chain: string): seq<Point>
    requires s.If?
    decreases s, 0
  {
    var branch := BranchPrefix(prefix, chain);
    Points(s.thn, branch + [s.cond.text]) +
    if IsEmptyBody(s.thn) then [] else [Point(BuildGuard(branch, s.cond.text), s.thnAt)]
  }

  function PointsOfElse(e: Stmt, at: Loc, prefix: seq<string>, chain: string): seq<Point>
    decreases e, 3
  {
    var branch := BranchPrefix(prefix, chain);
    Points(e, branch) + [Point(BuildGuard(branch, ""), at)]
  }

  function PointsOfChain(s: Stmt, prefix: seq<string>, chain: string): seq<Point>
    requires s.If?
    decreases s, 1
  {
    if s.cond.support != Plain then []
    else
      var negated := AddNegation(chain, s.cond.text);
      PointsOfThen(s, prefix, chain) +
      match s.els
      case None => []
      case Some(e) =>
        if e.If? then PointsOfChain(e, prefix, negated)
        else if IsEmptyBody(e) then []
        else PointsOfElse(e, s.elsAt, prefix, negated)
  }

  // ---- recording ----

  predicate SameTable(a: Info, b: Info) {
    a.paths == b.paths && a.index == b.index
  }

  function RecordAll(info: Info, pts: seq<Point>): (r: Info)
    requires Indexed(info)
    ensures Indexed(r)
  {
    if pts == [] then info
    else RecordPath(RecordAll(info, Front(pts)), Last(pts).guard, Last(pts).at).info
  }

  lemma {:induction false} RecordAllConcat(info: Info, a: seq<Point>, b: seq<Point>)
    requires Indexed(info)
    ensures RecordAll(info, a + b) == RecordAll(RecordAll(info, a), b)
  {
    if b == [] {
      assert a + b == a;
    } else {
      RecordAllConcat(info, a, Front(b));
      assert Front(a + b) == a + Front(b);
    }
  }

  lemma {:induction false} RecordAllSame(x: Info, y: Info, pts: seq<Point>)
    requires Indexed(x) && Indexed(y) && SameTable(x, y)
    ensures SameTable(RecordAll(x, pts), RecordAll(y, pts))
  {
    if pts != [] {
      RecordAllSame(x, y, Front(pts));
    }
  }

  lemma RecordOne(info: Info, p: Point)
    requires Indexed(info)
    ensures RecordAll(info, [p]) == RecordPath(info, p.guard, p.at).info
  {
    assert Front([p]) == [];
  }

  /** The rewriter records exactly the points of the statement, in order. */
  lemma {:induction false} RewriteRecords(s: Stmt, prefix: seq<string>, info: Info)
    requires Indexed(info)
    ensures SameTable(Rewrite(s, prefix, info).info, RecordAll(info, Points(s, prefix)))
    decreases s, 2
  {
    match s
    case If(_, _, _, _, _) => ChainRecords(s, prefix, "", info);
    case Block(body) => RewriteRecords(body, prefix, info);
    case List(items) => AllRecord(items, prefix, info);
    case Case(_, branches) => AllRecord(branches, prefix, info);
    case Loop(_, body) => RewriteRecords(body, prefix, info);
    case _ =>
  }

  lemma {:induction false} AllRecord(items: seq<Stmt>, prefix: seq<string>, info: Info)
    requires Indexed(info)
    ensures SameTable(RewriteAll(items, prefix, info).info, RecordAll(info, PointsOfAll(items, prefix)))
    decreases items, 3
  {
    if items != [] {
      var first := Rewrite(items[0], prefix, info);
      RewriteRecords(items[0], prefix, info);
      AllRecord(items[1..], prefix, first.info);
      RecordAllSame(first.info, RecordAll(info, Points(items[0], prefix)), PointsOfAll(items[1..], prefix));
      RecordAllConcat(info, Points(items[0], prefix), PointsOfAll(items[1..], prefix));
    }
  }

  /** After a body, the point of its branch. */
  lemma {:induction false} ThenRecords(s: Stmt, prefix: seq<string>, chain: string, info: Info)
    requires s.If? && Indexed(info)
    ensures SameTable(RewriteThen(s, prefix, chain, info).info, RecordAll(info, PointsOfThen(s, prefix, chain)))
    decreases s, 0
  {
    var branch := BranchPrefix(prefix, chain);
    var nested := branch + [s.cond.text];
    RewriteRecords(s.thn, nested, info);
    if IsEmptyBody(s.thn) {
      assert PointsOfThen(s, prefix, chain) == Points(s.thn, nested);
    } else {
      var p := Point(BuildGuard(branch, s.cond.text), s.thnAt);
      RecordAllConcat(info, Points(s.thn, nested), [p]);
      RecordOne(RecordAll(info, Points(s.thn, nested)), p);
    }
  }

  lemma {:induction false} ElseRecords(e: Stmt, at: Loc, prefix: seq<string>, chain: string, info: Info)
    requires Indexed(info)
    ensures SameTable(RewriteElse(e, at, prefix, chain, info).info, RecordAll(info, PointsOfElse(e, at, prefix, chain)))
    decreases e, 3
  {
    var branch := BranchPrefix(prefix, chain);
    RewriteRecords(e, branch, info);
    var p := Point(BuildGuard(branch, ""), at);
    RecordAllConcat(info, Points(e, branch), [p]);
    RecordOne(RecordAll(info, Points(e, branch)), p);
  }

  lemma {:induction false} ChainRecords(s: Stmt, prefix: seq<string>, chain: string, info: Info)
    requires s.If? && Indexed(info)
    ensures SameTable(RewriteChain(s, prefix, chain, info).info, RecordAll(info, PointsOfChain(s, prefix, chain)))
    decreases s, 1
  {
    if s.cond.support == Plain {
      ThenRecords(s, prefix, chain, info);
      var t := RewriteThen(s, prefix, chain, info);
      var negated := AddNegation(chain, s.cond.text);
      var mine := PointsOfThen(s, prefix, chain);
      if s.els.Some? && (s.els.value.If? || !IsEmptyBody(s.els.value)) {
        var e := s.els.value;
        var rest := if e.If? then PointsOfChain(e, prefix, negated) else PointsOfElse(e, s.elsAt, prefix, negated);
        if e.If? {
          ChainRecords(e, prefix, negated, t.info);
        } else {
          ElseRecords(e, s.elsAt, prefix, negated, t.info);
        }
        RecordAllSame(t.info, RecordAll(info, mine), rest);
        RecordAllConcat(info, mine, rest);
      } else {
        assert PointsOfChain(s, prefix, chain) == mine;
      }
    }
  }

  // ---- the table ----

  /** Ids are dense positions; the index maps each recorded guard to its id and nothing else. */
  ghost predicate TableOk(info: Info) {
    && Indexed(info)
    && (forall i | 0 <= i < |info.paths| ::
          info.paths[i].id == i && info.paths[i].guard in info.index && info.index[info.paths[i].guard] == i)
    && (forall g | g in info.index :: info.paths[info.index[g]].guard == g)
  }

  function Occurs(pts: seq<Point>, guard: string): nat {
    if pts == [] then 0
    else Occurs(Front(pts), guard) + (if Last(pts).guard == guard then 1 else 0)
  }

  lemma {:induction false} OccursConcat(a: seq<Point>, b: seq<Point>, guard: string)
    ensures Occurs(a + b, guard) == Occurs(a, guard) + Occurs(b, guard)
  {
    if b == [] {
      assert a + b == a;
    } else {
      OccursConcat(a, Front(b), guard);
      assert Front(a + b) == a + Front(b);
    }
  }

  function LocationCount(info: Info, guard: string): nat
    requires Indexed(info)
  {
    if guard in info.index then |info.paths[info.index[guard]].locations| else 0
  }

  /** `b` keeps every id of `a`. */
  ghost predicate Extends(a: Info, b: Info) {
    forall g | g in a.index :: g in b.index && b.index[g] == a.index[g]
  }

  lemma RecordTable(info: Info, p: Point, guard: string)
    requires TableOk(info)
    ensures
      var r := RecordPath(info, p.guard, p.at).info;
      && TableOk(r) && Extends(info, r)
      && LocationCount(r, guard) == LocationCount(info, guard) + (if p.guard == guard then 1 else 0)
      && (guard in r.index <==> guard in info.index || p.guard == guard)
  {
  }

  lemma {:induction false} RecordAllTable(info: Info, pts: seq<Point>, guard: string)
    requires TableOk(info)
    ensures TableOk(RecordAll(info, pts)) && Extends(info, RecordAll(info, pts))
    ensures LocationCount(RecordAll(info, pts), guard) == LocationCount(info, guard) + Occurs(pts, guard)
    ensures guard in RecordAll(info, pts).index <==> guard in info.index || Occurs(pts, guard) > 0
  {
    hide RecordPath, LocationCount;
    if pts != [] {
      RecordAllTable(info, Front(pts), guard);
      RecordTable(RecordAll(info, Front(pts)), Last(pts), guard);
    }
  }

  /** A table grows only: what a rewrite returns extends what it was given. */
  lemma RewriteTable(s: Stmt, prefix: seq<string>, info: Info)
    requires TableOk(info)
    ensures TableOk(Rewrite(s, prefix, info).info) && Extends(info, Rewrite(s, prefix, info).info)
  {
    RewriteRecords(s, prefix, info);
    RecordAllTable(info, Points(s, prefix), "");
  }
}
