/** The coverage table read against the branches that a statement really takes. */
module CovBranches {
  import opened Common
  import opened CovText
  import opened CovModel
  import opened CovPoints
  import opened CovMeaning
  import opened CovExact
  import opened CovResults

  // ---- the table holds the locations of the points ----

  /** The locations of the points with this guard, in order. */
  function LocationsOf(pts: seq<Point>, guard: string): seq<Loc> {
    if pts == [] then []
    else (if pts[0].guard == guard then [pts[0].at] else []) + LocationsOf(pts[1..], guard)
  }

  lemma {:induction false} LocationsSnoc(pts: seq<Point>, p: Point, guard: string)
    ensures LocationsOf(pts + [p], guard) == LocationsOf(pts, guard) + if p.guard == guard then [p.at] else []
  {
    if pts == [] {
      assert pts + [p] == [p] && [p][1..] == [];
    } else {
      LocationsSnoc(pts[1..], p, guard);
      assert (pts + [p])[1..] == pts[1..] + [p];
    }
  }

  function Recorded(info: Info, guard: string): seq<Loc>
    requires Indexed(info)
  {
    if guard in info.index then info.paths[info.index[guard]].locations else []
  }

  lemma RecordLocation(info: Info, p: Point, guard: string)
    requires TableOk(info)
    ensures Recorded(RecordPath(info, p.guard, p.at).info, guard) ==
            Recorded(info, guard) + if p.guard == guard then [p.at] else []
  {
    if guard in info.index && p.guard in info.index && info.index[guard] == info.index[p.guard] {
      assert info.paths[info.index[guard]].guard == guard;
    }
  }

  lemma {:induction false} RecordedLocations(pts: seq<Point>, guard: string)
    ensures Recorded(RecordAll(NO_INFO, pts), guard) == LocationsOf(pts, guard)
  {
    hide RecordPath, Recorded;
    if pts == [] {
      NothingRecorded(guard);
    } else {
      RecordedLocations(Front(pts), guard);
      RecordAllTable(NO_INFO, Front(pts), guard);
      RecordLocation(RecordAll(NO_INFO, Front(pts)), Last(pts), guard);
      LocationsSnoc(Front(pts), Last(pts), guard);
      assert pts == Front(pts) + [Last(pts)];
    }
  }

  lemma NothingRecorded(guard: string)
    ensures Recorded(NO_INFO, guard) == []
  {
  }

  /** The table gives each guard the locations of its points, in order, and has no other guards. */
  lemma TableLocations(s: Stmt, guard: string)
    ensures var info := Rewrite(s, [], NO_INFO).info;
      if guard in info.index
      then info.paths[info.index[guard]].locations == LocationsOf(Points(s, []), guard) && LocationsOf(Points(s, []), guard) != []
      else LocationsOf(Points(s, []), guard) == []
  {
    RewriteRecords(s, [], NO_INFO);
    RecordedLocations(Points(s, []), guard);
    RecordAllTable(NO_INFO, Points(s, []), guard);
    OccursLocations(Points(s, []), guard);
  }

  lemma {:induction false} OccursLocations(pts: seq<Point>, guard: string)
    ensures |LocationsOf(pts, guard)| == Occurs(pts, guard)
  {
    if pts != [] {
      OccursLocations(Front(pts), guard);
      LocationsSnoc(Front(pts), Last(pts), guard);
      assert pts == Front(pts) + [Last(pts)];
    }
  }

  // ---- the branches an execution enters ----

  /** Without the begin and end around it. */
  function Core(s: Stmt): Stmt {
    if s.Block? then Core(s.body) else s
  }

  predicate Blank(s: Stmt) {
    Core(s) == Empty || Core(s) == List([])
  }

  lemma {:induction false} BlankIsEmptyBody(s: Stmt)
    ensures Blank(s) <==> IsEmptyBody(s)
  {
    if s.Block? {
      BlankIsEmptyBody(s.body);
    }
  }

  /**
   Where an execution of the original enters a branch that is not blank, in order: inner ones first, as
   far as chains are supported.
   */
  ghost function Entered<S>(sem: Sem<S>, s: Stmt, st: S): seq<Loc>
    decreases s, 0
  {
    match s
    case Block(body) => Entered(sem, body, st)
    case List(items) => EnteredAll(sem, items, st)
    case If(cond, thn, thnAt, els, elsAt) =>
      if cond.support != Plain then []
      else if TruthIn(sem, cond.text, st) then Entered(sem, thn, st) + if Blank(thn) then [] else [thnAt]
      else if els.None? || (!els.value.If? && Blank(els.value)) then []
      else if els.value.If? then Entered(sem, els.value, st)
      else Entered(sem, els.value, st) + [elsAt]
    case _ => []
  }

  ghost function EnteredAll<S>(sem: Sem<S>, items: seq<Stmt>, st: S): seq<Loc>
    decreases items, 1
  {
    if items == [] then []
    else Entered(sem, items[0], st) + EnteredAll(sem, items[1..], Exec(sem, false, items[0], st).state)
  }

  ghost function ReportIf(holds: bool, at: Loc): seq<Loc> {
    if holds then [at] else []
  }

  /** The locations of the points whose guard holds, in order. */
  ghost function Reported(base: string -> bool, pts: seq<Point>): seq<Loc> {
    if pts == [] then [] else ReportIf(Holds(base, pts[0].guard), pts[0].at) + Reported(base, pts[1..])
  }

  lemma ReportedStep(base: string -> bool, pts: seq<Point>)
    ensures Reported(base, pts) == if pts == [] then [] else ReportIf(Holds(base, pts[0].guard), pts[0].at) + Reported(base, pts[1..])
  {
  }

  lemma {:induction false} ReportedConcat(base: string -> bool, a: seq<Point>, b: seq<Point>)
    ensures Reported(base, a + b) == Reported(base, a) + Reported(base, b)
  {
    hide Holds, Reported, ReportIf;
    ReportedStep(base, a);
    if a == [] {
      assert a + b == b;
    } else {
      ReportedConcat(base, a[1..], b);
      ReportedStep(base, a + b);
      assert (a + b)[1..] == a[1..] + b;
    }
  }

  lemma ReportedOne(base: string -> bool, p: Point)
    ensures Reported(base, [p]) == if Holds(base, p.guard) then [p.at] else []
  {
    assert [p][1..] == [];
  }

  lemma {:induction false} NoneReported(base: string -> bool, pts: seq<Point>)
    requires NoneHold(base, pts)
    ensures Reported(base, pts) == []
  {
    if pts != [] {
      assert pts[0] in pts;
      NoneReported(base, pts[1..]);
    }
  }

  lemma {:induction false} EnteredReported<S(!new)>(sem: Sem<S>, base: string -> bool, s: Stmt, prefix: seq<string>, st: S)
    requires NonBlocking(sem) && Agrees(sem, base, st) && TextOk(s) && Straight(s) && AllBalanced(prefix) && AllTrue(base, prefix)
    ensures Entered(sem, s, st) == Reported(base, Points(s, prefix))
    decreases s, 2
  {
    match s
    case If(_, _, _, _, _) => ChainReported(sem, base, s, prefix, [], st);
    case Block(body) => EnteredReported(sem, base, body, prefix, st);
    case List(items) => AllReported(sem, base, items, prefix, st);
    case _ =>
  }

  lemma {:induction false} AllReported<S(!new)>(sem: Sem<S>, base: string -> bool, items: seq<Stmt>, prefix: seq<string>, st: S)
    requires NonBlocking(sem) && Agrees(sem, base, st) && AllBalanced(prefix) && AllTrue(base, prefix)
    requires forall i | 0 <= i < |items| :: TextOk(items[i]) && Straight(items[i])
    ensures EnteredAll(sem, items, st) == Reported(base, PointsOfAll(items, prefix))
    decreases items, 3
  {
    if items != [] {
      EnteredReported(sem, base, items[0], prefix, st);
      ExecAgrees(sem, false, base, items[0], st);
      AllReported(sem, base, items[1..], prefix, Exec(sem, false, items[0], st).state);
      ReportedConcat(base, Points(items[0], prefix), PointsOfAll(items[1..], prefix));
    }
  }

  lemma {:induction false} ThenReported<S(!new)>(sem: Sem<S>, base: string -> bool, s: Stmt, prefix: seq<string>, negs: seq<string>, st: S)
    requires NonBlocking(sem) && Agrees(sem, base, st) && s.If? && TextOk(s) && Straight(s)
    requires AllBalanced(prefix) && AllBalanced(negs) && Open(base, prefix, negs) && Truth(base, s.cond.text)
    ensures Reported(base, PointsOfThen(s, prefix, Joined(NOT_OPEN, negs))) ==
            Entered(sem, s.thn, st) + if Blank(s.thn) then [] else [s.thnAt]
    decreases s, 0
  {
    var branch := BranchPrefix(prefix, Joined(NOT_OPEN, negs));
    var nested := branch + [s.cond.text];
    BranchPrefixTrue(base, prefix, negs);
    AllTrueSnoc(base, branch, s.cond.text);
    EnteredReported(sem, base, s.thn, nested, st);
    BlankIsEmptyBody(s.thn);
    if IsEmptyBody(s.thn) {
      assert PointsOfThen(s, prefix, Joined(NOT_OPEN, negs)) == Points(s.thn, nested);
      assert Entered(sem, s.thn, st) + [] == Entered(sem, s.thn, st);
    } else {
      var p := Point(BuildGuard(branch, s.cond.text), s.thnAt);
      GuardHolds(base, prefix, negs, s.cond.text);
      ReportedOne(base, p);
      ReportedConcat(base, Points(s.thn, nested), [p]);
    }
  }

  lemma {:induction false} ElseReported<S(!new)>(sem: Sem<S>, base: string -> bool, e: Stmt, at: Loc, prefix: seq<string>, negs: seq<string>, st: S)
    requires NonBlocking(sem) && Agrees(sem, base, st) && TextOk(e) && Straight(e)
    requires AllBalanced(prefix) && AllBalanced(negs) && Open(base, prefix, negs)
    ensures Reported(base, PointsOfElse(e, at, prefix, Joined(NOT_OPEN, negs))) == Entered(sem, e, st) + [at]
    decreases e, 3
  {
    var branch := BranchPrefix(prefix, Joined(NOT_OPEN, negs));
    BranchPrefixTrue(base, prefix, negs);
    EnteredReported(sem, base, e, branch, st);
    var p := Point(BuildGuard(branch, ""), at);
    EmptyTextBalanced();
    GuardHolds(base, prefix, negs, "");
    ReportedOne(base, p);
    ReportedConcat(base, Points(e, branch), [p]);
  }

  lemma {:induction false} ChainReported<S(!new)>(sem: Sem<S>, base: string -> bool, s: Stmt, prefix: seq<string>, negs: seq<string>, st: S)
    requires NonBlocking(sem) && Agrees(sem, base, st) && s.If? && TextOk(s) && Straight(s)
    requires AllBalanced(prefix) && AllBalanced(negs) && Open(base, prefix, negs)
    ensures Entered(sem, s, st) == Reported(base, PointsOfChain(s, prefix, Joined(NOT_OPEN, negs)))
    decreases s, 1
  {
    var chain := Joined(NOT_OPEN, negs);
    assert Usable(s.cond.text);
    if s.cond.support == Plain {
      var mine, rest := PointsOfThen(s, prefix, chain), PointsAfter(s, prefix, chain);
      assert PointsOfChain(s, prefix, chain) == mine + rest;
      ReportedConcat(base, mine, rest);
      if Truth(base, s.cond.text) {
        ThenReported(sem, base, s, prefix, negs, st);
        DeadRest(base, s, prefix, negs);
        NoneReported(base, rest);
      } else {
        DeadThen(base, s, prefix, negs);
        NoneReported(base, mine);
        AfterReported(sem, base, s, prefix, negs, st);
      }
    }
  }

  lemma {:induction false} AfterReported<S(!new)>(sem: Sem<S>, base: string -> bool, s: Stmt, prefix: seq<string>, negs: seq<string>, st: S)
    requires NonBlocking(sem) && Agrees(sem, base, st) && s.If? && TextOk(s) && Straight(s) && s.cond.support == Plain
    requires AllBalanced(prefix) && AllBalanced(negs) && Open(base, prefix, negs) && !Truth(base, s.cond.text)
    ensures Entered(sem, s, st) == Reported(base, PointsAfter(s, prefix, Joined(NOT_OPEN, negs)))
    decreases s, 0
  {
    var more := negs + [s.cond.text];
    AddNegationJoins(negs, s.cond.text);
    assert Usable(s.cond.text);
    if s.els.Some? {
      var e := s.els.value;
      BlankIsEmptyBody(e);
      if e.If? {
        ChainReported(sem, base, e, prefix, more, st);
      } else if !IsEmptyBody(e) {
        ElseReported(sem, base, e, s.elsAt, prefix, more, st);
      }
    }
  }

  /**
   Coverage tells the branches: of a straight statement with non-blocking bodies, the locations of the
   points whose guards hold are those of the branches that its execution enters, in the same order.
   */
  lemma CoverageTellsBranches<S(!new)>(sem: Sem<S>, s: Stmt, st: S)
    requires NonBlocking(sem) && TextOk(s) && Straight(s)
    ensures Entered(sem, s, st) == Reported(PreState(sem, st), Points(s, []))
  {
    EnteredReported(sem, PreState(sem, st), s, [], st);
  }

  // ---- what is left out ----

  /** Every conditional that the rewriter reaches is supported and has no blank branch. */
  predicate Complete(s: Stmt) {
    match s
    case Block(body) => Complete(body)
    case List(items) => forall i | 0 <= i < |items| :: Complete(items[i])
    case If(cond, thn, _, els, _) =>
      cond.support == Plain && !Blank(thn) && Complete(thn) && (els.Some? ==> !Blank(els.value) && Complete(els.value))
    case Case(_, branches) => forall i | 0 <= i < |branches| :: Complete(branches[i])
    case Loop(_, body) => Complete(body)
    case _ => true
  }

  function GapIf(blank: bool, why: Reason): seq<Reason> {
    if blank then [why] else []
  }

  /** What cannot be counted, in order: of a conditional that is not supported nothing, of another one its blank branches. */
  function Gaps(s: Stmt): seq<Reason>
    decreases s, 0
  {
    match s
    case Block(body) => Gaps(body)
    case List(items) => AllGaps(items)
    case Case(_, branches) => AllGaps(branches)
    case Loop(_, body) => Gaps(body)
    case If(cond, thn, _, els, _) =>
      if cond.support == UnsafeExpression then [UnsafeCondition]
      else if cond.support != Plain then [UnsupportedConditional]
      else
        Gaps(thn) + GapIf(Blank(thn), EmptyIfBody)
        + if els.None? then [] else Gaps(els.value) + GapIf(Blank(els.value), EmptyElseBody)
    case _ => []
  }

  function AllGaps(items: seq<Stmt>): seq<Reason>
    decreases items, 1
  {
    if items == [] then [] else Gaps(items[0]) + AllGaps(items[1..])
  }

  lemma {:induction false} BlankHasNoGaps(s: Stmt)
    requires Blank(s)
    ensures Gaps(s) == []
  {
    if s.Block? {
      BlankHasNoGaps(s.body);
    }
  }

  lemma {:induction false} RewriteSkips(s: Stmt, prefix: seq<string>, info: Info)
    requires Indexed(info)
    ensures Rewrite(s, prefix, info).info.skipped == info.skipped + Gaps(s)
    decreases s, 2
  {
    match s
    case If(_, _, _, _, _) => ChainSkips(s, prefix, "", info);
    case Block(body) => RewriteSkips(body, prefix, info);
    case List(items) => AllSkip(items, prefix, info);
    case Case(_, branches) => AllSkip(branches, prefix, info);
    case Loop(_, body) => RewriteSkips(body, prefix, info);
    case _ =>
  }

  lemma {:induction false} AllSkip(items: seq<Stmt>, prefix: seq<string>, info: Info)
    requires Indexed(info)
    ensures RewriteAll(items, prefix, info).info.skipped == info.skipped + AllGaps(items)
    decreases items, 3
  {
    if items != [] {
      RewriteSkips(items[0], prefix, info);
      AllSkip(items[1..], prefix, Rewrite(items[0], prefix, info).info);
    }
  }

  lemma {:induction false} ThenSkips(s: Stmt, prefix: seq<string>, chain: string, info: Info)
    requires s.If? && Indexed(info)
    ensures RewriteThen(s, prefix, chain, info).info.skipped == info.skipped + Gaps(s.thn) + GapIf(Blank(s.thn), EmptyIfBody)
    decreases s, 0
  {
    RewriteSkips(s.thn, BranchPrefix(prefix, chain) + [s.cond.text], info);
    BlankIsEmptyBody(s.thn);
  }

  lemma {:induction false} ElseSkips(e: Stmt, at: Loc, prefix: seq<string>, chain: string, info: Info)
    requires Indexed(info)
    ensures RewriteElse(e, at, prefix, chain, info).info.skipped == info.skipped + Gaps(e)
    decreases e, 3
  {
    RewriteSkips(e, BranchPrefix(prefix, chain), info);
  }

  lemma {:induction false} ChainSkips(s: Stmt, prefix: seq<string>, chain: string, info: Info)
    requires s.If? && Indexed(info)
    ensures RewriteChain(s, prefix, chain, info).info.skipped == info.skipped + Gaps(s)
    decreases s, 1
  {
    hide RecordPath, RewriteThen, RewriteElse, IsEmptyBody, AddNegation, GapIf, Blank;
    if s.cond.support == Plain {
      ThenSkips(s, prefix, chain, info);
      var t := RewriteThen(s, prefix, chain, info).info;
      var mine := Gaps(s.thn) + GapIf(Blank(s.thn), EmptyIfBody);
      assert t.skipped == info.skipped + mine;
      if s.els.Some? {
        var e := s.els.value;
        var more := Gaps(e) + GapIf(Blank(e), EmptyElseBody);
        AfterSkips(s, prefix, AddNegation(chain, s.cond.text), t);
        assert RewriteChain(s, prefix, chain, info).info.skipped == t.skipped + more;
      }
    }
  }

  lemma {:induction false} AfterSkips(s: Stmt, prefix: seq<string>, negated: string, info: Info)
    requires s.If? && s.els.Some? && Indexed(info)
    ensures
      var e := s.els.value;
      info.skipped + (Gaps(e) + GapIf(Blank(e), EmptyElseBody)) ==
        if e.If? then RewriteChain(e, prefix, negated, info).info.skipped
        else if IsEmptyBody(e) then Skip(info, EmptyElseBody).skipped
        else RewriteElse(e, s.elsAt, prefix, negated, info).info.skipped
    decreases s, 0
  {
    hide RecordPath, RewriteElse, RewriteChain, IsEmptyBody;
    var e := s.els.value;
    BlankIsEmptyBody(e);
    if e.If? {
      ChainSkips(e, prefix, negated, info);
    } else if IsEmptyBody(e) {
      BlankHasNoGaps(e);
    } else {
      ElseSkips(e, s.elsAt, prefix, negated, info);
    }
  }

  lemma {:induction false} CompleteHasNoGaps(s: Stmt)
    ensures Gaps(s) == [] <==> Complete(s)
    decreases s, 0
  {
    match s
    case Block(body) => CompleteHasNoGaps(body);
    case List(items) => AllComplete(items);
    case Case(_, branches) => AllComplete(branches);
    case Loop(_, body) => CompleteHasNoGaps(body);
    case If(_, thn, _, els, _) =>
      CompleteHasNoGaps(thn);
      if els.Some? {
        CompleteHasNoGaps(els.value);
      }
    case _ =>
  }

  lemma {:induction false} AllComplete(items: seq<Stmt>)
    ensures AllGaps(items) == [] <==> forall i | 0 <= i < |items| :: Complete(items[i])
    decreases items, 1
  {
    if items != [] {
      CompleteHasNoGaps(items[0]);
      AllComplete(items[1..]);
      assert items == [items[0]] + items[1..];
    }
  }

  /** The report names what is not counted, in order, and is empty if and only if every conditional is counted in full. */
  lemma SkippedAre(s: Stmt)
    ensures Rewrite(s, [], NO_INFO).info.skipped == Gaps(s)
    ensures Gaps(s) == [] <==> Complete(s)
  {
    RewriteSkips(s, [], NO_INFO);
    CompleteHasNoGaps(s);
  }
}
