/**
 Counter exactness: with non-blocking bodies, so that every condition reads the pre-state, one
 execution raises the counter of a guard once per recorded location if the guard holds, else never.
 */
module CovExact {
  import opened Common
  import opened CovText
  import opened CovModel
  import opened CovPoints
  import opened CovMeaning

  /** Condition texts are not empty and match their own parentheses. */
  ghost predicate TextOk(s: Stmt) {
    match s
    case Block(body) => TextOk(body)
    case List(items) => forall i | 0 <= i < |items| :: TextOk(items[i])
    case If(cond, thn, _, els, _) =>
      cond.text != "" && Balanced(cond.text) && TextOk(thn) && (els.Some? ==> TextOk(els.value))
    case Case(_, branches) => forall i | 0 <= i < |branches| :: TextOk(branches[i])
    case Loop(_, body) => TextOk(body)
    case Count(_) => false
    case _ => true
  }

  lemma TextOkCountFree(s: Stmt)
    requires TextOk(s)
    ensures CountFree(s)
  {
  }

  /** Conditionals, blocks and lists only: every recorded point is reached when its guard holds. */
  predicate Straight(s: Stmt) {
    match s
    case Block(body) => Straight(body)
    case List(items) => forall i | 0 <= i < |items| :: Straight(items[i])
    case If(_, thn, _, els, _) => Straight(thn) && (els.Some? ==> Straight(els.value))
    case Case(_, _) => false
    case Loop(_, _) => false
    case _ => true
  }

  /** A text a condition can have. */
  ghost predicate Usable(text: string) {
    text != "" && Balanced(text)
  }

  /** No leaf changes the truth of a condition before the next clock edge. */
  ghost predicate NonBlocking<S(!new)>(sem: Sem<S>) {
    forall l, t, st | Usable(t) :: TruthIn(sem, t, sem.leaf(l, st)) == TruthIn(sem, t, st)
  }

  ghost predicate Agrees<S>(sem: Sem<S>, base: string -> bool, st: S) {
    forall t | Usable(t) :: TruthIn(sem, t, st) == Truth(base, t)
  }

  lemma {:induction false} ExecAgrees<S(!new)>(sem: Sem<S>, on: bool, base: string -> bool, s: Stmt, st: S)
    requires NonBlocking(sem) && Agrees(sem, base, st)
    ensures Agrees(sem, base, Exec(sem, on, s, st).state)
    decreases s, 0, 0
  {
    match s
    case Block(body) => ExecAgrees(sem, on, base, body, st);
    case List(items) => ExecAllAgrees(sem, on, base, items, st);
    case If(cond, thn, _, els, _) =>
      ExecAgrees(sem, on, base, thn, st);
      if els.Some? {
        ExecAgrees(sem, on, base, els.value, st);
      }
    case Case(selector, branches) =>
      var i := sem.select(selector, |branches|, st);
      if i < |branches| {
        ExecAgrees(sem, on, base, branches[i], st);
      }
    case Loop(header, body) => ExecTimesAgrees(sem, on, base, body, sem.times(header, st), st);
    case _ =>
  }

  lemma {:induction false} ExecAllAgrees<S(!new)>(sem: Sem<S>, on: bool, base: string -> bool, items: seq<Stmt>, st: S)
    requires NonBlocking(sem) && Agrees(sem, base, st)
    ensures Agrees(sem, base, ExecAll(sem, on, items, st).state)
    decreases items, 1, 0
  {
    if items != [] {
      ExecAgrees(sem, on, base, items[0], st);
      ExecAllAgrees(sem, on, base, items[1..], Exec(sem, on, items[0], st).state);
    }
  }

  lemma {:induction false} ExecTimesAgrees<S(!new)>(sem: Sem<S>, on: bool, base: string -> bool, body: Stmt, n: nat, st: S)
    requires NonBlocking(sem) && Agrees(sem, base, st)
    ensures Agrees(sem, base, ExecTimes(sem, on, body, n, st).state)
    decreases body, 1, n
  {
    if n > 0 {
      ExecAgrees(sem, on, base, body, st);
      ExecTimesAgrees(sem, on, base, body, n - 1, Exec(sem, on, body, st).state);
    }
  }

  // ---- guards under a false prefix ----

  lemma BranchPrefixParts(prefix: seq<string>, negs: seq<string>)
    ensures BranchPrefix(prefix, Joined(NOT_OPEN, negs)) ==
            if negs == [] then prefix else prefix + [Joined(NOT_OPEN, negs)]
  {
    assert negs != [] ==> Joined(NOT_OPEN, negs) != "";
  }

  /** The way to a branch of a chain is open: outer conditions true, earlier ones of the chain false. */
  ghost predicate Open(base: string -> bool, prefix: seq<string>, negs: seq<string>) {
    AllTrue(base, prefix) && forall c | c in negs :: !Truth(base, c)
  }

  lemma BranchPrefixTrue(base: string -> bool, prefix: seq<string>, negs: seq<string>)
    requires AllBalanced(prefix) && AllBalanced(negs)
    ensures AllBalanced(BranchPrefix(prefix, Joined(NOT_OPEN, negs)))
    ensures AllTrue(base, BranchPrefix(prefix, Joined(NOT_OPEN, negs))) <==> Open(base, prefix, negs)
  {
    BranchPrefixParts(prefix, negs);
    if negs != [] {
      NegationsBalanced(negs);
      TruthOfNegation(base, negs);
      AllTrueSnoc(base, prefix, Joined(NOT_OPEN, negs));
    }
  }

  lemma AllTrueSnoc(base: string -> bool, parts: seq<string>, p: string)
    ensures AllTrue(base, parts + [p]) <==> AllTrue(base, parts) && Truth(base, p)
  {
    assert forall x | x in parts :: x in parts + [p];
    assert p in parts + [p];
  }

  /** A branch guard holds exactly when the branch is entered. */
  lemma GuardHolds(base: string -> bool, prefix: seq<string>, negs: seq<string>, cond: string)
    requires AllBalanced(prefix) && AllBalanced(negs) && Balanced(cond)
    ensures Holds(base, BuildGuard(BranchPrefix(prefix, Joined(NOT_OPEN, negs)), cond)) <==>
            Open(base, prefix, negs) && (cond == "" || Truth(base, cond))
  {
    var branch := BranchPrefix(prefix, Joined(NOT_OPEN, negs));
    BranchPrefixTrue(base, prefix, negs);
    BuildGuardJoins(branch, cond);
    AllTrueSnoc(base, branch, cond);
    HoldsParts(base, if cond == "" then branch else branch + [cond]);
  }

  ghost predicate NoneHold(base: string -> bool, pts: seq<Point>) {
    forall p | p in pts :: !Holds(base, p.guard)
  }

  lemma EmptyTextBalanced()
    ensures Balanced("")
  {
    FlatBalanced("");
  }

  /** Behind a false prefix no guard holds. */
  lemma {:induction false} DeadPoints(base: string -> bool, s: Stmt, prefix: seq<string>)
    requires TextOk(s) && AllBalanced(prefix) && !AllTrue(base, prefix)
    ensures NoneHold(base, Points(s, prefix))
    decreases s, 2
  {
    match s
    case If(_, _, _, _, _) => DeadChain(base, s, prefix, []);
    case Block(body) => DeadPoints(base, body, prefix);
    case List(items) => DeadAll(base, items, prefix);
    case Case(_, branches) => DeadAll(base, branches, prefix);
    case Loop(_, body) => DeadPoints(base, body, prefix);
    case _ =>
  }

  lemma {:induction false} DeadAll(base: string -> bool, items: seq<Stmt>, prefix: seq<string>)
    requires (forall i | 0 <= i < |items| :: TextOk(items[i])) && AllBalanced(prefix) && !AllTrue(base, prefix)
    ensures NoneHold(base, PointsOfAll(items, prefix))
    decreases items, 3
  {
    if items != [] {
      DeadPoints(base, items[0], prefix);
      DeadAll(base, items[1..], prefix);
    }
  }

  lemma {:induction false} DeadThen(base: string -> bool, s: Stmt, prefix: seq<string>, negs: seq<string>)
    requires s.If? && TextOk(s) && AllBalanced(prefix) && AllBalanced(negs)
    requires !Open(base, prefix, negs) || !Truth(base, s.cond.text)
    ensures NoneHold(base, PointsOfThen(s, prefix, Joined(NOT_OPEN, negs)))
    decreases s, 0
  {
    var branch := BranchPrefix(prefix, Joined(NOT_OPEN, negs));
    BranchPrefixTrue(base, prefix, negs);
    AllTrueSnoc(base, branch, s.cond.text);
    DeadPoints(base, s.thn, branch + [s.cond.text]);
    GuardHolds(base, prefix, negs, s.cond.text);
  }

  lemma {:induction false} DeadElse(base: string -> bool, e: Stmt, at: Loc, prefix: seq<string>, negs: seq<string>)
    requires TextOk(e) && AllBalanced(prefix) && AllBalanced(negs) && !Open(base, prefix, negs)
    ensures NoneHold(base, PointsOfElse(e, at, prefix, Joined(NOT_OPEN, negs)))
    decreases e, 3
  {
    var branch := BranchPrefix(prefix, Joined(NOT_OPEN, negs));
    BranchPrefixTrue(base, prefix, negs);
    DeadPoints(base, e, branch);
    EmptyTextBalanced();
    GuardHolds(base, prefix, negs, "");
  }

  lemma {:induction false} DeadChain(base: string -> bool, s: Stmt, prefix: seq<string>, negs: seq<string>)
    requires s.If? && TextOk(s) && AllBalanced(prefix) && AllBalanced(negs) && !Open(base, prefix, negs)
    ensures NoneHold(base, PointsOfChain(s, prefix, Joined(NOT_OPEN, negs)))
    decreases s, 1
  {
    DeadThen(base, s, prefix, negs);
    DeadRest(base, s, prefix, negs);
  }

  /** The rest of a chain is dead when the branch is taken or the chain itself is not reached. */
  lemma {:induction false} DeadRest(base: string -> bool, s: Stmt, prefix: seq<string>, negs: seq<string>)
    requires s.If? && TextOk(s) && AllBalanced(prefix) && AllBalanced(negs)
    requires !Open(base, prefix, negs) || Truth(base, s.cond.text)
    ensures s.els.Some? ==>
              var negated := AddNegation(Joined(NOT_OPEN, negs), s.cond.text);
              if s.els.value.If? then NoneHold(base, PointsOfChain(s.els.value, prefix, negated))
              else NoneHold(base, PointsOfElse(s.els.value, s.elsAt, prefix, negated))
    decreases s, 0
  {
    var more := negs + [s.cond.text];
    AddNegationJoins(negs, s.cond.text);
    assert s.cond.text in more && forall c | c in negs :: c in more;
    if s.els.Some? {
      if s.els.value.If? {
        DeadChain(base, s.els.value, prefix, more);
      } else {
        DeadElse(base, s.els.value, s.elsAt, prefix, more);
      }
    }
  }

  // ---- counting ----

  function Hits(bumps: seq<nat>, id: nat): nat {
    if bumps == [] then 0 else (if bumps[0] == id then 1 else 0) + Hits(bumps[1..], id)
  }

  lemma {:induction false} HitsConcat(a: seq<nat>, b: seq<nat>, id: nat)
    ensures Hits(a + b, id) == Hits(a, id) + Hits(b, id)
  {
    if a == [] {
      assert a + b == b;
    } else {
      HitsConcat(a[1..], b, id);
      assert (a + b)[1..] == a[1..] + b;
    }
  }

  /** How often the counter of `guard` should move for these points. */
  ghost function Expected(base: string -> bool, pts: seq<Point>, guard: string): nat {
    if Holds(base, guard) then Occurs(pts, guard) else 0
  }

  lemma {:induction false} DeadExpected(base: string -> bool, pts: seq<Point>, guard: string)
    requires NoneHold(base, pts)
    ensures Expected(base, pts, guard) == 0
  {
    if pts != [] {
      assert pts == Front(pts) + [Last(pts)] && Last(pts) in pts;
      assert NoneHold(base, Front(pts));
      DeadExpected(base, Front(pts), guard);
    }
  }

  /** The claim about one execution: exact for straight statements, sound for all. */
  ghost predicate Right(base: string -> bool, straight: bool, bumps: seq<nat>, pts: seq<Point>, guard: string, id: nat) {
    && (straight ==> Hits(bumps, id) == Expected(base, pts, guard))
    && (!Holds(base, guard) ==> Hits(bumps, id) == 0)
  }

  lemma RightConcat(base: string -> bool, straight: bool, a: seq<nat>, p: seq<Point>, b: seq<nat>, q: seq<Point>, guard: string, id: nat)
    requires Right(base, straight, a, p, guard, id) && Right(base, straight, b, q, guard, id)
    ensures Right(base, straight, a + b, p + q, guard, id)
  {
    HitsConcat(a, b, id);
    OccursConcat(p, q, guard);
  }

  /** The final table, a guard in it, and the id the rewriter gave that guard. */
  ghost predicate IdOf(table: Info, guard: string, id: nat) {
    TableOk(table) && guard in table.index && table.index[guard] == id
  }

  /** Recording a point yields the id the final table knows its guard by. */
  lemma RecordedId(info: Info, g: string, at: Loc, table: Info, guard: string, id: nat)
    requires TableOk(info) && IdOf(table, guard, id) && Extends(RecordPath(info, g, at).info, table)
    ensures RecordPath(info, g, at).id == id <==> g == guard
  {
    var r := RecordPath(info, g, at);
    assert g in r.info.index && r.info.index[g] == r.id;
  }

  /** A wrapped body: its own bumps after the one of its point. */
  lemma CountedRight<S>(
      sem: Sem<S>, base: string -> bool, straight: bool, rid: nat, body: Stmt, st: S,
      pts: seq<Point>, p: Point, guard: string, id: nat)
    requires Right(base, straight, Exec(sem, true, body, st).bumps, pts, guard, id)
    requires rid == id <==> p.guard == guard
    requires Holds(base, p.guard)
    ensures Right(base, straight, Exec(sem, true, Counted(rid, body), st).bumps, pts + [p], guard, id)
  {
    var inner := Exec(sem, true, body, st).bumps;
    CountedEffect(sem, true, rid, body, st);
    HitsConcat([rid], inner, id);
    assert Hits([rid], id) == if rid == id then 1 else 0;
    OccursConcat(pts, [p], guard);
    assert Front([p]) == [] && Last([p]) == p;
  }

  lemma {:induction false} RewriteRight<S(!new)>(
      sem: Sem<S>, base: string -> bool, s: Stmt, prefix: seq<string>, info: Info, st: S,
      table: Info, guard: string, id: nat)
    requires NonBlocking(sem) && Agrees(sem, base, st) && TextOk(s) && AllBalanced(prefix) && AllTrue(base, prefix)
    requires TableOk(info) && IdOf(table, guard, id) && Extends(Rewrite(s, prefix, info).info, table)
    ensures Right(base, Straight(s), Exec(sem, true, Rewrite(s, prefix, info).stmt, st).bumps,
                  Points(s, prefix), guard, id)
    decreases s, 2, 0
  {
    match s
    case If(_, _, _, _, _) => ChainRight(sem, base, s, prefix, [], info, st, table, guard, id);
    case Block(body) => RewriteRight(sem, base, body, prefix, info, st, table, guard, id);
    case List(items) => AllRight(sem, base, items, prefix, info, st, table, guard, id);
    case Case(selector, branches) =>
      var i := sem.select(selector, |branches|, st);
      if i < |branches| {
        BranchRight(sem, base, branches, i, prefix, info, st, table, guard, id);
      }
    case Loop(header, body) =>
      TimesRight(sem, base, body, prefix, info, sem.times(header, st), st, table, guard, id);
    case _ =>
  }

  lemma {:induction false} AllRight<S(!new)>(
      sem: Sem<S>, base: string -> bool, items: seq<Stmt>, prefix: seq<string>, info: Info, st: S,
      table: Info, guard: string, id: nat)
    requires NonBlocking(sem) && Agrees(sem, base, st) && AllBalanced(prefix) && AllTrue(base, prefix)
    requires forall i | 0 <= i < |items| :: TextOk(items[i])
    requires TableOk(info) && IdOf(table, guard, id) && Extends(RewriteAll(items, prefix, info).info, table)
    ensures Right(base, forall i | 0 <= i < |items| :: Straight(items[i]),
                  ExecAll(sem, true, RewriteAll(items, prefix, info).stmts, st).bumps,
                  PointsOfAll(items, prefix), guard, id)
    decreases items, 3, 0
  {
    if items != [] {
      var straight := forall i | 0 <= i < |items| :: Straight(items[i]);
      var first := Rewrite(items[0], prefix, info);
      var rest := RewriteAll(items[1..], prefix, first.info);
      RewriteTable(items[0], prefix, info);
      AllTable(items[1..], prefix, first.info);
      RewriteRight(sem, base, items[0], prefix, info, st, table, guard, id);
      var e := Exec(sem, true, first.stmt, st);
      ExecAgrees(sem, true, base, first.stmt, st);
      AllRight(sem, base, items[1..], prefix, first.info, e.state, table, guard, id);
      var r := RewriteAll(items, prefix, info).stmts;
      assert r[0] == first.stmt && r[1..] == rest.stmts;
      RightConcat(base, straight, e.bumps, Points(items[0], prefix),
                  ExecAll(sem, true, rest.stmts, e.state).bumps, PointsOfAll(items[1..], prefix), guard, id);
    }
  }

  lemma AllTable(items: seq<Stmt>, prefix: seq<string>, info: Info)
    requires TableOk(info)
    ensures TableOk(RewriteAll(items, prefix, info).info) && Extends(info, RewriteAll(items, prefix, info).info)
  {
    AllRecord(items, prefix, info);
    RecordAllTable(info, PointsOfAll(items, prefix), "");
  }

  lemma {:induction false} BranchRight<S(!new)>(
      sem: Sem<S>, base: string -> bool, items: seq<Stmt>, i: nat, prefix: seq<string>, info: Info, st: S,
      table: Info, guard: string, id: nat)
    requires NonBlocking(sem) && Agrees(sem, base, st) && AllBalanced(prefix) && AllTrue(base, prefix)
    requires i < |items| && forall j | 0 <= j < |items| :: TextOk(items[j])
    requires TableOk(info) && IdOf(table, guard, id) && Extends(RewriteAll(items, prefix, info).info, table)
    ensures !Holds(base, guard) ==>
              Hits(Exec(sem, true, RewriteAll(items, prefix, info).stmts[i], st).bumps, id) == 0
    decreases items, 3, i
  {
    var first := Rewrite(items[0], prefix, info);
    RewriteTable(items[0], prefix, info);
    AllTable(items[1..], prefix, first.info);
    if i == 0 {
      RewriteRight(sem, base, items[0], prefix, info, st, table, guard, id);
    } else {
      BranchRight(sem, base, items[1..], i - 1, prefix, first.info, st, table, guard, id);
    }
  }

  lemma {:induction false} TimesRight<S(!new)>(
      sem: Sem<S>, base: string -> bool, body: Stmt, prefix: seq<string>, info: Info, n: nat, st: S,
      table: Info, guard: string, id: nat)
    requires NonBlocking(sem) && Agrees(sem, base, st) && TextOk(body) && AllBalanced(prefix) && AllTrue(base, prefix)
    requires TableOk(info) && IdOf(table, guard, id) && Extends(Rewrite(body, prefix, info).info, table)
    ensures !Holds(base, guard) ==>
              Hits(ExecTimes(sem, true, Rewrite(body, prefix, info).stmt, n, st).bumps, id) == 0
    decreases body, 3, n
  {
    if n > 0 {
      var r := Rewrite(body, prefix, info).stmt;
      RewriteRight(sem, base, body, prefix, info, st, table, guard, id);
      var e := Exec(sem, true, r, st);
      ExecAgrees(sem, true, base, r, st);
      TimesRight(sem, base, body, prefix, info, n - 1, e.state, table, guard, id);
      HitsConcat(e.bumps, ExecTimes(sem, true, r, n - 1, e.state).bumps, id);
    }
  }

  /** A then-branch that is entered. */
  lemma {:induction false} ThenRight<S(!new)>(
      sem: Sem<S>, base: string -> bool, s: Stmt, prefix: seq<string>, negs: seq<string>, info: Info, st: S,
      table: Info, guard: string, id: nat)
    requires NonBlocking(sem) && Agrees(sem, base, st) && s.If? && TextOk(s)
    requires AllBalanced(prefix) && AllBalanced(negs) && Open(base, prefix, negs) && Truth(base, s.cond.text)
    requires TableOk(info) && IdOf(table, guard, id)
    requires Extends(RewriteThen(s, prefix, Joined(NOT_OPEN, negs), info).info, table)
    ensures Right(base, Straight(s.thn),
                  Exec(sem, true, RewriteThen(s, prefix, Joined(NOT_OPEN, negs), info).stmt, st).bumps,
                  PointsOfThen(s, prefix, Joined(NOT_OPEN, negs)), guard, id)
    decreases s, 0, 0
  {
    var chain := Joined(NOT_OPEN, negs);
    var branch := BranchPrefix(prefix, chain);
    var nested := branch + [s.cond.text];
    var inner := Rewrite(s.thn, nested, info);
    BranchPrefixTrue(base, prefix, negs);
    AllTrueSnoc(base, branch, s.cond.text);
    RewriteTable(s.thn, nested, info);
    var p := Point(BuildGuard(branch, s.cond.text), s.thnAt);
    if IsEmptyBody(s.thn) {
      RewriteRight(sem, base, s.thn, nested, info, st, table, guard, id);
      assert PointsOfThen(s, prefix, chain) == Points(s.thn, nested);
    } else {
      var rec := RecordPath(inner.info, p.guard, p.at);
      RecordOne(inner.info, p);
      RecordAllTable(inner.info, [p], guard);
      RewriteRight(sem, base, s.thn, nested, info, st, table, guard, id);
      RecordedId(inner.info, p.guard, p.at, table, guard, id);
      GuardHolds(base, prefix, negs, s.cond.text);
      CountedRight(sem, base, Straight(s.thn), rec.id, inner.stmt, st, Points(s.thn, nested), p, guard, id);
    }
  }

  lemma {:induction false} ElseRight<S(!new)>(
      sem: Sem<S>, base: string -> bool, e: Stmt, at: Loc, prefix: seq<string>, negs: seq<string>, info: Info, st: S,
      table: Info, guard: string, id: nat)
    requires NonBlocking(sem) && Agrees(sem, base, st) && TextOk(e)
    requires AllBalanced(prefix) && AllBalanced(negs) && Open(base, prefix, negs)
    requires TableOk(info) && IdOf(table, guard, id)
    requires Extends(RewriteElse(e, at, prefix, Joined(NOT_OPEN, negs), info).info, table)
    ensures Right(base, Straight(e),
                  Exec(sem, true, RewriteElse(e, at, prefix, Joined(NOT_OPEN, negs), info).stmt, st).bumps,
                  PointsOfElse(e, at, prefix, Joined(NOT_OPEN, negs)), guard, id)
    decreases e, 3, 0
  {
    var branch := BranchPrefix(prefix, Joined(NOT_OPEN, negs));
    var inner := Rewrite(e, branch, info);
    BranchPrefixTrue(base, prefix, negs);
    RewriteTable(e, branch, info);
    var p := Point(BuildGuard(branch, ""), at);
    var rec := RecordPath(inner.info, p.guard, p.at);
    RecordOne(inner.info, p);
    RecordAllTable(inner.info, [p], guard);
    RewriteRight(sem, base, e, branch, info, st, table, guard, id);
    RecordedId(inner.info, p.guard, p.at, table, guard, id);
    EmptyTextBalanced();
    GuardHolds(base, prefix, negs, "");
    CountedRight(sem, base, Straight(e), rec.id, inner.stmt, st, Points(e, branch), p, guard, id);
  }

  lemma ThenTable(s: Stmt, prefix: seq<string>, chain: string, info: Info)
    requires s.If? && TableOk(info)
    ensures TableOk(RewriteThen(s, prefix, chain, info).info)
  {
    ThenRecords(s, prefix, chain, info);
    RecordAllTable(info, PointsOfThen(s, prefix, chain), "");
  }

  /** The points after the then-branch, and the table growing over them. */
  function PointsAfter(s: Stmt, prefix: seq<string>, chain: string): seq<Point>
    requires s.If?
  {
    var negated := AddNegation(chain, s.cond.text);
    match s.els
    case None => []
    case Some(e) =>
      if e.If? then PointsOfChain(e, prefix, negated)
      else if IsEmptyBody(e) then []
      else PointsOfElse(e, s.elsAt, prefix, negated)
  }

  lemma ChainTable(s: Stmt, prefix: seq<string>, chain: string, info: Info)
    requires s.If? && TableOk(info) && s.cond.support == Plain
    ensures Extends(RewriteThen(s, prefix, chain, info).info, RewriteChain(s, prefix, chain, info).info)
  {
    ThenTable(s, prefix, chain, info);
    var t := RewriteThen(s, prefix, chain, info).info;
    var negated := AddNegation(chain, s.cond.text);
    if s.els.Some? {
      var e := s.els.value;
      if e.If? {
        ChainRecords(e, prefix, negated, t);
        RecordAllTable(t, PointsOfChain(e, prefix, negated), "");
      } else if !IsEmptyBody(e) {
        ElseRecords(e, s.elsAt, prefix, negated, t);
        RecordAllTable(t, PointsOfElse(e, s.elsAt, prefix, negated), "");
      }
    }
  }

  /** A chain whose earlier conditions are all false. */
  lemma {:induction false} ChainRight<S(!new)>(
      sem: Sem<S>, base: string -> bool, s: Stmt, prefix: seq<string>, negs: seq<string>, info: Info, st: S,
      table: Info, guard: string, id: nat)
    requires NonBlocking(sem) && Agrees(sem, base, st) && s.If? && TextOk(s)
    requires AllBalanced(prefix) && AllBalanced(negs) && Open(base, prefix, negs)
    requires TableOk(info) && IdOf(table, guard, id)
    requires Extends(RewriteChain(s, prefix, Joined(NOT_OPEN, negs), info).info, table)
    ensures Right(base, Straight(s),
                  Exec(sem, true, RewriteChain(s, prefix, Joined(NOT_OPEN, negs), info).stmt, st).bumps,
                  PointsOfChain(s, prefix, Joined(NOT_OPEN, negs)), guard, id)
    decreases s, 1, 0
  {
    var chain := Joined(NOT_OPEN, negs);
    assert Usable(s.cond.text);
    if s.cond.support != Plain {
      TextOkCountFree(s);
      OriginalRaisesNothing(sem, true, s, st);
    } else if Truth(base, s.cond.text) {
      ChainTable(s, prefix, chain, info);
      ThenRight(sem, base, s, prefix, negs, info, st, table, guard, id);
      DeadRest(base, s, prefix, negs);
      DeadExpected(base, PointsAfter(s, prefix, chain), guard);
      OccursConcat(PointsOfThen(s, prefix, chain), PointsAfter(s, prefix, chain), guard);
    } else {
      ThenTable(s, prefix, chain, info);
      DeadThen(base, s, prefix, negs);
      DeadExpected(base, PointsOfThen(s, prefix, chain), guard);
      OccursConcat(PointsOfThen(s, prefix, chain), PointsAfter(s, prefix, chain), guard);
      ChainElseRight(sem, base, s, prefix, negs, info, st, table, guard, id);
    }
  }

  /** The rest of a chain once its first condition is false. */
  lemma {:induction false} ChainElseRight<S(!new)>(
      sem: Sem<S>, base: string -> bool, s: Stmt, prefix: seq<string>, negs: seq<string>, info: Info, st: S,
      table: Info, guard: string, id: nat)
    requires NonBlocking(sem) && Agrees(sem, base, st) && s.If? && TextOk(s) && s.cond.support == Plain
    requires AllBalanced(prefix) && AllBalanced(negs) && Open(base, prefix, negs) && !Truth(base, s.cond.text)
    requires TableOk(info) && TableOk(RewriteThen(s, prefix, Joined(NOT_OPEN, negs), info).info) && IdOf(table, guard, id)
    requires Extends(RewriteChain(s, prefix, Joined(NOT_OPEN, negs), info).info, table)
    ensures Right(base, Straight(s),
                  Exec(sem, true, RewriteChain(s, prefix, Joined(NOT_OPEN, negs), info).stmt, st).bumps,
                  PointsAfter(s, prefix, Joined(NOT_OPEN, negs)), guard, id)
    decreases s, 0, 0
  {
    var t := RewriteThen(s, prefix, Joined(NOT_OPEN, negs), info);
    var more := negs + [s.cond.text];
    AddNegationJoins(negs, s.cond.text);
    assert Usable(s.cond.text);
    if s.els.Some? {
      var e := s.els.value;
      if e.If? {
        ChainRight(sem, base, e, prefix, more, t.info, st, table, guard, id);
      } else if !IsEmptyBody(e) {
        ElseRight(sem, base, e, s.elsAt, prefix, more, t.info, st, table, guard, id);
      }
    }
  }
}
