/**
 Cond-path instrumentation of cov_exporter on structured statements: the rewriter with its table of
 coverage points, and an evaluator for the statements it reads and writes.
 */
module CovModel {
  import opened Common
  import opened CovText

  type Loc = nat  // file and line of a branch body

  /** Why the condition of a branch cannot be a guard, if so. */
  datatype Support = Plain | UnsafeExpression | MultiOrPattern

  /** One branch condition: its source text, and whether it may serve as a guard. */
  datatype Cond = Cond(text: string, support: Support)

  /**
   Leaf   a statement kept as raw text
   Block  a sequential begin/end block
   Case   items in order, the default last if there is one
   Loop   any loop: its header decides how often the body runs
   Count  `if (_COV_EN) _<id>__COV_BIN_EXPR_CNT++`, in rewritten statements only
   */
  datatype Stmt =
    | Empty
    | Leaf(leaf: nat)
    | Block(body: Stmt)
    | List(items: seq<Stmt>)
    | If(cond: Cond, thn: Stmt, thnAt: Loc, els: Option<Stmt>, elsAt: Loc)
    | Case(selector: nat, branches: seq<Stmt>)
    | Loop(header: nat, loopBody: Stmt)
    | Count(id: nat)

  datatype CondPath = CondPath(id: nat, guard: string, locations: seq<Loc>)

  datatype Reason = UnsafeCondition | UnsupportedConditional | EmptyIfBody | EmptyElseBody

  /** condPaths, condPathIndex and unsupportedCondStmts of CoverageInfo. */
  datatype Info = Info(paths: seq<CondPath>, index: map<string, nat>, skipped: seq<Reason>)

  const NO_INFO := Info([], map[], [])

  /** Every index points into the table. */
  predicate Indexed(info: Info) {
    forall g | g in info.index :: info.index[g] < |info.paths|
  }

  // ---- the rewriter ----

  predicate IsEmptyBody(s: Stmt) {
    match s
    case Empty => true
    case Block(body) => IsEmptyBody(body)
    case List(items) => items == []
    case _ => false
  }

  function StripBeginEnd(s: Stmt): Stmt {
    if s.Block? then s.body else s
  }

  datatype Recorded = Recorded(info: Info, id: nat)

  function RecordPath(info: Info, guard: string, loc: Loc): (r: Recorded)
    requires Indexed(info)
    ensures Indexed(r.info) && r.id < |r.info.paths|
  {
    if guard in info.index then
      var id := info.index[guard];
      var p := info.paths[id];
      Recorded(info.(paths := info.paths[id := p.(locations := p.locations + [loc])]), id)
    else
      var id := |info.paths|;
      Recorded(info.(paths := info.paths + [CondPath(id, guard, [loc])], index := info.index[guard := id]), id)
  }

  function Skip(info: Info, why: Reason): Info {
    info.(skipped := info.skipped + [why])
  }

  datatype Out = Out(stmt: Stmt, info: Info)
  datatype Outs = Outs(stmts: seq<Stmt>, info: Info)

  function Counted(id: nat, body: Stmt): Stmt {
    Block(List([Count(id), StripBeginEnd(body)]))
  }

  function BranchPrefix(prefix: seq<string>, chain: string): seq<string> {
    if chain == "" then prefix else prefix + [chain]
  }

  function Rewrite(s: Stmt, prefix: seq<string>, info: Info): (r: Out)
    requires Indexed(info)
    ensures Indexed(r.info)
    decreases s, 2
  {
    match s
    case If(_, _, _, _, _) => RewriteChain(s, prefix, "", info)
    case Block(body) =>
      var b := Rewrite(body, prefix, info);
      Out(Block(b.stmt), b.info)
    case List(items) =>
      var bs := RewriteAll(items, prefix, info);
      Out(List(bs.stmts), bs.info)
    case Case(selector, branches) =>
      var bs := RewriteAll(branches, prefix, info);
      Out(Case(selector, bs.stmts), bs.info)
    case Loop(header, body) =>
      var b := Rewrite(body, prefix, info);
      Out(Loop(header, b.stmt), b.info)
    case _ => Out(s, info)
  }

  function RewriteAll(items: seq<Stmt>, prefix: seq<string>, info: Info): (r: Outs)
    requires Indexed(info)
    ensures Indexed(r.info) && |r.stmts| == |items|
    decreases items, 3
  {
    if items == [] then Outs([], info)
    else
      var first := Rewrite(items[0], prefix, info);
      var rest := RewriteAll(items[1..], prefix, first.info);
      Outs([first.stmt] + rest.stmts, rest.info)
  }

  /** The then-branch: nested points first, then the point of the branch itself. */
  function RewriteThen(s: Stmt, prefix: seq<string>, chain: string, info: Info): (r: Out)
    requires s.If? && Indexed(info)
    ensures Indexed(r.info)
    decreases s, 0
  {
    var branch := BranchPrefix(prefix, chain);
    var inner := Rewrite(s.thn, branch + [s.cond.text], info);
    if IsEmptyBody(s.thn) then
      Out(Block(StripBeginEnd(inner.stmt)), Skip(inner.info, EmptyIfBody))
    else
      var rec := RecordPath(inner.info, BuildGuard(branch, s.cond.text), s.thnAt);
      Out(Counted(rec.id, inner.stmt), rec.info)
  }

  /** The final else of a chain, which is dropped when it is empty. */
  function RewriteElse(e: Stmt, at: Loc, prefix: seq<string>, chain: string, info: Info): (r: Out)
    requires Indexed(info)
    ensures Indexed(r.info)
    decreases e, 3
  {
    var branch := BranchPrefix(prefix, chain);
    var inner := Rewrite(e, branch, info);
    var rec := RecordPath(inner.info, BuildGuard(branch, ""), at);
    Out(Counted(rec.id, inner.stmt), rec.info)
  }

  /** The chain of if / else-if / else from one of its branches on. */
  function RewriteChain(s: Stmt, prefix: seq<string>, chain: string, info: Info): (r: Out)
    requires s.If? && Indexed(info)
    ensures Indexed(r.info)
    decreases s, 1
  {
    if s.cond.support != Plain then
      Out(s, Skip(info, if s.cond.support == UnsafeExpression then UnsafeCondition else UnsupportedConditional))
    else
      var t := RewriteThen(s, prefix, chain, info);
      var negated := AddNegation(chain, s.cond.text);
      match s.els
      case None => Out(s.(thn := t.stmt), t.info)
      case Some(e) =>
        if e.If? then
          var rest := RewriteChain(e, prefix, negated, t.info);
          Out(s.(thn := t.stmt, els := Some(rest.stmt)), rest.info)
        else if IsEmptyBody(e) then
          Out(s.(thn := t.stmt, els := None), Skip(t.info, EmptyElseBody))
        else
          var last := RewriteElse(e, s.elsAt, prefix, negated, t.info);
          Out(s.(thn := t.stmt, els := Some(last.stmt)), last.info)
  }

  // ---- execution ----

  /** What leaves, conditions, case selectors and loop headers do to a state. */
  datatype Sem<!S> = Sem(
    leaf: (nat, S) -> S,
    cond: (string, S) -> bool,
    select: (nat, nat, S) -> nat,   // which of n branches runs; any other number runs none
    times: (nat, S) -> nat)

  /** The state reached and the counters raised on the way, in order. */
  datatype Effect<S> = Effect(state: S, bumps: seq<nat>)

  /** What every condition reads in `st`. */
  ghost function PreState<S>(sem: Sem<S>, st: S): string -> bool {
    (t: string) => sem.cond(t, st)
  }

  ghost function TruthIn<S>(sem: Sem<S>, text: string, st: S): bool {
    Truth(PreState(sem, st), text)
  }

  /** `on` is _COV_EN: counters move only while it is set. */
  ghost function Exec<S>(sem: Sem<S>, on: bool, s: Stmt, st: S): Effect<S>
    decreases s, 0, 0
  {
    match s
    case Empty => Effect(st, [])
    case Leaf(leaf) => Effect(sem.leaf(leaf, st), [])
    case Block(body) => Exec(sem, on, body, st)
    case List(items) => ExecAll(sem, on, items, st)
    case If(cond, thn, _, els, _) =>
      if TruthIn(sem, cond.text, st) then Exec(sem, on, thn, st)
      else if els.Some? then Exec(sem, on, els.value, st)
      else Effect(st, [])
    case Case(selector, branches) =>
      var i := sem.select(selector, |branches|, st);
      if i < |branches| then Exec(sem, on, branches[i], st) else Effect(st, [])
    case Loop(header, body) => ExecTimes(sem, on, body, sem.times(header, st), st)
    case Count(id) => Effect(st, if on then [id] else [])
  }

  ghost function ExecAll<S>(sem: Sem<S>, on: bool, items: seq<Stmt>, st: S): Effect<S>
    decreases items, 1, 0
  {
    if items == [] then Effect(st, [])
    else
      var first := Exec(sem, on, items[0], st);
      var rest := ExecAll(sem, on, items[1..], first.state);
      Effect(rest.state, first.bumps + rest.bumps)
  }

  ghost function ExecTimes<S>(sem: Sem<S>, on: bool, body: Stmt, n: nat, st: S): Effect<S>
    decreases body, 1, n
  {
    if n == 0 then Effect(st, [])
    else
      var first := Exec(sem, on, body, st);
      var rest := ExecTimes(sem, on, body, n - 1, first.state);
      Effect(rest.state, first.bumps + rest.bumps)
  }
}
