/** Instrumentation preserves meaning: counters erased, the rewritten statement does what the original did. */
module CovMeaning {
  import opened Common
  import opened CovText
  import opened CovModel

  lemma {:induction false} EmptyDoesNothing<S>(sem: Sem<S>, on: bool, s: Stmt, st: S)
    requires IsEmptyBody(s)
    ensures Exec(sem, on, s, st) == Effect(st, [])
  {
    if s.Block? {
      EmptyDoesNothing(sem, on, s.body, st);
    }
  }

  lemma StripKeepsEffect<S>(sem: Sem<S>, on: bool, s: Stmt, st: S)
    ensures Exec(sem, on, StripBeginEnd(s), st) == Exec(sem, on, s, st)
  {
  }

  /** The wrapper raises its counter first and then runs the body. */
  lemma CountedEffect<S>(sem: Sem<S>, on: bool, id: nat, body: Stmt, st: S)
    ensures var e := Exec(sem, on, body, st);
            Exec(sem, on, Counted(id, body), st) == Effect(e.state, (if on then [id] else []) + e.bumps)
  {
    StripKeepsEffect(sem, on, body, st);
    var items := [Count(id), StripBeginEnd(body)];
    var tail := items[1..];
    assert tail[1..] == [];
    var e := Exec(sem, on, body, st);
    assert e.bumps + [] == e.bumps;
    assert ExecAll(sem, on, tail, st) == Effect(e.state, e.bumps);
    assert ExecAll(sem, on, items, st) == Effect(e.state, (if on then [id] else []) + e.bumps);
  }

  lemma {:induction false} RewriteKeepsState<S>(sem: Sem<S>, on: bool, s: Stmt, prefix: seq<string>, info: Info, st: S)
    requires Indexed(info)
    ensures Exec(sem, on, Rewrite(s, prefix, info).stmt, st).state == Exec(sem, on, s, st).state
    decreases s, 2, 0
  {
    match s
    case If(_, _, _, _, _) => ChainKeepsState(sem, on, s, prefix, "", info, st);
    case Block(body) => RewriteKeepsState(sem, on, body, prefix, info, st);
    case List(items) => AllKeepState(sem, on, items, prefix, info, st);
    case Case(selector, branches) =>
      var i := sem.select(selector, |branches|, st);
      if i < |branches| {
        BranchKeepsState(sem, on, branches, i, prefix, info, st);
      }
    case Loop(header, body) =>
      TimesKeepState(sem, on, body, prefix, info, sem.times(header, st), st);
    case _ =>
  }

  lemma {:induction false} AllKeepState<S>(sem: Sem<S>, on: bool, items: seq<Stmt>, prefix: seq<string>, info: Info, st: S)
    requires Indexed(info)
    ensures ExecAll(sem, on, RewriteAll(items, prefix, info).stmts, st).state == ExecAll(sem, on, items, st).state
    decreases items, 3, 0
  {
    if items != [] {
      var first := Rewrite(items[0], prefix, info);
      RewriteKeepsState(sem, on, items[0], prefix, info, st);
      AllKeepState(sem, on, items[1..], prefix, first.info, Exec(sem, on, items[0], st).state);
      var r := RewriteAll(items, prefix, info).stmts;
      assert r[0] == first.stmt && r[1..] == RewriteAll(items[1..], prefix, first.info).stmts;
    }
  }

  lemma {:induction false} BranchKeepsState<S>(
      sem: Sem<S>, on: bool, items: seq<Stmt>, i: nat, prefix: seq<string>, info: Info, st: S)
    requires Indexed(info) && i < |items|
    ensures Exec(sem, on, RewriteAll(items, prefix, info).stmts[i], st).state == Exec(sem, on, items[i], st).state
    decreases items, 3, i
  {
    if i == 0 {
      RewriteKeepsState(sem, on, items[0], prefix, info, st);
    } else {
      BranchKeepsState(sem, on, items[1..], i - 1, prefix, Rewrite(items[0], prefix, info).info, st);
    }
  }

  lemma {:induction false} TimesKeepState<S>(
      sem: Sem<S>, on: bool, body: Stmt, prefix: seq<string>, info: Info, n: nat, st: S)
    requires Indexed(info)
    ensures ExecTimes(sem, on, Rewrite(body, prefix, info).stmt, n, st).state == ExecTimes(sem, on, body, n, st).state
    decreases body, 3, n
  {
    if n > 0 {
      RewriteKeepsState(sem, on, body, prefix, info, st);
      TimesKeepState(sem, on, body, prefix, info, n - 1, Exec(sem, on, body, st).state);
    }
  }

  lemma {:induction false} ThenKeepsState<S>(
      sem: Sem<S>, on: bool, s: Stmt, prefix: seq<string>, chain: string, info: Info, st: S)
    requires s.If? && Indexed(info)
    ensures Exec(sem, on, RewriteThen(s, prefix, chain, info).stmt, st).state == Exec(sem, on, s.thn, st).state
    decreases s, 0, 0
  {
    var nested := BranchPrefix(prefix, chain) + [s.cond.text];
    var inner := Rewrite(s.thn, nested, info);
    RewriteKeepsState(sem, on, s.thn, nested, info, st);
    StripKeepsEffect(sem, on, inner.stmt, st);
    CountedEffect(sem, on, RewriteThenId(s, prefix, chain, info), inner.stmt, st);
  }

  /** The counter id of a then-branch; unused when the branch is empty. */
  function RewriteThenId(s: Stmt, prefix: seq<string>, chain: string, info: Info): nat
    requires s.If? && Indexed(info)
  {
    var branch := BranchPrefix(prefix, chain);
    RecordPath(Rewrite(s.thn, branch + [s.cond.text], info).info, BuildGuard(branch, s.cond.text), s.thnAt).id
  }

  /** Unsupported branches end the rewriting but not the chain; dropped else bodies were empty. */
  lemma {:induction false} ChainKeepsState<S>(
      sem: Sem<S>, on: bool, s: Stmt, prefix: seq<string>, chain: string, info: Info, st: S)
    requires s.If? && Indexed(info)
    ensures Exec(sem, on, RewriteChain(s, prefix, chain, info).stmt, st).state == Exec(sem, on, s, st).state
    decreases s, 1, 0
  {
    if s.cond.support == Plain {
      ThenKeepsState(sem, on, s, prefix, chain, info, st);
      var t := RewriteThen(s, prefix, chain, info);
      var negated := AddNegation(chain, s.cond.text);
      if s.els.Some? {
        var e := s.els.value;
        if e.If? {
          ChainKeepsState(sem, on, e, prefix, negated, t.info, st);
        } else if IsEmptyBody(e) {
          EmptyDoesNothing(sem, on, e, st);
        } else {
          var branch := BranchPrefix(prefix, negated);
          var inner := Rewrite(e, branch, t.info);
          RewriteKeepsState(sem, on, e, branch, t.info, st);
          var rec := RecordPath(inner.info, BuildGuard(branch, ""), s.elsAt);
          CountedEffect(sem, on, rec.id, inner.stmt, st);
        }
      }
    }
  }

  // ---- with coverage off ----

  /** No counter occurs in a statement that has not been rewritten. */
  predicate CountFree(s: Stmt) {
    match s
    case Block(body) => CountFree(body)
    case List(items) => forall i | 0 <= i < |items| :: CountFree(items[i])
    case If(_, thn, _, els, _) => CountFree(thn) && (els.Some? ==> CountFree(els.value))
    case Case(_, branches) => forall i | 0 <= i < |branches| :: CountFree(branches[i])
    case Loop(_, body) => CountFree(body)
    case Count(_) => false
    case _ => true
  }

  lemma {:induction false} OriginalRaisesNothing<S>(sem: Sem<S>, on: bool, s: Stmt, st: S)
    requires !on || CountFree(s)
    ensures Exec(sem, on, s, st).bumps == []
    decreases s, 0, 0
  {
    match s
    case Block(body) => OriginalRaisesNothing(sem, on, body, st);
    case List(items) => OriginalsRaiseNothing(sem, on, items, st);
    case If(cond, thn, _, els, _) =>
      OriginalRaisesNothing(sem, on, thn, st);
      if els.Some? {
        OriginalRaisesNothing(sem, on, els.value, st);
      }
    case Case(selector, branches) =>
      var i := sem.select(selector, |branches|, st);
      if i < |branches| {
        OriginalRaisesNothing(sem, on, branches[i], st);
      }
    case Loop(header, body) => TimesRaiseNothing(sem, on, body, sem.times(header, st), st);
    case _ =>
  }

  lemma {:induction false} OriginalsRaiseNothing<S>(sem: Sem<S>, on: bool, items: seq<Stmt>, st: S)
    requires !on || forall i | 0 <= i < |items| :: CountFree(items[i])
    ensures ExecAll(sem, on, items, st).bumps == []
    decreases items, 1, 0
  {
    if items != [] {
      OriginalRaisesNothing(sem, on, items[0], st);
      OriginalsRaiseNothing(sem, on, items[1..], Exec(sem, on, items[0], st).state);
    }
  }

  lemma {:induction false} TimesRaiseNothing<S>(sem: Sem<S>, on: bool, body: Stmt, n: nat, st: S)
    requires !on || CountFree(body)
    ensures ExecTimes(sem, on, body, n, st).bumps == []
    decreases body, 1, n
  {
    if n > 0 {
      OriginalRaisesNothing(sem, on, body, st);
      TimesRaiseNothing(sem, on, body, n - 1, Exec(sem, on, body, st).state);
    }
  }

  /** Main result: for every statement, prefix and table, with _COV_EN set or clear. */
  lemma InstrumentationPreservesMeaning<S>(sem: Sem<S>, on: bool, s: Stmt, prefix: seq<string>, info: Info, st: S)
    requires CountFree(s) && Indexed(info)
    ensures var r := Exec(sem, on, Rewrite(s, prefix, info).stmt, st);
            && Effect(r.state, []) == Exec(sem, on, s, st)
            && (!on ==> r.bumps == [])
  {
    RewriteKeepsState(sem, on, s, prefix, info, st);
    OriginalRaisesNothing(sem, on, s, st);
    if !on {
      OriginalRaisesNothing(sem, on, Rewrite(s, prefix, info).stmt, st);
    }
  }
}
