/** The coverage results for a whole process body, and where they stop. */
module CovResults {
  import opened Common
  import opened CovText
  import opened CovModel
  import opened CovPoints
  import opened CovExact

  /** The table of a process: dense ids, and a bijection between guards and ids. */
  lemma ProcessTable(s: Stmt)
    ensures TableOk(Rewrite(s, [], NO_INFO).info)
    ensures forall g, h | g in Rewrite(s, [], NO_INFO).info.index && h in Rewrite(s, [], NO_INFO).info.index ::
              Rewrite(s, [], NO_INFO).info.index[g] == Rewrite(s, [], NO_INFO).info.index[h] ==> g == h
    ensures |Rewrite(s, [], NO_INFO).info.index| == |Rewrite(s, [], NO_INFO).info.paths|
  {
    RewriteTable(s, [], NO_INFO);
    var info := Rewrite(s, [], NO_INFO).info;
    TableSize(info, |info.paths|);
    assert info.index.Keys == (set i | 0 <= i < |info.paths| :: info.paths[i].guard);
  }

  lemma {:induction false} TableSize(info: Info, n: nat)
    requires TableOk(info) && n <= |info.paths|
    ensures |set i | 0 <= i < n :: info.paths[i].guard| == n
  {
    if n > 0 {
      TableSize(info, n - 1);
      var before := set i | 0 <= i < n - 1 :: info.paths[i].guard;
      var last := info.paths[n - 1].guard;
      assert last !in before;
      assert (set i | 0 <= i < n :: info.paths[i].guard) == before + {last};
    }
  }

  /**
   One execution from `st` raises the counter of each recorded guard by the number of its recorded
   locations if the guard holds in `st`, and not at all otherwise.
   */
  ghost predicate ExactFrom<S(!new)>(sem: Sem<S>, s: Stmt, st: S) {
    var out := Rewrite(s, [], NO_INFO);
    forall guard | guard in out.info.index && out.info.index[guard] < |out.info.paths| ::
      Hits(Exec(sem, true, out.stmt, st).bumps, out.info.index[guard]) ==
      if Holds(PreState(sem, st), guard) then |out.info.paths[out.info.index[guard]].locations| else 0
  }

  /** Counter exactness for conditionals, blocks and lists whose leaves are non-blocking. */
  lemma CounterExactness<S(!new)>(sem: Sem<S>, s: Stmt, st: S)
    requires NonBlocking(sem) && TextOk(s) && Straight(s)
    ensures ExactFrom(sem, s, st)
  {
    var out := Rewrite(s, [], NO_INFO);
    forall guard | guard in out.info.index && out.info.index[guard] < |out.info.paths|
      ensures Hits(Exec(sem, true, out.stmt, st).bumps, out.info.index[guard]) ==
        if Holds(PreState(sem, st), guard) then |out.info.paths[out.info.index[guard]].locations| else 0
    {
      CounterExact(sem, s, st, guard);
    }
  }

  lemma CounterExact<S(!new)>(sem: Sem<S>, s: Stmt, st: S, guard: string)
    requires NonBlocking(sem) && TextOk(s) && Straight(s)
    requires guard in Rewrite(s, [], NO_INFO).info.index
    ensures var out := Rewrite(s, [], NO_INFO);
            var id := out.info.index[guard];
            id < |out.info.paths| &&
            Hits(Exec(sem, true, out.stmt, st).bumps, id) ==
            if Holds(PreState(sem, st), guard) then |out.info.paths[id].locations| else 0
  {
    var out := Rewrite(s, [], NO_INFO);
    RewriteTable(s, [], NO_INFO);
    RewriteRight(sem, PreState(sem, st), s, [], NO_INFO, st, out.info, guard, out.info.index[guard]);
    RewriteRecords(s, [], NO_INFO);
    RecordAllTable(NO_INFO, Points(s, []), guard);
  }

  /** A leaf, and then the same leaf behind a condition. */
  function Probe(leaf: nat, text: string): Stmt {
    List([Leaf(leaf), If(Cond(text, Plain), Leaf(leaf), 0, None, 0)])
  }

  lemma ProbeRewritten(leaf: nat, text: string)
    requires Usable(text)
    ensures TextOk(Probe(leaf, text)) && Straight(Probe(leaf, text))
    ensures BuildGuard([], text) == Joined(OPEN, [text])
    ensures Rewrite(Probe(leaf, text), [], NO_INFO) ==
      Out(List([Leaf(leaf), If(Cond(text, Plain), Counted(0, Leaf(leaf)), 0, None, 0)]),
          Info([CondPath(0, BuildGuard([], text), [0])], map[BuildGuard([], text) := 0], []))
  {
    var cond := If(Cond(text, Plain), Leaf(leaf), 0, None, 0);
    var items := [Leaf(leaf), cond];
    BuildGuardJoins([], text);
    var t := RewriteThen(cond, [], "", NO_INFO);
    var inner := Rewrite(Leaf(leaf), [] + [text], NO_INFO);
    assert inner == Out(Leaf(leaf), NO_INFO);
    assert BranchPrefix([], "") == [] && !IsEmptyBody(cond.thn);
    var rec := RecordPath(NO_INFO, BuildGuard([], text), 0);
    assert rec.id == 0;
    assert t == Out(Counted(rec.id, inner.stmt), rec.info);
    assert t == Out(Counted(0, Leaf(leaf)), RecordPath(NO_INFO, BuildGuard([], text), 0).info);
    assert items[1..] == [cond] && items[1..][1..] == [];
    assert RewriteAll([], [], t.info) == Outs([], t.info);
    assert AddNegation("", text) == AddNegation("", cond.cond.text);
    assert RewriteChain(cond, [], "", NO_INFO) == Out(cond.(thn := t.stmt), t.info);
    assert Rewrite(cond, [], NO_INFO) == Out(cond.(thn := t.stmt), t.info);
    assert RewriteAll([cond], [], NO_INFO) == Outs([cond.(thn := t.stmt)] + [], t.info);
    assert RewriteAll(items, [], NO_INFO) == Outs([Leaf(leaf)] + [cond.(thn := t.stmt)], t.info);
    var done := If(Cond(text, Plain), Counted(0, Leaf(leaf)), 0, None, 0);
    assert cond.(thn := t.stmt) == done;
    assert [done] + [] == [done] && [Leaf(leaf)] + [done] == [Leaf(leaf), done];
    assert map[][BuildGuard([], text) := 0] == map[BuildGuard([], text) := 0];
    assert [] + [CondPath(0, BuildGuard([], text), [0])] == [CondPath(0, BuildGuard([], text), [0])];
  }

  /** The counter of the condition moves exactly if the condition is true after the leaf. */
  lemma ProbeRuns<S>(sem: Sem<S>, leaf: nat, text: string, st: S)
    ensures var r := List([Leaf(leaf), If(Cond(text, Plain), Counted(0, Leaf(leaf)), 0, None, 0)]);
      Exec(sem, true, r, st).bumps == if TruthIn(sem, text, sem.leaf(leaf, st)) then [0] else []
  {
    var cond := If(Cond(text, Plain), Counted(0, Leaf(leaf)), 0, None, 0);
    var items := [Leaf(leaf), cond];
    var st1 := sem.leaf(leaf, st);
    var body := [Count(0), StripBeginEnd(Leaf(leaf))];
    assert items[1..] == [cond] && items[1..][1..] == [];
    assert body[1..] == [Leaf(leaf)] && body[1..][1..] == [];
    assert ExecAll(sem, true, [Leaf(leaf)], st1).bumps == [] + [];
    assert ExecAll(sem, true, body, st1).bumps == [0] + ([] + []);
    assert Exec(sem, true, Counted(0, Leaf(leaf)), st1).bumps == [0];
    assert ExecAll(sem, true, [cond], st1).bumps == Exec(sem, true, cond, st1).bumps + [];
    assert ExecAll(sem, true, items, st).bumps == [] + Exec(sem, true, cond, st1).bumps;
  }

  ghost predicate AlwaysExact<S(!new)>(sem: Sem<S>) {
    forall s: Stmt, st: S | TextOk(s) && Straight(s) :: ExactFrom(sem, s, st)
  }

  lemma ExactProbe<S(!new)>(sem: Sem<S>, leaf: nat, text: string, st: S)
    requires Usable(text) && ExactFrom(sem, Probe(leaf, text), st)
    ensures TruthIn(sem, text, sem.leaf(leaf, st)) == TruthIn(sem, text, st)
  {
    ProbeRewritten(leaf, text);
    ProbeRuns(sem, leaf, text, st);
    HoldsParts(PreState(sem, st), [text]);
    assert Hits([0], 0) == 1 && Hits([], 0) == 0 by {
      assert Front([0]) == [];
    }
  }

  /**
   Counters are exact for every such statement in every state if and only if no leaf changes the
   truth of a condition.
   */
  lemma ExactIffNonBlocking<S(!new)>(sem: Sem<S>)
    ensures AlwaysExact(sem) <==> NonBlocking(sem)
  {
    if AlwaysExact(sem) {
      forall l: nat, t: string, st: S | Usable(t) ensures TruthIn(sem, t, sem.leaf(l, st)) == TruthIn(sem, t, st) {
        ProbeRewritten(l, t);
        ExactProbe(sem, l, t, st);
      }
    }
    if NonBlocking(sem) {
      forall s: Stmt, st: S | TextOk(s) && Straight(s) ensures ExactFrom(sem, s, st) {
        CounterExactness(sem, s, st);
      }
    }
  }

  /** With case statements and loops added, a raised counter still implies that its guard holds. */
  lemma BumpImpliesGuard<S(!new)>(sem: Sem<S>, s: Stmt, st: S, guard: string)
    requires NonBlocking(sem) && TextOk(s)
    requires guard in Rewrite(s, [], NO_INFO).info.index
    requires Hits(Exec(sem, true, Rewrite(s, [], NO_INFO).stmt, st).bumps, Rewrite(s, [], NO_INFO).info.index[guard]) > 0
    ensures Holds(PreState(sem, st), guard)
  {
    var out := Rewrite(s, [], NO_INFO);
    RewriteTable(s, [], NO_INFO);
    RewriteRight(sem, PreState(sem, st), s, [], NO_INFO, st, out.info, guard, out.info.index[guard]);
  }

  /** One bit of state, read by every condition and cleared by every leaf. */
  const CLEARS: Sem<bool> := Sem((l, b) => false, (t, b) => b, (x, n, b) => 0, (h, b) => 0)

  /**
   The smallest case: after a blocking assignment clears `a`, `if (a)` is not entered
   although its guard holds in the pre-state.
   */
  lemma BlockingBreaksExactness()
    ensures var sem := CLEARS;
            var s := Probe(0, "a");
            var out := Rewrite(s, [], NO_INFO);
            && Straight(s) && "(a)" in out.info.index
            && |out.info.paths[out.info.index["(a)"]].locations| == 1
            && Holds(PreState(sem, true), "(a)")
            && Exec(sem, true, out.stmt, true).bumps == []
  {
    var sem := CLEARS;
    FlatBalanced("a");
    ProbeRewritten(0, "a");
    ProbeRuns(sem, 0, "a", true);
    hide Exec, Rewrite;
    NotANegation("a");
    assert BuildGuard([], "a") == "(a)";
    HoldsParts(PreState(sem, true), ["a"]);
  }

  lemma NotANegation(text: string)
    requires text != "" && text[0] != '!'
    ensures !exists conds :: IsNegation(text, conds)
  {
    forall conds: seq<string> | conds != []
      ensures Joined(NOT_OPEN, conds) != "" && Joined(NOT_OPEN, conds)[0] == '!'
    {
    }
  }
}
