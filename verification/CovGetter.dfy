/** The imperative form: CoverageInfoGetter with its table, and the chain loop of rewriteConditional. */
module CovGetter {
  import opened Common
  import opened CovText
  import opened CovModel

  /** A finished branch of a chain, in order of the text emitted. */
  datatype Branch = Branch(cond: Cond, body: Stmt, thnAt: Loc, elsAt: Loc)

  /** The statement spelled by the branches emitted so far and what follows them. */
  function Assemble(branches: seq<Branch>, tail: Option<Stmt>): Option<Stmt> {
    if branches == [] then tail
    else
      var b := branches[0];
      Some(If(b.cond, b.body, b.thnAt, Assemble(branches[1..], tail), b.elsAt))
  }

  lemma {:induction false} AssembleSnoc(branches: seq<Branch>, b: Branch, tail: Option<Stmt>)
    ensures Assemble(branches + [b], tail) ==
            Assemble(branches, Some(If(b.cond, b.body, b.thnAt, tail, b.elsAt)))
  {
    if branches == [] {
      assert branches + [b] == [b];
    } else {
      AssembleSnoc(branches[1..], b, tail);
      assert (branches + [b])[1..] == branches[1..] + [b];
    }
  }

  class CoverageInfoGetter {
    var condPaths: seq<CondPath>
    var condPathIndex: map<string, nat>
    var unsupportedCondStmts: seq<Reason>

    function View(): Info
      reads this
    {
      Info(condPaths, condPathIndex, unsupportedCondStmts)
    }

    constructor ()
      ensures View() == NO_INFO
    {
      condPaths, condPathIndex, unsupportedCondStmts := [], map[], [];
    }

    method RecordPath(guard: string, loc: Loc) returns (id: nat)
      requires Indexed(View())
      modifies this
      ensures Recorded(View(), id) == CovModel.RecordPath(old(View()), guard, loc)
    {
      if guard !in condPathIndex {
        id := |condPaths|;
        condPaths := condPaths + [CondPath(id, guard, [])];
        condPathIndex := condPathIndex[guard := id];
      } else {
        id := condPathIndex[guard];
      }
      var info := condPaths[id];
      condPaths := condPaths[id := info.(locations := info.locations + [loc])];
      if guard !in old(condPathIndex) {
        assert info.locations + [loc] == [loc];
        assert condPaths == old(condPaths) + [CondPath(id, guard, [loc])];
      }
    }

    method Unsupported(why: Reason)
      modifies this`unsupportedCondStmts
      ensures View() == Skip(old(View()), why)
    {
      unsupportedCondStmts := unsupportedCondStmts + [why];
    }

    method RewriteStatement(s: Stmt, prefix: seq<string>) returns (out: Stmt)
      requires Indexed(View())
      modifies this
      ensures Out(out, View()) == Rewrite(s, prefix, old(View()))
      decreases s, 2, 0
    {
      match s {
        case If(_, _, _, _, _) =>
          out := RewriteConditional(s, prefix);
        case Block(body) =>
          var inner := RewriteStatement(body, prefix);
          out := Block(inner);
        case List(items) =>
          var children := RewriteChildren(items, prefix);
          out := List(children);
        case Case(selector, branches) =>
          var children := RewriteChildren(branches, prefix);
          out := Case(selector, children);
        case Loop(header, body) =>
          var inner := RewriteStatement(body, prefix);
          out := Loop(header, inner);
        case _ =>
          out := s;
      }
    }

    method RewriteChildren(items: seq<Stmt>, prefix: seq<string>) returns (outs: seq<Stmt>)
      requires Indexed(View())
      modifies this
      ensures Outs(outs, View()) == RewriteAll(items, prefix, old(View()))
      decreases items, 3, 0
    {
      hide Rewrite;
      outs := [];
      ghost var all := RewriteAll(items, prefix, View());
      for i := 0 to |items|
        invariant Indexed(View())
        invariant var rest := RewriteAll(items[i..], prefix, View());
                  all == Outs(outs + rest.stmts, rest.info)
      {
        assert items[i..][0] == items[i] && items[i..][1..] == items[i + 1..];
        var child := RewriteStatement(items[i], prefix);
        outs := outs + [child];
      }
    }

    /** rewriteConditional: one pass of the loop per branch of the if / else-if / else chain. */
    method RewriteConditional(cond: Stmt, prefix: seq<string>) returns (out: Stmt)
      requires cond.If? && Indexed(View())
      modifies this
      ensures Out(out, View()) == RewriteChain(cond, prefix, "", old(View()))
      decreases cond, 1, 0
    {
      var current := cond;
      var chainNegation := "";
      var done: seq<Branch> := [];
      var tail: Option<Stmt> := None;
      ghost var all := RewriteChain(cond, prefix, "", View());
      var more := true;
      while more
        invariant Indexed(View()) && current.If?
        invariant more ==> tail == None && (current == cond || current < cond)
        invariant more ==> var rest := RewriteChain(current, prefix, chainNegation, View());
                           Assemble(done, Some(rest.stmt)) == Some(all.stmt) && rest.info == all.info
        invariant !more ==> Assemble(done, tail) == Some(all.stmt) && View() == all.info
        decreases more, current
      {
        if current.cond.support != Plain {
          Unsupported(if current.cond.support == UnsafeExpression then UnsafeCondition else UnsupportedConditional);
          tail, more := Some(current), false;
        } else {
          var body := RewriteBranch(current, prefix, chainNegation);
          chainNegation := AddNegation(chainNegation, current.cond.text);
          ghost var before := done;
          var branch := Branch(current.cond, body, current.thnAt, current.elsAt);
          done := done + [branch];
          if current.els == None {
            AssembleSnoc(before, branch, None);
            more := false;
          } else if current.els.value.If? {
            AssembleSnoc(before, branch, Some(RewriteChain(current.els.value, prefix, chainNegation, View()).stmt));
            current := current.els.value;
          } else if IsEmptyBody(current.els.value) {
            Unsupported(EmptyElseBody);
            AssembleSnoc(before, branch, None);
            more := false;
          } else {
            var last := RewriteFinalElse(current.els.value, current.elsAt, prefix, chainNegation);
            AssembleSnoc(before, branch, Some(last));
            tail, more := Some(last), false;
          }
        }
      }
      out := Assemble(done, tail).value;
    }

    method RewriteBranch(s: Stmt, prefix: seq<string>, chain: string) returns (body: Stmt)
      requires s.If? && Indexed(View())
      modifies this
      ensures Out(body, View()) == RewriteThen(s, prefix, chain, old(View()))
      decreases s, 0, 0
    {
      var branchPrefix := BranchPrefix(prefix, chain);
      var guard := BuildGuard(branchPrefix, s.cond.text);
      var inner := RewriteStatement(s.thn, branchPrefix + [s.cond.text]);
      if IsEmptyBody(s.thn) {
        Unsupported(EmptyIfBody);
        body := Block(StripBeginEnd(inner));
      } else {
        var id := RecordPath(guard, s.thnAt);
        body := Counted(id, inner);
      }
    }

    method RewriteFinalElse(e: Stmt, at: Loc, prefix: seq<string>, chain: string) returns (body: Stmt)
      requires Indexed(View())
      modifies this
      ensures Out(body, View()) == RewriteElse(e, at, prefix, chain, old(View()))
      decreases e, 3, 0
    {
      var elsePrefix := BranchPrefix(prefix, chain);
      var inner := RewriteStatement(e, elsePrefix);
      var id := RecordPath(BuildGuard(elsePrefix, ""), at);
      body := Counted(id, inner);
    }
  }
}
