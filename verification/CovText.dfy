/**
 Guard texts of the cond-path coverage.  Points are told apart by the text of their guard, so the
 text must determine the meaning: here it is shown to determine its parts.
 */
module CovText {
  import opened Common

  const OPEN := "("
  const NOT_OPEN := "!("
  const CLOSE := ")"
  const AND := " && "

  /** Each part between `open` and a closing parenthesis, joined by the conjunction sign. */
  function Joined(open: string, parts: seq<string>): string {
    if parts == [] then ""
    else if |parts| == 1 then open + parts[0] + CLOSE
    else open + parts[0] + CLOSE + AND + Joined(open, parts[1..])
  }

  /** buildGuard: the accumulated prefix, then the condition of the branch if there is one. */
  function BuildGuard(prefix: seq<string>, cond: string): string {
    var out := Prefixed(prefix);
    var joined := if out != "" && cond != "" then out + AND else out;
    if cond != "" then joined + OPEN + cond + CLOSE else joined
  }

  /** The loop of buildGuard over the prefix. */
  function Prefixed(prefix: seq<string>): string {
    if prefix == [] then ""
    else
      var out := Prefixed(Front(prefix));
      (if out != "" then out + AND else out) + (OPEN + Last(prefix) + CLOSE)
  }

  /** chainNegation after one more condition of the chain failed. */
  function AddNegation(chain: string, cond: string): string {
    var thisNeg := NOT_OPEN + cond + CLOSE;
    if chain == "" then thisNeg else chain + AND + thisNeg
  }

  function Nesting(s: string): int {
    if s == "" then 0
    else Nesting(Front(s)) + (if Last(s) == '(' then 1 else if Last(s) == ')' then -1 else 0)
  }

  /** Every parenthesis of the text is matched within it. */
  ghost predicate Balanced(s: string) {
    Nesting(s) == 0 && forall i | 0 <= i <= |s| :: Nesting(s[..i]) >= 0
  }

  ghost predicate AllBalanced(parts: seq<string>) {
    forall p | p in parts :: Balanced(p)
  }

  // ---- joining ----

  lemma {:induction false} JoinedSnoc(open: string, parts: seq<string>, p: string)
    ensures Joined(open, parts + [p]) ==
            if parts == [] then open + p + CLOSE else Joined(open, parts) + AND + open + p + CLOSE
  {
    if parts == [] {
      assert parts + [p] == [p];
    } else {
      JoinedSnoc(open, parts[1..], p);
      assert (parts + [p])[1..] == parts[1..] + [p];
      if |parts| > 1 {
        assert open + parts[0] + CLOSE + AND + (Joined(open, parts[1..]) + AND + open + p + CLOSE)
            == open + parts[0] + CLOSE + AND + Joined(open, parts[1..]) + AND + open + p + CLOSE;
      } else {
        assert open + parts[0] + CLOSE + AND + (open + p + CLOSE) == open + parts[0] + CLOSE + AND + open + p + CLOSE;
      }
    }
  }

  lemma {:induction false} PrefixedJoins(prefix: seq<string>)
    ensures Prefixed(prefix) == Joined(OPEN, prefix)
  {
    if prefix != [] {
      PrefixedJoins(Front(prefix));
      JoinedSnoc(OPEN, Front(prefix), Last(prefix));
      assert prefix == Front(prefix) + [Last(prefix)];
      var out := Prefixed(Front(prefix));
      assert Front(prefix) != [] ==> out != "";
      assert out + AND + (OPEN + Last(prefix) + CLOSE) == out + AND + OPEN + Last(prefix) + CLOSE;
    }
  }

  /** A guard is the conjunction of its prefix and its own condition. */
  lemma BuildGuardJoins(prefix: seq<string>, cond: string)
    ensures BuildGuard(prefix, cond) == Joined(OPEN, if cond == "" then prefix else prefix + [cond])
  {
    PrefixedJoins(prefix);
    JoinedSnoc(OPEN, prefix, cond);
    assert prefix != [] ==> Prefixed(prefix) != "";
  }

  lemma AddNegationJoins(conds: seq<string>, c: string)
    ensures AddNegation(Joined(NOT_OPEN, conds), c) == Joined(NOT_OPEN, conds + [c])
  {
    JoinedSnoc(NOT_OPEN, conds, c);
    assert conds != [] ==> Joined(NOT_OPEN, conds) != "";
    assert Joined(NOT_OPEN, conds) + AND + (NOT_OPEN + c + CLOSE) == Joined(NOT_OPEN, conds) + AND + NOT_OPEN + c + CLOSE;
  }

  // ---- nesting ----

  lemma {:induction false} NestingConcat(a: string, b: string)
    ensures Nesting(a + b) == Nesting(a) + Nesting(b)
  {
    if b == "" {
      assert a + b == a;
    } else {
      NestingConcat(a, Front(b));
      assert Front(a + b) == a + Front(b);
    }
  }

  lemma BalancedConcat(a: string, b: string)
    requires Balanced(a) && Balanced(b)
    ensures Balanced(a + b)
  {
    NestingConcat(a, b);
    forall i | 0 <= i <= |a + b| ensures Nesting((a + b)[..i]) >= 0 {
      if i <= |a| {
        assert (a + b)[..i] == a[..i];
      } else {
        assert (a + b)[..i] == a + b[..i - |a|];
        NestingConcat(a, b[..i - |a|]);
      }
    }
  }

  lemma FlatBalanced(s: string)
    requires forall i | 0 <= i < |s| :: s[i] != '(' && s[i] != ')'
    ensures Balanced(s)
  {
    forall i | 0 <= i <= |s| ensures Nesting(s[..i]) == 0 {
      FlatNesting(s[..i]);
    }
    assert s[..|s|] == s;
  }

  lemma {:induction false} FlatNesting(s: string)
    requires forall i | 0 <= i < |s| :: s[i] != '(' && s[i] != ')'
    ensures Nesting(s) == 0
  {
    if s != "" {
      FlatNesting(Front(s));
    }
  }

  lemma WrappedBalanced(p: string)
    requires Balanced(p)
    ensures Balanced(OPEN + p + CLOSE)
  {
    var w := OPEN + p + CLOSE;
    assert Nesting(OPEN) == 1 by { assert Front(OPEN) == ""; }
    assert Nesting(CLOSE) == -1 by { assert Front(CLOSE) == ""; }
    NestingConcat(OPEN + p, CLOSE);
    NestingConcat(OPEN, p);
    forall i | 0 <= i <= |w| ensures Nesting(w[..i]) >= 0 {
      if i == 0 {
      } else if i <= |p| + 1 {
        assert w[..i] == OPEN + p[..i - 1];
        NestingConcat(OPEN, p[..i - 1]);
      } else {
        assert w[..i] == w;
      }
    }
  }

  /** A chain of negations is balanced when its conditions are. */
  lemma {:induction false} NegationsBalanced(conds: seq<string>)
    requires AllBalanced(conds)
    ensures Balanced(Joined(NOT_OPEN, conds))
  {
    if conds == [] {
      FlatBalanced("");
    } else {
      WrappedBalanced(conds[0]);
      FlatBalanced("!");
      FlatBalanced(AND);
      var first := OPEN + conds[0] + CLOSE;
      BalancedConcat("!", first);
      assert NOT_OPEN + conds[0] + CLOSE == "!" + first;
      if |conds| > 1 {
        NegationsBalanced(conds[1..]);
        BalancedConcat("!" + first, AND);
        BalancedConcat("!" + first + AND, Joined(NOT_OPEN, conds[1..]));
      }
    }
  }

  // ---- a joined text determines its parts ----

  /** The first unmatched parenthesis ends a balanced text, so two readings agree on it. */
  lemma PartUnique(p: string, x: string, q: string, y: string)
    requires Balanced(p) && Balanced(q) && p + CLOSE + x == q + CLOSE + y
    ensures p == q && x == y
  {
    var whole := p + CLOSE + x;
    if |p| < |q| {
      CutShort(p, q, x, y);
    } else if |q| < |p| {
      CutShort(q, p, y, x);
    }
    assert p == whole[..|p|] && q == whole[..|q|];
    assert x == whole[|p| + 1..] && y == whole[|q| + 1..];
  }

  lemma CutShort(p: string, q: string, x: string, y: string)
    requires Balanced(p) && |p| < |q| && p + CLOSE + x == q + CLOSE + y
    ensures !Balanced(q)
  {
    var whole := p + CLOSE + x;
    assert whole[..|p| + 1] == p + CLOSE && whole[..|p| + 1] == q[..|p| + 1];
    NestingConcat(p, CLOSE);
    assert Nesting(CLOSE) == -1 by { assert Front(CLOSE) == ""; }
  }

  lemma {:induction false} JoinedUnique(open: string, ps: seq<string>, qs: seq<string>)
    requires open != "" && AllBalanced(ps) && AllBalanced(qs)
    requires Joined(open, ps) == Joined(open, qs)
    ensures ps == qs
  {
    if ps == [] || qs == [] {
    } else {
      var x := if |ps| == 1 then "" else AND + Joined(open, ps[1..]);
      var y := if |qs| == 1 then "" else AND + Joined(open, qs[1..]);
      assert Joined(open, ps) == open + (ps[0] + CLOSE + x);
      assert Joined(open, qs) == open + (qs[0] + CLOSE + y);
      assert (open + (ps[0] + CLOSE + x))[|open|..] == ps[0] + CLOSE + x;
      assert (open + (qs[0] + CLOSE + y))[|open|..] == qs[0] + CLOSE + y;
      PartUnique(ps[0], x, qs[0], y);
      if |ps| > 1 {
        assert x[|AND|..] == Joined(open, ps[1..]) && y[|AND|..] == Joined(open, qs[1..]);
        JoinedUnique(open, ps[1..], qs[1..]);
        assert ps == [ps[0]] + ps[1..] && qs == [qs[0]] + qs[1..];
      }
    }
  }

  // ---- truth of texts ----

  /** `text` reads as a chain of negated conditions. */
  ghost predicate IsNegation(text: string, conds: seq<string>) {
    conds != [] && AllBalanced(conds) && text == Joined(NOT_OPEN, conds)
  }

  lemma {:induction false} NegationLonger(conds: seq<string>, c: string)
    requires c in conds
    ensures |c| < |Joined(NOT_OPEN, conds)|
  {
    if c != conds[0] {
      NegationLonger(conds[1..], c);
    }
  }

  /**
   Truth of a condition text: a chain of negations means what it says; any other text means what
   the expression evaluates to.  Conditions are two-valued.
   */
  ghost function Truth(base: string -> bool, text: string): bool
    decreases |text|
  {
    if exists conds :: IsNegation(text, conds) then
      var conds :| IsNegation(text, conds);
      forall c | c in conds :: (NegationLonger(conds, c); !Truth(base, c))
    else
      base(text)
  }

  lemma TruthOfNegation(base: string -> bool, conds: seq<string>)
    requires conds != [] && AllBalanced(conds)
    ensures Truth(base, Joined(NOT_OPEN, conds)) <==> forall c | c in conds :: !Truth(base, c)
  {
    var text := Joined(NOT_OPEN, conds);
    assert IsNegation(text, conds);
    forall other | IsNegation(text, other) ensures other == conds {
      JoinedUnique(NOT_OPEN, other, conds);
    }
  }

  ghost predicate AllTrue(base: string -> bool, parts: seq<string>) {
    forall p | p in parts :: Truth(base, p)
  }

  /** A guard text holds if it is a conjunction of true parts. */
  ghost predicate Holds(base: string -> bool, guard: string) {
    exists parts :: AllBalanced(parts) && guard == Joined(OPEN, parts) && AllTrue(base, parts)
  }

  /** Deduplication by text is sound: equal texts have equal parts, so equal meaning. */
  lemma HoldsParts(base: string -> bool, parts: seq<string>)
    requires AllBalanced(parts)
    ensures Holds(base, Joined(OPEN, parts)) <==> AllTrue(base, parts)
  {
    forall other | AllBalanced(other) && Joined(OPEN, other) == Joined(OPEN, parts) ensures other == parts {
      JoinedUnique(OPEN, other, parts);
    }
  }
}
