/** Small shared vocabulary: optional values and finite sequences. */
module Common {

  datatype Option<+T> = None | Some(value: T)

  function Min(a: nat, b: nat): nat {
    if a <= b then a else b
  }

  function Front<T>(s: seq<T>): seq<T>
    requires s != []
  {
    s[..|s| - 1]
  }

  function Last<T>(s: seq<T>): T
    requires s != []
  {
    s[|s| - 1]
  }

  ghost predicate NoDup<T>(s: seq<T>) {
    forall i, j :: 0 <= i < j < |s| ==> s[i] != s[j]
  }

  /** `q` lists every element of `all` exactly once: one possible iteration order of a hash table. */
  ghost predicate Enumerates<T>(q: seq<T>, all: set<T>) {
    && NoDup(q)
    && (forall x | x in q :: x in all)
    && (forall x | x in all :: x in q)
  }

  /** The elements of `s` that do not occur in `drop`, in order. */
  function Without<T(==)>(s: seq<T>, drop: seq<T>): (r: seq<T>)
    ensures forall x | x in r :: x in s && x !in drop
    ensures forall x | x in s && x !in drop :: x in r
    ensures |r| <= |s|
  {
    if s == [] then []
    else
      var r := Without(Front(s), drop);
      assert s == Front(s) + [Last(s)];
      if Last(s) in drop then r else r + [Last(s)]
  }

  lemma {:induction false} WithoutNoDup<T>(s: seq<T>, drop: seq<T>)
    requires NoDup(s)
    ensures NoDup(Without(s, drop))
  {
    if s != [] {
      WithoutNoDup(Front(s), drop);
      assert Last(s) !in Front(s);
    }
  }

  lemma NoDupConcat<T>(a: seq<T>, b: seq<T>)
    requires NoDup(a) && NoDup(b)
    requires forall x | x in b :: x !in a
    ensures NoDup(a + b)
  {
    forall i, j | 0 <= i < j < |a + b| ensures (a + b)[i] != (a + b)[j] {
      if i < |a| <= j {
        assert b[j - |a|] in b;
      }
    }
  }

  // ---- division ----

  lemma MulMono(a: nat, b: nat, d: nat)
    ensures a <= b ==> a * d <= b * d
  {
  }

  lemma Distributes(c: nat, d: nat)
    ensures (c + 1) * d == c * d + d
  {
  }

  /** Quotient and remainder are determined. */
  lemma QuotientIs(n: nat, d: nat, q: nat, r: nat)
    requires r < d && n == q * d + r
    ensures n / d == q && n % d == r
  {
    var k := n / d;
    assert n == k * d + n % d;
    MulMono(k + 1, q, d);
    MulMono(q + 1, k, d);
    assert (k + 1) * d == k * d + d && (q + 1) * d == q * d + d;
  }
}
