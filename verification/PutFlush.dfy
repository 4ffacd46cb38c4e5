/**
 Every action and every flush keeps the coherence of queue, flags and log; a flush from a coherent
 state can go wrong in one way only, and when it does not it leaves nothing pending.
 */
module PutFlush {
  import opened Common
  import opened PutModel
  import opened PutHistory
  import opened PutInvariant

  // ---- between flushes ----

  lemma PendingInQueue(e: Env, q: seq<Handle>, h: Handle)
    requires Fit(e, q) && h in e.beats
    ensures h in q <==> e.hs[h].flag.Some?
  {
    assert HandleFit(e, h);
  }

  /** The flags of all handles are clear when nothing is outstanding. */
  ghost predicate NothingPending(e: Env) {
    && e.queue == [] && e.bak == []
    && Handles(e)
    && forall h | h in e.beats :: e.hs[h].flag == None && Live(e.hist, h) == []
  }

  lemma PostIdle(e: Env, h: Handle, op: Op)
    requires Idle(e) && ActionOk(e.beats, DoPost(h, op))
    ensures Post(e, h, op).Ok? && Idle(Post(e, h, op).env)
  {
    hide QueueFit, HistFit, HandleFit, WriteHandle;
    PendingInQueue(e, e.queue, h);
    if Rejects(e.hs[h], op.flag) {
      RejectedFit(e, e.queue, h, op);
    } else {
      AcceptedFit(e, Post(e, h, op).env, e.queue, h, op);
    }
  }

  lemma ReleaseIdle(e: Env, h: Handle)
    requires Idle(e) && h in e.beats
    ensures Idle(ReleaseImm(e, h))
  {
    hide QueueFit, HistFit, HandleFit;
    PendingInQueue(e, e.queue, h);
    SettledFit(e, ReleaseImm(e, h), e.queue, h, ReleasedNow(h));
  }

  /** Between flushes no action can fault, whatever its handle's state. */
  lemma ActIdle(e: Env, a: Action)
    requires Idle(e) && ActionOk(e.beats, a)
    ensures Act(e, a).Ok? && Idle(Act(e, a).env)
  {
    hide QueueFit, HistFit, HandleFit, Post, ReleaseImm;
    match a
    case DoPost(h, op) => PostIdle(e, h, op);
    case DoReleaseImm(h) => ReleaseIdle(e, h);
    case DoAwait(_) => FitIgnoresSim(e, Act(e, a).env, e.queue);
  }

  lemma FitIgnoresSim(e: Env, e': Env, q: seq<Handle>)
    requires Fit(e, q) && e'.beats == e.beats && e'.hs == e.hs && e'.hist == e.hist
    ensures Fit(e', q)
  {
    forall h | h in e'.beats ensures HandleFit(e', h) {
      assert HandleFit(e, h);
    }
  }

  // ---- while the queue is being applied ----

  /** Position `i` is next; on vcs and iverilog new requests go to the backup queue. */
  ghost predicate Applying(e: Env, i: nat) {
    && (e.hasBak <==> e.useBak)
    && (!e.hasBak ==> e.bak == [])
    && i <= |e.queue|
    && NoDup(e.queue)
    && Fit(e, e.queue[i..] + e.bak)
  }

  /**
   A re-entrant action that leaves the vector under the iterator alone: a rejected write, a write to a
   handle that is not in it or whose flag was taken and not set again, a release of a handle not in it.
   */
  predicate Allowed(e: Env, a: Action)
    requires Handles(e) && ActionOk(e.beats, a)
  {
    match a
    case DoPost(h, op) => Rejects(e.hs[h], op.flag) || h !in e.queue || e.hs[h].flag.None?
    case DoReleaseImm(h) => h !in e.queue
    case DoAwait(_) => true
  }

  /** A write accepted for a handle that is not under the iterator goes to the backup queue. */
  lemma BackupShape(e: Env, h: Handle, op: Op)
    requires Handles(e) && e.hasBak && e.useBak && ActionOk(e.beats, DoPost(h, op))
    requires !Rejects(e.hs[h], op.flag)
    requires if h in e.bak then e.hs[h].flag.Some? && h !in e.queue else e.hs[h].flag.None?
    ensures Post(e, h, op).Ok?
    ensures var e' := Post(e, h, op).env;
            && e'.beats == e.beats && e'.hist == e.hist + [Posted(h, op)]
            && e'.hs == e.hs[h := WriteHandle(e.beats[h], e.hs[h], op)]
            && e'.queue == e.queue && e'.bak == Drop(e.bak, h) + [h] && e'.useBak && e'.hasBak
  {
  }

  lemma PostToBackup(e: Env, i: nat, h: Handle, op: Op)
    requires Applying(e, i) && e.hasBak && ActionOk(e.beats, DoPost(h, op))
    requires !Rejects(e.hs[h], op.flag) && (h !in e.queue || e.hs[h].flag.None?)
    ensures Post(e, h, op).Ok? && Post(e, h, op).env.queue == e.queue && Applying(Post(e, h, op).env, i)
  {
    var head := e.queue[i..];
    var q := head + e.bak;
    PendingInQueue(e, q, h);
    assert h !in head by {
      assert h in head ==> h in e.queue && h in q;
    }
    assert h in q <==> h in e.bak;
    BackupShape(e, h, op);
    var e' := Post(e, h, op).env;
    AcceptedFit(e, e', q, h, op);
    BackupEnd(head, e.bak, h);
  }

  lemma BackupEnd(head: seq<Handle>, bak: seq<Handle>, h: Handle)
    requires h !in head
    ensures Drop(head + bak, h) + [h] == head + (Drop(bak, h) + [h])
  {
    if h in bak {
      RemoveConcat(head, bak, h);
    }
  }

  lemma PostApplying(e: Env, i: nat, h: Handle, op: Op)
    requires Applying(e, i) && e.hasBak && ActionOk(e.beats, DoPost(h, op))
    ensures Post(e, h, op).Ok?
    ensures Post(e, h, op).env.queue == e.queue <==> Allowed(e, DoPost(h, op))
    ensures Allowed(e, DoPost(h, op)) ==> Applying(Post(e, h, op).env, i)
  {
    if Rejects(e.hs[h], op.flag) {
      RejectedFit(e, e.queue[i..] + e.bak, h, op);
    } else if h in e.queue && e.hs[h].flag.Some? {
      assert |Remove(e.queue, h)| == |e.queue| - 1;
    } else {
      PostToBackup(e, i, h, op);
    }
  }

  /**
   The one fault a re-entrant action can cause, exactly: it modifies the vector being applied if
   and only if it is not allowed; and an allowed one keeps queues, flags and log coherent.
   */
  lemma ActApplying(e: Env, i: nat, a: Action)
    requires Applying(e, i) && e.hasBak && ActionOk(e.beats, a)
    ensures Act(e, a).Ok?
    ensures Act(e, a).env.queue == e.queue <==> Allowed(e, a)
    ensures Allowed(e, a) ==> Applying(Act(e, a).env, i)
  {
    hide QueueFit, HistFit, HandleFit, Post, ReleaseImm;
    match a
    case DoPost(h, op) => PostApplying(e, i, h, op);
    case DoReleaseImm(h) => ReleaseApplying(e, i, h);
    case DoAwait(_) => FitIgnoresSim(e, Act(e, a).env, e.queue[i..] + e.bak);
  }

  lemma ReleaseApplying(e: Env, i: nat, h: Handle)
    requires Applying(e, i) && e.hasBak && h in e.beats && Handles(e)
    ensures ReleaseImm(e, h).queue == e.queue <==> h !in e.queue
    ensures h !in e.queue ==> Applying(ReleaseImm(e, h), i)
  {
    hide QueueFit, HistFit, HandleFit;
    if h in e.queue {
      assert |Remove(e.queue, h)| == |e.queue| - 1;
    } else {
      var q := e.queue[i..] + e.bak;
      PendingInQueue(e, q, h);
      assert h !in e.queue[i..];
      SettledFit(e, ReleaseImm(e, h), q, h, ReleasedNow(h));
      if h in e.bak {
        RemoveConcat(e.queue[i..], e.bak, h);
      }
    }
  }

  /** Every action of the list is allowed where it runs. */
  ghost predicate AllAllowed(e: Env, actions: seq<Action>)
    requires Handles(e) && ActionsOk(e.beats, actions)
    decreases |actions|
  {
    actions == [] ||
    (Allowed(e, actions[0]) && (Act(e, actions[0]).Ok? ==> AllAllowed(Act(e, actions[0]).env, actions[1..])))
  }

  lemma {:induction false} ReenterApplying(e: Env, i: nat, actions: seq<Action>)
    requires Applying(e, i) && e.hasBak && ActionsOk(e.beats, actions)
    ensures Reenter(e, actions).Ok? <==> AllAllowed(e, actions)
    ensures match Reenter(e, actions)
            case Ok(e') => Applying(e', i)
            case Err(f) => f == BatchChanged
    decreases |actions|
  {
    if actions != [] {
      ActApplying(e, i, actions[0]);
      if Allowed(e, actions[0]) {
        ReenterApplying(Act(e, actions[0]).env, i, actions[1..]);
      }
    }
  }

  lemma CommitApplying(e: Env, i: nat)
    requires Applying(e, i) && i < |e.queue|
    ensures var h := e.queue[i];
            && e.hs[h].flag.Some?
            && Commit(e, h).Ok? && Applying(Commit(e, h).env, i + 1)
            && Commit(e, h).env.hist == e.hist + [Committed(NextPut(e, h))]
  {
    hide HistFit, HandleFit, PayloadOf;
    var h := e.queue[i];
    var q := e.queue[i..] + e.bak;
    assert q[0] == h;
    PendingInQueue(e, q, h);
    SettledFit(e, Commit(e, h).env, q, h, Committed(NextPut(e, h)));
    assert Remove(q, h) == e.queue[i + 1..] + e.bak;
  }

  lemma ApplyOneFits(e: Env, i: nat, oracle: Oracle)
    requires Applying(e, i) && i < |e.queue| && OracleOk(e.beats, oracle) && e.queue[i] in e.beats
    ensures match ApplyOne(e, i, oracle)
            case Ok(d) => Applying(d, i + 1)
            case Err(f) => f == BatchChanged && e.hasBak
  {
    CommitApplying(e, i);
    var c := Commit(e, e.queue[i]).env;
    if c.hasBak {
      ReenterApplying(c, i + 1, Inside(c, oracle));
    }
  }

  lemma {:induction false} ApplyFromFits(e: Env, i: nat, oracle: Oracle)
    requires Applying(e, i) && OracleOk(e.beats, oracle) && forall h | h in e.queue :: h in e.beats
    ensures match ApplyFrom(e, i, oracle).outcome
            case Ok(d) => Applying(d, |e.queue|)
            case Err(f) => f == BatchChanged && e.hasBak
    decreases |e.queue| - i
  {
    hide HandleFit, QueueFit, ApplyOne;
    if i < |e.queue| {
      ApplyOneFits(e, i, oracle);
      if ApplyOne(e, i, oracle).Ok? {
        ApplyFromFits(ApplyOne(e, i, oracle).env, i + 1, Later(oracle));
      }
    }
  }

  lemma {:induction false} RoundsFit(e: Env, oracle: Oracle)
    requires Applying(e, 0) && e.hasBak && e.bak == [] && QueuesKnown(e) && OracleOk(e.beats, oracle)
    ensures match Rounds(e, oracle).outcome
            case Ok(d) => Fit(d, []) && d.queue == [] && d.bak == [] && d.useBak
            case Err(f) => f == BatchChanged
    decreases |oracle|, |e.queue| + |e.bak|
  {
    hide ApplyFrom;
    assert e.queue[0..] + e.bak == e.queue;
    if e.queue != [] {
      var a := ApplyFrom(e, 0, oracle);
      ApplyFromFits(e, 0, oracle);
      if a.outcome.Ok? {
        var d := a.outcome.env;
        ApplyFromKnown(e, 0, oracle);
        var next := d.(queue := d.bak, bak := []);
        assert d.queue[|e.queue|..] + d.bak == d.bak;
        assert next.queue[0..] + next.bak == d.bak;
        FitIgnoresSim(d, next, d.bak);
        SortedNoDup(next.hist, next.queue);
        RoundsFit(next, a.rest);
      }
    }
  }

  lemma StartedApplying(e: Env)
    requires Idle(e)
    ensures Applying(Started(e), 0)
  {
    SortedNoDup(e.hist, e.queue);
    assert e.queue[0..] + [] == e.queue;
    FitIgnoresSim(e, Started(e), e.queue);
  }

  lemma PlainFlushFits(e: Env, oracle: Oracle)
    requires Idle(e) && !e.hasBak && OracleOk(e.beats, oracle) && e.queue != []
    ensures ApplyPending(e, oracle).outcome.Ok?
    ensures var d := ApplyPending(e, oracle).outcome.env; Idle(d) && d.queue == []
  {
    var s := Started(e);
    StartedApplying(e);
    ApplyFromFits(s, 0, oracle);
    var d := ApplyFrom(s, 0, oracle).outcome.env;
    assert d.queue[|e.queue|..] + d.bak == [];
    FitIgnoresSim(d, d.(queue := []), []);
  }

  lemma BackedFlushFits(e: Env, oracle: Oracle)
    requires Idle(e) && e.hasBak && OracleOk(e.beats, oracle) && e.queue != []
    ensures match ApplyPending(e, oracle).outcome
            case Ok(d) => Idle(d) && d.queue == []
            case Err(f) => f == BatchChanged
  {
    var s := Started(e);
    StartedApplying(e);
    RoundsFit(s, oracle);
    var r := Rounds(s, oracle).outcome;
    if r.Ok? {
      FitIgnoresSim(r.env, r.env.(useBak := false), []);
    }
  }

  /**
   apply_pending_put_values, for any re-entrant writes: the stale-entry assertion and the unchecked
   take never fail; unless the vector under the iterator is modified, the flush ends with both
   queues empty and every write posted before or during it committed or superseded.
   */
  lemma FlushFits(e: Env, oracle: Oracle)
    requires Idle(e) && OracleOk(e.beats, oracle)
    ensures match ApplyPending(e, oracle).outcome
            case Ok(d) => Idle(d) && NothingPending(d)
            case Err(f) => f == BatchChanged && e.hasBak
  {
    if e.queue != [] {
      if e.hasBak {
        BackedFlushFits(e, oracle);
      } else {
        PlainFlushFits(e, oracle);
      }
    }
    if ApplyPending(e, oracle).outcome.Ok? {
      EmptyQueueClear(ApplyPending(e, oracle).outcome.env);
    }
  }

  lemma EmptyQueueClear(e: Env)
    requires Fit(e, []) && e.queue == [] && e.bak == []
    ensures NothingPending(e)
  {
    forall h | h in e.beats ensures e.hs[h].flag == None && Live(e.hist, h) == [] {
      assert HandleFit(e, h);
    }
  }

  // ---- the order of a flush without re-entrant writes ----

  ghost predicate AllFlagged(e: Env, q: seq<Handle>) {
    Handles(e) && forall h | h in q :: h in e.beats && e.hs[h].flag.Some?
  }

  /** One put per handle of `q`, in that order, each as its handle holds it in `e`. */
  function PutsOf(e: Env, q: seq<Handle>): seq<Entry>
    requires AllFlagged(e, q)
  {
    if q == [] then [] else [Committed(NextPut(e, q[0]))] + PutsOf(e, q[1..])
  }

  lemma {:induction false} PutsOfSame(e: Env, e': Env, q: seq<Handle>)
    requires AllFlagged(e, q) && AllFlagged(e', q) && e'.beats == e.beats
    requires forall h | h in q :: e'.hs[h] == e.hs[h]
    ensures PutsOf(e', q) == PutsOf(e, q)
  {
    if q != [] {
      PutsOfSame(e, e', q[1..]);
    }
  }

  lemma FlaggedRest(e: Env, i: nat)
    requires Applying(e, i)
    ensures AllFlagged(e, e.queue[i..])
  {
    forall h | h in e.queue[i..] ensures h in e.beats && e.hs[h].flag.Some? {
      assert h in e.queue[i..] + e.bak;
      PendingInQueue(e, e.queue[i..] + e.bak, h);
    }
  }

  /** A put in which nothing runs. */
  lemma QuietPut(e: Env, i: nat)
    requires i < |e.queue| && Handles(e) && e.queue[i] in e.beats && e.hs[e.queue[i]].flag.Some?
    ensures ApplyOne(e, i, []) == Commit(e, e.queue[i])
  {
  }

  lemma {:induction false} ApplyOrder(e: Env, i: nat)
    requires i <= |e.queue| && NoDup(e.queue) && AllFlagged(e, e.queue[i..])
    requires forall h | h in e.queue :: h in e.beats
    ensures var r := ApplyFrom(e, i, []).outcome;
            r.Ok? && r.env.hist == e.hist + PutsOf(e, e.queue[i..])
    decreases |e.queue| - i
  {
    hide ApplyOne, PayloadOf, Reenter;
    if i < |e.queue| {
      var h := e.queue[i];
      assert e.queue[i..][0] == h && e.queue[i..][1..] == e.queue[i + 1..];
      var c := Commit(e, h).env;
      QuietPut(e, i);
      assert h !in e.queue[i + 1..];
      assert AllFlagged(c, e.queue[i + 1..]);
      ApplyOrder(c, i + 1);
      PutsOfSame(e, c, e.queue[i + 1..]);
    }
  }

  /**
   Log compaction: between flushes any number of writes may be posted; the flush issues exactly one
   put per pending handle, in queue order.
   */
  lemma FlushOrder(e: Env)
    requires Idle(e)
    ensures AllFlagged(e, e.queue)
    ensures ApplyPending(e, []).outcome.Ok?
    ensures ApplyPending(e, []).outcome.env.hist == e.hist + PutsOf(e, e.queue)
  {
    var s := Started(e);
    StartedApplying(e);
    FlaggedRest(s, 0);
    ApplyOrder(s, 0);
    assert s.queue[0..] == e.queue;
    PutsOfSame(s, e, e.queue);
    var d := ApplyFrom(s, 0, []).outcome.env;
    if e.queue != [] && e.hasBak {
      ApplyFromKnown(s, 0, []);
      assert Rounds(d.(queue := d.bak, bak := []), []).outcome == Ok(d.(queue := d.bak, bak := []));
    }
  }

  /** ... and that order is the order of the last accepted writes, each put carrying the winning write. */
  lemma QueueIsCompactedLog(e: Env)
    requires Idle(e)
    ensures NoDup(e.queue)
    ensures forall h | h in e.beats :: h in e.queue <==> Live(e.hist, h) != []
    ensures forall i, j | 0 <= i < j < |e.queue| ::
              Winner(Live(e.hist, e.queue[i])).at < Winner(Live(e.hist, e.queue[j])).at
    ensures forall h | h in e.queue ::
              var op := Winner(Live(e.hist, h)).op;
              e.hs[h].flag.Some? && OpOk(e.beats[h], op) && Delivers(e.beats[h], NextPut(e, h), op)
  {
    SortedNoDup(e.hist, e.queue);
    forall h | h in e.queue
      ensures var op := Winner(Live(e.hist, h)).op;
              e.hs[h].flag.Some? && OpOk(e.beats[h], op) && Delivers(e.beats[h], NextPut(e, h), op)
    {
      assert HandleFit(e, h);
    }
    forall i, j | 0 <= i < j < |e.queue|
      ensures Winner(Live(e.hist, e.queue[i])).at < Winner(Live(e.hist, e.queue[j])).at
    {
      assert e.queue[i] in e.queue && e.queue[j] in e.queue;
      assert Rank(e.hist, e.queue[i]) < Rank(e.hist, e.queue[j]);
    }
  }

  lemma {:induction false} PutsOfAt(e: Env, q: seq<Handle>, k: nat)
    requires AllFlagged(e, q) && k < |q|
    ensures |PutsOf(e, q)| == |q| && PutsOf(e, q)[k] == Committed(NextPut(e, q[k]))
    decreases |q|
  {
    if k > 0 {
      PutsOfAt(e, q[1..], k - 1);
    } else if |q| > 1 {
      PutsOfAt(e, q[1..], 0);
    }
  }

  /** The flush drives a release for a handle if and only if the last write posted to it is one: a later set makes it vanish. */
  lemma ReleaseDrivenIff(e: Env, k: nat)
    requires Idle(e) && k < |e.queue|
    ensures ApplyPending(e, []).outcome.Ok?
    ensures var h, hist := e.queue[k], ApplyPending(e, []).outcome.env.hist;
      && Live(e.hist, h) != [] && |hist| == |e.hist| + |e.queue|
      && hist[|e.hist| + k].Committed? && hist[|e.hist| + k].put.handle == h
      && (hist[|e.hist| + k].put.flag == Release <==> Last(Live(e.hist, h)).op.flag == Release)
  {
    hide ApplyPending, Delivers;
    var h := e.queue[k];
    FlushOrder(e);
    PutsOfAt(e, e.queue, k);
    assert h in e.queue;
    assert HandleFit(e, h);
    LastNonSetIn(Live(e.hist, h));
  }
}
