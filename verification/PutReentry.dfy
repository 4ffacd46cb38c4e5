/** Exactly when a flush survives the writes the simulator runs inside its puts. */
module PutReentry {
  import opened PutModel
  import opened PutInvariant
  import opened PutFlush

  /** Every action run inside the puts from position `i` on is allowed where it runs. */
  ghost predicate AllowedFrom(e: Env, i: nat, oracle: Oracle)
    requires i <= |e.queue| && QueuesKnown(e) && OracleOk(e.beats, oracle)
    decreases |e.queue| - i
  {
    i == |e.queue| ||
    (match Commit(e, e.queue[i])
     case Err(_) => false
     case Ok(c) =>
       && AllAllowed(c, Inside(c, oracle))
       && (ApplyOne(e, i, oracle).Ok? ==>
             (ApplyOneKnown(e, i, oracle);
              AllowedFrom(ApplyOne(e, i, oracle).env, i + 1, Later(oracle)))))
  }

  /** The same over all rounds of the flush. */
  ghost predicate AllowedRounds(e: Env, oracle: Oracle)
    requires QueuesKnown(e) && OracleOk(e.beats, oracle)
    decreases |oracle|, |e.queue| + |e.bak|
  {
    e.queue == [] ||
    (&& AllowedFrom(e, 0, oracle)
     && (ApplyFrom(e, 0, oracle).outcome.Ok? ==>
           (ApplyFromKnown(e, 0, oracle);
            AllowedRounds(Swapped(ApplyFrom(e, 0, oracle).outcome.env), ApplyFrom(e, 0, oracle).rest))))
  }

  /** What a flush asks of its re-entrant actions; simulators that run none inside a put are asked nothing. */
  ghost predicate AllowedFlush(e: Env, oracle: Oracle)
    requires QueuesKnown(e) && OracleOk(e.beats, oracle)
  {
    e.hasBak ==> AllowedRounds(Started(e), oracle)
  }

  lemma {:induction false} ApplyFromOkIff(e: Env, i: nat, oracle: Oracle)
    requires i <= |e.queue| && Applying(e, i) && e.hasBak && QueuesKnown(e) && OracleOk(e.beats, oracle)
    ensures ApplyFrom(e, i, oracle).outcome.Ok? <==> AllowedFrom(e, i, oracle)
    decreases |e.queue| - i
  {
    hide AllAllowed, Reenter, Applying;
    if i < |e.queue| {
      CommitKnown(e, i);
      var c := Commit(e, e.queue[i]).env;
      ReenterApplying(c, i + 1, Inside(c, oracle));
      ApplyOneFits(e, i, oracle);
      if ApplyOne(e, i, oracle).Ok? {
        ApplyOneKnown(e, i, oracle);
        ApplyFromOkIff(ApplyOne(e, i, oracle).env, i + 1, Later(oracle));
      }
    }
  }

  lemma CommitKnown(e: Env, i: nat)
    requires Applying(e, i) && i < |e.queue|
    ensures Commit(e, e.queue[i]).Ok? && Applying(Commit(e, e.queue[i]).env, i + 1)
    ensures Commit(e, e.queue[i]).env.hasBak == e.hasBak
  {
    CommitApplying(e, i);
  }

  lemma {:induction false} RoundsOkIff(e: Env, oracle: Oracle)
    requires Applying(e, 0) && e.hasBak && e.bak == [] && QueuesKnown(e) && OracleOk(e.beats, oracle)
    ensures Rounds(e, oracle).outcome.Ok? <==> AllowedRounds(e, oracle)
    decreases |oracle|, |e.queue| + |e.bak|
  {
    hide ApplyFrom, AllowedFrom;
    if e.queue != [] {
      ApplyFromOkIff(e, 0, oracle);
      var a := ApplyFrom(e, 0, oracle);
      if a.outcome.Ok? {
        ApplyFromKnown(e, 0, oracle);
        SwappedApplying(e, oracle);
        RoundsOkIff(Swapped(a.outcome.env), a.rest);
      }
    }
  }

  lemma SwappedApplying(e: Env, oracle: Oracle)
    requires Applying(e, 0) && e.hasBak && QueuesKnown(e) && OracleOk(e.beats, oracle)
    requires ApplyFrom(e, 0, oracle).outcome.Ok?
    ensures Applying(Swapped(ApplyFrom(e, 0, oracle).outcome.env), 0)
  {
    hide ApplyFrom, HandleFit, HistFit;
    ApplyFromFits(e, 0, oracle);
    var d := ApplyFrom(e, 0, oracle).outcome.env;
    var next := Swapped(d);
    assert d.queue[|e.queue|..] + d.bak == d.bak;
    assert next.queue[0..] + next.bak == d.bak;
    FitIgnoresSim(d, next, d.bak);
    SortedNoDup(next.hist, next.queue);
  }

  /**
   A flush completes if and only if every action run inside its puts is allowed where it runs. The
   handles of the vector being applied stay in it until its end, committed or not: of them, only one
   that was committed and not written again takes a write, and none takes an immediate release.
   */
  lemma FlushOkIff(e: Env, oracle: Oracle)
    requires Idle(e) && OracleOk(e.beats, oracle)
    ensures QueuesKnown(e)
    ensures ApplyPending(e, oracle).outcome.Ok? <==> AllowedFlush(e, oracle)
    ensures ApplyPending(e, oracle).outcome.Err? ==> ApplyPending(e, oracle).outcome == Err(BatchChanged)
  {
    hide Fit, ApplyPending, AllowedRounds;
    IdleKnown(e);
    FlushFits(e, oracle);
    if e.hasBak {
      BackedOkIff(e, oracle);
    }
  }

  lemma BackedOkIff(e: Env, oracle: Oracle)
    requires Idle(e) && OracleOk(e.beats, oracle) && e.hasBak
    ensures QueuesKnown(e) && QueuesKnown(Started(e)) && Started(e).beats == e.beats
    ensures ApplyPending(e, oracle).outcome.Ok? <==> AllowedRounds(Started(e), oracle)
  {
    hide Rounds, AllowedRounds, Fit;
    IdleKnown(e);
    if e.queue == [] {
      NoRounds(Started(e), oracle);
    } else {
      StartedApplying(e);
      RoundsOkIff(Started(e), oracle);
    }
  }

  lemma IdleKnown(e: Env)
    requires Idle(e)
    ensures QueuesKnown(e) && QueuesKnown(Started(e)) && Started(e).beats == e.beats
  {
  }

  lemma NoRounds(e: Env, oracle: Oracle)
    requires e.queue == [] && QueuesKnown(e) && OracleOk(e.beats, oracle)
    ensures AllowedRounds(e, oracle)
  {
  }
}
