/**
 Whole-run results of the protocol: one heartbeat, no stranded write, and await_rw resuming only on
 settled values, in every reachable state and for every behaviour of simulator and coroutines.
 */
module SchedProofs {
  import opened Common
  import opened PutModel
  import opened PutHistory
  import opened PutInvariant
  import opened PutFlush
  import opened SchedModel

  function Flushes(e: Env): nat {
    e.sim.flushNow + e.sim.flushNext
  }

  /** Exactly one cbNextSimTime, or none while the flush that will register it is outstanding; never one on an inner-step build. */
  ghost predicate Heartbeat(e: Env) {
    if e.innerStep then e.sim.nextSim == 0
    else
      || (e.sim.nextSim == 1 && (e.rwPassed || Flushes(e) == 0))
      || (e.sim.nextSim == 0 && !e.rwPassed && Flushes(e) >= 1)
  }

  /** Before the first NextSim nothing is flushed; from then on a slot whose flush is not over has it outstanding. */
  ghost predicate Stepping(e: Env) {
    && (e.rwPassed || Flushes(e) >= 1 ==> e.sim.stepped)
    && (e.sim.stepped && !e.rwPassed ==> Flushes(e) >= 1)
  }

  /** Once the slot's flush is over, whatever waits has a callback coming; only then is there a re-registration. */
  ghost predicate Attended(e: Env) {
    && (e.reReg ==> e.rwPassed)
    && (e.rwPassed && (e.queue != [] || e.reReg) ==> Flushes(e) >= 1)
  }

  ghost predicate AwaitOk(total: nat, a: Await) {
    a.born <= a.since <= total && a.epoch == a.since % EPOCH_LIMIT && a.deferrals <= a.since - a.born
  }

  ghost predicate AwaitsOk(e: Env) {
    && e.epoch == e.sim.total % EPOCH_LIMIT
    && (forall a | a in e.sim.awaitNow :: AwaitOk(e.sim.total, a) && a.since <= e.sim.passTotal)
    && (forall a | a in e.sim.awaitNext :: AwaitOk(e.sim.total, a))
  }

  /** Within a pass, unsettled values can only come from a flush of that pass. */
  ghost predicate PassOk(e: Env) {
    if e.sim.inPass then
      e.sim.passTotal <= e.sim.total && (e.sim.dirty ==> e.sim.passTotal < e.sim.total)
    else e.sim.flushNow == 0 && e.sim.awaitNow == []
  }

  /** A release not settled within a pass was put in that pass. */
  ghost predicate LooseOk(e: Env) {
    e.sim.inPass && e.sim.loose ==> Released(PassLog(e))
  }

  /** The log tells of an immediate release. */
  ghost predicate Released(log: seq<Entry>) {
    exists x :: x in log && x.ReleasedNow?
  }

  /** A resumed task saw an empty queue and, short of 2^64 flushes, no commit since it registered. */
  ghost predicate ResumeOk(r: Resume) {
    && r.queueEmpty
    && r.await.since <= r.total
    && (r.total - r.await.since) % EPOCH_LIMIT == 0
    && (r.total - r.await.since < EPOCH_LIMIT ==> r.total == r.await.since && !r.dirty)
    && (r.loose ==> Released(r.pass))
  }

  ghost predicate Settles(x: Entry, h: Handle) {
    x == ReleasedNow(h) || (x.Committed? && x.put.handle == h)
  }

  ghost predicate SettledSince(hist: seq<Entry>, mark: nat, h: Handle) {
    exists i :: mark <= i < |hist| && Settles(hist[i], h)
  }

  ghost predicate MarkOk(e: Env) {
    && e.sim.passMark <= |e.hist|
    && forall h | h in e.sim.passQueue :: h in e.beats && Live(e.hist[..e.sim.passMark], h) != []
  }

  /** What waited when the pass began is settled, or the flush of this pass is still to come. */
  ghost predicate Drains(e: Env) {
    e.sim.inPass ==>
      || e.sim.flushNow >= 1
      || (forall h | h in e.sim.passQueue :: SettledSince(e.hist, e.sim.passMark, h))
      || !e.sim.stepped
  }

  /** A pass begun before the slot's flush has that flush still ahead, unless no NextSim has run yet. */
  ghost predicate Beating(e: Env) {
    e.sim.inPass && !e.rwPassed ==> !e.sim.stepped || e.sim.flushNow >= 1
  }

  ghost predicate Proto(e: Env) {
    && Idle(e)
    && Heartbeat(e)
    && Stepping(e)
    && Attended(e)
    && AwaitsOk(e)
    && PassOk(e)
    && MarkOk(e)
    && LooseOk(e)
    && Drains(e)
    && Beating(e)
    && (forall r | r in e.sim.resumed :: ResumeOk(r))
  }

  lemma InitialProto(e: Env)
    requires Initial(e)
    ensures Proto(e)
  {
  }

  // ---- what actions and puts leave alone ----

  ghost predicate FreshAwaits(e: Env, e': Env) {
    && e.sim.awaitNext <= e'.sim.awaitNext
    && forall a | a in e'.sim.awaitNext[|e.sim.awaitNext|..] ::
         a.epoch == e.epoch && a.since == e.sim.total && a.born == e.sim.total && a.deferrals == 0
  }

  ghost predicate Quiet(e: Env, e': Env) {
    && e'.rwPassed == e.rwPassed && e'.epoch == e.epoch && SameHandles(e, e')
    && e'.sim == e.sim.(flushNext := e'.sim.flushNext, awaitNext := e'.sim.awaitNext, dirty := e'.sim.dirty, loose := e'.sim.loose)
    && e.sim.flushNext <= e'.sim.flushNext
    && (!e.rwPassed ==> e.sim.flushNext == e'.sim.flushNext)
    && (e.reReg ==> e'.reReg)
    && (e'.reReg && !e.reReg ==> e.rwPassed && e.sim.flushNext < e'.sim.flushNext)
    && FreshAwaits(e, e')
    && e.hist <= e'.hist
    && (e'.sim.loose ==> e.sim.loose || Released(e'.hist[|e.hist|..]))
  }

  lemma QuietTrans(a: Env, b: Env, c: Env)
    requires Quiet(a, b) && Quiet(b, c)
    ensures Quiet(a, c)
  {
    var n := |a.sim.awaitNext|;
    assert c.sim.awaitNext[n..] == b.sim.awaitNext[n..] + c.sim.awaitNext[|b.sim.awaitNext|..];
    assert c.hist[|a.hist|..] == b.hist[|a.hist|..] + c.hist[|b.hist|..];
  }

  lemma QuietSame(e: Env)
    ensures Quiet(e, e)
  {
    assert e.sim.awaitNext[|e.sim.awaitNext|..] == [];
  }

  lemma QuietPush(e: Env, h: Handle)
    requires Handles(e)
    ensures Quiet(e, Push(e, h)) && Push(e, h).sim.dirty == e.sim.dirty
    ensures e.rwPassed ==> Push(e, h).reReg
  {
    assert e.sim.awaitNext[|e.sim.awaitNext|..] == [];
  }

  lemma QuietPost(e: Env, h: Handle, op: Op)
    requires Handles(e) && ActionOk(e.beats, DoPost(h, op)) && Post(e, h, op).Ok?
    ensures Quiet(e, Post(e, h, op).env)
    ensures Post(e, h, op).env.sim.dirty == e.sim.dirty
    ensures e.rwPassed && Post(e, h, op).env.queue != [] ==> e.queue != [] || Post(e, h, op).env.reReg
  {
    hide Quiet, DropStale, WriteHandle, Push, Unqueued;
    var logged := e.(hist := e.hist + [Posted(h, op)]);
    if Rejects(e.hs[h], op.flag) {
      QuietData(e, logged);
    } else {
      var c := Unqueued(logged, h).env;
      var written := c.(hs := c.hs[h := WriteHandle(e.beats[h], e.hs[h], op)]);
      assert Post(e, h, op).env == Push(written, h);
      QuietData(e, written);
      QuietPush(written, h);
      QuietTrans(e, written, Push(written, h));
    }
  }

  /** Changing handles, queues and log only is quiet. */
  lemma QuietData(e: Env, e': Env)
    requires e'.sim == e.sim && e'.rwPassed == e.rwPassed && e'.reReg == e.reReg && e'.epoch == e.epoch
    requires SameHandles(e, e') && e.hist <= e'.hist
    ensures Quiet(e, e')
  {
    assert e.sim.awaitNext[|e.sim.awaitNext|..] == [];
  }

  lemma QuietRelease(e: Env, h: Handle)
    requires Handles(e) && h in e.beats
    ensures Quiet(e, ReleaseImm(e, h)) && ReleaseImm(e, h).sim.dirty == e.sim.dirty
    ensures ReleaseImm(e, h).queue != [] ==> e.queue != []
  {
    hide Quiet;
    ReleaseShape(e, h);
    QuietLoose(e, ReleaseImm(e, h), h);
  }

  lemma ReleaseShape(e: Env, h: Handle)
    requires Handles(e) && h in e.beats
    ensures var d := ReleaseImm(e, h);
      && SameHandles(e, d) && d.hist == e.hist + [ReleasedNow(h)] && d.sim == e.sim.(loose := true)
      && d.rwPassed == e.rwPassed && d.reReg == e.reReg && d.epoch == e.epoch && (d.queue != [] ==> e.queue != [])
  {
  }

  lemma QuietLoose(e: Env, d: Env, h: Handle)
    requires SameHandles(e, d) && d.hist == e.hist + [ReleasedNow(h)] && d.sim == e.sim.(loose := true)
    requires d.rwPassed == e.rwPassed && d.reReg == e.reReg && d.epoch == e.epoch
    ensures Quiet(e, d)
  {
    assert e.sim.awaitNext[|e.sim.awaitNext|..] == [];
    assert d.hist[|e.hist|..] == [ReleasedNow(h)];
    assert ReleasedNow(h) in [ReleasedNow(h)];
  }

  lemma QuietAwait(e: Env, task: nat)
    ensures Quiet(e, RegisterAwait(e, task)) && RegisterAwait(e, task).sim.dirty == e.sim.dirty
    ensures RegisterAwait(e, task).queue == e.queue
  {
    var e' := RegisterAwait(e, task);
    assert e'.sim.awaitNext[|e.sim.awaitNext|..] == [Last(e'.sim.awaitNext)];
  }

  lemma QuietAct(e: Env, a: Action)
    requires Handles(e) && ActionOk(e.beats, a) && Act(e, a).Ok?
    ensures Quiet(e, Act(e, a).env)
    ensures Act(e, a).env.sim.dirty == e.sim.dirty
    ensures e.rwPassed && Act(e, a).env.queue != [] ==> e.queue != [] || Act(e, a).env.reReg
  {
    hide Quiet, Post, ReleaseImm, RegisterAwait;
    match a
    case DoPost(h, op) => QuietPost(e, h, op);
    case DoReleaseImm(h) => QuietRelease(e, h);
    case DoAwait(task) => QuietAwait(e, task);
  }

  lemma {:induction false} QuietReenter(e: Env, actions: seq<Action>)
    requires Handles(e) && ActionsOk(e.beats, actions) && Reenter(e, actions).Ok?
    ensures Quiet(e, Reenter(e, actions).env)
    ensures Reenter(e, actions).env.sim.dirty == e.sim.dirty
    decreases |actions|
  {
    if actions == [] {
      QuietSame(e);
    } else {
      QuietAct(e, actions[0]);
      var d := Act(e, actions[0]).env;
      QuietReenter(d, actions[1..]);
      QuietTrans(e, d, Reenter(d, actions[1..]).env);
    }
  }

  lemma QuietApplyOne(e: Env, i: nat, oracle: Oracle)
    requires i < |e.queue| && Handles(e) && OracleOk(e.beats, oracle) && e.queue[i] in e.beats
    requires ApplyOne(e, i, oracle).Ok?
    ensures Quiet(e, ApplyOne(e, i, oracle).env) && ApplyOne(e, i, oracle).env.sim.dirty
  {
    var c := Commit(e, e.queue[i]).env;
    assert e.sim.awaitNext[|e.sim.awaitNext|..] == [];
    assert Quiet(e, c);
    QuietReenter(c, Inside(c, oracle));
    QuietTrans(e, c, ApplyOne(e, i, oracle).env);
  }

  lemma {:induction false} QuietApplyFrom(e: Env, i: nat, oracle: Oracle)
    requires i <= |e.queue| && Handles(e) && OracleOk(e.beats, oracle)
    requires forall h | h in e.queue :: h in e.beats
    requires ApplyFrom(e, i, oracle).outcome.Ok?
    ensures Quiet(e, ApplyFrom(e, i, oracle).outcome.env)
    ensures ApplyFrom(e, i, oracle).outcome.env.sim.dirty == (i < |e.queue| || e.sim.dirty)
    decreases |e.queue| - i
  {
    if i == |e.queue| {
      QuietSame(e);
    } else {
      QuietApplyOne(e, i, oracle);
      var d := ApplyOne(e, i, oracle).env;
      QuietApplyFrom(d, i + 1, Later(oracle));
      QuietTrans(e, d, ApplyFrom(d, i + 1, Later(oracle)).outcome.env);
    }
  }

  lemma {:induction false} QuietRounds(e: Env, oracle: Oracle)
    requires QueuesKnown(e) && OracleOk(e.beats, oracle) && Rounds(e, oracle).outcome.Ok?
    ensures Quiet(e, Rounds(e, oracle).outcome.env)
    ensures Rounds(e, oracle).outcome.env.sim.dirty == (e.queue != [] || e.sim.dirty)
    decreases |oracle|, |e.queue| + |e.bak|
  {
    if e.queue == [] {
      QuietSame(e);
    } else {
      QuietApplyFrom(e, 0, oracle);
      ApplyFromKnown(e, 0, oracle);
      var a := ApplyFrom(e, 0, oracle);
      var d := a.outcome.env;
      var next := d.(queue := d.bak, bak := []);
      assert Quiet(e, next);
      QuietRounds(next, a.rest);
      QuietTrans(e, next, Rounds(next, a.rest).outcome.env);
    }
  }

  /** A flush of a non-empty queue: one more committing flush, values unsettled, the rest quiet. */
  lemma FlushEffect(e: Env, oracle: Oracle)
    requires QueuesKnown(e) && !e.useBak && OracleOk(e.beats, oracle) && ApplyPending(e, oracle).outcome.Ok?
    ensures var d := ApplyPending(e, oracle).outcome.env;
            if e.queue == [] then d == e else Quiet(Started(e), d) && d.sim.dirty
  {
    if e.queue != [] {
      var s := Started(e);
      if e.hasBak {
        QuietRounds(s, oracle);
        assert Quiet(s, Rounds(s, oracle).outcome.env.(useBak := false));
      } else {
        QuietApplyFrom(s, 0, oracle);
        assert Quiet(s, ApplyFrom(s, 0, oracle).outcome.env.(queue := []));
      }
    }
  }

  // ---- one step ----

  lemma {:induction false} SettledBetween(hist: seq<Entry>, mark: nat, h: Handle)
    requires mark <= |hist| && Live(hist[..mark], h) != [] && Live(hist, h) == []
    ensures SettledSince(hist, mark, h)
  {
    assert hist[..|hist|] == hist;
    if Settles(Last(hist), h) {
      assert Settles(hist[|hist| - 1], h);
    } else {
      assert Front(hist)[..mark] == hist[..mark];
      SettledBetween(Front(hist), mark, h);
      var i :| mark <= i < |Front(hist)| && Settles(Front(hist)[i], h);
      assert Settles(hist[i], h);
    }
  }

  lemma MarkGrows(e: Env, e': Env)
    requires MarkOk(e) && e.hist <= e'.hist && e'.beats == e.beats
    requires e'.sim.passMark == e.sim.passMark && e'.sim.passQueue == e.sim.passQueue
    ensures MarkOk(e')
    ensures forall h | SettledSince(e.hist, e.sim.passMark, h) :: SettledSince(e'.hist, e.sim.passMark, h)
  {
    assert e'.hist[..e.sim.passMark] == e.hist[..e.sim.passMark];
    forall h | SettledSince(e.hist, e.sim.passMark, h) ensures SettledSince(e'.hist, e.sim.passMark, h) {
      var i :| e.sim.passMark <= i < |e.hist| && Settles(e.hist[i], h);
      assert e'.hist[i] == e.hist[i];
    }
  }

  lemma LooseGrows(e: Env, e': Env)
    requires LooseOk(e) && e.hist <= e'.hist && e.sim.passMark <= |e.hist|
    requires e'.sim.passMark == e.sim.passMark && e'.sim.inPass == e.sim.inPass
    requires e'.sim.loose ==> e.sim.loose || Released(e'.hist[|e.hist|..])
    ensures LooseOk(e')
  {
    assert PassLog(e') == PassLog(e) + e'.hist[|e.hist|..];
  }

  lemma QuietAwaits(e: Env, e': Env)
    requires AwaitsOk(e) && Quiet(e, e')
    ensures AwaitsOk(e')
  {
    forall a | a in e'.sim.awaitNext ensures AwaitOk(e'.sim.total, a) {
      var n := |e.sim.awaitNext|;
      var i :| 0 <= i < |e'.sim.awaitNext| && e'.sim.awaitNext[i] == a;
      if i < n {
        assert e.sim.awaitNext[i] == a;
      } else {
        assert e'.sim.awaitNext[n..][i - n] == a;
      }
    }
  }

  lemma LuaKeeps(e: Env, a: Action)
    requires Proto(e) && Enabled(e, Lua(a))
    ensures Act(e, a).Ok? && Proto(Act(e, a).env)
  {
    ActIdle(e, a);
    QuietAct(e, a);
    var d := Act(e, a).env;
    QuietAwaits(e, d);
    MarkGrows(e, d);
    LooseGrows(e, d);
  }

  lemma StartedAwaits(e: Env)
    requires AwaitsOk(e)
    ensures AwaitsOk(Started(e))
  {
    forall a | a in e.sim.awaitNext ensures AwaitOk(e.sim.total + 1, a) {
      assert AwaitOk(e.sim.total, a);
    }
    forall a | a in e.sim.awaitNow ensures AwaitOk(e.sim.total + 1, a) {
      assert AwaitOk(e.sim.total, a);
    }
    NextEpoch(e.sim.total);
  }

  lemma NextEpoch(total: nat)
    ensures (total % EPOCH_LIMIT + 1) % EPOCH_LIMIT == (total + 1) % EPOCH_LIMIT
  {
  }

  /** The state a flush inside a pass leaves, before the callback does anything else. */
  ghost predicate Flushed(e: Env, d: Env) {
    && Idle(d) && NothingPending(d) && AwaitsOk(d) && MarkOk(d) && LooseOk(d)
    && d.sim.inPass && PassOk(d)
    && (forall h | h in d.sim.passQueue :: SettledSince(d.hist, d.sim.passMark, h))
    && d.rwPassed == e.rwPassed && d.sim.nextSim == e.sim.nextSim && d.sim.stepped == e.sim.stepped
    && d.sim.flushNow == e.sim.flushNow && d.sim.flushNext >= e.sim.flushNext
    && (!e.rwPassed ==> d.sim.flushNext == e.sim.flushNext)
    && (d.reReg && !e.reReg ==> d.sim.flushNext > e.sim.flushNext)
    && d.sim.resumed == e.sim.resumed && d.sim.passTotal == e.sim.passTotal
    && e.sim.total <= d.sim.total && SameHandles(e, d)
  }

  lemma FlushInPass(e: Env, oracle: Oracle)
    requires Idle(e) && AwaitsOk(e) && PassOk(e) && MarkOk(e) && LooseOk(e) && e.sim.inPass
    requires OracleOk(e.beats, oracle)
    ensures match ApplyPending(e, oracle).outcome
            case Ok(d) => Flushed(e, d)
            case Err(f) => f == BatchChanged && e.hasBak
  {
    hide ApplyPending, HistFit, HandleFit, Quiet;
    FlushFits(e, oracle);
    var r := ApplyPending(e, oracle).outcome;
    if r.Ok? {
      FlushEffect(e, oracle);
      if e.queue == [] {
        FlushedGrown(e, r.env);
      } else {
        QuietFlushed(e, r.env);
      }
    }
  }

  lemma QuietFlushed(e: Env, d: Env)
    requires Idle(e) && AwaitsOk(e) && PassOk(e) && MarkOk(e) && LooseOk(e) && e.sim.inPass
    requires Idle(d) && NothingPending(d) && Quiet(Started(e), d)
    ensures Flushed(e, d)
  {
    hide Fit, PassLog, NothingPending, Released;
    StartedAwaits(e);
    QuietAwaits(Started(e), d);
    LooseGrows(e, d);
    FlushedGrown(e, d);
  }

  /** Whatever waited when the pass began is settled once nothing is pending. */
  lemma FlushedGrown(e: Env, d: Env)
    requires MarkOk(e) && e.sim.inPass && e.hist <= d.hist && SameHandles(e, d)
    requires d.sim.passMark == e.sim.passMark && d.sim.passQueue == e.sim.passQueue
    requires Idle(d) && NothingPending(d)
    ensures MarkOk(d) && forall h | h in d.sim.passQueue :: SettledSince(d.hist, d.sim.passMark, h)
  {
    hide Fit;
    MarkGrows(e, d);
    forall h | h in d.sim.passQueue ensures SettledSince(d.hist, d.sim.passMark, h) {
      SettledBetween(d.hist, d.sim.passMark, h);
    }
  }

  lemma FireFlushKeeps(e: Env, oracle: Oracle)
    requires Proto(e) && Enabled(e, FireFlush(oracle))
    ensures match Step(e, FireFlush(oracle))
            case Ok(d) => Proto(d)
            case Err(f) => f == BatchChanged && e.hasBak
  {
    hide ApplyPending, Fit, OracleOk;
    var fired := e.(sim := e.sim.(flushNow := e.sim.flushNow - 1));
    FitIgnoresSim(e, fired, e.queue);
    SameLog(e, fired);
    FlushInPass(fired, oracle);
    var r := ApplyPending(fired, oracle).outcome;
    if r.Ok? {
      FitIgnoresSim(r.env, FlushDone(r.env), r.env.queue);
      FlushDoneKeeps(e, r.env);
    }
  }

  lemma SameLog(e: Env, e': Env)
    requires e'.hist == e.hist && e'.sim.passMark == e.sim.passMark
    ensures PassLog(e') == PassLog(e)
  {
  }

  /** After the flush of a flush callback the protocol is in order again. */
  lemma FlushDoneKeeps(e: Env, d: Env)
    requires Proto(e) && e.sim.inPass && e.sim.flushNow >= 1
    requires Flushed(e.(sim := e.sim.(flushNow := e.sim.flushNow - 1)), d)
    requires Idle(FlushDone(d))
    ensures Proto(FlushDone(d))
  {
    hide Fit;
    SameLog(d, FlushDone(d));
  }

  lemma EpochsDiffer(total: nat, since: nat)
    requires since <= total
    ensures total % EPOCH_LIMIT == since % EPOCH_LIMIT <==> (total - since) % EPOCH_LIMIT == 0
    ensures (total - since) % EPOCH_LIMIT == 0 && total - since < EPOCH_LIMIT ==> total == since
  {
  }

  /** What a callback of the pass may rely on before its flush. */
  ghost predicate InPass(e: Env) {
    && e.sim.inPass && Idle(e) && AwaitsOk(e) && PassOk(e) && MarkOk(e) && LooseOk(e) && Heartbeat(e) && Stepping(e) && Attended(e) && Beating(e)
    && (forall r | r in e.sim.resumed :: ResumeOk(r))
  }

  lemma FlushedProto(e: Env, d: Env)
    requires InPass(e) && Flushed(e, d)
    ensures Proto(d)
  {
  }

  lemma DeferKeeps(d: Env, again: Await)
    requires Proto(d) && AwaitOk(d.sim.total, again)
    ensures Proto(d.(sim := d.sim.(awaitNext := d.sim.awaitNext + [again])))
  {
    FitIgnoresSim(d, d.(sim := d.sim.(awaitNext := d.sim.awaitNext + [again])), d.queue);
  }

  lemma ResumeKeeps(d: Env, r: Resume)
    requires Proto(d) && ResumeOk(r)
    ensures Proto(d.(sim := d.sim.(resumed := d.sim.resumed + [r])))
  {
    FitIgnoresSim(d, d.(sim := d.sim.(resumed := d.sim.resumed + [r])), d.queue);
  }

  /** What a task resumed on an unchanged epoch sees. */
  lemma JudgedResume(d: Env, a: Await)
    requires PassOk(d) && LooseOk(d) && d.sim.inPass && d.epoch == d.sim.total % EPOCH_LIMIT
    requires AwaitOk(d.sim.total, a) && a.since <= d.sim.passTotal && d.epoch == a.epoch
    ensures ResumeOk(Resume(a.task, a, true, d.sim.dirty, d.sim.loose, d.sim.total, PassLog(d)))
  {
    hide PassLog, Released;
    EpochsDiffer(d.sim.total, a.since);
  }

  lemma JudgeKeeps(d: Env, a: Await)
    requires Proto(d) && d.sim.inPass && d.queue == [] && d.bak == []
    requires AwaitOk(d.sim.total, a) && a.since <= d.sim.passTotal
    ensures Proto(Judge(d, a))
  {
    hide Fit, PassLog, Drains, ResumeOk, AwaitOk, Heartbeat, Stepping, Attended, MarkOk, Beating, PassOk, LooseOk;
    if d.epoch != a.epoch {
      Deferred(d, a);
      DeferKeeps(d, Await(a.task, d.epoch, d.sim.total, a.born, a.deferrals + 1));
    } else {
      JudgedResume(d, a);
      ResumeKeeps(d, Resume(a.task, a, true, d.sim.dirty, d.sim.loose, d.sim.total, PassLog(d)));
    }
  }

  lemma Deferred(d: Env, a: Await)
    requires d.epoch == d.sim.total % EPOCH_LIMIT && AwaitOk(d.sim.total, a) && d.epoch != a.epoch
    ensures AwaitOk(d.sim.total, Await(a.task, d.epoch, d.sim.total, a.born, a.deferrals + 1))
  {
    assert a.since != d.sim.total;
  }

  /** An await callback resumes its task exactly when no flush came since its registration, modulo 2^64. */
  lemma ResumesIff(d: Env, a: Await)
    requires AwaitsOk(d) && AwaitOk(d.sim.total, a)
    ensures Judge(d, a).sim.resumed == d.sim.resumed <==> (d.sim.total - a.since) % EPOCH_LIMIT != 0
    ensures Judge(d, a).sim.resumed == d.sim.resumed <==>
            Judge(d, a).sim.awaitNext ==
            d.sim.awaitNext + [Await(a.task, d.epoch, d.sim.total, a.born, a.deferrals + 1)]
  {
    hide Judge;
    EpochsDiffer(d.sim.total, a.since);
    JudgeEffect(d, a);
  }

  lemma JudgeEffect(d: Env, a: Await)
    ensures Judge(d, a).sim.resumed == d.sim.resumed <==> d.epoch != a.epoch
    ensures d.epoch != a.epoch <==>
      Judge(d, a).sim.awaitNext == d.sim.awaitNext + [Await(a.task, d.epoch, d.sim.total, a.born, a.deferrals + 1)]
  {
    var after := Judge(d, a).sim;
    if d.epoch == a.epoch {
      assert |after.resumed| == |d.sim.resumed| + 1 && |after.awaitNext| == |d.sim.awaitNext|;
    }
  }

  lemma AwaitKeeps(e: Env, a: Await, oracle: Oracle)
    requires InPass(e) && OracleOk(e.beats, oracle)
    requires AwaitOk(e.sim.total, a) && a.since <= e.sim.passTotal
    ensures match AwaitCallback(e, a, oracle)
            case Ok(d) => Proto(d)
            case Err(f) => f == BatchChanged && e.hasBak
  {
    FlushInPass(e, oracle);
    var r := ApplyPending(e, oracle).outcome;
    if r.Ok? {
      FlushedProto(e, r.env);
      JudgeKeeps(r.env, a);
    }
  }

  lemma FireAwaitKeeps(e: Env, i: nat, oracle: Oracle)
    requires Proto(e) && Enabled(e, FireAwait(i, oracle))
    ensures match Step(e, FireAwait(i, oracle))
            case Ok(d) => Proto(d)
            case Err(f) => f == BatchChanged && e.hasBak
  {
    var a := e.sim.awaitNow[i];
    assert a in e.sim.awaitNow;
    var fired := e.(sim := e.sim.(awaitNow := e.sim.awaitNow[..i] + e.sim.awaitNow[i + 1..]));
    FitIgnoresSim(e, fired, e.queue);
    AwaitKeeps(fired, a, oracle);
  }

  lemma BeginPassKeeps(e: Env)
    requires Proto(e) && Enabled(e, BeginPass)
    ensures Proto(Step(e, BeginPass).env)
  {
    var d := Step(e, BeginPass).env;
    FitIgnoresSim(e, d, e.queue);
    assert e.hist[..|e.hist|] == e.hist;
  }

  lemma EndPassKeeps(e: Env)
    requires Proto(e) && Enabled(e, EndPass)
    ensures Proto(Step(e, EndPass).env)
  {
    FitIgnoresSim(e, Step(e, EndPass).env, e.queue);
  }

  lemma NextSimKeeps(e: Env)
    requires Proto(e) && Enabled(e, NextSim)
    ensures Proto(Step(e, NextSim).env)
  {
    FitIgnoresSim(e, Step(e, NextSim).env, e.queue);
  }

  lemma EvalKeeps(e: Env)
    requires Proto(e) && Enabled(e, Eval)
    ensures Proto(Step(e, Eval).env)
  {
    FitIgnoresSim(e, Step(e, Eval).env, e.queue);
  }

  /** Every step keeps the protocol invariant; the only fault left is the modified batch. */
  lemma StepKeeps(e: Env, ev: Event)
    requires Proto(e) && Enabled(e, ev)
    ensures match Step(e, ev)
            case Ok(d) => Proto(d)
            case Err(f) => f == BatchChanged && e.hasBak
  {
    match ev
    case Lua(a) => LuaKeeps(e, a);
    case Eval => EvalKeeps(e);
    case BeginPass => BeginPassKeeps(e);
    case FireFlush(o) => FireFlushKeeps(e, o);
    case FireAwait(i, o) => FireAwaitKeeps(e, i, o);
    case EndPass => EndPassKeeps(e);
    case NextSim => NextSimKeeps(e);
  }

  /** Main result: the invariant holds in every reachable state. */
  lemma {:induction false} RunKeeps(e: Env, events: seq<Event>)
    requires Proto(e) && RunOf(e, events)
    ensures match After(e, events)
            case Ok(d) => Proto(d) && d.hasBak == e.hasBak && d.innerStep == e.innerStep
            case Err(f) => f == BatchChanged && e.hasBak
    decreases |events|
  {
    if events != [] {
      StepKeeps(e, events[0]);
      if Step(e, events[0]).Ok? {
        StepSameHandles(e, events[0]);
        RunKeeps(Step(e, events[0]).env, events[1..]);
      }
    }
  }

  lemma StepSameHandles(e: Env, ev: Event)
    requires Handles(e) && Enabled(e, ev) && Step(e, ev).Ok?
    ensures SameHandles(e, Step(e, ev).env)
  {
  }
}
