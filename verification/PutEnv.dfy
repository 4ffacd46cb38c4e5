/** The imperative form: ComplexHandle and VeriluaEnv objects, updated in place. */
module PutEnv {
  import opened Common
  import opened PutModel
  import opened SchedModel

  class ComplexHandle {
    const vpiHandle: Handle
    const beatNum: BeatNum
    var putValueFlag: Option<Flag>
    var putValueFormat: Format
    var putValueVectors: Buffer
    var putValueStr: string

    constructor (vpiHandle: Handle, beatNum: BeatNum)
      ensures this.vpiHandle == vpiHandle && this.beatNum == beatNum && putValueFlag == None
    {
      this.vpiHandle, this.beatNum := vpiHandle, beatNum;
      putValueFlag, putValueFormat, putValueStr := None, Vector, "";
      putValueVectors := seq(MAX_VECTOR_SIZE, _ => ZERO);
    }

    function View(): HandleState
      reads this
    {
      HandleState(putValueFlag, putValueFormat, putValueVectors, putValueStr)
    }

    /** The word loops of the setters. */
    method WriteBuffers(w: Write)
      requires WriteOk(beatNum, w)
      modifies this`putValueVectors, this`putValueStr
      ensures putValueVectors == WriteVectors(beatNum, old(putValueVectors), w)
      ensures putValueStr == if w.Text? then w.text else old(putValueStr)
    {
      ghost var before := putValueVectors;
      ghost var want := WriteVectors(beatNum, before, w);
      match w {
        case Value32(v) =>
          SetWord(0, putValueVectors[0].(aval := v));
        case Value64(v) =>
          for i := 2 to Max(2, beatNum)
            invariant forall j | 0 <= j < MAX_VECTOR_SIZE ::
                        putValueVectors[j] == if 2 <= j < i then ZERO else before[j]
            modifies this`putValueVectors
          {
            SetWord(i, ZERO);
          }
          SetWord(1, VecVal(v / WORD_LIMIT, 0));
          SetWord(0, VecVal(v % WORD_LIMIT, 0));
        case Single64(v) =>
          for i := 0 to beatNum
            invariant forall j | 0 <= j < MAX_VECTOR_SIZE :: putValueVectors[j] == if j < i then ZERO else before[j]
            modifies this`putValueVectors
          {
            SetWord(i, ZERO);
          }
          SetWord(1, putValueVectors[1].(aval := v / WORD_LIMIT));
          SetWord(0, putValueVectors[0].(aval := v % WORD_LIMIT));
        case Multi(words) =>
          for i := 0 to beatNum
            invariant forall j | 0 <= j < MAX_VECTOR_SIZE ::
                        putValueVectors[j] == if j < i then VecVal(words[j], 0) else before[j]
            modifies this`putValueVectors
          {
            SetWord(i, VecVal(words[i], 0));
          }
        case MultiBeat(beats) =>
          for i := 0 to |beats|
            invariant forall j | 0 <= j < MAX_VECTOR_SIZE ::
                        putValueVectors[j] == if j < i then before[j].(aval := beats[j]) else before[j]
            modifies this`putValueVectors
          {
            SetWord(i, putValueVectors[i].(aval := beats[i]));
          }
        case Text(_, text) =>
          putValueStr := text;
        case Current(read) =>
          for i := 0 to beatNum
            invariant forall j | 0 <= j < MAX_VECTOR_SIZE :: putValueVectors[j] == if j < i then read[j] else before[j]
            modifies this`putValueVectors
          {
            SetWord(i, read[i]);
          }
      }
      assert forall j | 0 <= j < MAX_VECTOR_SIZE :: putValueVectors[j] == want[j];
    }

    method SetWord(i: nat, x: VecVal)
      requires i < MAX_VECTOR_SIZE
      modifies this`putValueVectors
      ensures putValueVectors == old(putValueVectors)[i := x]
    {
      putValueVectors := putValueVectors[i := x];
    }

    /** Arbitration: true if the caller may write its value and queue the handle. */
    method TryPutValue(env: VeriluaEnv, flag: Flag, format: Format) returns (ok: bool)
      requires env.Valid() && env.Knows(this)
      requires putValueFlag.Some? && !Rejects(View(), flag) ==> DropStale(env.View(), vpiHandle).Ok?
      modifies this`putValueFlag, this`putValueFormat, env`hdlPutValue, env`hdlPutValueBak
      ensures env.Valid() && ok == !old(Rejects(View(), flag))
      ensures putValueFlag == if ok then Some(flag) else old(putValueFlag)
      ensures putValueFormat == if ok then format else old(putValueFormat)
      ensures if ok && old(putValueFlag).Some? then
                Ok(old(env.View()).(queue := Ids(env.hdlPutValue), bak := Ids(env.hdlPutValueBak))) ==
                old(DropStale(env.View(), vpiHandle))
              else env.hdlPutValue == old(env.hdlPutValue) && env.hdlPutValueBak == old(env.hdlPutValueBak)
    {
      if putValueFlag == Some(Force) && flag == NoDelay {
        return false;
      }
      if putValueFlag.Some? {
        var found, rest := RemoveEntry(env.hdlPutValue, vpiHandle);
        if found {
          env.hdlPutValue := rest;
        } else {
          found, rest := RemoveEntry(env.hdlPutValueBak, vpiHandle);
          env.hdlPutValueBak := rest;
        }
      }
      putValueFlag := Some(flag);
      putValueFormat := format;
      return true;
    }
  }

  function Max(a: nat, b: nat): nat {
    if a >= b then a else b
  }

  function Ids(q: seq<ComplexHandle>): seq<Handle> {
    seq(|q|, i requires 0 <= i < |q| => q[i].vpiHandle)
  }

  /** Position of the first entry with this vpi_handle, and the list without it. */
  method RemoveEntry(q: seq<ComplexHandle>, h: Handle) returns (found: bool, rest: seq<ComplexHandle>)
    ensures found <==> h in Ids(q)
    ensures if found then Ids(rest) == Remove(Ids(q), h) else rest == q
    ensures forall x | x in rest :: x in q
  {
    var i := 0;
    while i < |q| && q[i].vpiHandle != h
      invariant i <= |q| && forall j | 0 <= j < i :: q[j].vpiHandle != h
    {
      i := i + 1;
    }
    found := i < |q|;
    if found {
      rest := q[..i] + q[i + 1..];
      assert Ids(q)[i] == h;
      RemoveFirst(Ids(q), h, i);
      assert Ids(rest) == Ids(q)[..i] + Ids(q)[i + 1..];
    } else {
      rest := q;
      assert forall j | 0 <= j < |q| :: Ids(q)[j] != h;
    }
  }

  lemma {:induction false} RemoveFirst(q: seq<Handle>, h: Handle, i: nat)
    requires i < |q| && q[i] == h && forall j | 0 <= j < i :: q[j] != h
    ensures h in q && Remove(q, h) == q[..i] + q[i + 1..]
  {
    if i > 0 {
      RemoveFirst(q[1..], h, i - 1);
      assert q[..i] == [q[0]] + q[1..][..i - 1] && q[1..][i..] == q[i + 1..];
    }
  }

  /** The queues once the stale entry of an accepted write is gone. */
  function Accepted(e: Env, h: Handle): Env
    requires h in e.hs && (e.hs[h].flag.Some? ==> DropStale(e, h).Ok?)
  {
    if e.hs[h].flag.Some? then DropStale(e, h).env else e
  }

  /** The environment with `h` written and out of its queue. */
  function Written(e: Env, h: Handle, written: HandleState, entry: Entry): Env
    requires h in e.hs && (e.hs[h].flag.Some? ==> DropStale(e, h).Ok?)
  {
    var c := Accepted(e, h);
    e.(hist := e.hist + [entry], hs := e.hs[h := written], queue := c.queue, bak := c.bak)
  }

  /** The environment with `h` written and moved to the end of its queue. */
  function Requeued(e: Env, h: Handle, written: HandleState, entry: Entry): Env
    requires h in e.hs && (e.hs[h].flag.Some? ==> DropStale(e, h).Ok?)
  {
    Push(Written(e, h, written, entry), h)
  }

  lemma PostShape(e: Env, h: Handle, op: Op)
    requires h in e.beats && Handles(e) && OpOk(e.beats[h], op) && Post(e, h, op).Ok?
    ensures if Rejects(e.hs[h], op.flag) then Post(e, h, op).env == e.(hist := e.hist + [Posted(h, op)])
            else (e.hs[h].flag.Some? ==> DropStale(e, h).Ok?)
                 && Post(e, h, op).env == Requeued(e, h, WriteHandle(e.beats[h], e.hs[h], op), Posted(h, op))
  {
    hide Handles, SameHandles;
  }

  class VeriluaEnv {
    const hasBak: bool
    const innerStep: bool
    var handles: map<Handle, ComplexHandle>
    var hdlPutValue: seq<ComplexHandle>
    var hdlPutValueBak: seq<ComplexHandle>
    var useHdlPutValueBak: bool
    var rwPhasePassed: bool
    var rwCbReRegistered: bool
    var flushEpoch: nat
    var hist: seq<Entry>  // what was posted and put so far
    var sim: Sim  // the simulator's callback lists

    predicate Knows(h: ComplexHandle)
      reads this
    {
      h.vpiHandle in handles && handles[h.vpiHandle] == h
    }

    ghost predicate Valid()
      reads this
    {
      && (forall id | id in handles :: handles[id].vpiHandle == id)
      && (forall h | h in hdlPutValue :: Knows(h))
      && (forall h | h in hdlPutValueBak :: Knows(h))
    }

    ghost function Beats(): map<Handle, BeatNum>
      reads this`handles
    {
      map id | id in handles :: handles[id].beatNum
    }

    ghost function HandleStates(): map<Handle, HandleState>
      reads this`handles, handles.Values
    {
      map id | id in handles :: handles[id].View()
    }

    ghost function View(): (e: Env)
      reads this, handles.Values
      ensures Handles(e)
    {
      Env(hasBak, innerStep, Beats(), HandleStates(),
          Ids(hdlPutValue), Ids(hdlPutValueBak), useHdlPutValueBak,
          rwPhasePassed, rwCbReRegistered, flushEpoch, hist, sim)
    }

    lemma ViewKnown()
      requires Valid()
      ensures QueuesKnown(View())
    {
      forall h | h in View().queue ensures h in View().beats {
        var i :| 0 <= i < |hdlPutValue| && Ids(hdlPutValue)[i] == h;
        assert hdlPutValue[i] in hdlPutValue;
      }
      forall h | h in View().bak ensures h in View().beats {
        var i :| 0 <= i < |hdlPutValueBak| && Ids(hdlPutValueBak)[i] == h;
        assert hdlPutValueBak[i] in hdlPutValueBak;
      }
    }

    constructor (hasBak: bool, innerStep: bool, handles: map<Handle, ComplexHandle>)
      requires forall id | id in handles :: handles[id].vpiHandle == id && handles[id].putValueFlag == None
      ensures Valid() && Initial(View()) && this.hasBak == hasBak && this.innerStep == innerStep && this.handles == handles
    {
      this.hasBak, this.innerStep, this.handles := hasBak, innerStep, handles;
      hdlPutValue, hdlPutValueBak, useHdlPutValueBak := [], [], false;
      rwPhasePassed, rwCbReRegistered, flushEpoch := false, false, 0;
      hist := [];
      sim := Sim(0, 0, [], [], if innerStep then 0 else 1, false, false, false, false, 0, 0, 0, [], []);
    }

    /** The active list takes the handle. */
    method Enqueue(h: ComplexHandle)
      requires Valid() && Knows(h)
      modifies this`hdlPutValue, this`hdlPutValueBak
      ensures Valid()
      ensures View() == var e := old(View());
        if e.hasBak && e.useBak then e.(bak := e.bak + [h.vpiHandle]) else e.(queue := e.queue + [h.vpiHandle])
    {
      if hasBak && useHdlPutValueBak {
        hdlPutValueBak := hdlPutValueBak + [h];
        assert Ids(hdlPutValueBak) == Ids(old(hdlPutValueBak)) + [h.vpiHandle];
      } else {
        hdlPutValue := hdlPutValue + [h];
        assert Ids(hdlPutValue) == Ids(old(hdlPutValue)) + [h.vpiHandle];
      }
    }

    method DoPush(h: ComplexHandle)
      requires Valid() && Knows(h)
      modifies this`hdlPutValue, this`hdlPutValueBak, this`rwCbReRegistered, this`sim
      ensures Valid() && View() == Push(old(View()), h.vpiHandle)
    {
      Enqueue(h);
      if rwPhasePassed && !rwCbReRegistered {
        rwCbReRegistered := true;
        RegisterRwSynch();
      }
    }

    /** libverilua_register_rw_synch_cb. */
    method RegisterRwSynch()
      modifies this`sim
      ensures sim == old(sim).(flushNext := old(sim).flushNext + 1)
    {
      sim := sim.(flushNext := sim.flushNext + 1);
    }

    /** Changing one handle changes one entry of the view. */
    twostate lemma OneHandle(h: ComplexHandle)
      requires old(Valid()) && old(Knows(h)) && handles == old(handles)
      requires forall id | id in handles && handles[id] != h :: unchanged(handles[id])
      ensures HandleStates() == old(HandleStates())[h.vpiHandle := h.View()]
      ensures Beats() == old(Beats())
    {
      assert HandleStates().Keys == old(HandleStates()).Keys + {h.vpiHandle};
      forall id | id in handles
        ensures HandleStates()[id] == old(HandleStates())[h.vpiHandle := h.View()][id]
      {
        if handles[id] == h {
          assert id == h.vpiHandle;
        }
      }
    }

    /** The write of a setter that won arbitration, before the handle is queued again. */
    method WriteAccepted(h: ComplexHandle, op: Op)
      requires Valid() && Knows(h) && OpOk(h.beatNum, op) && !Rejects(h.View(), op.flag)
      requires h.putValueFlag.Some? ==> DropStale(View(), h.vpiHandle).Ok?
      modifies h, this`hdlPutValue, this`hdlPutValueBak
      ensures Valid() && Ids(hdlPutValue) == Accepted(old(View()), h.vpiHandle).queue
      ensures Ids(hdlPutValueBak) == Accepted(old(View()), h.vpiHandle).bak
      ensures h.View() == WriteHandle(h.beatNum, old(h.View()), op)
    {
      assert View().hs[h.vpiHandle] == h.View();
      var ok := h.TryPutValue(this, op.flag, WriteFormat(op.write));
      h.WriteBuffers(op.write);
    }

    /** The accepted case: write the buffers and queue the handle again. */
    method PostAccepted(h: ComplexHandle, op: Op)
      requires Valid() && Knows(h) && OpOk(h.beatNum, op) && !Rejects(h.View(), op.flag)
      requires View().hs[h.vpiHandle] == h.View()
      requires h.putValueFlag.Some? ==> DropStale(View(), h.vpiHandle).Ok?
      modifies this, h
      ensures Valid() && handles == old(handles)
      ensures View() == old(Requeued(View(), h.vpiHandle, WriteHandle(h.beatNum, h.View(), op), Posted(h.vpiHandle, op)))
    {
      hide Push, Written;
      LogAccepted(h, op);
      DoPush(h);
    }

    method LogAccepted(h: ComplexHandle, op: Op)
      requires Valid() && Knows(h) && OpOk(h.beatNum, op) && !Rejects(h.View(), op.flag)
      requires View().hs[h.vpiHandle] == h.View()
      requires h.putValueFlag.Some? ==> DropStale(View(), h.vpiHandle).Ok?
      modifies h, this`hdlPutValue, this`hdlPutValueBak, this`hist
      ensures Valid() && handles == old(handles) && Knows(h)
      ensures View() == old(Written(View(), h.vpiHandle, WriteHandle(h.beatNum, h.View(), op), Posted(h.vpiHandle, op)))
    {
      hide Remove, Ids;
      WriteAccepted(h, op);
      hist := hist + [Posted(h.vpiHandle, op)];
      OneHandle(h);
    }

    /** A deferred set, force or release of `h`. */
    method PostWrite(h: ComplexHandle, op: Op)
      requires Valid() && Knows(h) && OpOk(h.beatNum, op)
      requires Post(View(), h.vpiHandle, op).Ok?
      modifies this, h
      ensures Valid() && handles == old(handles)
      ensures Ok(View()) == Post(old(View()), h.vpiHandle, op)
    {
      hide Remove;
      PostShape(View(), h.vpiHandle, op);
      if h.putValueFlag == Some(Force) && op.flag == NoDelay {
        var ok := h.TryPutValue(this, op.flag, WriteFormat(op.write));
        hist := hist + [Posted(h.vpiHandle, op)];
        OneHandle(h);
      } else {
        PostAccepted(h, op);
      }
    }

    /** Drop a pending write of `h` from whichever queue holds it. */
    method CancelPending(h: ComplexHandle) returns (found: bool)
      requires Valid() && Knows(h)
      modifies this`hdlPutValue, this`hdlPutValueBak, h`putValueFlag
      ensures Valid() && found == (h.vpiHandle in old(Ids(hdlPutValue)) || (hasBak && h.vpiHandle in old(Ids(hdlPutValueBak))))
      ensures Ids(hdlPutValue) == if h.vpiHandle in old(Ids(hdlPutValue)) then Remove(old(Ids(hdlPutValue)), h.vpiHandle)
                                  else old(Ids(hdlPutValue))
      ensures Ids(hdlPutValueBak) ==
              if found && h.vpiHandle !in old(Ids(hdlPutValue)) then Remove(old(Ids(hdlPutValueBak)), h.vpiHandle)
              else old(Ids(hdlPutValueBak))
      ensures h.putValueFlag == if found then None else old(h.putValueFlag)
    {
      var rest;
      found, rest := RemoveEntry(hdlPutValue, h.vpiHandle);
      if found {
        hdlPutValue := rest;
        h.putValueFlag := None;
      } else if hasBak {
        found, rest := RemoveEntry(hdlPutValueBak, h.vpiHandle);
        if found {
          hdlPutValueBak := rest;
          h.putValueFlag := None;
        }
      }
    }

    /** vpiml_release_imm_value. */
    method ReleaseImmediate(h: ComplexHandle)
      requires Valid() && Knows(h)
      modifies this, h`putValueFlag
      ensures Valid() && handles == old(handles)
      ensures View() == ReleaseImm(old(View()), h.vpiHandle)
    {
      hide Ids;
      ghost var e := View();
      var id := h.vpiHandle;
      assert e.hs[id] == h.View();
      var found := CancelPending(h);
      hist := hist + [ReleasedNow(id)];
      sim := sim.(loose := true);
      OneHandle(h);
      assert e.hs[id := e.hs[id]] == e.hs;
    }

    /** vpiml_register_rw_synch_callback. */
    method AwaitRw(task: nat)
      requires Valid()
      modifies this`sim
      ensures Valid() && View() == RegisterAwait(old(View()), task)
    {
      sim := sim.(awaitNext := sim.awaitNext + [Await(task, flushEpoch, sim.total, sim.total, 0)]);
    }

    method Perform(a: Action)
      requires Valid() && ActionOk(View().beats, a) && Act(View(), a).Ok?
      modifies this, handles.Values
      ensures Valid() && handles == old(handles)
      ensures Ok(View()) == Act(old(View()), a)
    {
      match a {
        case DoPost(h, op) => PostWrite(handles[h], op);
        case DoReleaseImm(h) => ReleaseImmediate(handles[h]);
        case DoAwait(task) => AwaitRw(task);
      }
    }

    /** The coroutines the simulator resumes inside one put. */
    method PerformAll(actions: seq<Action>)
      requires Valid() && ActionsOk(View().beats, actions) && Reenter(View(), actions).Ok?
      modifies this, handles.Values
      ensures Valid() && handles == old(handles)
      ensures Ok(View()) == Reenter(old(View()), actions)
    {
      for i := 0 to |actions|
        invariant Valid() && handles == old(handles)
        invariant View().beats == old(View()).beats
        invariant Reenter(View(), actions[i..]) == Reenter(old(View()), actions)
        invariant ActionsOk(View().beats, actions[i..])
      {
        assert actions[i..][0] == actions[i] && actions[i..][1..] == actions[i + 1..];
        Perform(actions[i]);
      }
    }

    /** One vpi_put_value of the flush, with the flag taken first. */
    method PutOne(h: ComplexHandle)
      requires Valid() && Knows(h) && h.putValueFlag.Some?
      modifies this`hist, this`sim, h`putValueFlag
      ensures Valid() && Ok(View()) == Commit(old(View()), h.vpiHandle)
    {
      var payload := PayloadOf(h.beatNum, h.View());
      var flag := h.putValueFlag.value;
      h.putValueFlag := None;
      hist := hist + [Committed(Put(h.vpiHandle, flag, payload))];
      sim := sim.(dirty := true);
      OneHandle(h);
    }

    /** One iteration of do_apply_pending_put_values, with what the simulator runs inside the put. */
    method ApplyNext(i: nat, oracle: Oracle)
      requires Valid() && OracleOk(View().beats, oracle)
      requires i < |hdlPutValue| && QueuesKnown(View()) && ApplyOne(View(), i, oracle).Ok?
      modifies this, handles.Values
      ensures Valid() && handles == old(handles)
      ensures Ok(View()) == ApplyOne(old(View()), i, oracle)
      ensures |hdlPutValue| == |old(hdlPutValue)| && QueuesKnown(View())
    {
      var h := hdlPutValue[i];
      assert h in hdlPutValue && Knows(h) && h in handles.Values;
      assert View().queue[i] == h.vpiHandle && View().hs[h.vpiHandle] == h.View();
      PutOne(h);
      InsideOk(View(), oracle);
      PerformAll(if hasBak then Upcoming(oracle) else []);
      ViewKnown();
      assert |View().queue| == |old(View()).queue|;
    }

    /** do_apply_pending_put_values; the oracle says what runs inside the puts. */
    method ApplyQueue(oracle: Oracle) returns (rest: Oracle)
      requires Valid() && OracleOk(View().beats, oracle)
      requires QueuesKnown(View()) && ApplyFrom(View(), 0, oracle).outcome.Ok?
      modifies this, handles.Values
      ensures Valid() && handles == old(handles)
      ensures Applied(Ok(View()), rest) == ApplyFrom(old(View()), 0, oracle)
    {
      hide ApplyFrom, ApplyOne;
      rest := oracle;
      ghost var e := View();
      ghost var done := ApplyFrom(e, 0, oracle);
      var i := 0;
      while i < |hdlPutValue|
        invariant i <= |hdlPutValue| == |e.queue|
        invariant Valid() && handles == old(handles)
        invariant e == View() && OracleOk(e.beats, rest) && QueuesKnown(e)
        invariant ApplyFrom(e, i, rest) == done
        decreases |hdlPutValue| - i
      {
        e := ApplyFromNext(e, i, rest);
        ApplyNext(i, rest);
        rest := Later(rest);
        i := i + 1;
      }
      ApplyFromEnd(e, rest);
    }

    method BeginFlush()
      requires Valid()
      modifies this`flushEpoch, this`sim, this`useHdlPutValueBak
      ensures Valid()
      ensures View() == Started(old(View()))
    {
      flushEpoch := (flushEpoch + 1) % EPOCH_LIMIT;
      sim := sim.(total := sim.total + 1);
      if hasBak {
        useHdlPutValueBak := true;
      }
    }

    /** apply_pending_put_values. */
    method ApplyPendingPutValues(oracle: Oracle) returns (rest: Oracle)
      requires Valid() && OracleOk(View().beats, oracle)
      requires QueuesKnown(View()) && ApplyPending(View(), oracle).outcome.Ok?
      modifies this, handles.Values
      ensures Valid() && handles == old(handles)
      ensures Applied(Ok(View()), rest) == ApplyPending(old(View()), oracle)
    {
      if hdlPutValue == [] {
        return oracle;
      }
      ghost var e := View();
      assert QueuesKnown(Started(e));
      if hasBak {
        BackedShape(e, oracle);
        BeginFlush();
        rest := ApplyRounds(oracle);
        EndBackup();
      } else {
        PlainShape(e, oracle);
        BeginFlush();
        rest := ApplyQueue(oracle);
        ClearQueue();
      }
    }

    method EndBackup()
      requires Valid()
      modifies this`useHdlPutValueBak
      ensures Valid() && View() == old(View()).(useBak := false)
    {
      useHdlPutValueBak := false;
    }

    method ClearQueue()
      requires Valid()
      modifies this`hdlPutValue
      ensures Valid() && View() == old(View()).(queue := [])
    {
      hdlPutValue := [];
      assert Ids(hdlPutValue) == [];
    }

    /** Clear the applied queue and take over what was backed up meanwhile. */
    method SwapQueues()
      requires Valid()
      modifies this`hdlPutValue, this`hdlPutValueBak
      ensures Valid() && View() == Swapped(old(View()))
      ensures |hdlPutValue| == |old(hdlPutValueBak)| && hdlPutValueBak == []
    {
      hdlPutValue := [];
      if hdlPutValueBak != [] {
        hdlPutValue := hdlPutValue + hdlPutValueBak;
        hdlPutValueBak := [];
      }
      assert hdlPutValue == old(hdlPutValueBak);
    }

    /** The loop of apply_pending_put_values on vcs and iverilog. */
    method ApplyRounds(oracle: Oracle) returns (rest: Oracle)
      requires Valid() && OracleOk(View().beats, oracle)
      requires QueuesKnown(View()) && Rounds(View(), oracle).outcome.Ok?
      modifies this, handles.Values
      ensures Valid() && handles == old(handles)
      ensures Applied(Ok(View()), rest) == Rounds(old(View()), oracle)
    {
      hide ApplyFrom;
      rest := oracle;
      ghost var e := View();
      ghost var done := Rounds(e, oracle);
      while hdlPutValue != []
        invariant Valid() && handles == old(handles)
        invariant e == View() && OracleOk(e.beats, rest) && QueuesKnown(e)
        invariant Rounds(e, rest) == done
        decreases |rest|, |e.queue| + |e.bak|
      {
        RoundsStep(e, rest);
        ghost var a := ApplyFrom(e, 0, rest);
        rest := ApplyQueue(rest);
        SwapQueues();
        e := Swapped(a.outcome.env);
      }
    }

    method FinishFlush()
      requires Valid()
      modifies this`sim, this`rwPhasePassed, this`rwCbReRegistered
      ensures Valid() && View() == FlushDone(old(View()))
    {
      var isReFlush := rwPhasePassed;
      if !isReFlush && !innerStep {
        sim := sim.(nextSim := sim.nextSim + 1);
      }
      rwPhasePassed := true;
      rwCbReRegistered := false;
    }

    /** libverilua_flush_put_values. */
    method FlushPutValues(oracle: Oracle)
      requires Valid() && OracleOk(View().beats, oracle)
      requires QueuesKnown(View()) && FlushCallback(View(), oracle).Ok?
      modifies this, handles.Values
      ensures Valid() && handles == old(handles)
      ensures Ok(View()) == FlushCallback(old(View()), oracle)
    {
      FlushCallbackShape(View(), oracle);
      var _ := ApplyPendingPutValues(oracle);
      FinishFlush();
    }

    method JudgeAwait(a: Await) returns (resumed: bool)
      requires Valid()
      modifies this`sim
      ensures Valid() && View() == Judge(old(View()), a)
      ensures resumed <==> flushEpoch == a.epoch
    {
      if flushEpoch != a.epoch {
        var again := Await(a.task, flushEpoch, sim.total, a.born, a.deferrals + 1);
        sim := sim.(awaitNext := sim.awaitNext + [again]);
        return false;
      }
      var r := Resume(a.task, a, hdlPutValue == [] && hdlPutValueBak == [], sim.dirty, sim.loose, sim.total,
                      if sim.passMark <= |hist| then hist[sim.passMark..] else []);
      sim := sim.(resumed := sim.resumed + [r]);
      return true;
    }

    /** rw_synch_callback; true if the task is resumed. */
    method RwSynchCallback(a: Await, oracle: Oracle) returns (resumed: bool)
      requires Valid() && OracleOk(View().beats, oracle)
      requires QueuesKnown(View()) && AwaitCallback(View(), a, oracle).Ok?
      modifies this, handles.Values
      ensures Valid() && handles == old(handles)
      ensures Ok(View()) == AwaitCallback(old(View()), a, oracle)
      ensures resumed <==> flushEpoch == a.epoch
    {
      AwaitCallbackShape(View(), a, oracle);
      var _ := ApplyPendingPutValues(oracle);
      resumed := JudgeAwait(a);
    }

    /** The deferred-write part of libverilua_next_sim_time_cb. */
    method NextSimTimeCallback()
      requires Valid()
      modifies this`rwPhasePassed, this`rwCbReRegistered, this`sim
      ensures Valid() && View() == NextSimCallback(old(View()))
    {
      rwPhasePassed := false;
      rwCbReRegistered := false;
      RegisterRwSynch();
      sim := sim.(stepped := true);
    }

    /** verilator_has_pending_put_values. */
    method VerilatorHasPendingPutValues() returns (pending: bool)
      ensures pending == HasPendingPutValues(View())
    {
      pending := rwPhasePassed && hdlPutValue != [];
    }
  }

  lemma ApplyFromStep(e: Env, i: nat, oracle: Oracle)
    requires i < |e.queue| && QueuesKnown(e) && OracleOk(e.beats, oracle)
    ensures ApplyFrom(e, i, oracle) ==
            match ApplyOne(e, i, oracle)
            case Err(f) => Applied(Err(f), Later(oracle))
            case Ok(d) => ApplyFrom(d, i + 1, Later(oracle))
  {
  }

  /** The environment one iteration further on, if the rest of the loop does not fault. */
  lemma ApplyFromNext(e: Env, i: nat, oracle: Oracle) returns (d: Env)
    requires i < |e.queue| && QueuesKnown(e) && OracleOk(e.beats, oracle) && ApplyFrom(e, i, oracle).outcome.Ok?
    ensures ApplyOne(e, i, oracle) == Ok(d) && QueuesKnown(d) && d.beats == e.beats && d.queue == e.queue
    ensures OracleOk(e.beats, Later(oracle)) && ApplyFrom(d, i + 1, Later(oracle)) == ApplyFrom(e, i, oracle)
  {
    ApplyFromStep(e, i, oracle);
    ApplyOneKnown(e, i, oracle);
    d := ApplyOne(e, i, oracle).env;
  }

  lemma ApplyFromEnd(e: Env, oracle: Oracle)
    requires QueuesKnown(e) && OracleOk(e.beats, oracle)
    ensures ApplyFrom(e, |e.queue|, oracle) == Applied(Ok(e), oracle)
  {
  }

  lemma RoundsStep(e: Env, oracle: Oracle)
    requires e.queue != [] && QueuesKnown(e) && OracleOk(e.beats, oracle)
    ensures var a := ApplyFrom(e, 0, oracle);
            && (a.outcome.Err? ==> Rounds(e, oracle) == a)
            && (a.outcome.Ok? ==> QueuesKnown(Swapped(a.outcome.env))
                                  && Rounds(e, oracle) == Rounds(Swapped(a.outcome.env), a.rest))
  {
    hide ApplyFrom, OracleOk;
    ApplyFromKnown(e, 0, oracle);
  }

  lemma InsideOk(e: Env, oracle: Oracle)
    requires OracleOk(e.beats, oracle)
    ensures ActionsOk(e.beats, Inside(e, oracle))
  {
  }

  lemma BackedShape(e: Env, oracle: Oracle)
    requires e.queue != [] && e.hasBak && QueuesKnown(e) && OracleOk(e.beats, oracle)
    ensures var r := Rounds(Started(e), oracle);
            ApplyPending(e, oracle) ==
            if r.outcome.Err? then r else Applied(Ok(r.outcome.env.(useBak := false)), r.rest)
  {
  }

  lemma PlainShape(e: Env, oracle: Oracle)
    requires e.queue != [] && !e.hasBak && QueuesKnown(e) && OracleOk(e.beats, oracle)
    ensures var r := ApplyFrom(Started(e), 0, oracle);
            ApplyPending(e, oracle) ==
            if r.outcome.Err? then r else Applied(Ok(r.outcome.env.(queue := [])), r.rest)
  {
  }

  lemma FlushCallbackShape(e: Env, oracle: Oracle)
    requires QueuesKnown(e) && OracleOk(e.beats, oracle) && FlushCallback(e, oracle).Ok?
    ensures ApplyPending(e, oracle).outcome.Ok?
    ensures FlushCallback(e, oracle).env == FlushDone(ApplyPending(e, oracle).outcome.env)
  {
  }

  lemma AwaitCallbackShape(e: Env, a: Await, oracle: Oracle)
    requires QueuesKnown(e) && OracleOk(e.beats, oracle) && AwaitCallback(e, a, oracle).Ok?
    ensures ApplyPending(e, oracle).outcome.Ok?
    ensures AwaitCallback(e, a, oracle).env == Judge(ApplyPending(e, oracle).outcome.env, a)
  {
  }
}
