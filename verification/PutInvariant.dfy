/**
 Queue and flag coherence: what is pending is exactly the compaction of the log.  `q` is the list
 of handles still waiting: the queue between flushes, and during a flush the part of the queue not
 yet applied followed by the backup queue.
 */
module PutInvariant {
  import opened Common
  import opened PutModel
  import opened PutHistory

  /** Position of the last accepted write of `h`. */
  function Rank(hist: seq<Entry>, h: Handle): int {
    if Live(hist, h) == [] then -1 else Winner(Live(hist, h)).at
  }

  function NextPut(e: Env, h: Handle): Put
    requires h in e.beats && Handles(e) && e.hs[h].flag.Some?
  {
    Put(h, e.hs[h].flag.value, PayloadOf(e.beats[h], e.hs[h]))
  }

  /** The flag and buffers of `h` hold the winning write of its log, or nothing. */
  ghost predicate HandleFit(e: Env, h: Handle)
    requires h in e.beats && Handles(e)
  {
    var live := Live(e.hist, h);
    if live == [] then e.hs[h].flag == None
    else
      var op := Winner(live).op;
      e.hs[h].flag == Some(op.flag) && OpOk(e.beats[h], op) && Delivers(e.beats[h], NextPut(e, h), op)
  }

  ghost predicate Sorted(hist: seq<Entry>, q: seq<Handle>) {
    forall i, j | 0 <= i < j < |q| :: Rank(hist, q[i]) < Rank(hist, q[j])
  }

  /** Each pending handle waits exactly once, in the order of its last accepted write. */
  ghost predicate QueueFit(beats: map<Handle, BeatNum>, hist: seq<Entry>, q: seq<Handle>) {
    && (forall h | h in q :: h in beats && Live(hist, h) != [])
    && (forall h | h in beats && Live(hist, h) != [] :: h in q)
    && Sorted(hist, q)
  }

  /** Every value committed so far was the winning write of its handle at that moment. */
  ghost predicate CommitFit(beats: map<Handle, BeatNum>, hist: seq<Entry>, p: nat)
    requires p < |hist|
  {
    hist[p].Committed? ==>
      var put := hist[p].put;
      var live := Live(hist[..p], put.handle);
      put.handle in beats && live != [] && OpOk(beats[put.handle], Winner(live).op)
      && Delivers(beats[put.handle], put, Winner(live).op)
  }

  ghost predicate HistFit(beats: map<Handle, BeatNum>, hist: seq<Entry>) {
    forall p | 0 <= p < |hist| :: CommitFit(beats, hist, p)
  }

  ghost predicate Fit(e: Env, q: seq<Handle>) {
    && Handles(e)
    && (forall h | h in e.beats :: HandleFit(e, h))
    && QueueFit(e.beats, e.hist, q)
    && HistFit(e.beats, e.hist)
  }

  /** Between flushes. */
  ghost predicate Idle(e: Env) {
    !e.useBak && e.bak == [] && Fit(e, e.queue)
  }

  // ---- lists ----

  lemma SortedNoDup(hist: seq<Entry>, q: seq<Handle>)
    requires Sorted(hist, q)
    ensures NoDup(q)
  {
  }

  lemma {:induction false} RemoveSplit(q: seq<Handle>, h: Handle) returns (k: nat)
    requires h in q
    ensures k < |q| && q[k] == h && Remove(q, h) == q[..k] + q[k + 1..]
  {
    if q[0] == h {
      k := 0;
    } else {
      k := RemoveSplit(q[1..], h);
      assert q == [q[0]] + q[1..];
      k := k + 1;
    }
  }

  lemma {:induction false} RemoveConcat(a: seq<Handle>, b: seq<Handle>, h: Handle)
    requires h !in a && h in b
    ensures Remove(a + b, h) == a + Remove(b, h)
  {
    if a == [] {
      assert a + b == b;
    } else {
      assert (a + b)[1..] == a[1..] + b;
      RemoveConcat(a[1..], b, h);
    }
  }

  /** `q` without `h`, if it is there. */
  function Drop(q: seq<Handle>, h: Handle): seq<Handle> {
    if h in q then Remove(q, h) else q
  }

  lemma DropSorted(hist: seq<Entry>, q: seq<Handle>, h: Handle)
    requires Sorted(hist, q)
    ensures Sorted(hist, Drop(q, h))
    ensures forall x :: x in Drop(q, h) <==> x in q && x != h
  {
    if h in q {
      var k := RemoveSplit(q, h);
      SortedNoDup(hist, q);
      WithoutOne(q, h, k);
    }
  }

  lemma WithoutOne(q: seq<Handle>, h: Handle, k: nat)
    requires NoDup(q) && k < |q| && q[k] == h
    ensures forall x :: x in q[..k] + q[k + 1..] <==> x in q && x != h
  {
    var r := q[..k] + q[k + 1..];
    forall x ensures x in r <==> x in q && x != h {
      if x in q && x != h {
        var i :| 0 <= i < |q| && q[i] == x;
        assert r[if i < k then i else i - 1] == x;
      }
    }
  }

  // ---- one entry added to the log ----

  lemma TakeoverRank(hist: seq<Entry>, h: Handle, op: Op, x: Handle)
    requires Live(hist, h) == [] || !(Winner(Live(hist, h)).op.flag == Force && op.flag == NoDelay)
    ensures var hist' := hist + [Posted(h, op)];
            && (Live(hist', x) == [] <==> x != h && Live(hist, x) == [])
            && Rank(hist', x) == (if x == h then |hist| else Rank(hist, x))
            && Rank(hist, x) < |hist|
  {
    LiveSnoc(hist, Posted(h, op), x);
    WinnerSnoc(Live(hist, h), Sent(|hist|, op));
    LiveBound(hist, x);
    if Live(hist, x) != [] {
      WinnerIn(Live(hist, x));
    }
  }

  /** A write that takes over moves its handle to the end; the others keep their place. */
  lemma QueueTakeover(beats: map<Handle, BeatNum>, hist: seq<Entry>, q: seq<Handle>, h: Handle, op: Op)
    requires QueueFit(beats, hist, q) && h in beats
    requires Live(hist, h) == [] || !(Winner(Live(hist, h)).op.flag == Force && op.flag == NoDelay)
    ensures QueueFit(beats, hist + [Posted(h, op)], Drop(q, h) + [h])
  {
    var hist' := hist + [Posted(h, op)];
    var r := Drop(q, h);
    var q' := r + [h];
    DropSorted(hist, q, h);
    forall x
      ensures Live(hist', x) == [] <==> x != h && Live(hist, x) == []
      ensures Rank(hist', x) == if x == h then |hist| else Rank(hist, x)
      ensures Rank(hist, x) < |hist|
    {
      TakeoverRank(hist, h, op, x);
    }
    assert Sorted(hist', q') by {
      forall i, j | 0 <= i < j < |q'| ensures Rank(hist', q'[i]) < Rank(hist', q'[j]) {
        assert r[i] in r;
        if j < |r| {
          assert r[j] in r;
        }
      }
    }
  }

  /** A set shut out by a pending force changes nothing. */
  lemma QueueShutOut(beats: map<Handle, BeatNum>, hist: seq<Entry>, q: seq<Handle>, h: Handle, op: Op)
    requires QueueFit(beats, hist, q)
    requires Live(hist, h) != [] && Winner(Live(hist, h)).op.flag == Force && op.flag == NoDelay
    ensures QueueFit(beats, hist + [Posted(h, op)], q)
  {
    var hist' := hist + [Posted(h, op)];
    forall x ensures Live(hist', x) == LiveStep(Live(hist, x), |hist|, Posted(h, op), x) {
      LiveSnoc(hist, Posted(h, op), x);
    }
    WinnerSnoc(Live(hist, h), Sent(|hist|, op));
    assert forall x :: Rank(hist', x) == Rank(hist, x);
  }

  /** Settling a handle takes it out of the list. */
  lemma QueueSettle(beats: map<Handle, BeatNum>, hist: seq<Entry>, q: seq<Handle>, x: Entry, h: Handle)
    requires QueueFit(beats, hist, q)
    requires x == ReleasedNow(h) || (x.Committed? && x.put.handle == h)
    ensures QueueFit(beats, hist + [x], Drop(q, h))
  {
    var hist' := hist + [x];
    DropSorted(hist, q, h);
    forall y ensures Live(hist', y) == if y == h then [] else Live(hist, y) {
      LiveSnoc(hist, x, y);
    }
    assert forall y | y in Drop(q, h) :: Rank(hist', y) == Rank(hist, y);
  }

  lemma HistSnoc(beats: map<Handle, BeatNum>, hist: seq<Entry>, x: Entry)
    requires HistFit(beats, hist)
    requires x.Committed? ==>
               var live := Live(hist, x.put.handle);
               x.put.handle in beats && live != [] && OpOk(beats[x.put.handle], Winner(live).op)
               && Delivers(beats[x.put.handle], x.put, Winner(live).op)
    ensures HistFit(beats, hist + [x])
  {
    forall p | 0 <= p < |hist + [x]| ensures CommitFit(beats, hist + [x], p) {
      if p < |hist| {
        assert (hist + [x])[..p] == hist[..p];
        assert CommitFit(beats, hist, p);
      } else {
        assert (hist + [x])[..p] == hist;
      }
    }
  }

  /** A handle the entry does not name keeps its fit. */
  lemma OtherHandleFit(e: Env, e': Env, x: Entry, g: Handle)
    requires Handles(e) && Handles(e') && e'.beats == e.beats && g in e.beats && HandleFit(e, g)
    requires e'.hist == e.hist + [x] && e'.hs[g] == e.hs[g]
    requires match x case Posted(h, _) => h != g case ReleasedNow(h) => h != g case Committed(put) => put.handle != g
    ensures HandleFit(e', g)
  {
    LiveSnoc(e.hist, x, g);
  }

  // ---- writing a handle ----

  /** The buffers after a setter deliver its write. */
  lemma WrittenDelivers(beatNum: BeatNum, h: HandleState, op: Op, name: Handle)
    requires OpOk(beatNum, op)
    ensures var w := WriteHandle(beatNum, h, op);
            Delivers(beatNum, Put(name, op.flag, PayloadOf(beatNum, w)), op)
  {
    var w := WriteHandle(beatNum, h, op);
    if !op.write.Text? {
      WriteIsExactIff(beatNum, h.vectors, op.write);
    }
  }

  /** The environment after a write that is accepted, whichever queue took it. */
  lemma AcceptedFit(e: Env, e': Env, q: seq<Handle>, h: Handle, op: Op)
    requires Fit(e, q) && h in e.beats && OpOk(e.beats[h], op) && !Rejects(e.hs[h], op.flag)
    requires e'.beats == e.beats && e'.hist == e.hist + [Posted(h, op)]
    requires e'.hs == e.hs[h := WriteHandle(e.beats[h], e.hs[h], op)]
    ensures Fit(e', Drop(q, h) + [h])
  {
    assert HandleFit(e, h);
    QueueTakeover(e.beats, e.hist, q, h, op);
    HistSnoc(e.beats, e.hist, Posted(h, op));
    LiveSnoc(e.hist, Posted(h, op), h);
    WinnerSnoc(Live(e.hist, h), Sent(|e.hist|, op));
    WrittenDelivers(e.beats[h], e.hs[h], op, h);
    forall g | g in e.beats ensures HandleFit(e', g) {
      if g != h {
        assert HandleFit(e, g);
        OtherHandleFit(e, e', Posted(h, op), g);
      }
    }
  }

  lemma RejectedFit(e: Env, q: seq<Handle>, h: Handle, op: Op)
    requires Fit(e, q) && h in e.beats && OpOk(e.beats[h], op) && Rejects(e.hs[h], op.flag)
    ensures Fit(e.(hist := e.hist + [Posted(h, op)]), q)
  {
    var e' := e.(hist := e.hist + [Posted(h, op)]);
    assert HandleFit(e, h);
    QueueShutOut(e.beats, e.hist, q, h, op);
    HistSnoc(e.beats, e.hist, Posted(h, op));
    LiveSnoc(e.hist, Posted(h, op), h);
    WinnerSnoc(Live(e.hist, h), Sent(|e.hist|, op));
    forall g | g in e.beats ensures HandleFit(e', g) {
      if g != h {
        assert HandleFit(e, g);
        OtherHandleFit(e, e', Posted(h, op), g);
      }
    }
  }

  /** The environment after a handle is settled and its flag cleared. */
  lemma SettledFit(e: Env, e': Env, q: seq<Handle>, h: Handle, x: Entry)
    requires Fit(e, q) && h in e.beats
    requires x == ReleasedNow(h) || (x.Committed? && e.hs[h].flag.Some? && x == Committed(NextPut(e, h)))
    requires e'.beats == e.beats && e'.hist == e.hist + [x] && e'.hs == e.hs[h := e.hs[h].(flag := None)]
    ensures Fit(e', Drop(q, h))
  {
    assert HandleFit(e, h);
    QueueSettle(e.beats, e.hist, q, x, h);
    HistSnoc(e.beats, e.hist, x);
    LiveSnoc(e.hist, x, h);
    forall g | g in e.beats ensures HandleFit(e', g) {
      if g != h {
        assert HandleFit(e, g);
        OtherHandleFit(e, e', x, g);
      }
    }
  }
}
