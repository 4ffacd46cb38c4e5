/**
 The log of deferred writes and what compaction of it leaves, without reference to queues or flags.
 The priority rule is the one the code keeps: a force yields only to a force or a release. The source
 documents the same priority for a release, which the code does not give it.
 */
module PutHistory {
  import opened Common
  import opened PutModel

  /** A posted write and its position in the log. */
  datatype Sent = Sent(at: nat, op: Op)

  /** How entry number `at` changes the outstanding writes of `h`. */
  function LiveStep(before: seq<Sent>, at: nat, x: Entry, h: Handle): seq<Sent> {
    match x
    case Posted(g, op) => if g == h then before + [Sent(at, op)] else before
    case ReleasedNow(g) => if g == h then [] else before
    case Committed(put) => if put.handle == h then [] else before
  }

  /** The writes of `h` not yet committed or cancelled, oldest first. */
  function Live(hist: seq<Entry>, h: Handle): seq<Sent> {
    if hist == [] then [] else LiveStep(Live(Front(hist), h), |hist| - 1, Last(hist), h)
  }

  function LastNonSet(live: seq<Sent>): Option<Sent> {
    if live == [] then None
    else if Last(live).op.flag != NoDelay then Some(Last(live))
    else LastNonSet(Front(live))
  }

  /** The write that counts: the last force or release if it is a force, else the last write. */
  function Winner(live: seq<Sent>): Sent
    requires live != []
  {
    var f := LastNonSet(live);
    if f.Some? && f.value.op.flag == Force then f.value else Last(live)
  }

  /** Full-width value a write stands for: its own words, every other word and plane zero. */
  function Intended(beatNum: BeatNum, w: Write): seq<VecVal>
    requires WriteOk(beatNum, w)
  {
    seq(beatNum, i requires 0 <= i < beatNum =>
      match w
      case Value32(v) => if i == 0 then VecVal(v, 0) else ZERO
      case Value64(v) => if i == 0 then VecVal(v % WORD_LIMIT, 0) else if i == 1 then VecVal(v / WORD_LIMIT, 0) else ZERO
      case Single64(v) => if i == 0 then VecVal(v % WORD_LIMIT, 0) else if i == 1 then VecVal(v / WORD_LIMIT, 0) else ZERO
      case Multi(words) => VecVal(words[i], 0)
      case MultiBeat(beats) => if i < |beats| then VecVal(beats[i], 0) else ZERO
      case Text(_, _) => ZERO
      case Current(read) => read[i])
  }

  /** `put` hands the simulator the value of `op`; a partial setter vouches for its own words only. */
  ghost predicate Delivers(beatNum: BeatNum, put: Put, op: Op)
    requires OpOk(beatNum, op)
  {
    && put.flag == op.flag
    && match op.write
       case Text(format, text) => put.payload == Str(format, text)
       case Value32(v) => put.payload.Words? && |put.payload.words| == beatNum && put.payload.words[0].aval == v
       case MultiBeat(beats) =>
         && put.payload.Words? && |put.payload.words| == beatNum
         && forall i | 0 <= i < beatNum && i < |beats| :: put.payload.words[i].aval == beats[i]
       case _ => put.payload == Words(Intended(beatNum, op.write))
  }

  /** Exactly when the words a setter leaves in the buffer are the value it stands for. */
  predicate Clean(beatNum: BeatNum, buf: Buffer, w: Write) {
    match w
    case Value32(_) => buf[0].bval == 0 && forall i | 1 <= i < beatNum :: buf[i] == ZERO
    case MultiBeat(beats) =>
      forall i | 0 <= i < beatNum :: if i < |beats| then buf[i].bval == 0 else buf[i] == ZERO
    case _ => true
  }

  /**
   `set_value` and the multi-beat setters leave the other words, and the X/Z plane of their own,
   as they were; so the value driven is the value set if and only if those were already zero.
   */
  lemma WriteIsExactIff(beatNum: BeatNum, buf: Buffer, w: Write)
    requires WriteOk(beatNum, w) && !w.Text?
    ensures WriteVectors(beatNum, buf, w)[..beatNum] == Intended(beatNum, w) <==> Clean(beatNum, buf, w)
  {
    var got, want := WriteVectors(beatNum, buf, w)[..beatNum], Intended(beatNum, w);
    match w
    case Value32(v) =>
      assert got[0] == VecVal(v, buf[0].bval) && want[0] == VecVal(v, 0);
      assert forall i | 1 <= i < beatNum :: got[i] == buf[i] && want[i] == ZERO;
    case MultiBeat(beats) =>
      assert forall i | 0 <= i < beatNum :: got[i] == if i < |beats| then VecVal(beats[i], buf[i].bval) else buf[i];
      assert forall i | 0 <= i < beatNum :: want[i] == if i < |beats| then VecVal(beats[i], 0) else ZERO;
    case Value64(_) =>
      assert forall i | 0 <= i < beatNum :: got[i] == want[i];
    case Single64(_) =>
      assert forall i | 0 <= i < beatNum :: got[i] == want[i];
    case Multi(_) =>
      assert forall i | 0 <= i < beatNum :: got[i] == want[i];
    case Current(_) =>
      assert forall i | 0 <= i < beatNum :: got[i] == want[i];
  }

  /** Releasing a one-word signal that reads X, then setting it to 1, drives X instead of 1. */
  lemma SetAfterReleaseOfX(h: HandleState)
    ensures var x := VecVal(1, 1);
            var released := WriteHandle(1, h, Op(Release, Current([x])));
            var set_ := WriteHandle(1, released, Op(NoDelay, Value32(1)));
            && PayloadOf(1, set_) == Words([x])
            && Intended(1, Value32(1)) == [VecVal(1, 0)]
  {
    var x := VecVal(1, 1);
    var released := WriteHandle(1, h, Op(Release, Current([x])));
    assert released.vectors[0] == x;
    var set_ := WriteHandle(1, released, Op(NoDelay, Value32(1)));
    assert set_.vectors[..1] == [set_.vectors[0]];
  }

  // ---- compaction one write at a time ----

  lemma LiveSnoc(hist: seq<Entry>, x: Entry, h: Handle)
    ensures Live(hist + [x], h) == LiveStep(Live(hist, h), |hist|, x, h)
  {
    assert Front(hist + [x]) == hist;
  }

  lemma {:induction false} LastNonSetIn(live: seq<Sent>)
    ensures LastNonSet(live).Some? ==> LastNonSet(live).value in live && LastNonSet(live).value.op.flag != NoDelay
  {
    if live != [] && Last(live).op.flag == NoDelay {
      LastNonSetIn(Front(live));
      assert live == Front(live) + [Last(live)];
    }
  }

  /** A plain set is shut out by a winning force; any other write takes over. */
  lemma WinnerSnoc(live: seq<Sent>, s: Sent)
    ensures Winner(live + [s]) ==
            if live != [] && Winner(live).op.flag == Force && s.op.flag == NoDelay then Winner(live) else s
  {
    assert Front(live + [s]) == live;
    LastNonSetIn(live);
  }

  lemma {:induction false} LiveSorted(hist: seq<Entry>, h: Handle)
    ensures forall i, j | 0 <= i < j < |Live(hist, h)| :: Live(hist, h)[i].at < Live(hist, h)[j].at
  {
    if hist != [] {
      LiveSorted(Front(hist), h);
      LiveBound(Front(hist), h);
    }
  }

  /** A posted release counts if and only if no write of its handle follows it, of whatever kind. */
  lemma ReleaseCountsIff(hist: seq<Entry>, h: Handle, p: nat)
    requires p < |Live(hist, h)| && Live(hist, h)[p].op.flag == Release
    ensures Winner(Live(hist, h)) == Live(hist, h)[p] <==> p == |Live(hist, h)| - 1
  {
    LiveSorted(hist, h);
    LastNonSetIn(Live(hist, h));
  }

  lemma {:induction false} LiveBound(hist: seq<Entry>, h: Handle)
    ensures forall s | s in Live(hist, h) :: s.at < |hist| && hist[s.at] == Posted(h, s.op)
  {
    if hist != [] {
      LiveBound(Front(hist), h);
    }
  }

  lemma WinnerIn(live: seq<Sent>)
    requires live != []
    ensures Winner(live) in live
  {
    LastNonSetIn(live);
  }
}
