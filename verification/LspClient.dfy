/** The reader thread of the language-server client: one growing buffer, one table of waiting requests. */
module LspReader {
  import opened Common
  import opened LspModel
  import opened LspResults

  datatype Waiting = Waiting(msg: Option<string>, event: bool)

  datatype Inbox = Inbox(pending: map<int, Waiting>, notifs: seq<string>)

  predicate Expected(pending: map<int, Waiting>, j: Json) {
    j.Answer? && j.id in pending
  }

  function Dispatch(box: Inbox, body: string, decode: Decoder): Inbox {
    var j := decode(body);
    if Expected(box.pending, j) then box.(pending := box.pending[j.id := Waiting(Some(body), true)])
    else box.(notifs := box.notifs + [body])
  }

  function DispatchAll(box: Inbox, bodies: seq<string>, decode: Decoder): Inbox
    decreases |bodies|
  {
    if bodies == [] then box else DispatchAll(Dispatch(box, bodies[0], decode), bodies[1..], decode)
  }

  // ---- who gets what ----

  function Unexpected(ids: set<int>, bodies: seq<string>, decode: Decoder): seq<string> {
    if bodies == [] then []
    else
      var j := decode(bodies[0]);
      (if j.Answer? && j.id in ids then [] else [bodies[0]]) + Unexpected(ids, bodies[1..], decode)
  }

  function LastAnswer(id: int, bodies: seq<string>, decode: Decoder): Option<string> {
    if bodies == [] then None
    else if decode(Last(bodies)) == Answer(id) then Some(Last(bodies))
    else LastAnswer(id, Front(bodies), decode)
  }

  lemma {:induction false} DispatchSnoc(box: Inbox, bodies: seq<string>, b: string, decode: Decoder)
    ensures DispatchAll(box, bodies + [b], decode) == Dispatch(DispatchAll(box, bodies, decode), b, decode)
    decreases |bodies|
  {
    hide Dispatch;
    if bodies == [] {
      assert [] + [b] == [b] && [b][1..] == [];
    } else {
      assert (bodies + [b])[1..] == bodies[1..] + [b];
      DispatchSnoc(Dispatch(box, bodies[0], decode), bodies[1..], b, decode);
    }
  }

  /** The queue of notifications gets, in order, everything nobody waits for. */
  lemma {:induction false} NotificationsAre(box: Inbox, bodies: seq<string>, decode: Decoder)
    ensures DispatchAll(box, bodies, decode).notifs == box.notifs + Unexpected(box.pending.Keys, bodies, decode)
    ensures DispatchAll(box, bodies, decode).pending.Keys == box.pending.Keys
    decreases |bodies|
  {
    if bodies != [] {
      var next := Dispatch(box, bodies[0], decode);
      assert next.pending.Keys == box.pending.Keys;
      NotificationsAre(next, bodies[1..], decode);
    }
  }

  /** A waiting request gets the last answer to it, and wakes exactly if there was one (or it already had been woken). */
  lemma {:induction false} RequestGetsItsAnswer(box: Inbox, bodies: seq<string>, decode: Decoder, id: int)
    requires id in box.pending
    ensures id in DispatchAll(box, bodies, decode).pending
    ensures DispatchAll(box, bodies, decode).pending[id] ==
      match LastAnswer(id, bodies, decode)
      case None => box.pending[id]
      case Some(b) => Waiting(Some(b), true)
    decreases |bodies|
  {
    if bodies != [] {
      RequestGetsItsAnswer(box, Front(bodies), decode, id);
      DispatchSnoc(box, Front(bodies), Last(bodies), decode);
      assert bodies == Front(bodies) + [Last(bodies)];
    }
  }

  // ---- the thread ----

  function Woken(pending: map<int, Waiting>): map<int, Waiting> {
    map id | id in pending :: Waiting(pending[id].msg, true)
  }

  /** One turn of the loop: whether close() has not been called when the turn starts, and what the read returns. */
  datatype Turn = Turn(alive: bool, chunk: string)

  /** The chunks that are parsed: up to a close() or an empty read, the end of the stream. */
  function Received(turns: seq<Turn>): (chunks: seq<string>)
    ensures NonEmpty(chunks)
  {
    if turns == [] || !turns[0].alive || turns[0].chunk == "" then []
    else
      JoinedCons(turns[0].chunk, Received(turns[1..]));
      [turns[0].chunk] + Received(turns[1..])
  }

  /** What is read: the chunks of all turns before the first one that finds the client closed or the stream ended. */
  lemma {:induction false} ReceivedIs(turns: seq<Turn>)
    ensures |Received(turns)| <= |turns|
    ensures forall i | 0 <= i < |Received(turns)| :: turns[i].alive && Received(turns)[i] == turns[i].chunk != ""
    ensures |Received(turns)| < |turns| ==> !turns[|Received(turns)|].alive || turns[|Received(turns)|].chunk == ""
  {
    if turns != [] && turns[0].alive && turns[0].chunk != "" {
      ReceivedIs(turns[1..]);
    }
  }

  class LspClient {
    const decode: Decoder
    var buf: string
    var pending: map<int, Waiting>
    var notifs: seq<string>
    var failed: bool

    constructor (decode: Decoder)
      ensures this.decode == decode
      ensures buf == "" && pending == map[] && notifs == [] && !failed
    {
      this.decode := decode;
      buf, pending, notifs, failed := "", map[], [], false;
    }

    ghost function Box(): Inbox
      reads this
    {
      Inbox(pending, notifs)
    }

    /** One parse: a complete message leaves the buffer; an exception fails the reader; null gives no message. */
    method TryParseNext() returns (msg: Option<string>)
      requires !failed
      modifies this`buf, this`failed
      ensures match TryParse(old(buf))
        case NeedMore => msg == None && !failed && buf == old(buf)
        case Malformed => msg == None && failed
        case Message(body, rest, _) =>
          && buf == rest
          && failed == decode(body).Undecodable?
          && msg == if decode(body).Undecodable? || decode(body).Null? then None else Some(body)
    {
      msg := None;
      match TryParse(buf) {
        case NeedMore =>
        case Malformed =>
          failed := true;
        case Message(body, rest, _) =>
          buf := rest;
          match decode(body) {
            case Undecodable =>
              failed := true;
            case Null =>
            case _ =>
              msg := Some(body);
          }
      }
    }

    /** Hand a message to the request that waits for it, or queue it; a value without keys raises. */
    method Deliver(body: string)
      requires !failed
      modifies this`pending, this`notifs, this`failed
      ensures failed == decode(body).Unfit?
      ensures Box() == if failed then old(Box()) else Dispatch(old(Box()), body, decode)
    {
      match decode(body) {
        case Unfit =>
          failed := true;
        case Answer(id) =>
          if id in pending {
            pending := pending[id := Waiting(Some(body), true)];
          } else {
            notifs := notifs + [body];
          }
        case _ =>
          notifs := notifs + [body];
      }
    }

    ghost predicate Reached(start: Inbox, o: Outcome)
      reads this
    {
      && Box() == DispatchAll(start, o.bodies, decode)
      && failed == o.tail.None?
      && (o.tail.Some? ==> buf == o.tail.value)
    }

    ghost function Joining(done: seq<string>, d: Outcome): Outcome {
      Outcome(done + d.bodies, d.tail)
    }

    /** One turn of the inner loop: what is delivered and what is still to drain make up the same whole. */
    method ParseOne(ghost start: Inbox, ghost done: seq<string>) returns (more: bool, ghost now: seq<string>)
      requires !failed && Box() == DispatchAll(start, done, decode)
      modifies this`buf, this`pending, this`notifs, this`failed
      ensures Box() == DispatchAll(start, now, decode)
      ensures more ==> !failed && |buf| < |old(buf)|
      ensures Joining(done, Drain(old(buf), decode))
           == if more then Joining(now, Drain(buf, decode)) else Outcome(now, if failed then None else Some(buf))
    {
      hide TryParse, Dispatch, DispatchAll;
      var msg := TryParseNext();
      assert done + [] == done;
      if msg.None? {
        return false, done;
      }
      var body := msg.value;
      DispatchSnoc(start, done, body, decode);
      Deliver(body);
      if failed {
        return false, done;
      }
      assert done + ([body] + Drain(buf, decode).bodies) == (done + [body]) + Drain(buf, decode).bodies;
      return true, done + [body];
    }

    /** The inner loop after each read. */
    method ParseAvailable(chunk: string)
      requires !failed
      modifies this`buf, this`pending, this`notifs, this`failed
      ensures Reached(old(Box()), Drain(old(buf) + chunk, decode))
    {
      buf := buf + chunk;
      ghost var start, all := Box(), Drain(buf, decode);
      ghost var done: seq<string> := [];
      assert Joining(done, all) == all;
      var more := true;
      while more
        invariant Box() == DispatchAll(start, done, decode)
        invariant more ==> !failed
        invariant all == if more then Joining(done, Drain(buf, decode)) else Outcome(done, if failed then None else Some(buf))
        decreases more, |buf|
      {
        hide Drain, DispatchAll, Joining;
        more, done := ParseOne(start, done);
      }
    }

    /** The whole thread, for the turns it will make. */
    method ReaderLoop(turns: seq<Turn>)
      requires !failed
      modifies this
      ensures
        var o := FeedAll(Outcome([], Some(old(buf))), Received(turns), decode);
        var box := DispatchAll(old(Box()), o.bodies, decode);
        && notifs == box.notifs
        && pending == Woken(box.pending)
        && failed == o.tail.None?
        && (!failed ==> buf == o.tail.value)
    {
      ghost var start := Box();
      ghost var goal := FeedAll(Outcome([], Some(buf)), Received(turns), decode);
      ghost var sofar := Outcome([], Some(buf));
      var i := 0;
      while i < |turns| && !failed && turns[i].alive && turns[i].chunk != ""
        invariant 0 <= i <= |turns|
        invariant Reached(start, sofar)
        invariant goal == FeedAll(sofar, Received(turns[i..]), decode)
      {
        var chunk := turns[i].chunk;
        assert turns[i..][1..] == turns[i + 1..];
        assert Received(turns[i..])[0] == chunk && Received(turns[i..])[1..] == Received(turns[i + 1..]);
        ghost var d := Drain(buf + chunk, decode);
        DispatchConcat(start, sofar.bodies, d.bodies);
        ParseAvailable(chunk);
        sofar := Outcome(sofar.bodies + d.bodies, d.tail);
        i := i + 1;
      }
      DeadStaysDead(sofar, Received(turns[i..]), decode);
      WakeAll();
    }

    lemma DispatchConcat(box: Inbox, a: seq<string>, b: seq<string>)
      ensures DispatchAll(box, a + b, decode) == DispatchAll(DispatchAll(box, a, decode), b, decode)
      decreases |a|
    {
      hide Dispatch;
      if a == [] {
        assert a + b == b;
      } else {
        assert (a + b)[1..] == a[1..] + b;
        DispatchConcat(Dispatch(box, a[0], decode), a[1..], b);
      }
    }

    /** The reader is gone: no request may go on waiting. */
    method WakeAll()
      modifies this`pending
      ensures pending == Woken(old(pending))
    {
      pending := map id | id in pending :: Waiting(pending[id].msg, true);
    }
  }
}
