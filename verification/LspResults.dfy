/** Message boundaries do not depend on how the stream arrives. */
module LspResults {
  import opened Common
  import opened LspModel

  // ---- more bytes do not change a parse ----

  lemma FindFirst(s: string, w: string, i: nat)
    requires At(s, i, w) && forall k | 0 <= k < i :: !At(s, k, w)
    ensures Find(s, w, 0) == Some(i)
  {
  }

  lemma AtHead(s: string, w: string)
    requires w != ""
    ensures forall i | 0 <= i <= |s| && At(s, i, w) :: i < |s| && s[i] == w[0]
  {
    forall i | 0 <= i <= |s| && At(s, i, w) ensures i < |s| && s[i] == w[0] {
      assert s[i + 0] == w[0];
    }
  }

  lemma AtExtends(s: string, more: string, i: nat, w: string)
    requires i + |w| <= |s|
    ensures At(s + more, i, w) <==> At(s, i, w)
  {
    if At(s + more, i, w) {
      forall k | 0 <= k < |w| ensures s[i + k] == w[k] {
        assert (s + more)[i + k] == w[k];
      }
    }
  }

  lemma FindExtends(s: string, more: string, w: string)
    requires Find(s, w, 0).Some?
    ensures Find(s + more, w, 0) == Find(s, w, 0)
  {
    var i := Find(s, w, 0).value;
    AtExtends(s, more, i, w);
    forall k | 0 <= k < i ensures !At(s + more, k, w) {
      AtExtends(s, more, k, w);
    }
    FindFirst(s + more, w, i);
  }

  /** A parse that is decided stays decided, and later bytes only lengthen the rest, if the length is not negative. */
  lemma ParseExtends(buf: string, more: string)
    ensures match TryParse(buf)
      case NeedMore => true
      case Malformed => TryParse(buf + more) == Malformed
      case Message(body, rest, n) =>
        && TryParse(buf + more).Message? && TryParse(buf + more).length == n
        && (n >= 0 ==> TryParse(buf + more) == Message(body, rest + more, n))
  {
    hide LengthOf, Lines, Find;
    if Find(buf, SEPARATOR, 0).Some? {
      var i := Find(buf, SEPARATOR, 0).value;
      FindExtends(buf, more, SEPARATOR);
      assert (buf + more)[..i] == buf[..i];
      assert (buf + more)[i + 4..] == buf[i + 4..] + more;
      var length := LengthOf(Lines(buf[..i]), Missing);
      if length.Length? && 0 <= length.value <= |buf[i + 4..]| {
        var rest := buf[i + 4..];
        assert (rest + more)[..length.value] == rest[..length.value];
        assert (rest + more)[length.value..] == rest[length.value..] + more;
      }
    }
  }

  lemma FindPrefix(s: string, p: nat, w: string)
    requires Find(s, w, 0).Some? && Find(s, w, 0).value + |w| <= p <= |s|
    ensures Find(s[..p], w, 0) == Find(s, w, 0)
  {
    var i := Find(s, w, 0).value;
    assert s == s[..p] + s[p..];
    forall k | 0 <= k <= i ensures At(s[..p], k, w) <==> At(s, k, w) {
      AtExtends(s[..p], s[p..], k, w);
    }
    FindFirst(s[..p], w, i);
  }

  /** A message of non-negative length parses as soon as its last byte is there. */
  lemma WholeMessage(s: string)
    ensures match TryParse(s)
      case Message(body, rest, n) =>
        n >= 0 ==>
          var p := |s| - |rest|;
          0 < p && s[p..] == rest && TryParse(s[..p]) == Message(body, "", n)
      case _ => true
  {
    hide LengthOf, Lines, Find;
    if TryParse(s).Message? && TryParse(s).length >= 0 {
      var i, n := Find(s, SEPARATOR, 0).value, TryParse(s).length;
      var p := i + 4 + n;
      FindPrefix(s, p, SEPARATOR);
      assert s[..p][..i] == s[..i];
      assert s[..p][i + 4..] == s[i + 4..][..n];
      assert s[i + 4..][n..] == s[p..];
    }
  }

  /** A header with a negative length parses, with nothing behind it, to an empty body. */
  lemma HeaderOnly(s: string) returns (p: nat)
    requires TryParse(s).Message? && TryParse(s).length < 0
    ensures 0 < p <= |s| && TryParse(s[..p]) == Message("", "", TryParse(s).length)
  {
    hide LengthOf, Lines, Find;
    var i := Find(s, SEPARATOR, 0).value;
    p := i + 4;
    FindPrefix(s, p, SEPARATOR);
    assert s[..p][..i] == s[..i];
    assert s[..p][i + 4..] == "";
  }

  // ---- how the stream is cut ----

  /** Every way to cut `s` whose first piece has at least `m` bytes makes the reader fail with nothing delivered. */
  ghost predicate Dies(s: string, m: nat, decode: Decoder)
    decreases |s|
  {
    match TryParse(s)
    case NeedMore => false
    case Malformed => true
    case Message(body, _, n) =>
      if n >= 0 then Fails(decode(body))
      else
        forall i | m <= i <= |s| && TryParse(s[..i]).Message? ::
          var p := TryParse(s[..i]);
          || Fails(decode(p.body))
          || (decode(p.body) == Null && i < |s| && Dies(p.rest + s[i..], |p.rest| + 1, decode))
  }

  /**
   The streams for which it does not matter how they are cut: a null message is the last one, and
   whatever a negative length may make of its body fails.
   */
  ghost predicate CutProof(s: string, decode: Decoder)
    decreases |s|
  {
    match TryParse(s)
    case NeedMore => true
    case Malformed => true
    case Message(body, rest, n) =>
      if n < 0 then Dies(s, 0, decode)
      else if decode(body) == Null then TryParse(rest).NeedMore?
      else if Delivers(decode(body)) then CutProof(rest, decode)
      else true
  }

  lemma {:induction false} DeadStaysDead(o: Outcome, chunks: seq<string>, decode: Decoder)
    ensures o.tail.None? ==> FeedAll(o, chunks, decode) == o
    decreases |chunks|
  {
    if chunks != [] {
      DeadStaysDead(Feed(o, chunks[0], decode), chunks[1..], decode);
    }
  }

  function After(body: string, o: Outcome): Outcome {
    Outcome([body] + o.bodies, o.tail)
  }

  /** What was delivered before does not influence what comes. */
  lemma {:induction false} FeedAllAfter(body: string, o: Outcome, chunks: seq<string>, decode: Decoder)
    ensures FeedAll(After(body, o), chunks, decode) == After(body, FeedAll(o, chunks, decode))
    decreases |chunks|
  {
    hide Drain;
    if chunks != [] {
      var next := Feed(o, chunks[0], decode);
      if o.tail.Some? {
        var d := Drain(o.tail.value + chunks[0], decode);
        assert [body] + (o.bodies + d.bodies) == ([body] + o.bodies) + d.bodies;
      }
      assert Feed(After(body, o), chunks[0], decode) == After(body, next);
      FeedAllAfter(body, next, chunks[1..], decode);
    }
  }

  lemma AfterApart(body: string, a: Outcome, b: Outcome)
    requires a != b
    ensures After(body, a) != After(body, b)
  {
    assert ([body] + a.bodies)[1..] == a.bodies && ([body] + b.bodies)[1..] == b.bodies;
  }

  lemma FeedNext(buf: string, chunks: seq<string>, decode: Decoder)
    requires chunks != []
    ensures FeedAll(Outcome([], Some(buf)), chunks, decode) == FeedAll(Drain(buf + chunks[0], decode), chunks[1..], decode)
  {
    hide Drain;
    var d := Drain(buf + chunks[0], decode);
    assert [] + d.bodies == d.bodies;
  }

  /** A stream that is not yet a message is only buffered. */
  lemma {:induction false} OnlyBuffered(s: string, i: nat, chunks: seq<string>, decode: Decoder)
    requires TryParse(s).NeedMore? && i <= |s| && s[i..] == Joined(chunks)
    ensures FeedAll(Outcome([], Some(s[..i])), chunks, decode) == Outcome([], Some(s))
    decreases |chunks|
  {
    hide TryParse;
    if chunks == [] {
      assert s[..i] == s;
    } else {
      NextPiece(s, i, chunks);
      var j := i + |chunks[0]|;
      ParseExtends(s[..j], s[j..]);
      assert s[..j] + s[j..] == s;
      FeedNext(s[..i], chunks, decode);
      OnlyBuffered(s, j, chunks[1..], decode);
    }
  }

  lemma NextPiece(s: string, i: nat, chunks: seq<string>)
    requires i <= |s| && s[i..] == Joined(chunks) && chunks != []
    ensures var j := i + |chunks[0]|;
      j <= |s| && s[..i] + chunks[0] == s[..j] && s[j..] == Joined(chunks[1..])
  {
    var j := i + |chunks[0]|;
    assert s[i..] == chunks[0] + Joined(chunks[1..]);
    assert s[..j] == s[..i] + s[i..][..|chunks[0]|];
    assert s[j..] == s[i..][|chunks[0]|..];
  }

  /** The first read of a stream that dies ends the reader, or leaves one that dies with the next read. */
  lemma {:induction false} FeedDies(s: string, m: nat, i: nat, chunks: seq<string>, decode: Decoder)
    requires Dies(s, m, decode) && m <= i <= |s| && s[i..] == Joined(chunks) && NonEmpty(chunks)
    ensures FeedAll(Drain(s[..i], decode), chunks, decode) == Outcome([], None)
    decreases |s|, |chunks|
  {
    hide TryParse;
    ParseExtends(s[..i], s[i..]);
    assert s[..i] + s[i..] == s;
    assert i == |s| ==> s[..i] == s;
    match TryParse(s[..i])
    case NeedMore =>
      if chunks != [] {
        NextPiece(s, i, chunks);
        FeedNext(s[..i], chunks, decode);
        FeedDies(s, m, i + |chunks[0]|, chunks[1..], decode);
      }
    case Malformed =>
      DeadStaysDead(Outcome([], None), chunks, decode);
    case Message(body, rest, n) =>
      if Fails(decode(body)) {
        DeadStaysDead(Outcome([], None), chunks, decode);
      } else {
        NullDies(s, m, i, chunks, decode);
      }
  }

  lemma {:induction false} NullDies(s: string, m: nat, i: nat, chunks: seq<string>, decode: Decoder)
    requires Dies(s, m, decode) && m <= i <= |s| && s[i..] == Joined(chunks) && NonEmpty(chunks)
    requires TryParse(s[..i]).Message? && !Fails(decode(TryParse(s[..i]).body))
    ensures FeedAll(Drain(s[..i], decode), chunks, decode) == Outcome([], None)
    decreases |s|, |chunks|, 0
  {
    hide TryParse;
    ParseExtends(s[..i], s[i..]);
    assert s[..i] + s[i..] == s;
    var p := TryParse(s[..i]);
    assert decode(p.body) == Null && i < |s| && Dies(p.rest + s[i..], |p.rest| + 1, decode);
    assert chunks != [];
    var later := p.rest + s[i..];
    var c := chunks[0];
    assert later[|p.rest|..] == Joined(chunks);
    assert later[..|p.rest|] == p.rest;
    NextPiece(later, |p.rest|, chunks);
    FeedNext(p.rest, chunks, decode);
    FeedDies(later, |p.rest| + 1, |p.rest| + |c|, chunks[1..], decode);
  }

  /** Whatever was read first, a cut-proof stream ends as if read at once. */
  lemma {:induction false} FeedDrain(s: string, i: nat, chunks: seq<string>, decode: Decoder)
    requires CutProof(s, decode) && i <= |s| && s[i..] == Joined(chunks) && NonEmpty(chunks)
    ensures FeedAll(Drain(s[..i], decode), chunks, decode) == Drain(s, decode)
    decreases |s|, |chunks|
  {
    hide TryParse, Dies;
    ParseExtends(s[..i], s[i..]);
    assert s[..i] + s[i..] == s;
    match TryParse(s[..i])
    case NeedMore =>
      if chunks == [] {
        assert s[..i] == s;
      } else {
        NextPiece(s, i, chunks);
        FeedNext(s[..i], chunks, decode);
        FeedDrain(s, i + |chunks[0]|, chunks[1..], decode);
      }
    case Malformed =>
      DeadStaysDead(Outcome([], None), chunks, decode);
    case Message(body, rest, n) =>
      if n < 0 {
        FeedDies(s, 0, i, chunks, decode);
        assert s[..|s|] == s && s[|s|..] == Joined([]);
        FeedDies(s, 0, |s|, [], decode);
      } else if Fails(decode(body)) {
        DeadStaysDead(Outcome([], None), chunks, decode);
      } else {
        var all := rest + s[i..];
        assert all[..|rest|] == rest && all[|rest|..] == Joined(chunks);
        if decode(body) == Null {
          OnlyBuffered(all, |rest|, chunks, decode);
        } else {
          FeedDrain(all, |rest|, chunks, decode);
          FeedAllAfter(body, Drain(rest, decode), chunks, decode);
        }
      }
  }

  lemma DrainNothing(decode: Decoder)
    ensures Drain("", decode) == Fresh()
  {
    assert Find("", SEPARATOR, 0).None?;
  }

  /** Chunk invariance: however a cut-proof stream is cut, the reader ends as if it had been read at once. */
  lemma ChunkInvariance(chunks: seq<string>, decode: Decoder)
    requires NonEmpty(chunks) && CutProof(Joined(chunks), decode)
    ensures FeedAll(Fresh(), chunks, decode) == Drain(Joined(chunks), decode)
  {
    DrainNothing(decode);
    var s := Joined(chunks);
    assert s[..0] == "" && s[0..] == s;
    FeedDrain(s, 0, chunks, decode);
  }

  // ---- streams for which the cut matters ----

  lemma ReadAtOnce(s: string, chunks: seq<string>, decode: Decoder)
    ensures FeedAll(Fresh(), [s] + chunks, decode) == FeedAll(Drain(s, decode), chunks, decode)
  {
    hide Drain;
    var d := Drain(s, decode);
    assert "" + s == s && [] + d.bodies == d.bodies;
    assert ([s] + chunks)[0] == s && ([s] + chunks)[1..] == chunks;
  }

  lemma JoinedCons(s: string, chunks: seq<string>)
    ensures Joined([s] + chunks) == s + Joined(chunks)
    ensures NonEmpty([s] + chunks) <==> s != "" && NonEmpty(chunks)
  {
    assert ([s] + chunks)[1..] == chunks;
    if NonEmpty([s] + chunks) {
      forall i | 0 <= i < |chunks| ensures chunks[i] != "" {
        assert ([s] + chunks)[i + 1] == chunks[i];
      }
    }
  }

  lemma JoinedOne(s: string)
    ensures Joined([s]) == s && [s] + [] == [s]
  {
    assert [s][1..] == [];
  }

  /** The rest of `s` as chunks, none if there is none. */
  function Rest(s: string, i: nat): (chunks: seq<string>)
    requires i <= |s|
    ensures NonEmpty(chunks) && Joined(chunks) == s[i..]
  {
    if i == |s| then [] else (JoinedOne(s[i..]); [s[i..]])
  }

  /** If a stream need not die, here is a way to cut it so that it does not. */
  lemma {:induction false} Survives(s: string, m: nat, decode: Decoder) returns (chunks: seq<string>)
    requires !Dies(s, m, decode) && s != "" && m <= |s|
    ensures NonEmpty(chunks) && Joined(chunks) == s && chunks != [] && |chunks[0]| >= m
    ensures FeedAll(Fresh(), chunks, decode) != Outcome([], None)
    decreases |s|
  {
    hide TryParse, FeedAll;
    JoinedOne(s);
    if TryParse(s).Message? && TryParse(s).length < 0 {
      var i :| m <= i <= |s| && TryParse(s[..i]).Message? &&
        var p := TryParse(s[..i]);
        && !Fails(decode(p.body))
        && !(decode(p.body) == Null && i < |s| && Dies(p.rest + s[i..], |p.rest| + 1, decode));
      chunks := SurvivesCut(s, m, i, decode);
    } else {
      chunks := [s];
      ReadAtOnce(s, [], decode);
      FedAll(Drain(s, decode), decode);
    }
  }

  lemma FedAll(o: Outcome, decode: Decoder)
    ensures FeedAll(o, [], decode) == o
  {
  }

  lemma {:induction false} SurvivesCut(s: string, m: nat, i: nat, decode: Decoder) returns (chunks: seq<string>)
    requires s != "" && m <= i <= |s| && TryParse(s[..i]).Message?
    requires var p := TryParse(s[..i]);
      && !Fails(decode(p.body))
      && !(decode(p.body) == Null && i < |s| && Dies(p.rest + s[i..], |p.rest| + 1, decode))
    ensures NonEmpty(chunks) && Joined(chunks) == s && chunks != [] && |chunks[0]| >= m
    ensures FeedAll(Fresh(), chunks, decode) != Outcome([], None)
    decreases |s|, 0
  {
    hide TryParse, FeedAll;
    var p := TryParse(s[..i]);
    assert s[..i] + s[i..] == s;
    if decode(p.body) == Null && i < |s| {
      var later := p.rest + s[i..];
      var more := Survives(later, |p.rest| + 1, decode);
      chunks := [s[..i]] + Shorter(more, p.rest, s[i..]);
      JoinedCons(s[..i], Shorter(more, p.rest, s[i..]));
      ReadAtOnce(s[..i], Shorter(more, p.rest, s[i..]), decode);
      FeedShorter(more, p.rest, s[i..], decode);
    } else {
      chunks := [s[..i]] + Rest(s, i);
      JoinedCons(s[..i], Rest(s, i));
      ReadAtOnce(s[..i], Rest(s, i), decode);
      if decode(p.body) == Null {
        FedAll(Drain(s[..i], decode), decode);
      } else {
        FeedAllAfter(p.body, Drain(p.rest, decode), Rest(s, i), decode);
      }
    }
  }

  /** The chunks of `had + s` once `had` is in the buffer. */
  function Shorter(chunks: seq<string>, had: string, s: string): (r: seq<string>)
    requires NonEmpty(chunks) && Joined(chunks) == had + s && chunks != [] && |chunks[0]| > |had|
    ensures NonEmpty(r) && Joined(r) == s
  {
    var first := chunks[0][|had|..];
    JoinedCons(first, chunks[1..]);
    assert had + s == chunks[0] + Joined(chunks[1..]);
    assert (had + s)[|had|..] == s;
    assert (chunks[0] + Joined(chunks[1..]))[|had|..] == first + Joined(chunks[1..]);
    [first] + chunks[1..]
  }

  lemma FeedShorter(chunks: seq<string>, had: string, s: string, decode: Decoder)
    requires NonEmpty(chunks) && Joined(chunks) == had + s && chunks != [] && |chunks[0]| > |had|
    ensures FeedAll(Outcome([], Some(had)), Shorter(chunks, had, s), decode) == FeedAll(Fresh(), chunks, decode)
  {
    hide Drain;
    var first := chunks[0][|had|..];
    var r := Shorter(chunks, had, s);
    assert had + s == chunks[0] + Joined(chunks[1..]);
    assert had == (had + s)[..|had|] == chunks[0][..|had|];
    assert had + first == chunks[0];
    assert r[0] == first && r[1..] == chunks[1..];
    assert "" + chunks[0] == chunks[0];
  }

  /** A stream that is not cut-proof, and two ways to cut it with different ends. */
  lemma {:induction false} CutMatters(s: string, decode: Decoder) returns (a: seq<string>, b: seq<string>)
    requires !CutProof(s, decode) && Fails(decode(""))
    ensures NonEmpty(a) && NonEmpty(b) && Joined(a) == s && Joined(b) == s
    ensures FeedAll(Fresh(), a, decode) != FeedAll(Fresh(), b, decode)
    decreases |s|
  {
    hide TryParse, FeedAll, Dies;
    var r := TryParse(s);
    if r.length < 0 {
      a := Survives(s, 0, decode);
      var p := HeaderOnly(s);
      b := [s[..p]] + Rest(s, p);
      JoinedCons(s[..p], Rest(s, p));
      assert s[..p] + s[p..] == s;
      ReadAtOnce(s[..p], Rest(s, p), decode);
      DeadStaysDead(Outcome([], None), Rest(s, p), decode);
    } else {
      WholeMessage(s);
      var p := |s| - |r.rest|;
      assert s[..p] + r.rest == s;
      if decode(r.body) == Null {
        a, b := [s], [s[..p]] + [r.rest];
        JoinedOne(s);
        ReadAtOnce(s, [], decode);
        FedAll(Drain(s, decode), decode);
        NullThenMore(s[..p], r.rest, decode);
      } else {
        a, b := CutMatters(r.rest, decode);
        BehindMessage(s[..p], r.body, a, decode);
        BehindMessage(s[..p], r.body, b, decode);
        AfterApart(r.body, FeedAll(Fresh(), a, decode), FeedAll(Fresh(), b, decode));
        a, b := [s[..p]] + a, [s[..p]] + b;
      }
    }
  }

  lemma NullThenMore(first: string, rest: string, decode: Decoder)
    requires TryParse(first).Message? && TryParse(first).rest == "" && decode(TryParse(first).body) == Null
    requires !TryParse(rest).NeedMore?
    ensures NonEmpty([first] + [rest]) && Joined([first] + [rest]) == first + rest
    ensures FeedAll(Fresh(), [first] + [rest], decode) != Outcome([], Some(rest))
  {
    hide TryParse, FeedAll;
    TooShort("");
    JoinedOne(rest);
    JoinedCons(first, [rest]);
    ReadAtOnce(first, [rest], decode);
    ReadAtOnce(rest, [], decode);
    FedAll(Drain(rest, decode), decode);
    assert Drain(first, decode) == Fresh();
  }

  lemma BehindMessage(first: string, body: string, chunks: seq<string>, decode: Decoder)
    requires NonEmpty(chunks) && TryParse(first).Message? && TryParse(first).rest == "" && TryParse(first).body == body
    requires Delivers(decode(body))
    ensures NonEmpty([first] + chunks) && Joined([first] + chunks) == first + Joined(chunks)
    ensures FeedAll(Fresh(), [first] + chunks, decode) == After(body, FeedAll(Fresh(), chunks, decode))
  {
    hide TryParse, FeedAll;
    TooShort("");
    JoinedCons(first, chunks);
    ReadAtOnce(first, chunks, decode);
    DrainNothing(decode);
    FeedAllAfter(body, Fresh(), chunks, decode);
  }

  ghost predicate ChunkingsAgree(s: string, decode: Decoder) {
    forall a, b | NonEmpty(a) && NonEmpty(b) && Joined(a) == s && Joined(b) == s ::
      FeedAll(Fresh(), a, decode) == FeedAll(Fresh(), b, decode)
  }

  /**
   For which streams the cut does not matter, exactly: for the cut-proof ones. json.loads raises on
   an empty body.
   */
  lemma ChunkingsAgreeIff(s: string, decode: Decoder)
    requires Fails(decode(""))
    ensures ChunkingsAgree(s, decode) <==> CutProof(s, decode)
  {
    if CutProof(s, decode) {
      forall a, b | NonEmpty(a) && NonEmpty(b) && Joined(a) == s && Joined(b) == s
        ensures FeedAll(Fresh(), a, decode) == FeedAll(Fresh(), b, decode)
      {
        ChunkInvariance(a, decode);
        ChunkInvariance(b, decode);
      }
    } else {
      var a, b := CutMatters(s, decode);
      assert FeedAll(Fresh(), a, decode) != FeedAll(Fresh(), b, decode);
    }
  }

  lemma TooShort(s: string)
    requires |s| < 4
    ensures TryParse(s).NeedMore?
  {
  }

  // ---- what encode writes ----

  lemma {:induction false} DecimalDigits(n: nat)
    ensures Digits(Decimal(n)) == Some(n)
    ensures Decimal(n) != "" && forall k | 0 <= k < |Decimal(n)| :: IsDigit(Decimal(n)[k])
  {
    if n >= 10 {
      DecimalDigits(n / 10);
      var s := Decimal(n);
      assert Front(s) == Decimal(n / 10);
      assert IsDigit(Last(Front(s)));
    }
  }

  lemma NoStrip(s: string)
    requires s != "" && !Space(s[0]) && !Space(Last(s))
    ensures Strip(s) == s && Strip(" " + s) == s
  {
    assert (" " + s)[1..] == s;
  }

  lemma NameIsLowered(h: string, rest: string)
    requires h == "Content-Length:" + rest
    ensures IsContentLength(h)
  {
    var low := Lower(h);
    assert h[0] == 'C' && h[1] == 'o' && h[2] == 'n' && h[3] == 't' && h[4] == 'e' && h[5] == 'n' && h[6] == 't';
    assert h[7] == '-' && h[8] == 'L' && h[9] == 'e' && h[10] == 'n' && h[11] == 'g' && h[12] == 't' && h[13] == 'h';
    assert h[14] == ':';
    assert low[..15] == CONTENT_LENGTH;
    assert forall k | 0 <= k < 15 :: low[k] == low[..15][k];
  }

  lemma ColonAt(h: string, rest: string)
    requires h == "Content-Length:" + rest
    ensures Find(h, ":", 0) == Some(14)
    ensures h[15..] == rest
  {
    AtHead(h, ":");
    assert At(h, 14, ":");
    FindFirst(h, ":", 14);
  }

  lemma HeaderLine(body: string)
    ensures IsContentLength(Header(body))
    ensures PyInt(AfterColon(Header(body))) == Some(|body|)
    ensures forall k | 0 <= k < |Header(body)| :: Header(body)[k] != '\r'
  {
    hide IsContentLength, Find;
    var rest := " " + Decimal(|body|);
    assert Header(body) == "Content-Length:" + rest;
    NameIsLowered(Header(body), rest);
    ColonAt(Header(body), rest);
    DecimalDigits(|body|);
    NoStrip(Decimal(|body|));
  }

  lemma HeaderLength(body: string)
    ensures LengthOf(Lines(Header(body)), Missing) == Length(|body|)
  {
    hide IsContentLength, PyInt, AfterColon, Header;
    HeaderLine(body);
    AtHead(Header(body), "\r\n");
    assert Lines(Header(body)) == [Header(body)];
  }

  /** In a header without carriage returns the separator comes right at the end. */
  lemma SeparatorFollows(h: string, more: string)
    requires forall k | 0 <= k < |h| :: h[k] != '\r'
    ensures Find(h + SEPARATOR + more, SEPARATOR, 0) == Some(|h|)
  {
    var s := h + SEPARATOR + more;
    AtHead(s, SEPARATOR);
    assert forall k | 0 <= k < |h| :: s[k] == h[k];
    assert forall k | 0 <= k < 4 :: s[|h| + k] == SEPARATOR[k];
    FindFirst(s, SEPARATOR, |h|);
  }

  /** One encoded message, whatever follows it. */
  lemma ParseEncoded(body: string, more: string)
    ensures TryParse(Encode(body) + more) == Message(body, more, |body|)
  {
    var h := Header(body);
    var s := Encode(body) + more;
    hide Header, LengthOf, Lines, Find;
    HeaderLine(body);
    HeaderLength(body);
    assert s == h + SEPARATOR + (body + more);
    SeparatorFollows(h, body + more);
    assert s[..|h|] == h && s[|h| + 4..] == body + more;
    assert (body + more)[..|body|] == body && (body + more)[|body|..] == more;
  }

  /** A message cut short is not yet a message. */
  lemma ParseCutShort(body: string, n: nat)
    requires n < |Encode(body)|
    ensures TryParse(Encode(body)[..n]) == NeedMore
  {
    var h, s := Header(body), Encode(body)[..n];
    hide Header, LengthOf, Lines;
    HeaderLine(body);
    HeaderLength(body);
    AtHead(s, SEPARATOR);
    if n < |h| + 4 {
      assert forall k | 0 <= k < n && k < |h| :: s[k] == h[k];
    } else {
      assert s == h + SEPARATOR + body[..n - |h| - 4];
      SeparatorFollows(h, body[..n - |h| - 4]);
      assert s[..|h|] == h;
    }
  }

  /** How many of the messages are complete within the first `n` bytes of their encoding. */
  function Complete(bodies: seq<string>, n: nat): (k: nat)
    ensures k <= |bodies|
  {
    if bodies == [] || n < |Encode(bodies[0])| then 0 else 1 + Complete(bodies[1..], n - |Encode(bodies[0])|)
  }

  lemma {:induction false} DrainPrefix(bodies: seq<string>, n: nat, decode: Decoder)
    requires n <= |EncodeAll(bodies)|
    requires forall i | 0 <= i < |bodies| :: Delivers(decode(bodies[i]))
    ensures
      var k := Complete(bodies, n);
      var got := EncodeAll(bodies)[..n];
      && |EncodeAll(bodies[..k])| <= n
      && Drain(got, decode) == Outcome(bodies[..k], Some(got[|EncodeAll(bodies[..k])|..]))
      && CutProof(got, decode)
  {
    hide TryParse, Encode;
    var all, got := EncodeAll(bodies), EncodeAll(bodies)[..n];
    if bodies == [] {
      DrainNothing(decode);
      assert TryParse("").NeedMore? by { NothingToParse(); }
    } else {
      var first := Encode(bodies[0]);
      if n < |first| {
        ParseCutShort(bodies[0], n);
        assert got == first[..n];
        assert bodies[..0] == [];
      } else {
        var rest := EncodeAll(bodies[1..])[..n - |first|];
        assert got == first + rest;
        ParseEncoded(bodies[0], rest);
        DrainPrefix(bodies[1..], n - |first|, decode);
        var k := Complete(bodies[1..], n - |first|);
        assert bodies[..k + 1] == [bodies[0]] + bodies[1..][..k];
        assert bodies[..k + 1][1..] == bodies[1..][..k];
        assert got[|EncodeAll(bodies[..k + 1])|..] == rest[|EncodeAll(bodies[1..][..k])|..];
      }
    }
  }

  lemma NothingToParse()
    ensures TryParse("").NeedMore?
  {
    assert Find("", SEPARATOR, 0).None?;
  }

  /**
   * The reader at work: after any chunks that make up the first part of an encoded message list, it
   * has delivered exactly the messages complete so far, in order, and buffers exactly the rest.
   */
  lemma DeliversCompleteMessages(bodies: seq<string>, chunks: seq<string>, decode: Decoder)
    requires NonEmpty(chunks) && Joined(chunks) <= EncodeAll(bodies)
    requires forall i | 0 <= i < |bodies| :: Delivers(decode(bodies[i]))
    ensures
      var k := Complete(bodies, |Joined(chunks)|);
      && |EncodeAll(bodies[..k])| <= |Joined(chunks)|
      && FeedAll(Fresh(), chunks, decode)
         == Outcome(bodies[..k], Some(Joined(chunks)[|EncodeAll(bodies[..k])|..]))
  {
    hide Drain, CutProof, FeedAll;
    var n := |Joined(chunks)|;
    assert EncodeAll(bodies)[..n] == Joined(chunks);
    DrainPrefix(bodies, n, decode);
    ChunkInvariance(chunks, decode);
  }

  lemma {:induction false} AllComplete(bodies: seq<string>)
    ensures Complete(bodies, |EncodeAll(bodies)|) == |bodies|
  {
    if bodies != [] {
      AllComplete(bodies[1..]);
    }
  }

  /** Once the whole stream is in, every message is out and the buffer is empty. */
  lemma DeliversAll(bodies: seq<string>, chunks: seq<string>, decode: Decoder)
    requires NonEmpty(chunks) && Joined(chunks) == EncodeAll(bodies)
    requires forall i | 0 <= i < |bodies| :: Delivers(decode(bodies[i]))
    ensures FeedAll(Fresh(), chunks, decode) == Outcome(bodies, Some(""))
  {
    hide FeedAll;
    DeliversCompleteMessages(bodies, chunks, decode);
    AllComplete(bodies);
    assert bodies[..|bodies|] == bodies;
  }

  // ---- negative lengths ----

  lemma NegativeHeader()
    ensures LengthOf(Lines("Content-Length:-1"), Missing) == Length(-1)
  {
    hide IsContentLength, Find;
    var h := "Content-Length:-1";
    assert h == "Content-Length:" + "-1";
    NameIsLowered(h, "-1");
    ColonAt(h, "-1");
    MinusOne();
    SingleLine(h);
  }

  /** A header without carriage returns is one line. */
  lemma SingleLine(h: string)
    requires forall k | 0 <= k < |h| :: h[k] != '\r'
    ensures Lines(h) == [h]
  {
    AtHead(h, "\r\n");
  }

  lemma MinusOne()
    ensures PyInt("-1") == Some(-1)
  {
    assert "-1"[1..] == "1" && Strip("-1") == "-1";
    assert Digits("1") == Some(1);
  }

  lemma ParseNegative(rest: string)
    ensures TryParse("Content-Length:-1" + SEPARATOR + rest) == Message(rest[..Cut(rest, -1)], rest[Cut(rest, -1)..], -1)
  {
    hide LengthOf, Lines, Find;
    var h := "Content-Length:-1";
    var s := h + SEPARATOR + rest;
    NegativeHeader();
    SeparatorFollows(h, rest);
    assert s[..|h|] == h && s[|h| + 4..] == rest;
  }

  /** A negative length: read at once the body is `{}`, read up to there it is `{`, which does not decode. */
  lemma NegativeLengthDependsOnChunks(decode: Decoder)
    requires Delivers(decode("{}")) && Fails(decode("{"))
    ensures
      var start := "Content-Length:-1" + SEPARATOR + "{}";
      && FeedAll(Fresh(), [start + "x"], decode) == Outcome(["{}"], Some("x"))
      && FeedAll(Fresh(), [start, "x"], decode) == Outcome([], None)
  {
    hide TryParse;
    var start := "Content-Length:-1" + SEPARATOR + "{}";
    ParseNegative("{}");
    ParseNegative("{}x");
    assert start + "x" == "Content-Length:-1" + SEPARATOR + "{}x";
    assert "{}x"[..2] == "{}" && "{}x"[2..] == "x" && "{}"[..1] == "{";
    TooShort("x");
    assert Drain("x", decode) == Outcome([], Some("x"));
    assert Drain(start + "x", decode) == Outcome(["{}"], Some("x"));
    assert Drain(start, decode) == Outcome([], None);
    ReadAtOnce(start + "x", [], decode);
    ReadAtOnce(start, ["x"], decode);
    assert [start + "x"] + [] == [start + "x"] && [start] + ["x"] == [start, "x"];
    DeadStaysDead(Outcome([], None), ["x"], decode);
  }

  /** A null message ends the round: what follows it in the same read waits for another one. */
  lemma NullDependsOnChunks(decode: Decoder)
    requires decode("null") == Null && Delivers(decode("{}"))
    ensures
      var first, second := Encode("null"), Encode("{}");
      && FeedAll(Fresh(), [first + second], decode) == Outcome([], Some(second))
      && FeedAll(Fresh(), [first, second], decode) == Outcome(["{}"], Some(""))
  {
    hide TryParse, Encode;
    var first, second := Encode("null"), Encode("{}");
    ParseEncoded("null", second);
    ParseEncoded("null", "");
    ParseEncoded("{}", "");
    assert first + "" == first && second + "" == second;
    TooShort("");
    assert Drain(first + second, decode) == Outcome([], Some(second));
    assert Drain(first, decode) == Fresh();
    assert Drain("", decode) == Fresh();
    assert Drain(second, decode) == Outcome(["{}"] + [], Some(""));
    ReadAtOnce(first + second, [], decode);
    ReadAtOnce(first, [second], decode);
    ReadAtOnce(second, [], decode);
    assert [first + second] + [] == [first + second] && [first] + [second] == [first, second] && [second] + [] == [second];
  }

  // ---- headers ----

  /** On the wire: a header line, an empty line, the body. */
  lemma EncodedExample()
    ensures Encode("{}") == "Content-Length: 2\r\n\r\n{}"
  {
  }

  /** A line is a content-length line if it begins with that name and a colon, in any case of its letters. */
  lemma ContentLengthIff(line: string)
    ensures IsContentLength(line) <==>
      |line| >= 15 && forall k | 0 <= k < 15 :: line[k] == "content-length:"[k] || line[k] == "CONTENT-LENGTH:"[k]
  {
    var w := "content-length:";
    forall k | 0 <= k < 15 && k < |line|
      ensures Lower(line)[k] == w[k] <==> line[k] == w[k] || line[k] == "CONTENT-LENGTH:"[k]
    {
      LowerIs(line[k], w[k], "CONTENT-LENGTH:"[k], k);
    }
  }

  lemma LowerIs(c: char, low: char, up: char, k: nat)
    requires k < 15 && low == "content-length:"[k] && up == "CONTENT-LENGTH:"[k]
    ensures LowerChar(c) == low <==> c == low || c == up
  {
    assert ('a' <= low <= 'z' && up as int == low as int - 32) || (low == up && !('a' <= low <= 'z'));
  }

  ghost predicate Unreadable(line: string) {
    IsContentLength(line) && PyInt(AfterColon(line)).None?
  }

  /** Among several lines: any unreadable content length raises, otherwise the last one counts, otherwise there is none. */
  lemma {:induction false} LengthOfLines(lines: seq<string>, sofar: Length)
    ensures (exists i | 0 <= i < |lines| :: Unreadable(lines[i])) ==> LengthOf(lines, sofar) == Bad
    ensures (forall i | 0 <= i < |lines| :: !IsContentLength(lines[i])) ==> LengthOf(lines, sofar) == sofar
    ensures (forall i | 0 <= i < |lines| :: !Unreadable(lines[i])) ==>
      forall j | 0 <= j < |lines| && IsContentLength(lines[j]) && (forall i | j < i < |lines| :: !IsContentLength(lines[i])) ::
        LengthOf(lines, sofar) == Length(PyInt(AfterColon(lines[j])).value)
  {
    hide IsContentLength, PyInt, AfterColon;
    if lines != [] {
      var next := if IsContentLength(lines[0]) && PyInt(AfterColon(lines[0])).Some?
        then Length(PyInt(AfterColon(lines[0])).value) else sofar;
      LengthOfLines(lines[1..], next);
      if i :| 0 <= i < |lines| && Unreadable(lines[i]) {
        assert i > 0 ==> Unreadable(lines[1..][i - 1]);
      }
      assert forall i | 0 <= i < |lines[1..]| :: lines[1..][i] == lines[i + 1];
      if forall i | 0 <= i < |lines| :: !Unreadable(lines[i]) {
        forall j | 0 <= j < |lines| && IsContentLength(lines[j]) && (forall i | j < i < |lines| :: !IsContentLength(lines[i]))
          ensures LengthOf(lines, sofar) == Length(PyInt(AfterColon(lines[j])).value)
        {
          if j > 0 {
            assert lines[1..][j - 1] == lines[j];
          }
        }
      }
    }
  }

  /** The white space of ASCII. */
  const BLANKS: string := " \t\n\U{0B}\U{0C}\r"

  predicate Blank(s: string) {
    forall k | 0 <= k < |s| :: s[k] in BLANKS
  }

  lemma SpaceIs(c: char)
    ensures Space(c) <==> c in BLANKS
  {
  }

  lemma {:induction false} LeftStripBlank(a: string, s: string)
    requires Blank(a) && (s == "" || !Space(s[0]))
    ensures LeftStrip(a + s) == s
  {
    if a == "" {
      assert a + s == s;
    } else {
      LeftStripBlank(a[1..], s);
      SpaceIs(a[0]);
      assert (a + s)[1..] == a[1..] + s;
    }
  }

  lemma {:induction false} RightStripBlank(s: string, b: string)
    requires Blank(b) && (s == "" || !Space(Last(s)))
    ensures RightStrip(s + b) == s
  {
    if b == "" {
      assert s + b == s;
    } else {
      RightStripBlank(s, Front(b));
      SpaceIs(Last(b));
      assert Front(s + b) == s + Front(b);
    }
  }

  lemma StripBlank(a: string, s: string, b: string)
    requires Blank(a) && Blank(b) && s != "" && !Space(s[0]) && !Space(Last(s))
    ensures Strip(a + s + b) == s
  {
    assert a + s + b == a + (s + b);
    LeftStripBlank(a, s + b);
    RightStripBlank(s, b);
  }

  lemma {:induction false} LeftStripped(s: string) returns (a: string)
    ensures Blank(a) && s == a + LeftStrip(s)
    ensures LeftStrip(s) == "" || !Space(LeftStrip(s)[0])
  {
    a := "";
    if s != "" && Space(s[0]) {
      SpaceIs(s[0]);
      var more := LeftStripped(s[1..]);
      a := [s[0]] + more;
    }
  }

  lemma {:induction false} RightStripped(s: string) returns (b: string)
    ensures Blank(b) && s == RightStrip(s) + b
    decreases |s|
  {
    b := "";
    if s != "" && Space(Last(s)) {
      SpaceIs(Last(s));
      var more := RightStripped(Front(s));
      b := more + [Last(s)];
    }
  }

  /** Digits, with or without a sign. */
  predicate Signed(t: string, v: int) {
    t != "" &&
    if t[0] in "+-" then Digits(t[1..]).Some? && v == (if t[0] == '-' then 0 - Digits(t[1..]).value as int else Digits(t[1..]).value)
    else Digits(t).Some? && v == Digits(t).value
  }

  predicate ReadsAs(s: string, a: string, t: string, b: string, v: int) {
    s == a + t + b && Blank(a) && Blank(b) && Signed(t, v)
  }

  /** A number is read with blanks around it and with a sign, and nothing else is. */
  lemma PyIntIff(s: string, v: int)
    ensures PyInt(s) == Some(v) <==> exists a, t, b :: ReadsAs(s, a, t, b, v)
  {
    hide Strip, Digits;
    if PyInt(s) == Some(v) {
      StripReads(s, v);
    }
    if a, t, b :| ReadsAs(s, a, t, b, v) {
      SignedEnds(t, v);
      StripBlank(a, t, b);
    }
  }

  lemma StripReads(s: string, v: int)
    requires PyInt(s) == Some(v)
    ensures exists a, t, b :: ReadsAs(s, a, t, b, v)
  {
    hide Digits;
    var a := LeftStripped(s);
    var b := RightStripped(LeftStrip(s));
    assert s == a + Strip(s) + b;
    assert ReadsAs(s, a, Strip(s), b, v);
  }

  lemma SignedEnds(t: string, v: int)
    requires Signed(t, v)
    ensures t != "" && !Space(t[0]) && !Space(Last(t))
  {
    DigitsRefuse(t);
    DigitsRefuse(t[1..]);
  }

  /** The value of digits and underscores, read from the left. */
  function ValueOf(s: string, sofar: nat): nat {
    if s == "" then sofar
    else ValueOf(s[1..], if IsDigit(s[0]) then 10 * sofar + (s[0] - '0') as nat else sofar)
  }

  lemma {:induction false} ValueSnoc(s: string, c: char, sofar: nat)
    ensures ValueOf(s + [c], sofar) == if IsDigit(c) then 10 * ValueOf(s, sofar) + (c - '0') as nat else ValueOf(s, sofar)
  {
    if s != "" {
      ValueSnoc(s[1..], c, if IsDigit(s[0]) then 10 * sofar + (s[0] - '0') as nat else sofar);
      assert (s + [c])[1..] == s[1..] + [c];
    }
  }

  /** Digits count as in decimal notation, underscores not at all. */
  lemma {:induction false} DigitsCount(s: string)
    requires Digits(s).Some?
    ensures Digits(s).value == ValueOf(s, 0)
    decreases |s|
  {
    var f := Front(s);
    assert s == f + [Last(s)];
    ValueSnoc(f, Last(s), 0);
    if f != "" {
      if Last(f) == '_' {
        DigitsCount(Front(f));
        assert f == Front(f) + ['_'];
        ValueSnoc(Front(f), '_', 0);
      } else {
        DigitsCount(f);
      }
    }
  }

  /** Nothing but digits, separated by single underscores. */
  lemma {:induction false} DigitsRefuse(s: string)
    ensures Digits(s).Some? <==>
      && s != "" && IsDigit(s[0]) && IsDigit(Last(s))
      && (forall k | 0 <= k < |s| :: IsDigit(s[k]) || s[k] == '_')
      && (forall k | 0 < k < |s| :: !(s[k - 1] == '_' && s[k] == '_'))
    decreases |s|
  {
    if s != "" && IsDigit(Last(s)) && Front(s) != "" {
      var f := Front(s);
      assert s == f + [Last(s)];
      if Last(f) == '_' {
        DigitsRefuse(Front(f));
        assert f == Front(f) + ['_'];
        if Front(f) != "" {
          assert Last(Front(f)) == s[|s| - 3] && s[|s| - 2] == '_';
        }
      } else {
        DigitsRefuse(f);
      }
    }
  }
}
