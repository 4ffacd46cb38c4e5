/** What the hierarchy cache is for: a saved file loads back, and nothing else passes for one. */
module CacheResults {
  import opened Common
  import opened CacheModel
  import opened CacheProofs
  import opened Utf8

  // ---- what is lost by saving ----

  lemma NormalWritesTheSame(e: Entry)
    ensures WriteEntry(Normal(e)) == WriteEntry(e)
    ensures Normal(Normal(e)) == Normal(e)
  {
    assert Le(0, 2) + [] == Le(0, 2);
    assert forall o: Option<Text> :: WriteOptString(NormalOpt(o)) == WriteOptString(o);
  }

  lemma {:induction false} NormalAllWritesTheSame(es: seq<Entry>)
    ensures WriteEntries(NormalAll(es)) == WriteEntries(es)
    ensures AllNormal(NormalAll(es))
  {
    forall i | 0 <= i < |es| ensures Normal(NormalAll(es)[i]) == NormalAll(es)[i] {
      NormalWritesTheSame(es[i]);
    }
    if es != [] {
      NormalWritesTheSame(es[0]);
      NormalAllWritesTheSame(es[1..]);
      assert NormalAll(es)[1..] == NormalAll(es[1..]);
    }
  }

  lemma ThenAssociates(a: Written, b: Written, c: Written)
    ensures Then(a, Then(b, c)) == Then(Then(a, b), c)
  {
    assert a.bytes + (b.bytes + c.bytes) == (a.bytes + b.bytes) + c.bytes;
  }

  lemma {:induction false} WriteEntriesSplit(es: seq<Entry>, n: nat)
    requires n <= |es|
    ensures WriteEntries(es) == Then(WriteEntries(es[..n]), WriteEntries(es[n..]))
  {
    hide WriteEntry;
    if n == 0 {
      assert es[0..] == es && es[..0] == [];
      assert [] + WriteEntries(es).bytes == WriteEntries(es).bytes;
    } else {
      WriteEntriesSplit(es[1..], n - 1);
      assert es[1..][..n - 1] == es[..n][1..] && es[1..][n - 1..] == es[n..];
      ThenAssociates(WriteEntry(es[0]), WriteEntries(es[..n][1..]), WriteEntries(es[n..]));
    }
  }

  // ---- parsing is a function of the file ----

  lemma ParsesOnce(data: Bytes, a: Loaded, b: Loaded)
    requires Parses(data, a) && Parses(data, b)
    ensures a == b
  {
  }

  /** A file that was saved as `l` loads to `l`, or to nothing when an identity check fails. */
  lemma SavedLoads(data: Bytes, mtime: Option<U64>, source: Option<Text>, l: Loaded)
    requires SavedAs(data, l)
    ensures Load(data, mtime, source)
         == if SourceAccepted(l.source, source) && MtimeAccepted(l.mtime, mtime) then Some(l) else None
  {
    LoadsExactlyWhatWasSaved(data, mtime, source, l);
    if Load(data, mtime, source).Some? {
      var other := Load(data, mtime, source).value;
      LoadParses(data, mtime, source, other);
      ParsesIsSaved(data, l);
      ParsesOnce(data, l, other);
    }
  }

  /** The file with its last entries missing is a prefix, and has the same header if the count field cannot tell. */
  lemma SavePrefix(es: seq<Entry>, mtime: Option<U64>, source: Option<Text>, n: nat)
    requires n <= |es| && n % U32_LIMIT == |es| % U32_LIMIT
    ensures Save(es, mtime, source) == Then(Save(es[..n], mtime, source), WriteEntries(es[n..]))
  {
    var header, src := Raw(FixedHeader(MtimeField(mtime), |es|)), WriteString(OrEmpty(source));
    var body, rest := WriteEntries(es[..n]), WriteEntries(es[n..]);
    WriteEntriesSplit(es, n);
    ThenAssociates(src, body, rest);
    ThenAssociates(header, Then(src, body), rest);
  }

  lemma SavedAsNormal(data: Bytes, es: seq<Entry>, mtime: Option<U64>, source: Option<Text>, rest: Written)
    requires |es| < U32_LIMIT && Save(es, mtime, source).ok && data == Save(es, mtime, source).bytes + rest.bytes
    ensures SavedAs(data, Loaded(NormalAll(es), MtimeField(mtime), OrEmpty(source), |Save(es, mtime, source).bytes|))
  {
    NormalAllWritesTheSame(es);
    var w := Save(es, mtime, source);
    assert Save(NormalAll(es), MtimeOf(MtimeField(mtime)), Some(OrEmpty(source))) == w;
    assert data[..|w.bytes|] == w.bytes;
  }

  lemma NormalLoads(data: Bytes, es: seq<Entry>, savedMtime: Option<U64>, savedSource: Option<Text>, rest: Written,
                    mtime: Option<U64>, source: Option<Text>)
    requires |es| < U32_LIMIT
    requires Save(es, savedMtime, savedSource).ok && data == Save(es, savedMtime, savedSource).bytes + rest.bytes
    ensures Load(data, mtime, source) ==
        if SourceAccepted(OrEmpty(savedSource), source) && MtimeAccepted(MtimeField(savedMtime), mtime)
        then Some(Loaded(NormalAll(es), MtimeField(savedMtime), OrEmpty(savedSource),
                         |Save(es, savedMtime, savedSource).bytes|))
        else None
  {
    SavedAsNormal(data, es, savedMtime, savedSource, rest);
    SavedLoads(data, mtime, source, Loaded(NormalAll(es), MtimeField(savedMtime), OrEmpty(savedSource),
                                           |Save(es, savedMtime, savedSource).bytes|));
  }

  /** A save that ends among the entries the count field tells of leaves the same bytes as saving only those. */
  lemma SaveUpToCount(es: seq<Entry>, mtime: Option<U64>, source: Option<Text>)
    ensures var part := Save(es[..|es| % U32_LIMIT], mtime, source);
      && (part.ok ==> Save(es, mtime, source).bytes == part.bytes + WriteEntries(es[|es| % U32_LIMIT..]).bytes)
      && (!part.ok ==> Save(es, mtime, source) == part)
      && (Save(es, mtime, source).ok ==> part.ok)
  {
    hide Save;
    SavePrefix(es, mtime, source, |es| % U32_LIMIT);
  }

  /**
   * Round trip, whether or not the save succeeded. Let n be the number of entries modulo 2^32. The
   * file loads exactly when its first n entries were written in full and source and mtime agree, and
   * then gives those n entries in order, with empty optional strings absent.
   */
  lemma RoundTrip(es: seq<Entry>, savedMtime: Option<U64>, savedSource: Option<Text>, mtime: Option<U64>, source: Option<Text>)
    ensures
      var part := es[..|es| % U32_LIMIT];
      Load(Save(es, savedMtime, savedSource).bytes, mtime, source) ==
        if && Save(part, savedMtime, savedSource).ok
           && SourceAccepted(OrEmpty(savedSource), source) && MtimeAccepted(MtimeField(savedMtime), mtime)
        then Some(Loaded(NormalAll(part), MtimeField(savedMtime), OrEmpty(savedSource),
                         |Save(part, savedMtime, savedSource).bytes|))
        else None
  {
    hide Load, Save;
    var n := |es| % U32_LIMIT;
    SaveUpToCount(es, savedMtime, savedSource);
    if Save(es[..n], savedMtime, savedSource).ok {
      NormalLoads(Save(es, savedMtime, savedSource).bytes, es[..n], savedMtime, savedSource, WriteEntries(es[n..]), mtime, source);
    } else {
      FailedSaveNeverLoads(es[..n], savedMtime, savedSource, mtime, source);
    }
  }

  /** The entries that the count field of a file tells of. */
  function CountedPart(es: seq<Entry>): seq<Entry> {
    es[..|es| % U32_LIMIT]
  }

  /**
   * A save that failed leaves a file that is taken for a cache exactly when it failed only behind the
   * entries its count field tells of, which takes at least 2^32 entries.
   */
  lemma FailedSaveLoadsIff(es: seq<Entry>, mtime: Option<U64>, source: Option<Text>)
    requires !Save(es, mtime, source).ok
    ensures Load(Save(es, mtime, source).bytes, mtime, source).Some? <==> Save(CountedPart(es), mtime, source).ok
    ensures Load(Save(es, mtime, source).bytes, mtime, source).Some? ==> |es| >= U32_LIMIT
  {
    hide Load, Save;
    RoundTrip(es, mtime, source, mtime, source);
    if |es| < U32_LIMIT {
      assert CountedPart(es) == es;
    }
  }

  /**
   When a cache is stale: a file that was saved is refused if and only if both modification times are
   known and differ, or both sources are named and differ.
   */
  lemma StaleIff(es: seq<Entry>, savedMtime: Option<U64>, savedSource: Option<Text>, mtime: Option<U64>, source: Option<Text>)
    requires Save(es, savedMtime, savedSource).ok
    ensures Load(Save(es, savedMtime, savedSource).bytes, mtime, source).None? <==>
      || (savedMtime.Some? && savedMtime.value != U64_MAX && mtime.Some? && mtime.value != savedMtime.value)
      || (savedSource.Some? && source.Some? && savedSource.value != [] && source.value != [] && source.value != savedSource.value)
  {
    hide Load, Save;
    SaveUpToCount(es, savedMtime, savedSource);
    RoundTrip(es, savedMtime, savedSource, mtime, source);
  }

  // ---- the layout itself ----

  lemma LeTwo(n: nat)
    requires n < 0x1_0000
    ensures Le(n, 2) == [n % 256, n / 256]
  {
    assert Le(n / 256, 1) == [n / 256 % 256] + Le(n / 256 / 256, 0);
  }

  lemma LeFour(n: nat)
    requires n < U32_LIMIT
    ensures Le(n, 4) == [n % 256, n / 256 % 256, n / 65536 % 256, n / 16777216]
  {
    assert Le(n, 4) == [n % 256] + Le(n / 256, 3);
    assert Le(n / 256, 3) == [n / 256 % 256] + Le(n / 65536, 2);
    LeTwo(n / 65536);
  }

  /** A string with its length in two bytes, the low one first; an absent one like an empty one. */
  function Field(s: Option<Text>): Bytes
    requires s.Some? ==> |s.value| < 0x1_0000
  {
    match s
    case None => [0, 0]
    case Some(t) => [|t| % 256, |t| / 256] + t
  }

  /** A 32-bit number, low byte first, negative ones in two's complement. */
  function Four(i: int): Bytes {
    var n := i % U32_LIMIT;
    [n % 256, n / 256 % 256, n / 65536 % 256, n / 16777216]
  }

  /** An entry is its path, module name and type, each with its length, then level and width. */
  lemma EntryLayout(e: Entry)
    requires WriteEntry(e).ok
    ensures |e.path| < 0x1_0000 && (e.moduleName.Some? ==> |e.moduleName.value| < 0x1_0000)
    ensures e.sigType.Some? ==> |e.sigType.value| < 0x1_0000
    ensures WriteEntry(e).bytes ==
      Field(Some(e.path)) + Field(e.moduleName) + Field(e.sigType) + Four(e.level) + Four(e.bitwidth)
  {
    hide Le, Four;
    FieldLayout(Some(e.path));
    FieldLayout(e.moduleName);
    FieldLayout(e.sigType);
    FourLayout(e.level);
    FourLayout(e.bitwidth);
  }

  lemma FieldLayout(s: Option<Text>)
    requires WriteOptString(s).ok
    ensures (s.Some? ==> |s.value| < 0x1_0000) && WriteOptString(s).bytes == Field(s)
  {
    hide Le;
    LeTwo(0);
    if s.Some? {
      LeTwo(|s.value|);
    }
  }

  lemma FourLayout(i: Int32)
    ensures Le(Unsigned32(i), 4) == Four(i)
  {
    LeFour(Unsigned32(i));
  }

  lemma HeaderLayout(mtime: U64, n: nat)
    ensures FixedHeader(mtime, n) == [0x32, 0x49, 0x48, 0x56] + Le(mtime, 8) + Four(n)
  {
    LeFour(MAGIC);
    LeFour(n % U32_LIMIT);
    hide Le;
  }

  lemma SourceLayout(source: Option<Text>)
    requires WriteString(OrEmpty(source)).ok
    ensures (source.Some? ==> |source.value| < 0x1_0000) && WriteString(OrEmpty(source)) == Raw(Field(source))
  {
    hide Le;
    LeTwo(|OrEmpty(source)|);
    assert [0, 0] + [] == [0, 0];
  }

  /** A file is a magic number, the time (all ones if unknown), the count modulo 2^32, the source, and the entries. */
  lemma FileLayout(es: seq<Entry>, mtime: Option<U64>, source: Option<Text>)
    requires Save(es, mtime, source).ok
    ensures source.Some? ==> |source.value| < 0x1_0000
    ensures Save(es, mtime, source).bytes ==
      [0x32, 0x49, 0x48, 0x56] + Le(if mtime.Some? then mtime.value else U64_MAX, 8) + Four(|es|)
      + Field(source) + WriteEntries(es).bytes
  {
    hide Le, WriteEntries, FixedHeader, WriteString, Field, Four, OrEmpty;
    var header := FixedHeader(MtimeField(mtime), |es|);
    HeaderLayout(MtimeField(mtime), |es|);
    SourceLayout(source);
    assert header + (Field(source) + WriteEntries(es).bytes) == header + Field(source) + WriteEntries(es).bytes;
  }

  lemma CountFits(es: seq<Entry>)
    ensures NormalAll(es[..|es| % U32_LIMIT]) == NormalAll(es) <==> |es| < U32_LIMIT
  {
    var n := |es| % U32_LIMIT;
    if |es| < U32_LIMIT {
      assert es[..n] == es;
    } else {
      assert |NormalAll(es[..n])| == n < |es| == |NormalAll(es)|;
    }
  }

  /** All entries come back exactly when the count fits its 32-bit field. */
  lemma AllEntriesComeBackIff(es: seq<Entry>, mtime: Option<U64>, source: Option<Text>)
    requires Save(es, mtime, source).ok
    ensures
      var loaded := Load(Save(es, mtime, source).bytes, mtime, source);
      && loaded.Some?
      && (loaded.value.entries == NormalAll(es) <==> |es| < U32_LIMIT)
  {
    hide Load, Save;
    RoundTrip(es, mtime, source, mtime, source);
    SaveUpToCount(es, mtime, source);
    CountFits(es);
  }

  /** Bytes after the consumed prefix are ignored; a file cut anywhere inside it is rejected. */
  lemma CutFile(data: Bytes, mtime: Option<U64>, source: Option<Text>, n: nat)
    requires n <= |data|
    ensures match Load(data, mtime, source)
      case None => true
      case Some(l) => Load(data[..n], mtime, source) == if l.consumed <= n then Some(l) else None
  {
    if Load(data, mtime, source).Some? {
      var l := Load(data, mtime, source).value;
      LoadsExactlyWhatWasSaved(data, mtime, source, l);
      if l.consumed <= n {
        assert data[..n][..l.consumed] == data[..l.consumed];
        LoadsExactlyWhatWasSaved(data[..n], mtime, source, l);
      } else if Load(data[..n], mtime, source).Some? {
        var cut := Load(data[..n], mtime, source).value;
        LoadsExactlyWhatWasSaved(data[..n], mtime, source, cut);
        assert data[..n][..cut.consumed] == data[..cut.consumed];
        LoadsExactlyWhatWasSaved(data, mtime, source, cut);
        assert false;
      }
    }
  }

  // ---- a save that failed ----

  lemma NothingAtTheEnd(data: Bytes)
    ensures ReadString(data, |data|).Fail? && ReadOptString(data, |data|).Fail?
  {
  }

  lemma FailedTyped(data: Bytes, pos: nat, e: Entry)
    requires Normal(e) == e
    requires var w := Then(WriteOptString(e.sigType), Raw(Numbers(e)));
      !w.ok && At(data, pos, w.bytes) && |data| == pos + |w.bytes|
    ensures ReadTyped(data, pos).Fail?
  {
    NothingAtTheEnd(data);
  }

  lemma FailedNamed(data: Bytes, pos: nat, e: Entry)
    requires Normal(e) == e
    requires var w := Then(WriteOptString(e.moduleName), Then(WriteOptString(e.sigType), Raw(Numbers(e))));
      !w.ok && At(data, pos, w.bytes) && |data| == pos + |w.bytes|
    ensures ReadNamed(data, pos).Fail?
  {
    NothingAtTheEnd(data);
    var first := WriteOptString(e.moduleName);
    if first.ok {
      var rest := Then(WriteOptString(e.sigType), Raw(Numbers(e)));
      AtConcat(data, pos, first.bytes, rest.bytes);
      ReadOptStringInverse(data, pos, e.moduleName);
      FailedTyped(data, pos + |first.bytes|, e);
    }
  }

  lemma ReadEntryFails(data: Bytes, pos: nat)
    ensures
      var r := ReadString(data, pos);
      r.Fail? || ReadNamed(data, r.pos).Fail? ==> ReadEntry(data, pos).Fail?
  {
  }

  lemma FailedEntry(data: Bytes, pos: nat, e: Entry)
    requires Normal(e) == e
    requires !WriteEntry(e).ok && At(data, pos, WriteEntry(e).bytes) && |data| == pos + |WriteEntry(e).bytes|
    ensures ReadEntry(data, pos).Fail?
  {
    hide ReadEntry, ReadNamed, ValidUtf8;
    NothingAtTheEnd(data);
    ReadEntryFails(data, pos);
    var first := WriteString(e.path);
    if first.ok {
      var rest := Then(WriteOptString(e.moduleName), Then(WriteOptString(e.sigType), Raw(Numbers(e))));
      AtConcat(data, pos, first.bytes, rest.bytes);
      ReadStringInverse(data, pos, e.path);
      FailedNamed(data, pos + |first.bytes|, e);
    }
  }

  lemma FirstEntryFails(data: Bytes, pos: nat, n: nat)
    requires n > 0
    ensures var r := ReadEntry(data, pos);
      r.Fail? || ReadEntries(data, r.pos, n - 1).Fail? ==> ReadEntries(data, pos, n).Fail?
  {
    hide ReadEntry;
  }

  lemma RestFails(data: Bytes, pos: nat, e: Entry, n: nat)
    requires Normal(e) == e && WriteEntry(e).ok && At(data, pos, WriteEntry(e).bytes)
    requires ReadEntries(data, pos + |WriteEntry(e).bytes|, n).Fail?
    ensures ReadEntries(data, pos, n + 1).Fail?
  {
    hide ReadEntry, WriteEntry;
    ReadEntryInverse(data, pos, e);
    FirstEntryFails(data, pos, n + 1);
  }

  lemma {:induction false} FailedEntries(data: Bytes, pos: nat, es: seq<Entry>)
    requires AllNormal(es) && !WriteEntries(es).ok
    requires At(data, pos, WriteEntries(es).bytes) && |data| == pos + |WriteEntries(es).bytes|
    ensures ReadEntries(data, pos, |es|).Fail?
    decreases |es|
  {
    hide ReadEntry, WriteEntry;
    if WriteEntry(es[0]).ok {
      FailedLater(data, pos, WriteEntry(es[0]), WriteEntries(es[1..]));
      FailedEntries(data, pos + |WriteEntry(es[0]).bytes|, es[1..]);
      RestFails(data, pos, es[0], |es| - 1);
    } else {
      FailedEntry(data, pos, es[0]);
      FirstEntryFails(data, pos, |es|);
    }
  }

  lemma FailedLater(data: Bytes, pos: nat, first: Written, rest: Written)
    requires first.ok && At(data, pos, Then(first, rest).bytes) && |data| == pos + |Then(first, rest).bytes|
    ensures At(data, pos, first.bytes) && At(data, pos + |first.bytes|, rest.bytes)
    ensures |data| == pos + |first.bytes| + |rest.bytes|
  {
    AtConcat(data, pos, first.bytes, rest.bytes);
  }

  /** What a failed save of a countable number of entries leaves behind is never taken for a cache. */
  lemma FailedSaveNeverLoads(es: seq<Entry>, savedMtime: Option<U64>, savedSource: Option<Text>,
                             mtime: Option<U64>, source: Option<Text>)
    requires |es| < U32_LIMIT
    requires !Save(es, savedMtime, savedSource).ok
    ensures Load(Save(es, savedMtime, savedSource).bytes, mtime, source) == None
  {
    var data := Save(es, savedMtime, savedSource).bytes;
    var loaded := Load(data, mtime, source);
    if loaded.Some? {
      LoadParses(data, mtime, source, loaded.value);
      FailedParse(es, savedMtime, savedSource, loaded.value);
    }
  }

  lemma FailedParse(es: seq<Entry>, mtime: Option<U64>, source: Option<Text>, l: Loaded)
    requires |es| < U32_LIMIT
    requires !Save(es, mtime, source).ok
    ensures !Parses(Save(es, mtime, source).bytes, l)
  {
    hide WriteEntry;
    var data := Save(es, mtime, source).bytes;
    var header, src := FixedHeader(MtimeField(mtime), |es|), WriteString(OrEmpty(source));
    var body := WriteEntries(es);
    AtIsSlice(data, 0, data);
    assert data[0..|data|] == data;
    AtConcat(data, 0, header, Then(src, body).bytes);
    if src.ok {
      AtConcat(data, 16, src.bytes, body.bytes);
      ReadStringInverse(data, 16, OrEmpty(source));
      HeaderInverse(data, MtimeField(mtime), |es|);
      NormalAllWritesTheSame(es);
      FailedEntries(data, 16 + |src.bytes|, NormalAll(es));
    } else {
      assert data == header + [];
      NothingAtTheEnd(data);
    }
  }
}
