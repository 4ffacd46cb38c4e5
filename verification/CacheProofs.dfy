/** The reader is the exact inverse of the writer, on every byte string and from every position. */
module CacheProofs {
  import opened Common
  import opened CacheModel
  import opened Utf8

  // ---- numbers ----

  lemma {:induction false} LeThenFromLe(n: nat, k: nat)
    requires n < Pow256(k)
    ensures FromLe(Le(n, k)) == n
  {
    if k > 0 {
      LeThenFromLe(n / 256, k - 1);
      assert Le(n, k)[1..] == Le(n / 256, k - 1);
    }
  }

  lemma {:induction false} FromLeThenLe(b: Bytes)
    ensures Le(FromLe(b), |b|) == b
  {
    if b != [] {
      FromLeThenLe(b[1..]);
      assert FromLe(b) % 256 == b[0] && FromLe(b) / 256 == FromLe(b[1..]);
      assert b == [b[0]] + b[1..];
    }
  }

  // ---- a piece of a file ----

  predicate At(data: Bytes, pos: nat, piece: Bytes) {
    pos + |piece| <= |data| && forall i | 0 <= i < |piece| :: data[pos + i] == piece[i]
  }

  lemma AtIsSlice(data: Bytes, pos: nat, piece: Bytes)
    ensures At(data, pos, piece) <==> pos + |piece| <= |data| && data[pos..pos + |piece|] == piece
  {
    if pos + |piece| <= |data| {
      var slice := data[pos..pos + |piece|];
      assert forall i | 0 <= i < |piece| :: slice[i] == data[pos + i];
    }
  }

  lemma AtConcat(data: Bytes, pos: nat, a: Bytes, b: Bytes)
    ensures At(data, pos, a + b) <==> At(data, pos, a) && At(data, pos + |a|, b)
  {
    if At(data, pos, a) && At(data, pos + |a|, b) {
    } else if At(data, pos, a + b) {
      forall i | 0 <= i < |a| ensures data[pos + i] == a[i] {
        assert (a + b)[i] == a[i];
      }
      forall i | 0 <= i < |b| ensures data[pos + |a| + i] == b[i] {
        assert (a + b)[|a| + i] == b[i];
      }
    }
  }

  /** Reading at `pos` gives `v` exactly when the bytes written for `v` stand there, and then stops right after them. */
  ghost predicate Inverse<T>(got: Read<T>, v: T, w: Written, data: Bytes, pos: nat) {
    && (got.Got? && got.value == v <==> w.ok && At(data, pos, w.bytes))
    && (got.Got? && got.value == v ==> got.pos == pos + |w.bytes|)
  }

  lemma ReadLeBound(data: Bytes, pos: nat, k: nat)
    ensures match ReadLe(data, pos, k) case Fail => true case Got(n, p) => n < Pow256(k) && p == pos + k <= |data|
  {
    if pos + k <= |data| {
      LeBound(data[pos..pos + k]);
    }
  }

  lemma ReadLeInverse(data: Bytes, pos: nat, k: nat, n: nat)
    requires n < Pow256(k)
    ensures Inverse(ReadLe(data, pos, k), n, Raw(Le(n, k)), data, pos)
  {
    LeThenFromLe(n, k);
    AtIsSlice(data, pos, Le(n, k));
    if pos + k <= |data| {
      FromLeThenLe(data[pos..pos + k]);
    }
  }

  lemma ReadInt32Inverse(data: Bytes, pos: nat, i: Int32)
    ensures Inverse(ReadInt32(data, pos), i, Raw(Le(Unsigned32(i), 4)), data, pos)
  {
    LeBound([]);
    ReadLeInverse(data, pos, 4, Unsigned32(i));
    ReadLeBound(data, pos, 4);
  }

  lemma ReadStringInverse(data: Bytes, pos: nat, s: Text)
    ensures Inverse(ReadString(data, pos), s, WriteString(s), data, pos)
  {
    LeBound([]);
    ReadLeBound(data, pos, 2);
    if |s| <= U16_MAX {
      ReadLeInverse(data, pos, 2, |s|);
      AtConcat(data, pos, Le(|s|, 2), s);
      AtIsSlice(data, pos + 2, s);
    }
  }

  lemma ReadOptStringInverse(data: Bytes, pos: nat, o: Option<Text>)
    requires o != Some([])
    ensures Inverse(ReadOptString(data, pos), o, WriteOptString(o), data, pos)
  {
    LeBound([]);
    ReadLeBound(data, pos, 2);
    match o
    case None =>
      ReadLeInverse(data, pos, 2, 0);
    case Some(s) =>
      if |s| <= U16_MAX {
        ReadLeInverse(data, pos, 2, |s|);
        AtConcat(data, pos, Le(|s|, 2), s);
        AtIsSlice(data, pos + 2, s);
      }
  }

  // ---- entries ----

  /** Two reads in a row, the second one where the first stopped. */
  function Both<A, B>(first: Read<A>, second: Read<B>): Read<(A, B)> {
    if first.Got? && second.Got? then Got((first.value, second.value), second.pos) else Fail
  }

  lemma BothInverse<A, B>(first: Read<A>, a: A, v: Written, second: Read<B>, b: B, w: Written, data: Bytes, pos: nat)
    requires Inverse(first, a, v, data, pos)
    requires first.Got? && first.value == a ==> Inverse(second, b, w, data, first.pos)
    ensures Inverse(Both(first, second), (a, b), Then(v, w), data, pos)
  {
    AtConcat(data, pos, v.bytes, w.bytes);
  }

  function ReadNumbers(data: Bytes, pos: nat): Read<(Int32, Int32)> {
    var r := ReadInt32(data, pos);
    if r.Fail? then Fail else Both(r, ReadInt32(data, r.pos))
  }

  function ReadTyped(data: Bytes, pos: nat): Read<(Option<Text>, (Int32, Int32))> {
    var r := ReadOptString(data, pos);
    if r.Fail? then Fail else Both(r, ReadNumbers(data, r.pos))
  }

  function ReadNamed(data: Bytes, pos: nat): Read<(Option<Text>, (Option<Text>, (Int32, Int32)))> {
    var r := ReadOptString(data, pos);
    if r.Fail? then Fail else Both(r, ReadTyped(data, r.pos))
  }

  lemma ReadNumbersInverse(data: Bytes, pos: nat, e: Entry)
    ensures Inverse(ReadNumbers(data, pos), (e.level, e.bitwidth), Raw(Numbers(e)), data, pos)
  {
    var r := ReadInt32(data, pos);
    ReadInt32Inverse(data, pos, e.level);
    if r.Got? {
      ReadInt32Inverse(data, r.pos, e.bitwidth);
      BothInverse(r, e.level, Raw(Le(Unsigned32(e.level), 4)),
                  ReadInt32(data, r.pos), e.bitwidth, Raw(Le(Unsigned32(e.bitwidth), 4)), data, pos);
    } else {
      AtConcat(data, pos, Le(Unsigned32(e.level), 4), Le(Unsigned32(e.bitwidth), 4));
    }
  }

  lemma ReadTypedInverse(data: Bytes, pos: nat, e: Entry)
    requires Normal(e) == e
    ensures Inverse(ReadTyped(data, pos), (e.sigType, (e.level, e.bitwidth)),
                    Then(WriteOptString(e.sigType), Raw(Numbers(e))), data, pos)
  {
    var r := ReadOptString(data, pos);
    ReadOptStringInverse(data, pos, e.sigType);
    if r.Got? {
      ReadNumbersInverse(data, r.pos, e);
    }
    BothInverse(r, e.sigType, WriteOptString(e.sigType), if r.Got? then ReadNumbers(data, r.pos) else Fail,
                (e.level, e.bitwidth), Raw(Numbers(e)), data, pos);
  }

  lemma ReadNamedInverse(data: Bytes, pos: nat, e: Entry)
    requires Normal(e) == e
    ensures Inverse(ReadNamed(data, pos), (e.moduleName, (e.sigType, (e.level, e.bitwidth))),
                    Then(WriteOptString(e.moduleName), Then(WriteOptString(e.sigType), Raw(Numbers(e)))), data, pos)
  {
    var r := ReadOptString(data, pos);
    ReadOptStringInverse(data, pos, e.moduleName);
    if r.Got? {
      ReadTypedInverse(data, r.pos, e);
    }
    BothInverse(r, e.moduleName, WriteOptString(e.moduleName), if r.Got? then ReadTyped(data, r.pos) else Fail,
                (e.sigType, (e.level, e.bitwidth)), Then(WriteOptString(e.sigType), Raw(Numbers(e))), data, pos);
  }

  lemma ReadEntryNested(data: Bytes, pos: nat, e: Entry)
    ensures
      var r := ReadString(data, pos);
      var all := if r.Fail? then Fail else Both(r, ReadNamed(data, r.pos));
      && (ReadEntry(data, pos).Got? && ReadEntry(data, pos).value == e
          <==> all.Got? && all.value == (e.path, (e.moduleName, (e.sigType, (e.level, e.bitwidth)))))
      && (ReadEntry(data, pos).Got? ==> all.Got? && all.pos == ReadEntry(data, pos).pos)
  {
  }

  lemma ReadEntryInverse(data: Bytes, pos: nat, e: Entry)
    requires Normal(e) == e
    ensures Inverse(ReadEntry(data, pos), e, WriteEntry(e), data, pos)
  {
    var r := ReadString(data, pos);
    ReadStringInverse(data, pos, e.path);
    if r.Got? {
      ReadNamedInverse(data, r.pos, e);
    }
    BothInverse(r, e.path, WriteString(e.path), if r.Got? then ReadNamed(data, r.pos) else Fail,
                (e.moduleName, (e.sigType, (e.level, e.bitwidth))),
                Then(WriteOptString(e.moduleName), Then(WriteOptString(e.sigType), Raw(Numbers(e)))), data, pos);
    ReadEntryNested(data, pos, e);
  }

  lemma {:induction false} ReadEntriesInverse(data: Bytes, pos: nat, es: seq<Entry>)
    requires AllNormal(es) && pos <= |data|
    ensures Inverse(ReadEntries(data, pos, |es|), es, WriteEntries(es), data, pos)
    decreases |es|
  {
    hide ReadEntry, ValidUtf8;
    if es == [] {
      assert ReadEntries(data, pos, 0) == Got([], pos);
    } else {
      var r := ReadEntry(data, pos);
      ReadEntryInverse(data, pos, es[0]);
      if r.Got? && r.value == es[0] {
        ReadEntriesInverse(data, r.pos, es[1..]);
      }
      var rest := if r.Got? then ReadEntries(data, r.pos, |es| - 1) else Fail;
      BothInverse(r, es[0], WriteEntry(es[0]), rest, es[1..], WriteEntries(es[1..]), data, pos);
      assert es == [es[0]] + es[1..];
      if rest.Got? {
        assert ([r.value] + rest.value)[0] == r.value && ([r.value] + rest.value)[1..] == rest.value;
      }
    }
  }

  /** Every entry takes at least its three length fields and two numbers. */
  lemma {:induction false} EntriesTakeSpace(es: seq<Entry>)
    ensures WriteEntries(es).ok ==> |WriteEntries(es).bytes| >= MIN_ENTRY_BYTES * |es|
  {
    if es != [] {
      EntriesTakeSpace(es[1..]);
    }
  }

  // ---- the whole file ----

  lemma NumbersInverse(data: Bytes, i: nat, j: nat, k: nat, a: nat, b: nat, c: nat)
    requires a < Pow256(i) && b < Pow256(j) && c < Pow256(k)
    ensures At(data, 0, Le(a, i) + Le(b, j) + Le(c, k)) <==>
      ReadLe(data, 0, i) == Got(a, i) && ReadLe(data, i, j) == Got(b, i + j) && ReadLe(data, i + j, k) == Got(c, i + j + k)
  {
    ReadLeInverse(data, 0, i, a);
    ReadLeInverse(data, i, j, b);
    ReadLeInverse(data, i + j, k, c);
    AtConcat(data, 0, Le(a, i) + Le(b, j), Le(c, k));
    AtConcat(data, 0, Le(a, i), Le(b, j));
  }

  lemma HeaderInverse(data: Bytes, mtime: U64, count: nat)
    requires count < U32_LIMIT
    ensures At(data, 0, FixedHeader(mtime, count)) <==>
      && |data| >= FIXED_HEADER_SIZE
      && FromLe(data[0..4]) == MAGIC && FromLe(data[4..12]) == mtime && FromLe(data[12..16]) == count
  {
    LeBound([]);
    NumbersInverse(data, 4, 8, 4, MAGIC, mtime, count);
  }

  /** The mtime argument that gives this header field. */
  function MtimeOf(field: U64): Option<U64> {
    if field == U64_MAX then None else Some(field)
  }

  ghost predicate SavedAs(data: Bytes, l: Loaded) {
    && l.consumed <= |data|
    && |l.entries| < U32_LIMIT
    && AllNormal(l.entries)
    && Save(l.entries, MtimeOf(l.mtime), Some(l.source)) == Written(data[..l.consumed], true)
  }

  lemma FileAt(data: Bytes, header: Bytes, source: Written, body: Written, n: nat)
    ensures
      n <= |data| && Then(Raw(header), Then(source, body)) == Written(data[..n], true) <==>
        && At(data, 0, header)
        && source.ok && At(data, |header|, source.bytes)
        && body.ok && At(data, |header| + |source.bytes|, body.bytes)
        && n == |header| + |source.bytes| + |body.bytes|
  {
    var w := Then(Raw(header), Then(source, body));
    AtConcat(data, 0, header, source.bytes + body.bytes);
    AtConcat(data, |header|, source.bytes, body.bytes);
    AtIsSlice(data, 0, w.bytes);
    if n <= |data| {
      assert data[..n] == data[0..n];
    }
  }

  /** A file that parses to `l`, before the identity checks. */
  predicate Parses(data: Bytes, l: Loaded) {
    && |data| >= FIXED_HEADER_SIZE
    && FromLe(data[0..4]) == MAGIC && FromLe(data[4..12]) == l.mtime && FromLe(data[12..16]) == |l.entries|
    && var r := ReadString(data, FIXED_HEADER_SIZE);
    && r.Got? && r.value == l.source
    && ReadEntries(data, r.pos, |l.entries|) == Got(l.entries, l.consumed)
  }

  lemma ParsesIsSaved(data: Bytes, l: Loaded)
    requires |l.entries| < U32_LIMIT && AllNormal(l.entries)
    ensures Parses(data, l) <==> SavedAs(data, l)
  {
    var header, source, body := FixedHeader(l.mtime, |l.entries|), WriteString(l.source), WriteEntries(l.entries);
    assert Save(l.entries, MtimeOf(l.mtime), Some(l.source)) == Then(Raw(header), Then(source, body));
    FileAt(data, header, source, body, l.consumed);
    HeaderInverse(data, l.mtime, |l.entries|);
    var r := ReadString(data, FIXED_HEADER_SIZE);
    ReadStringInverse(data, FIXED_HEADER_SIZE, l.source);
    if r.Got? && r.value == l.source {
      ReadEntriesInverse(data, r.pos, l.entries);
    }
  }

  lemma LoadParses(data: Bytes, mtime: Option<U64>, source: Option<Text>, l: Loaded)
    ensures Load(data, mtime, source) == Some(l) <==>
      && Parses(data, l) && SourceAccepted(l.source, source) && MtimeAccepted(l.mtime, mtime)
      && |l.entries| <= Remaining(data, ReadString(data, FIXED_HEADER_SIZE).pos) / MIN_ENTRY_BYTES
  {
  }

  lemma ParsesShape(data: Bytes, l: Loaded)
    requires Parses(data, l)
    ensures |l.entries| < U32_LIMIT && AllNormal(l.entries)
    ensures |l.entries| <= Remaining(data, ReadString(data, FIXED_HEADER_SIZE).pos) / MIN_ENTRY_BYTES
  {
    var r := ReadString(data, FIXED_HEADER_SIZE);
    LeBound(data[12..16]);
    ReadStringInverse(data, FIXED_HEADER_SIZE, l.source);
    ReadEntriesInverse(data, r.pos, l.entries);
    EntriesTakeSpace(l.entries);
  }

  /**
   * The reader accepts exactly what the writer writes: a byte string loads to `l` if and only if
   * saving `l` with its own header fields gives the consumed prefix and the identity checks pass.
   */
  lemma LoadsExactlyWhatWasSaved(data: Bytes, mtime: Option<U64>, source: Option<Text>, l: Loaded)
    ensures Load(data, mtime, source) == Some(l) <==>
      SavedAs(data, l) && SourceAccepted(l.source, source) && MtimeAccepted(l.mtime, mtime)
  {
    LoadParses(data, mtime, source, l);
    if Parses(data, l) {
      ParsesShape(data, l);
      ParsesIsSaved(data, l);
    } else if SavedAs(data, l) {
      ParsesIsSaved(data, l);
    }
  }
}
