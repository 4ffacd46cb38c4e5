/** save_cache and try_load_cache as they run: a writer that appends and a cursor that moves. */
module CacheFile {
  import opened Common
  import opened CacheModel
  import opened CacheResults
  import opened Utf8

  /** The file under construction. */
  class CacheWriter {
    var out: Bytes

    constructor ()
      ensures out == []
    {
      out := [];
    }

    method WriteAll(b: Bytes)
      modifies this
      ensures out == old(out) + b
    {
      out := out + b;
    }

    method WriteLenPrefixedStr(s: Text) returns (ok: bool)
      modifies this
      ensures ok == WriteString(s).ok && out == old(out) + WriteString(s).bytes
    {
      if |s| > U16_MAX {
        return false;
      }
      WriteAll(Le(|s|, 2));
      WriteAll(s);
      return true;
    }

    method WriteLenPrefixedOptStr(s: Option<Text>) returns (ok: bool)
      modifies this
      ensures ok == WriteOptString(s).ok && out == old(out) + WriteOptString(s).bytes
    {
      match s {
        case Some(v) =>
          ok := WriteLenPrefixedStr(v);
        case None =>
          WriteAll(Le(0, 2));
          ok := true;
      }
    }

    method WriteOne(e: Entry) returns (ok: bool)
      modifies this
      ensures ok == WriteEntry(e).ok && out == old(out) + WriteEntry(e).bytes
    {
      hide WriteString, WriteOptString;
      ghost var before := out;
      ok := WriteLenPrefixedStr(e.path);
      if ok {
        ok := WriteNames(e);
      }
      assert out == before + WriteEntry(e).bytes by {
        assert (before + WriteString(e.path).bytes) + Names(e).bytes == before + (WriteString(e.path).bytes + Names(e).bytes);
      }
    }

    ghost function Names(e: Entry): Written {
      Then(WriteOptString(e.moduleName), Then(WriteOptString(e.sigType), Raw(Numbers(e))))
    }

    method WriteNames(e: Entry) returns (ok: bool)
      modifies this
      ensures ok == Names(e).ok && out == old(out) + Names(e).bytes
    {
      hide WriteOptString;
      ok := WriteLenPrefixedOptStr(e.moduleName);
      if ok {
        ok := WriteTyped(e);
      }
    }

    method WriteTyped(e: Entry) returns (ok: bool)
      modifies this
      ensures var w := Then(WriteOptString(e.sigType), Raw(Numbers(e)));
        ok == w.ok && out == old(out) + w.bytes
    {
      hide WriteOptString;
      ok := WriteLenPrefixedOptStr(e.sigType);
      if ok {
        WriteAll(Le(Unsigned32(e.level), 4));
        WriteAll(Le(Unsigned32(e.bitwidth), 4));
      }
    }

    method WriteEach(es: seq<Entry>) returns (ok: bool)
      modifies this
      ensures ok == WriteEntries(es).ok && out == old(out) + WriteEntries(es).bytes
    {
      hide WriteEntry;
      ok := true;
      var i := 0;
      while i < |es| && ok
        invariant 0 <= i <= |es|
        invariant Then(Written(out, ok), WriteEntries(es[i..])) == Then(Raw(old(out)), WriteEntries(es))
      {
        ghost var before := out;
        ThenAssociates(Raw(before), WriteEntry(es[i]), WriteEntries(es[i + 1..]));
        assert es[i..][1..] == es[i + 1..];
        ok := WriteOne(es[i]);
        i := i + 1;
      }
    }

    method SaveCache(es: seq<Entry>, mtime: Option<U64>, source: Option<Text>) returns (ok: bool)
      modifies this
      ensures Written(out, ok) == Save(es, mtime, source)
    {
      out := [];
      WriteAll(Le(MAGIC, 4));
      WriteAll(Le(if mtime.Some? then mtime.value else U64_MAX, 8));
      WriteAll(Le(|es| % U32_LIMIT, 4));
      assert out == FixedHeader(MtimeField(mtime), |es|);
      ok := WriteLenPrefixedStr(if source.Some? then source.value else []);
      if ok {
        ok := WriteEach(es);
      }
      ghost var src := WriteString(OrEmpty(source));
      ThenAssociates(Raw(FixedHeader(MtimeField(mtime), |es|)), src, WriteEntries(es));
    }
  }

  /** A mapped file and the position of the next read. */
  class CacheCursor {
    const data: Bytes
    var pos: nat

    constructor (data: Bytes, pos: nat)
      ensures this.data == data && this.pos == pos
    {
      this.data, this.pos := data, pos;
    }

    /** A successful read moves the cursor; a failed one ends the load. */
    ghost predicate Moved<T>(r: Read<T>, v: Option<T>)
      reads this
    {
      match r
      case Fail => v == None
      case Got(x, p) => v == Some(x) && pos == p
    }

    method ReadU16Le() returns (v: Option<nat>)
      modifies this
      ensures Moved(ReadLe(data, old(pos), 2), v)
    {
      if pos + 2 > |data| {
        return None;
      }
      v := Some(FromLe(data[pos..pos + 2]));
      pos := pos + 2;
    }

    method ReadI32Le() returns (v: Option<Int32>)
      modifies this
      ensures Moved(ReadInt32(data, old(pos)), v)
    {
      if pos + 4 > |data| {
        return None;
      }
      LeBound(data[pos..pos + 4]);
      v := Some(Signed32(FromLe(data[pos..pos + 4])));
      pos := pos + 4;
    }

    method ReadStringAtCursor(len: nat) returns (v: Option<Text>)
      modifies this
      ensures Moved(ReadStringAt(data, old(pos), len), v)
    {
      if pos + len > |data| || !ValidUtf8(data[pos..pos + len]) {
        return None;
      }
      v := Some(data[pos..pos + len]);
      pos := pos + len;
    }

    method ReadLenPrefixedString() returns (v: Option<Text>)
      modifies this
      ensures Moved(ReadString(data, old(pos)), v)
    {
      var len := ReadU16Le();
      if len.None? {
        return None;
      }
      v := ReadStringAtCursor(len.value);
    }

    /** The two optional strings of an entry: length zero reads as absent. */
    method ReadLenPrefixedOptString() returns (v: Option<Option<Text>>)
      modifies this
      ensures Moved(ReadOptString(data, old(pos)), v)
    {
      var len := ReadU16Le();
      if len.None? {
        return None;
      }
      if len.value == 0 {
        return Some(None);
      }
      var s := ReadStringAtCursor(len.value);
      v := if s.None? then None else Some(s);
    }

    method ReadOne() returns (v: Option<Entry>)
      modifies this
      ensures Moved(ReadEntry(data, old(pos)), v)
    {
      hide ReadString, ReadOptString, ReadInt32;
      v := None;
      var path := ReadLenPrefixedString();
      if path.None? {
        return;
      }
      var moduleName := ReadLenPrefixedOptString();
      if moduleName.None? {
        return;
      }
      var sigType := ReadLenPrefixedOptString();
      if sigType.None? {
        return;
      }
      var level := ReadI32Le();
      if level.None? {
        return;
      }
      var bitwidth := ReadI32Le();
      if bitwidth.None? {
        return;
      }
      v := Some(Entry(path.value, moduleName.value, sigType.value, level.value, bitwidth.value));
    }

    ghost function After(es: seq<Entry>, rest: Read<seq<Entry>>): Read<seq<Entry>> {
      match rest
      case Fail => Fail
      case Got(more, p) => Got(es + more, p)
    }

    /** One round of the loop: what is still to come shrinks by the entry that was read. */
    method ReadNext(entries: seq<Entry>, n: nat) returns (v: Option<seq<Entry>>)
      requires n > 0
      modifies this
      ensures After(entries, ReadEntries(data, old(pos), n))
           == if v.None? then Fail else After(v.value, ReadEntries(data, pos, n - 1))
    {
      hide ReadEntry;
      ghost var start := pos;
      var e := ReadOne();
      if e.None? {
        return None;
      }
      ghost var rest := ReadEntries(data, pos, n - 1);
      if rest.Got? {
        assert entries + ([e.value] + rest.value) == (entries + [e.value]) + rest.value;
      }
      return Some(entries + [e.value]);
    }

    method ReadEach(n: nat) returns (v: Option<seq<Entry>>)
      modifies this
      ensures Moved(ReadEntries(data, old(pos), n), v)
    {
      hide ReadEntry;
      var entries: seq<Entry> := [];
      var i := 0;
      ghost var all := ReadEntries(data, pos, n);
      assert all == After([], all) by {
        if all.Got? {
          assert [] + all.value == all.value;
        }
      }
      while i < n
        invariant 0 <= i <= n
        invariant all == After(entries, ReadEntries(data, pos, n - i))
      {
        var more := ReadNext(entries, n - i);
        if more.None? {
          return None;
        }
        entries := more.value;
        i := i + 1;
      }
      assert entries + [] == entries;
      return Some(entries);
    }
  }

  method TryLoadCache(data: Bytes, mtime: Option<U64>, source: Option<Text>) returns (v: Option<seq<Entry>>)
    ensures v == match Load(data, mtime, source) case None => None case Some(l) => Some(l.entries)
  {
    if |data| < FIXED_HEADER_SIZE {
      return None;
    }
    if FromLe(data[0..4]) != MAGIC {
      return None;
    }
    var cachedMtime := FromLe(data[4..12]);
    var count := FromLe(data[12..16]);
    LeBound(data[4..12]);
    var cursor := new CacheCursor(data, FIXED_HEADER_SIZE);
    var cachedSource := cursor.ReadLenPrefixedString();
    if cachedSource.None? {
      return None;
    }
    if cachedSource.value != [] && source.Some? && source.value != [] && cachedSource.value != source.value {
      return None;
    }
    if cachedMtime != U64_MAX && mtime.Some? && cachedMtime != mtime.value {
      return None;
    }
    if count > Remaining(data, cursor.pos) / MIN_ENTRY_BYTES {
      return None;
    }
    v := cursor.ReadEach(count);
  }
}
