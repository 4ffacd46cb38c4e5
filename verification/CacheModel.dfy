/** The binary hierarchy cache: what save_cache writes and what try_load_cache makes of any bytes. */
module CacheModel {
  import opened Common
  import opened Utf8

  const U16_MAX := 0xFFFF
  const U32_LIMIT := 0x1_0000_0000
  const U64_MAX := 0xFFFF_FFFF_FFFF_FFFF
  const MAGIC := 0x56484932
  const FIXED_HEADER_SIZE := 16
  const MIN_ENTRY_BYTES := 14

  type Int32 = x: int | -0x8000_0000 <= x < 0x8000_0000
  type U64 = x: int | 0 <= x <= U64_MAX

  datatype Entry = Entry(
    path: Text, moduleName: Option<Text>, sigType: Option<Text>, level: Int32, bitwidth: Int32)

  /** An empty optional string cannot be told from an absent one. */
  function NormalOpt(s: Option<Text>): Option<Text> {
    if s == Some([]) then None else s
  }

  function Normal(e: Entry): Entry {
    e.(moduleName := NormalOpt(e.moduleName), sigType := NormalOpt(e.sigType))
  }

  ghost predicate AllNormal(es: seq<Entry>) {
    forall i | 0 <= i < |es| :: Normal(es[i]) == es[i]
  }

  function NormalAll(es: seq<Entry>): seq<Entry> {
    seq(|es|, i requires 0 <= i < |es| => Normal(es[i]))
  }

  // ---- little-endian numbers ----

  function Le(n: nat, k: nat): (r: Bytes)
    ensures |r| == k
  {
    if k == 0 then [] else [n % 256] + Le(n / 256, k - 1)
  }

  function FromLe(b: Bytes): nat {
    if b == [] then 0 else b[0] + 256 * FromLe(b[1..])
  }

  function Unsigned32(i: Int32): nat {
    if i < 0 then i + U32_LIMIT else i
  }

  function Signed32(n: nat): Int32
    requires n < U32_LIMIT
  {
    if n >= 0x8000_0000 then n - U32_LIMIT else n
  }

  // ---- writing: the bytes that reach the file, and whether every write succeeded ----

  datatype Written = Written(bytes: Bytes, ok: bool)

  function Raw(b: Bytes): Written {
    Written(b, true)
  }

  /** A failed write ends the file where it stands. */
  function Then(first: Written, next: Written): Written {
    if first.ok then Written(first.bytes + next.bytes, next.ok) else first
  }

  function WriteString(s: Text): Written {
    if |s| > U16_MAX then Written([], false) else Raw(Le(|s|, 2) + s)
  }

  function WriteOptString(s: Option<Text>): Written {
    match s
    case Some(v) => WriteString(v)
    case None => Raw(Le(0, 2))
  }

  function Numbers(e: Entry): Bytes {
    Le(Unsigned32(e.level), 4) + Le(Unsigned32(e.bitwidth), 4)
  }

  function WriteEntry(e: Entry): Written {
    Then(WriteString(e.path), Then(WriteOptString(e.moduleName), Then(WriteOptString(e.sigType), Raw(Numbers(e)))))
  }

  function WriteEntries(es: seq<Entry>): Written {
    if es == [] then Raw([]) else Then(WriteEntry(es[0]), WriteEntries(es[1..]))
  }

  function MtimeField(mtime: Option<U64>): U64 {
    if mtime.Some? then mtime.value else U64_MAX
  }

  function OrEmpty(s: Option<Text>): Text {
    if s.Some? then s.value else []
  }

  function FixedHeader(mtime: U64, count: nat): Bytes {
    Le(MAGIC, 4) + Le(mtime, 8) + Le(count % U32_LIMIT, 4)
  }

  function Save(es: seq<Entry>, mtime: Option<U64>, source: Option<Text>): Written {
    Then(Raw(FixedHeader(MtimeField(mtime), |es|)), Then(WriteString(OrEmpty(source)), WriteEntries(es)))
  }

  // ---- reading from a position ----

  datatype Read<+T> = Fail | Got(value: T, pos: nat)

  function ReadLe(data: Bytes, pos: nat, k: nat): Read<nat> {
    if pos + k <= |data| then Got(FromLe(data[pos..pos + k]), pos + k) else Fail
  }

  function ReadStringAt(data: Bytes, pos: nat, len: nat): Read<Text> {
    if pos + len <= |data| && ValidUtf8(data[pos..pos + len]) then Got(data[pos..pos + len], pos + len) else Fail
  }

  function ReadString(data: Bytes, pos: nat): Read<Text> {
    match ReadLe(data, pos, 2)
    case Fail => Fail
    case Got(len, p) => ReadStringAt(data, p, len)
  }

  function ReadOptString(data: Bytes, pos: nat): (r: Read<Option<Text>>)
    ensures r.Got? ==> NormalOpt(r.value) == r.value
  {
    match ReadLe(data, pos, 2)
    case Fail => Fail
    case Got(len, p) =>
      if len == 0 then Got(None, p)
      else
        match ReadStringAt(data, p, len)
        case Fail => Fail
        case Got(s, q) => Got(Some(s), q)
  }

  function ReadInt32(data: Bytes, pos: nat): Read<Int32> {
    match ReadLe(data, pos, 4)
    case Fail => Fail
    case Got(n, p) => LeBound(data[pos..p]); Got(Signed32(n), p)
  }

  function Pow256(k: nat): nat {
    if k == 0 then 1 else 256 * Pow256(k - 1)
  }

  lemma {:induction false} LeBound(b: Bytes)
    ensures FromLe(b) < Pow256(|b|)
    ensures Pow256(2) == U16_MAX + 1 && Pow256(4) == U32_LIMIT && Pow256(8) == U64_MAX + 1
  {
    if b != [] {
      LeBound(b[1..]);
    }
    assert Pow256(4) == 256 * (256 * Pow256(2));
    assert Pow256(8) == 256 * (256 * (256 * (256 * Pow256(4))));
  }

  function ReadEntry(data: Bytes, pos: nat): (r: Read<Entry>)
    ensures r.Got? ==> Normal(r.value) == r.value
  {
    match ReadString(data, pos)
    case Fail => Fail
    case Got(path, p1) =>
      match ReadOptString(data, p1)
      case Fail => Fail
      case Got(moduleName, p2) =>
        match ReadOptString(data, p2)
        case Fail => Fail
        case Got(sigType, p3) =>
          match ReadInt32(data, p3)
          case Fail => Fail
          case Got(level, p4) =>
            match ReadInt32(data, p4)
            case Fail => Fail
            case Got(bitwidth, p5) => Got(Entry(path, moduleName, sigType, level, bitwidth), p5)
  }

  function ReadEntries(data: Bytes, pos: nat, n: nat): (r: Read<seq<Entry>>)
    ensures r.Got? ==> |r.value| == n && AllNormal(r.value)
    decreases n
  {
    if n == 0 then Got([], pos)
    else
      match ReadEntry(data, pos)
      case Fail => Fail
      case Got(e, p) =>
        match ReadEntries(data, p, n - 1)
        case Fail => Fail
        case Got(es, q) => Got([e] + es, q)
  }

  datatype Loaded = Loaded(entries: seq<Entry>, mtime: U64, source: Text, consumed: nat)

  /** Same source, unless one side does not say which. */
  predicate SourceAccepted(cached: Text, current: Option<Text>) {
    cached == [] || current.None? || current.value == [] || cached == current.value
  }

  predicate MtimeAccepted(cached: U64, current: Option<U64>) {
    cached == U64_MAX || current.None? || cached == current.value
  }

  function Remaining(data: Bytes, pos: nat): nat {
    if pos <= |data| then |data| - pos else 0
  }

  function Load(data: Bytes, mtime: Option<U64>, source: Option<Text>): Option<Loaded> {
    if |data| < FIXED_HEADER_SIZE || FromLe(data[0..4]) != MAGIC then None
    else
      LeBound(data[4..12]);
      var cachedMtime: U64 := FromLe(data[4..12]);
      var count := FromLe(data[12..16]);
      match ReadString(data, FIXED_HEADER_SIZE)
      case Fail => None
      case Got(cachedSource, pos) =>
        if !SourceAccepted(cachedSource, source) || !MtimeAccepted(cachedMtime, mtime) then None
        else if count > Remaining(data, pos) / MIN_ENTRY_BYTES then None
        else
          match ReadEntries(data, pos, count)
          case Fail => None
          case Got(es, end) => Some(Loaded(es, cachedMtime, cachedSource, end))
  }
}
