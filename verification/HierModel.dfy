/** Collecting the design hierarchy: traversal, merging of duplicate paths, ordering, depth filter. */
module HierModel {
  import opened Common
  import opened Utf8

  const DOT: Byte := 0x2E
  const WIRE: Bytes := [0x77, 0x69, 0x72, 0x65]
  const REG: Bytes := [0x72, 0x65, 0x67]

  /** A net, reg or memory; the name is absent where the simulator returns a null pointer. */
  datatype Leaf = Leaf(name: Option<Bytes>, width: int)

  datatype Module = Module(
    name: Option<Bytes>, defName: Option<Bytes>,
    nets: seq<Leaf>, regs: seq<Leaf>, memories: seq<Leaf>, inner: seq<Module>)

  datatype HierEntry = HierEntry(
    path: Bytes, moduleName: Option<Bytes>, sigType: Option<Bytes>, level: int, bitwidth: int)

  type Pushes = seq<HierEntry>

  // ---- traversal ----

  function ModulePath(parent: Bytes, name: Bytes): Bytes {
    if parent == [] then name else parent + [DOT] + name
  }

  /** A name that already holds a dot is taken for a full path. */
  function LeafPath(full: Bytes, name: Bytes): Bytes {
    if DOT in name then name else full + [DOT] + name
  }

  function DefName(m: Module): Option<Bytes> {
    if m.defName == Some([]) then None else m.defName
  }

  function Tagged(sigType: Bytes, leaves: seq<Leaf>): seq<(Bytes, Leaf)> {
    seq(|leaves|, i requires 0 <= i < |leaves| => (sigType, leaves[i]))
  }

  function Objects(m: Module): seq<(Bytes, Leaf)> {
    Tagged(WIRE, m.nets) + Tagged(REG, m.regs) + Tagged(REG, m.memories)
  }

  /** One push for each name of a module not seen before in that module. */
  function LeafPushes(full: Bytes, objects: seq<(Bytes, Leaf)>, level: int, visited: set<Bytes>): Pushes {
    if objects == [] then []
    else
      var (sigType, leaf) := objects[0];
      if leaf.name.None? || leaf.name.value in visited then LeafPushes(full, objects[1..], level, visited)
      else
        [HierEntry(LeafPath(full, leaf.name.value), None, Some(sigType), level, leaf.width)]
        + LeafPushes(full, objects[1..], level, visited + {leaf.name.value})
  }

  predicate TooDeep(level: int, maxLevel: int) {
    maxLevel != 0 && level > maxLevel
  }

  predicate LeavesWanted(level: int, maxLevel: int) {
    maxLevel == 0 || level < maxLevel
  }

  /** What one module and everything below it push, in order. */
  function ModulePushes(m: Module, parent: Bytes, level: int, maxLevel: int): Pushes
    decreases m
  {
    if m.name.None? then []
    else
      var full := ModulePath(parent, m.name.value);
      [HierEntry(full, DefName(m), None, level, -1)]
      + (if LeavesWanted(level, maxLevel) then LeafPushes(full, Objects(m), level + 1, {}) else [])
      + TreePushes(m.inner, full, level + 1, maxLevel)
  }

  function TreePushes(ms: seq<Module>, parent: Bytes, level: int, maxLevel: int): Pushes
    decreases ms
  {
    if TooDeep(level, maxLevel) || ms == [] then []
    else ModulePushes(ms[0], parent, level, maxLevel) + TreePushes(ms[1..], parent, level, maxLevel)
  }

  // ---- merging ----

  predicate PathIn(es: seq<HierEntry>, path: Bytes) {
    exists i | 0 <= i < |es| :: es[i].path == path
  }

  /** The first entry for `path` becomes a reg. */
  function Upgrade(es: seq<HierEntry>, path: Bytes): seq<HierEntry> {
    if es == [] then []
    else if es[0].path == path then [es[0].(sigType := Some(REG))] + es[1..]
    else [es[0]] + Upgrade(es[1..], path)
  }

  function Push(es: seq<HierEntry>, e: HierEntry): seq<HierEntry> {
    if !PathIn(es, e.path) then es + [e]
    else if e.sigType == Some(REG) then Upgrade(es, e.path)
    else es
  }

  function PushAll(es: seq<HierEntry>, ps: Pushes): seq<HierEntry>
    decreases |ps|
  {
    if ps == [] then es else PushAll(Push(es, ps[0]), ps[1..])
  }

  // ---- ordering ----

  /** Byte-wise lexicographic order, as Rust compares strings. */
  predicate BytesLe(a: Bytes, b: Bytes) {
    a == [] || (b != [] && (a[0] < b[0] || (a[0] == b[0] && BytesLe(a[1..], b[1..]))))
  }

  predicate EntryLe(a: HierEntry, b: HierEntry) {
    if a.path == b.path then a.level <= b.level else BytesLe(a.path, b.path)
  }

  /** Behind all entries that do not exceed `e`: equal ones keep their order. */
  function Insert(s: seq<HierEntry>, e: HierEntry): seq<HierEntry> {
    if s == [] then [e]
    else if EntryLe(s[0], e) then [s[0]] + Insert(s[1..], e)
    else [e] + s
  }

  function Sort(s: seq<HierEntry>): seq<HierEntry> {
    if s == [] then [] else Insert(Sort(Front(s)), Last(s))
  }

  function Snapshot(ps: Pushes): seq<HierEntry> {
    Sort(PushAll([], ps))
  }

  function Collect(top: seq<Module>, maxLevel: int): seq<HierEntry> {
    Snapshot(TreePushes(top, [], 0, maxLevel))
  }

  // ---- depth filter ----

  function UpTo(es: seq<HierEntry>, maxLevel: int): seq<HierEntry> {
    if es == [] then []
    else if es[0].level <= maxLevel then [es[0]] + UpTo(es[1..], maxLevel)
    else UpTo(es[1..], maxLevel)
  }

  function Shown(all: seq<HierEntry>, maxLevel: int): seq<HierEntry> {
    if maxLevel == 0 then all else UpTo(all, maxLevel)
  }
}
