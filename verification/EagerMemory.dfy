/** The reference model: every address space owns its memory outright, and fork
    copies all of it at once. */
module EagerMemory {
  import opened AmapIndex
  import opened VmState

  /** One mapped page: its contents, what may be done with it, and the object
      page it was mapped from. */
  datatype Cell = Cell(content: Content, prot: Prot, maxProt: Prot, back: ObjPage)

  type Mem = map<Loc, Cell>

  datatype Status = Success | NoEnt | PermDenied | Unreadable | Exists

  /** A page as its object has it. */
  function Fresh(back: ObjPage, prot: Prot, pager: ObjPage -> Content): Cell {
    Cell(pager(back), prot, prot, back)
  }

  function Map(m: Mem, space: nat, base: nat, len: nat, back: ObjPage, prot: Prot, pager: ObjPage -> Content): Mem {
    m + map v | base <= v < base + len :: Loc(space, v) := Fresh(ObjPage(back.obj, back.off + (v - base)), prot, pager)
  }

  function Unmap(m: Mem, space: nat, lo: nat, hi: nat): Mem {
    map l | l in m && !(l.space == space && lo <= l.vpn < hi) :: m[l]
  }

  /** Fork copies every page of `from` into the empty space `to`. */
  function Fork(m: Mem, from: nat, to: nat): Mem {
    m + map l | l in m && l.space == from :: Loc(to, l.vpn) := m[l]
  }

  function Store(m: Mem, l: Loc, word: nat, value: int): Mem
    requires l in m && word < PAGE_WORDS
  {
    m[l := m[l].(content := m[l].content[word := value])]
  }

  /** Write implies execute implies read, as far as the maximum is concerned. */
  predicate AllowedBy(maxProt: Prot, prot: Prot) {
    && (prot.write ==> maxProt.write)
    && (prot.exec ==> maxProt.exec || maxProt.write)
    && (prot.read ==> maxProt.read || maxProt.exec || maxProt.write)
  }

  /** The first page of [lo, hi) whose maximum protection forbids `prot`. */
  function FirstDenied(m: Mem, space: nat, lo: nat, hi: nat, prot: Prot): (v: nat)
    requires lo <= hi
    ensures lo <= v <= hi
    ensures v < hi ==> Loc(space, v) in m && !AllowedBy(m[Loc(space, v)].maxProt, prot)
    ensures forall u :: lo <= u < v && Loc(space, u) in m ==> AllowedBy(m[Loc(space, u)].maxProt, prot)
    decreases hi - lo
  {
    if lo == hi || (Loc(space, lo) in m && !AllowedBy(m[Loc(space, lo)].maxProt, prot)) then lo
    else FirstDenied(m, space, lo + 1, hi, prot)
  }

  /** The memory with `prot` over pages [lo, hi). */
  function Reprotected(m: Mem, space: nat, lo: nat, hi: nat, prot: Prot, setMax: bool): Mem {
    map l | l in m ::
      if l.space == space && lo <= l.vpn < hi then m[l].(prot := prot, maxProt := if setMax then prot else m[l].maxProt)
      else m[l]
  }

  /** Protection takes effect up to the first page that does not allow it. */
  function Protect(m: Mem, space: nat, lo: nat, hi: nat, prot: Prot, setMax: bool): Mem
    requires lo <= hi
  {
    Reprotected(m, space, lo, if setMax then hi else FirstDenied(m, space, lo, hi, prot), prot, setMax)
  }

  // Whole runs ---------------------------------------------------------------

  datatype Op =
    | OpMap(space: nat, base: nat, len: nat, offset: nat, prot: Prot, overwrite: bool)
    | OpMapSame(space: nat, base: nat, len: nat, offset: nat, prot: Prot, like: Loc)
    | OpUnmap(space: nat, lo: nat, hi: nat)
    | OpProtect(space: nat, lo: nat, hi: nat, prot: Prot, setMax: bool)
    | OpFork(from: nat, to: nat)
    | OpRead(at: Loc, word: nat)
    | OpWrite(at: Loc, word: nat, value: int)

  /** Some page of the range is mapped. */
  ghost predicate Busy(m: Mem, space: nat, lo: nat, hi: nat) {
    exists v :: lo <= v < hi && Loc(space, v) in m
  }

  /** No page of `m` was mapped from object `o`. */
  ghost predicate NewObject(m: Mem, o: int) {
    o >= 0 && forall l :: l in m ==> m[l].back.obj != o
  }

  /** Operations of a run: `OpMap` maps a new object, `OpMapSame` the object
      behind the page `like` once more, in its space or another one. Mappings are
      no longer than an amap reaches, ranges are not empty, fork goes to an empty
      space, and `vm_protect` does not grant write access. */
  predicate Admissible(m: Mem, op: Op) {
    match op
    case OpMap(_, _, len, _, _, _) => 0 < len <= REACH
    case OpMapSame(_, _, len, _, _, like) => 0 < len <= REACH && like in m
    case OpUnmap(_, lo, hi) => lo < hi
    case OpProtect(_, lo, hi, prot, _) => lo < hi && !prot.write
    case OpFork(from, to) => from != to && forall l :: l in m ==> l.space != to
    case OpRead(_, word) => word < PAGE_WORDS
    case OpWrite(_, word, _) => word < PAGE_WORDS
  }

  /** What an operation reports; `value` is the word read, or the identifier
      of the object behind a new mapping. */
  datatype Outcome = Skipped | Done(status: Status, value: int)

  /** One operation of the eager model: from memory `m` to `m'`, reporting
      `out`. Operations that are not admissible are skipped. */
  ghost predicate Step(m: Mem, op: Op, out: Outcome, m': Mem, pager: ObjPage -> Content) {
    if !Admissible(m, op) then
      out == Skipped && m' == m
    else
      out.Done? &&
      match op
      case OpMap(space, base, len, offset, prot, overwrite) =>
        && (out == Done(Exists, 0) <==> Busy(m, space, base, base + len) && !overwrite)
        && (out == Done(Exists, 0) || (out.status == Success && NewObject(Unmap(m, space, base, base + len), out.value)))
        && m' == if out.status == Exists then m
                 else Map(Unmap(m, space, base, base + len), space, base, len, ObjPage(out.value, offset), prot, pager)
      case OpMapSame(space, base, len, offset, prot, like) =>
        && out == (if Busy(m, space, base, base + len) then Done(Exists, 0) else Done(Success, m[like].back.obj))
        && m' == if out.status == Exists then m
                 else Map(m, space, base, len, ObjPage(m[like].back.obj, offset), prot, pager)
      case OpUnmap(space, lo, hi) =>
        out == Done(Success, 0) && m' == Unmap(m, space, lo, hi)
      case OpProtect(space, lo, hi, prot, setMax) =>
        && m' == Protect(m, space, lo, hi, prot, setMax)
        && out == Done(if !setMax && FirstDenied(m, space, lo, hi, prot) < hi then PermDenied else Success, 0)
      case OpFork(from, to) =>
        out == Done(Success, 0) && m' == Fork(m, from, to)
      case OpRead(l, word) =>
        m' == m && ReadReports(m, l, word, out.status, out.value)
      case OpWrite(l, word, value) =>
        && WriteReports(m, l, out.status) && out.value == 0
        && m' == if l in m && out.status == Success then Store(m, l, word, value) else m
  }

  ghost predicate ReadReports(m: Mem, l: Loc, word: nat, status: Status, value: int)
    requires word < PAGE_WORDS
  {
    && (status == NoEnt <==> l !in m)
    && (l in m && m[l].prot.read ==> status == Success)
    && (l in m && !m[l].prot.read && !m[l].prot.write ==> status == Unreadable)
    && (status == Success || status == NoEnt || status == Unreadable)
    && (status == Success ==> l in m)
    && value == if status == Success then m[l].content[word] else 0
  }

  ghost predicate WriteReports(m: Mem, l: Loc, status: Status) {
    && (status == NoEnt <==> l !in m)
    && (status == PermDenied <==> l in m && !m[l].prot.write)
    && (l in m && m[l].prot.write && m[l].prot.read ==> status == Success)
    && (status == Success || status == NoEnt || status == PermDenied || status == Unreadable)
  }

  /** `trace` is a run of the eager model over `ops` with reports `outs`. */
  ghost predicate IsRun(ops: seq<Op>, outs: seq<Outcome>, trace: seq<Mem>, pager: ObjPage -> Content) {
    && |outs| == |ops| && |trace| == |ops| + 1
    && forall i :: 0 <= i < |ops| ==> Step(trace[i], ops[i], outs[i], trace[i + 1], pager)
  }
}
