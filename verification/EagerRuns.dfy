/** What the runs of the eager model promise, and so, by refinement, every run of
    the operations on address spaces. */
module EagerRuns {
  import opened AmapIndex
  import opened VmState
  import opened EagerMemory

  // Reports ----------------------------------------------------------------------

  /** In every run an operation other than `vm_protect` that fails, or is not
      admissible, changes nothing; unmapping and forking do not fail. */
  lemma FailureChangesNothing(ops: seq<Op>, outs: seq<Outcome>, trace: seq<Mem>, pager: ObjPage -> Content, k: nat)
    requires IsRun(ops, outs, trace, pager) && k < |ops|
    ensures outs[k].Skipped? <==> !Admissible(trace[k], ops[k])
    ensures outs[k].Skipped? || (outs[k].status != Success && !ops[k].OpProtect?) ==> trace[k + 1] == trace[k]
    ensures outs[k].Done? && (ops[k].OpUnmap? || ops[k].OpFork?) ==> outs[k].status == Success
  {
    assert Step(trace[k], ops[k], outs[k], trace[k + 1], pager);
  }

  /** A page that may be written and not read: the processor may read it after a
      store, and a fault may not. */
  predicate WriteOnly(m: Mem, l: Loc) {
    l in m && m[l].prot.write && !m[l].prot.read
  }

  predicate Unclear(m: Mem, op: Op) {
    (op.OpRead? || op.OpWrite?) && WriteOnly(m, op.at)
  }

  /** The memory and the operation determine the status; and with the identifier
      of a new object also the whole report and the memory afterwards. */
  lemma StepDetermined(m: Mem, op: Op, out1: Outcome, m1: Mem, out2: Outcome, m2: Mem, pager: ObjPage -> Content)
    requires Step(m, op, out1, m1, pager) && Step(m, op, out2, m2, pager) && !Unclear(m, op)
    ensures out1.Skipped? <==> out2.Skipped?
    ensures out1.Done? ==> out1.status == out2.status
    ensures !op.OpMap? || out1 == out2 ==> out1 == out2 && m1 == m2
  {
    hide Map, Unmap, Fork, EagerMemory.Protect, Store, Busy, NewObject;
  }

  /** Two runs of the same operations from the same memory that name new objects
      alike give the same reports and memories, up to a first page that may be
      written and not read. */
  lemma {:induction false} RunDetermined(ops: seq<Op>, outs1: seq<Outcome>, trace1: seq<Mem>, outs2: seq<Outcome>, trace2: seq<Mem>,
                                         pager: ObjPage -> Content, k: nat)
    requires IsRun(ops, outs1, trace1, pager) && IsRun(ops, outs2, trace2, pager) && trace1[0] == trace2[0] && k <= |ops|
    requires forall i :: 0 <= i < k ==> !Unclear(trace1[i], ops[i])
    requires forall i :: 0 <= i < k && ops[i].OpMap? && outs1[i].Done? && outs2[i].Done? ==> outs1[i].value == outs2[i].value
    ensures outs1[..k] == outs2[..k] && trace1[..k + 1] == trace2[..k + 1]
  {
    hide Step, Unclear;
    if k > 0 {
      var i := k - 1;
      RunDetermined(ops, outs1, trace1, outs2, trace2, pager, i);
      assert trace1[i] == trace1[..k][i] == trace2[..k][i];
      StepDetermined(trace1[i], ops[i], outs1[i], trace1[k], outs2[i], trace2[k], pager);
      assert outs1[..k] == outs1[..i] + [outs1[i]] && outs2[..k] == outs2[..i] + [outs2[i]];
      assert trace1[..k + 1] == trace1[..k] + [trace1[k]] && trace2[..k + 1] == trace2[..k] + [trace2[k]];
    }
  }

  // Protection ------------------------------------------------------------------------

  /** Write, execute, read: each stands for those after it. */
  function Rank(p: Prot): nat {
    if p.write then 3 else if p.exec then 2 else if p.read then 1 else 0
  }

  /** What `vm_check_prot` decides. */
  lemma AllowedExact(maxProt: Prot, prot: Prot)
    ensures AllowedBy(maxProt, prot) <==> Rank(prot) <= Rank(maxProt)
  {
  }

  /** `vm_protect` refuses exactly when some page of the range has too low a
      maximum; and then the pages below the first such one are protected. */
  lemma ProtectRefused(m: Mem, op: Op, out: Outcome, m': Mem, pager: ObjPage -> Content)
    requires Step(m, op, out, m', pager) && Admissible(m, op) && op.OpProtect?
    ensures out.Done? && (out.status == Success || out.status == PermDenied)
    ensures out.status == PermDenied <==>
      !op.setMax && exists v :: op.lo <= v < op.hi && Loc(op.space, v) in m && Rank(m[Loc(op.space, v)].maxProt) < Rank(op.prot)
    ensures m'.Keys == m.Keys
    ensures forall l :: l in m ==>
      m'[l] == if l.space == op.space && op.lo <= l.vpn < op.hi && (op.setMax || NoneTooLow(m, op, l.vpn))
               then m[l].(prot := op.prot, maxProt := if op.setMax then op.prot else m[l].maxProt)
               else m[l]
  {
    forall l | l in m { AllowedExact(m[l].maxProt, op.prot); }
    var v := FirstDenied(m, op.space, op.lo, op.hi, op.prot);
    forall l | l in m && l.space == op.space && op.lo <= l.vpn < op.hi
      ensures l.vpn < v <==> NoneTooLow(m, op, l.vpn)
    {
      assert l == Loc(op.space, l.vpn);
      if v <= l.vpn { assert Loc(op.space, v) in m; }
    }
  }

  /** No page of the range up to `v` has too low a maximum. */
  ghost predicate NoneTooLow(m: Mem, op: Op, v: nat)
    requires op.OpProtect?
  {
    forall u :: op.lo <= u <= v && Loc(op.space, u) in m ==> Rank(op.prot) <= Rank(m[Loc(op.space, u)].maxProt)
  }

  ghost predicate WithinMax(m: Mem) {
    forall l :: l in m ==> Rank(m[l].prot) <= Rank(m[l].maxProt)
  }

  lemma StepWithinMax(m: Mem, op: Op, out: Outcome, m': Mem, pager: ObjPage -> Content)
    requires Step(m, op, out, m', pager) && WithinMax(m)
    ensures WithinMax(m')
  {
    hide AllowedBy, FirstDenied;
    if op.OpProtect? && Admissible(m, op) {
      hide Step, EagerMemory.Protect, NoneTooLow;
      ProtectRefused(m, op, out, m', pager);
      forall l | l in m' ensures Rank(m'[l].prot) <= Rank(m'[l].maxProt) {
        if l.space == op.space && op.lo <= l.vpn < op.hi && NoneTooLow(m, op, l.vpn) { HighEnough(m, op, l); }
      }
    }
  }

  lemma HighEnough(m: Mem, op: Op, l: Loc)
    requires op.OpProtect? && l in m && l.space == op.space && op.lo <= l.vpn < op.hi && NoneTooLow(m, op, l.vpn)
    ensures Rank(op.prot) <= Rank(m[l].maxProt)
  {
    assert l == Loc(op.space, l.vpn);
  }

  /** In every memory of every run no page may be used beyond its maximum. */
  lemma {:induction false} RunWithinMax(ops: seq<Op>, outs: seq<Outcome>, trace: seq<Mem>, pager: ObjPage -> Content, k: nat)
    requires IsRun(ops, outs, trace, pager) && k < |trace| && WithinMax(trace[0])
    ensures WithinMax(trace[k])
  {
    hide Step, WithinMax;
    if k > 0 {
      RunWithinMax(ops, outs, trace, pager, k - 1);
      StepWithinMax(trace[k - 1], ops[k - 1], outs[k - 1], trace[k], pager);
    }
  }

  /** Only `vm_protect` with the set-max flag changes what a page may become. */
  lemma StepKeepsMax(m: Mem, op: Op, out: Outcome, m': Mem, pager: ObjPage -> Content, l: Loc)
    requires Step(m, op, out, m', pager) && l in m && !Remaps(op, l) && !(op.OpProtect? && op.setMax)
    ensures l in m' && m'[l].maxProt == m[l].maxProt && m'[l].back == m[l].back
  {
    assert l == Loc(l.space, l.vpn);
  }

  // Contents ------------------------------------------------------------------------------

  /** The operation takes the page away, or maps over it. */
  predicate Remaps(op: Op, l: Loc) {
    match op
    case OpMap(space, base, len, _, _, overwrite) => overwrite && l.space == space && base <= l.vpn < base + len
    case OpUnmap(space, lo, hi) => l.space == space && lo <= l.vpn < hi
    case _ => false
  }

  predicate Touches(op: Op, l: Loc, word: nat) {
    Remaps(op, l) || (op.OpWrite? && op.at == l && op.word == word)
  }

  lemma StepKeepsWord(m: Mem, op: Op, out: Outcome, m': Mem, pager: ObjPage -> Content, l: Loc, word: nat)
    requires Step(m, op, out, m', pager) && l in m && word < PAGE_WORDS && !Touches(op, l, word)
    ensures l in m' && m'[l].content[word] == m[l].content[word]
  {
    assert l == Loc(l.space, l.vpn);
  }

  /** A word stays as it is until it is stored to or its page is remapped, whatever
      happens to other words, pages and spaces, and whoever shares the page. */
  lemma {:induction false} RunKeepsWord(ops: seq<Op>, outs: seq<Outcome>, trace: seq<Mem>, pager: ObjPage -> Content, i: nat, j: nat, l: Loc, word: nat)
    requires IsRun(ops, outs, trace, pager) && i <= j <= |ops| && l in trace[i] && word < PAGE_WORDS
    requires forall k :: i <= k < j ==> !Touches(ops[k], l, word)
    ensures l in trace[j] && trace[j][l].content[word] == trace[i][l].content[word]
    decreases j - i
  {
    hide Step, Touches;
    if i < j {
      RunKeepsWord(ops, outs, trace, pager, i, j - 1, l, word);
      StepKeepsWord(trace[j - 1], ops[j - 1], outs[j - 1], trace[j], pager, l, word);
    }
  }

  /** Step `j` loads a word of page `l` that nothing touched since after step `i`. */
  ghost predicate LoadsLater(ops: seq<Op>, outs: seq<Outcome>, i: nat, j: nat, l: Loc, word: nat) {
    && i < j < |ops| == |outs| && word < PAGE_WORDS && ops[j] == OpRead(l, word)
    && outs[i].Done? && outs[i].status == Success && outs[j].Done? && outs[j].status == Success
    && forall k :: i < k < j ==> !Touches(ops[k], l, word)
  }

  lemma LoadSays(ops: seq<Op>, outs: seq<Outcome>, trace: seq<Mem>, pager: ObjPage -> Content, i: nat, j: nat, l: Loc, word: nat)
    requires IsRun(ops, outs, trace, pager) && LoadsLater(ops, outs, i, j, l, word) && l in trace[i + 1]
    ensures outs[j].value == trace[i + 1][l].content[word]
  {
    hide Touches;
    RunKeepsWord(ops, outs, trace, pager, i + 1, j, l, word);
    assert Step(trace[j], ops[j], outs[j], trace[j + 1], pager);
  }

  /** A load gives the value last stored. */
  lemma LoadAfterStore(ops: seq<Op>, outs: seq<Outcome>, trace: seq<Mem>, pager: ObjPage -> Content, i: nat, j: nat, l: Loc, word: nat, value: int)
    requires IsRun(ops, outs, trace, pager) && LoadsLater(ops, outs, i, j, l, word)
    requires ops[i] == OpWrite(l, word, value)
    ensures outs[j].value == value
  {
    assert Step(trace[i], ops[i], outs[i], trace[i + 1], pager);
    LoadSays(ops, outs, trace, pager, i, j, l, word);
  }

  /** A load in a forked space gives what the page held when it was forked,
      whatever was stored to the parent since. */
  lemma LoadAfterFork(ops: seq<Op>, outs: seq<Outcome>, trace: seq<Mem>, pager: ObjPage -> Content, i: nat, j: nat, from: nat, l: Loc, word: nat)
    requires IsRun(ops, outs, trace, pager) && LoadsLater(ops, outs, i, j, l, word)
    requires ops[i] == OpFork(from, l.space)
    ensures Loc(from, l.vpn) in trace[i] ==> outs[j].value == trace[i][Loc(from, l.vpn)].content[word]
  {
    assert Step(trace[i], ops[i], outs[i], trace[i + 1], pager);
    assert l == Loc(l.space, l.vpn);
    if Loc(from, l.vpn) in trace[i] { LoadSays(ops, outs, trace, pager, i, j, l, word); }
  }

  /** A load of a new mapping gives what the pager gives for the page of its object. */
  lemma LoadAfterMap(ops: seq<Op>, outs: seq<Outcome>, trace: seq<Mem>, pager: ObjPage -> Content, i: nat, j: nat, l: Loc, word: nat)
    requires IsRun(ops, outs, trace, pager) && LoadsLater(ops, outs, i, j, l, word)
    requires (ops[i].OpMap? || ops[i].OpMapSame?) && l.space == ops[i].space && ops[i].base <= l.vpn < ops[i].base + ops[i].len
    ensures outs[i].value >= 0 && outs[j].value == pager(ObjPage(outs[i].value, ops[i].offset + (l.vpn - ops[i].base)))[word]
  {
    assert Step(trace[i], ops[i], outs[i], trace[i + 1], pager);
    assert l == Loc(l.space, l.vpn);
    LoadSays(ops, outs, trace, pager, i, j, l, word);
  }

  /** The operation may bring the page into being. */
  predicate Fills(op: Op, l: Loc) {
    match op
    case OpMap(space, base, len, _, _, _) => l.space == space && base <= l.vpn < base + len
    case OpMapSame(space, base, len, _, _, _) => l.space == space && base <= l.vpn < base + len
    case OpFork(_, to) => l.space == to
    case _ => false
  }

  /** A page that is not mapped stays so until it is mapped or forked into. */
  lemma {:induction false} RunKeepsOut(ops: seq<Op>, outs: seq<Outcome>, trace: seq<Mem>, pager: ObjPage -> Content, i: nat, j: nat, l: Loc)
    requires IsRun(ops, outs, trace, pager) && i <= j <= |ops| && l !in trace[i]
    requires forall k :: i <= k < j ==> !Fills(ops[k], l)
    ensures l !in trace[j]
    decreases j - i
  {
    hide Step, Fills;
    if i < j {
      RunKeepsOut(ops, outs, trace, pager, i, j - 1, l);
      StepKeepsOut(trace[j - 1], ops[j - 1], outs[j - 1], trace[j], pager, l);
    }
  }

  lemma StepKeepsOut(m: Mem, op: Op, out: Outcome, m': Mem, pager: ObjPage -> Content, l: Loc)
    requires Step(m, op, out, m', pager) && l !in m && !Fills(op, l)
    ensures l !in m'
  {
  }

  /** After an unmap a load or a store finds nothing in the range, and everything
      outside it as before. */
  lemma AccessAfterUnmap(ops: seq<Op>, outs: seq<Outcome>, trace: seq<Mem>, pager: ObjPage -> Content, i: nat, j: nat, l: Loc)
    requires IsRun(ops, outs, trace, pager) && i < j < |ops| && ops[i].OpUnmap? && ops[i].lo < ops[i].hi
    requires (ops[j].OpRead? || ops[j].OpWrite?) && ops[j].at == l && ops[j].word < PAGE_WORDS
    requires l.space == ops[i].space && ops[i].lo <= l.vpn < ops[i].hi && forall k :: i < k < j ==> !Fills(ops[k], l)
    ensures outs[j] == Done(NoEnt, 0)
    ensures forall x :: x in trace[i] && !(x.space == ops[i].space && ops[i].lo <= x.vpn < ops[i].hi) ==> x in trace[i + 1] && trace[i + 1][x] == trace[i][x]
  {
    assert Step(trace[i], ops[i], outs[i], trace[i + 1], pager);
    RunKeepsOut(ops, outs, trace, pager, i + 1, j, l);
    assert Step(trace[j], ops[j], outs[j], trace[j + 1], pager);
  }
}
