/** Classic BPF: the instruction set, its interpreter, the labelled programs the filter
    builder works on, and the builder with its fix-up pass. */
module Bpf {
  import opened Model
  import opened Bits

  const U32 := 0x1_0000_0000

  /** Loads word, half and byte at k; half at k + x; x := 4 * low nibble at k;
      conditional jumps on a; return k. */
  datatype Op = LdW | LdH | LdB | LdHInd | LdxMsh | Jeq | Jge | Jset | Ret

  datatype Insn = Insn(op: Op, jt: Byte, jf: Byte, k: nat)

  predicate IsJump(op: Op) { op.Jeq? || op.Jge? || op.Jset? }

  function LoadAt(pkt: seq<Byte>, off: nat, size: nat): Option<nat>
    requires size in {1, 2, 4}
  {
    if off + size > |pkt| then None
    else if size == 1 then Some(pkt[off])
    else if size == 2 then Some(Half(pkt, off))
    else Some(Word(pkt, off))
  }

  predicate Taken(op: Op, a: nat, k: nat)
    requires IsJump(op)
  {
    match op
    case Jeq => a == k
    case Jge => a >= k
    case _ => And(a, k) != 0
  }

  /** What running a stretch of code leads to: a returned value, falling off its end with
      registers (a, x), or leaving it through a label that is not marked ahead. */
  datatype Out = Halt(v: nat) | Fall(a: nat, x: nat) | Go(dest: nat, a: nat, x: nat)

  function Loaded(v: Option<nat>, x: nat): Out {
    if v.Some? then Fall(v.value, x) else Halt(0)
  }

  /** One instruction that is not a jump; a load past the end of the packet returns 0. */
  function Step(i: Insn, a: nat, x: nat, pkt: seq<Byte>): (o: Out)
    requires !IsJump(i.op)
    ensures !o.Go?
  {
    match i.op
    case LdW => Loaded(LoadAt(pkt, i.k, 4), x)
    case LdH => Loaded(LoadAt(pkt, i.k, 2), x)
    case LdB => Loaded(LoadAt(pkt, i.k, 1), x)
    case LdHInd => Loaded(LoadAt(pkt, (i.k + x) % U32, 2), x)
    case LdxMsh => (match LoadAt(pkt, i.k, 1)
                    case None => Halt(0)
                    case Some(v) => Fall(a, 4 * And(v, 15)))
    case _ => Halt(i.k)
  }

  /** The interpreter on resolved programs. */
  function Run(ins: seq<Insn>, pc: nat, a: nat, x: nat, pkt: seq<Byte>): nat
    decreases |ins| - pc
  {
    if pc >= |ins| then 0 else
    var i := ins[pc];
    if IsJump(i.op) then Run(ins, pc + 1 + (if Taken(i.op, a, i.k) then i.jt else i.jf), a, x, pkt)
    else match Step(i, a, x, pkt)
         case Halt(v) => v
         case Fall(a', x') => Run(ins, pc + 1, a', x', pkt)
  }

  /** The interpreter loop. */
  method RunFilter(ins: seq<Insn>, pkt: seq<Byte>) returns (v: nat)
    ensures v == Run(ins, 0, 0, 0, pkt)
  {
    var pc, a, x := 0, 0, 0;
    while pc < |ins|
      invariant Run(ins, 0, 0, 0, pkt) == Run(ins, pc, a, x, pkt)
      decreases |ins| - pc
    {
      var i := ins[pc];
      if IsJump(i.op) {
        pc := pc + (if Taken(i.op, a, i.k) then i.jt else i.jf);
      } else {
        match Step(i, a, x, pkt) {
          case Halt(r) => return r;
          case Fall(a', x') => a, x := a', x';
        }
      }
      pc := pc + 1;
    }
    return 0;
  }

  // ---------- labelled programs ----------

  datatype LInsn = Plain(insn: Insn) | Branch(op: Op, k: nat, onTrue: nat, onFalse: nat)

  ghost predicate Proper(i: LInsn) {
    if i.Plain? then !IsJump(i.insn.op) else IsJump(i.op)
  }

  ghost predicate WellFormed(code: seq<LInsn>) {
    forall i | 0 <= i < |code| :: Proper(code[i])
  }

  function Target(b: LInsn, a: nat): nat
    requires b.Branch? && IsJump(b.op)
  {
    if Taken(b.op, a, b.k) then b.onTrue else b.onFalse
  }

  /** Symbolic execution of a labelled program: a label that is not marked ahead stays a Go. */
  ghost function Exec(code: seq<LInsn>, labels: seq<int>, pc: nat, a: nat, x: nat, pkt: seq<Byte>): Out
    requires WellFormed(code)
    decreases |code| - pc
  {
    if pc >= |code| then Fall(a, x) else
    match code[pc]
    case Plain(i) =>
      (match Step(i, a, x, pkt)
       case Halt(v) => Halt(v)
       case Fall(a', x') => Exec(code, labels, pc + 1, a', x', pkt))
    case Branch(_, _, _, _) =>
      var l := Target(code[pc], a);
      if l < |labels| && labels[l] > pc then Exec(code, labels, labels[l], a, x, pkt) else Go(l, a, x)
  }

  /** One appended instruction acts on what used to fall off the end. */
  ghost function Then(o: Out, i: LInsn, pkt: seq<Byte>): Out
    requires Proper(i)
  {
    if !o.Fall? then o
    else if i.Plain? then Step(i.insn, o.a, o.x, pkt)
    else Go(Target(i, o.a), o.a, o.x)
  }

  lemma {:induction false} ExecAppend(code: seq<LInsn>, i: LInsn, labels: seq<int>, pc: nat, a: nat, x: nat, pkt: seq<Byte>)
    requires WellFormed(code) && Proper(i) && WellFormed(code + [i])
    requires forall l | 0 <= l < |labels| :: labels[l] <= |code|
    requires pc <= |code|
    ensures Exec(code + [i], labels, pc, a, x, pkt) == Then(Exec(code, labels, pc, a, x, pkt), i, pkt)
    decreases |code| - pc
  {
    var code' := code + [i];
    if pc < |code| {
      assert code'[pc] == code[pc];
      match code[pc] {
        case Plain(p) =>
          match Step(p, a, x, pkt) {
            case Halt(_) =>
            case Fall(a', x') => ExecAppend(code, i, labels, pc + 1, a', x', pkt);
          }
        case Branch(_, _, _, _) =>
          var l := Target(code[pc], a);
          if l < |labels| && labels[l] > pc { ExecAppend(code, i, labels, labels[l], a, x, pkt); }
      }
    } else {
      assert code'[pc] == i;
      if i.Plain? && Step(i.insn, a, x, pkt).Fall? {
        var o := Step(i.insn, a, x, pkt);
        assert Exec(code', labels, pc + 1, o.a, o.x, pkt) == o;
      }
    }
  }

  /** Marking a label at the end of the code turns the jumps waiting for it into falls. */
  ghost function Landed(o: Out, l: nat): Out {
    if o.Go? && o.dest == l then Fall(o.a, o.x) else o
  }

  lemma {:induction false} ExecMark(code: seq<LInsn>, labels: seq<int>, l: nat, pc: nat, a: nat, x: nat, pkt: seq<Byte>)
    requires WellFormed(code) && l < |labels| && labels[l] == -1 && pc <= |code|
    requires forall m | 0 <= m < |labels| :: labels[m] <= |code|
    ensures Exec(code, labels[l := |code|], pc, a, x, pkt) == Landed(Exec(code, labels, pc, a, x, pkt), l)
    decreases |code| - pc
  {
    if pc < |code| {
      match code[pc] {
        case Plain(p) =>
          match Step(p, a, x, pkt) {
            case Halt(_) =>
            case Fall(a', x') => ExecMark(code, labels, l, pc + 1, a', x', pkt);
          }
        case Branch(_, _, _, _) =>
          var m := Target(code[pc], a);
          if m < |labels| && labels[m] > pc { ExecMark(code, labels, l, labels[m], a, x, pkt); }
      }
    }
  }

  lemma {:induction false} ExecLabel(code: seq<LInsn>, labels: seq<int>, pc: nat, a: nat, x: nat, pkt: seq<Byte>)
    requires WellFormed(code)
    ensures Exec(code, labels + [-1], pc, a, x, pkt) == Exec(code, labels, pc, a, x, pkt)
    decreases |code| - pc
  {
    if pc < |code| {
      match code[pc] {
        case Plain(p) =>
          match Step(p, a, x, pkt) {
            case Halt(_) =>
            case Fall(a', x') => ExecLabel(code, labels, pc + 1, a', x', pkt);
          }
        case Branch(_, _, _, _) =>
          var m := Target(code[pc], a);
          if m < |labels| && labels[m] > pc { ExecLabel(code, labels, labels[m], a, x, pkt); }
      }
    }
  }

  /** A symbolic jump always names a label some branch uses and that is not marked ahead of it. */
  lemma {:induction false} ExecGo(code: seq<LInsn>, labels: seq<int>, pc: nat, a: nat, x: nat, pkt: seq<Byte>) returns (at: nat)
    requires WellFormed(code)
    requires Exec(code, labels, pc, a, x, pkt).Go?
    ensures at < |code| && code[at].Branch?
    ensures var l := Exec(code, labels, pc, a, x, pkt).dest;
            (l == code[at].onTrue || l == code[at].onFalse) && (l < |labels| ==> labels[l] <= at)
    decreases |code| - pc
  {
    match code[pc] {
      case Plain(p) =>
        var o := Step(p, a, x, pkt);
        at := ExecGo(code, labels, pc + 1, o.a, o.x, pkt);
      case Branch(_, _, _, _) =>
        var m := Target(code[pc], a);
        if m < |labels| && labels[m] > pc { at := ExecGo(code, labels, labels[m], a, x, pkt); } else { at := pc; }
    }
  }

  // ---------- the assembler ----------

  /** Every jump of the program reaches its labels within 0..255 instructions ahead. */
  ghost predicate Reaches(labels: seq<int>, l: nat, index: nat) {
    l < |labels| && index < labels[l] <= index + 256
  }

  ghost predicate Resolvable(code: seq<LInsn>, labels: seq<int>) {
    forall i | 0 <= i < |code| && code[i].Branch? ::
      Reaches(labels, code[i].onTrue, i) && Reaches(labels, code[i].onFalse, i)
  }

  /** ins is the resolved form of code: plain instructions unchanged, branches as distances. */
  ghost predicate Resolves(ins: seq<Insn>, code: seq<LInsn>, labels: seq<int>) {
    && |ins| == |code|
    && Resolvable(code, labels)
    && forall i | 0 <= i < |code| ::
         if code[i].Plain? then ins[i] == code[i].insn
         else ins[i] == Insn(code[i].op, labels[code[i].onTrue] - i - 1, labels[code[i].onFalse] - i - 1, code[i].k)
  }

  function Value(o: Out): nat {
    if o.Halt? then o.v else 0
  }

  /** The fix-up pass preserves meaning, from every point of every resolvable program. */
  lemma {:induction false} ResolvedMeans(ins: seq<Insn>, code: seq<LInsn>, labels: seq<int>, pc: nat, a: nat, x: nat, pkt: seq<Byte>)
    requires WellFormed(code) && Resolves(ins, code, labels)
    ensures Run(ins, pc, a, x, pkt) == Value(Exec(code, labels, pc, a, x, pkt))
    ensures !Exec(code, labels, pc, a, x, pkt).Go?
    decreases |code| - pc
  {
    if pc < |code| {
      match code[pc] {
        case Plain(p) =>
          match Step(p, a, x, pkt) {
            case Halt(_) =>
            case Fall(a', x') => ResolvedMeans(ins, code, labels, pc + 1, a', x', pkt);
          }
        case Branch(_, _, _, _) =>
          var m := Target(code[pc], a);
          assert Reaches(labels, m, pc);
          ResolvedMeans(ins, code, labels, labels[m], a, x, pkt);
      }
    }
  }

  datatype Fixup = Fixup(index: nat, onTrue: nat, onFalse: nat)

  ghost predicate InRange(labels: seq<int>, l: nat, index: nat, s: nat) {
    l < |labels| && if labels[l] == -1 then index >= s else Reaches(labels, l, index)
  }

  /** The filter builder: emitted instructions, label positions (-1 until marked) and the jumps
      still to be patched. The ghost program keeps the labels the jumps were written with. */
  class FilterBuilder {
    var ins: seq<Insn>
    var labels: seq<int>
    var fixups: seq<Fixup>
    ghost var code: seq<LInsn>

    ghost predicate Valid()
      reads this
    {
      && |code| == |ins|
      && (forall i | 0 <= i < |code| ::
            ins[i] == if code[i].Plain? then code[i].insn else Insn(code[i].op, 0, 0, code[i].k))
      && Labelled()
    }

    ghost predicate Labelled()
      reads this`labels, this`code, this`fixups
    {
      && WellFormed(code)
      && (forall l | 0 <= l < |labels| :: -1 <= labels[l] <= |code|)
      && FixupsMatch()
    }

    ghost predicate FixupsMatch()
      reads this`labels, this`code, this`fixups
    {
      && (forall j | 0 <= j < |fixups| ::
            fixups[j].index < |code| && code[fixups[j].index].Branch?
            && code[fixups[j].index].onTrue == fixups[j].onTrue && code[fixups[j].index].onFalse == fixups[j].onFalse
            && fixups[j].onTrue < |labels| && fixups[j].onFalse < |labels|)
      && (forall j, k | 0 <= j < k < |fixups| :: fixups[j].index < fixups[k].index)
      && (forall i | 0 <= i < |code| && code[i].Branch? :: exists j :: 0 <= j < |fixups| && fixups[j].index == i)
    }

    /** Labels still open are used only by jumps at or after s; every other use is in range. */
    ghost predicate Local(s: nat)
      requires Valid()
      reads this
    {
      && s <= |ins|
      && forall j | 0 <= j < |fixups| ::
           InRange(labels, fixups[j].onTrue, fixups[j].index, s) && InRange(labels, fixups[j].onFalse, fixups[j].index, s)
    }

    /** What the program emitted so far does with a packet, from its first instruction. */
    ghost function Meaning(pkt: seq<Byte>): Out
      requires Valid()
      reads this
    {
      Exec(code, labels, 0, 0, 0, pkt)
    }

    constructor ()
      ensures Valid() && ins == [] && labels == [] && fixups == []
      ensures forall pkt :: Meaning(pkt) == Fall(0, 0)
    {
      ins, labels, fixups, code := [], [], [], [];
    }

    method Label(ghost s: nat) returns (l: nat)
      requires Valid()
      modifies this
      ensures Valid() && (old(Local(s)) ==> Local(s))
      ensures l == |old(labels)| && labels == old(labels) + [-1]
      ensures ins == old(ins) && fixups == old(fixups) && code == old(code)
      ensures forall pkt :: Meaning(pkt) == old(Meaning(pkt))
      ensures forall pkt :: !(Meaning(pkt).Go? && Meaning(pkt).dest == l)
    {
      labels := labels + [-1];
      l := |labels| - 1;
      forall pkt: seq<Byte> ensures Meaning(pkt) == old(Meaning(pkt)) {
        ExecLabel(code, old(labels), 0, 0, 0, pkt);
      }
      forall pkt: seq<Byte> ensures !(Meaning(pkt).Go? && Meaning(pkt).dest == l) {
        if Meaning(pkt).Go? {
          var at := ExecGo(code, labels, 0, 0, 0, pkt);
          assert exists j :: 0 <= j < |fixups| && fixups[j].index == at;
        }
      }
    }

    method Mark(l: nat, ghost s: nat)
      requires Valid() && l < |labels| && labels[l] == -1
      modifies this
      ensures Valid() && (old(Local(s)) && |ins| <= s + 256 ==> Local(s))
      ensures labels == old(labels)[l := |ins|]
      ensures ins == old(ins) && fixups == old(fixups) && code == old(code)
      ensures forall pkt :: Meaning(pkt) == Landed(old(Meaning(pkt)), l)
    {
      labels := labels[l := |ins|];
      forall pkt: seq<Byte> ensures Meaning(pkt) == Landed(old(Meaning(pkt)), l) {
        ExecMark(code, old(labels), l, 0, 0, 0, pkt);
      }
    }

    method Emit(i: Insn, ghost s: nat)
      requires Valid() && !IsJump(i.op)
      modifies this
      ensures Valid() && (old(Local(s)) ==> Local(s))
      ensures ins == old(ins) + [i] && code == old(code) + [Plain(i)]
      ensures labels == old(labels) && fixups == old(fixups)
      ensures forall pkt :: Meaning(pkt) == Then(old(Meaning(pkt)), Plain(i), pkt)
    {
      ins := ins + [i];
      code := code + [Plain(i)];
      forall pkt: seq<Byte> ensures Meaning(pkt) == Then(old(Meaning(pkt)), Plain(i), pkt) {
        ExecAppend(old(code), Plain(i), labels, 0, 0, 0, pkt);
      }
    }

    method Jump(op: Op, k: nat, onTrue: nat, onFalse: nat, ghost s: nat)
      requires Valid() && IsJump(op) && onTrue < |labels| && onFalse < |labels|
      modifies this
      ensures Valid() && (old(Local(s) && labels[onTrue] == -1 && labels[onFalse] == -1) ==> Local(s))
      ensures ins == old(ins) + [Insn(op, 0, 0, k)] && code == old(code) + [Branch(op, k, onTrue, onFalse)]
      ensures labels == old(labels) && fixups == old(fixups) + [Fixup(|old(ins)|, onTrue, onFalse)]
      ensures forall pkt :: Meaning(pkt) == Then(old(Meaning(pkt)), Branch(op, k, onTrue, onFalse), pkt)
    {
      hide Exec, Then;
      fixups := fixups + [Fixup(|ins|, onTrue, onFalse)];
      ins := ins + [Insn(op, 0, 0, k)];
      code := code + [Branch(op, k, onTrue, onFalse)];
      assert FixupsMatch() by {
        assert fixups[|fixups| - 1].index == |code| - 1;
        forall i | 0 <= i < |code| && code[i].Branch? ensures exists j :: 0 <= j < |fixups| && fixups[j].index == i {
          if i < |code| - 1 {
            var j :| 0 <= j < |old(fixups)| && old(fixups)[j].index == i;
            assert fixups[j].index == i;
          }
        }
      }
      forall pkt: seq<Byte> ensures Meaning(pkt) == Then(old(Meaning(pkt)), Branch(op, k, onTrue, onFalse), pkt) {
        ExecAppend(old(code), Branch(op, k, onTrue, onFalse), labels, 0, 0, 0, pkt);
      }
    }

    /** The patched form of the jump a fixup belongs to. */
    ghost predicate Patched(ins: seq<Insn>, f: Fixup)
      requires Labelled() && f in fixups && |ins| == |code|
      reads this`labels, this`code, this`fixups
    {
      && Reaches(labels, f.onTrue, f.index) && Reaches(labels, f.onFalse, f.index)
      && ins[f.index] == Insn(code[f.index].op, labels[f.onTrue] - f.index - 1, labels[f.onFalse] - f.index - 1, code[f.index].k)
    }

    lemma AllPatched(ins': seq<Insn>)
      requires Labelled() && |ins'| == |code|
      requires forall i | 0 <= i < |code| && code[i].Plain? :: ins'[i] == code[i].insn
      requires forall j | 0 <= j < |fixups| :: Patched(ins', fixups[j])
      ensures Resolves(ins', code, labels)
    {
      forall i | 0 <= i < |code| && code[i].Branch?
        ensures Reaches(labels, code[i].onTrue, i) && Reaches(labels, code[i].onFalse, i)
        ensures ins'[i] == Insn(code[i].op, labels[code[i].onTrue] - i - 1, labels[code[i].onFalse] - i - 1, code[i].k)
      {
        var j :| 0 <= j < |fixups| && fixups[j].index == i;
        assert Patched(ins', fixups[j]);
      }
    }

    /** Patches every jump, or stops at the first distance outside 0..255. */
    method Patch() returns (ok: bool)
      requires Valid()
      modifies this`ins
      ensures ok <==> Resolvable(code, labels)
      ensures ok ==> Resolves(ins, code, labels)
    {
      hide Exec;
      var n := 0;
      while n < |fixups|
        invariant 0 <= n <= |fixups| && |ins| == |code|
        invariant forall i | 0 <= i < |code| && code[i].Plain? :: ins[i] == code[i].insn
        invariant forall j | n <= j < |fixups| :: ins[fixups[j].index] == old(ins)[fixups[j].index]
        invariant forall j | 0 <= j < n :: Patched(ins, fixups[j])
      {
        var fix := fixups[n];
        var base := fix.index + 1;
        var trueDistance := labels[fix.onTrue] - base;
        var falseDistance := labels[fix.onFalse] - base;
        if trueDistance < 0 || trueDistance > 255 || falseDistance < 0 || falseDistance > 255 {
          assert !Reaches(labels, fix.onTrue, fix.index) || !Reaches(labels, fix.onFalse, fix.index);
          return false;
        }
        ins := ins[fix.index := ins[fix.index].(jt := trueDistance, jf := falseDistance)];
        assert Patched(ins, fix);
        n := n + 1;
      }
      AllPatched(ins);
      return true;
    }

    /** The source panics on a distance outside 0..255: ok is false then, and only then. Otherwise
        the resolved program computes what the labelled one means. */
    method Resolve() returns (ok: bool, out: seq<Insn>)
      requires Valid()
      modifies this`ins
      ensures ok <==> Resolvable(code, labels)
      ensures ok ==> Resolves(out, code, labels)
      ensures ok ==> forall pkt :: Run(out, 0, 0, 0, pkt) == Value(old(Meaning(pkt))) && !old(Meaning(pkt)).Go?
    {
      hide Exec, Resolves, Resolvable, Run, FilterBuilder.FixupsMatch;
      ok := Patch();
      if !ok { return false, []; }
      forall pkt: seq<Byte>
        ensures Run(ins, 0, 0, 0, pkt) == Value(old(Meaning(pkt))) && !old(Meaning(pkt)).Go?
      {
        ResolvedMeans(ins, code, labels, 0, 0, 0, pkt);
      }
      return true, ins;
    }
  }
}
