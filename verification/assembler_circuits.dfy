/**
 * `assemble_circuits`: lowering gate-level circuits into a QASM Qobj. Each
 * circuit's registers are flattened into global label lists, every operand
 * is resolved to its position there, and one record is emitted per operation.
 */
module CircuitAssembly {

  import opened Wrappers
  import opened Numerals
  import Commands

  type Error = Commands.Error

  datatype Register = Register(name: string, size: nat)

  /** An operand: a register and a position in it (`(reg, j)`). */
  datatype Operand = Operand(register: Register, index: nat)

  /** A header label `[register name, j]`. */
  datatype Label = Label(register: string, index: nat)

  /** A header size entry `[register name, size]`. */
  datatype RegisterSize = RegisterSize(name: string, size: nat)

  /**
   * An operation parameter, by its printed form and, for a matrix-valued
   * parameter, its rows of printed entries. Numeric evaluation is the identity here.
   */
  datatype Param = Param(text: string, matrix: Option<seq<seq<string>>>)

  /** `op.control`: the classical register compared and the value it must equal. */
  datatype Control = Control(register: Register, value: int)

  datatype Operation = Operation(name: string, params: seq<Param>, opLabel: Option<string>, control: Option<Control>)

  /** One entry of `circuit.data`: an operation with its quantum and classical operands. */
  datatype OpContext = OpContext(op: Operation, qargs: seq<Operand>, cargs: seq<Operand>)

  datatype Circuit = Circuit(name: string, qregs: seq<Register>, cregs: seq<Register>, data: seq<OpContext>)

  /** The emitted `params`: the values, or the rows of a lone matrix parameter. */
  datatype EmittedParams = Values(values: seq<Param>) | Rows(rows: seq<seq<string>>)

  datatype QobjConditional = QobjConditional(mask: string, condType: string, val: string)

  datatype QasmQobjInstruction = QasmQobjInstruction(
    name: string, qubits: Option<seq<nat>>, memory: Option<seq<nat>>, params: Option<EmittedParams>,
    instrLabel: Option<string>, snapType: Option<string>, conditional: Option<QobjConditional>)

  datatype ExperimentHeader = ExperimentHeader(
    qubitLabels: seq<Label>, nQubits: nat, qregSizes: seq<RegisterSize>,
    clbitLabels: seq<Label>, memorySlots: nat, cregSizes: seq<RegisterSize>, name: string)

  datatype ExperimentConfig = ExperimentConfig(nQubits: nat, memorySlots: nat)

  datatype Experiment = Experiment(instructions: seq<QasmQobjInstruction>, header: ExperimentHeader,
                                   config: ExperimentConfig)

  /** The run configuration passed through, with the computed maxima. */
  datatype QasmConfig = QasmConfig(runConfig: map<string, string>, nQubits: nat, memorySlots: nat)

  datatype QasmQobj = QasmQobj(qobjId: string, config: QasmConfig, experiments: seq<Experiment>,
                               header: map<string, string>)

  // ---------------------------------------------------------------- registers

  /** `[[reg.name, j] for j in range(reg.size)]`. */
  function RegisterLabels(r: Register): (ls: seq<Label>)
    ensures |ls| == r.size
    ensures forall j :: 0 <= j < r.size ==> ls[j] == Label(r.name, j)
  {
    seq(r.size, j requires 0 <= j < r.size => Label(r.name, j))
  }

  /** The labels of all registers, register by register: as many as their sizes add up to. */
  function Labels(regs: seq<Register>): (r: seq<Label>)
    ensures |r| == TotalSize(regs)
  {
    if regs == [] then [] else RegisterLabels(regs[0]) + Labels(regs[1..])
  }

  function TotalSize(regs: seq<Register>): nat {
    if regs == [] then 0 else regs[0].size + TotalSize(regs[1..])
  }

  function Sizes(regs: seq<Register>): (r: seq<RegisterSize>)
    ensures |r| == |regs|
    ensures forall k :: 0 <= k < |regs| ==> r[k] == RegisterSize(regs[k].name, regs[k].size)
  {
    seq(|regs|, k requires 0 <= k < |regs| => RegisterSize(regs[k].name, regs[k].size))
  }

  /** A label is listed exactly when its register is listed and its index is within that register. */
  lemma {:induction false} LabelsMembership(regs: seq<Register>, l: Label)
    ensures l in Labels(regs) <==> exists k :: 0 <= k < |regs| && regs[k].name == l.register && l.index < regs[k].size
  {
    if regs != [] {
      LabelsMembership(regs[1..], l);
      if l in Labels(regs[1..]) {
        var k :| 0 <= k < |regs[1..]| && regs[1..][k].name == l.register && l.index < regs[1..][k].size;
        assert regs[k + 1] == regs[1..][k];
      }
      if l in RegisterLabels(regs[0]) {
        var j :| 0 <= j < |RegisterLabels(regs[0])| && RegisterLabels(regs[0])[j] == l;
        assert regs[0].name == l.register && l.index < regs[0].size;
      }
      if exists k :: 0 <= k < |regs| && regs[k].name == l.register && l.index < regs[k].size {
        var k :| 0 <= k < |regs| && regs[k].name == l.register && l.index < regs[k].size;
        if k == 0 {
          assert RegisterLabels(regs[0])[l.index] == l;
        } else {
          assert regs[1..][k - 1] == regs[k];
        }
      }
    }
  }

  predicate DistinctNames(regs: seq<Register>) {
    forall i, j :: 0 <= i < j < |regs| ==> regs[i].name != regs[j].name
  }

  /** Registers with distinct names give every bit a distinct label. */
  lemma {:induction false} LabelsDistinct(regs: seq<Register>)
    requires DistinctNames(regs)
    ensures NoDuplicates(Labels(regs))
  {
    if regs != [] {
      LabelsDistinct(regs[1..]);
      var head := RegisterLabels(regs[0]);
      var tail := Labels(regs[1..]);
      forall i, j | 0 <= i < |head| && 0 <= j < |tail|
        ensures head[i] != tail[j]
      {
        LabelsMembership(regs[1..], tail[j]);
        var k :| 0 <= k < |regs[1..]| && regs[1..][k].name == tail[j].register && tail[j].index < regs[1..][k].size;
        assert regs[k + 1] == regs[1..][k];
      }
      assert Labels(regs) == head + tail;
    }
  }

  // ----------------------------------------------------------------- lookup

  /** Python's `labels.index(l)`: the first position of `l`, none when absent. */
  function IndexOf(labels: seq<Label>, l: Label): (r: Option<nat>)
    ensures r.None? <==> l !in labels
    ensures r.Some? ==> r.value < |labels| && labels[r.value] == l
    ensures r.Some? ==> forall k :: 0 <= k < r.value ==> labels[k] != l
  {
    if labels == [] then None
    else if labels[0] == l then Some(0)
    else
      match IndexOf(labels[1..], l)
      case None => None
      case Some(i) => Some(i + 1)
  }

  function LabelOf(b: Operand): Label {
    Label(b.register.name, b.index)
  }

  /**
   * `[labels.index([b[0].name, b[1]]) for b in bits]`: each operand's position,
   * failing at the first operand whose label is absent.
   */
  function Resolve(bits: seq<Operand>, labels: seq<Label>): (r: Result<seq<nat>, Error>)
    ensures r.Success? <==> forall k :: 0 <= k < |bits| ==> LabelOf(bits[k]) in labels
    ensures r.Success? ==> |r.value| == |bits|
    ensures r.Success? ==> forall k :: 0 <= k < |bits| ==>
      r.value[k] < |labels| && labels[r.value[k]] == LabelOf(bits[k]) && Some(r.value[k]) == IndexOf(labels, LabelOf(bits[k]))
    ensures r.Failure? ==> exists k :: 0 <= k < |bits| && LabelOf(bits[k]) !in labels &&
                             (forall j :: 0 <= j < k ==> LabelOf(bits[j]) in labels) &&
                             r.error == Commands.LabelNotFound(bits[k].register.name, bits[k].index)
  {
    if bits == [] then Success([])
    else
      match IndexOf(labels, LabelOf(bits[0]))
      case None => Failure(Commands.LabelNotFound(bits[0].register.name, bits[0].index))
      case Some(i) =>
        match Resolve(bits[1..], labels)
        case Failure(e) =>
          assert forall k :: 1 <= k < |bits| ==> bits[1..][k - 1] == bits[k];
          Failure(e)
        case Success(rest) =>
          assert forall k :: 1 <= k < |bits| ==> bits[1..][k - 1] == bits[k];
          Success([i] + rest)
  }

  // ------------------------------------------------------------------- mask

  /**
   * The mask after the loop has visited `labels[..k]`: each label of the
   * control register sets the bit at that label's (first) position.
   */
  function MaskUpTo(labels: seq<Label>, name: string, k: nat): (m: nat)
    requires k <= |labels|
    ensures forall b: nat :: Bit(m, b) <==>
      exists i :: 0 <= i < k && labels[i].register == name && IndexOf(labels, labels[i]) == Some(b)
  {
    if k == 0 then
      ZeroHasNoBitsAtAll();
      0
    else
      var m := MaskUpTo(labels, name, k - 1);
      if labels[k - 1].register == name then
        var p := IndexOf(labels, labels[k - 1]).value;
        BitOrAllBits(m, Pow2(p));
        Pow2AllBits(p);
        BitOr(m, Pow2(p))
      else m
  }

  /** The conditional mask: only bits whose label belongs to the control register are set. */
  function Mask(labels: seq<Label>, name: string): (m: nat)
    ensures forall b: nat :: Bit(m, b) ==> b < |labels| && labels[b].register == name
  {
    MaskUpTo(labels, name, |labels|)
  }

  /**
   * With distinct labels, bit `b` of the mask is set exactly when label `b`
   * belongs to the control register, whether or not that bit is compared.
   */
  lemma MaskBits(labels: seq<Label>, name: string, b: nat)
    requires NoDuplicates(labels)
    ensures Bit(Mask(labels, name), b) <==> b < |labels| && labels[b].register == name
  {
    if b < |labels| && labels[b].register == name {
      assert IndexOf(labels, labels[b]) == Some(b);
    }
  }

  /**
   * A two-bit register `c` after a one-bit register `a`: the mask has the
   * bits of `c`'s global positions 1 and 2 set, and reads `0x6`.
   */
  lemma SecondRegisterMask()
    ensures Mask(Labels([Register("a", 1), Register("c", 2)]), "c") == 6
    ensures Hex(Mask(Labels([Register("a", 1), Register("c", 2)]), "c")) == "0x6"
  {
    var ls := Labels([Register("a", 1), Register("c", 2)]);
    assert ls == [Label("a", 0), Label("c", 0), Label("c", 1)];
    assert IndexOf(ls, ls[1]) == Some(1);
    assert IndexOf(ls, ls[2]) == Some(2);
    assert MaskUpTo(ls, "c", 1) == 0;
    assert Pow2(1) == 2 && Pow2(2) == 4;
    assert MaskUpTo(ls, "c", 2) == BitOr(0, 2) == 2;
    assert BitOr(1, 2) == 3;
    assert MaskUpTo(ls, "c", 3) == BitOr(2, 4) == 6;
  }

  // ------------------------------------------------------------ instructions

  /** The evaluated parameters: a lone matrix parameter is emitted as its rows. */
  function EmitParams(ps: seq<Param>): (r: EmittedParams)
    ensures |ps| == 1 && ps[0].matrix.Some? ==> r == Rows(ps[0].matrix.value)
    ensures !(|ps| == 1 && ps[0].matrix.Some?) ==> r == Values(ps)
  {
    if |ps| == 1 && ps[0].matrix.Some? then Rows(ps[0].matrix.value) else Values(ps)
  }

  /**
   * The `conditional` of an operation conditioned on `c`: an `equals` test
   * whose mask reads back as the register's bits and whose value reads back
   * as `c.value`, written `0x-…` when it is negative.
   */
  function Conditional(clbitLabels: seq<Label>, c: Control): (r: QobjConditional)
    ensures r.condType == "equals"
    ensures r.mask == Hex(Mask(clbitLabels, c.register.name)) && r.val == Hex(c.value)
    ensures |r.mask| >= 3 && r.mask[..2] == "0x" && ValueOf(r.mask[2..], 16) == Mask(clbitLabels, c.register.name)
    ensures c.value >= 0 ==> |r.val| >= 3 && r.val[..2] == "0x" && ValueOf(r.val[2..], 16) == c.value
    ensures c.value < 0 ==> |r.val| >= 4 && r.val[..3] == "0x-" && ValueOf(r.val[3..], 16) == -c.value
  {
    QobjConditional(Hex(Mask(clbitLabels, c.register.name)), "equals", Hex(c.value))
  }

  /** The record for one operation of `circuit.data`. */
  function AssembleInstruction(ctx: OpContext, qubitLabels: seq<Label>, clbitLabels: seq<Label>)
    : (r: Result<QasmQobjInstruction, Error>)
    ensures r.Success? <==>
      && Resolve(ctx.qargs, qubitLabels).Success?
      && Resolve(ctx.cargs, clbitLabels).Success?
      && (ctx.op.name == "snapshot" ==> |ctx.op.params| >= 2)
    ensures r.Success? ==> r.value.name == ctx.op.name
    ensures r.Success? ==> (r.value.qubits.Some? <==> |ctx.qargs| > 0)
    ensures r.Success? && |ctx.qargs| > 0 ==> r.value.qubits == Resolve(ctx.qargs, qubitLabels).ToOption()
    ensures r.Success? ==> (r.value.memory.Some? <==> |ctx.cargs| > 0)
    ensures r.Success? && |ctx.cargs| > 0 ==> r.value.memory == Resolve(ctx.cargs, clbitLabels).ToOption()
    ensures r.Success? ==> (r.value.params.Some? <==> |ctx.op.params| > 0)
    ensures r.Success? && |ctx.op.params| > 0 ==> r.value.params == Some(EmitParams(ctx.op.params))
    ensures r.Success? && ctx.op.name != "snapshot" ==> r.value.snapType.None?
    ensures r.Success? && ctx.op.name != "snapshot" && !(ctx.op.name == "unitary" && Given(ctx.op.opLabel)) ==>
      r.value.instrLabel.None?
    ensures r.Success? && ctx.op.name == "snapshot" ==>
      r.value.instrLabel == Some(ctx.op.params[0].text) && r.value.snapType == Some(ctx.op.params[1].text)
    ensures r.Success? && ctx.op.name == "unitary" && Given(ctx.op.opLabel) ==> r.value.instrLabel == ctx.op.opLabel
    ensures r.Success? ==> (r.value.conditional.Some? <==> ctx.op.control.Some?)
    ensures r.Success? && ctx.op.control.Some? ==>
      r.value.conditional == Some(Conditional(clbitLabels, ctx.op.control.value))
    ensures Resolve(ctx.qargs, qubitLabels).Failure? ==> r == Failure(Resolve(ctx.qargs, qubitLabels).error)
    ensures Resolve(ctx.qargs, qubitLabels).Success? && Resolve(ctx.cargs, clbitLabels).Failure? ==>
      r == Failure(Resolve(ctx.cargs, clbitLabels).error)
    ensures
      && Resolve(ctx.qargs, qubitLabels).Success?
      && Resolve(ctx.cargs, clbitLabels).Success?
      && ctx.op.name == "snapshot" && |ctx.op.params| < 2
      ==> r == Failure(Commands.SnapshotParamsMissing)
  {
    var op := ctx.op;
    var qubits :- if |ctx.qargs| > 0 then ResolveSome(ctx.qargs, qubitLabels) else Success(None);
    var memory :- if |ctx.cargs| > 0 then ResolveSome(ctx.cargs, clbitLabels) else Success(None);
    var params := if |op.params| > 0 then Some(EmitParams(op.params)) else None;
    if op.name == "snapshot" && |op.params| < 2 then Failure(Commands.SnapshotParamsMissing)
    else
      var base := QasmQobjInstruction(op.name, qubits, memory, params, None, None, None);
      var labelled :=
        if op.name == "snapshot" then base.(instrLabel := Some(op.params[0].text), snapType := Some(op.params[1].text))
        else if op.name == "unitary" && Given(op.opLabel) then base.(instrLabel := op.opLabel)
        else base;
      Success(if op.control.Some? then labelled.(conditional := Some(Conditional(clbitLabels, op.control.value)))
              else labelled)
  }

  function ResolveSome(bits: seq<Operand>, labels: seq<Label>): (r: Result<Option<seq<nat>>, Error>)
    ensures r.Success? <==> Resolve(bits, labels).Success?
    ensures r.Success? ==> r.value == Resolve(bits, labels).ToOption()
    ensures r.Failure? ==> r.error == Resolve(bits, labels).error
  {
    match Resolve(bits, labels)
    case Success(ix) => Success(Some(ix))
    case Failure(e) => Failure(e)
  }

  /** The records for `data[i..]`, failing at the first operation that fails. */
  function AssembleInstructions(data: seq<OpContext>, qubitLabels: seq<Label>, clbitLabels: seq<Label>)
    : (r: Result<seq<QasmQobjInstruction>, Error>)
    ensures r.Success? <==> forall i :: 0 <= i < |data| ==> AssembleInstruction(data[i], qubitLabels, clbitLabels).Success?
    ensures r.Success? ==> |r.value| == |data|
    ensures r.Success? ==> forall i :: 0 <= i < |data| ==>
      AssembleInstruction(data[i], qubitLabels, clbitLabels) == Success(r.value[i])
    ensures r.Failure? ==>
      exists i :: 0 <= i < |data| && AssembleInstruction(data[i], qubitLabels, clbitLabels) == Failure(r.error) &&
        forall j :: 0 <= j < i ==> AssembleInstruction(data[j], qubitLabels, clbitLabels).Success?
  {
    if data == [] then Success([])
    else
      assert forall i :: 1 <= i < |data| ==> data[1..][i - 1] == data[i];
      match AssembleInstruction(data[0], qubitLabels, clbitLabels)
      case Failure(e) => Failure(e)
      case Success(head) =>
        match AssembleInstructions(data[1..], qubitLabels, clbitLabels)
        case Failure(e) => Failure(e)
        case Success(tail) => Success([head] + tail)
  }

  /** One experiment: header and config from the registers, one record per operation. */
  function AssembleExperiment(c: Circuit): (r: Result<Experiment, Error>)
    ensures r.Success? ==> r.value.header.qubitLabels == Labels(c.qregs)
    ensures r.Success? ==> r.value.header.clbitLabels == Labels(c.cregs)
    ensures r.Success? ==> r.value.header.nQubits == r.value.config.nQubits == |Labels(c.qregs)|
    ensures r.Success? ==> r.value.header.memorySlots == r.value.config.memorySlots == |Labels(c.cregs)|
    ensures r.Success? ==> r.value.header.qregSizes == Sizes(c.qregs) && r.value.header.cregSizes == Sizes(c.cregs)
    ensures r.Success? ==> r.value.header.name == c.name
    ensures r.Success? <==> AssembleInstructions(c.data, Labels(c.qregs), Labels(c.cregs)).Success?
    ensures r.Success? ==> r.value.instructions == AssembleInstructions(c.data, Labels(c.qregs), Labels(c.cregs)).value
    ensures r.Failure? ==> AssembleInstructions(c.data, Labels(c.qregs), Labels(c.cregs)) == Failure(r.error)
  {
    var ql := Labels(c.qregs);
    var cl := Labels(c.cregs);
    var nQubits := TotalSize(c.qregs);
    var memorySlots := TotalSize(c.cregs);
    var header := ExperimentHeader(ql, nQubits, Sizes(c.qregs), cl, memorySlots, Sizes(c.cregs), c.name);
    var instructions :- AssembleInstructions(c.data, ql, cl);
    Success(Experiment(instructions, header, ExperimentConfig(nQubits, memorySlots)))
  }

  /** `m` is the largest of `xs`, or 0 when `xs` is empty. */
  predicate IsMaxOf(m: nat, xs: seq<nat>) {
    && (forall k :: 0 <= k < |xs| ==> xs[k] <= m)
    && (|xs| == 0 ==> m == 0)
    && (|xs| > 0 ==> exists k :: 0 <= k < |xs| && xs[k] == m)
  }

  /** The loop's `if n > max: max = n` keeps the maximum of what it has seen. */
  lemma MaxStep(m: nat, xs: seq<nat>, x: nat)
    requires IsMaxOf(m, xs)
    ensures IsMaxOf(if x > m then x else m, xs + [x])
  {
    var ys := xs + [x];
    assert ys[|xs|] == x;
    assert forall k :: 0 <= k < |xs| ==> ys[k] == xs[k];
    if x <= m && |xs| > 0 {
      var k :| 0 <= k < |xs| && xs[k] == m;
      assert ys[k] == m;
    }
  }

  lemma CountsStep(maxQubits: nat, maxMemorySlots: nat, es: seq<Experiment>, e: Experiment)
    requires IsMaxOf(maxQubits, QubitCounts(es)) && IsMaxOf(maxMemorySlots, MemorySlotCounts(es))
    ensures IsMaxOf(if e.config.nQubits > maxQubits then e.config.nQubits else maxQubits, QubitCounts(es + [e]))
    ensures IsMaxOf(if e.config.memorySlots > maxMemorySlots then e.config.memorySlots else maxMemorySlots,
                    MemorySlotCounts(es + [e]))
  {
    MaxStep(maxQubits, QubitCounts(es), e.config.nQubits);
    MaxStep(maxMemorySlots, MemorySlotCounts(es), e.config.memorySlots);
    assert QubitCounts(es + [e]) == QubitCounts(es) + [e.config.nQubits];
    assert MemorySlotCounts(es + [e]) == MemorySlotCounts(es) + [e.config.memorySlots];
  }

  function QubitCounts(es: seq<Experiment>): (r: seq<nat>)
    ensures |r| == |es| && forall k :: 0 <= k < |es| ==> r[k] == es[k].config.nQubits
  {
    seq(|es|, k requires 0 <= k < |es| => es[k].config.nQubits)
  }

  function MemorySlotCounts(es: seq<Experiment>): (r: seq<nat>)
    ensures |r| == |es| && forall k :: 0 <= k < |es| ==> r[k] == es[k].config.memorySlots
  {
    seq(|es|, k requires 0 <= k < |es| => es[k].config.memorySlots)
  }

  /**
   * The loop of `assemble_circuits`, over any per-circuit step `assemble`:
   * every circuit's experiment in order, stopping at the first failure, with
   * the largest qubit and memory-slot counts among them.
   */
  method AssembleExperiments(circuits: seq<Circuit>, assemble: Circuit -> Result<Experiment, Error>)
    returns (r: Result<seq<Experiment>, Error>, maxQubits: nat, maxMemorySlots: nat)
    ensures r.Success? <==> forall i :: 0 <= i < |circuits| ==> assemble(circuits[i]).Success?
    ensures r.Failure? ==> exists i ::
      && 0 <= i < |circuits|
      && assemble(circuits[i]) == Failure(r.error)
      && forall j :: 0 <= j < i ==> assemble(circuits[j]).Success?
    ensures r.Success? ==> |r.value| == |circuits|
    ensures r.Success? ==> forall i :: 0 <= i < |circuits| ==> assemble(circuits[i]) == Success(r.value[i])
    ensures r.Success? ==> IsMaxOf(maxQubits, QubitCounts(r.value))
    ensures r.Success? ==> IsMaxOf(maxMemorySlots, MemorySlotCounts(r.value))
  {
    var experiments: seq<Experiment> := [];
    maxQubits, maxMemorySlots := 0, 0;
    var i := 0;
    while i < |circuits|
      invariant 0 <= i <= |circuits|
      invariant |experiments| == i
      invariant forall k :: 0 <= k < i ==> assemble(circuits[k]) == Success(experiments[k])
      invariant IsMaxOf(maxQubits, QubitCounts(experiments))
      invariant IsMaxOf(maxMemorySlots, MemorySlotCounts(experiments))
    {
      var e := assemble(circuits[i]);
      if e.Failure? {
        return Failure(e.error), maxQubits, maxMemorySlots;
      }
      CountsStep(maxQubits, maxMemorySlots, experiments, e.value);
      experiments := experiments + [e.value];
      if e.value.config.nQubits > maxQubits {
        maxQubits := e.value.config.nQubits;
      }
      if e.value.config.memorySlots > maxMemorySlots {
        maxMemorySlots := e.value.config.memorySlots;
      }
      i := i + 1;
    }
    r := Success(experiments);
  }

  /**
   * `assemble_circuits`: one experiment per circuit, in order; the top-level
   * `n_qubits` and `memory_slots` are the largest over all circuits (0 when
   * there are none). `freshId` stands for the generated identifier.
   */
  method AssembleCircuits(circuits: seq<Circuit>, runConfig: map<string, string>,
                          qobjHeader: Option<map<string, string>>, qobjId: Option<string>, freshId: string)
    returns (r: Result<QasmQobj, Error>)
    ensures r.Success? <==> forall i :: 0 <= i < |circuits| ==> AssembleExperiment(circuits[i]).Success?
    ensures r.Failure? ==> exists i ::
      && 0 <= i < |circuits|
      && AssembleExperiment(circuits[i]) == Failure(r.error)
      && forall j :: 0 <= j < i ==> AssembleExperiment(circuits[j]).Success?
    ensures r.Success? ==> |r.value.experiments| == |circuits|
    ensures r.Success? ==> forall i :: 0 <= i < |circuits| ==> AssembleExperiment(circuits[i]) == Success(r.value.experiments[i])
    ensures r.Success? ==> IsMaxOf(r.value.config.nQubits, QubitCounts(r.value.experiments))
    ensures r.Success? ==> IsMaxOf(r.value.config.memorySlots, MemorySlotCounts(r.value.experiments))
    ensures r.Success? ==> r.value.config.runConfig == runConfig
    ensures r.Success? ==> r.value.qobjId == if Given(qobjId) then qobjId.value else freshId
    ensures r.Success? ==> r.value.header == qobjHeader.GetOr(map[])
  {
    var experiments, maxQubits, maxMemorySlots := AssembleExperiments(circuits, AssembleExperiment);
    if experiments.Failure? {
      return Failure(experiments.error);
    }
    var id := if Given(qobjId) then qobjId.value else freshId;
    r := Success(QasmQobj(id, QasmConfig(runConfig, maxQubits, maxMemorySlots), experiments.value,
                          qobjHeader.GetOr(map[])));
  }
}
