/**
 * Encoding of flattened schedule leaves as pulse Qobj instruction records,
 * one encoder per instruction class, parameterised by the measurement level.
 */
module PulseToDict {

  import opened Wrappers
  import opened Commands
  import opened Instructions
  import opened Schedules

  /**
   * A pulse Qobj instruction: `name` and `t0` always, every other wire field
   * only when present.
   */
  datatype PulseQobjInstruction = PulseQobjInstruction(
    name: string, t0: int,
    ch: Option<string>, phase: Option<real>, val: Option<Complex>,
    duration: Option<nat>, qubits: Option<seq<nat>>, memorySlot: Option<seq<nat>>,
    registerSlot: Option<seq<nat>>, discriminators: Option<seq<MeasurementOption>>,
    kernels: Option<seq<MeasurementOption>>, snapLabel: Option<string>, snapType: Option<string>)
  {
    /** The wire keys the record carries. */
    function Keys(): set<string> {
      {"name", "t0"}
      + (if ch.Some? then {"ch"} else {})
      + (if phase.Some? then {"phase"} else {})
      + (if val.Some? then {"val"} else {})
      + (if duration.Some? then {"duration"} else {})
      + (if qubits.Some? then {"qubits"} else {})
      + (if memorySlot.Some? then {"memory_slot"} else {})
      + (if registerSlot.Some? then {"register_slot"} else {})
      + (if discriminators.Some? then {"discriminators"} else {})
      + (if kernels.Some? then {"kernels"} else {})
      + (if snapLabel.Some? then {"label"} else {})
      + (if snapType.Some? then {"type"} else {})
    }
  }

  /** A record with only `name` and `t0`. */
  function Bare(name: string, t0: int): PulseQobjInstruction {
    PulseQobjInstruction(name, t0, None, None, None, None, None, None, None, None, None, None, None)
  }

  /** `SuperConverter(qobj_model, meas_level=2)`. */
  datatype SuperConverter = SuperConverter(measLevel: int)

  function NewConverter(measLevel: Option<int>): (c: SuperConverter)
    ensures measLevel.None? ==> c.measLevel == 2
    ensures measLevel.Some? ==> c.measLevel == measLevel.value
  {
    SuperConverter(measLevel.GetOr(2))
  }

  /** `[c.index for c in channels]`. */
  function Indices(channels: seq<Channel>): (r: seq<nat>)
    ensures |r| == |channels|
    ensures forall i :: 0 <= i < |channels| ==> r[i] == channels[i].index
  {
    seq(|channels|, i requires 0 <= i < |channels| => channels[i].index)
  }

  /** The measurement-option list for an optional kernel or discriminator. */
  function OptionList(o: Option<MeasurementOption>): (r: seq<MeasurementOption>)
    ensures o.None? ==> r == []
    ensures o.Some? ==> r == [o.value]
  {
    match o
    case None => []
    case Some(m) => [m]
  }

  /**
   * Acquire: `duration`, `qubits` and `memory_slot` always; `discriminators`
   * and `register_slot` at level 2; `kernels` at level 1 and above.
   */
  function ConvertAcquire(level: int, t0: int, a: Acquire, qubits: seq<Channel>,
                          memSlots: seq<Channel>, regSlots: seq<Channel>): (r: PulseQobjInstruction)
    ensures r.name == "acquire" && r.t0 == t0 && r.duration == Some(a.duration)
    ensures r.qubits == Some(Indices(qubits)) && r.memorySlot == Some(Indices(memSlots))
    ensures r.Keys() == {"name", "t0", "duration", "qubits", "memory_slot"}
                        + (if level == 2 then {"discriminators", "register_slot"} else {})
                        + (if level >= 1 then {"kernels"} else {})
    ensures level == 2 ==> r.discriminators == Some(OptionList(a.discriminator))
    ensures level == 2 ==> r.registerSlot == Some(Indices(regSlots))
    ensures level >= 1 ==> r.kernels == Some(OptionList(a.kernel))
  {
    Bare("acquire", t0).(
      duration := Some(a.duration),
      qubits := Some(Indices(qubits)),
      memorySlot := Some(Indices(memSlots)),
      discriminators := if level == 2 then Some(OptionList(a.discriminator)) else None,
      registerSlot := if level == 2 then Some(Indices(regSlots)) else None,
      kernels := if level >= 1 then Some(OptionList(a.kernel)) else None)
  }

  /** Frame change: exactly `name = 'fc'`, `t0`, `ch`, `phase`. */
  function ConvertFrameChange(t0: int, f: FrameChange, channel: Channel): (r: PulseQobjInstruction)
    ensures r.Keys() == {"name", "t0", "ch", "phase"}
    ensures r.name == "fc" && r.t0 == t0 && r.ch == Some(channel.name) && r.phase == Some(f.phase)
  {
    Bare("fc", t0).(ch := Some(channel.name), phase := Some(f.phase))
  }

  /** Persistent value: exactly `name = 'pv'`, `t0`, `ch`, `val`. */
  function ConvertPersistentValue(t0: int, v: PersistentValue, channel: Channel): (r: PulseQobjInstruction)
    ensures r.Keys() == {"name", "t0", "ch", "val"}
    ensures r.name == "pv" && r.t0 == t0 && r.ch == Some(channel.name) && r.val == Some(v.value)
  {
    Bare("pv", t0).(ch := Some(channel.name), val := Some(v.value))
  }

  /** Drive: exactly the pulse's own name, `t0`, `ch`. */
  function ConvertDrive(t0: int, p: SamplePulse, channel: Channel): (r: PulseQobjInstruction)
    ensures r.Keys() == {"name", "t0", "ch"}
    ensures r.name == p.name && r.t0 == t0 && r.ch == Some(channel.name)
  {
    Bare(p.name, t0).(ch := Some(channel.name))
  }

  /** Snapshot: exactly `name = 'snapshot'`, `t0`, `label`, `type`. */
  function ConvertSnapshot(t0: int, s: Snapshot): (r: PulseQobjInstruction)
    ensures r.Keys() == {"name", "t0", "label", "type"}
    ensures r.name == "snapshot" && r.t0 == t0
    ensures r.snapLabel == Some(s.snapLabel) && r.snapType == Some(s.snapType)
  {
    Bare("snapshot", t0).(snapLabel := Some(s.snapLabel), snapType := Some(s.snapType))
  }

  /** The instruction classes an encoder is bound to. */
  datatype InstructionClass = DriveClass | FrameChangeClass | PersistentValueClass | AcquireClass | SnapshotClass

  /** The encoder-bound class of a flattened node, if it has one. */
  function ClassOf(node: Component): Option<InstructionClass> {
    match node
    case Sched(_) => None
    case Leaf(instr) =>
      match instr.body
      case Drive(_, _) => Some(DriveClass)
      case FrameChangeOn(_, _) => Some(FrameChangeClass)
      case PersistentValueOn(_, _) => Some(PersistentValueClass)
      case AcquireOn(_, _, _, _) => Some(AcquireClass)
      case SnapshotAt(_) => Some(SnapshotClass)
      case Plain(_) => None
  }

  /**
   * The record the encoder of the node's own class produces, stamped with
   * the block's begin time: each class has its own name and exact key set.
   */
  function Encode(conv: SuperConverter, b: Block): (r: Option<PulseQobjInstruction>)
    ensures r.Some? <==> ClassOf(b.node).Some?
    ensures r.Some? ==> r.value.t0 == b.beginTime
    ensures ClassOf(b.node) == Some(DriveClass) ==>
      var body := b.node.instruction.body;
      && r.Some?
      && r.value.name == body.pulse.name
      && r.value.Keys() == {"name", "t0", "ch"}
      && r.value.ch == Some(body.channel.name)
    ensures ClassOf(b.node) == Some(FrameChangeClass) ==>
      var body := b.node.instruction.body;
      && r.Some?
      && r.value.name == "fc"
      && r.value.Keys() == {"name", "t0", "ch", "phase"}
      && r.value.ch == Some(body.channel.name)
      && r.value.phase == Some(body.frameChange.phase)
    ensures ClassOf(b.node) == Some(PersistentValueClass) ==>
      var body := b.node.instruction.body;
      && r.Some?
      && r.value.name == "pv"
      && r.value.Keys() == {"name", "t0", "ch", "val"}
      && r.value.ch == Some(body.channel.name)
      && r.value.val == Some(body.persistentValue.value)
    ensures ClassOf(b.node) == Some(AcquireClass) ==>
      var body := b.node.instruction.body;
      && r.Some?
      && r.value.name == "acquire"
      && r.value.Keys() == {"name", "t0", "duration", "qubits", "memory_slot"}
                           + (if conv.measLevel == 2 then {"discriminators", "register_slot"} else {})
                           + (if conv.measLevel >= 1 then {"kernels"} else {})
      && r.value.duration == Some(body.acquire.duration)
      && r.value.qubits == Some(Indices(body.qubits))
      && r.value.memorySlot == Some(Indices(body.memSlots))
      && (conv.measLevel == 2 ==> r.value.discriminators == Some(OptionList(body.acquire.discriminator)))
      && (conv.measLevel == 2 ==> r.value.registerSlot == Some(Indices(body.regSlots)))
      && (conv.measLevel >= 1 ==> r.value.kernels == Some(OptionList(body.acquire.kernel)))
    ensures ClassOf(b.node) == Some(SnapshotClass) ==>
      var body := b.node.instruction.body;
      && r.Some?
      && r.value.name == "snapshot"
      && r.value.Keys() == {"name", "t0", "label", "type"}
      && r.value.snapLabel == Some(body.snapshot.snapLabel)
      && r.value.snapType == Some(body.snapshot.snapType)
  {
    match b.node
    case Sched(_) => None
    case Leaf(instr) =>
      match instr.body
      case Drive(p, ch) => Some(ConvertDrive(b.beginTime, p, ch))
      case FrameChangeOn(f, ch) => Some(ConvertFrameChange(b.beginTime, f, ch))
      case PersistentValueOn(v, ch) => Some(ConvertPersistentValue(b.beginTime, v, ch))
      case AcquireOn(a, q, m, g) => Some(ConvertAcquire(conv.measLevel, b.beginTime, a, q, m, g))
      case SnapshotAt(s) => Some(ConvertSnapshot(b.beginTime, s))
      case Plain(_) => None
  }

  /**
   * `bind_instruction(cls)(convert)`: the encoder's record when the node is an
   * instance of `cls`, and no result otherwise.
   */
  function BindInstruction(cls: InstructionClass, conv: SuperConverter, b: Block): (r: Option<PulseQobjInstruction>)
    ensures r.Some? <==> ClassOf(b.node) == Some(cls)
    ensures r.Some? ==> r == Encode(conv, b)
  {
    if ClassOf(b.node) == Some(cls) then Encode(conv, b) else None
  }

  /** The five bound encoders, in the order the assembler tries them. */
  const Classes: seq<InstructionClass> :=
    [DriveClass, FrameChangeClass, PersistentValueClass, AcquireClass, SnapshotClass]

  /**
   * Exactly one bound encoder answers for a node of a known class, and none
   * for any other node (an empty sub-schedule or a base instruction).
   */
  lemma BindersPartition(conv: SuperConverter, b: Block)
    ensures ClassOf(b.node).Some? ==>
      exists k :: 0 <= k < |Classes| && BindInstruction(Classes[k], conv, b).Some?
    ensures forall j, k :: 0 <= j < k < |Classes| ==>
      !(BindInstruction(Classes[j], conv, b).Some? && BindInstruction(Classes[k], conv, b).Some?)
    ensures ClassOf(b.node).None? ==>
      forall k :: 0 <= k < |Classes| ==> BindInstruction(Classes[k], conv, b).None?
  {
    if ClassOf(b.node).Some? {
      var c := ClassOf(b.node).value;
      var k := if c == DriveClass then 0 else if c == FrameChangeClass then 1
               else if c == PersistentValueClass then 2 else if c == AcquireClass then 3 else 4;
      assert Classes[k] == c;
    }
  }

  /** Level 0 acquires carry none of the level-dependent fields; level 1 only kernels. */
  lemma AcquireLevels(t0: int, a: Acquire, q: seq<Channel>, m: seq<Channel>, g: seq<Channel>)
    ensures var r := ConvertAcquire(0, t0, a, q, m, g);
      r.kernels.None? && r.discriminators.None? && r.registerSlot.None?
    ensures var r := ConvertAcquire(1, t0, a, q, m, g);
      r.kernels.Some? && r.discriminators.None? && r.registerSlot.None?
    ensures var r := ConvertAcquire(2, t0, a, q, m, g);
      r.kernels.Some? && r.discriminators.Some? && r.registerSlot.Some?
  {
  }
}
