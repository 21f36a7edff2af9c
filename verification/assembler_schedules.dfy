/**
 * `assemble_schedules`: lowering configured pulse schedules into a pulse
 * Qobj. Each schedule is flattened and every leaf encoded; LO frequencies
 * that differ from the defaults are recorded per experiment; the drive
 * pulses used anywhere join the default pulse library.
 */
module ScheduleAssembly {

  import opened Wrappers
  import opened Numerals
  import opened Commands
  import opened Instructions
  import opened Schedules
  import opened PulseToDict

  /** Per-channel user LO frequencies of one experiment. */
  datatype LoConfig = LoConfig(userLoDic: map<Channel, real>)

  /** A schedule with its optional experiment name and LO configuration. */
  datatype ConfiguredSchedule = ConfiguredSchedule(schedule: Schedule, name: Option<string>, config: Option<LoConfig>)

  datatype PulseLibraryEntry = PulseLibraryEntry(name: string, samples: seq<Complex>)

  /** The caller's configuration dict: the keys the assembler reads, and the rest passed through. */
  datatype PulseConfig = PulseConfig(
    measLevel: Option<int>, qubitLoFreq: Option<seq<real>>, measLoFreq: Option<seq<real>>,
    pulseLibrary: Option<seq<PulseLibraryEntry>>, others: map<string, string>)

  datatype PulseExperimentConfig = PulseExperimentConfig(qubitLoFreq: Option<seq<real>>, measLoFreq: Option<seq<real>>)

  datatype PulseExperiment = PulseExperiment(
    instructions: seq<PulseQobjInstruction>, name: string, config: PulseExperimentConfig)

  datatype PulseQobj = PulseQobj(qobjId: string, config: PulseConfig, experiments: seq<PulseExperiment>,
                                 header: map<string, string>)

  // ----------------------------------------------------------- LO overrides

  /**
   * The override for one LO kind: present only when the experiment has a
   * non-empty user LO dict, the default list is non-empty, and replacing the
   * defaults with the user values changes them. `replace` stands for the LO
   * configuration's `replaced_with_user_los`.
   */
  function LoOverride(config: Option<LoConfig>, default: Option<seq<real>>,
                      replace: (map<Channel, real>, seq<real>) -> seq<real>): (r: Option<seq<real>>)
    ensures r.Some? <==> && config.Some? && |config.value.userLoDic| > 0 && Given(default)
                         && replace(config.value.userLoDic, default.value) != default.value
    ensures r.Some? ==> r.value == replace(config.value.userLoDic, default.value)
  {
    if config.Some? && |config.value.userLoDic| > 0 && Given(default) then
      var user := replace(config.value.userLoDic, default.value);
      if user != default.value then Some(user) else None
    else None
  }

  /** A replacement that keeps every default never yields an override. */
  lemma IdentityReplaceNoOverride(config: Option<LoConfig>, default: Option<seq<real>>,
                                  replace: (map<Channel, real>, seq<real>) -> seq<real>)
    requires forall m, l :: replace(m, l) == l
    ensures LoOverride(config, default, replace).None?
  {
  }

  // ------------------------------------------------------------ conversion

  /**
   * The bound encoders from the `k`-th on, the first that answers: a record
   * when one of them is bound to the node's class, and then its own record.
   */
  function FirstBound(conv: SuperConverter, b: Block, k: nat): (r: Option<PulseQobjInstruction>)
    requires k <= |Classes|
    ensures r.Some? <==> exists j :: k <= j < |Classes| && BindInstruction(Classes[j], conv, b).Some?
    ensures r.Some? ==> r == Encode(conv, b)
    decreases |Classes| - k
  {
    if k == |Classes| then None
    else
      match BindInstruction(Classes[k], conv, b)
      case Some(rec) => Some(rec)
      case None => FirstBound(conv, b, k + 1)
  }

  /**
   * The assembler's dispatch on the class of one flattened leaf: the record of
   * the encoder bound to that class, or an error for any other node.
   */
  function ConvertBlock(measLevel: int, b: Block): (r: Result<PulseQobjInstruction, Error>)
    ensures r.Success? <==> ClassOf(b.node).Some?
    ensures r.Success? ==> Encode(SuperConverter(measLevel), b) == Some(r.value)
    ensures r.Failure? ==> r.error == InvalidCommand
  {
    match FirstBound(SuperConverter(measLevel), b, 0)
    case Some(rec) => Success(rec)
    case None => Failure(InvalidCommand)
  }

  /** Every block converted, in flattening order; the first unconvertible block fails the lot. */
  function ConvertBlocks(measLevel: int, blocks: seq<Block>): (r: Result<seq<PulseQobjInstruction>, Error>)
    ensures r.Success? <==> forall i :: 0 <= i < |blocks| ==> ClassOf(blocks[i].node).Some?
    ensures r.Success? ==> |r.value| == |blocks|
    ensures r.Success? ==> forall i :: 0 <= i < |blocks| ==>
      Encode(SuperConverter(measLevel), blocks[i]) == Some(r.value[i])
    ensures r.Failure? ==> r.error == InvalidCommand
  {
    if blocks == [] then Success([])
    else
      assert forall i :: 1 <= i < |blocks| ==> blocks[1..][i - 1] == blocks[i];
      match ConvertBlock(measLevel, blocks[0])
      case Failure(e) => Failure(e)
      case Success(head) =>
        match ConvertBlocks(measLevel, blocks[1..])
        case Failure(e) => Failure(e)
        case Success(tail) => Success([head] + tail)
  }

  // ------------------------------------------------------------ experiments

  /** The configured name when it is non-empty, otherwise `Experiment-` and the decimal numeral of `ii`. */
  function ExperimentName(name: Option<string>, ii: nat): (r: string)
    ensures Given(name) ==> r == name.value
    ensures !Given(name) ==> r == "Experiment-" + Decimal(ii)
    ensures !Given(name) ==> |r| > 11 && r[..11] == "Experiment-" && ValueOf(r[11..], 10) == ii
    ensures !Given(name) ==> forall k :: 11 <= k < |r| ==> '0' <= r[k] <= '9'
  {
    if Given(name) then name.value
    else
      var r := "Experiment-" + Decimal(ii);
      assert r[11..] == Decimal(ii);
      r
  }

  /** Unnamed experiments at different positions get different default names. */
  lemma DefaultNamesDistinct(i: nat, j: nat)
    requires i != j
    ensures ExperimentName(None, i) != ExperimentName(None, j)
  {
    var prefix := "Experiment-";
    assert ExperimentName(None, i)[|prefix|..] == Decimal(i);
    assert ExperimentName(None, j)[|prefix|..] == Decimal(j);
  }

  /** `dict_config.get('meas_level', 2)`. */
  function MeasLevel(config: PulseConfig): int {
    config.measLevel.GetOr(2)
  }

  /** The experiment for the schedule at position `ii`. */
  function AssembleExperiment(cs: ConfiguredSchedule, ii: nat, config: PulseConfig,
                              replace: (map<Channel, real>, seq<real>) -> seq<real>)
    : (r: Result<PulseExperiment, Error>)
    ensures r.Success? <==> forall k :: 0 <= k < |FlatInstructionSequence(cs.schedule)| ==>
      ClassOf(FlatInstructionSequence(cs.schedule)[k].node).Some?
    ensures r.Success? ==> r.value.name == ExperimentName(cs.name, ii)
    ensures r.Success? ==> r.value.config.qubitLoFreq == LoOverride(cs.config, config.qubitLoFreq, replace)
    ensures r.Success? ==> r.value.config.measLoFreq == LoOverride(cs.config, config.measLoFreq, replace)
    ensures r.Failure? ==> r.error == InvalidCommand
    ensures r.Success? ==> |r.value.instructions| == |FlatInstructionSequence(cs.schedule)|
    ensures r.Success? ==> forall k :: 0 <= k < |r.value.instructions| ==>
      Encode(SuperConverter(MeasLevel(config)), FlatInstructionSequence(cs.schedule)[k]) == Some(r.value.instructions[k])
  {
    var loConfig := PulseExperimentConfig(LoOverride(cs.config, config.qubitLoFreq, replace),
                                          LoOverride(cs.config, config.measLoFreq, replace));
    var instructions :- ConvertBlocks(MeasLevel(config), FlatInstructionSequence(cs.schedule));
    Success(PulseExperiment(instructions, ExperimentName(cs.name, ii), loConfig))
  }

  /**
   * The experiments for `schedules[i..]`, in order, each built by
   * `assemble` from the schedule and its position; the first failure is
   * the result.
   */
  function AssembleExperiments(schedules: seq<ConfiguredSchedule>, i: nat,
                               assemble: (ConfiguredSchedule, nat) -> Result<PulseExperiment, Error>)
    : (r: Result<seq<PulseExperiment>, Error>)
    requires i <= |schedules|
    ensures r.Success? <==> forall k :: i <= k < |schedules| ==> assemble(schedules[k], k).Success?
    ensures r.Success? ==> |r.value| == |schedules| - i
    ensures r.Success? ==> forall k :: i <= k < |schedules| ==> assemble(schedules[k], k) == Success(r.value[k - i])
    ensures r.Failure? ==> exists k ::
      && i <= k < |schedules|
      && assemble(schedules[k], k) == Failure(r.error)
      && forall j :: i <= j < k ==> assemble(schedules[j], j).Success?
    decreases |schedules| - i
  {
    if i == |schedules| then Success([])
    else
      match assemble(schedules[i], i)
      case Failure(e) => Failure(e)
      case Success(head) =>
        match AssembleExperiments(schedules, i + 1, assemble)
        case Failure(e) => Failure(e)
        case Success(tail) => Success([head] + tail)
  }

  // ----------------------------------------------------------- pulse library

  /** The pulses of the drive instructions among `blocks`, in order. */
  function DrivePulses(blocks: seq<Block>): (r: seq<SamplePulse>)
    ensures forall p :: p in r <==> exists k :: 0 <= k < |blocks| && IsDriveOf(blocks[k], p)
  {
    if blocks == [] then []
    else
      var rest := DrivePulses(blocks[1..]);
      assert forall k :: 1 <= k < |blocks| ==> blocks[1..][k - 1] == blocks[k];
      match blocks[0].node
      case Leaf(Instruction(_, Drive(p, _), _)) => [p] + rest
      case _ => rest
  }

  /** `b` is a drive instruction playing pulse `p`. */
  predicate IsDriveOf(b: Block, p: SamplePulse) {
    b.node.Leaf? && b.node.instruction.body.Drive? && b.node.instruction.body.pulse == p
  }

  /** The drive pulses of every schedule, schedule by schedule. */
  function AllDrivePulses(schedules: seq<ConfiguredSchedule>): seq<SamplePulse> {
    if schedules == [] then []
    else DrivePulses(FlatInstructionSequence(schedules[0].schedule)) + AllDrivePulses(schedules[1..])
  }

  /**
   * The set the loop accumulates with `user_pulselib.add`, listed in the
   * order pulses are first added. Pulses are compared as whole commands,
   * identifier included, never by samples alone.
   */
  function Distinct<T(==,!new)>(s: seq<T>): (r: seq<T>)
    ensures NoDuplicates(r)
    ensures forall x :: x in r <==> x in s
  {
    if s == [] then []
    else
      var r := Distinct(s[..|s| - 1]);
      assert forall x :: x in s <==> x in s[..|s| - 1] || x == s[|s| - 1];
      if s[|s| - 1] in r then r else r + [s[|s| - 1]]
  }

  function LibraryEntries(pulses: seq<SamplePulse>): (r: seq<PulseLibraryEntry>)
    ensures |r| == |pulses|
    ensures forall k :: 0 <= k < |pulses| ==> r[k] == PulseLibraryEntry(pulses[k].name, pulses[k].samples)
  {
    seq(|pulses|, k requires 0 <= k < |pulses| => PulseLibraryEntry(pulses[k].name, pulses[k].samples))
  }

  /** The entries listed are exactly those of the pulses listed. */
  lemma LibraryEntriesOf(pulses: seq<SamplePulse>)
    ensures forall p :: p in pulses ==> PulseLibraryEntry(p.name, p.samples) in LibraryEntries(pulses)
    ensures forall e :: e in LibraryEntries(pulses) ==>
      exists p :: p in pulses && e == PulseLibraryEntry(p.name, p.samples)
  {
    forall p | p in pulses
      ensures PulseLibraryEntry(p.name, p.samples) in LibraryEntries(pulses)
    {
      var k :| 0 <= k < |pulses| && pulses[k] == p;
      assert LibraryEntries(pulses)[k] == PulseLibraryEntry(p.name, p.samples);
    }
    forall e | e in LibraryEntries(pulses)
      ensures exists p :: p in pulses && e == PulseLibraryEntry(p.name, p.samples)
    {
      var k :| 0 <= k < |pulses| && LibraryEntries(pulses)[k] == e;
      assert pulses[k] in pulses;
    }
  }

  /**
   * The default entries, then the entries of the distinct drive pulses in the
   * order they were first used.
   */
  function PulseLibrary(schedules: seq<ConfiguredSchedule>, config: PulseConfig): (r: seq<PulseLibraryEntry>)
    ensures |r| == |config.pulseLibrary.GetOr([])| + |Distinct(AllDrivePulses(schedules))|
    ensures r[..|config.pulseLibrary.GetOr([])|] == config.pulseLibrary.GetOr([])
    ensures r[|config.pulseLibrary.GetOr([])|..] == LibraryEntries(Distinct(AllDrivePulses(schedules)))
  {
    var defaults := config.pulseLibrary.GetOr([]);
    var lib := defaults + LibraryEntries(Distinct(AllDrivePulses(schedules)));
    assert lib[..|defaults|] == defaults;
    lib
  }

  /**
   * After the default entries the library holds exactly the entries of the
   * drive pulses used: every used pulse has one, and each comes from a used pulse.
   */
  lemma PulseLibraryContents(schedules: seq<ConfiguredSchedule>, config: PulseConfig)
    ensures forall p :: p in AllDrivePulses(schedules) ==>
      PulseLibraryEntry(p.name, p.samples) in PulseLibrary(schedules, config)[|config.pulseLibrary.GetOr([])|..]
    ensures forall e :: e in PulseLibrary(schedules, config)[|config.pulseLibrary.GetOr([])|..] ==>
      exists p :: p in AllDrivePulses(schedules) && e == PulseLibraryEntry(p.name, p.samples)
  {
    LibraryEntriesOf(Distinct(AllDrivePulses(schedules)));
  }

  /** A pulse is among the drive pulses exactly when some schedule plays it on a drive channel. */
  lemma {:induction false} AllDrivePulsesPlayed(schedules: seq<ConfiguredSchedule>, p: SamplePulse)
    ensures p in AllDrivePulses(schedules) <==>
      exists k, m :: 0 <= k < |schedules| && 0 <= m < |FlatInstructionSequence(schedules[k].schedule)|
                  && IsDriveOf(FlatInstructionSequence(schedules[k].schedule)[m], p)
  {
    if schedules != [] {
      AllDrivePulsesPlayed(schedules[1..], p);
      assert forall k :: 1 <= k < |schedules| ==> schedules[1..][k - 1] == schedules[k];
      if p in AllDrivePulses(schedules[1..]) {
        var k, m :| 0 <= k < |schedules[1..]| && 0 <= m < |FlatInstructionSequence(schedules[1..][k].schedule)|
                    && IsDriveOf(FlatInstructionSequence(schedules[1..][k].schedule)[m], p);
        assert IsDriveOf(FlatInstructionSequence(schedules[k + 1].schedule)[m], p);
      }
    }
  }

  /**
   * Two different pulse commands with the same samples (different
   * identifiers) give two library entries with those samples: the library
   * set is of commands, not of sample lists.
   */
  lemma SameSamplesKeptApart(schedules: seq<ConfiguredSchedule>, config: PulseConfig, p: SamplePulse, q: SamplePulse)
    requires p in AllDrivePulses(schedules) && q in AllDrivePulses(schedules)
    requires p.samples == q.samples && p.id != q.id
    ensures exists i, j ::
      && |config.pulseLibrary.GetOr([])| <= i < |PulseLibrary(schedules, config)|
      && |config.pulseLibrary.GetOr([])| <= j < |PulseLibrary(schedules, config)| && i != j
      && PulseLibrary(schedules, config)[i].samples == p.samples
      && PulseLibrary(schedules, config)[j].samples == p.samples
  {
    var n := |config.pulseLibrary.GetOr([])|;
    var d := Distinct(AllDrivePulses(schedules));
    var lib := PulseLibrary(schedules, config);
    assert lib[n..] == LibraryEntries(d);
    var i := PositionIn(d, p);
    var j := PositionIn(d, q);
    assert lib[n + i] == LibraryEntries(d)[i];
    assert lib[n + j] == LibraryEntries(d)[j];
  }

  /** A position of `x` in `s`. */
  function PositionIn<T(==)>(s: seq<T>, x: T): (i: nat)
    requires x in s
    ensures i < |s| && s[i] == x
  {
    if s[0] == x then 0 else 1 + PositionIn(s[1..], x)
  }

  // -------------------------------------------------------------- assembly

  /**
   * `assemble_schedules`: one experiment per schedule, in order; the output
   * configuration is the caller's with the assembled pulse library.
   * `freshId` stands for the generated identifier.
   */
  function AssembleSchedules(schedules: seq<ConfiguredSchedule>, config: PulseConfig, header: map<string, string>,
                             freshId: string, replace: (map<Channel, real>, seq<real>) -> seq<real>)
    : (r: Result<PulseQobj, Error>)
    ensures r.Success? <==> forall k :: 0 <= k < |schedules| ==> AssembleExperiment(schedules[k], k, config, replace).Success?
    ensures r.Failure? ==> r.error == InvalidCommand
    ensures r.Success? ==> |r.value.experiments| == |schedules|
    ensures r.Success? ==> forall k :: 0 <= k < |schedules| ==>
      AssembleExperiment(schedules[k], k, config, replace) == Success(r.value.experiments[k])
    ensures r.Success? ==> r.value.config == config.(pulseLibrary := Some(PulseLibrary(schedules, config)))
    ensures r.Success? ==> r.value.header == header && r.value.qobjId == freshId
  {
    var experiments :- AssembleExperiments(schedules, 0, (cs: ConfiguredSchedule, k: nat) => AssembleExperiment(cs, k, config, replace));
    Success(PulseQobj(freshId, config.(pulseLibrary := Some(PulseLibrary(schedules, config))), experiments, header))
  }

  /**
   * The returned configuration already holds the assembled library, so
   * assembling the same schedules with it succeeds again and appends the
   * used drive pulses a second time after the first library.
   */
  lemma ReassemblyRepeatsUserPulses(schedules: seq<ConfiguredSchedule>, config: PulseConfig, header: map<string, string>,
                                    freshId: string, replace: (map<Channel, real>, seq<real>) -> seq<real>)
    requires AssembleSchedules(schedules, config, header, freshId, replace).Success?
    ensures var again := AssembleSchedules(schedules, AssembleSchedules(schedules, config, header, freshId, replace).value.config,
                                           header, freshId, replace);
      && again.Success?
      && again.value.config.pulseLibrary
         == Some(PulseLibrary(schedules, config) + LibraryEntries(Distinct(AllDrivePulses(schedules))))
  {
  }

  /**
   * When replacing the defaults with the user LOs never changes them, no
   * experiment records an LO override.
   */
  lemma IdentityReplaceRecordsNoLo(schedules: seq<ConfiguredSchedule>, config: PulseConfig, header: map<string, string>,
                                   freshId: string, replace: (map<Channel, real>, seq<real>) -> seq<real>)
    requires forall m, l :: replace(m, l) == l
    requires AssembleSchedules(schedules, config, header, freshId, replace).Success?
    ensures forall k :: 0 <= k < |schedules| ==>
      AssembleSchedules(schedules, config, header, freshId, replace).value.experiments[k].config
        == PulseExperimentConfig(None, None)
  {
  }
}
