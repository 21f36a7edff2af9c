/**
 * The leaf of a schedule tree: one command bound either to channels, from
 * which its timeslots are derived, or to explicit timeslots.
 */
module Instructions {

  import opened Wrappers
  import opened Commands

  /**
   * The instruction class and what it carries. Each subclass wraps one
   * command class; `Plain` is the base `Instruction`, which may wrap any command.
   */
  datatype Body =
    | Drive(pulse: SamplePulse, channel: Channel)
    | FrameChangeOn(frameChange: FrameChange, channel: Channel)
    | PersistentValueOn(persistentValue: PersistentValue, channel: Channel)
    | AcquireOn(acquire: Acquire, qubits: seq<Channel>, memSlots: seq<Channel>, regSlots: seq<Channel>)
    | SnapshotAt(snapshot: Snapshot)
    | Plain(command: Command)
  {
    function Command(): Command {
      match this
      case Drive(p, _) => SampleCommand(p)
      case FrameChangeOn(f, _) => FrameChangeCommand(f)
      case PersistentValueOn(v, _) => PersistentValueCommand(v)
      case AcquireOn(a, _, _, _) => AcquireCommand(a)
      case SnapshotAt(s) => SnapshotCommand(s)
      case Plain(c) => c
    }
  }

  datatype Instruction = Instruction(name: string, body: Body, timeslots: seq<Timeslot>) {
    function Command(): Command {
      body.Command()
    }
  }

  /** One slot `[0, duration)` per channel, in channel order. */
  function DerivedTimeslots(duration: nat, channels: seq<Channel>): (ts: seq<Timeslot>)
    ensures |ts| == |channels|
    ensures forall i :: 0 <= i < |ts| ==> ts[i] == Timeslot(Interval(0, duration), channels[i])
  {
    seq(|channels|, i requires 0 <= i < |channels| => Timeslot(Interval(0, duration), channels[i]))
  }

  /**
   * `Instruction(command, *channels, timeslots=None, name=None)`: channels and
   * explicit timeslots are mutually exclusive; without explicit timeslots each
   * channel gets `[0, command.duration)`; the name defaults to the command's.
   */
  function NewInstruction(body: Body, channels: seq<Channel>, timeslots: Option<seq<Timeslot>>,
                          name: Option<string>): (r: Result<Instruction, Error>)
    ensures r.Failure? <==> Given(timeslots) && |channels| > 0
    ensures r.Failure? ==> r.error == ChannelsAndTimeslots
    ensures r.Success? ==> r.value.body == body
    ensures r.Success? ==> r.value.name == if Given(name) then name.value else body.Command().Name()
    ensures r.Success? && Given(timeslots) ==> r.value.timeslots == timeslots.value
    ensures r.Success? && !Given(timeslots) ==>
      && |r.value.timeslots| == |channels|
      && forall i :: 0 <= i < |channels| ==>
           r.value.timeslots[i] == Timeslot(Interval(0, body.Command().Duration()), channels[i])
  {
    var n := if Given(name) then name.value else body.Command().Name();
    if Given(timeslots) && |channels| > 0 then Failure(ChannelsAndTimeslots)
    else if !Given(timeslots) then Success(Instruction(n, body, DerivedTimeslots(body.Command().Duration(), channels)))
    else Success(Instruction(n, body, timeslots.value))
  }

  /** The channels an instruction occupies, in timeslot order. */
  function ChannelsOf(ts: seq<Timeslot>): (cs: seq<Channel>)
    ensures |cs| == |ts|
  {
    if ts == [] then [] else [ts[0].channel] + ChannelsOf(ts[1..])
  }

  /**
   * An instruction built from channels occupies exactly those channels, in
   * order, each for exactly the command's duration from time 0.
   */
  lemma {:induction false} DerivedTimeslotsCoverChannels(body: Body, channels: seq<Channel>, name: Option<string>)
    ensures NewInstruction(body, channels, None, name).Success?
    ensures ChannelsOf(NewInstruction(body, channels, None, name).value.timeslots) == channels
    ensures forall t :: t in NewInstruction(body, channels, None, name).value.timeslots ==>
      t.interval.begin == 0 && t.interval.end - t.interval.begin == body.Command().Duration()
  {
    ChannelsOfDerived(body.Command().Duration(), channels);
  }

  lemma {:induction false} ChannelsOfDerived(d: nat, channels: seq<Channel>)
    ensures ChannelsOf(DerivedTimeslots(d, channels)) == channels
  {
    if channels != [] {
      ChannelsOfDerived(d, channels[1..]);
      assert DerivedTimeslots(d, channels)[1..] == DerivedTimeslots(d, channels[1..]);
    }
  }

  /** `Instruction.flatten(time)`: the leaf itself, at the time its parent places it. */
  function Flatten(instr: Instruction, time: int): (r: seq<(int, Instruction)>)
    ensures |r| == 1 && r[0].0 == time && r[0].1 == instr
  {
    [(time, instr)]
  }
}
