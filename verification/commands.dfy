/**
 * Pulse commands: the payloads that schedule leaves carry.
 * `PulseCommand` contributes a unique identifier and a duration to every
 * command; a `SamplePulse` takes its duration from its sample count.
 */
module Commands {

  import opened Wrappers

  /** A complex amplitude. */
  datatype Complex = Complex(re: real, im: real)

  /** `abs(z) > 1`, decided exactly on the squared magnitude. */
  predicate ExceedsUnit(z: Complex) {
    z.re * z.re + z.im * z.im > 1.0
  }

  /** A timing lane (drive, measure, acquire, memory or register slot) by name and index. */
  datatype Channel = Channel(name: string, index: nat)

  datatype Interval = Interval(begin: int, end: int)

  datatype Timeslot = Timeslot(interval: Interval, channel: Channel)

  /** A named kernel or discriminator with its parameters, as the wire format carries it. */
  datatype MeasurementOption = MeasurementOption(name: string, params: map<string, string>)

  datatype SamplePulse = SamplePulse(id: string, name: string, samples: seq<Complex>) {
    /** `sample_pulse.py` passes `len(sample)` as the command's duration. */
    function Duration(): nat {
      |samples|
    }
  }

  datatype Acquire = Acquire(
    id: string, name: string, duration: nat,
    discriminator: Option<MeasurementOption>, kernel: Option<MeasurementOption>)

  datatype FrameChange = FrameChange(id: string, name: string, duration: nat, phase: real)

  datatype PersistentValue = PersistentValue(id: string, name: string, duration: nat, value: Complex)

  datatype Snapshot = Snapshot(id: string, name: string, duration: nat, snapLabel: string, snapType: string)

  /** Every command class, plus `OtherCommand` for one no encoder knows. */
  datatype Command =
    | SampleCommand(pulse: SamplePulse)
    | AcquireCommand(acquire: Acquire)
    | FrameChangeCommand(frameChange: FrameChange)
    | PersistentValueCommand(persistentValue: PersistentValue)
    | SnapshotCommand(snapshot: Snapshot)
    | OtherCommand(id: string, name: string, duration: nat)
  {
    function Name(): string {
      match this
      case SampleCommand(p) => p.name
      case AcquireCommand(a) => a.name
      case FrameChangeCommand(f) => f.name
      case PersistentValueCommand(v) => v.name
      case SnapshotCommand(s) => s.name
      case OtherCommand(_, n, _) => n
    }

    function Duration(): nat {
      match this
      case SampleCommand(p) => p.Duration()
      case AcquireCommand(a) => a.duration
      case FrameChangeCommand(f) => f.duration
      case PersistentValueCommand(v) => v.duration
      case SnapshotCommand(s) => s.duration
      case OtherCommand(_, _, d) => d
    }
  }

  /** The errors the modelled code raises. */
  datatype Error =
    | ChannelsAndTimeslots                  // PulseError: both channels and timeslots given
    | NotCallable                           // QiskitError: envelope is not callable
    | MissingDurationArgument               // QiskitError: envelope lacks a `duration` parameter
    | ParamsNotDict                         // QiskitError: params set to a non-dict
    | LabelNotFound(register: string, index: nat)  // ValueError from `list.index`
    | SnapshotParamsMissing                 // IndexError reading a snapshot's label or type
    | InvalidCommand                        // QiskitError: leaf of no known instruction class
    | RepeatedArgument(argument: string)    // TypeError: a keyword argument given twice
}
