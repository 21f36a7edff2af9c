# Qobj assembly for circuits and pulse schedules

A Dafny model of the Qiskit Terra assembler. This is the step that turns
programs into a Qobj, the JSON-shaped object that a backend runs. It covers
two paths:

- **Gate-level circuits (`assemble_circuits`).** Each circuit's quantum and
  classical registers become global label lists. Every operand is resolved
  to its position in those lists, and each operation becomes a QASM Qobj
  instruction: qubits, memory, params, a snapshot label and type, a unitary
  label, and a conditional whose mask has one bit per classical bit of the
  controlling register. The configuration records the largest qubit and
  memory-slot counts over all experiments.
- **Pulse schedules (`assemble_schedules`).** Each schedule tree is
  flattened into blocks at absolute times. Each block is encoded by the
  converter bound to its instruction class; any other node is an invalid
  command. Per-experiment LO overrides are recorded only when they differ
  from the defaults. The distinct drive pulses used anywhere are added to
  the pulse library after the default entries.

The assembler's own dispatch on instruction classes
(qiskit/compiler/assembler.py:182-258) builds the same records as the
converters of qiskit/compiler/pulse_to_dict.py. The model therefore has one
encoder per class, and `ScheduleAssembly.ConvertBlock` is stated against it.

The pulse-side data model is also covered: commands, instructions (with
timeslots derived from channels), the schedule tree, and the
`functional_pulse` decorator that turns an envelope into a `SamplePulse`.

Modules:

| file | module | contents |
|---|---|---|
| wrappers.dfy | `Wrappers` | `Option`, `Result` and their failure propagation |
| numerals.dfy | `Numerals` | the bitwise OR used by the mask; `"0x%X"` and `"%d"` rendering with parse round trips |
| commands.dfy | `Commands` | channels, timeslots, the pulse command classes, the error kinds |
| functional_pulse.dfy | `FunctionalPulses` | the decorator, the parameter setter, `tolist` with clipping |
| instruction.dfy | `Instructions` | instruction classes, the constructor, `flatten` |
| pulse_schedule.dfy | `Schedules` | the schedule tree, stop time and duration, flattening |
| pulse_to_dict.dfy | `PulseToDict` | the per-class encoders and their binding to instruction classes |
| assembler_circuits.dfy | `CircuitAssembly` | `assemble_circuits` |
| assembler_schedules.dfy | `ScheduleAssembly` | `assemble_schedules` |

Two behaviours of the code are kept as written and stated as lemmas:

- `flat_instruction_sequence` seeds the flattening with the root's start
  time. The recursion adds that start time again, so every block of a root
  starting at `t` is shifted by `2t`. Below the root, each schedule with
  children adds its own start time once.
- An empty sub-schedule is childless, so flattening yields it as a block.
  No encoder is bound to it, so assembly fails. In the code the failure is
  an `AttributeError`, because a schedule has no `command` for the error
  message at qiskit/compiler/assembler.py:258. The model reports it as
  `InvalidCommand` (see "Left out").

## Model

| member | source | states |
|---|---|---|
| Numerals.BitOrBits | qiskit/compiler/assembler.py:116 | bit k of `a \| b` is set iff it is set in `a` or in `b` |
| Numerals.BitOfPow2 | qiskit/compiler/assembler.py:116 | `1 << i` has exactly bit i set |
| Numerals.ZeroHasNoBits | qiskit/compiler/assembler.py:113 | the initial mask 0 has no bit set |
| Numerals.Numeral | qiskit/compiler/assembler.py:118-120 | a numeral has at least one digit, only digits of its base, and no leading zero |
| Numerals.NumeralRoundTrip | qiskit/compiler/assembler.py:118-120 | reading back a rendered numeral gives the number |
| Numerals.Hex | qiskit/compiler/assembler.py:118-120 | `"0x%X" % n` is `0x`, then `-` when n is negative, then upper-case hex digits without a leading zero that read back as \|n\| |
| Numerals.Decimal | qiskit/compiler/assembler.py:179 | `"%d" % n` is a non-empty string of decimal digits without a leading zero that reads back as n |
| CircuitAssembly.RegisterLabels | qiskit/compiler/assembler.py:59-60 | a register of size s contributes the labels `[name, 0]` … `[name, s-1]`, in order |
| CircuitAssembly.Sizes | qiskit/compiler/assembler.py:57-58 | one `[name, size]` entry per register, in register order |
| CircuitAssembly.Labels | qiskit/compiler/assembler.py:57-66 | the label list has as many entries as the register sizes add up to, so `n_qubits` and `memory_slots` equal the label counts |
| CircuitAssembly.LabelsMembership | qiskit/compiler/assembler.py:57-60 | `[name, j]` is a label iff some register has that name and j is below its size |
| CircuitAssembly.LabelsDistinct | qiskit/compiler/assembler.py:57-65 | registers with distinct names give labels without duplicates |
| CircuitAssembly.IndexOf | qiskit/compiler/assembler.py:87 | `list.index`: absent iff the label is missing; otherwise the position of its first occurrence |
| CircuitAssembly.Resolve | qiskit/compiler/assembler.py:86-93 | operands resolve iff all their labels exist; each index is the label's first position; otherwise the error names the first operand whose label is missing |
| CircuitAssembly.MaskUpTo | qiskit/compiler/assembler.py:113-116 | after the first k labels, bit b of the mask is set iff one of them belongs to the control register and first occurs at position b |
| CircuitAssembly.Mask | qiskit/compiler/assembler.py:112-116 | every set bit of the mask is the position of a label of the control register |
| CircuitAssembly.MaskBits | qiskit/compiler/assembler.py:112-116 | with distinct labels, bit b of the mask is set iff label b belongs to the control register |
| CircuitAssembly.SecondRegisterMask | qiskit/compiler/assembler.py:112-120 | with a 1-bit register `a` before a 2-bit register `c`, the mask for `c` has the bits of global positions 1 and 2 set and is rendered `0x6` |
| CircuitAssembly.EmitParams | qiskit/compiler/assembler.py:95-103 | a lone matrix parameter is emitted as its rows; any other parameter list as the values |
| CircuitAssembly.Conditional | qiskit/compiler/assembler.py:112-120 | the test is `equals`; the mask and value texts are exactly `"0x%X"` of the control register's mask and of the control value (`0x-` for a negative one), so they read back as those numbers |
| CircuitAssembly.AssembleInstruction | qiskit/compiler/assembler.py:81-122 | succeeds iff both operand lists resolve and a snapshot has label and type params. Qubits, memory, params and conditional are present iff the operation has them; params are the emitted parameters. Snapshot label and type come from params 0 and 1; a non-empty unitary label is copied; other operations carry no label and no type. The conditional is the hex mask and value with type `equals`. A failure is the qubit error, else the clbit error, else the missing snapshot params |
| CircuitAssembly.AssembleInstructions | qiskit/compiler/assembler.py:80-122 | succeeds iff every operation assembles; one record per operation, in order; otherwise the error of the first operation that fails |
| CircuitAssembly.AssembleExperiment | qiskit/compiler/assembler.py:49-124 | the header holds the label lists, sizes, name and counts; header and config counts agree; the instructions are those assembled from the circuit's data, and a failure is theirs |
| CircuitAssembly.MaxStep | qiskit/compiler/assembler.py:125-128 | the running-maximum update keeps a maximum that is attained, or 0 for no experiments |
| CircuitAssembly.CountsStep | qiskit/compiler/assembler.py:125-128 | both running maxima stay maxima of the experiments' qubit and memory-slot counts after one more experiment |
| CircuitAssembly.AssembleExperiments | qiskit/compiler/assembler.py:45-128 | succeeds iff every circuit assembles; one experiment per circuit, in order; the returned counts are the maxima over the experiments; a failure carries the first failing circuit's error |
| CircuitAssembly.AssembleCircuits | qiskit/compiler/assembler.py:27-134 | experiments as above, failing with the first failing circuit's error; the config is the run configuration with the maximal `n_qubits` and `memory_slots`; the id is the given one or a fresh one; the header defaults to empty |
| FunctionalPulses.NewFunctionalPulse | qiskit/pulse/commands/functional_pulse.py:26-42 | decorating succeeds iff the envelope is callable and declares `duration`; a non-callable envelope is reported before a missing argument |
| FunctionalPulses.Call | qiskit/pulse/commands/functional_pulse.py:44-62 | a keyword `self`, `duration` or `pulse` is a repeated argument; otherwise the bound pulse keeps the envelope, the duration and exactly the keyword parameters |
| FunctionalPulses.SetParams | qiskit/pulse/commands/functional_pulse.py:73-86 | fails iff the value is not a dict; the set of keys is unchanged; each key takes the new value when the dict has it and keeps its own otherwise |
| FunctionalPulses.SetParamsIgnoresExtraKeys | qiskit/pulse/commands/functional_pulse.py:82-84 | keys the pulse lacks have no effect on the setter |
| FunctionalPulses.SetParamsIdempotent | qiskit/pulse/commands/functional_pulse.py:82-84 | setting the same dict twice equals setting it once |
| FunctionalPulses.SetOwnParams | qiskit/pulse/commands/functional_pulse.py:82-84 | setting a pulse's own parameters leaves it unchanged |
| FunctionalPulses.Clip | qiskit/pulse/commands/functional_pulse.py:102-104 | samples above unit magnitude are replaced by their normalised value; the others are kept |
| FunctionalPulses.ToList | qiskit/pulse/commands/functional_pulse.py:88-108 | the sample pulse's duration is the number of generated samples; samples pass unchanged when none exceeds magnitude 1, and are otherwise clipped point by point |
| FunctionalPulses.ToListWithinUnit | qiskit/pulse/commands/functional_pulse.py:100-108 | with a normalisation that maps into range, every sample of the result is within unit magnitude, and clipping it again changes nothing |
| FunctionalPulses.DecoratedPulseSamples | qiskit/pulse/commands/functional_pulse.py:35-108 | a successfully decorated envelope declares `duration`; calling it and materialising gives one sample per generated sample for that duration and those keywords, clipped only where out of range |
| Instructions.DerivedTimeslots | qiskit/pulse/commands/instruction.py:37-39 | one slot `[0, duration)` per channel, in channel order |
| Instructions.NewInstruction | qiskit/pulse/commands/instruction.py:28-41 | fails iff both channels and timeslots are given; the name is the given one or the command's; explicit timeslots are kept, otherwise they are derived from the channels |
| Instructions.DerivedTimeslotsCoverChannels | qiskit/pulse/commands/instruction.py:34-39 | an instruction built from channels occupies exactly those channels, in order, each from 0 for the command's duration |
| Instructions.ChannelsOfDerived | qiskit/pulse/commands/instruction.py:37-39 | the channels of the derived timeslots are the given channels |
| Instructions.Flatten | qiskit/pulse/commands/instruction.py:61-71 | a leaf flattens to the one pair of its time and itself |
| Schedules.NewSchedule | qiskit/pulse/schedule/pulse_schedule.py:25-35 | a new schedule has its name and start time, and no children or occupancy, whatever schedules are passed positionally |
| Schedules.StopTime | qiskit/pulse/schedule/pulse_schedule.py:54-57 | the start time when nothing is occupied; otherwise the largest end of an occupied slot, which bounds every end |
| Schedules.Duration | qiskit/pulse/schedule/pulse_schedule.py:42-44 | the stop time minus the start time: 0 for an unoccupied schedule, and start time plus duration bounds every occupied end |
| Schedules.FlattenNode | qiskit/pulse/schedule/pulse_schedule.py:84-90 | a childless node is yielded alone at the given time; any node yields at least one block |
| Schedules.FlattenChildren | qiskit/pulse/schedule/pulse_schedule.py:86-88 | the children from position i on yield at least one block each |
| Schedules.FlatInstructionSequence | qiskit/pulse/schedule/pulse_schedule.py:76-90 | a schedule without children flattens to nothing; otherwise the k-th block is the k-th leaf at the root's start time plus that leaf's offset |
| Schedules.FlattenPlacesLeaves | qiskit/pulse/schedule/pulse_schedule.py:84-90 | flattening places the k-th leaf at the seed plus the start times of all schedules with children above it, the node's own included |
| Schedules.FlattenChildrenPlaceLeaves | qiskit/pulse/schedule/pulse_schedule.py:86-88 | the same for a schedule's children from position i on |
| Schedules.NestedLeafAtInnerStart | qiskit/pulse/schedule/pulse_schedule.py:82-90 | a leaf under a schedule starting at 5, under a root starting at 0, begins at 5 |
| Schedules.FlattenShift | qiskit/pulse/schedule/pulse_schedule.py:84-90 | flattening with a later seed moves every block by the same amount and changes nothing else |
| Schedules.FlattenChildrenShift | qiskit/pulse/schedule/pulse_schedule.py:86-88 | the same for a schedule's children from position i on |
| Schedules.FlattenYieldsLeaves | qiskit/pulse/schedule/pulse_schedule.py:84-90 | flattening yields the tree's childless nodes, each once, in depth-first order |
| Schedules.FlattenChildrenYieldLeaves | qiskit/pulse/schedule/pulse_schedule.py:86-88 | the same for a schedule's children from position i on |
| Schedules.LeavesAreChildless | qiskit/pulse/schedule/pulse_schedule.py:85-90 | every node flattening yields is childless |
| Schedules.LeavesFromChildless | qiskit/pulse/schedule/pulse_schedule.py:86-88 | the same for a schedule's children from position i on |
| Schedules.RootStartCountedTwice | qiskit/pulse/schedule/pulse_schedule.py:80-88 | the flat sequence of a root with children is its start-0 flattening moved by twice its start time |
| Schedules.DirectLeafAtTwiceStart | qiskit/pulse/schedule/pulse_schedule.py:82-90 | a single leaf under a root starting at t is placed at 2t |
| Schedules.LeafFlattensAsInstruction | qiskit/pulse/schedule/pulse_schedule.py:89-90 | the generator places a leaf exactly where `Instruction.flatten` would |
| PulseToDict.NewConverter | qiskit/compiler/pulse_to_dict.py:29-37 | the measurement level defaults to 2 and is otherwise the given one |
| PulseToDict.ConvertAcquire | qiskit/compiler/pulse_to_dict.py:42-90 | an acquire record always has duration, qubit and memory-slot indices. At level 2 it adds discriminators and register slots; at level 1 and above, kernels. Each option list holds the command's option or is empty. The record has exactly these keys |
| PulseToDict.ConvertFrameChange | qiskit/compiler/pulse_to_dict.py:92-107 | exactly `name = fc`, `t0`, the channel name and the phase |
| PulseToDict.ConvertPersistentValue | qiskit/compiler/pulse_to_dict.py:109-124 | exactly `name = pv`, `t0`, the channel name and the value |
| PulseToDict.ConvertDrive | qiskit/compiler/pulse_to_dict.py:126-140 | exactly the pulse's name, `t0` and the channel name |
| PulseToDict.ConvertSnapshot | qiskit/compiler/pulse_to_dict.py:142-157 | exactly `name = snapshot`, `t0`, the label and the type |
| PulseToDict.Encode | qiskit/compiler/pulse_to_dict.py:42-157 | a record exists iff the node is an instruction of one of the five bound classes; it begins at the block's time and has its class's name, exact key set and field values |
| PulseToDict.BindInstruction | qiskit/compiler/pulse_to_dict.py:16-24 | a bound encoder answers iff the node is an instance of its class, and then with the class's record |
| PulseToDict.BindersPartition | qiskit/compiler/pulse_to_dict.py:16-24 | for a known class exactly one bound encoder answers; for any other node none does |
| PulseToDict.AcquireLevels | qiskit/compiler/pulse_to_dict.py:58-89 | level 0 gives no optional fields, level 1 only kernels, level 2 kernels, discriminators and register slots |
| ScheduleAssembly.LoOverride | qiskit/compiler/assembler.py:163-173 | an LO list is recorded iff the experiment has a non-empty user LO dict, the default list is non-empty and the replaced list differs from it; the recorded list is the replaced one |
| ScheduleAssembly.FirstBound | qiskit/compiler/assembler.py:184-258 | trying the bound encoders from the k-th on gives a record iff one of them is bound to the node's class, and then that class's record |
| ScheduleAssembly.ConvertBlock | qiskit/compiler/assembler.py:182-258 | a block converts iff its node is one of the five instruction classes, to that class's record; anything else is an invalid command |
| ScheduleAssembly.ConvertBlocks | qiskit/compiler/assembler.py:181-260 | every block converts, in flattening order, iff each has a known class; otherwise an invalid-command error |
| ScheduleAssembly.ExperimentName | qiskit/compiler/assembler.py:179 | the configured name when non-empty; otherwise exactly `Experiment-` and the canonical decimal numeral of the position, whose digits read back as the position |
| ScheduleAssembly.DefaultNamesDistinct | qiskit/compiler/assembler.py:179 | unnamed experiments at different positions get different default names |
| ScheduleAssembly.AssembleExperiment | qiskit/compiler/assembler.py:160-264 | an experiment assembles iff every flattened block converts. Its name is the configured one or `Experiment-<position>`, its LO config the two overrides, and its instructions the records of the flat sequence at the configured measurement level (default 2) |
| ScheduleAssembly.AssembleExperiments | qiskit/compiler/assembler.py:160-264 | succeeds iff every schedule assembles at its position; one experiment per schedule, in order; otherwise the first failing schedule's error |
| ScheduleAssembly.DrivePulses | qiskit/compiler/assembler.py:182-194 | a pulse is collected iff some block is a drive instruction playing it |
| ScheduleAssembly.AllDrivePulsesPlayed | qiskit/compiler/assembler.py:160-194 | a pulse is collected iff some schedule's flat sequence plays it on a drive instruction |
| ScheduleAssembly.Distinct | qiskit/compiler/assembler.py:159-194 | the collected set has no duplicates and exactly the pulses added to it |
| ScheduleAssembly.PulseLibrary | qiskit/compiler/assembler.py:266-276 | the library is the default entries followed by one entry per distinct drive pulse, as many as there are distinct pulses |
| ScheduleAssembly.PulseLibraryContents | qiskit/compiler/assembler.py:266-276 | every used drive pulse has an entry after the defaults, and every entry there comes from a used drive pulse |
| ScheduleAssembly.SameSamplesKeptApart | qiskit/compiler/assembler.py:159-276 | two pulse commands with equal samples but different identifiers give two library entries, at different positions after the defaults, with those samples |
| ScheduleAssembly.AssembleSchedules | qiskit/compiler/assembler.py:137-282 | one experiment per schedule, in order, iff every schedule assembles, and an invalid-command error otherwise; the config is the caller's with the pulse library filled in; the header and a fresh id are attached |
| ScheduleAssembly.ReassemblyRepeatsUserPulses | qiskit/compiler/assembler.py:266-278 | in the model, assembling again with the returned configuration succeeds and appends the used drive pulses once more after the first library |
| ScheduleAssembly.IdentityReplaceNoOverride | qiskit/compiler/assembler.py:163-173 | a replacement that keeps every default never records an LO override |
| ScheduleAssembly.IdentityReplaceRecordsNoLo | qiskit/compiler/assembler.py:160-176 | with such a replacement every assembled experiment has an empty LO config, whatever the schedules |

## Left out

- The generated Qobj identifiers (`uuid.uuid4()` in both assemblers, and the command identifier in qiskit/pulse/commands/pulse_command.py) are inputs to the model.
- Wrapping a single `QuantumCircuit` or `ConfiguredSchedule` in a list is not modelled. The assemblers take lists.
- CircuitAssembly.AssembleCircuits: the `RunConfig` object and `QobjHeader` are modelled as string maps. A missing run configuration is the empty map.
- CircuitAssembly.AssembleInstruction: parameters are kept in printed form (`Param.text`, and matrix rows of printed entries). Symbolic evaluation with sympy and conversion to numpy arrays are not modelled. This also applies to `str(op.params[i])` for snapshots.
- FunctionalPulses.ToList: the normalisation `samples / abs(samples)` and the amplitude warning are floating point. The replacement is a parameter `unit`. The magnitude test `abs(z) > 1` is decided exactly as `re² + im² > 1`.
- FunctionalPulses.NewFunctionalPulse: signature inspection is reduced to a callable flag and the set of declared parameter names.
- Instructions.NewInstruction: the timeslot collection class is not part of this model. An explicit collection with no slots counts as not given, as for a sized Python collection. The overlap checks of that class are not modelled.
- Schedule construction by `append`, `insert`, `shifted`, `__add__` and `__or__` is not part of this model. Schedules are built directly from children and occupancy.
- The class of the pulse library set is Python's `set`, whose iteration order is unspecified. ScheduleAssembly.PulseLibrary fixes one order, that of first use, which is one of the orders Python's set iteration may produce. Distinctness is of pulse commands, not of entries: two commands with equal names and samples give two equal entries.
- ScheduleAssembly.LoOverride: the LO configuration's `replaced_with_user_los` is not part of this model. It is the parameter `replace`.
- The command definitions (`CmdDef`) and the marshmallow Qobj models are not part of this model. Records are plain datatypes that carry the fields the code sets.
- The instruction subclasses (`DriveInstruction`, `FrameChangeInstruction`, `PersistentValueInstruction`, `AcquireInstruction`, in the `qiskit.pulse.commands` package) are not part of this model. They are modelled as variants of `Instructions.Body`, each carrying the command class it wraps and its targets. `Plain` is the base `Instruction` with any command.
- PulseToDict.ConvertAcquire: the record's `duration` is the acquire command's duration, as the assembler sets it. The converter reads `instruction.duration`, an attribute that qiskit/pulse/commands/instruction.py does not define.
- PulseToDict.BindInstruction models the evident intent of `bind_instruction`: the wrapped converter receives the instruction. As written, the decorated function takes a single parameter but is installed as a method, so Python would pass the converter object as `instruction` and reject the extra argument. `SuperConverter.__call__` returns nothing and is not modelled.
- `SamplePulse` in qiskit/pulse/commands/sample_pulse.py stores its list as `sample` and has no name. The assembler reads `name` and `samples`, so the model's `SamplePulse` carries an identifier, a name and the samples. Its duration is the number of samples (qiskit/pulse/commands/sample_pulse.py:33).
- `Schedule.__str__` and the logging are not modelled.
- ScheduleAssembly.AssembleSchedules: the code writes the merged library into the caller's `dict_config` (qiskit/compiler/assembler.py:276). The model returns that updated configuration as `r.value.config` instead of mutating an input. ScheduleAssembly.ReassemblyRepeatsUserPulses states what reusing it does.
- ScheduleAssembly.ReassemblyRepeatsUserPulses: the model gives the caller's library entries and the emitted ones the same type. In the code, the second call reads the emitted `QobjPulseLibrary` objects with `p['name']` and `p['samples']` (qiskit/compiler/assembler.py:268); whether those objects support item access is not part of this model, so the lemma is a fact about the model and not a promise about re-use in Python.
- ScheduleAssembly.ConvertBlock: an empty sub-schedule is reported as `InvalidCommand`. The code raises `AttributeError` for it, since it has no `command` for the error message (qiskit/compiler/assembler.py:258).
- ScheduleAssembly.ConvertBlock: the `QiskitError` message names the command (`Invalid command is given, <name>`); `InvalidCommand` carries no name.
- FunctionalPulses.Call: Python's `TypeError` for a repeated keyword argument is `RepeatedArgument`. When several keywords clash, Python names the first in call order; the model, whose keywords are an unordered map, names `self`, then `duration`, then `pulse`. Other argument errors of the envelope call are not modelled.
