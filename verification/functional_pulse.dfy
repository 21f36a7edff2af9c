/**
 * The `functional_pulse` decorator: it wraps a pulse envelope whose
 * signature declares `duration`, binds a duration and keyword parameters to
 * it, and materialises the result as a `SamplePulse`.
 */
module FunctionalPulses {

  import opened Wrappers
  import opened Commands

  /**
   * A pulse envelope as the decorator sees it: whether it is callable, the
   * parameter names its signature declares, and the samples it generates
   * for a duration and keyword arguments.
   */
  datatype Envelope = Envelope(
    callable: bool,
    parameters: set<string>,
    generate: (int, map<string, Complex>) -> seq<Complex>)

  /** The decorated envelope (`FunctionalPulse`). */
  datatype FunctionalPulse = FunctionalPulse(pulse: Envelope)

  /** The envelope bound to a duration and parameters (`_FunctionalPulse`). */
  datatype BoundPulse = BoundPulse(pulse: Envelope, duration: int, params: map<string, Complex>)

  /** The value given to the `params` setter: a dict, or anything else. */
  datatype ParamsValue = DictValue(entries: map<string, Complex>) | NonDictValue

  /** Decorating: the envelope must be callable and must declare `duration`. */
  function NewFunctionalPulse(pulse: Envelope): (r: Result<FunctionalPulse, Error>)
    ensures r.Success? <==> pulse.callable && "duration" in pulse.parameters
    ensures r.Success? ==> r.value.pulse == pulse
    ensures !pulse.callable ==> r == Failure(NotCallable)
    ensures pulse.callable && "duration" !in pulse.parameters ==> r == Failure(MissingDurationArgument)
  {
    if !pulse.callable then Failure(NotCallable)
    else if "duration" in pulse.parameters then Success(FunctionalPulse(pulse))
    else Failure(MissingDurationArgument)
  }

  /**
   * Calling the decorated envelope with `(duration, **kwargs)`. A keyword
   * `self` or `duration` repeats one of `__call__`'s own parameters, and a
   * keyword `pulse` repeats the one `_FunctionalPulse` receives positionally:
   * Python raises `TypeError` for each.
   */
  function Call(fp: FunctionalPulse, duration: int, kwargs: map<string, Complex>): (r: Result<BoundPulse, Error>)
    ensures r.Success? <==> "self" !in kwargs && "duration" !in kwargs && "pulse" !in kwargs
    ensures "self" in kwargs ==> r == Failure(RepeatedArgument("self"))
    ensures "self" !in kwargs && "duration" in kwargs ==> r == Failure(RepeatedArgument("duration"))
    ensures "self" !in kwargs && "duration" !in kwargs && "pulse" in kwargs ==> r == Failure(RepeatedArgument("pulse"))
    ensures r.Success? ==> r.value.duration == duration && r.value.params == kwargs
    ensures r.Success? ==> r.value.pulse == fp.pulse
  {
    if "self" in kwargs then Failure(RepeatedArgument("self"))
    else if "duration" in kwargs then Failure(RepeatedArgument("duration"))
    else if "pulse" in kwargs then Failure(RepeatedArgument("pulse"))
    else Success(BoundPulse(fp.pulse, duration, kwargs))
  }

  /**
   * The `params` setter: only keys the pulse already has are updated, each
   * from the new dict when it has that key; other keys keep their value.
   */
  function SetParams(p: BoundPulse, v: ParamsValue): (r: Result<BoundPulse, Error>)
    ensures r.Failure? <==> v.NonDictValue?
    ensures r.Failure? ==> r.error == ParamsNotDict
    ensures r.Success? ==> r.value.params.Keys == p.params.Keys
    ensures r.Success? ==> forall k :: k in p.params && k in v.entries ==> r.value.params[k] == v.entries[k]
    ensures r.Success? ==> forall k :: k in p.params && k !in v.entries ==> r.value.params[k] == p.params[k]
    ensures r.Success? ==> r.value.pulse == p.pulse && r.value.duration == p.duration
  {
    match v
    case NonDictValue => Failure(ParamsNotDict)
    case DictValue(entries) =>
      Success(p.(params := map k | k in p.params :: if k in entries then entries[k] else p.params[k]))
  }

  /** Keys the pulse does not have are ignored by the setter. */
  lemma SetParamsIgnoresExtraKeys(p: BoundPulse, entries: map<string, Complex>)
    ensures SetParams(p, DictValue(entries))
         == SetParams(p, DictValue(map k | k in entries && k in p.params :: entries[k]))
  {
    var a := SetParams(p, DictValue(entries)).value;
    var b := SetParams(p, DictValue(map k | k in entries && k in p.params :: entries[k])).value;
    assert a.params == b.params;
  }

  /** Setting the same dict twice is the same as setting it once. */
  lemma SetParamsIdempotent(p: BoundPulse, entries: map<string, Complex>)
    ensures SetParams(SetParams(p, DictValue(entries)).value, DictValue(entries))
         == SetParams(p, DictValue(entries))
  {
    var once := SetParams(p, DictValue(entries)).value;
    var twice := SetParams(once, DictValue(entries)).value;
    assert twice.params == once.params;
  }

  /** Setting a pulse's own parameters leaves it unchanged. */
  lemma SetOwnParams(p: BoundPulse)
    ensures SetParams(p, DictValue(p.params)) == Success(p)
  {
    assert SetParams(p, DictValue(p.params)).value.params == p.params;
  }

  /** The sample sequence with every sample beyond unit magnitude replaced by `unit` of it. */
  function Clip(samples: seq<Complex>, unit: Complex -> Complex): (r: seq<Complex>)
    ensures |r| == |samples|
    ensures forall i :: 0 <= i < |samples| && ExceedsUnit(samples[i]) ==> r[i] == unit(samples[i])
    ensures forall i :: 0 <= i < |samples| && !ExceedsUnit(samples[i]) ==> r[i] == samples[i]
  {
    seq(|samples|, i requires 0 <= i < |samples| => if ExceedsUnit(samples[i]) then unit(samples[i]) else samples[i])
  }

  /** The samples the bound envelope generates. */
  function Generated(p: BoundPulse): seq<Complex> {
    p.pulse.generate(p.duration, p.params)
  }

  /**
   * `tolist`: generate the samples and wrap them as a `SamplePulse`. Samples of
   * magnitude above 1 are replaced by `unit` of them (in the code, `z / abs(z)`);
   * the command's identifier and name are supplied by the caller.
   */
  function ToList(p: BoundPulse, id: string, name: string, unit: Complex -> Complex): (r: SamplePulse)
    ensures r.Duration() == |Generated(p)|
    ensures (forall i :: 0 <= i < |Generated(p)| ==> !ExceedsUnit(Generated(p)[i])) ==> r.samples == Generated(p)
    ensures forall i :: 0 <= i < |Generated(p)| ==>
      r.samples[i] == if ExceedsUnit(Generated(p)[i]) then unit(Generated(p)[i]) else Generated(p)[i]
    ensures r.id == id && r.name == name
  {
    var samples := Generated(p);
    if exists i :: 0 <= i < |samples| && ExceedsUnit(samples[i]) then
      SamplePulse(id, name, Clip(samples, unit))
    else
      SamplePulse(id, name, samples)
  }

  /**
   * When `unit` maps every over-range sample into range (as `z / abs(z)`
   * does), every sample of the materialised pulse is within unit magnitude,
   * so clipping it again changes nothing.
   */
  lemma ToListWithinUnit(p: BoundPulse, id: string, name: string, unit: Complex -> Complex)
    requires forall z :: ExceedsUnit(z) ==> !ExceedsUnit(unit(z))
    ensures forall i :: 0 <= i < |ToList(p, id, name, unit).samples| ==> !ExceedsUnit(ToList(p, id, name, unit).samples[i])
    ensures Clip(ToList(p, id, name, unit).samples, unit) == ToList(p, id, name, unit).samples
  {
    var r := ToList(p, id, name, unit);
    var g := Generated(p);
    forall i | 0 <= i < |r.samples|
      ensures !ExceedsUnit(r.samples[i])
    {
      if ExceedsUnit(g[i]) {
        assert r.samples[i] == unit(g[i]);
      }
    }
  }

  /**
   * End to end: decorating an envelope, calling it and materialising the
   * result gives as many samples as the envelope generates for that duration
   * and those keywords, each clipped into range only where it exceeds it.
   */
  lemma DecoratedPulseSamples(pulse: Envelope, duration: int, kwargs: map<string, Complex>,
                              id: string, name: string, unit: Complex -> Complex)
    requires NewFunctionalPulse(pulse).Success?
    requires Call(NewFunctionalPulse(pulse).value, duration, kwargs).Success?
    ensures "duration" in pulse.parameters
    ensures var r := ToList(Call(NewFunctionalPulse(pulse).value, duration, kwargs).value, id, name, unit);
      var g := pulse.generate(duration, kwargs);
      && |r.samples| == |g|
      && forall i :: 0 <= i < |g| ==> r.samples[i] == if ExceedsUnit(g[i]) then unit(g[i]) else g[i]
  {
  }
}
