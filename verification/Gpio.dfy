/** GPIO devices: each caches the lines it has looked up by pin number. Several pin names,
    and several devices, may share one physical line. */
module Gpio {
  import opened Prelude
  import opened Text

  type Line = nat

  /** gpioreg: fixed once the host is initialised. */
  type Registry = map<string, Line>

  type Levels = map<Line, bool>

  const HIGH := true
  const LOW := false

  datatype PinError = PinNotFound | PinNotDriven

  /** Pin lookup without any cache. */
  function LineOf(reg: Registry, pin: int): Option<Line> {
    if Itoa(pin) in reg then Some(reg[Itoa(pin)]) else None
  }

  /** The registered name that spells the pin number in decimal is on this line. */
  ghost predicate OnLine(reg: Registry, pin: int, line: Line) {
    exists name :: name in reg && Names(name, pin) && reg[name] == line
  }

  /** At most one name spells the number, so the line is determined. */
  lemma LineOfIff(reg: Registry, pin: int)
    ensures forall line: Line :: LineOf(reg, pin) == Some(line) <==> OnLine(reg, pin, line)
    ensures LineOf(reg, pin) == None <==> forall name :: name in reg ==> !Names(name, pin)
  {
    NamesIff(Itoa(pin), pin);
    forall name | name in reg && Names(name, pin) ensures name == Itoa(pin) {
      NamesIff(name, pin);
    }
  }

  /** The effect of setting a pin by looking it up afresh. `driven` is whether the hardware
      accepted the level; a level that was not accepted changes nothing. */
  function Driven(reg: Registry, levels: Levels, pin: int, level: bool, driven: bool): Levels {
    match LineOf(reg, pin)
    case None => levels
    case Some(line) => if driven then levels[line := level] else levels
  }

  function DriveError(reg: Registry, pin: int, driven: bool): Option<PinError> {
    if LineOf(reg, pin).None? then Some(PinNotFound)
    else if !driven then Some(PinNotDriven)
    else None
  }

  /** Every cached line is the one a fresh lookup would give. */
  predicate CacheOk(reg: Registry, cache: map<int, Line>) {
    forall p :: p in cache ==> LineOf(reg, p) == Some(cache[p])
  }

  class Hardware {
    const registry: Registry
    var levels: Levels

    constructor (registry: Registry, levels: Levels)
      ensures this.registry == registry && this.levels == levels
    {
      this.registry, this.levels := registry, levels;
    }

    method Out(line: Line, level: bool, driven: bool) returns (ok: bool)
      modifies this
      ensures ok == driven
      ensures levels == if driven then old(levels)[line := level] else old(levels)
    {
      if driven {
        levels := levels[line := level];
      }
      return driven;
    }
  }

  class RPIDevice {
    const id: string
    const hardware: Hardware
    var pinCache: map<int, Line>

    predicate Valid()
      reads this
    {
      CacheOk(hardware.registry, pinCache)
    }

    constructor (id: string, hardware: Hardware)
      ensures this.id == id && this.hardware == hardware && pinCache == map[] && Valid()
    {
      this.id, this.hardware, this.pinCache := id, hardware, map[];
    }

    /** The cache is invisible: levels and errors are those of a fresh lookup, which goes by
        the registered name that spells the pin number. */
    method SetPin(pin: int, level: bool, driven: bool) returns (err: Option<PinError>)
      requires Valid()
      modifies this, hardware
      ensures Valid()
      ensures forall line: Line :: OnLine(hardware.registry, pin, line) ==>
                && hardware.levels == (if driven then old(hardware.levels)[line := level] else old(hardware.levels))
                && err == if driven then None else Some(PinNotDriven)
      ensures (forall name :: name in hardware.registry ==> !Names(name, pin)) ==>
                hardware.levels == old(hardware.levels) && err == Some(PinNotFound)
      ensures hardware.levels == Driven(hardware.registry, old(hardware.levels), pin, level, driven)
      ensures err == DriveError(hardware.registry, pin, driven)
      ensures pinCache == Cached(hardware.registry, old(pinCache), pin)
    {
      LineOfIff(hardware.registry, pin);
      var line: Line;
      if pin in pinCache {
        line := pinCache[pin];
      } else {
        if Itoa(pin) !in hardware.registry {
          return Some(PinNotFound);
        }
        line := hardware.registry[Itoa(pin)];
        pinCache := pinCache[pin := line];
      }
      var ok := hardware.Out(line, level, driven);
      if !ok {
        return Some(PinNotDriven);
      }
      return None;
    }
  }

  /** The cache after a pin was used: an unknown pin is not cached. */
  function Cached(reg: Registry, cache: map<int, Line>, pin: int): map<int, Line> {
    if pin in cache then cache
    else match LineOf(reg, pin)
      case None => cache
      case Some(line) => cache[pin := line]
  }

  lemma CachedStaysOk(reg: Registry, cache: map<int, Line>, pin: int)
    requires CacheOk(reg, cache)
    ensures CacheOk(reg, Cached(reg, cache, pin))
  {
  }
}
