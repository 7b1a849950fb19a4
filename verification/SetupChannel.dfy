/** The setup channel: one radio, one operation at a time, and goroutines that may finish late. */
module SetupChannel {
  import opened Bytes
  import opened SetupScan

  /** Three minutes, in nanoseconds. */
  const SCAN_TTL := 180_000_000_000
  const MAX_STEPS := 24

  datatype Phase = Idle | Scanning | Provisioning

  datatype RunState = Running | Applied | Failed | Cancelled

  /** Where an operation failed; the sentences shown are fixed functions of it. */
  datatype Failure = Failure(deviceCode: int, stage: string)

  datatype Scan = Scan(found: seq<Device>, failure: Option<Failure>, at: int)

  datatype RunInfo = RunInfo(addr: string, name: string, state: RunState, step: string, steps: seq<string>,
                             stepAt: seq<int>, failure: Option<Failure>, startedAt: int, endedAt: Option<int>)

  /** The fields of the channel. A cancel function is named by the generation whose context it ends. */
  datatype Channel = Channel(phase: Phase, scan: Option<Scan>, run: Option<RunInfo>, gen: nat, cancel: Option<nat>)

  const NEW := Channel(Idle, None, None, 0, None)

  datatype ScanResult = Found(devices: seq<Device>) | ScanFailed(failure: Failure)

  datatype RunResult = Succeeded | Stopped | RunFailed(failure: Failure)

  // --- what each lock-protected region does ---

  function StartScan(c: Channel): Channel
  {
    if c.phase != Idle then c
    else c.(phase := Scanning, gen := c.gen + 1, cancel := Some(c.gen + 1))
  }

  function EndScan(c: Channel, gen: nat, result: ScanResult, now: int): Channel
  {
    if c.gen != gen then c
    else
      c.(phase := Idle, cancel := None,
         scan := Some(match result
                      case ScanFailed(failure) => Scan([], Some(failure), now)
                      case Found(devices) => Scan(CleanFound(devices), None, now)))
  }

  predicate Stale(c: Channel, now: int)
  {
    c.scan.None? || now - c.scan.value.at > SCAN_TTL
  }

  /** The first device with that address. */
  function Lookup(found: seq<Device>, addr: string): Option<Device>
  {
    if found == [] then None else if found[0].addr == addr then Some(found[0]) else Lookup(found[1..], addr)
  }

  /** The device a run for that address would go to, if one may start now. */
  function Target(c: Channel, text: string, now: int): Option<Device>
  {
    var addr := SanitizePairId(text);
    if addr == "" || c.phase != Idle || c.scan.None? || Stale(c, now) then None
    else Lookup(c.scan.value.found, addr)
  }

  function StartRun(c: Channel, text: string, now: int): Channel
  {
    var device := Target(c, text, now);
    if device.None? then c
    else
      c.(phase := Provisioning, gen := c.gen + 1, cancel := Some(c.gen + 1),
         run := Some(RunInfo(device.value.addr, device.value.name, Running, "", [], [], None, now, None)))
  }

  function EndRun(c: Channel, gen: nat, result: RunResult, now: int): Channel
  {
    if c.gen != gen || c.run.None? then c
    else
      var ended := c.run.value.(endedAt := Some(now));
      c.(phase := Idle, cancel := None,
         run := Some(match result
                     case Succeeded => ended.(state := Applied)
                     case Stopped => ended.(state := Cancelled)
                     case RunFailed(failure) => ended.(state := Failed, failure := Some(failure))))
  }

  predicate KnownStep(step: string)
  {
    step in ["connecting", "reading_info", "pairing", "sending", "applying"]
  }

  function Report(c: Channel, gen: nat, step: string, now: int): Channel
  {
    if !KnownStep(step) || c.gen != gen || c.run.None? || c.run.value.state != Running then c
    else
      var run := c.run.value.(step := step);
      c.(run := Some(if |run.steps| < MAX_STEPS then run.(steps := run.steps + [step], stepAt := run.stepAt + [now])
                     else run))
  }

  function Stop(c: Channel, now: int): Channel
  {
    if c.phase == Idle || c.cancel.None? then c
    else
      var stopped := c.(phase := Idle, cancel := None, gen := c.gen + 1);
      if c.phase == Provisioning && c.run.Some? && c.run.value.state == Running then
        stopped.(run := Some(c.run.value.(state := Cancelled, endedAt := Some(now))))
      else stopped
  }

  /** The one device the page offers: nothing while an operation runs or the scan is old. */
  function Offer(c: Channel, now: int): Option<Device>
  {
    if c.phase != Idle || c.scan.None? || Stale(c, now) || Candidates(c.scan.value.found) == [] then None
    else Some(Candidates(c.scan.value.found)[0])
  }

  // --- the object ---

  datatype Answer = Accepted | Unavailable | TooMany | BadAddress | Busy | LookAgain | NotSeen | NothingRunning | Done

  class Setup {
    const wired: bool
    var phase: Phase
    var scan: Option<Scan>
    var run: Option<RunInfo>
    var gen: nat
    var cancel: Option<nat>

    function View(): Channel
      reads this
    {
      Channel(phase, scan, run, gen, cancel)
    }

    constructor (wired: bool)
      ensures View() == NEW && this.wired == wired
    {
      this.wired := wired;
      phase, scan, run, gen, cancel := Idle, None, None, 0, None;
    }

    /** allowed is the rate limiter's verdict. */
    method HandleScan(allowed: bool) returns (answer: Answer)
      modifies this
      ensures View() == if wired && allowed then StartScan(old(View())) else old(View())
      ensures answer == if !wired then Unavailable else if !allowed then TooMany
                        else if old(phase) != Idle then Busy else Accepted
    {
      if !wired {
        return Unavailable;
      }
      if !allowed {
        return TooMany;
      }
      if phase != Idle {
        return Busy;
      }
      phase := Scanning;
      gen := gen + 1;
      cancel := Some(gen);
      return Accepted;
    }

    method FinishScan(of: nat, result: ScanResult, now: int)
      modifies this
      ensures View() == EndScan(old(View()), of, result, now)
    {
      if gen != of {
        return;
      }
      phase := Idle;
      cancel := None;
      match result
      case ScanFailed(failure) =>
        scan := Some(Scan([], Some(failure), now));
      case Found(devices) =>
        var clean := CleanFoundDevices(devices);
        scan := Some(Scan(clean, None, now));
    }

    method FindDevice(addr: string) returns (r: Option<Device>)
      ensures r == if scan.None? then None else Lookup(scan.value.found, addr)
    {
      if scan.None? {
        return None;
      }
      var found := scan.value.found;
      for i := 0 to |found|
        invariant Lookup(found[i..], addr) == Lookup(found, addr)
      {
        assert found[i..][1..] == found[i + 1..];
        if found[i].addr == addr {
          return Some(found[i]);
        }
      }
      return None;
    }

    method HandleProvision(text: string, allowed: bool, now: int) returns (answer: Answer)
      modifies this
      ensures View() == if wired && allowed then StartRun(old(View()), text, now) else old(View())
      ensures answer == Accepted <==> wired && allowed && Target(old(View()), text, now).Some?
      ensures answer == Unavailable <==> !wired
      ensures answer == TooMany <==> wired && !allowed
      ensures answer == BadAddress <==> wired && allowed && SanitizePairId(text) == ""
      ensures answer == Busy <==> wired && allowed && SanitizePairId(text) != "" && old(phase) != Idle
      ensures answer == LookAgain <==>
                wired && allowed && SanitizePairId(text) != "" && old(phase) == Idle && Stale(old(View()), now)
      ensures answer != NothingRunning && answer != Done
    {
      hide SanitizePairId, Lookup;
      if !wired {
        return Unavailable;
      }
      if !allowed {
        return TooMany;
      }
      var addr := SanitizePairId(text);
      if addr == "" {
        return BadAddress;
      }
      if phase != Idle {
        return Busy;
      }
      if scan.None? || now - scan.value.at > SCAN_TTL {
        return LookAgain;
      }
      var device := FindDevice(addr);
      if device.None? {
        return NotSeen;
      }
      phase := Provisioning;
      gen := gen + 1;
      cancel := Some(gen);
      run := Some(RunInfo(device.value.addr, device.value.name, Running, "", [], [], None, now, None));
      return Accepted;
    }

    method FinishRun(of: nat, result: RunResult, now: int)
      modifies this
      ensures View() == EndRun(old(View()), of, result, now)
    {
      if gen != of || run.None? {
        return;
      }
      phase := Idle;
      cancel := None;
      var ended := run.value.(endedAt := Some(now));
      match result
      case Succeeded => run := Some(ended.(state := Applied));
      case Stopped => run := Some(ended.(state := Cancelled));
      case RunFailed(failure) => run := Some(ended.(state := Failed, failure := Some(failure)));
    }

    method RecordStep(of: nat, step: string, now: int)
      modifies this
      ensures View() == Report(old(View()), of, step, now)
    {
      if !KnownStep(step) || gen != of || run.None? || run.value.state != Running {
        return;
      }
      run := Some(run.value.(step := step));
      if |run.value.steps| < MAX_STEPS {
        run := Some(run.value.(steps := run.value.steps + [step], stepAt := run.value.stepAt + [now]));
      }
    }

    method HandleStop(now: int) returns (answer: Answer)
      modifies this
      ensures View() == Stop(old(View()), now)
      ensures answer == if old(phase) == Idle || old(cancel).None? then NothingRunning else Done
    {
      if phase == Idle || cancel.None? {
        return NothingRunning;
      }
      var was := phase;
      cancel := None;
      phase := Idle;
      gen := gen + 1;
      if was == Provisioning && run.Some? && run.value.state == Running {
        run := Some(run.value.(state := Cancelled, endedAt := Some(now)));
      }
      return Done;
    }
  }
}
