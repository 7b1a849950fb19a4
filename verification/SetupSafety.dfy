/** Safety of the setup channel over every interleaving of requests, reports and late goroutine endings. */
module SetupSafety {
  import opened Bytes
  import opened SetupScan
  import opened SetupChannel

  /** A goroutine that has been started and has not ended, with the generation it was given. */
  datatype Job = ScanJob(gen: nat) | RunJob(gen: nat, addr: string)

  /** The channel, its live goroutines, and the generations whose contexts a stop has cancelled. */
  datatype World = World(channel: Channel, live: set<Job>, cancelled: set<nat>)

  const START := World(NEW, {}, {})

  datatype Action =
    | PostScan
    | PostProvision(text: string, now: int)
    | Delete(now: int)
    | ScanEnds(gen: nat, result: ScanResult, now: int)
    | RunEnds(gen: nat, addr: string, outcome: RunResult, now: int)
    | Reports(gen: nat, step: string, now: int)

  /** A request that is refused changes nothing; an ending needs a live goroutine; a report may come from anywhere. */
  function Next(w: World, a: Action): World
  {
    var c := w.channel;
    match a
    case PostScan =>
      w.(channel := StartScan(c), live := if c.phase == Idle then w.live + {ScanJob(c.gen + 1)} else w.live)
    case PostProvision(text, now) =>
      var device := Target(c, text, now);
      w.(channel := StartRun(c, text, now),
         live := if device.Some? then w.live + {RunJob(c.gen + 1, device.value.addr)} else w.live)
    case Delete(now) =>
      w.(channel := Stop(c, now),
         cancelled := if c.phase != Idle && c.cancel.Some? then w.cancelled + {c.cancel.value} else w.cancelled)
    case ScanEnds(gen, result, now) =>
      if ScanJob(gen) !in w.live then w
      else w.(channel := EndScan(c, gen, result, now), live := w.live - {ScanJob(gen)})
    case RunEnds(gen, addr, outcome, now) =>
      if RunJob(gen, addr) !in w.live then w
      else w.(channel := EndRun(c, gen, outcome, now), live := w.live - {RunJob(gen, addr)})
    case Reports(gen, step, now) => w.(channel := Report(c, gen, step, now))
  }

  function After(w: World, actions: seq<Action>): World
  {
    if actions == [] then w else Next(After(w, actions[..|actions| - 1]), actions[|actions| - 1])
  }

  // --- what holds in every reachable state ---

  predicate RunSound(r: RunInfo)
  {
    && (r.endedAt.None? <==> r.state == Running)
    && (r.failure.Some? <==> r.state == Failed)
    && |r.steps| == |r.stepAt| <= MAX_STEPS
    && (forall s :: s in r.steps ==> KnownStep(s))
    && IsId(r.addr)
  }

  predicate ChannelSound(c: Channel)
  {
    && (c.phase != Idle <==> c.cancel.Some?)
    && (c.cancel.Some? ==> c.cancel.value == c.gen)
    && (c.phase == Provisioning <==> c.run.Some? && c.run.value.state == Running)
    && (c.run.Some? ==> RunSound(c.run.value))
    && (c.scan.Some? ==> CleanList(c.scan.value.found))
  }

  /** The goroutine the channel is waiting for. */
  predicate IsCurrent(c: Channel, j: Job)
  {
    j.gen == c.gen
    && match c.phase
       case Idle => false
       case Scanning => j.ScanJob?
       case Provisioning => j.RunJob? && c.run.Some? && j.addr == c.run.value.addr
  }

  predicate JobsSound(w: World)
  {
    && (forall j :: j in w.live ==> j.gen <= w.channel.gen)
    && (forall j :: j in w.live && j.gen == w.channel.gen ==> IsCurrent(w.channel, j))
    && (forall j, k :: j in w.live && k in w.live && j.gen == k.gen ==> j == k)
    && (w.channel.phase != Idle ==> exists j :: j in w.live && IsCurrent(w.channel, j))
    && (forall j :: j in w.live && j.gen < w.channel.gen ==> j.gen in w.cancelled)
    && (w.channel.phase != Idle ==> w.channel.gen !in w.cancelled)
    && (forall g :: g in w.cancelled ==> g <= w.channel.gen)
  }

  predicate Sound(w: World)
  {
    ChannelSound(w.channel) && JobsSound(w)
  }

  lemma {:induction false} LookupFinds(found: seq<Device>, addr: string)
    ensures Lookup(found, addr).Some? <==> exists d :: d in found && d.addr == addr
    ensures Lookup(found, addr).Some? ==> Lookup(found, addr).value in found && Lookup(found, addr).value.addr == addr
  {
    if found != [] {
      LookupFinds(found[1..], addr);
      assert found == [found[0]] + found[1..];
    }
  }

  lemma SanitizedText(text: string)
    ensures SanitizePairId(text) != "" ==> IsId(SanitizePairId(text))
  {
  }

  /** A run may start exactly when nothing runs and the address, cleaned, is one a scan of the last three
      minutes saw. */
  lemma TargetMeaning(c: Channel, text: string, now: int)
    ensures Target(c, text, now).Some? <==>
              && c.phase == Idle && SanitizePairId(text) != ""
              && c.scan.Some? && now - c.scan.value.at <= SCAN_TTL
              && exists d :: d in c.scan.value.found && d.addr == SanitizePairId(text)
    ensures Target(c, text, now).Some? ==>
              && Target(c, text, now).value in c.scan.value.found
              && Target(c, text, now).value.addr == SanitizePairId(text) && IsId(SanitizePairId(text))
  {
    hide SanitizePairId, Lookup;
    if c.scan.Some? {
      LookupFinds(c.scan.value.found, SanitizePairId(text));
    }
    SanitizedText(text);
  }

  lemma NewJob(w: World, next: World, job: Job)
    requires JobsSound(w) && w.channel.phase == Idle && next.channel.phase != Idle
    requires job.gen == next.channel.gen == w.channel.gen + 1 && IsCurrent(next.channel, job)
    requires next.live == w.live + {job} && next.cancelled == w.cancelled
    ensures JobsSound(next)
  {
    assert job in next.live;
  }

  lemma StartsSound(w: World, a: Action)
    requires Sound(w) && (a.PostScan? || a.PostProvision?)
    ensures Sound(Next(w, a))
  {
    hide IsId, SanitizePairId, Target, CleanList, KnownStep;
    if a.PostProvision? {
      TargetMeaning(w.channel, a.text, a.now);
      if Target(w.channel, a.text, a.now).Some? {
        NewJob(w, Next(w, a), RunJob(w.channel.gen + 1, Target(w.channel, a.text, a.now).value.addr));
      }
    } else if w.channel.phase == Idle {
      NewJob(w, Next(w, a), ScanJob(w.channel.gen + 1));
    }
  }

  lemma CleanedList(result: ScanResult)
    ensures CleanList([])
    ensures result.Found? ==> CleanList(CleanFound(result.devices))
  {
    if result.Found? {
      CleanFoundIsClean(result.devices);
    }
  }

  lemma EndsSound(w: World, a: Action)
    requires Sound(w) && (a.ScanEnds? || a.RunEnds?)
    ensures Sound(Next(w, a))
  {
    hide IsId, CleanList, CleanFound, KnownStep;
    if a.ScanEnds? {
      CleanedList(a.result);
    }
  }

  lemma ReportKeepsJobs(w: World, a: Action)
    requires Sound(w) && a.Reports?
    ensures JobsSound(Next(w, a))
  {
    hide RunSound, CleanList, KnownStep;
    var n := Next(w, a);
    assert forall j :: IsCurrent(n.channel, j) == IsCurrent(w.channel, j);
  }

  lemma OthersSound(w: World, a: Action)
    requires Sound(w) && (a.Delete? || a.Reports?)
    ensures Sound(Next(w, a))
  {
    hide IsId, CleanList, KnownStep;
    if a.Delete? && w.channel.phase != Idle {
      assert w.channel.cancel == Some(w.channel.gen);
    }
    if a.Reports? {
      ReportKeepsJobs(w, a);
    }
  }

  lemma NextSound(w: World, a: Action)
    requires Sound(w)
    ensures Sound(Next(w, a))
  {
    hide Sound, Next;
    if a.PostScan? || a.PostProvision? {
      StartsSound(w, a);
    } else if a.ScanEnds? || a.RunEnds? {
      EndsSound(w, a);
    } else {
      OthersSound(w, a);
    }
  }

  lemma {:induction false} StaysSound(w: World, actions: seq<Action>)
    requires Sound(w)
    ensures Sound(After(w, actions))
  {
    hide Sound, Next;
    if actions != [] {
      StaysSound(w, actions[..|actions| - 1]);
      NextSound(After(w, actions[..|actions| - 1]), actions[|actions| - 1]);
    }
  }

  // --- the main results ---

  /** In every reachable state: an operation is in flight exactly while a cancel function is held; the phase is
      provisioning exactly while the run is running; exactly then one live goroutine carries the current generation;
      and every other live goroutine has had its context cancelled. */
  lemma AlwaysOneOperation(actions: seq<Action>)
    ensures var w := After(START, actions);
            && ChannelSound(w.channel)
            && (w.channel.phase != Idle <==> exists j :: j in w.live && j.gen == w.channel.gen)
            && (forall j, k :: j in w.live && k in w.live && j.gen == w.channel.gen && k.gen == w.channel.gen ==>
                  j == k)
            && (forall j :: j in w.live ==> IsCurrent(w.channel, j) || j.gen in w.cancelled)
  {
    StaysSound(START, actions);
    hide After, ChannelSound;
    var w := After(START, actions);
    if w.channel.phase != Idle {
      var j :| j in w.live && IsCurrent(w.channel, j);
    }
  }

  /** The generation an ending or a report speaks for. */
  function Speaks(a: Action): Option<nat>
  {
    match a
    case ScanEnds(gen, _, _) => Some(gen)
    case RunEnds(gen, _, _, _) => Some(gen)
    case Reports(gen, _, _) => Some(gen)
    case _ => None
  }

  lemma {:induction false} GenerationsRise(w: World, actions: seq<Action>)
    ensures w.channel.gen <= After(w, actions).channel.gen
  {
    if actions != [] {
      GenerationsRise(w, actions[..|actions| - 1]);
      hide SanitizePairId, Target, CleanFound, KnownStep;
    }
  }

  /** Once superseded, a goroutine changes the channel no more, whatever else happens first. */
  lemma SupersededForever(w: World, actions: seq<Action>, a: Action)
    requires Speaks(a).Some? && Speaks(a).value < w.channel.gen
    ensures Next(After(w, actions), a).channel == After(w, actions).channel
  {
    GenerationsRise(w, actions);
    hide After, CleanFound, KnownStep;
  }

  /** The action starts a run. */
  predicate StartsRun(w: World, a: Action)
  {
    a.PostProvision? && Target(w.channel, a.text, a.now).Some?
  }

  lemma JobIsCurrent(w: World, j: Job)
    requires Sound(w)
    ensures j in w.live && j.gen == w.channel.gen ==> IsCurrent(w.channel, j)
  {
  }

  lemma FinishedStays(w: World, a: Action)
    requires Sound(w) && w.channel.run.Some? && w.channel.run.value.state != Running && !StartsRun(w, a)
    ensures Next(w, a).channel.run == w.channel.run
  {
    hide RunSound, CleanList, CleanFound, KnownStep, Target;
    if a.RunEnds? {
      JobIsCurrent(w, RunJob(a.gen, a.addr));
    }
  }

  /** A finished run, stopped ones included, stays as it is until another run is started. */
  lemma {:induction false} FinishedRunStays(w: World, actions: seq<Action>)
    requires Sound(w) && w.channel.run.Some? && w.channel.run.value.state != Running
    requires forall i :: 0 <= i < |actions| ==> !StartsRun(After(w, actions[..i]), actions[i])
    ensures After(w, actions).channel.run == w.channel.run
  {
    hide Sound, Next, StartsRun;
    if actions != [] {
      var front := actions[..|actions| - 1];
      assert forall i :: 0 <= i < |front| ==> front[..i] == actions[..i] && front[i] == actions[i];
      FinishedRunStays(w, front);
      StaysSound(w, front);
      FinishedStays(After(w, front), actions[|actions| - 1]);
    }
  }

  /** The run the channel shows was started by that action: to the device a fresh scan had then seen at the address. */
  predicate StartedBy(r: RunInfo, before: Channel, a: Action)
  {
    && a.PostProvision?
    && var device := Target(before, a.text, a.now);
       device.Some? && r.addr == device.value.addr && r.name == device.value.name && r.startedAt == a.now
  }

  lemma RunKeepsOrigin(w: World, a: Action)
    requires Next(w, a).channel.run.Some?
    ensures StartedBy(Next(w, a).channel.run.value, w.channel, a)
            || (w.channel.run.Some?
                && Next(w, a).channel.run.value.addr == w.channel.run.value.addr
                && Next(w, a).channel.run.value.name == w.channel.run.value.name
                && Next(w, a).channel.run.value.startedAt == w.channel.run.value.startedAt)
  {
    hide Target, KnownStep, CleanFound;
  }

  lemma SameOrigin(r: RunInfo, q: RunInfo, before: Channel, a: Action)
    requires StartedBy(r, before, a) && q.addr == r.addr && q.name == r.name && q.startedAt == r.startedAt
    ensures StartedBy(q, before, a)
  {
  }

  /** Every run, at every time, goes to a device that the scan of its start, then at most three minutes old, had
      seen. */
  lemma {:induction false} RunWasSeen(actions: seq<Action>)
    requires After(START, actions).channel.run.Some?
    ensures exists i :: 0 <= i < |actions|
              && StartedBy(After(START, actions).channel.run.value, After(START, actions[..i]).channel, actions[i])
  {
    hide Next, StartedBy;
    if actions != [] {
      var n := |actions| - 1;
      var w := After(START, actions[..n]);
      RunKeepsOrigin(w, actions[n]);
      if !StartedBy(After(START, actions).channel.run.value, w.channel, actions[n]) {
        RunWasSeen(actions[..n]);
        var i :| 0 <= i < n && StartedBy(w.channel.run.value, After(START, actions[..n][..i]).channel, actions[..n][i]);
        assert actions[..n][..i] == actions[..i];
        SameOrigin(w.channel.run.value, After(START, actions).channel.run.value, After(START, actions[..i]).channel,
                   actions[i]);
      }
    }
  }

  /** The devices reported to the scan that was recorded last, as they were heard. */
  function Heard(actions: seq<Action>): seq<Device>
  {
    if actions == [] then []
    else
      var before, a := After(START, actions[..|actions| - 1]), actions[|actions| - 1];
      if a.ScanEnds? && ScanJob(a.gen) in before.live && before.channel.gen == a.gen then
        (match a.result case Found(devices) => devices case ScanFailed(_) => [])
      else Heard(actions[..|actions| - 1])
  }

  lemma NoneFound()
    ensures CleanFound([]) == []
  {
  }

  lemma {:induction false} ScanIsHeard(actions: seq<Action>)
    ensures var c := After(START, actions).channel;
            c.scan.Some? ==> c.scan.value.found == CleanFound(Heard(actions))
  {
    hide CleanFound, Target, KnownStep;
    NoneFound();
    if actions != [] {
      ScanIsHeard(actions[..|actions| - 1]);
    }
  }

  /** Nothing runs, and a scan of the last three minutes is at hand. */
  predicate Offering(c: Channel, now: int)
  {
    c.phase == Idle && c.scan.Some? && now - c.scan.value.at <= SCAN_TTL
  }

  /** In every reachable state, a device is offered only when nothing runs and a scan is fresh. Then it is the nearest
      unprovisioned one of all that scan heard exactly when none of those was crowded out of the first sixteen, as none
      ever is of at most sixteen; of the devices kept, it is always the nearest. */
  lemma OfferIsNearest(actions: seq<Action>, now: int)
    ensures var c, reports := After(START, actions).channel, FirstReports(Heard(actions), []);
            && (!Offering(c, now) ==> Offer(c, now).None?)
            && (Offering(c, now) ==>
                  && IsNearest(Offer(c, now), c.scan.value.found)
                  && (IsNearest(Offer(c, now), reports) <==> NoneCrowdedOut(reports))
                  && (|reports| <= MAX_FOUND ==> NoneCrowdedOut(reports)))
  {
    StaysSound(START, actions);
    ScanIsHeard(actions);
    NearestIff(Heard(actions));
    hide After, Heard, RunSound, IsId, DeviceLess, Candidates, CleanFound, FirstReports, NoneCrowdedOut;
    var c := After(START, actions).channel;
    if c.scan.Some? {
      FirstCandidateIsNearest(c.scan.value.found);
    }
  }
}
