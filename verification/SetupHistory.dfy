/** What the setup channel shows, told from the actions alone: how the run ended, the steps it reported, and the
    scan. */
module SetupHistory {
  import opened Bytes
  import opened SetupScan
  import opened SetupChannel
  import opened SetupSafety

  lemma Reachable(actions: seq<Action>)
    ensures Sound(After(START, actions))
  {
    StaysSound(START, actions);
  }

  // --- how the run ended ---

  /** The running run ends: its own live goroutine reports an outcome, or the owner stops it. */
  predicate EndsRun(w: World, a: Action)
  {
    && w.channel.run.Some? && w.channel.run.value.state == Running
    && match a
       case RunEnds(gen, addr, _, _) => RunJob(gen, addr) in w.live && gen == w.channel.gen
       case Delete(_) => true
       case _ => false
  }

  /** The action that ended the run shown, if it has ended. */
  function Ending(actions: seq<Action>): Option<Action>
  {
    if actions == [] then None
    else
      var before, a := After(START, actions[..|actions| - 1]), actions[|actions| - 1];
      if StartsRun(before, a) then None
      else if EndsRun(before, a) then Some(a)
      else Ending(actions[..|actions| - 1])
  }

  /** The run ended as that action says, and at its time. */
  predicate EndedAs(r: RunInfo, ending: Option<Action>)
  {
    match ending
    case None => r.state == Running && r.failure == None && r.endedAt == None
    case Some(RunEnds(_, _, Succeeded, now)) => r.state == Applied && r.failure == None && r.endedAt == Some(now)
    case Some(RunEnds(_, _, Stopped, now)) => r.state == Cancelled && r.failure == None && r.endedAt == Some(now)
    case Some(RunEnds(_, _, RunFailed(f), now)) => r.state == Failed && r.failure == Some(f) && r.endedAt == Some(now)
    case Some(Delete(now)) => r.state == Cancelled && r.failure == None && r.endedAt == Some(now)
    case _ => false
  }

  lemma RunEndings(w: World, a: Action, ending: Option<Action>)
    requires Sound(w) && w.channel.run.Some? && EndedAs(w.channel.run.value, ending)
    requires !StartsRun(w, a) && (a.RunEnds? || a.Delete?)
    ensures Next(w, a).channel.run.Some?
    ensures EndedAs(Next(w, a).channel.run.value, if EndsRun(w, a) then Some(a) else ending)
  {
    hide KnownStep, IsId, CleanList;
    if a.RunEnds? {
      JobIsCurrent(w, RunJob(a.gen, a.addr));
    }
  }

  lemma OthersEndNothing(w: World, a: Action, ending: Option<Action>)
    requires w.channel.run.Some? && EndedAs(w.channel.run.value, ending)
    requires !StartsRun(w, a) && !a.RunEnds? && !a.Delete?
    ensures Next(w, a).channel.run.Some? && EndedAs(Next(w, a).channel.run.value, ending)
  {
    hide KnownStep, CleanFound, Target, SanitizePairId;
  }

  lemma FirstRun(w: World, a: Action)
    requires Sound(w) && Next(w, a).channel.run.Some? && (w.channel.run.None? || StartsRun(w, a))
    ensures StartsRun(w, a) && EndedAs(Next(w, a).channel.run.value, None)
  {
    hide KnownStep, IsId, CleanList, CleanFound, Target, SanitizePairId;
  }

  lemma NothingEnds(w: World, a: Action)
    requires !a.RunEnds? && !a.Delete?
    ensures !EndsRun(w, a)
  {
  }

  /** In every reachable state, the run shown is running exactly while nothing has ended it since it started. It is
      applied exactly when its own goroutine ended with success, cancelled exactly when that ended stopped or the owner
      stopped it, failed, with the failure reported, exactly when it ended with one; and it ended when that happened. */
  lemma {:induction false} ShownAsEnded(actions: seq<Action>)
    ensures var c := After(START, actions).channel;
            c.run.Some? ==> EndedAs(c.run.value, Ending(actions))
  {
    hide Next, EndedAs, EndsRun, StartsRun, Sound;
    if actions != [] {
      var front, a := actions[..|actions| - 1], actions[|actions| - 1];
      var w := After(START, front);
      ShownAsEnded(front);
      Reachable(front);
      if Next(w, a).channel.run.Some? {
        if w.channel.run.None? || StartsRun(w, a) {
          FirstRun(w, a);
        } else if a.RunEnds? || a.Delete? {
          RunEndings(w, a, Ending(front));
        } else {
          OthersEndNothing(w, a, Ending(front));
          NothingEnds(w, a);
        }
      }
    }
  }

  // --- the steps it reported ---

  /** The running run's goroutine reports a known step. */
  predicate TellsStep(w: World, a: Action)
  {
    && a.Reports? && KnownStep(a.step) && a.gen == w.channel.gen
    && w.channel.run.Some? && w.channel.run.value.state == Running
  }

  /** All that the run shown has reported since it started. */
  function Told(actions: seq<Action>): seq<Action>
  {
    if actions == [] then []
    else
      var front, a := actions[..|actions| - 1], actions[|actions| - 1];
      if StartsRun(After(START, front), a) then []
      else if TellsStep(After(START, front), a) then Told(front) + [a]
      else Told(front)
  }

  /** The first twenty-four reports are kept with their times; the step shown is the latest of all. */
  predicate ShowsSteps(r: RunInfo, told: seq<Action>)
  {
    && |r.steps| == |r.stepAt| == (if |told| < MAX_STEPS then |told| else MAX_STEPS)
    && (forall i :: 0 <= i < |told| ==> told[i].Reports?)
    && (forall i :: 0 <= i < |r.steps| ==> r.steps[i] == told[i].step && r.stepAt[i] == told[i].now)
    && r.step == if told == [] then "" else told[|told| - 1].step
  }

  lemma StepTold(w: World, a: Action, told: seq<Action>)
    requires w.channel.run.Some? && ShowsSteps(w.channel.run.value, told) && TellsStep(w, a)
    ensures Next(w, a).channel.run.Some? && ShowsSteps(Next(w, a).channel.run.value, told + [a])
  {
    hide KnownStep;
  }

  lemma NoStepTold(w: World, a: Action, told: seq<Action>)
    requires w.channel.run.Some? && ShowsSteps(w.channel.run.value, told)
    requires !TellsStep(w, a) && !StartsRun(w, a)
    ensures Next(w, a).channel.run.Some? && ShowsSteps(Next(w, a).channel.run.value, told)
  {
    hide KnownStep, CleanFound, Target, SanitizePairId;
  }

  lemma NoStepYet(w: World, a: Action)
    requires Next(w, a).channel.run.Some? && (w.channel.run.None? || StartsRun(w, a))
    ensures StartsRun(w, a) && ShowsSteps(Next(w, a).channel.run.value, [])
  {
    hide KnownStep, CleanFound, Target, SanitizePairId;
  }

  /** In every reachable state, the run shown lists what its own goroutine has reported since it started. */
  lemma {:induction false} ShownAsTold(actions: seq<Action>)
    ensures var c := After(START, actions).channel;
            c.run.Some? ==> ShowsSteps(c.run.value, Told(actions))
  {
    hide Next, ShowsSteps, TellsStep, StartsRun;
    if actions != [] {
      var front, a := actions[..|actions| - 1], actions[|actions| - 1];
      var w := After(START, front);
      ShownAsTold(front);
      if Next(w, a).channel.run.Some? {
        if w.channel.run.None? || StartsRun(w, a) {
          NoStepYet(w, a);
        } else if TellsStep(w, a) {
          StepTold(w, a, Told(front));
        } else {
          NoStepTold(w, a, Told(front));
        }
      }
    }
  }

  // --- the scan ---

  /** The ending of the scan that was recorded last: by the goroutine the channel was waiting for. */
  function LastScan(actions: seq<Action>): Option<Action>
  {
    if actions == [] then None
    else
      var w, a := After(START, actions[..|actions| - 1]), actions[|actions| - 1];
      if a.ScanEnds? && ScanJob(a.gen) in w.live && a.gen == w.channel.gen then Some(a)
      else LastScan(actions[..|actions| - 1])
  }

  /** In every reachable state, the scan shown is that ending's: what it heard, cleaned, or its failure, at its time. */
  lemma {:induction false} ShownAsScanned(actions: seq<Action>)
    ensures var scan, last := After(START, actions).channel.scan, LastScan(actions);
            match last
            case None => scan == None
            case Some(ScanEnds(_, Found(devices), now)) => scan == Some(Scan(CleanFound(devices), None, now))
            case Some(ScanEnds(_, ScanFailed(f), now)) => scan == Some(Scan([], Some(f), now))
            case _ => false
  {
    hide CleanFound, Target, KnownStep;
    if actions != [] {
      ShownAsScanned(actions[..|actions| - 1]);
    }
  }

  // --- the generations ---

  /** The action starts an operation or stops one. */
  predicate Claims(w: World, a: Action)
  {
    || StartsRun(w, a)
    || (a.PostScan? && w.channel.phase == Idle)
    || (a.Delete? && w.channel.phase != Idle)
  }

  /** How many of them did. */
  function ClaimCount(actions: seq<Action>): nat
  {
    if actions == [] then 0
    else
      ClaimCount(actions[..|actions| - 1])
      + if Claims(After(START, actions[..|actions| - 1]), actions[|actions| - 1]) then 1 else 0
  }

  lemma OneClaim(w: World, a: Action)
    requires Sound(w)
    ensures Next(w, a).channel.gen == w.channel.gen + if Claims(w, a) then 1 else 0
  {
    hide RunSound, CleanList, JobsSound, SanitizePairId, Target, CleanFound, KnownStep;
  }

  /** In every reachable state the generation counts the operations started and the operations stopped. */
  lemma {:induction false} GenerationCounts(actions: seq<Action>)
    ensures After(START, actions).channel.gen == ClaimCount(actions)
  {
    hide Next, Claims, Sound;
    if actions != [] {
      var front := actions[..|actions| - 1];
      GenerationCounts(front);
      Reachable(front);
      OneClaim(After(START, front), actions[|actions| - 1]);
    }
  }
}
