/** What one sample of the startup watchdog does, and when it stops a launch, in times, counters and phase files. */
module WatchdogSamples {
  import opened Wrappers
  import opened StartupWatchdog

  /** A phase file not counted yet: imports, initialisation and listening, in this order. */
  predicate IsNewPhase(w: Watch, p: Probe, phase: int) {
    w.phaseIndex < phase && phase in p.visible
  }

  function NewPhases(w: Watch, p: Probe): seq<int> {
    (if IsNewPhase(w, p, 0) then [0] else []) + (if IsNewPhase(w, p, 1) then [1] else [])
    + (if IsNewPhase(w, p, 2) then [2] else [])
  }

  function PhaseAfter(w: Watch, p: Probe): int {
    if IsNewPhase(w, p, 2) then 2
    else if IsNewPhase(w, p, 1) then 1
    else if IsNewPhase(w, p, 0) then 0 else w.phaseIndex
  }

  /** A tenth of the stall window in processor time, or a mebibyte, more than at the last progress. */
  predicate CountersMove(c: Config, w: Watch, p: Probe) {
    || (p.cpu.Some? && p.cpu.value >= w.progressCpu + c.stall / 10.0)
    || (p.readBytes.Some? && p.readBytes.value >= w.progressReads + 1_048_576)
  }

  /** Counters count only while the endpoint does not listen yet. */
  predicate MakesProgress(c: Config, w: Watch, p: Probe) {
    NewPhases(w, p) != [] || (PhaseAfter(w, p) < 2 && CountersMove(c, w, p))
  }

  lemma PhasesAreSeen(w: Watch, p: Probe)
    requires -1 <= w.phaseIndex
    ensures SeePhases(w, p.visible, 0)
         == (w.(phaseIndex := PhaseAfter(w, p), phases := w.phases + NewPhases(w, p)), NewPhases(w, p) != [])
  {
    var w1 := if IsNewPhase(w, p, 0) then w.(phaseIndex := 0, phases := w.phases + [0]) else w;
    var w2 := if IsNewPhase(w, p, 1) then w1.(phaseIndex := 1, phases := w1.phases + [1]) else w1;
    var w3 := if IsNewPhase(w, p, 2) then w2.(phaseIndex := 2, phases := w2.phases + [2]) else w2;
    assert SeePhases(w3, p.visible, 3) == (w3, false);
    assert SeePhases(w2, p.visible, 2) == (w3, IsNewPhase(w, p, 2));
    assert SeePhases(w1, p.visible, 1) == (w3, IsNewPhase(w, p, 1) || IsNewPhase(w, p, 2));
    assert w3.phases == w.phases + NewPhases(w, p);
  }

  /** The highest reading so far; readings start from nought. */
  predicate IsHighest(before: Option<real>, now: Option<real>, after: Option<real>) {
    if now.None? then after == before
    else after.Some? && after.value == (var level := if before.Some? then before.value else 0.0;
                                        if now.value > level then now.value else level)
  }

  predicate IsMost(before: Option<int>, now: Option<int>, after: Option<int>) {
    if now.None? then after == before
    else after.Some? && after.value == (var level := if before.Some? then before.value else 0;
                                        if now.value > level then now.value else level)
  }

  /** The watch after a sample: phases first, then the counters, and the deadline moves exactly on progress. */
  lemma SampleMoves(c: Config, w: Watch, p: Probe)
    requires c.Valid() && -1 <= w.phaseIndex
    ensures var after := Sample(c, w, p, false).0;
            && after.started == w.started
            && after.phaseIndex == PhaseAfter(w, p) && after.phases == w.phases + NewPhases(w, p)
            && (if PhaseAfter(w, p) < 2 then
                  IsHighest(w.cpu, p.cpu, after.cpu) && IsMost(w.readBytes, p.readBytes, after.readBytes)
                else after.cpu == w.cpu && after.readBytes == w.readBytes)
            && after.lastProgress == (if MakesProgress(c, w, p) then p.now else w.lastProgress)
            && (MakesProgress(c, w, p) ==>
                  && after.progressCpu == (if after.cpu.Some? then after.cpu.value else 0.0)
                  && after.progressReads == (if after.readBytes.Some? then after.readBytes.value else 0))
            && (!MakesProgress(c, w, p) ==>
                  after.progressCpu == w.progressCpu && after.progressReads == w.progressReads)
  {
    PhasesAreSeen(w, p);
    assert c.MinCpu() == c.stall / 10.0;
  }

  /**
   A launch is stopped exactly when its whole time is up, or when it makes no progress and its stall window is over.
   */
  lemma StoppedExactlyWhen(c: Config, w: Watch, p: Probe)
    requires c.Valid() && -1 <= w.phaseIndex
    ensures Sample(c, w, p, false).1 ==
            if p.now >= w.started + c.wait then Some(CapReached)
            else if !MakesProgress(c, w, p) && p.now >= w.lastProgress + c.stall then Some(NoProgress)
            else None
  {
    SampleMoves(c, w, p);
  }

  /** So a launch that makes progress within its whole time goes on, with a new stall window. */
  lemma ProgressIsNotStopped(c: Config, w: Watch, p: Probe)
    requires c.Valid() && -1 <= w.phaseIndex && MakesProgress(c, w, p) && p.now < w.started + c.wait
    ensures var (after, failure) := Sample(c, w, p, false); failure.None? && after.lastProgress == p.now
  {
    SampleMoves(c, w, p);
    StoppedExactlyWhen(c, w, p);
  }

  /** A reporting sample counts the phases and does nothing else. */
  lemma ReportingOnlyLooks(c: Config, w: Watch, p: Probe)
    requires -1 <= w.phaseIndex
    ensures Sample(c, w, p, true)
         == (w.(phaseIndex := PhaseAfter(w, p), phases := w.phases + NewPhases(w, p)), None)
  {
    PhasesAreSeen(w, p);
  }
}
