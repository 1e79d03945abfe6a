/**
 The launcher's startup watchdog. Phase hints and process counters extend the inactivity deadline, but
 counters only by a whole minimum above their level at the last progress, so progress is paid for.
 Times and CPU seconds are exact reals.
 */
module StartupWatchdog {
  import opened Wrappers

  const RPC_LISTENING := 2
  const PHASE_COUNT := 3
  const MIN_READ_BYTES := 1024 * 1024

  /** Both timeouts are positive, as the launcher's argument parser demands. */
  datatype Config = Config(stall: real, wait: real) {
    predicate Valid() {
      stall > 0.0 && wait > 0.0
    }

    /** Six CPU seconds per default stall window of sixty. */
    function MinCpu(): (r: real)
      ensures Valid() ==> r > 0.0
    {
      6.0 * stall / 60.0
    }
  }

  datatype Watch = Watch(started: real, lastProgress: real, cpu: Option<real>, readBytes: Option<int>,
                         progressCpu: real, progressReads: int, phaseIndex: int, phases: seq<int>)

  /** One sample: the time, the phase files visible before any error, and the two counters if readable. */
  datatype Probe = Probe(now: real, visible: set<int>, cpu: Option<real>, readBytes: Option<int>)

  datatype Failure = CapReached | NoProgress

  function NewWatch(now: real): Watch {
    Watch(now, now, None, None, 0.0, 0, -1, [])
  }

  // ----- one sample -----

  function SeePhases(w: Watch, visible: set<int>, index: nat): (Watch, bool)
    requires index <= PHASE_COUNT
    decreases PHASE_COUNT - index
  {
    if index == PHASE_COUNT then (w, false)
    else if index > w.phaseIndex && index in visible then
      (SeePhases(w.(phaseIndex := index, phases := w.phases + [index]), visible, index + 1).0, true)
    else SeePhases(w, visible, index + 1)
  }

  function OrZero(x: Option<real>): real {
    if x.Some? then x.value else 0.0
  }

  function OrZeroReads(x: Option<int>): int {
    if x.Some? then x.value else 0
  }

  function HighCpu(w: Watch, cpu: Option<real>): Option<real> {
    if cpu.None? then w.cpu else Some(if cpu.value > OrZero(w.cpu) then cpu.value else OrZero(w.cpu))
  }

  function HighReads(w: Watch, readBytes: Option<int>): Option<int> {
    if readBytes.None? then w.readBytes
    else Some(if readBytes.value > OrZeroReads(w.readBytes) then readBytes.value else OrZeroReads(w.readBytes))
  }

  predicate CpuProgress(c: Config, w: Watch, cpu: Option<real>) {
    cpu.Some? && cpu.value - w.progressCpu >= c.MinCpu()
  }

  predicate ReadProgress(w: Watch, readBytes: Option<int>) {
    readBytes.Some? && readBytes.value - w.progressReads >= MIN_READ_BYTES
  }

  /** The counters are read only before the endpoint listens. */
  function ReadCounters(c: Config, w: Watch, p: Probe): (Watch, bool) {
    if w.phaseIndex < RPC_LISTENING then
      (w.(cpu := HighCpu(w, p.cpu), readBytes := HighReads(w, p.readBytes)),
       CpuProgress(c, w, p.cpu) || ReadProgress(w, p.readBytes))
    else (w, false)
  }

  function Mark(w: Watch, now: real): Watch {
    w.(lastProgress := now, progressCpu := OrZero(w.cpu), progressReads := OrZeroReads(w.readBytes))
  }

  function Progress(c: Config, w: Watch, p: Probe): (Watch, bool) {
    var (w1, seen) := SeePhases(w, p.visible, 0);
    var (w2, moved) := ReadCounters(c, w1, p);
    (if seen || moved then Mark(w2, p.now) else w2, seen || moved)
  }

  function Verdict(c: Config, w: Watch, now: real): Option<Failure> {
    if now - w.started >= c.wait then Some(CapReached)
    else if now - w.lastProgress >= c.stall then Some(NoProgress)
    else None
  }

  /** A reporting sample only looks at the phases, and never fails. */
  function Sample(c: Config, w: Watch, p: Probe, reportOnly: bool): (Watch, Option<Failure>) {
    if reportOnly then (SeePhases(w, p.visible, 0).0, None)
    else
      var w1 := Progress(c, w, p).0;
      (w1, Verdict(c, w1, p.now))
  }

  // ----- whole runs -----

  /** The watch after a run of samples, and how many of them moved the deadline. */
  function Run(c: Config, start: real, probes: seq<Probe>): (Watch, nat) {
    if probes == [] then (NewWatch(start), 0)
    else
      var (w, marks) := Run(c, start, probes[..|probes| - 1]);
      var (w1, progressed) := Progress(c, w, probes[|probes| - 1]);
      (w1, if progressed then marks + 1 else marks)
  }

  /** Samples that did not fail, at most `gap` apart. */
  predicate Survives(c: Config, start: real, probes: seq<Probe>, gap: real) {
    probes == [] ||
    (&& Survives(c, start, probes[..|probes| - 1], gap)
     && Paced(start, probes, gap)
     && Verdict(c, Run(c, start, probes).0, probes[|probes| - 1].now).None?)
  }

  function Before(start: real, probes: seq<Probe>): real
    requires probes != []
  {
    if |probes| == 1 then start else probes[|probes| - 2].now
  }

  predicate Paced(start: real, probes: seq<Probe>, gap: real)
    requires probes != []
  {
    Before(start, probes) <= probes[|probes| - 1].now <= Before(start, probes) + gap
  }

  // ----- progress is paid for -----

  /** How the marks so far were paid: by phases, by CPU and by reads. */
  datatype Bill = Bill(phases: nat, cpu: nat, readUnits: nat)

  /** `n` times `unit`. */
  function Times(n: nat, unit: real): real {
    if n == 0 then 0.0 else Times(n - 1, unit) + unit
  }

  lemma {:induction false} TimesIsProduct(n: nat, unit: real)
    ensures Times(n, unit) == n as real * unit
  {
    if n > 0 {
      TimesIsProduct(n - 1, unit);
      assert n as real == (n - 1) as real + 1.0;
      assert ((n - 1) as real + 1.0) * unit == (n - 1) as real * unit + unit;
    }
  }

  ghost predicate Paid(c: Config, w: Watch, marks: nat, b: Bill) {
    && marks == b.phases + b.cpu + b.readUnits
    && b.phases <= |w.phases|
    && Times(b.cpu, c.MinCpu()) <= w.progressCpu <= OrZero(w.cpu)
    && b.readUnits * MIN_READ_BYTES <= w.progressReads <= OrZeroReads(w.readBytes)
    && -1 <= w.phaseIndex < PHASE_COUNT && |w.phases| <= w.phaseIndex + 1
  }

  lemma SeeingPhases(w: Watch, visible: set<int>, index: nat)
    requires index <= PHASE_COUNT && -1 <= w.phaseIndex < PHASE_COUNT && |w.phases| <= w.phaseIndex + 1
    ensures var (w1, seen) := SeePhases(w, visible, index);
            && w1 == w.(phaseIndex := w1.phaseIndex, phases := w1.phases)
            && w.phaseIndex <= w1.phaseIndex < PHASE_COUNT && |w1.phases| <= w1.phaseIndex + 1
            && |w.phases| <= |w1.phases| && (seen ==> |w.phases| < |w1.phases|)
            && (w.phaseIndex >= RPC_LISTENING ==> !seen && w1 == w)
    decreases PHASE_COUNT - index
  {
    if index < PHASE_COUNT {
      if index > w.phaseIndex && index in visible {
        SeeingPhases(w.(phaseIndex := index, phases := w.phases + [index]), visible, index + 1);
      } else {
        SeeingPhases(w, visible, index + 1);
      }
    }
  }

  lemma ProgressIsPaid(c: Config, w: Watch, p: Probe, marks: nat, b: Bill) returns (b1: Bill)
    requires c.Valid() && Paid(c, w, marks, b)
    ensures var (w1, progressed) := Progress(c, w, p);
            Paid(c, w1, if progressed then marks + 1 else marks, b1)
  {
    SeeingPhases(w, p.visible, 0);
    var (w1, seen) := SeePhases(w, p.visible, 0);
    var w2 := ReadCounters(c, w1, p).0;
    b1 := b;
    if seen {
      b1 := b.(phases := b.phases + 1);
    } else if w1.phaseIndex < RPC_LISTENING && CpuProgress(c, w1, p.cpu) {
      b1 := b.(cpu := b.cpu + 1);
    } else if w1.phaseIndex < RPC_LISTENING && ReadProgress(w1, p.readBytes) {
      b1 := b.(readUnits := b.readUnits + 1);
    }
  }

  lemma {:induction false} RunIsPaid(c: Config, start: real, probes: seq<Probe>) returns (b: Bill)
    requires c.Valid()
    ensures Paid(c, Run(c, start, probes).0, Run(c, start, probes).1, b)
  {
    if probes == [] {
      b := Bill(0, 0, 0);
    } else {
      var (w, marks) := Run(c, start, probes[..|probes| - 1]);
      b := RunIsPaid(c, start, probes[..|probes| - 1]);
      b := ProgressIsPaid(c, w, probes[|probes| - 1], marks, b);
    }
  }

  lemma WholeUnits(n: nat, unit: real, level: real)
    requires unit > 0.0 && Times(n, unit) <= level
    ensures n <= (level / unit).Floor
  {
    TimesIsProduct(n, unit);
    assert n as real <= level / unit;
  }

  lemma WholeMebibytes(n: nat, level: int)
    requires n * MIN_READ_BYTES <= level
    ensures n <= level / MIN_READ_BYTES
  {
  }

  /**
   The amortised bound: the samples that move the deadline number at most the phases seen, plus the CPU
   high-water mark in whole minimums, plus the read high-water mark in whole mebibytes.
   */
  lemma MarksAreBounded(c: Config, start: real, probes: seq<Probe>)
    requires c.Valid()
    ensures var (w, marks) := Run(c, start, probes);
            && marks <= |w.phases| + (OrZero(w.cpu) / c.MinCpu()).Floor + OrZeroReads(w.readBytes) / MIN_READ_BYTES
            && |w.phases| <= PHASE_COUNT
  {
    var b := RunIsPaid(c, start, probes);
    var (w, marks) := Run(c, start, probes);
    var cpuUnits, readUnits := (OrZero(w.cpu) / c.MinCpu()).Floor, OrZeroReads(w.readBytes) / MIN_READ_BYTES;
    assert b.cpu <= cpuUnits by {
      WholeUnits(b.cpu, c.MinCpu(), OrZero(w.cpu));
    }
    assert b.readUnits <= readUnits by {
      WholeMebibytes(b.readUnits, OrZeroReads(w.readBytes));
    }
  }

  // ----- the run is stopped in time -----

  function Now(start: real, probes: seq<Probe>): real {
    if probes == [] then start else probes[|probes| - 1].now
  }

  /** Inside the cap, inside the stall window, and the last mark no later than the marks before it allow. */
  predicate InTime(c: Config, start: real, now: real, gap: real, w: Watch, marks: nat) {
    && w.started == start && now - start < c.wait && now - w.lastProgress < c.stall
    && w.lastProgress - start <= Times(marks, c.stall + gap)
  }

  lemma OneSampleInTime(c: Config, start: real, before: real, gap: real, w: Watch, marks: nat, p: Probe)
    requires c.Valid() && gap >= 0.0 && -1 <= w.phaseIndex < PHASE_COUNT && |w.phases| <= w.phaseIndex + 1
    requires InTime(c, start, before, gap, w, marks) && before <= p.now <= before + gap
    ensures var (w1, progressed) := Progress(c, w, p);
            && w1.started == start
            && w1.lastProgress - start <= Times(if progressed then marks + 1 else marks, c.stall + gap)
            && p.now - start < c.wait + gap && p.now - start < Times(marks + 1, c.stall + gap)
  {
    SeeingPhases(w, p.visible, 0);
  }

  lemma RunIsSound(c: Config, start: real, probes: seq<Probe>)
    requires c.Valid()
    ensures var w := Run(c, start, probes).0; -1 <= w.phaseIndex < PHASE_COUNT && |w.phases| <= w.phaseIndex + 1
  {
    var b := RunIsPaid(c, start, probes);
  }

  /** A run is its shorter run and one more sample. */
  ghost predicate Extends(c: Config, start: real, probes: seq<Probe>, w: Watch, marks: nat, w1: Watch, marks1: nat)
    requires probes != []
  {
    && Run(c, start, probes[..|probes| - 1]) == (w, marks)
    && Run(c, start, probes) == (w1, marks1)
    && var (w2, progressed) := Progress(c, w, probes[|probes| - 1]);
       w1 == w2 && marks1 == if progressed then marks + 1 else marks
  }

  lemma LastSample(c: Config, start: real, probes: seq<Probe>) returns (w: Watch, marks: nat, w1: Watch, marks1: nat)
    requires c.Valid() && probes != []
    ensures Extends(c, start, probes, w, marks, w1, marks1)
    ensures -1 <= w.phaseIndex < PHASE_COUNT && |w.phases| <= w.phaseIndex + 1
  {
    w, marks := Run(c, start, probes[..|probes| - 1]).0, Run(c, start, probes[..|probes| - 1]).1;
    w1, marks1 := Run(c, start, probes).0, Run(c, start, probes).1;
    RunIsSound(c, start, probes[..|probes| - 1]);
  }

  lemma SurvivingOneSample(c: Config, start: real, before: real, gap: real, w: Watch, marks: nat, p: Probe,
                           w1: Watch, marks1: nat)
    requires c.Valid() && gap >= 0.0 && -1 <= w.phaseIndex < PHASE_COUNT && |w.phases| <= w.phaseIndex + 1
    requires InTime(c, start, before, gap, w, marks) && before <= p.now <= before + gap
    requires Progress(c, w, p).0 == w1 && marks1 == if Progress(c, w, p).1 then marks + 1 else marks
    requires Verdict(c, w1, p.now).None?
    ensures InTime(c, start, p.now, gap, w1, marks1)
  {
    OneSampleInTime(c, start, before, gap, w, marks, p);
  }

  lemma {:induction false} SurvivorsAreInTime(c: Config, start: real, probes: seq<Probe>, gap: real)
    requires c.Valid() && gap >= 0.0 && Survives(c, start, probes, gap)
    ensures InTime(c, start, Now(start, probes), gap, Run(c, start, probes).0, Run(c, start, probes).1)
  {
    if probes != [] {
      var before, last := probes[..|probes| - 1], probes[|probes| - 1];
      SurvivorsAreInTime(c, start, before, gap);
      var w, marks, w1, marks1 := LastSample(c, start, probes);
      assert Before(start, probes) == Now(start, before);
      SurvivingOneSample(c, start, Now(start, before), gap, w, marks, last, w1, marks1);
    }
  }

  lemma StoppingOneSample(c: Config, start: real, before: real, gap: real, w: Watch, marks: nat, p: Probe, marks1: nat)
    requires c.Valid() && gap >= 0.0 && -1 <= w.phaseIndex < PHASE_COUNT && |w.phases| <= w.phaseIndex + 1
    requires InTime(c, start, before, gap, w, marks) && before <= p.now <= before + gap
    requires marks1 == if Progress(c, w, p).1 then marks + 1 else marks
    ensures p.now - start < c.wait + gap && p.now - start < Times(marks1 + 1, c.stall + gap)
  {
    OneSampleInTime(c, start, before, gap, w, marks, p);
    assert Times(marks + 1, c.stall + gap) <= Times(marks + 2, c.stall + gap);
  }

  /**
   Whenever the next sample comes, failing or not, the run is over no later than one gap after the cap,
   and no later than one stall window and one gap per mark, and one more of each.
   */
  lemma RunsAreStoppedInTime(c: Config, start: real, probes: seq<Probe>, gap: real)
    requires c.Valid() && gap >= 0.0 && probes != []
    requires Survives(c, start, probes[..|probes| - 1], gap) && Paced(start, probes, gap)
    ensures Now(start, probes) - start < c.wait + gap
    ensures Now(start, probes) - start < Times(Run(c, start, probes).1 + 1, c.stall + gap)
  {
    var before := probes[..|probes| - 1];
    SurvivorsAreInTime(c, start, before, gap);
    var w, marks, _, marks1 := LastSample(c, start, probes);
    assert Before(start, probes) == Now(start, before);
    StoppingOneSample(c, start, Now(start, before), gap, w, marks, probes[|probes| - 1], marks1);
  }

  lemma {:induction false} MoreTimes(m: nat, n: nat, unit: real)
    requires m <= n && unit >= 0.0
    ensures Times(m, unit) <= Times(n, unit)
    decreases n
  {
    if m < n {
      MoreTimes(m, n - 1, unit);
    }
  }

  /** What the process did, in whole phases, CPU minimums and mebibytes. */
  function Progressed(c: Config, w: Watch): int
    requires c.Valid()
  {
    |w.phases| + (OrZero(w.cpu) / c.MinCpu()).Floor + OrZeroReads(w.readBytes) / MIN_READ_BYTES
  }

  lemma MarksAndSteps(c: Config, start: real, probes: seq<Probe>) returns (marks: nat, steps: nat)
    requires c.Valid()
    ensures marks == Run(c, start, probes).1 && steps == Progressed(c, Run(c, start, probes).0) && marks <= steps
  {
    MarksAreBounded(c, start, probes);
    marks := Run(c, start, probes).1;
    steps := Progressed(c, Run(c, start, probes).0);
  }

  /** So a run is over in time for what the process did: one stall window and one gap for each step, and one more. */
  lemma RunsAreStoppedInTimeForTheirProgress(c: Config, start: real, probes: seq<Probe>, gap: real)
    returns (steps: nat)
    requires c.Valid() && gap >= 0.0 && probes != []
    requires Survives(c, start, probes[..|probes| - 1], gap) && Paced(start, probes, gap)
    ensures steps == Progressed(c, Run(c, start, probes).0)
    ensures Now(start, probes) - start < Times(steps + 1, c.stall + gap)
    ensures Now(start, probes) - start < c.wait + gap
  {
    var marks;
    marks, steps := MarksAndSteps(c, start, probes);
    RunsAreStoppedInTime(c, start, probes, gap);
    MoreTimes(marks + 1, steps + 1, c.stall + gap);
  }

  lemma ListeningIgnoresCounters(c: Config, w: Watch, p: Probe)
    requires RPC_LISTENING <= w.phaseIndex < PHASE_COUNT && |w.phases| <= w.phaseIndex + 1
    ensures Progress(c, w, p) == (w, false)
  {
    SeeingPhases(w, p.visible, 0);
  }

  /** Once the endpoint listens, nothing moves the deadline any more. */
  lemma {:induction false} ListeningFixesTheDeadline(c: Config, start: real, probes: seq<Probe>, more: seq<Probe>)
    requires c.Valid() && Run(c, start, probes).0.phaseIndex >= RPC_LISTENING
    ensures Run(c, start, probes + more) == Run(c, start, probes)
  {
    if more == [] {
      assert probes + more == probes;
    } else {
      var all := probes + more;
      assert all[..|all| - 1] == probes + more[..|more| - 1];
      ListeningFixesTheDeadline(c, start, probes, more[..|more| - 1]);
      RunIsSound(c, start, probes);
      ListeningIgnoresCounters(c, Run(c, start, probes).0, more[|more| - 1]);
    }
  }

  // ----- the object -----

  class Watchdog {
    const config: Config
    const started: real
    var lastProgress: real
    var cpu: Option<real>
    var readBytes: Option<int>
    var progressCpu: real
    var progressReads: int
    var phaseIndex: int
    var phases: seq<int>

    ghost function State(): Watch
      reads this
    {
      Watch(started, lastProgress, cpu, readBytes, progressCpu, progressReads, phaseIndex, phases)
    }

    constructor (config: Config, now: real)
      ensures this.config == config && State() == NewWatch(now)
    {
      this.config := config;
      started, lastProgress := now, now;
      cpu, readBytes, progressCpu, progressReads := None, None, 0.0, 0;
      phaseIndex, phases := -1, [];
    }

    method LookAtPhases(visible: set<int>) returns (seen: bool)
      modifies this`phaseIndex, this`phases
      ensures (State(), seen) == SeePhases(old(State()), visible, 0)
    {
      seen := false;
      for index := 0 to PHASE_COUNT
        invariant SeePhases(old(State()), visible, 0) ==
                  (SeePhases(State(), visible, index).0, seen || SeePhases(State(), visible, index).1)
      {
        if index > phaseIndex && index in visible {
          phaseIndex := index;
          phases := phases + [index];
          seen := true;
        }
      }
    }

    /** The counters, read only before the endpoint listens. */
    method LookAtCounters(p: Probe) returns (moved: bool)
      modifies this`cpu, this`readBytes
      ensures (State(), moved) == ReadCounters(config, old(State()), p)
    {
      moved := false;
      if phaseIndex < RPC_LISTENING {
        if p.cpu.Some? && p.cpu.value - progressCpu >= config.MinCpu() {
          moved := true;
        }
        if p.readBytes.Some? && p.readBytes.value - progressReads >= MIN_READ_BYTES {
          moved := true;
        }
        if p.cpu.Some? {
          cpu := Some(if p.cpu.value > OrZero(cpu) then p.cpu.value else OrZero(cpu));
        }
        if p.readBytes.Some? {
          var most := OrZeroReads(readBytes);
          readBytes := Some(if p.readBytes.value > most then p.readBytes.value else most);
        }
      }
    }

    method TakeSample(p: Probe, reportOnly: bool) returns (failure: Option<Failure>)
      modifies this
      ensures (State(), failure) == Sample(config, old(State()), p, reportOnly)
    {
      var seen := LookAtPhases(p.visible);
      if reportOnly {
        return None;
      }
      var moved := LookAtCounters(p);
      if seen || moved {
        lastProgress := p.now;
        progressCpu := OrZero(cpu);
        progressReads := OrZeroReads(readBytes);
      }
      if p.now - started >= config.wait {
        return Some(CapReached);
      }
      if p.now - lastProgress >= config.stall {
        return Some(NoProgress);
      }
      return None;
    }
  }
}
