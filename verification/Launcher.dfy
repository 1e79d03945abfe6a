/**
 The launch protocol after the endpoint has been reserved: spawn, record the child on disk, wait for an
 authenticated proof, publish it in the manifest, and clean up whatever happens in between. A script
 gives the outcome of every step that can fail; the launch is unsupervised.
 */
module Launcher {
  import opened Wrappers

  type Error = nat

  /** What the authenticated handshake vouches for. */
  type Facts = nat

  /** `fixed` are the fields a launch never changes. */
  datatype Manifest = Manifest(fixed: nat, facts: Option<Facts>)

  datatype Step = Ok | Fails(error: Error)

  datatype Info = NotReady(sleep: Step) | Answers | InfoBreaks(error: Error)

  datatype Proof = Proven(facts: Facts) | Invalid | ProofBreaks(error: Error)

  /** One turn of the wait loop. */
  datatype Turn = Turn(exitCode: Option<int>, watchdogFails: bool, info: Info, proof: Proof)

  /** After the proof: reporting, writing the manifest, removing the record, and what follows. */
  datatype Publication = Publication(report: Step, write: Step, clear: Step, after: Step)

  datatype WaitReply = Normal | OsError

  /**
   The child is dead from the `deadBy`-th observation on: 0 is the first poll, 1 the wait after terminating, 2 the
   poll after that wait failed or the wait after killing, 3 the poll after that. The first wait reports a death, or
   an operating system error; how the second one ends makes no difference, because a poll follows in any case.
   */
  datatype Reaper = Reaper(deadBy: nat, wait: WaitReply)

  /** The cleanup's own steps. `Missing` is the record not being there to remove. */
  datatype Removal = Removed | Missing | NotRemoved(error: Error)

  datatype Cleanup = Cleanup(reaper: Reaper, clear: Removal, rewrite: Step)

  datatype Script = Script(spawn: Step, announce: Step, writeRecord: Step, setup: Step, turns: seq<Turn>,
                           interrupt: Error, publication: Publication, cleanup: Cleanup)

  datatype Exit = Returned(code: int) | Raised(error: Error)

  /** The files, and what the launcher knows. A record names the launch that wrote it. */
  datatype World = World(record: Option<nat>, manifest: Manifest,
                         spawned: bool, recorded: bool, published: bool, sawExit: bool, stopped: bool)

  // ----- stopping the child -----

  /** The last moment at which a death is still noticed. */
  function LastPoll(r: Reaper): nat {
    if r.wait == OsError then 2 else 3
  }

  /** Terminate, wait, kill, wait: exactly the children that die in time are reported stopped, and no living one. */
  method TerminateSpawnedProcess(r: Reaper) returns (stopped: bool)
    ensures stopped ==> r.deadBy <= 3
    ensures r.deadBy <= 2 ==> stopped
    ensures r.deadBy == 3 ==> (stopped <==> r.wait == Normal)
  {
    if r.deadBy == 0 {
      return true;
    }
    // terminate
    if r.wait == OsError {
      return r.deadBy <= 2;
    }
    if r.deadBy <= 1 {
      return true;
    }
    // kill, wait once more, and poll
    return r.deadBy <= 3;
  }

  // ----- the protocol -----

  function Start(record: Option<nat>, manifest: Manifest): World {
    World(record, manifest, false, false, false, false, false)
  }

  function Body(w: World, me: nat, s: Script): (World, Exit) {
    if s.spawn.Fails? then (w, Raised(s.spawn.error))
    else
      var w1 := w.(spawned := true);
      if s.announce.Fails? then (w1, Raised(s.announce.error))
      else if s.writeRecord.Fails? then (w1, Raised(s.writeRecord.error))
      else
        var w2 := w1.(record := Some(me), recorded := true);
        if s.setup.Fails? then (w2, Raised(s.setup.error)) else Wait(w2, s.turns, s)
  }

  function Wait(w: World, turns: seq<Turn>, s: Script): (World, Exit)
    decreases |turns|
  {
    if turns == [] then (w, Raised(s.interrupt))
    else
      var t := turns[0];
      if t.exitCode.Some? then (w.(sawExit := true), Returned(if t.exitCode.value == 0 then 1 else t.exitCode.value))
      else if t.watchdogFails then (w, Returned(1))
      else match t.info
        case InfoBreaks(error) => (w, Raised(error))
        case NotReady(Fails(error)) => (w, Raised(error))
        case NotReady(Ok) => Wait(w, turns[1..], s)
        case Answers =>
          match t.proof
          case Invalid => (w, Returned(1))
          case ProofBreaks(error) => (w, Raised(error))
          case Proven(facts) => Publish(w, facts, s.publication)
  }

  function Publish(w: World, facts: Facts, p: Publication): (World, Exit) {
    if p.report.Fails? then (w, Raised(p.report.error))
    else if p.write.Fails? then (w, Raised(p.write.error))
    else
      var w1 := w.(manifest := w.manifest.(facts := Some(facts)), published := true);
      var w2 := if p.clear.Ok? then w1.(record := None) else w1;
      (w2, if p.after.Fails? then Raised(p.after.error) else Returned(0))
  }

  /** The `finally` block; an error of its own replaces the pending exit. */
  function CleanUp(w: World, me: nat, c: Cleanup, exit: Exit): (World, Exit) {
    if !w.spawned || w.published then (w, exit)
    else
      var stopped := w.sawExit || c.reaper.deadBy <= LastPoll(c.reaper);
      var w1 := w.(stopped := stopped);
      if stopped then
        if !w.recorded then (w1, exit)
        else match c.clear
          case Removed => (w1.(record := None), exit)
          case Missing => (w1.(record := None), exit)
          case NotRemoved(error) => (w1, Raised(error))
      else if w.recorded then (w1, exit)
      else (if c.rewrite.Ok? then w1.(record := Some(me)) else w1, exit)
  }

  function Launch(w: World, me: nat, s: Script): (World, Exit) {
    var (w1, exit) := Body(w, me, s);
    CleanUp(w1, me, s.cleanup, exit)
  }

  // ----- no child is lost -----

  /** The facts of the proof that ended the wait, if one did. */
  function ProvenFacts(turns: seq<Turn>): Option<Facts> {
    if turns == [] || turns[0].exitCode.Some? || turns[0].watchdogFails then None
    else if turns[0].info == NotReady(Ok) then ProvenFacts(turns[1..])
    else if turns[0].info.Answers? && turns[0].proof.Proven? then Some(turns[0].proof.facts)
    else None
  }

  /** An authenticated manifest: the proven facts on the fixed fields, and the record gone if it could be removed. */
  predicate Published(before: World, after: World, s: Script) {
    && after.published
    && ProvenFacts(s.turns).Some? && after.manifest == before.manifest.(facts := ProvenFacts(s.turns))
    && (after.record.None? || s.publication.clear.Fails?)
  }

  /** The child died in time, and this launch's record is not on disk, unless removing it failed. */
  predicate ConfirmedDead(before: World, after: World, me: nat, s: Script) {
    && !after.published && after.manifest == before.manifest && after.stopped
    && (after.sawExit || s.cleanup.reaper.deadBy <= 3)
    && (after.record != Some(me) || s.cleanup.clear.NotRemoved?)
  }

  /** The child outlived the last poll, and this launch's record is on disk, unless it could not be written, twice. */
  predicate Unresolved(before: World, after: World, me: nat, s: Script) {
    && !after.published && after.manifest == before.manifest && !after.stopped
    && !after.sawExit && s.cleanup.reaper.deadBy > LastPoll(s.cleanup.reaper)
    && (after.record == Some(me) || (s.writeRecord.Fails? && s.cleanup.rewrite.Fails?)
        || (s.announce.Fails? && s.cleanup.rewrite.Fails?))
  }

  /** What holds when the wait ends, whichever way. */
  predicate AfterWait(w: World, w1: World, s: Script, turns: seq<Turn>) {
    && w1.spawned == w.spawned && w1.recorded == w.recorded && w1.stopped == w.stopped
    && (!w1.published ==> w1.manifest == w.manifest && w1.record == w.record)
    && (w1.published ==>
          && ProvenFacts(turns).Some? && w1.manifest == w.manifest.(facts := ProvenFacts(turns))
          && w1.record == if s.publication.clear.Ok? then None else w.record)
  }

  lemma {:induction false} WaitPublishesOnlyProofs(w: World, turns: seq<Turn>, s: Script)
    requires !w.published
    ensures AfterWait(w, Wait(w, turns, s).0, s, turns)
    decreases |turns|
  {
    if turns != [] && turns[0].exitCode.None? && !turns[0].watchdogFails && turns[0].info == NotReady(Ok) {
      WaitPublishesOnlyProofs(w, turns[1..], s);
    }
  }

  /** Every launch that spawned a child ends in one of the three states, whatever failed. */
  lemma NoChildIsLost(w: World, me: nat, s: Script)
    requires w == Start(w.record, w.manifest) && w.record != Some(me)
    ensures var (after, exit) := Launch(w, me, s);
            if s.spawn.Fails? then after == w && exit == Raised(s.spawn.error)
            else Published(w, after, s) || ConfirmedDead(w, after, me, s) || Unresolved(w, after, me, s)
  {
    if s.spawn.Ok? && s.announce.Ok? && s.writeRecord.Ok? && s.setup.Ok? {
      WaitPublishesOnlyProofs(w.(spawned := true, record := Some(me), recorded := true), s.turns, s);
    }
  }

  /** The manifest changes exactly when a proof was published, and the child is then left running. */
  lemma ManifestFollowsProof(w: World, me: nat, s: Script)
    requires w == Start(w.record, w.manifest)
    ensures var (after, exit) := Launch(w, me, s);
            && (after.manifest != w.manifest ==> after.published)
            && (after.published ==> !after.stopped && ProvenFacts(s.turns).Some?)
            && (after.published && s.publication.after.Ok? ==> exit == Returned(0))
            && (exit == Returned(0) ==> after.published)
  {
    if s.spawn.Ok? && s.announce.Ok? && s.writeRecord.Ok? && s.setup.Ok? {
      WaitPublishesOnlyProofs(w.(spawned := true, record := Some(me), recorded := true), s.turns, s);
      SuccessNeedsProof(w.(spawned := true, record := Some(me), recorded := true), s.turns, s);
    }
  }

  lemma {:induction false} SuccessNeedsProof(w: World, turns: seq<Turn>, s: Script)
    requires !w.published
    ensures var (w1, exit) := Wait(w, turns, s);
            && (exit == Returned(0) ==> w1.published)
            && (w1.published && s.publication.after.Ok? ==> exit == Returned(0))
    decreases |turns|
  {
    if turns != [] && turns[0].exitCode.None? && !turns[0].watchdogFails && turns[0].info == NotReady(Ok) {
      SuccessNeedsProof(w, turns[1..], s);
    }
  }

  /**
   The record has room for one launch. That of an earlier launch, whose child may still run, survives exactly when
   nothing was spawned, or this launch never wrote its own: announcing or writing it failed, and then the child died
   in time or the second attempt to write failed too.
   */
  lemma EarlierRecordSurvivesExactlyWhen(w: World, me: nat, s: Script)
    requires w == Start(w.record, w.manifest) && w.record.Some? && w.record != Some(me)
    ensures Launch(w, me, s).0.record == w.record <==>
            || s.spawn.Fails?
            || ((s.announce.Fails? || s.writeRecord.Fails?)
                && (s.cleanup.reaper.deadBy <= LastPoll(s.cleanup.reaper) || s.cleanup.rewrite.Fails?))
  {
    if s.spawn.Ok? && s.announce.Ok? && s.writeRecord.Ok? && s.setup.Ok? {
      WaitPublishesOnlyProofs(w.(spawned := true, record := Some(me), recorded := true), s.turns, s);
    }
  }

  // ----- the launcher as it runs -----

  class Session {
    const me: nat
    var record: Option<nat>
    var manifest: Manifest
    var spawned: bool
    var recorded: bool
    var published: bool
    var sawExit: bool
    var stopped: bool

    ghost function State(): World
      reads this
    {
      World(record, manifest, spawned, recorded, published, sawExit, stopped)
    }

    constructor (me: nat, record: Option<nat>, manifest: Manifest)
      ensures this.me == me && State() == Start(record, manifest)
    {
      this.me, this.record, this.manifest := me, record, manifest;
      spawned, recorded, published, sawExit, stopped := false, false, false, false, false;
    }

    method PublishProof(facts: Facts, p: Publication) returns (exit: Exit)
      modifies this
      ensures (State(), exit) == Publish(old(State()), facts, p)
    {
      if p.report.Fails? {
        return Raised(p.report.error);
      }
      if p.write.Fails? {
        return Raised(p.write.error);
      }
      manifest := manifest.(facts := Some(facts));
      published := true;
      if p.clear.Ok? {
        record := None;
      }
      return if p.after.Fails? then Raised(p.after.error) else Returned(0);
    }

    method AwaitProof(s: Script) returns (exit: Exit)
      modifies this
      ensures (State(), exit) == Wait(old(State()), s.turns, s)
    {
      for i := 0 to |s.turns|
        invariant State() == old(State())
        invariant Wait(State(), s.turns, s) == Wait(State(), s.turns[i..], s)
      {
        var t := s.turns[i];
        assert s.turns[i..][1..] == s.turns[i + 1..];
        if t.exitCode.Some? {
          sawExit := true;
          return Returned(if t.exitCode.value == 0 then 1 else t.exitCode.value);
        }
        if t.watchdogFails {
          return Returned(1);
        }
        match t.info
        case InfoBreaks(error) => return Raised(error);
        case NotReady(sleep) =>
          if sleep.Fails? {
            return Raised(sleep.error);
          }
        case Answers =>
          match t.proof {
            case Invalid => return Returned(1);
            case ProofBreaks(error) => return Raised(error);
            case Proven(facts) =>
              exit := PublishProof(facts, s.publication);
              return;
          }
      }
      return Raised(s.interrupt);
    }

    method Attempt(s: Script) returns (exit: Exit)
      modifies this
      ensures (State(), exit) == Body(old(State()), me, s)
    {
      if s.spawn.Fails? {
        return Raised(s.spawn.error);
      }
      spawned := true;
      if s.announce.Fails? {
        return Raised(s.announce.error);
      }
      if s.writeRecord.Fails? {
        return Raised(s.writeRecord.error);
      }
      record := Some(me);
      recorded := true;
      if s.setup.Fails? {
        return Raised(s.setup.error);
      }
      exit := AwaitProof(s);
    }

    method Run(s: Script) returns (exit: Exit)
      modifies this
      ensures (State(), exit) == Launch(old(State()), me, s)
    {
      exit := Attempt(s);
      if spawned && !published {
        if sawExit {
          stopped := true;
        } else {
          stopped := TerminateSpawnedProcess(s.cleanup.reaper);
        }
        if stopped {
          if recorded {
            if s.cleanup.clear.NotRemoved? {
              return Raised(s.cleanup.clear.error);
            }
            record := None;
          }
        } else if !recorded {
          if s.cleanup.rewrite.Ok? {
            record := Some(me);
          }
        }
      }
    }
  }
}
