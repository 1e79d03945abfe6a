/** What a launch publishes, leaves on disk and returns, read off the script of what happens to it. */
module LaunchEndings {
  import opened Wrappers
  import opened Launcher

  // ----- the turn that ends the wait -----

  /** The endpoint is not ready yet, and nothing else is the matter. */
  predicate GoesOnWaiting(t: Turn) {
    t.exitCode.None? && !t.watchdogFails && t.info == NotReady(Ok)
  }

  /** The first turn that ends the wait, or the number of turns if an interrupt does. */
  predicate IsLastTurn(turns: seq<Turn>, k: nat) {
    && k <= |turns|
    && (forall i :: 0 <= i < k ==> GoesOnWaiting(turns[i]))
    && (k < |turns| ==> !GoesOnWaiting(turns[k]))
  }

  /** The child runs, the watchdog is content, and the endpoint proves who it is. */
  predicate Proves(t: Turn) {
    t.exitCode.None? && !t.watchdogFails && t.info.Answers? && t.proof.Proven?
  }

  function FailureOf(s: Step): Error {
    if s.Fails? then s.error else 0
  }

  /** How the wait ends at a turn that proves nothing. */
  function TurnExit(t: Turn): Exit {
    if t.exitCode.Some? then Returned(if t.exitCode.value != 0 then t.exitCode.value else 1)
    else if t.watchdogFails then Returned(1)
    else match t.info
      case InfoBreaks(error) => Raised(error)
      case NotReady(sleep) => Raised(FailureOf(sleep))
      case Answers => if t.proof.ProofBreaks? then Raised(t.proof.error) else Returned(1)
  }

  function PublicationExit(p: Publication): Exit {
    if p.report.Fails? then Raised(p.report.error)
    else if p.write.Fails? then Raised(p.write.error)
    else if p.after.Fails? then Raised(p.after.error)
    else Returned(0)
  }

  predicate Reaches(s: Script) {
    s.spawn.Ok? && s.announce.Ok? && s.writeRecord.Ok? && s.setup.Ok?
  }

  /** Everything up to the manifest goes well. */
  predicate Publishes(s: Script, k: nat) {
    && Reaches(s) && k < |s.turns| && Proves(s.turns[k])
    && s.publication.report.Ok? && s.publication.write.Ok?
  }

  /** The exit before the cleanup. */
  function AttemptExit(s: Script, k: nat): Exit
    requires k <= |s.turns|
  {
    if s.spawn.Fails? then Raised(s.spawn.error)
    else if s.announce.Fails? then Raised(s.announce.error)
    else if s.writeRecord.Fails? then Raised(s.writeRecord.error)
    else if s.setup.Fails? then Raised(s.setup.error)
    else if k == |s.turns| then Raised(s.interrupt)
    else if Proves(s.turns[k]) then PublicationExit(s.publication)
    else TurnExit(s.turns[k])
  }

  predicate SeesExit(s: Script, k: nat) {
    Reaches(s) && k < |s.turns| && s.turns[k].exitCode.Some?
  }

  // ----- the wait -----

  lemma {:induction false} WaitEndsAs(w: World, turns: seq<Turn>, s: Script, k: nat)
    requires IsLastTurn(turns, k)
    ensures Wait(w, turns, s) ==
            if k == |turns| then (w, Raised(s.interrupt))
            else if Proves(turns[k]) then Publish(w, turns[k].proof.facts, s.publication)
            else (w.(sawExit := w.sawExit || turns[k].exitCode.Some?), TurnExit(turns[k]))
    decreases k
  {
    if k > 0 {
      assert forall i :: 0 <= i < k - 1 ==> turns[1..][i] == turns[i + 1];
      WaitEndsAs(w, turns[1..], s, k - 1);
    }
  }

  lemma PublishEndsAs(w: World, facts: Facts, p: Publication)
    ensures var (w1, exit) := Publish(w, facts, p);
            && exit == PublicationExit(p)
            && w1 == if p.report.Fails? || p.write.Fails? then w
                     else w.(manifest := Manifest(w.manifest.fixed, Some(facts)), published := true,
                             record := if p.clear.Ok? then None else w.record)
  {
  }

  lemma LastTurn(turns: seq<Turn>) returns (k: nat)
    ensures IsLastTurn(turns, k)
  {
    k := 0;
    while k < |turns| && GoesOnWaiting(turns[k])
      invariant k <= |turns| && forall i :: 0 <= i < k ==> GoesOnWaiting(turns[i])
    {
      k := k + 1;
    }
  }

  // ----- the launch -----

  /** The record on disk in the end. */
  function RecordAfter(earlier: Option<nat>, me: nat, s: Script, k: nat, stopped: bool): Option<nat> {
    var recorded := s.announce.Ok? && s.writeRecord.Ok?;
    if s.spawn.Fails? then earlier
    else if Publishes(s, k) then (if s.publication.clear.Ok? then None else Some(me))
    else if recorded then (if stopped && !s.cleanup.clear.NotRemoved? then None else Some(me))
    else if !stopped && s.cleanup.rewrite.Ok? then Some(me)
    else earlier
  }

  /** The child was seen to have ended, or it dies in time to be noticed. */
  predicate IsStopped(s: Script, k: nat) {
    && s.spawn.Ok? && !Publishes(s, k)
    && (SeesExit(s, k) || s.cleanup.reaper.deadBy <= if s.cleanup.reaper.wait == OsError then 2 else 3)
  }

  /** An error of the cleanup replaces the exit: a record that cannot be removed. */
  function ExitAfter(s: Script, k: nat): Exit
    requires k <= |s.turns|
  {
    if IsStopped(s, k) && s.announce.Ok? && s.writeRecord.Ok? && s.cleanup.clear.NotRemoved? then
      Raised(s.cleanup.clear.error)
    else AttemptExit(s, k)
  }

  lemma AttemptEndsAs(w: World, me: nat, s: Script, k: nat)
    requires w == Start(w.record, w.manifest) && IsLastTurn(s.turns, k)
    ensures var (w1, exit) := Body(w, me, s);
            && exit == AttemptExit(s, k)
            && w1.published == Publishes(s, k) && w1.sawExit == SeesExit(s, k) && !w1.stopped
            && w1.spawned == s.spawn.Ok?
            && w1.recorded == (s.spawn.Ok? && s.announce.Ok? && s.writeRecord.Ok?)
            && w1.manifest == (if Publishes(s, k) then Manifest(w.manifest.fixed, Some(s.turns[k].proof.facts))
                               else w.manifest)
            && w1.record == (if Publishes(s, k) && s.publication.clear.Ok? then None
                             else if w1.recorded then Some(me) else w.record)
  {
    if Reaches(s) {
      var begun := w.(spawned := true, record := Some(me), recorded := true);
      WaitEndsAs(begun, s.turns, s, k);
      if k < |s.turns| && Proves(s.turns[k]) {
        PublishEndsAs(begun, s.turns[k].proof.facts, s.publication);
      }
    }
  }

  /**
   The manifest holds the proven facts exactly when every step up to it goes well and the turn that ends the wait
   proves them; then the child is left running. Otherwise the manifest is as it was. Exit and record are in the table.
   */
  lemma LaunchEndsAs(w: World, me: nat, s: Script, k: nat)
    requires w == Start(w.record, w.manifest) && IsLastTurn(s.turns, k)
    ensures var (after, exit) := Launch(w, me, s);
            && (after.published <==> Publishes(s, k))
            && after.manifest == (if Publishes(s, k) then Manifest(w.manifest.fixed, Some(s.turns[k].proof.facts))
                                  else w.manifest)
            && (after.stopped <==> IsStopped(s, k))
            && after.record == RecordAfter(w.record, me, s, k, IsStopped(s, k))
            && exit == ExitAfter(s, k)
  {
    AttemptEndsAs(w, me, s, k);
  }

  /** A launch in which all goes well publishes the proof it waited for and returns nought. */
  lemma ProvenLaunchSucceeds(w: World, me: nat, s: Script, k: nat)
    requires w == Start(w.record, w.manifest) && Reaches(s) && s.publication == Publication(Ok, Ok, Ok, Ok)
    requires k < |s.turns| && Proves(s.turns[k]) && forall i :: 0 <= i < k ==> GoesOnWaiting(s.turns[i])
    ensures var (after, exit) := Launch(w, me, s);
            && exit == Returned(0) && after.published && !after.stopped && after.record.None?
            && after.manifest == Manifest(w.manifest.fixed, Some(s.turns[k].proof.facts))
  {
    LaunchEndsAs(w, me, s, k);
  }

  /** A child that ends before it proves anything lends its exit code, nought aside, and is known to be stopped. */
  lemma ChildsExitIsReturned(w: World, me: nat, s: Script, k: nat, code: int)
    requires w == Start(w.record, w.manifest) && Reaches(s) && !s.cleanup.clear.NotRemoved?
    requires k < |s.turns| && s.turns[k].exitCode == Some(code) && forall i :: 0 <= i < k ==> GoesOnWaiting(s.turns[i])
    ensures var (after, exit) := Launch(w, me, s);
            && exit == Returned(if code == 0 then 1 else code) && after.stopped && after.record.None?
            && after.manifest == w.manifest
  {
    LaunchEndsAs(w, me, s, k);
  }
}
