/**
 Clearing leftover recompute work before a native commit: a bounded number of recomputes, then one
 purge and one last recompute. The document answers as it likes, or raises; only the calls made on it are ours.
 */
module Settlement {
  import opened Wrappers

  type Error = nat

  datatype Answer = Clear | Dirty | Breaks(error: Error)

  datatype Reply = Done | WouldBlock | Fails(error: Error)

  /**
   The document as an oracle: the answer to its n-th question, and what its n-th recompute, the asynchronous one in
   its place, and the purge do.
   */
  datatype Env = Env(answerAt: nat -> Answer, recomputeAt: nat -> Reply, pumpAt: nat -> Option<Error>,
                     purge: Option<Error>, canRecompute: bool, canPurge: bool)

  datatype Call =
    | Asked(answer: Answer)
    | Recompute(force: bool, reply: Reply)
    | Pump(force: bool, failure: Option<Error>)
    | Purge(failure: Option<Error>)

  datatype Ending = Ending(log: seq<Call>, raised: Option<Error>)

  function FailureOf(c: Call): Option<Error> {
    match c
    case Asked(Breaks(e)) => Some(e)
    case Recompute(_, Fails(e)) => Some(e)
    case Pump(_, failure) => failure
    case Purge(failure) => failure
    case _ => None
  }

  function Asks(log: seq<Call>): nat {
    if log == [] then 0 else Asks(log[..|log| - 1]) + if log[|log| - 1].Asked? then 1 else 0
  }

  /** The force flags of the recomputes, in order. */
  function Flags(log: seq<Call>): seq<bool> {
    if log == [] then []
    else Flags(log[..|log| - 1]) + if log[|log| - 1].Recompute? then [log[|log| - 1].force] else []
  }

  predicate Pending(log: seq<Call>) {
    log != [] && log[|log| - 1] == Asked(Dirty)
  }

  function Called(log: seq<Call>, c: Call): Ending {
    Ending(log + [c], FailureOf(c))
  }

  function Ask(env: Env, log: seq<Call>): Ending {
    Called(log, Asked(env.answerAt(Asks(log))))
  }

  /** A recompute; one that would block is pumped asynchronously instead. */
  function Try(env: Env, log: seq<Call>, force: bool): Ending {
    var n := |Flags(log)|;
    var called := Called(log, Recompute(force, env.recomputeAt(n)));
    if env.recomputeAt(n).WouldBlock? then Called(called.log, Pump(force, env.pumpAt(n))) else called
  }

  function Settle(env: Env, maxPasses: nat): Ending {
    var asked := Ask(env, []);
    if !Pending(asked.log) || !env.canRecompute then asked else Passes(env, asked.log, 0, maxPasses)
  }

  function Passes(env: Env, log: seq<Call>, pass: nat, maxPasses: nat): Ending
    requires pass <= maxPasses
    decreases maxPasses - pass
  {
    if pass == maxPasses then Purging(env, log)
    else
      var asked := Ask(env, log);
      if !Pending(asked.log) then asked
      else
        var tried := Try(env, asked.log, pass > 0);
        if tried.raised.Some? then tried
        else
          var checked := Ask(env, tried.log);
          if !Pending(checked.log) then checked else Passes(env, checked.log, pass + 1, maxPasses)
  }

  function Purging(env: Env, log: seq<Call>): Ending {
    if !env.canPurge then Ending(log, None)
    else
      var asked := Ask(env, log);
      if !Pending(asked.log) then asked
      else
        var purged := Called(asked.log, Purge(env.purge));
        if purged.raised.Some? then purged
        else
          var checked := Ask(env, purged.log);
          if !Pending(checked.log) then checked else Try(env, checked.log, false)
  }

  // ----- what is called, and how often -----

  /** The first pass is not forced, every later one is. */
  function PassFlags(n: nat): (r: seq<bool>)
    ensures |r| == n
  {
    seq(n, i requires 0 <= i < n => i > 0)
  }

  function Last(log: seq<Call>): Call
    requires log != []
  {
    log[|log| - 1]
  }

  predicate NoPurge(log: seq<Call>) {
    forall c :: c in log ==> !c.Purge?
  }

  /** The calls up to the purge, if there is one. */
  function BeforePurge(log: seq<Call>): (r: seq<Call>)
    ensures r <= log && NoPurge(r)
    ensures NoPurge(log) <==> r == log
    ensures r != log ==> log[|r|].Purge?
  {
    if log == [] || log[0].Purge? then []
    else
      assert log == [log[0]] + log[1..];
      [log[0]] + BeforePurge(log[1..])
  }

  /** Once: nothing after the purge purges again, all passes were spent on it, and work was still pending. */
  predicate PurgesLate(log: seq<Call>, maxPasses: nat) {
    var before := BeforePurge(log);
    before != log ==>
      && Pending(before) && Flags(before) == PassFlags(maxPasses)
      && NoPurge(log[|before| + 1..])
  }

  /** The forced flags of all recomputes: passes first, and one last attempt after a purge only. */
  predicate FlagsOk(log: seq<Call>, maxPasses: nat) {
    || (|Flags(log)| <= maxPasses && Flags(log) == PassFlags(|Flags(log)|))
    || (!NoPurge(log) && Flags(log) == PassFlags(maxPasses) + [false])
  }

  /** An exception is that of the last call; no call follows one that raised. */
  predicate RaisesItsLastCall(e: Ending) {
    e.log != [] && e.raised == FailureOf(Last(e.log))
  }

  /** Given up only when cleared, when a call raised, or when nothing more can be done. */
  predicate DoesAllItCan(env: Env, e: Ending, maxPasses: nat) {
    && e.log != []
    && (|| Last(e.log) == Asked(Clear) || e.raised.Some? || !env.canRecompute || !env.canPurge
        || Flags(e.log) == PassFlags(maxPasses) + [false])
  }

  predicate Bounded(env: Env, e: Ending, maxPasses: nat) {
    && e.log != []
    // nothing is called after the work was seen cleared, or after a call raised
    && Asked(Clear) !in e.log[..|e.log| - 1]
    && RaisesItsLastCall(e)
    && NoFailures(e.log[..|e.log| - 1])
    && FlagsOk(e.log, maxPasses)
    && PurgesLate(e.log, maxPasses)
    && DoesAllItCan(env, e, maxPasses)
  }

  predicate NoFailures(log: seq<Call>) {
    forall c :: c in log ==> FailureOf(c).None?
  }

  /** A log of a settlement under way, not yet purged. */
  predicate UnderWay(log: seq<Call>, pass: nat) {
    && log != [] && NoPurge(log) && Asked(Clear) !in log && NoFailures(log[..|log| - 1])
    && Flags(log) == PassFlags(pass)
  }

  /** And its last call went well. */
  predicate GoesOn(log: seq<Call>, pass: nat) {
    UnderWay(log, pass) && FailureOf(Last(log)).None?
  }

  lemma Append(log: seq<Call>, c: Call)
    ensures Flags(log + [c]) == Flags(log) + if c.Recompute? then [c.force] else []
    ensures (log + [c])[..|log|] == log && Last(log + [c]) == c
  {
  }

  lemma GoingOnHasNoFailures(log: seq<Call>, pass: nat)
    requires GoesOn(log, pass)
    ensures NoFailures(log)
  {
    assert log == log[..|log| - 1] + [Last(log)];
  }

  lemma PassFlagsGrow(pass: nat)
    ensures PassFlags(pass) + [pass > 0] == PassFlags(pass + 1)
  {
  }

  /** A question: the settlement goes on, or ends well, or the question raised. */
  lemma AskIsUnderWay(env: Env, log: seq<Call>, pass: nat)
    requires GoesOn(log, pass)
    ensures var e := Ask(env, log);
            && RaisesItsLastCall(e)
            && (Pending(e.log) ==> GoesOn(e.log, pass))
            && (e.raised.Some? ==> UnderWay(e.log, pass))
            && (!Pending(e.log) && e.raised.None? ==> e == Ending(log + [Asked(Clear)], None))
  {
    GoingOnHasNoFailures(log, pass);
    Append(log, Asked(env.answerAt(Asks(log))));
  }

  /** A last question that is answered "clear" ends the settlement well. */
  lemma ClearedIsBounded(env: Env, log: seq<Call>, pass: nat, maxPasses: nat)
    requires GoesOn(log, pass) && pass <= maxPasses
    ensures Bounded(env, Ending(log + [Asked(Clear)], None), maxPasses)
  {
    GoingOnHasNoFailures(log, pass);
    Append(log, Asked(Clear));
    assert BeforePurge(log + [Asked(Clear)]) == log + [Asked(Clear)];
  }

  lemma RaisingIsBounded(env: Env, e: Ending, pass: nat, maxPasses: nat)
    requires UnderWay(e.log, pass) && pass <= maxPasses && RaisesItsLastCall(e) && e.raised.Some?
    ensures Bounded(env, e, maxPasses)
  {
  }

  /** A question after which the settlement stops. */
  lemma StoppingIsBounded(env: Env, log: seq<Call>, pass: nat, maxPasses: nat)
    requires GoesOn(log, pass) && pass <= maxPasses && !Pending(Ask(env, log).log)
    ensures Bounded(env, Ask(env, log), maxPasses)
  {
    AskIsUnderWay(env, log, pass);
    if Ask(env, log).raised.Some? {
      RaisingIsBounded(env, Ask(env, log), pass, maxPasses);
    } else {
      ClearedIsBounded(env, log, pass, maxPasses);
    }
  }

  lemma TryAppends(env: Env, log: seq<Call>, force: bool) returns (after: seq<Call>)
    ensures var e := Try(env, log, force);
            && e.log == log + after && Flags(e.log) == Flags(log) + [force] && RaisesItsLastCall(e)
    ensures after != [] && NoPurge(after) && Asked(Clear) !in after && NoFailures(after[..|after| - 1])
  {
    var n := |Flags(log)|;
    var call := Recompute(force, env.recomputeAt(n));
    var called := log + [call];
    assert Flags(called) == Flags(log) + [force] by {
      Append(log, call);
    }
    if call.reply.WouldBlock? {
      var pump := Pump(force, env.pumpAt(n));
      assert Flags(called + [pump]) == Flags(called) by {
        Append(called, pump);
      }
      after := [call, pump];
      assert called + [pump] == log + after && after[..1] == [call];
    } else {
      after := [call];
    }
  }

  /** Nothing before the last call of a recompute raised, if nothing had before. */
  lemma TryAfter(env: Env, log: seq<Call>, force: bool) returns (after: seq<Call>)
    requires NoFailures(log)
    ensures var e := Try(env, log, force);
            && e.log == log + after && Flags(e.log) == Flags(log) + [force] && RaisesItsLastCall(e)
            && NoFailures(e.log[..|e.log| - 1])
    ensures after != [] && NoPurge(after) && Asked(Clear) !in after
  {
    after := TryAppends(env, log, force);
    var e := Try(env, log, force);
    assert e.log[..|e.log| - 1] == log + after[..|after| - 1];
  }

  lemma TryIsUnderWay(env: Env, log: seq<Call>, pass: nat)
    requires GoesOn(log, pass)
    ensures UnderWay(Try(env, log, pass > 0).log, pass + 1)
    ensures RaisesItsLastCall(Try(env, log, pass > 0))
  {
    GoingOnHasNoFailures(log, pass);
    var after := TryAfter(env, log, pass > 0);
    PassFlagsGrow(pass);
  }

  lemma {:induction false} PassesAreBounded(env: Env, log: seq<Call>, pass: nat, maxPasses: nat)
    requires pass <= maxPasses && GoesOn(log, pass) && Pending(log)
    ensures Bounded(env, Passes(env, log, pass, maxPasses), maxPasses)
    decreases maxPasses - pass
  {
    if pass == maxPasses {
      PurgingIsBounded(env, log, maxPasses);
    } else {
      var asked := Ask(env, log);
      AskIsUnderWay(env, log, pass);
      if !Pending(asked.log) {
        StoppingIsBounded(env, log, pass, maxPasses);
      } else {
        var tried := Try(env, asked.log, pass > 0);
        TryIsUnderWay(env, asked.log, pass);
        if tried.raised.Some? {
          RaisingIsBounded(env, tried, pass + 1, maxPasses);
        } else {
          AskIsUnderWay(env, tried.log, pass + 1);
          if Pending(Ask(env, tried.log).log) {
            PassesAreBounded(env, Ask(env, tried.log).log, pass + 1, maxPasses);
          } else {
            StoppingIsBounded(env, tried.log, pass + 1, maxPasses);
          }
        }
      }
    }
  }

  lemma {:induction false} FindPurge(before: seq<Call>, purge: Call, after: seq<Call>)
    requires NoPurge(before) && purge.Purge?
    ensures BeforePurge(before + [purge] + after) == before
  {
    var log := before + [purge] + after;
    if before != [] {
      FindPurge(before[1..], purge, after);
      assert log[1..] == before[1..] + [purge] + after;
    }
  }

  /** From the purge on: the purge, one question, and perhaps one recompute. */
  lemma PurgedIsBounded(env: Env, before: seq<Call>, purge: Call, after: seq<Call>, raised: Option<Error>,
                        maxPasses: nat)
    requires GoesOn(before, maxPasses) && Pending(before) && purge.Purge? && NoPurge(after)
    requires var log := before + [purge] + after;
             && Asked(Clear) !in after[..if after == [] then 0 else |after| - 1]
             && NoFailures(log[..|log| - 1])
             && RaisesItsLastCall(Ending(log, raised)) && FlagsOk(log, maxPasses)
             && DoesAllItCan(env, Ending(log, raised), maxPasses)
    ensures Bounded(env, Ending(before + [purge] + after, raised), maxPasses)
  {
    var log := before + [purge] + after;
    FindPurge(before, purge, after);
    assert log[|before| + 1..] == after;
    if after != [] {
      assert log[..|log| - 1] == before + [purge] + after[..|after| - 1];
    } else {
      assert log[..|log| - 1] == before;
    }
  }

  lemma PurgingIsBounded(env: Env, log: seq<Call>, maxPasses: nat)
    requires GoesOn(log, maxPasses) && Pending(log)
    ensures Bounded(env, Purging(env, log), maxPasses)
  {
    var asked := Ask(env, log);
    if !env.canPurge {
      GoingOnHasNoFailures(log, maxPasses);
    } else if !Pending(asked.log) {
      StoppingIsBounded(env, log, maxPasses, maxPasses);
    } else {
      AskIsUnderWay(env, log, maxPasses);
      PurgeIsBounded(env, asked.log, maxPasses);
    }
  }

  lemma PurgeIsBounded(env: Env, before: seq<Call>, maxPasses: nat)
    requires env.canPurge && GoesOn(before, maxPasses) && Pending(before)
    ensures var purged := Called(before, Purge(env.purge));
            var checked := Ask(env, purged.log);
            var e := if purged.raised.Some? then purged
                     else if !Pending(checked.log) then checked else Try(env, checked.log, false);
            Bounded(env, e, maxPasses)
  {
    var purge := Purge(env.purge);
    var answer := Asked(env.answerAt(Asks(before + [purge])));
    GoingOnHasNoFailures(before, maxPasses);
    Append(before, purge);
    Append(before + [purge], answer);
    if env.purge.Some? {
      assert before + [purge] + [] == before + [purge];
      PurgedIsBounded(env, before, purge, [], env.purge, maxPasses);
    } else if answer != Asked(Dirty) {
      PurgedIsBounded(env, before, purge, [answer], FailureOf(answer), maxPasses);
    } else {
      LastTryIsBounded(env, before, purge, maxPasses);
    }
  }

  lemma Regroup(a: seq<Call>, x: Call, y: Call, after: seq<Call>)
    ensures a + [x] + [y] + after == a + [x] + ([y] + after)
  {
  }

  lemma QuestionAfterPurge(before: seq<Call>, purge: Call)
    requires NoFailures(before) && purge == Purge(None)
    ensures Flags(before + [purge] + [Asked(Dirty)]) == Flags(before) && NoFailures(before + [purge] + [Asked(Dirty)])
  {
    Append(before, purge);
    Append(before + [purge], Asked(Dirty));
  }

  lemma LastTryShape(env: Env, before: seq<Call>, purge: Call) returns (after: seq<Call>)
    requires NoFailures(before) && purge == Purge(None)
    ensures var e := Try(env, before + [purge] + [Asked(Dirty)], false);
            && e.log == before + [purge] + ([Asked(Dirty)] + after) && RaisesItsLastCall(e)
            && Flags(e.log) == Flags(before) + [false] && NoFailures(e.log[..|e.log| - 1])
    ensures after != [] && NoPurge(after) && Asked(Clear) !in after
  {
    QuestionAfterPurge(before, purge);
    after := TryAfter(env, before + [purge] + [Asked(Dirty)], false);
    Regroup(before, purge, Asked(Dirty), after);
  }

  lemma LastTryIsBounded(env: Env, before: seq<Call>, purge: Call, maxPasses: nat)
    requires GoesOn(before, maxPasses) && Pending(before) && purge == Purge(None)
    ensures Bounded(env, Try(env, before + [purge] + [Asked(Dirty)], false), maxPasses)
  {
    var e := Try(env, before + [purge] + [Asked(Dirty)], false);
    GoingOnHasNoFailures(before, maxPasses);
    var after := LastTryShape(env, before, purge);
    var rest := [Asked(Dirty)] + after;
    assert e.log[|before|] == purge;
    assert Asked(Clear) !in rest && NoPurge(rest);
    PurgedIsBounded(env, before, purge, rest, e.raised, maxPasses);
  }

  /** Whatever the document answers, and whatever raises. */
  lemma SettlementIsBounded(env: Env, maxPasses: nat)
    ensures Bounded(env, Settle(env, maxPasses), maxPasses)
    ensures |Flags(Settle(env, maxPasses).log)| <= maxPasses + 1
  {
    var asked := Ask(env, []);
    var log := asked.log;
    Append([], log[0]);
    assert [] + [log[0]] == log && Flags([]) == [] == PassFlags(0) && log[..0] == [];
    if Pending(log) && env.canRecompute {
      PassesAreBounded(env, log, 0, maxPasses);
    }
  }

  // ----- the document and the calls made on it -----

  class Document {
    const env: Env
    var log: seq<Call>

    constructor (env: Env)
      ensures this.env == env && log == []
    {
      this.env, log := env, [];
    }

    method HasPendingMustExecute() returns (pending: bool, raised: Option<Error>)
      modifies this
      ensures Ending(log, raised) == Ask(env, old(log)) && pending == Pending(log)
    {
      var answer := env.answerAt(Asks(log));
      log := log + [Asked(answer)];
      if answer.Breaks? {
        return false, Some(answer.error);
      }
      return answer.Dirty?, None;
    }

    method TryRecompute(force: bool) returns (raised: Option<Error>)
      modifies this
      ensures Ending(log, raised) == Try(env, old(log), force)
    {
      var n := |Flags(log)|;
      var reply := env.recomputeAt(n);
      log := log + [Recompute(force, reply)];
      if reply.Fails? {
        return Some(reply.error);
      }
      if reply.WouldBlock? {
        log := log + [Pump(force, env.pumpAt(n))];
        return env.pumpAt(n);
      }
      return None;
    }

    method PurgeAndRetry() returns (raised: Option<Error>)
      requires env.canPurge
      modifies this
      ensures Ending(log, raised) == Purging(env, old(log))
    {
      var pending;
      pending, raised := HasPendingMustExecute();
      if !pending {
        return;
      }
      log := log + [Purge(env.purge)];
      if env.purge.Some? {
        return env.purge;
      }
      pending, raised := HasPendingMustExecute();
      if !pending {
        return;
      }
      raised := TryRecompute(false);
    }

    method SettleMustExecute(maxPasses: nat) returns (raised: Option<Error>)
      requires log == []
      modifies this
      ensures Ending(log, raised) == Settle(env, maxPasses)
    {
      var pending;
      pending, raised := HasPendingMustExecute();
      if !pending || !env.canRecompute {
        return;
      }
      for pass := 0 to maxPasses
        invariant raised.None? && Settle(env, maxPasses) == Passes(env, log, pass, maxPasses)
      {
        pending, raised := HasPendingMustExecute();
        if !pending {
          return;
        }
        raised := TryRecompute(pass > 0);
        if raised.Some? {
          return;
        }
        pending, raised := HasPendingMustExecute();
        if !pending {
          return;
        }
      }
      if env.canPurge {
        raised := PurgeAndRetry();
      }
    }
  }

  // ----- the asynchronous pump -----

  const DEADLINE_MS := 360_000
  const SLEEP_MS := 2

  /**
   `clock` gives successive readings in milliseconds, the first for the deadline, and each sleep moves it
   by at least two; `doneAt` is what the handle says in each iteration.
   */
  method AsyncPump(clock: nat -> int, doneAt: nat -> bool) returns (iterations: nat, done: bool)
    requires clock(0) <= clock(1) && forall i: nat :: i > 0 ==> clock(i) + SLEEP_MS <= clock(i + 1)
    ensures iterations <= 180_000
    ensures done ==> doneAt(iterations) && clock(iterations + 1) < clock(0) + DEADLINE_MS
    ensures !done ==> clock(iterations + 1) >= clock(0) + DEADLINE_MS
    ensures forall i: nat :: i < iterations ==> !doneAt(i)
    ensures forall i: nat :: 0 < i <= iterations ==> clock(i) < clock(0) + DEADLINE_MS
  {
    var deadline := clock(0) + DEADLINE_MS;
    iterations, done := 0, false;
    while clock(iterations + 1) < deadline
      invariant clock(0) + SLEEP_MS * iterations <= clock(iterations + 1)
      invariant iterations <= 180_000
      invariant forall i: nat :: i < iterations ==> !doneAt(i)
      invariant forall i: nat :: 0 < i <= iterations ==> clock(i) < deadline
      decreases 180_000 - iterations
    {
      if doneAt(iterations) {
        done := true;
        break;
      }
      iterations := iterations + 1;
    }
  }
}
