/**
 The calls a settlement makes, one by one: what each of them follows, and that the answers are the document's. With the
 bounds on passes and purge this leaves one log for every document.
 */
module SettlementLog {
  import opened Wrappers
  import opened Settlement

  // ----- counting calls -----

  function Questions(log: seq<Call>): set<nat> {
    set i: nat | i < |log| && log[i].Asked?
  }

  function Recomputes(log: seq<Call>): set<nat> {
    set i: nat | i < |log| && log[i].Recompute?
  }

  lemma QuestionsGrow(log: seq<Call>, c: Call)
    ensures Questions(log + [c]) == Questions(log) + if c.Asked? then {|log|} else {}
    ensures Recomputes(log + [c]) == Recomputes(log) + if c.Recompute? then {|log|} else {}
  {
  }

  lemma OneMore(s: set<nat>, n: nat)
    requires n !in s
    ensures |s + {n}| == |s| + 1 && s + {} == s
  {
  }

  /** Questions and recomputes are numbered by how many there were before. */
  lemma {:induction false} CallsAreCounted(log: seq<Call>)
    ensures Asks(log) == |Questions(log)| && |Flags(log)| == |Recomputes(log)|
  {
    if log == [] {
      assert Questions(log) == {} && Recomputes(log) == {};
    } else {
      var front, last := log[..|log| - 1], log[|log| - 1];
      CallsAreCounted(front);
      QuestionsGrow(front, last);
      OneMore(Questions(front), |front|);
      OneMore(Recomputes(front), |front|);
      assert front + [last] == log;
    }
  }

  // ----- what each call follows -----

  predicate EndsIn(log: seq<Call>, c: Call) {
    log != [] && log[|log| - 1] == c
  }

  /** The work was seen to be pending, and the call before that is `c`. */
  predicate EndsInTwo(log: seq<Call>, c: Call) {
    |log| >= 2 && log[|log| - 1] == Asked(Dirty) && log[|log| - 2] == c
  }

  /** A recompute would block, and nothing was done about it yet. */
  predicate IsBlocked(log: seq<Call>) {
    log != [] && log[|log| - 1].Recompute? && log[|log| - 1].reply.WouldBlock?
  }

  predicate AskedTwice(log: seq<Call>) {
    |log| >= 2 && log[|log| - 1].Asked? && log[|log| - 2].Asked?
  }

  /**
   A question is asked at most twice in a row. A recompute follows two questions that found work, or one after the
   purge; a purge follows two. A recompute that would block, and no other call, is followed by its pump. Each gets the
   next of the document's answers.
   */
  predicate MayFollow(env: Env, log: seq<Call>, c: Call) {
    match c
    case Asked(answer) => answer == env.answerAt(Asks(log)) && !IsBlocked(log) && !AskedTwice(log)
    case Recompute(_, reply) =>
      && reply == env.recomputeAt(|Flags(log)|) && env.canRecompute
      && (EndsInTwo(log, Asked(Dirty)) || EndsInTwo(log, Purge(None)))
    case Pump(force, failure) =>
      EndsIn(log, Recompute(force, WouldBlock)) && failure == env.pumpAt(|Flags(log[..|log| - 1])|)
    case Purge(failure) => failure == env.purge && env.canPurge && EndsInTwo(log, Asked(Dirty))
  }

  predicate Follows(env: Env, log: seq<Call>)
    decreases |log|
  {
    log == [] || (Follows(env, log[..|log| - 1]) && MayFollow(env, log[..|log| - 1], log[|log| - 1]))
  }

  lemma FollowsAppend(env: Env, log: seq<Call>, c: Call)
    requires Follows(env, log) && MayFollow(env, log, c)
    ensures Follows(env, log + [c])
  {
    assert (log + [c])[..|log|] == log;
  }

  /** Nothing is left to do: cleared, raised, no recompute at hand, or all passes made and the purge too. */
  predicate IsDone(env: Env, e: Ending, maxPasses: nat) {
    && !IsBlocked(e.log)
    && (|| EndsIn(e.log, Asked(Clear)) || e.raised.Some?
        || (!env.canRecompute && e.log == [Asked(Dirty)])
        || (!env.canPurge && Flags(e.log) == PassFlags(maxPasses))
        || Flags(e.log) == PassFlags(maxPasses) + [false])
  }

  /** The log ends in exactly one question, which found work. */
  predicate EndsInOne(log: seq<Call>) {
    EndsIn(log, Asked(Dirty)) && (|log| == 1 || !log[|log| - 2].Asked?)
  }

  /** A question that is not the third in a row: work, no work, or an exception. */
  lemma AskFollows(env: Env, log: seq<Call>)
    requires Follows(env, log) && !IsBlocked(log) && !AskedTwice(log)
    ensures var e := Ask(env, log);
            && Follows(env, e.log) && !IsBlocked(e.log) && Flags(e.log) == Flags(log)
            && (Pending(e.log) || EndsIn(e.log, Asked(Clear)) || e.raised.Some?)
            && e.log == log + [Last(e.log)] && Last(e.log).Asked?
  {
    var c := Asked(env.answerAt(Asks(log)));
    FollowsAppend(env, log, c);
    Append(log, c);
  }

  lemma TryFollows(env: Env, log: seq<Call>, force: bool)
    requires Follows(env, log) && env.canRecompute && (EndsInTwo(log, Asked(Dirty)) || EndsInTwo(log, Purge(None)))
    ensures var e := Try(env, log, force);
            && Follows(env, e.log) && !IsBlocked(e.log) && e.log != [] && !Last(e.log).Asked?
            && Flags(e.log) == Flags(log) + [force]
  {
    var n := |Flags(log)|;
    var call := Recompute(force, env.recomputeAt(n));
    FollowsAppend(env, log, call);
    Append(log, call);
    if call.reply.WouldBlock? {
      var pump := Pump(force, env.pumpAt(n));
      assert (log + [call])[..|log|] == log;
      FollowsAppend(env, log + [call], pump);
      Append(log + [call], pump);
    }
  }

  lemma AskedAgain(log: seq<Call>, asked: seq<Call>)
    requires EndsInOne(log) && Pending(asked) && asked == log + [Asked(Dirty)]
    ensures EndsInTwo(asked, Asked(Dirty))
  {
  }

  lemma AskedOnce(log: seq<Call>, asked: seq<Call>)
    requires log != [] && !Last(log).Asked? && Pending(asked) && asked == log + [Asked(Dirty)]
    ensures EndsInOne(asked) && (Last(log) == Purge(None) ==> EndsInTwo(asked, Purge(None)))
  {
  }

  lemma AskingAgainFollows(env: Env, log: seq<Call>)
    requires Follows(env, log) && EndsInOne(log)
    ensures var e := Ask(env, log);
            && Follows(env, e.log) && !IsBlocked(e.log) && Flags(e.log) == Flags(log)
            && if Pending(e.log) then EndsInTwo(e.log, Asked(Dirty)) else EndsIn(e.log, Asked(Clear)) || e.raised.Some?
  {
    AskFollows(env, log);
    if Pending(Ask(env, log).log) {
      AskedAgain(log, Ask(env, log).log);
    }
  }

  lemma {:induction false} PassesFollow(env: Env, log: seq<Call>, pass: nat, maxPasses: nat)
    requires pass <= maxPasses && Follows(env, log) && EndsInOne(log) && env.canRecompute
    requires Flags(log) == PassFlags(pass)
    ensures var e := Passes(env, log, pass, maxPasses); Follows(env, e.log) && IsDone(env, e, maxPasses)
    decreases maxPasses - pass
  {
    if pass == maxPasses {
      PurgingFollows(env, log, maxPasses);
    } else {
      var asked := Ask(env, log);
      AskingAgainFollows(env, log);
      if Pending(asked.log) {
        PassFollows(env, asked.log, pass);
        var tried := Try(env, asked.log, pass > 0);
        if tried.raised.None? && Pending(Ask(env, tried.log).log) {
          PassesFollow(env, Ask(env, tried.log).log, pass + 1, maxPasses);
        }
      }
    }
  }

  /** One pass: the recompute, and a question, after which at most one more pass begins. */
  lemma PassFollows(env: Env, log: seq<Call>, pass: nat)
    requires Follows(env, log) && env.canRecompute && EndsInTwo(log, Asked(Dirty)) && Flags(log) == PassFlags(pass)
    ensures var tried := Try(env, log, pass > 0);
            var checked := Ask(env, tried.log);
            && Follows(env, tried.log) && !IsBlocked(tried.log) && Follows(env, checked.log) && !IsBlocked(checked.log)
            && Flags(checked.log) == PassFlags(pass + 1)
            && (Pending(checked.log) ==> EndsInOne(checked.log))
            && (Pending(checked.log) || EndsIn(checked.log, Asked(Clear)) || checked.raised.Some?)
  {
    var tried := Try(env, log, pass > 0);
    TryFollows(env, log, pass > 0);
    PassFlagsGrow(pass);
    AskFollows(env, tried.log);
    if Pending(Ask(env, tried.log).log) {
      AskedOnce(tried.log, Ask(env, tried.log).log);
    }
  }

  lemma PurgingFollows(env: Env, log: seq<Call>, maxPasses: nat)
    requires Follows(env, log) && EndsInOne(log) && env.canRecompute && Flags(log) == PassFlags(maxPasses)
    ensures var e := Purging(env, log); Follows(env, e.log) && IsDone(env, e, maxPasses)
  {
    if env.canPurge {
      AskFollows(env, log);
      if Pending(Ask(env, log).log) {
        AskedAgain(log, Ask(env, log).log);
        PurgeFollows(env, Ask(env, log).log, maxPasses);
      }
    }
  }

  lemma PurgeFollows(env: Env, log: seq<Call>, maxPasses: nat)
    requires Follows(env, log) && env.canRecompute && env.canPurge && EndsInTwo(log, Asked(Dirty))
    requires Flags(log) == PassFlags(maxPasses)
    ensures var purged := Called(log, Purge(env.purge));
            var checked := Ask(env, purged.log);
            var e := if purged.raised.Some? then purged
                     else if !Pending(checked.log) then checked else Try(env, checked.log, false);
            Follows(env, e.log) && IsDone(env, e, maxPasses)
  {
    var purged := log + [Purge(env.purge)];
    FollowsAppend(env, log, Purge(env.purge));
    Append(log, Purge(env.purge));
    if env.purge.None? {
      var checked := Ask(env, purged);
      AskFollows(env, purged);
      if Pending(checked.log) {
        AskedOnce(purged, checked.log);
        TryFollows(env, checked.log, false);
      }
    }
  }

  /** Every call of a settlement may follow those before it, and the settlement stops only when it is done. */
  lemma SettlementFollows(env: Env, maxPasses: nat)
    ensures var e := Settle(env, maxPasses); Follows(env, e.log) && IsDone(env, e, maxPasses)
  {
    var asked := Ask(env, []);
    AskFollows(env, []);
    assert [] + [Last(asked.log)] == [Last(asked.log)] && Flags([]) == [] == PassFlags(0);
    if Pending(asked.log) && env.canRecompute {
      PassesFollow(env, asked.log, 0, maxPasses);
    }
  }

  lemma {:induction false} FollowsAt(env: Env, log: seq<Call>, i: nat)
    requires Follows(env, log) && i < |log|
    ensures MayFollow(env, log[..i], log[i])
    decreases |log|
  {
    if i < |log| - 1 {
      FollowsAt(env, log[..|log| - 1], i);
      assert log[..|log| - 1][..i] == log[..i];
    }
  }

  /** In particular a recompute that would block is pumped next, with the same force and with what the pump answers. */
  lemma BlockedRecomputeIsPumped(env: Env, maxPasses: nat, i: nat, force: bool)
    requires i < |Settle(env, maxPasses).log| && Settle(env, maxPasses).log[i] == Recompute(force, WouldBlock)
    ensures var log := Settle(env, maxPasses).log;
            i + 1 < |log| && log[i + 1] == Pump(force, env.pumpAt(|Flags(log[..i])|))
  {
    var log := Settle(env, maxPasses).log;
    SettlementFollows(env, maxPasses);
    if i + 1 < |log| {
      FollowsAt(env, log, i + 1);
      assert log[..i + 1][..i] == log[..i];
    }
  }
}
