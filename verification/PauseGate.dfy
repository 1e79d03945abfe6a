/**
 The local user's pause gate for remote writes. Every operation holds the gate's lock, so a run is a sequence of
 operations in the order in which they took it.
 */
module PauseGate {
  import opened Wrappers

  datatype Write = Write(name: string, documents: seq<string>)

  datatype Entry = Entry(token: string, write: Write)

  /** `active` is the table of admitted writes, in insertion order. */
  datatype State = State(paused: bool, active: seq<Entry>, lastFinished: Option<Write>)

  const Initial := State(false, [], None)

  /** A write asks for admission with the token it will get if it is admitted. */
  datatype Op = Pause | Resume | Admit(token: string, name: string, names: seq<string>) | Finish(ended: Option<string>)

  function NonEmptyNames(names: seq<string>): seq<string> {
    if names == [] then []
    else NonEmptyNames(names[..|names| - 1]) + if names[|names| - 1] != "" then [names[|names| - 1]] else []
  }

  function Put(active: seq<Entry>, e: Entry): seq<Entry> {
    if active == [] then [e]
    else if active[0].token == e.token then [e] + active[1..]
    else [active[0]] + Put(active[1..], e)
  }

  function Find(active: seq<Entry>, token: string): Option<Write> {
    if active == [] then None else if active[0].token == token then Some(active[0].write) else Find(active[1..], token)
  }

  function Without(active: seq<Entry>, token: string): seq<Entry> {
    if active == [] then []
    else if active[|active| - 1].token == token then Without(active[..|active| - 1], token)
    else Without(active[..|active| - 1], token) + [active[|active| - 1]]
  }

  function EntryOf(op: Op): Entry
    requires op.Admit?
  {
    Entry(op.token, Write(op.name, NonEmptyNames(op.names)))
  }

  function Step(s: State, op: Op): State {
    match op
    case Pause => s.(paused := true)
    case Resume => s.(paused := false)
    case Admit(_, _, _) => if s.paused then s else s.(active := Put(s.active, EntryOf(op)))
    case Finish(token) =>
      if token.None? || token.value == "" then s
      else match Find(s.active, token.value)
        case None => s
        case Some(w) => s.(active := Without(s.active, token.value), lastFinished := Some(w))
  }

  datatype Status = Status(paused: bool, pauseAfterCurrent: bool, activeWriteCount: nat,
                           currentOperation: Option<Write>, currentOperations: seq<Write>, lastOperation: Option<Write>)

  function Writes(active: seq<Entry>): (r: seq<Write>)
    ensures |r| == |active|
  {
    seq(|active|, i requires 0 <= i < |active| => active[i].write)
  }

  function StatusOf(s: State): Status {
    var operations := Writes(s.active);
    Status(s.paused, s.paused && operations != [], |operations|,
           if operations == [] then None else Some(operations[0]), operations, s.lastFinished)
  }

  datatype Admission = Refused(status: Status) | Admitted(token: string)

  function Answer(s: State, token: string): Admission {
    if s.paused then Refused(StatusOf(s)) else Admitted(token)
  }

  // ----- the gate -----

  class Gate {
    var paused: bool
    var active: seq<Entry>
    var lastFinished: Option<Write>

    constructor ()
      ensures Current() == Initial
    {
      paused, active, lastFinished := false, [], None;
    }

    function Current(): State
      reads this
    {
      State(paused, active, lastFinished)
    }

    method ReadStatus() returns (status: Status)
      ensures status == StatusOf(Current())
    {
      var operations := Writes(active);
      var current := None;
      if operations != [] {
        current := Some(operations[0]);
      }
      status := Status(paused, paused && operations != [], |operations|, current, operations, lastFinished);
    }

    method PauseAfterCurrent() returns (status: Status)
      modifies this
      ensures Current() == Step(old(Current()), Pause) && status == StatusOf(Current())
    {
      paused := true;
      status := ReadStatus();
    }

    method ResumeWrites() returns (status: Status)
      modifies this
      ensures Current() == Step(old(Current()), Resume) && status == StatusOf(Current())
    {
      paused := false;
      status := ReadStatus();
    }

    method AdmitRemoteWrite(name: string, names: seq<string>, token: string) returns (answer: Admission)
      modifies this
      ensures Current() == Step(old(Current()), Admit(token, name, names))
      ensures answer == Answer(old(Current()), token)
    {
      if paused {
        var status := ReadStatus();
        return Refused(status);
      }
      active := Put(active, Entry(token, Write(name, NonEmptyNames(names))));
      answer := Admitted(token);
    }

    method FinishRemoteWrite(token: Option<string>)
      modifies this
      ensures Current() == Step(old(Current()), Finish(token))
    {
      if token.None? || token.value == "" {
        return;
      }
      var finished := Find(active, token.value);
      if finished.Some? {
        active := Without(active, token.value);
        lastFinished := finished;
      }
    }
  }

  // ----- runs -----

  function Run(ops: seq<Op>): State {
    if ops == [] then Initial else Step(Run(ops[..|ops| - 1]), ops[|ops| - 1])
  }

  /** Every token asked for is new and not empty, as a freshly drawn identifier is. */
  ghost predicate FreshTokens(ops: seq<Op>) {
    && (forall i :: 0 <= i < |ops| && ops[i].Admit? ==> ops[i].token != "")
    && (forall i, j :: 0 <= i < j < |ops| && ops[i].Admit? && ops[j].Admit? ==> ops[i].token != ops[j].token)
  }

  /** The last word of the local user. */
  predicate PausedBy(ops: seq<Op>) {
    ops != [] &&
    match ops[|ops| - 1]
    case Pause => true
    case Resume => false
    case _ => PausedBy(ops[..|ops| - 1])
  }

  predicate AdmittedAt(ops: seq<Op>, i: nat)
    requires i < |ops|
  {
    ops[i].Admit? && !PausedBy(ops[..i])
  }

  predicate FinishedAfter(ops: seq<Op>, i: nat)
    requires i < |ops| && ops[i].Admit?
  {
    exists j :: i < j < |ops| && ops[j] == Finish(Some(ops[i].token))
  }

  predicate OutstandingAt(ops: seq<Op>, i: nat)
    requires i < |ops|
  {
    AdmittedAt(ops, i) && !FinishedAfter(ops, i)
  }

  /** Of the first `count` operations, the writes that were admitted and that the whole run does not finish. */
  function Outstanding(ops: seq<Op>, count: nat): seq<Entry>
    requires count <= |ops|
  {
    if count == 0 then []
    else if OutstandingAt(ops, count - 1) then Outstanding(ops, count - 1) + [EntryOf(ops[count - 1])]
    else Outstanding(ops, count - 1)
  }

  lemma {:induction false} PausedByTheUser(ops: seq<Op>)
    ensures Run(ops).paused == PausedBy(ops)
  {
    if ops != [] {
      PausedByTheUser(ops[..|ops| - 1]);
    }
  }

  lemma OutstandingAtAppend(ops: seq<Op>, op: Op, i: nat)
    requires i < |ops|
    ensures OutstandingAt(ops + [op], i) <==> OutstandingAt(ops, i) && op != Finish(Some(ops[i].token))
  {
    var longer := ops + [op];
    assert longer[..i] == ops[..i];
    if ops[i].Admit? {
      if op == Finish(Some(ops[i].token)) {
        assert longer[|ops|] == Finish(Some(longer[i].token));
      }
      if j :| i < j < |ops| && ops[j] == Finish(Some(ops[i].token)) {
        assert longer[j] == Finish(Some(longer[i].token));
      }
    }
  }

  function Remaining(active: seq<Entry>, op: Op): seq<Entry> {
    if op.Finish? && op.ended.Some? then Without(active, op.ended.value) else active
  }

  lemma WithoutAppend(active: seq<Entry>, e: Entry, token: string)
    ensures Without(active + [e], token)
         == if e.token == token then Without(active, token) else Without(active, token) + [e]
  {
    assert (active + [e])[..|active|] == active;
  }

  lemma {:induction false} OutstandingAppend(ops: seq<Op>, op: Op, count: nat)
    requires count <= |ops|
    ensures Outstanding(ops + [op], count) == Remaining(Outstanding(ops, count), op)
  {
    if count > 0 {
      OutstandingAppend(ops, op, count - 1);
      OutstandingAtAppend(ops, op, count - 1);
      assert (ops + [op])[count - 1] == ops[count - 1];
      if OutstandingAt(ops, count - 1) && op.Finish? && op.ended.Some? {
        WithoutAppend(Outstanding(ops, count - 1), EntryOf(ops[count - 1]), op.ended.value);
      }
    }
  }

  lemma {:induction false} OutstandingTokens(ops: seq<Op>, count: nat)
    requires count <= |ops|
    ensures forall e :: e in Outstanding(ops, count) ==>
              exists i :: 0 <= i < count && ops[i].Admit? && EntryOf(ops[i]) == e
  {
    if count > 0 {
      OutstandingTokens(ops, count - 1);
    }
  }

  lemma {:induction false} PutOfNewToken(active: seq<Entry>, e: Entry)
    requires forall x :: x in active ==> x.token != e.token
    ensures Put(active, e) == active + [e]
  {
    if active != [] {
      PutOfNewToken(active[1..], e);
      assert active == [active[0]] + active[1..];
    }
  }

  lemma {:induction false} FindMisses(active: seq<Entry>, token: string)
    ensures Find(active, token).None? <==> forall x :: x in active ==> x.token != token
  {
    if active != [] {
      FindMisses(active[1..], token);
      assert active == [active[0]] + active[1..];
    }
  }

  lemma {:induction false} WithoutAbsent(active: seq<Entry>, token: string)
    requires forall x :: x in active ==> x.token != token
    ensures Without(active, token) == active
  {
    if active != [] {
      WithoutAbsent(active[..|active| - 1], token);
    }
  }

  lemma {:induction false} WithoutRemoves(active: seq<Entry>, token: string)
    ensures forall x :: x in Without(active, token) ==> x in active && x.token != token
    ensures |Without(active, token)| <= |active|
  {
    if active != [] {
      WithoutRemoves(active[..|active| - 1], token);
    }
  }

  lemma StepRemoves(s: State, op: Op)
    requires op.Finish?
    requires forall x :: x in s.active ==> x.token != ""
    ensures Step(s, op).active == Remaining(s.active, op)
  {
    if op.ended.Some? {
      FindMisses(s.active, op.ended.value);
      if Find(s.active, op.ended.value).None? {
        WithoutAbsent(s.active, op.ended.value);
      } else {
        assert op.ended.value != "";
      }
    }
  }

  /** The table holds exactly the writes that were admitted and are not finished, in the order of admission. */
  lemma {:induction false} ActiveIsOutstanding(ops: seq<Op>)
    requires FreshTokens(ops)
    ensures Run(ops).active == Outstanding(ops, |ops|)
  {
    if ops != [] {
      var front, op, n := ops[..|ops| - 1], ops[|ops| - 1], |ops| - 1;
      ActiveIsOutstanding(front);
      PausedByTheUser(front);
      assert ops == front + [op];
      OutstandingAppend(front, op, n);
      OutstandingTokens(front, n);
      if op.Admit? {
        PutOfNewToken(Run(front).active, EntryOf(op));
        assert OutstandingAt(ops, n) <==> !PausedBy(front);
      } else if op.Finish? {
        StepRemoves(Run(front), op);
      }
    }
  }

  lemma {:induction false} NoneOutstanding(ops: seq<Op>, count: nat)
    requires count <= |ops|
    ensures Outstanding(ops, count) == [] <==> forall i :: 0 <= i < count ==> !OutstandingAt(ops, i)
  {
    if count > 0 {
      NoneOutstanding(ops, count - 1);
    }
  }

  lemma {:induction false} OldestIsFirst(ops: seq<Op>, oldest: nat, count: nat)
    requires oldest < count <= |ops| && OutstandingAt(ops, oldest)
    requires forall i :: 0 <= i < oldest ==> !OutstandingAt(ops, i)
    ensures Outstanding(ops, count) != [] && Outstanding(ops, count)[0] == EntryOf(ops[oldest])
  {
    if oldest == count - 1 {
      NoneOutstanding(ops, oldest);
    } else {
      OldestIsFirst(ops, oldest, count - 1);
    }
  }

  /** The operation shown as current is the oldest write that was admitted and is not finished. */
  lemma CurrentIsOldest(ops: seq<Op>, oldest: nat)
    requires FreshTokens(ops)
    requires oldest < |ops| && OutstandingAt(ops, oldest)
    requires forall i :: 0 <= i < oldest ==> !OutstandingAt(ops, i)
    ensures StatusOf(Run(ops)).currentOperation == Some(EntryOf(ops[oldest]).write)
  {
    ActiveIsOutstanding(ops);
    OldestIsFirst(ops, oldest, |ops|);
  }

  lemma CurrentIsNone(ops: seq<Op>)
    requires FreshTokens(ops)
    ensures StatusOf(Run(ops)).currentOperation.None? <==> forall i :: 0 <= i < |ops| ==> !OutstandingAt(ops, i)
  {
    ActiveIsOutstanding(ops);
    NoneOutstanding(ops, |ops|);
  }

  // ----- while the user has paused -----

  /** The user paused at `p` and did not resume before `n`. */
  ghost predicate PausedSince(ops: seq<Op>, p: nat, n: nat) {
    p < n <= |ops| && ops[p].Pause? && forall i :: p < i < n ==> !ops[i].Resume?
  }

  lemma {:induction false} StaysPaused(ops: seq<Op>, p: nat, n: nat)
    requires PausedSince(ops, p, n)
    ensures PausedBy(ops[..n])
    decreases n
  {
    assert ops[..n][..n - 1] == ops[..n - 1];
    if n > p + 1 {
      StaysPaused(ops, p, n - 1);
    }
  }

  /** No token is issued between a pause and the next resume. */
  lemma NoTokenWhilePaused(ops: seq<Op>, p: nat, n: nat, token: string)
    requires PausedSince(ops, p, n)
    ensures Answer(Run(ops[..n]), token) == Refused(StatusOf(Run(ops[..n])))
  {
    StaysPaused(ops, p, n);
    PausedByTheUser(ops[..n]);
  }

  /** And the number of active writes only falls. */
  lemma {:induction false} ActiveOnlyFalls(ops: seq<Op>, p: nat, m: nat, n: nat)
    requires PausedSince(ops, p, n) && p < m <= n
    ensures |Run(ops[..n]).active| <= |Run(ops[..m]).active|
    decreases n
  {
    if m < n {
      ActiveOnlyFalls(ops, p, m, n - 1);
      StaysPaused(ops, p, n - 1);
      PausedByTheUser(ops[..n - 1]);
      assert ops[..n][..n - 1] == ops[..n - 1];
      var s, op := Run(ops[..n - 1]), ops[n - 1];
      if op.Finish? && op.ended.Some? {
        WithoutRemoves(s.active, op.ended.value);
      }
    }
  }

  /** The gate stops waiting exactly when every write admitted before the pause is finished. */
  lemma WaitsForTheAdmitted(ops: seq<Op>, p: nat)
    requires FreshTokens(ops) && PausedSince(ops, p, |ops|)
    ensures StatusOf(Run(ops)).pauseAfterCurrent <==> exists i :: 0 <= i < p && OutstandingAt(ops, i)
  {
    assert ops[..|ops|] == ops;
    StaysPaused(ops, p, |ops|);
    PausedByTheUser(ops);
    ActiveIsOutstanding(ops);
    NoneOutstanding(ops, |ops|);
    forall i | p <= i < |ops|
      ensures !OutstandingAt(ops, i)
    {
      if i > p {
        StaysPaused(ops, p, i);
      }
    }
  }

  // ----- finishing -----

  /** Finishing the same write again, however much later, changes nothing. */
  lemma FinishingAgainChangesNothing(ops: seq<Op>, i: nat, token: Option<string>)
    requires FreshTokens(ops) && i < |ops| && ops[i] == Finish(token)
    requires forall k :: i < k < |ops| && ops[k].Admit? ==> Some(ops[k].token) != token
    ensures Step(Run(ops), Finish(token)) == Run(ops)
  {
    if token.Some? {
      ActiveIsOutstanding(ops);
      FinishedIsGone(ops, i, token.value, |ops|);
      FindMisses(Run(ops).active, token.value);
    }
  }

  lemma {:induction false} FinishedIsGone(ops: seq<Op>, i: nat, token: string, count: nat)
    requires i < |ops| && ops[i] == Finish(Some(token)) && count <= |ops|
    requires forall k :: i < k < |ops| && ops[k].Admit? ==> ops[k].token != token
    ensures forall e :: e in Outstanding(ops, count) ==> e.token != token
  {
    if count > 0 {
      FinishedIsGone(ops, i, token, count - 1);
    }
  }

  /** The write shown as last finished is the one the latest effective finish ended. */
  lemma FinishRecordsTheWrite(ops: seq<Op>, i: nat)
    requires FreshTokens(ops) && i < |ops| && OutstandingAt(ops, i)
    ensures StatusOf(Step(Run(ops), Finish(Some(ops[i].token)))).lastOperation == Some(EntryOf(ops[i]).write)
  {
    ActiveIsOutstanding(ops);
    FoundIsTheOne(ops, i, |ops|);
    OutstandingTokens(ops, |ops|);
    OnlyOneIsFound(Run(ops).active, EntryOf(ops[i]));
  }

  lemma {:induction false} FoundIsTheOne(ops: seq<Op>, i: nat, count: nat)
    requires i < count <= |ops| && OutstandingAt(ops, i)
    ensures EntryOf(ops[i]) in Outstanding(ops, count)
  {
    if i < count - 1 {
      FoundIsTheOne(ops, i, count - 1);
    }
  }

  lemma {:induction false} OnlyOneIsFound(active: seq<Entry>, e: Entry)
    requires e in active && forall x :: x in active && x.token == e.token ==> x == e
    ensures Find(active, e.token) == Some(e.write)
  {
    if active[0].token != e.token {
      OnlyOneIsFound(active[1..], e);
    }
  }
}
