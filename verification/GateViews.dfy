/** What the pause gate answers and shows after any run, in terms of the operations of that run. */
module GateViews {
  import opened Wrappers
  import opened PauseGate

  // ----- the names of a write -----

  /** A write keeps its non-empty names, as often as they are given. */
  lemma {:induction false} NonEmptyNamesAreKept(names: seq<string>, x: string)
    ensures multiset(NonEmptyNames(names))[x] == if x == "" then 0 else multiset(names)[x]
  {
    if names != [] {
      NonEmptyNamesAreKept(names[..|names| - 1], x);
      assert names == names[..|names| - 1] + [names[|names| - 1]];
    }
  }

  /** And in their order. */
  lemma {:induction false} NonEmptyNamesConcat(a: seq<string>, b: seq<string>)
    ensures NonEmptyNames(a + b) == NonEmptyNames(a) + NonEmptyNames(b)
    decreases |b|
  {
    if b == [] {
      assert a + b == a;
    } else {
      NonEmptyNamesConcat(a, b[..|b| - 1]);
      assert (a + b)[..|a + b| - 1] == a + b[..|b| - 1];
    }
  }

  // ----- admission -----

  /** A write is admitted with the token asked for, which then stands in the table for this write, or is refused. */
  lemma AdmissionIsDecided(ops: seq<Op>, token: string, name: string, names: seq<string>)
    requires FreshTokens(ops + [Admit(token, name, names)])
    ensures var s, after := Run(ops), Run(ops + [Admit(token, name, names)]);
            if PausedBy(ops) then Answer(s, token) == Refused(StatusOf(s)) && after == s
            else && Answer(s, token) == Admitted(token)
                 && after == s.(active := s.active + [Entry(token, Write(name, NonEmptyNames(names)))])
  {
    var all := ops + [Admit(token, name, names)];
    assert all[..|ops|] == ops && all[|ops|] == Admit(token, name, names);
    PausedByTheUser(ops);
    assert FreshTokens(ops) by {
      assert forall i :: 0 <= i < |ops| ==> all[i] == ops[i];
    }
    ActiveIsOutstanding(ops);
    OutstandingTokens(ops, |ops|);
    forall x | x in Run(ops).active
      ensures x.token != token
    {
      var i :| 0 <= i < |ops| && ops[i].Admit? && EntryOf(ops[i]) == x;
      assert all[i] == ops[i];
    }
    PutOfNewToken(Run(ops).active, Entry(token, Write(name, NonEmptyNames(names))));
  }

  // ----- the table -----

  lemma {:induction false} PutIsFound(active: seq<Entry>, e: Entry, token: string)
    ensures Find(Put(active, e), token) == if token == e.token then Some(e.write) else Find(active, token)
  {
    if active != [] && active[0].token != e.token {
      PutIsFound(active[1..], e, token);
    }
  }

  lemma {:induction false} FindAppend(active: seq<Entry>, e: Entry, token: string)
    ensures Find(active + [e], token) == if Find(active, token).Some? then Find(active, token)
                                         else if e.token == token then Some(e.write) else None
  {
    if active == [] {
      assert [e][1..] == [];
    } else {
      assert (active + [e])[1..] == active[1..] + [e];
      FindAppend(active[1..], e, token);
    }
  }

  lemma {:induction false} WithoutIsNotFound(active: seq<Entry>, gone: string, token: string)
    ensures Find(Without(active, gone), token) == if token == gone then None else Find(active, token)
  {
    if active != [] {
      var front, last := active[..|active| - 1], active[|active| - 1];
      WithoutIsNotFound(front, gone, token);
      FindAppend(front, last, token);
      FindAppend(Without(front, gone), last, token);
      assert front + [last] == active;
    }
  }

  /** In any state, repeated tokens or not: the table is a dictionary, which only admissions and endings touch. */
  lemma TableIsKept(s: State, op: Op, token: string)
    ensures Find(Step(s, op).active, token) ==
            match op
            case Admit(issued, name, names) =>
              if !s.paused && issued == token then Some(Write(name, NonEmptyNames(names))) else Find(s.active, token)
            case Finish(ended) => if ended == Some(token) && token != "" then None else Find(s.active, token)
            case _ => Find(s.active, token)
  {
    if op.Admit? {
      PutIsFound(s.active, EntryOf(op), token);
    } else if op.Finish? && op.ended.Some? {
      WithoutIsNotFound(s.active, op.ended.value, token);
    }
  }

  // ----- the last operation -----

  /** The operation ends a write that is outstanding. */
  ghost predicate Ends(ops: seq<Op>, op: Op) {
    exists i :: 0 <= i < |ops| && OutstandingAt(ops, i) && op == Finish(Some(ops[i].token))
  }

  lemma {:induction false} OutstandingEntries(ops: seq<Op>, count: nat, e: Entry)
    requires count <= |ops| && e in Outstanding(ops, count)
    ensures exists i :: 0 <= i < count && OutstandingAt(ops, i) && ops[i].token == e.token
  {
    if OutstandingAt(ops, count - 1) && e == EntryOf(ops[count - 1]) {
      assert ops[count - 1].token == e.token;
    } else {
      OutstandingEntries(ops, count - 1, e);
    }
  }

  /** Anything that ends no outstanding write leaves the last operation alone. */
  lemma OthersKeepTheLastOperation(ops: seq<Op>, op: Op)
    requires FreshTokens(ops) && !Ends(ops, op)
    ensures Step(Run(ops), op).lastFinished == Run(ops).lastFinished
  {
    if op.Finish? && op.ended.Some? {
      ActiveIsOutstanding(ops);
      FindMisses(Run(ops).active, op.ended.value);
      if e :| e in Outstanding(ops, |ops|) && e.token == op.ended.value {
        OutstandingEntries(ops, |ops|, e);
      }
    }
  }

  // ----- the status -----

  function WritesOf(entries: seq<Entry>): seq<Write> {
    if entries == [] then [] else [entries[0].write] + WritesOf(entries[1..])
  }

  lemma {:induction false} WritesAreListed(entries: seq<Entry>)
    ensures Writes(entries) == WritesOf(entries) && |WritesOf(entries)| == |entries|
  {
    if entries != [] {
      WritesAreListed(entries[1..]);
    }
  }

  /** The status shows whether the user paused, and the outstanding writes, oldest first. */
  lemma StatusIsShown(ops: seq<Op>)
    requires FreshTokens(ops)
    ensures var status, writes := StatusOf(Run(ops)), WritesOf(Outstanding(ops, |ops|));
            && status.paused == PausedBy(ops) && status.currentOperations == writes
            && status.activeWriteCount == |writes|
            && status.currentOperation == (if writes == [] then None else Some(writes[0]))
            && (status.pauseAfterCurrent <==> PausedBy(ops) && writes != [])
            && status.lastOperation == Run(ops).lastFinished
  {
    PausedByTheUser(ops);
    ActiveIsOutstanding(ops);
    WritesAreListed(Outstanding(ops, |ops|));
  }
}
