/**
 Which ending a native mutation has, read off the script of the coordinator alone: a table for one commit, when there is
 a second one, and what the two make of each other.
 */
module NativeEndings {
  import opened Wrappers
  import opened NativeMutation

  // ----- a table of endings -----

  predicate CallbackFinishes(s: Script, allow: bool) {
    s.Runs? && (allow ==> s.capture.Finishes?) && s.apply.Finishes?
  }

  /** In a reapply the bindings must have been preserved as well. */
  predicate InspectionPasses(s: Script, reapply: bool)
    requires s.Runs?
  {
    s.check == Says(true) && (reapply ==> s.bindingsPreserved)
  }

  predicate GoesThrough(s: Script, recompute: bool, reapply: bool, allow: bool) {
    CallbackFinishes(s, allow) && (recompute ==> s.recomputeOk) && InspectionPasses(s, reapply) && s.crash.None?
  }

  /** An exception of our own, after the document was restored: an answer, unless it is an interrupt. */
  function Told(status: Status, exc: Exc): Outcome {
    if exc.kind == Interrupt then Raised(exc) else Returned(Result(status, No, true, false))
  }

  /** Why a commit that was rolled back did not go through. */
  function Reason(s: Script, recompute: bool, reapply: bool, allow: bool): Outcome
    requires s.Runs?
  {
    if allow && s.capture.Fails? then Told(ApplyFailed, s.capture.exc)
    else if s.apply.Fails? then Told(ApplyFailed, s.apply.exc)
    else if recompute && !s.recomputeOk then Returned(Result(RecomputeFailed, No, false, s.explained))
    else if (reapply && !s.bindingsPreserved) || s.check.Says? then
      Returned(Result(PostconditionFailed, No, false, false))
    else Told(PostconditionFailed, s.check.exc)
  }

  /** The document after one commit, and its ending. */
  predicate EndsAs(doc: Doc, s: Script, recompute: bool, reapply: bool, edit: Edit, allow: bool, after: Doc,
                   end: Outcome) {
    match s
    case RefusesCall(exc) => after == doc && end == Raised(exc)
    case RejectsEarly => after == doc && end == Returned(Result(Refused, No, false, false))
    case Runs(_, _, _, _, _, _, newDerived, _, _, rollbackOk, crash, left) =>
      if crash.Some? then after == left && end == Raised(crash.value)
      else if GoesThrough(s, recompute, reapply, allow) then
        && after == Doc(doc.edits + [edit], if recompute then newDerived else doc.derived)
        && end == Returned(Result(Committed, Yes, false, false))
      else if !rollbackOk then after == left && end == Returned(Result(RollbackFailed, Unknown, false, false))
      else after == doc && end == Reason(s, recompute, reapply, allow)
  }

  // ----- one commit -----

  lemma OneIsProven(status: Status, exc: Exc)
    ensures Proven([] + [(status, exc)], exc) == Some(status)
    ensures forall other: Exc :: other != exc ==> Proven([] + [(status, exc)], other) == None
  {
    assert [(status, exc)][1..] == [] && [] + [(status, exc)] == [(status, exc)];
  }

  lemma RollbackEndsAs(f: Frame, before: Doc, s: Script, status: Status, exc: Exc)
    requires s.Runs? && (s.crash.Some? ==> s.crash.value != exc) && f.raised == []
    ensures var (f1, o) := RolledBack(Recorded(f, status, exc), before, s, Raised(exc));
            var end := ProvenOr(f1, o);
            if s.crash.Some? then f1.doc == s.lost && end == Raised(s.crash.value)
            else if s.rollbackOk then f1.doc == before && end == Told(status, exc)
            else f1.doc == s.lost && end == Returned(Result(RollbackFailed, Unknown, false, false))
  {
    OneIsProven(status, exc);
  }

  lemma FailedCallback(f: Frame, s: Script, edit: Edit, allow: bool) returns (g: Frame, exc: Exc)
    requires s.Runs? && f.raised == [] && !CallbackFinishes(s, allow)
    ensures Invoked(f, s, edit, allow) == (Recorded(g, ApplyFailed, exc), Some(exc)) && g.raised == []
    ensures exc == if allow && s.capture.Fails? then s.capture.exc else s.apply.exc
    ensures (allow && s.capture.Fails?) || s.apply.Fails?
  {
    var begun := f.(started := true);
    if allow && s.capture.Fails? {
      g, exc := begun, s.capture.exc;
    } else {
      g, exc := (if allow then begun.(repair := Some(s.repair)) else begun).(doc := s.partial), s.apply.exc;
    }
  }

  lemma CallbackFailureEndsAs(f: Frame, s: Script, recompute: bool, edit: Edit, allow: bool)
    requires Honest(s) && f.raised == [] && s.Runs? && !CallbackFinishes(s, allow)
    ensures var (f1, o) := Commit(f, s, recompute, edit, allow);
            EndsAs(f.doc, s, recompute, f.active, edit, allow, f1.doc, ProvenOr(f1, o))
  {
    var g, exc := FailedCallback(f.(commits := f.commits + [recompute]), s, edit, allow);
    RollbackEndsAs(g, f.doc, s, ApplyFailed, exc);
  }

  /** The inspection, and what it leads to, of a document that the callback has edited. */
  lemma ConclusionEndsAs(f: Frame, before: Doc, s: Script)
    requires s.Runs? && Honest(s) && f.raised == [] && (f.active ==> f.repair.Some?)
    ensures var (f1, o) := Concluded(f, before, s);
            var end := ProvenOr(f1, o);
            if s.crash.Some? then f1.doc == s.lost && end == Raised(s.crash.value)
            else if InspectionPasses(s, f.active) then
              f1.doc == f.doc && end == Returned(Result(Committed, Yes, false, false))
            else if !s.rollbackOk then
              f1.doc == s.lost && end == Returned(Result(RollbackFailed, Unknown, false, false))
            else && f1.doc == before
                 && end == if (f.active && !s.bindingsPreserved) || s.check.Says? then
                             Returned(Result(PostconditionFailed, No, false, false))
                           else Told(PostconditionFailed, s.check.exc)
  {
    if s.check.Breaks? && !(f.active && !s.bindingsPreserved) {
      RollbackEndsAs(f, before, s, PostconditionFailed, s.check.exc);
    }
  }

  lemma FinishedCallback(f: Frame, s: Script, edit: Edit, allow: bool)
    requires CallbackFinishes(s, allow)
    ensures var (f1, failure) := Invoked(f, s, edit, allow);
            && failure.None? && f1.raised == f.raised && f1.active == f.active && f1.started
            && f1.repair == (if allow then Some(s.repair) else f.repair)
            && f1.doc == Doc(f.doc.edits + [edit], f.doc.derived)
  {
  }

  lemma InspectionEndsAs(f: Frame, s: Script, recompute: bool, edit: Edit, allow: bool)
    requires Honest(s) && f.raised == [] && CallbackFinishes(s, allow) && (recompute ==> s.recomputeOk)
    requires f.active ==> f.repair.Some? || allow
    ensures var (f1, o) := Commit(f, s, recompute, edit, allow);
            EndsAs(f.doc, s, recompute, f.active, edit, allow, f1.doc, ProvenOr(f1, o))
  {
    var begun := f.(commits := f.commits + [recompute]);
    var (f1, _) := Invoked(begun, s, edit, allow);
    FinishedCallback(begun, s, edit, allow);
    ConclusionEndsAs(if recompute then f1.(doc := f1.doc.(derived := s.newDerived)) else f1, f.doc, s);
  }

  /** One commit of a frame in which nothing was recorded yet ends as in the table. */
  lemma CommitEndsAs(f: Frame, s: Script, recompute: bool, edit: Edit, allow: bool)
    requires Honest(s) && f.raised == [] && (f.active ==> f.repair.Some? || allow)
    ensures var (f1, o) := Commit(f, s, recompute, edit, allow);
            EndsAs(f.doc, s, recompute, f.active, edit, allow, f1.doc, ProvenOr(f1, o))
  {
    if s.Runs? && !CallbackFinishes(s, allow) {
      CallbackFailureEndsAs(f, s, recompute, edit, allow);
    } else if s.Runs? && (recompute ==> s.recomputeOk) {
      InspectionEndsAs(f, s, recompute, edit, allow);
    }
  }

  // ----- when there is a second commit -----

  /** The first commit was rolled back for its recompute alone, and missing sources explain every failure. */
  predicate IsDeferred(s: Script, recompute: bool, allow: bool) {
    && recompute && allow && CallbackFinishes(s, allow) && !s.recomputeOk && s.explained && s.repair.hasSources
    && s.crash.None? && s.rollbackOk
  }

  lemma DeferredCommit(doc: Doc, first: Script, recompute: bool, edit: Edit, allow: bool)
    requires IsDeferred(first, recompute, allow)
    ensures var (f, o) := Commit(NewFrame(doc), first, recompute, edit, allow);
            && f == NewFrame(doc).(started := true, repair := Some(first.repair), commits := [recompute])
            && o == Returned(Result(RecomputeFailed, No, false, true)) && AcceptsFailure(first.repair, o.result)
  {
    assert [] + [recompute] == [recompute];
  }

  lemma OtherCommit(doc: Doc, first: Script, recompute: bool, edit: Edit, allow: bool, second: Script, settle: Settle)
    requires !IsDeferred(first, recompute, allow)
    ensures var (f, o) := Commit(NewFrame(doc), first, recompute, edit, allow);
            o.Returned? ==> Finish(f, recompute, o.result, second, settle, edit, allow) == (f, o)
  {
  }

  /** What follows a second commit that went through: the direct recompute, and whether it raises. */
  predicate SettlesAs(committed: Doc, settle: Settle, after: Doc, end: Outcome) {
    && after == committed.(derived := settle.newDerived)
    && end == if settle.end.Fails? then Raised(settle.end.exc) else Returned(Result(Committed, Yes, false, false))
  }

  /** The ending of a deferred call: that of the second commit, which inspects the bindings, and of the settlement. */
  predicate ReapplyEndsAs(doc: Doc, second: Script, settle: Settle, edit: Edit, allow: bool, after: Doc, end: Outcome) {
    if GoesThrough(second, false, true, allow) then
      SettlesAs(Doc(doc.edits + [edit], doc.derived), settle, after, end)
    else EndsAs(doc, second, false, true, edit, allow, after, end)
  }

  lemma FinishEndsAs(doc: Doc, f: Frame, result: Result, second: Script, settle: Settle, edit: Edit, allow: bool)
    requires Honest(second) && allow && f.doc == doc && f.raised == [] && f.started && f.repair.Some?
    requires AcceptsFailure(f.repair.value, result)
    ensures var (f1, o) := Finish(f, true, result, second, settle, edit, allow);
            && f1.started && f1.commits == f.commits + [false]
            && ReapplyEndsAs(doc, second, settle, edit, allow, f1.doc, ProvenOr(f1, o))
  {
    var again := f.(active := true);
    CommitEndsAs(again, second, false, edit, allow);
    CommitIsCounted(again, second, false, edit, allow);
    if GoesThrough(second, false, true, allow) {
      assert Commit(again, second, false, edit, allow).0.raised == [];
    } else {
      NothingCommits(again, second, false, edit, allow);
    }
  }

  lemma NothingCommits(f: Frame, s: Script, recompute: bool, edit: Edit, allow: bool)
    requires !GoesThrough(s, recompute, f.active, allow) && (f.active ==> f.repair.Some? || allow)
    ensures var o := Commit(f, s, recompute, edit, allow).1; o.Returned? ==> o.result.committed != Yes
  {
  }

  // ----- the two paths -----

  /**
   Off the GUI thread: a deferred call ends as its reapply, every other call as its one commit, except that a type
   error with which the binding refuses the call is answered as unsupported.
   */
  lemma SyncEndsAs(doc: Doc, recompute: bool, edit: Edit, allow: bool, first: Script, second: Script, settle: Settle)
    requires Honest(first) && Honest(second)
    ensures var (f, end) := Sync(doc, recompute, edit, allow, first, second, settle);
            if IsDeferred(first, recompute, allow) then ReapplyEndsAs(doc, second, settle, edit, allow, f.doc, end)
            else if first.RefusesCall? && first.exc.kind == TypeErr then
              f.doc == doc && end == Returned(Result(Unsupported, No, false, false))
            else EndsAs(doc, first, recompute, false, edit, allow, f.doc, end)
  {
    var (f, o) := Commit(NewFrame(doc), first, recompute, edit, allow);
    if IsDeferred(first, recompute, allow) {
      DeferredCommit(doc, first, recompute, edit, allow);
      FinishEndsAs(doc, f, o.result, second, settle, edit, allow);
    } else {
      CommitEndsAs(NewFrame(doc), first, recompute, edit, allow);
      OtherCommit(doc, first, recompute, edit, allow, second, settle);
      assert first.Runs? ==> f.started;
    }
  }

  /** On the GUI thread, awaited: the same, but that type error is raised. */
  lemma AsyncEndsAs(doc: Doc, recompute: bool, edit: Edit, allow: bool, first: Script, second: Script, settle: Settle)
    requires Honest(first) && Honest(second)
    ensures var (f, end) := Async(doc, recompute, edit, allow, first, second, settle);
            if IsDeferred(first, recompute, allow) then ReapplyEndsAs(doc, second, settle, edit, allow, f.doc, end)
            else EndsAs(doc, first, recompute, false, edit, allow, f.doc, end)
  {
    SyncEndsAs(doc, recompute, edit, allow, first, second, settle);
    SyncAndAsyncAgree(doc, recompute, edit, allow, first, second, settle);
  }

  /** Body creation is one recomputed commit. */
  lemma BodyCreateEndsAs(doc: Doc, edit: Edit, allow: bool, first: Script)
    requires Honest(first)
    ensures var (f, end) := BodyCreateAsync(doc, edit, allow, first);
            EndsAs(doc, first, true, false, edit, allow, f.doc, end)
    ensures var (f, end) := BodyCreate(doc, edit, allow, first);
            if first.RefusesCall? && first.exc.kind == TypeErr then
              f.doc == doc && end == Returned(Result(Unsupported, No, false, false))
            else EndsAs(doc, first, true, false, edit, allow, f.doc, end)
  {
    CommitEndsAs(NewFrame(doc), first, true, edit, allow);
    BodyCreationsAgree(doc, edit, allow, first);
  }

  /** The native side is called twice, the second time without recompute, exactly for a deferred call. */
  lemma CommitsTwiceExactlyWhen(doc: Doc, recompute: bool, edit: Edit, allow: bool, first: Script, second: Script,
                                settle: Settle)
    requires Honest(second)
    ensures var (f, _) := Sync(doc, recompute, edit, allow, first, second, settle);
            f.commits == if IsDeferred(first, recompute, allow) then [recompute, false] else [recompute]
    ensures Async(doc, recompute, edit, allow, first, second, settle).0.commits
         == Sync(doc, recompute, edit, allow, first, second, settle).0.commits
  {
    var (f, o) := Commit(NewFrame(doc), first, recompute, edit, allow);
    SyncAndAsyncAgree(doc, recompute, edit, allow, first, second, settle);
    CommitIsCounted(NewFrame(doc), first, recompute, edit, allow);
    assert [] + [recompute] == [recompute] && [recompute] + [false] == [recompute, false];
    if IsDeferred(first, recompute, allow) {
      DeferredCommit(doc, first, recompute, edit, allow);
      FinishEndsAs(doc, f, o.result, second, settle, edit, allow);
    } else {
      OtherCommit(doc, first, recompute, edit, allow, second, settle);
    }
  }

  // ----- the bindings -----

  /** An edit that was reapplied is in the document only if its bindings were preserved. */
  lemma ReappliedEditKeepsBindings(doc: Doc, recompute: bool, edit: Edit, allow: bool, first: Script, second: Script,
                                   settle: Settle)
    requires Honest(first) && Honest(second)
    ensures var (f, end) := Sync(doc, recompute, edit, allow, first, second, settle);
            f.commits == [recompute, false] && f.committed ==> second.Runs? && second.bindingsPreserved
    ensures var (f, end) := Async(doc, recompute, edit, allow, first, second, settle);
            f.commits == [recompute, false] && f.committed ==> second.Runs? && second.bindingsPreserved
  {
    SyncAndAsyncAgree(doc, recompute, edit, allow, first, second, settle);
    if IsDeferred(first, recompute, allow) {
      DeferredCommit(doc, first, recompute, edit, allow);
    } else {
      CommitsTwiceExactlyWhen(doc, recompute, edit, allow, first, second, settle);
    }
  }

  /** A reapply that lost its bindings is rolled back and said to have failed its postcondition, on both paths. */
  lemma LostBindingsAreRefused(doc: Doc, edit: Edit, first: Script, second: Script, settle: Settle)
    requires Honest(first) && IsDeferred(first, true, true)
    requires CallbackFinishes(second, true) && !second.bindingsPreserved && second.rollbackOk && second.crash.None?
    ensures var (f, end) := Sync(doc, true, edit, true, first, second, settle);
            f.doc == doc && end == Returned(Result(PostconditionFailed, No, false, false))
    ensures var (f, end) := Async(doc, true, edit, true, first, second, settle);
            f.doc == doc && end == Returned(Result(PostconditionFailed, No, false, false))
  {
    SyncEndsAs(doc, true, edit, true, first, second, settle);
    AsyncEndsAs(doc, true, edit, true, first, second, settle);
  }

  /** So is an edit whose postcondition says no; one whose postcondition raises is a proven rejection. */
  lemma PostconditionDecides(doc: Doc, recompute: bool, edit: Edit, allow: bool, first: Script, second: Script,
                             settle: Settle)
    requires Honest(first) && Honest(second) && CallbackFinishes(first, allow) && (recompute ==> first.recomputeOk)
    requires first.crash.None? && first.rollbackOk
    ensures var (f, end) := Sync(doc, recompute, edit, allow, first, second, settle);
            match first.check
            case Says(true) =>
              f.doc.edits == doc.edits + [edit] && end == Returned(Result(Committed, Yes, false, false))
            case Says(false) => f.doc == doc && end == Returned(Result(PostconditionFailed, No, false, false))
            case Breaks(exc) => f.doc == doc && end == Told(PostconditionFailed, exc)
  {
    SyncEndsAs(doc, recompute, edit, allow, first, second, settle);
  }
}
