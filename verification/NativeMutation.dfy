/**
 A typed native mutation: apply and inspect inside one native commit, an exception of our own callback
 read as a proven rollback, and one deferred reapply when only missing sources made the recompute fail.

 The native coordinator is the environment. A script says what it does in one commit; whatever it does,
 it re-raises an exception of our callbacks only after restoring the document, and it never raises that
 very exception object for another reason.
 */
module NativeMutation {
  import opened Wrappers

  // ----- vocabulary -----

  /** An interrupt is an exception that `except Exception` lets pass. */
  datatype ExcKind = TypeErr | OtherErr | Interrupt

  /** Equality is object identity. */
  datatype Exc = Exc(id: nat, kind: ExcKind)

  datatype Status =
    | Committed | ApplyFailed | PostconditionFailed | RecomputeFailed | RollbackFailed | Unsupported | Refused

  datatype Tri = Yes | No | Unknown

  /** `explained` abstracts the message: every failed node is explained by the missing sources. */
  datatype Result = Result(status: Status, committed: Tri, rollbackSucceeded: bool, explained: bool)

  datatype Outcome = Returned(result: Result) | Raised(exc: Exc)

  type Edit = nat

  /** The edits that survive, and the data recompute derives from them. */
  datatype Doc = Doc(edits: seq<Edit>, derived: int)

  datatype Repair = Repair(hasSources: bool)

  /** What one call of a callback or a postcondition does. */
  datatype Run = Finishes | Fails(exc: Exc)
  datatype Check = Says(ok: bool) | Breaks(exc: Exc)

  /**
   One native commit. `partial` is what a failing callback leaves for the rollback to undo; `lost` is
   what is left when the rollback fails or the coordinator itself breaks down (`crash`).
   */
  datatype Script =
    | RefusesCall(exc: Exc)
    | RejectsEarly
    | Runs(capture: Run, repair: Repair, apply: Run, partial: Doc,
           recomputeOk: bool, explained: bool, newDerived: int,
           bindingsPreserved: bool, check: Check,
           rollbackOk: bool, crash: Option<Exc>, lost: Doc)

  /** The contract: a breakdown of the coordinator does not reuse an exception of ours. */
  predicate Honest(s: Script) {
    s.Runs? && s.crash.Some? ==>
      s.capture != Fails(s.crash.value) && s.apply != Fails(s.crash.value) && s.check != Breaks(s.crash.value)
  }

  /** The direct recompute and validation after a deferred reapply. */
  datatype Settle = Settle(newDerived: int, end: Run)

  /** The closure variables of one call, the document, and a record of the native commits. */
  datatype Frame = Frame(doc: Doc, started: bool, raised: seq<(Status, Exc)>, active: bool, repair: Option<Repair>,
                         commits: seq<bool>, committed: bool, lost: bool)

  function NewFrame(doc: Doc): Frame {
    Frame(doc, false, [], false, None, [], false, false)
  }

  // ----- the callbacks -----

  function Recorded(f: Frame, status: Status, exc: Exc): Frame {
    if exc.kind == Interrupt then f else f.(raised := f.raised + [(status, exc)])
  }

  function Invoked(f: Frame, s: Script, edit: Edit, allow: bool): (Frame, Option<Exc>)
    requires s.Runs?
  {
    var f1 := f.(started := true);
    if allow && s.capture.Fails? then (Recorded(f1, ApplyFailed, s.capture.exc), Some(s.capture.exc))
    else
      var f2 := if allow then f1.(repair := Some(s.repair)) else f1;
      match s.apply
      case Finishes => (f2.(doc := f2.doc.(edits := f2.doc.edits + [edit])), None)
      case Fails(exc) => (Recorded(f2.(doc := s.partial), ApplyFailed, exc), Some(exc))
  }

  function Inspected(f: Frame, s: Script): (Frame, Check)
    requires s.Runs?
  {
    if f.active && (f.repair.None? || !s.bindingsPreserved) then (f, Says(false))
    else match s.check
      case Says(_) => (f, s.check)
      case Breaks(exc) => (Recorded(f, PostconditionFailed, exc), s.check)
  }

  // ----- the coordinator -----

  const RollbackFailure := Result(RollbackFailed, Unknown, false, false)

  /** Restoring the document, or failing to. */
  function RolledBack(f: Frame, before: Doc, s: Script, o: Outcome): (Frame, Outcome)
    requires s.Runs?
  {
    if s.crash.Some? then (f.(doc := s.lost, lost := true), Raised(s.crash.value))
    else if s.rollbackOk then (f.(doc := before), o)
    else (f.(doc := s.lost, lost := true), Returned(RollbackFailure))
  }

  function Commit(f0: Frame, s: Script, recompute: bool, edit: Edit, allow: bool): (Frame, Outcome) {
    var f := f0.(commits := f0.commits + [recompute]);
    match s
    case RefusesCall(exc) => (f, Raised(exc))
    case RejectsEarly => (f, Returned(Result(Refused, No, false, false)))
    case Runs(_, _, _, _, _, _, _, _, _, _, _, _) =>
      var (f1, failure) := Invoked(f, s, edit, allow);
      if failure.Some? then RolledBack(f1, f.doc, s, Raised(failure.value))
      else Recomputed(f1, f.doc, s, recompute)
  }

  /** After the callback: the requested recompute, then the inspection. */
  function Recomputed(f: Frame, before: Doc, s: Script, recompute: bool): (Frame, Outcome)
    requires s.Runs?
  {
    if recompute && !s.recomputeOk then
      RolledBack(f, before, s, Returned(Result(RecomputeFailed, No, false, s.explained)))
    else Concluded(if recompute then f.(doc := f.doc.(derived := s.newDerived)) else f, before, s)
  }

  function Concluded(f: Frame, before: Doc, s: Script): (Frame, Outcome)
    requires s.Runs?
  {
    var (f1, check) := Inspected(f, s);
    match check
    case Breaks(exc) => RolledBack(f1, before, s, Raised(exc))
    case Says(false) => RolledBack(f1, before, s, Returned(Result(PostconditionFailed, No, false, false)))
    case Says(true) =>
      if s.crash.Some? then (f1.(doc := s.lost, lost := true), Raised(s.crash.value))
      else (f1.(committed := true), Returned(Result(Committed, Yes, false, false)))
  }

  // ----- the bridge -----

  /** The first recorded status under which our callbacks raised this very exception. */
  function Proven(raised: seq<(Status, Exc)>, exc: Exc): Option<Status> {
    if raised == [] then None
    else if raised[0].1 == exc then Some(raised[0].0)
    else Proven(raised[1..], exc)
  }

  function Rejection(status: Status): Result {
    Result(status, No, true, false)
  }

  predicate AcceptsFailure(repair: Repair, result: Result) {
    repair.hasSources && result.status == RecomputeFailed && result.committed == No && result.explained
  }

  /** One deferred reapply, then a direct recompute outside the commit. */
  function Finish(f: Frame, recompute: bool, result: Result, s: Script, settle: Settle, edit: Edit, allow: bool)
    : (Frame, Outcome)
  {
    if !recompute || f.repair.None? || !AcceptsFailure(f.repair.value, result) then (f, Returned(result))
    else
      var (f1, o) := Commit(f.(active := true), s, false, edit, allow);
      if o.Returned? && o.result.committed == Yes then
        var f2 := f1.(doc := f1.doc.(derived := settle.newDerived));
        if settle.end.Fails? then (f2, Raised(settle.end.exc)) else (f2, o)
      else (f1, o)
  }

  /** `except Exception`: a proven rollback becomes a result. */
  function ProvenOr(f: Frame, o: Outcome): Outcome {
    if o.Raised? && o.exc.kind != Interrupt && Proven(f.raised, o.exc).Some?
    then Returned(Rejection(Proven(f.raised, o.exc).value))
    else o
  }

  const NotSupported := Result(Unsupported, No, false, false)

  function SyncEnd(f: Frame, o: Outcome): Outcome {
    var p := ProvenOr(f, o);
    if p.Raised? && p.exc.kind == TypeErr && !f.started then Returned(NotSupported) else p
  }

  /** The direct call, off the GUI thread. */
  function Sync(doc: Doc, recompute: bool, edit: Edit, allow: bool, first: Script, second: Script, settle: Settle)
    : (Frame, Outcome)
  {
    var (f, o) := Commit(NewFrame(doc), first, recompute, edit, allow);
    var (f1, o1) := if o.Raised? then (f, o) else Finish(f, recompute, o.result, second, settle, edit, allow);
    (f1, SyncEnd(f1, o1))
  }

  /** The waiter of a GUI-thread call, awaited once. */
  function Async(doc: Doc, recompute: bool, edit: Edit, allow: bool, first: Script, second: Script, settle: Settle)
    : (Frame, Outcome)
  {
    var (f, o) := Commit(NewFrame(doc), first, recompute, edit, allow);
    var pending := ProvenOr(f, o);
    if pending.Raised? then (f, ProvenOr(f, pending))
    else
      var (f1, o1) := Finish(f, recompute, pending.result, second, settle, edit, allow);
      (f1, ProvenOr(f1, o1))
  }

  /** Body creation off the GUI thread: always recomputed, never reapplied. */
  function BodyCreate(doc: Doc, edit: Edit, allow: bool, first: Script): (Frame, Outcome) {
    var (f, o) := Commit(NewFrame(doc), first, true, edit, allow);
    (f, SyncEnd(f, o))
  }

  /** Body creation on the GUI thread, awaited. */
  function BodyCreateAsync(doc: Doc, edit: Edit, allow: bool, first: Script): (Frame, Outcome) {
    var (f, o) := Commit(NewFrame(doc), first, true, edit, allow);
    (f, ProvenOr(f, o))
  }

  // ----- what a commit can do -----

  /** The document is where the frame says it is: lost, edited once, or untouched. */
  predicate Located(f: Frame, pre: Doc, edit: Edit) {
    !f.lost ==> if f.committed then f.doc.edits == pre.edits + [edit] else f.doc == pre
  }

  /** What an ending claims holds: nothing is claimed of a lost document, and nothing false of another. */
  predicate Truthful(f: Frame, o: Outcome) {
    o.Returned? ==>
      && (o.result.committed == Yes ==> f.committed && !f.lost)
      && (o.result.committed == No ==> !f.committed && !f.lost)
      && (o.result.rollbackSucceeded || o.result.status == Unsupported ==> o.result.committed == No)
      && (o.result.committed == Unknown ==> f.lost)
  }

  /** The one exception a commit may have recorded. */
  predicate RecordedOnly(raised: seq<(Status, Exc)>, exc: Exc) {
    raised == [] || (|raised| == 1 && raised[0].1 == exc)
  }

  lemma ProvenIsRecorded(raised: seq<(Status, Exc)>, recorded: Exc, exc: Exc)
    requires RecordedOnly(raised, recorded) && Proven(raised, exc).Some?
    ensures raised != [] && exc == recorded
  {
    if raised != [] {
      assert Proven(raised[1..], exc) == None;
    }
  }

  /** All a commit guarantees, in terms of the frame before it. */
  predicate CommitOk(f: Frame, f1: Frame, o: Outcome, edit: Edit) {
    && Located(f1, f.doc, edit) && Truthful(f1, o)
    && (f1.lost ==> !f1.committed)
    // an exception of ours that escapes proves the rollback
    && (o.Raised? && Proven(f1.raised, o.exc).Some? ==> !f1.committed && !f1.lost)
    // a result means that no callback raised, unless the rollback failed
    && (o.Returned? && !f1.lost ==> f1.raised == [])
    // nothing happened before the callback started
    && (!f1.started ==> !f1.committed && !f1.lost && f1.raised == [] && f1.repair == f.repair)
  }

  lemma RollingBackIsOk(f: Frame, f1: Frame, s: Script, o: Outcome, edit: Edit, recorded: Exc)
    requires s.Runs? && !f1.lost && !f1.committed && f1.started && RecordedOnly(f1.raised, recorded)
    requires s.crash.Some? ==> s.crash.value != recorded || f1.raised == []
    requires o.Raised? || (o.result.committed == No && !o.result.rollbackSucceeded && o.result.status != Unsupported
                           && f1.raised == [])
    ensures var (f2, o2) := RolledBack(f1, f.doc, s, o); CommitOk(f, f2, o2, edit)
  {
    var (f2, o2) := RolledBack(f1, f.doc, s, o);
    if o2.Raised? && Proven(f2.raised, o2.exc).Some? {
      ProvenIsRecorded(f1.raised, recorded, o2.exc);
    }
  }

  lemma ConcludingIsOk(f: Frame, f1: Frame, s: Script, edit: Edit)
    requires s.Runs? && Honest(s) && !f1.lost && !f1.committed && f1.started && f1.raised == []
    requires f1.doc.edits == f.doc.edits + [edit]
    ensures var (f2, o) := Concluded(f1, f.doc, s); CommitOk(f, f2, o, edit)
  {
    var (f2, check) := Inspected(f1, s);
    match check
    case Breaks(exc) => RollingBackIsOk(f, f2, s, Raised(exc), edit, exc);
    case Says(false) =>
      RollingBackIsOk(f, f2, s, Returned(Result(PostconditionFailed, No, false, false)), edit, Exc(0, OtherErr));
    case Says(true) =>
  }

  lemma CommitIsTruthful(f: Frame, s: Script, recompute: bool, edit: Edit, allow: bool)
    requires Honest(s) && !f.lost && !f.committed && f.raised == []
    ensures var (f1, o) := Commit(f, s, recompute, edit, allow); CommitOk(f, f1, o, edit)
  {
    if s.Runs? {
      var (f1, failure) := Invoked(f.(commits := f.commits + [recompute]), s, edit, allow);
      if failure.Some? {
        RollingBackIsOk(f, f1, s, Raised(failure.value), edit, failure.value);
      } else if recompute && !s.recomputeOk {
        RollingBackIsOk(f, f1, s, Returned(Result(RecomputeFailed, No, false, s.explained)), edit, Exc(0, OtherErr));
      } else {
        ConcludingIsOk(f, if recompute then f1.(doc := f1.doc.(derived := s.newDerived)) else f1, s, edit);
      }
    }
  }

  lemma InvokingIsNotCounted(f: Frame, s: Script, edit: Edit, allow: bool)
    requires s.Runs?
    ensures var (f1, failure) := Invoked(f, s, edit, allow);
            f1.commits == f.commits && (failure.None? ==> f1.doc.edits == f.doc.edits + [edit])
  {
  }

  lemma ConcludingIsNotCounted(f: Frame, before: Doc, s: Script)
    requires s.Runs?
    ensures var (f1, o) := Concluded(f, before, s);
            f1.commits == f.commits && (o.Returned? && o.result.committed == Yes ==> f1.doc.edits == f.doc.edits)
  {
  }

  /** A commit is one commit, and a committed one appends one edit to what was there. */
  lemma CommitIsCounted(f: Frame, s: Script, recompute: bool, edit: Edit, allow: bool)
    ensures var (f1, o) := Commit(f, s, recompute, edit, allow);
            && f1.commits == f.commits + [recompute]
            && (o.Returned? && o.result.committed == Yes ==> f1.doc.edits == f.doc.edits + [edit])
  {
    if s.Runs? {
      var f0 := f.(commits := f.commits + [recompute]);
      InvokingIsNotCounted(f0, s, edit, allow);
      var f1 := Invoked(f0, s, edit, allow).0;
      ConcludingIsNotCounted(if recompute then f1.(doc := f1.doc.(derived := s.newDerived)) else f1, f.doc, s);
    }
  }

  // ----- exactly once -----

  /** An ending of the whole call: what it claims is true, and the edit is in the document at most once. */
  predicate ExactlyOnce(doc: Doc, recompute: bool, edit: Edit, f: Frame, o: Outcome) {
    && Located(f, doc, edit) && Truthful(f, o)
    && (f.commits == [recompute] || f.commits == [recompute, false])
    && (f.lost ==> o.Raised? || o.result == RollbackFailure)
  }

  lemma FinishIsExactlyOnce(doc: Doc, recompute: bool, f: Frame, o: Outcome, second: Script, settle: Settle,
                            edit: Edit, allow: bool)
    requires Honest(second) && CommitOk(NewFrame(doc), f, o, edit) && f.commits == [recompute] && o.Returned?
    requires f.lost ==> o.result == RollbackFailure
    ensures var (f1, o1) := Finish(f, recompute, o.result, second, settle, edit, allow);
            && Located(f1, doc, edit) && Truthful(f1, o1)
            && (f1.commits == [recompute] || f1.commits == [recompute, false])
            && (f1.lost ==> o1.Raised? || o1.result == RollbackFailure)
            && (o1.Raised? && Proven(f1.raised, o1.exc).Some? ==> !f1.committed && !f1.lost)
            && (!f1.started ==> !f1.committed && !f1.lost)
  {
    if recompute && f.repair.Some? && AcceptsFailure(f.repair.value, o.result) {
      CommitIsTruthful(f.(active := true), second, false, edit, allow);
      CommitIsCounted(f.(active := true), second, false, edit, allow);
      LosingIsAdmitted(f.(active := true), second, false, edit, allow);
    }
  }

  /** A lost document is reported as a failed rollback or as an exception nobody vouches for. */
  lemma LosingIsAdmitted(f: Frame, s: Script, recompute: bool, edit: Edit, allow: bool)
    requires !f.lost
    ensures var (f1, o) := Commit(f, s, recompute, edit, allow);
            f1.lost ==> o.Raised? || o.result == RollbackFailure
  {
  }

  lemma ProvenOrIsTruthful(f: Frame, o: Outcome)
    requires Truthful(f, o) && (o.Raised? && Proven(f.raised, o.exc).Some? ==> !f.committed && !f.lost)
    ensures Truthful(f, ProvenOr(f, o))
  {
  }

  /** The direct call. */
  lemma SyncIsExactlyOnce(doc: Doc, recompute: bool, edit: Edit, allow: bool,
                          first: Script, second: Script, settle: Settle)
    requires Honest(first) && Honest(second)
    ensures var (f, o) := Sync(doc, recompute, edit, allow, first, second, settle);
            ExactlyOnce(doc, recompute, edit, f, o)
  {
    var (f, o) := Commit(NewFrame(doc), first, recompute, edit, allow);
    CommitIsTruthful(NewFrame(doc), first, recompute, edit, allow);
    CommitIsCounted(NewFrame(doc), first, recompute, edit, allow);
    LosingIsAdmitted(NewFrame(doc), first, recompute, edit, allow);
    assert NewFrame(doc).commits + [recompute] == [recompute];
    if o.Raised? {
      ProvenOrIsTruthful(f, o);
    } else {
      FinishIsExactlyOnce(doc, recompute, f, o, second, settle, edit, allow);
      var (f1, o1) := Finish(f, recompute, o.result, second, settle, edit, allow);
      ProvenOrIsTruthful(f1, o1);
    }
  }

  predicate OneTruthfulCommit(doc: Doc, edit: Edit, f: Frame, o: Outcome) {
    ExactlyOnce(doc, true, edit, f, o) && f.commits == [true]
  }

  /** Body creation is one commit, truthfully reported, on either thread. */
  lemma BodyCreateIsExactlyOnce(doc: Doc, edit: Edit, allow: bool, first: Script)
    requires Honest(first)
    ensures var direct, awaited := BodyCreate(doc, edit, allow, first), BodyCreateAsync(doc, edit, allow, first);
            && OneTruthfulCommit(doc, edit, direct.0, direct.1)
            && OneTruthfulCommit(doc, edit, awaited.0, awaited.1)
  {
    var (f, o) := Commit(NewFrame(doc), first, true, edit, allow);
    CommitIsTruthful(NewFrame(doc), first, true, edit, allow);
    CommitIsCounted(NewFrame(doc), first, true, edit, allow);
    LosingIsAdmitted(NewFrame(doc), first, true, edit, allow);
    ProvenOrIsTruthful(f, o);
  }

  // ----- the waiter agrees with the direct call -----

  /** Our callbacks record apply and postcondition failures only. */
  predicate OwnFailures(raised: seq<(Status, Exc)>) {
    forall r :: r in raised ==> r.0 == ApplyFailed || r.0 == PostconditionFailed
  }

  lemma {:induction false} ProvenIsOwnFailure(raised: seq<(Status, Exc)>, exc: Exc)
    requires OwnFailures(raised) && Proven(raised, exc).Some?
    ensures Proven(raised, exc).value == ApplyFailed || Proven(raised, exc).value == PostconditionFailed
  {
    if raised[0].1 == exc {
      assert raised[0] in raised;
    } else {
      ProvenIsOwnFailure(raised[1..], exc);
    }
  }

  /** Recorded failures are our own, and a repair exists only once a callback has started. */
  predicate Started(f: Frame) {
    OwnFailures(f.raised) && (f.repair.Some? ==> f.started)
  }

  lemma InvokedStarts(f: Frame, s: Script, edit: Edit, allow: bool)
    requires s.Runs? && Started(f)
    ensures Started(Invoked(f, s, edit, allow).0) && Invoked(f, s, edit, allow).0.started
  {
  }

  lemma ConcludingStarts(f: Frame, before: Doc, s: Script)
    requires s.Runs? && Started(f) && f.started
    ensures Started(Concluded(f, before, s).0) && Concluded(f, before, s).0.started
  {
    assert OwnFailures(Inspected(f, s).0.raised);
  }

  lemma RollingBackStarts(f: Frame, before: Doc, s: Script, o: Outcome)
    requires s.Runs? && Started(f) && f.started
    ensures Started(RolledBack(f, before, s, o).0) && RolledBack(f, before, s, o).0.started
  {
  }

  lemma RunningStarts(f: Frame, s: Script, recompute: bool, edit: Edit, allow: bool)
    requires s.Runs? && Started(f)
    ensures Started(Commit(f, s, recompute, edit, allow).0) && Commit(f, s, recompute, edit, allow).0.started
  {
    var f0 := f.(commits := f.commits + [recompute]);
    InvokedStarts(f0, s, edit, allow);
    var (f1, failure) := Invoked(f0, s, edit, allow);
    if failure.Some? {
      RollingBackStarts(f1, f.doc, s, Raised(failure.value));
    } else if recompute && !s.recomputeOk {
      RollingBackStarts(f1, f.doc, s, Returned(Result(RecomputeFailed, No, false, s.explained)));
    } else {
      ConcludingStarts(if recompute then f1.(doc := f1.doc.(derived := s.newDerived)) else f1, f.doc, s);
    }
  }

  lemma CommitStarts(f: Frame, s: Script, recompute: bool, edit: Edit, allow: bool)
    requires Started(f)
    ensures var (f1, o) := Commit(f, s, recompute, edit, allow);
            && Started(f1) && (f1.started <==> f.started || s.Runs?)
            && (!s.Runs? ==> f1.raised == f.raised)
  {
    if s.Runs? {
      RunningStarts(f, s, recompute, edit, allow);
    }
  }

  lemma RaisedEndsAlike(doc: Doc, recompute: bool, edit: Edit, allow: bool,
                        first: Script, second: Script, settle: Settle)
    requires Commit(NewFrame(doc), first, recompute, edit, allow).1.Raised?
    ensures Sync(doc, recompute, edit, allow, first, second, settle) ==
            Async(doc, recompute, edit, allow, first, second, settle)
            <==> !(first.RefusesCall? && first.exc.kind == TypeErr)
  {
    var (f, o) := Commit(NewFrame(doc), first, recompute, edit, allow);
    CommitStarts(NewFrame(doc), first, recompute, edit, allow);
    if Proven(f.raised, o.exc).Some? {
      ProvenIsOwnFailure(f.raised, o.exc);
    }
  }

  lemma ReturnedEndsAlike(doc: Doc, recompute: bool, edit: Edit, allow: bool,
                          first: Script, second: Script, settle: Settle)
    requires Commit(NewFrame(doc), first, recompute, edit, allow).1.Returned?
    ensures Sync(doc, recompute, edit, allow, first, second, settle) ==
            Async(doc, recompute, edit, allow, first, second, settle)
  {
    var (f, o) := Commit(NewFrame(doc), first, recompute, edit, allow);
    CommitStarts(NewFrame(doc), first, recompute, edit, allow);
    CommitStarts(f.(active := true), second, false, edit, allow);
  }

  /**
   Off and on the GUI thread a call ends alike: same result or exception, same document, same commits.
   The one exception is a binding that raises `TypeError` without starting the callback, which only the
   direct call turns into `Unsupported`.
   */
  lemma SyncAndAsyncAgree(doc: Doc, recompute: bool, edit: Edit, allow: bool,
                          first: Script, second: Script, settle: Settle)
    ensures Sync(doc, recompute, edit, allow, first, second, settle) ==
            Async(doc, recompute, edit, allow, first, second, settle)
            <==> !(first.RefusesCall? && first.exc.kind == TypeErr)
  {
    if Commit(NewFrame(doc), first, recompute, edit, allow).1.Raised? {
      RaisedEndsAlike(doc, recompute, edit, allow, first, second, settle);
    } else {
      ReturnedEndsAlike(doc, recompute, edit, allow, first, second, settle);
    }
  }

  /** So the waiter too is exactly once. */
  lemma AsyncIsExactlyOnce(doc: Doc, recompute: bool, edit: Edit, allow: bool,
                           first: Script, second: Script, settle: Settle)
    requires Honest(first) && Honest(second)
    ensures var (f, o) := Async(doc, recompute, edit, allow, first, second, settle);
            ExactlyOnce(doc, recompute, edit, f, o)
  {
    if first.RefusesCall? {
      assert Proven([], first.exc) == None;
    } else {
      SyncAndAsyncAgree(doc, recompute, edit, allow, first, second, settle);
      SyncIsExactlyOnce(doc, recompute, edit, allow, first, second, settle);
    }
  }

  /** On either thread body creation ends alike, but for the same one exception. */
  lemma BodyCreationsAgree(doc: Doc, edit: Edit, allow: bool, first: Script)
    ensures BodyCreate(doc, edit, allow, first) == BodyCreateAsync(doc, edit, allow, first)
            <==> !(first.RefusesCall? && first.exc.kind == TypeErr)
  {
    CommitStarts(NewFrame(doc), first, true, edit, allow);
  }

  // ----- endings that must happen -----

  /** Nothing fails: the edit is committed and said to be. */
  lemma CommitsWhenNothingFails(doc: Doc, recompute: bool, edit: Edit, allow: bool,
                                first: Script, second: Script, settle: Settle)
    requires first.Runs? && first.capture.Finishes? && first.apply.Finishes? && first.recomputeOk
    requires first.check == Says(true) && first.crash.None?
    ensures var (f, o) := Sync(doc, recompute, edit, allow, first, second, settle);
            o == Returned(Result(Committed, Yes, false, false)) && f.doc.edits == doc.edits + [edit]
  {
  }

  /** A callback that raises is a rejection when the rollback worked, and uncertain when it did not. */
  lemma CallbackFailureIsReported(doc: Doc, recompute: bool, edit: Edit, exc: Exc,
                                  first: Script, second: Script, settle: Settle)
    requires first.Runs? && first.apply == Fails(exc) && exc.kind != Interrupt && first.crash.None?
    ensures var (f, o) := Sync(doc, recompute, edit, false, first, second, settle);
            if first.rollbackOk then o == Returned(Rejection(ApplyFailed)) && f.doc == doc
            else o == Returned(RollbackFailure) && f.doc == first.lost
  {
    var raised := [(ApplyFailed, exc)];
    assert [] + raised == raised;
    assert Proven(raised, exc) == Some(ApplyFailed);
  }

  // ----- awaiting once matters -----

  /** The guard of the reapply. `finish` changes nothing that would make it false. */
  predicate WillReapply(f: Frame, recompute: bool, result: Result) {
    recompute && f.repair.Some? && AcceptsFailure(f.repair.value, result)
  }

  /** Nothing goes wrong in the commit. */
  predicate GoesWell(s: Script) {
    && s.Runs? && s.capture.Finishes? && s.apply.Finishes? && s.bindingsPreserved
    && s.check == Says(true) && s.crash.None?
  }

  /** In whatever frame: finishing is one more commit exactly when the guard holds, and none otherwise. */
  lemma FinishCommitsExactlyWhen(f: Frame, recompute: bool, result: Result, s: Script, settle: Settle, edit: Edit,
                                 allow: bool)
    ensures var (f1, _) := Finish(f, recompute, result, s, settle, edit, allow);
            var again := WillReapply(f, recompute, result);
            && f1.commits == f.commits + (if again then [false] else [])
            && (GoesWell(s) ==> f1.doc.edits == f.doc.edits + (if again then [edit] else []))
            && (GoesWell(s) && allow && again ==> f1.repair == Some(s.repair))
  {
    if WillReapply(f, recompute, result) {
      CommitIsCounted(f.(active := true), s, false, edit, allow);
    } else {
      assert f.commits + [] == f.commits && f.doc.edits + [] == f.doc.edits;
    }
  }

  const Missing := Repair(true)

  function Smooth(recomputeOk: bool): Script {
    Runs(Finishes, Missing, Finishes, Doc([], 0), recomputeOk, true, 0, true, Says(true), true, None, Doc([], 0))
  }

  /**
   A run of the waiter: missing sources make the recompute of the first commit fail, the first await reapplies, and
   the edit is in the document. A second await, for which the native side answers `again`, applies the edit a second
   time exactly when that answer is again an accepted failure.
   */
  lemma AwaitingTwiceAppliesTwiceExactlyWhen(doc: Doc, edit: Edit, settle: Settle, again: Result)
    requires settle.end.Finishes?
    ensures var (f, o) := Commit(NewFrame(doc), Smooth(false), true, edit, true);
            var (f1, o1) := Finish(f, true, o.result, Smooth(true), settle, edit, true);
            var (f2, _) := Finish(f1, true, again, Smooth(true), settle, edit, true);
            && o == Returned(Result(RecomputeFailed, No, false, true)) && f.doc == doc
            && o1 == Returned(Result(Committed, Yes, false, false)) && f1.doc.edits == doc.edits + [edit]
            && f2.doc.edits == doc.edits + [edit] + (if AcceptsFailure(Missing, again) then [edit] else [])
  {
    var (f, o) := Commit(NewFrame(doc), Smooth(false), true, edit, true);
    var (f1, o1) := Finish(f, true, o.result, Smooth(true), settle, edit, true);
    FinishCommitsExactlyWhen(f, true, o.result, Smooth(true), settle, edit, true);
    FinishCommitsExactlyWhen(f1, true, again, Smooth(true), settle, edit, true);
  }

  // ----- the bridge as the source runs it -----

  /** One call: the variables its closures share, and the document they change. */
  class Bridge {
    var doc: Doc
    var started: bool
    var raised: seq<(Status, Exc)>
    var active: bool
    var repair: Option<Repair>
    ghost var commits: seq<bool>
    ghost var committed: bool
    ghost var lost: bool

    ghost function State(): Frame
      reads this
    {
      Frame(doc, started, raised, active, repair, commits, committed, lost)
    }

    constructor (document: Doc)
      ensures State() == NewFrame(document)
    {
      doc, started, raised, active, repair := document, false, [], false, None;
      commits, committed, lost := [], false, false;
    }

    method Record(status: Status, exc: Exc)
      modifies this
      ensures State() == Recorded(old(State()), status, exc)
    {
      if exc.kind != Interrupt {
        raised := raised + [(status, exc)];
      }
    }

    method ProvenRejection(exc: Exc) returns (rejection: Option<Result>)
      ensures rejection == if Proven(raised, exc).Some? then Some(Rejection(Proven(raised, exc).value)) else None
    {
      for i := 0 to |raised|
        invariant Proven(raised, exc) == Proven(raised[i..], exc)
      {
        if raised[i].1 == exc {
          return Some(Rejection(raised[i].0));
        }
        assert raised[i..][1..] == raised[i + 1..];
      }
      return None;
    }

    method InvokeCallback(s: Script, edit: Edit, allow: bool) returns (failure: Option<Exc>)
      requires s.Runs?
      modifies this
      ensures (State(), failure) == Invoked(old(State()), s, edit, allow)
    {
      started := true;
      if allow {
        if s.capture.Fails? {
          Record(ApplyFailed, s.capture.exc);
          return Some(s.capture.exc);
        }
        repair := Some(s.repair);
      }
      match s.apply
      case Finishes =>
        doc := doc.(edits := doc.edits + [edit]);
        return None;
      case Fails(exc) =>
        doc := s.partial;
        Record(ApplyFailed, exc);
        return Some(exc);
    }

    method InvokePostcondition(s: Script) returns (check: Check)
      requires s.Runs?
      modifies this
      ensures (State(), check) == Inspected(old(State()), s)
    {
      if active && (repair.None? || !s.bindingsPreserved) {
        return Says(false);
      }
      if s.check.Breaks? {
        Record(PostconditionFailed, s.check.exc);
      }
      return s.check;
    }

    /** The coordinator puts the document back, or loses it. */
    method RollBack(before: Doc, s: Script, o: Outcome) returns (end: Outcome)
      requires s.Runs?
      modifies this
      ensures (State(), end) == RolledBack(old(State()), before, s, o)
    {
      if s.crash.Some? {
        doc, lost := s.lost, true;
        return Raised(s.crash.value);
      }
      if s.rollbackOk {
        doc := before;
        return o;
      }
      doc, lost := s.lost, true;
      return Returned(RollbackFailure);
    }

    method Conclude(before: Doc, s: Script) returns (o: Outcome)
      requires s.Runs?
      modifies this
      ensures (State(), o) == Concluded(old(State()), before, s)
    {
      var check := InvokePostcondition(s);
      if check.Breaks? {
        o := RollBack(before, s, Raised(check.exc));
      } else if !check.ok {
        o := RollBack(before, s, Returned(Result(PostconditionFailed, No, false, false)));
      } else if s.crash.Some? {
        doc, lost := s.lost, true;
        o := Raised(s.crash.value);
      } else {
        committed := true;
        o := Returned(Result(Committed, Yes, false, false));
      }
    }

    /** `commitCompatibilityMutation`, calling back into this frame. */
    method NativeCommit(s: Script, recompute: bool, edit: Edit, allow: bool) returns (o: Outcome)
      modifies this
      ensures (State(), o) == Commit(old(State()), s, recompute, edit, allow)
    {
      commits := commits + [recompute];
      if s.RefusesCall? {
        return Raised(s.exc);
      }
      if s.RejectsEarly? {
        return Returned(Result(Refused, No, false, false));
      }
      var before := doc;
      var failure := InvokeCallback(s, edit, allow);
      if failure.Some? {
        o := RollBack(before, s, Raised(failure.value));
      } else if recompute && !s.recomputeOk {
        o := RollBack(before, s, Returned(Result(RecomputeFailed, No, false, s.explained)));
      } else {
        if recompute {
          doc := doc.(derived := s.newDerived);
        }
        o := Conclude(before, s);
      }
    }

    method FinishResult(recompute: bool, result: Result, s: Script, settle: Settle, edit: Edit, allow: bool)
      returns (o: Outcome)
      modifies this
      ensures (State(), o) == Finish(old(State()), recompute, result, s, settle, edit, allow)
    {
      if !recompute || repair.None? || !AcceptsFailure(repair.value, result) {
        return Returned(result);
      }
      active := true;
      o := NativeCommit(s, false, edit, allow);
      if o.Returned? && o.result.committed == Yes {
        doc := doc.(derived := settle.newDerived);
        if settle.end.Fails? {
          o := Raised(settle.end.exc);
        }
      }
    }

    /** Body creation off the GUI thread. */
    method CreateBody(edit: Edit, allow: bool, first: Script) returns (o: Outcome)
      requires State() == NewFrame(doc)
      modifies this
      ensures (State(), o) == BodyCreate(old(doc), edit, allow, first)
    {
      o := NativeCommit(first, true, edit, allow);
      if o.Raised? && o.exc.kind != Interrupt {
        var rejection := ProvenRejection(o.exc);
        if rejection.Some? {
          return Returned(rejection.value);
        }
        if o.exc.kind == TypeErr && !started {
          return Returned(NotSupported);
        }
      }
    }

    /** Body creation on the GUI thread, awaited by the RPC thread. */
    method CreateBodyAndAwait(edit: Edit, allow: bool, first: Script) returns (o: Outcome)
      requires State() == NewFrame(doc)
      modifies this
      ensures (State(), o) == BodyCreateAsync(old(doc), edit, allow, first)
    {
      o := NativeCommit(first, true, edit, allow);
      if o.Raised? && o.exc.kind != Interrupt {
        var rejection := ProvenRejection(o.exc);
        if rejection.Some? {
          return Returned(rejection.value);
        }
      }
    }

    /** Called off the GUI thread. */
    method CommitDirectly(recompute: bool, edit: Edit, allow: bool, first: Script, second: Script, settle: Settle)
      returns (o: Outcome)
      requires State() == NewFrame(doc)
      modifies this
      ensures (State(), o) == Sync(old(doc), recompute, edit, allow, first, second, settle)
    {
      o := NativeCommit(first, recompute, edit, allow);
      if o.Returned? {
        o := FinishResult(recompute, o.result, second, settle, edit, allow);
      }
      if o.Raised? && o.exc.kind != Interrupt {
        var rejection := ProvenRejection(o.exc);
        if rejection.Some? {
          return Returned(rejection.value);
        }
        if o.exc.kind == TypeErr && !started {
          return Returned(NotSupported);
        }
      }
    }

    /** Called on the GUI thread and awaited once by the RPC thread. */
    method CommitAndAwait(recompute: bool, edit: Edit, allow: bool, first: Script, second: Script, settle: Settle)
      returns (o: Outcome)
      requires State() == NewFrame(doc)
      modifies this
      ensures (State(), o) == Async(old(doc), recompute, edit, allow, first, second, settle)
    {
      o := NativeCommit(first, recompute, edit, allow);
      if o.Raised? && o.exc.kind != Interrupt {
        var rejection := ProvenRejection(o.exc);
        if rejection.Some? {
          o := Returned(rejection.value);
        }
      }
      if o.Returned? {
        o := FinishResult(recompute, o.result, second, settle, edit, allow);
      }
      if o.Raised? && o.exc.kind != Interrupt {
        var rejection := ProvenRejection(o.exc);
        if rejection.Some? {
          return Returned(rejection.value);
        }
      }
    }
  }
}
