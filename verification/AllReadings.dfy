/**
 The scan is complete: what a disciplined module puts into `__all__` or a helper by a plain assignment of a value built
 from names that are read is reported, as the value it has when the module runs, and nothing else changes a report.
 */
module AllReadings {
  import opened Wrappers
  import opened PythonAst
  import opened ExplicitAll
  import opened ModuleRuns
  import opened AllVisibility
  import opened AllShapes
  import opened AllSoundness
  import opened ListSurvival
  import opened AllBlindSpots
  import opened AllHelpers

  // ----- values that can be read -----

  /** Built of string constants, displays, sums and names that are known. */
  predicate IsReadable(e: Node, known: set<string>)
    decreases e, 1
  {
    match e
    case ListExpr(elts) => AreReadable(elts, known)
    case TupleExpr(elts) => AreReadable(elts, known)
    case SetExpr(elts) => AreReadable(elts, known)
    case Name(id, _) => id in known
    case Add(l, r) => IsReadable(l, known) && IsReadable(r, known)
    case _ => false
  }

  predicate AreReadable(elts: seq<Node>, known: set<string>)
    decreases elts, 0
  {
    forall x :: x in elts ==> IsReadableElement(x, known)
  }

  predicate IsReadableElement(element: Node, known: set<string>)
    decreases element, 1
  {
    match element
    case Starred(v) => IsReadable(v, known)
    case Str(_) => true
    case _ => false
  }

  /** Exactly these are read, whatever the readings of the names are. */
  lemma {:induction false} ReadableExactlyWhen(e: Node, values: Values)
    ensures StaticStringList(e, values).Some? <==> IsReadable(e, values.Keys)
    decreases e, 1
  {
    match e
    case ListExpr(elts) => ReadableElements(elts, values);
    case TupleExpr(elts) => ReadableElements(elts, values);
    case SetExpr(elts) => ReadableElements(elts, values);
    case Add(l, r) =>
      ReadableExactlyWhen(l, values);
      ReadableExactlyWhen(r, values);
    case _ =>
  }

  lemma {:induction false} ReadableElements(elts: seq<Node>, values: Values)
    ensures StaticElements(elts, values).Some? <==> AreReadable(elts, values.Keys)
    decreases elts, 0
  {
    if elts != [] {
      assert forall x :: x in elts <==> x == elts[0] || x in elts[1..];
      ReadableElement(elts[0], values);
      ReadableElements(elts[1..], values);
    }
  }

  lemma ReadableElement(element: Node, values: Values)
    ensures StaticElement(element, values).Some? <==> IsReadableElement(element, values.Keys)
    decreases element, 1
  {
    match element
    case Starred(v) => ReadableExactlyWhen(v, values);
    case _ =>
  }

  // ----- one statement more -----

  /** The readings and the report after some statements that keep the discipline, and a run of them. */
  ghost predicate Reached(body: seq<Node>, bodies: seq<Node>, helpers: set<string>, inPlace: bool, s: State, m: State) {
    && ALL !in helpers && DisciplinedFrom(NewScan, body, bodies, 0, helpers, inPlace)
    && Closed(s) && RunsAll(body, bodies, s, m)
  }

  lemma ReadingsHold(body: seq<Node>, bodies: seq<Node>, helpers: set<string>, inPlace: bool, s: State, m: State)
    requires Reached(body, bodies, helpers, inPlace, s, m)
    ensures Backed(ScanModule(body)) && Inv(ScanModule(body).values, helpers, inPlace, m)
  {
    RestKeepsInv(NewScan, body, bodies, 0, helpers, inPlace, s, m);
  }

  lemma TextsAreEqual(a: seq<string>, b: seq<string>)
    requires Texts(a) == Texts(b)
    ensures a == b
  {
    assert |Texts(a)| == |a| && |Texts(b)| == |b|;
    forall i | 0 <= i < |a|
      ensures a[i] == b[i]
    {
      assert Texts(a)[i] == Text(a[i]) && Texts(b)[i] == Text(b[i]);
    }
  }

  /** A value of lists only, over tracked names that are read, is read as what it denotes in the run. */
  lemma DenotedIsRead(e: Node, body: seq<Node>, bodies: seq<Node>, helpers: set<string>, inPlace: bool,
                      s: State, m: State, names: seq<string>)
    requires Reached(body, bodies, helpers, inPlace, s, m)
    requires IsReadable(e, ScanModule(body).values.Keys) && ListsOnly(e, Tracked(helpers))
    requires Denote(e, m) == Some(Texts(names))
    ensures StaticStringList(e, ScanModule(body).values) == Some(names)
  {
    var values := ScanModule(body).values;
    ReadingsHold(body, bodies, helpers, inPlace, s, m);
    ReadableExactlyWhen(e, values);
    StaticIsDenoted(e, values, helpers, inPlace, m);
    TextsAreEqual(StaticStringList(e, values).value, names);
  }

  /** An assignment names `x`, plainly or in what a target takes apart. */
  ghost predicate Assigns(n: Node, x: string) {
    (n.Assign? || n.AnnAssign?) && exists t :: t in TargetsOf(n) && Takes(t, x)
  }

  lemma AssignedIsBound(n: Node, x: string)
    requires IsPlainAssignment(n) && Assigns(n, x)
    ensures x in AssignedNamesAndValue(n).0 && AssignedNamesAndValue(n).1 == Some(AssignedValue(n))
  {
    AssignedExactlyWhen(n, x);
  }

  /** What a plain assignment does to readings and report, annotated or not, if it shows no change. */
  lemma AssignmentIsScanned(sc: Scan, n: Node, index: nat, x: string)
    requires IsPlainAssignment(n) && Assigns(n, x) && !Shows(n) && IsStatement(n)
    ensures var next, known := ScanStep(sc, n, index), StaticStringList(AssignedValue(n), sc.values);
            && (known.Some? ==> x in next.values && next.values[x] == known.value)
            && (x == ALL ==> next.explicit == known)
  {
    ReportedExactlyWhen(n, sc.values);
    AssignedIsBound(n, x);
  }

  /**
   Completeness: whenever a disciplined module goes on to assign a name, `__all__` or a helper, a value built of lists
   over names that are read, and the value is a list of names when the module gets there, then that list is the
   reading of the name, and for `__all__` the report.
   */
  lemma AssignedListIsReported(body: seq<Node>, n: Node, bodies: seq<Node>, helpers: set<string>, inPlace: bool,
                               s: State, m: State, x: string, names: seq<string>)
    requires Reached(body, bodies, helpers, inPlace, s, m)
    requires IsStatement(n) && IsPlainAssignment(n) && Assigns(n, x) && !Shows(n)
    requires IsReadable(AssignedValue(n), ScanModule(body).values.Keys)
    requires ListsOnly(AssignedValue(n), Tracked(helpers)) && Denote(AssignedValue(n), m) == Some(Texts(names))
    ensures x in ScanModule(body + [n]).values && ScanModule(body + [n]).values[x] == names
    ensures x == ALL ==> ScanModule(body + [n]).explicit == Some(names)
  {
    ScanFromAppends(NewScan, body, n, 0);
    DenotedIsRead(AssignedValue(n), body, bodies, helpers, inPlace, s, m, names);
    AssignmentIsScanned(ScanModule(body), n, |body|, x);
  }

  /** After any statements, an assignment of `__all__` that shows no change is reported exactly when it can be read. */
  lemma AssignmentIsReportedExactlyWhen(body: seq<Node>, n: Node)
    requires IsStatement(n) && IsPlainAssignment(n) && Assigns(n, ALL) && !Shows(n)
    ensures ScanModule(body + [n]).explicit.Some? <==> IsReadable(AssignedValue(n), ScanModule(body).values.Keys)
  {
    ScanFromAppends(NewScan, body, n, 0);
    ReadableExactlyWhen(AssignedValue(n), ScanModule(body).values);
    AssignmentIsScanned(ScanModule(body), n, |body|, ALL);
  }

  /** An extension of a list that was reported is reported extended by what the other side is in the run. */
  lemma ExtensionIsReportedExtended(body: seq<Node>, n: Node, bodies: seq<Node>, helpers: set<string>, inPlace: bool,
                                    s: State, m: State, names: seq<string>, extra: seq<string>)
    requires Reached(body, bodies, helpers, inPlace, s, m) && ScanModule(body).explicit == Some(names)
    requires IsPlainAugmented(n) && n.isAdd && n.target.id == ALL
    requires IsReadable(n.value, ScanModule(body).values.Keys) && ListsOnly(n.value, Tracked(helpers))
    requires Denote(n.value, m) == Some(Texts(extra))
    ensures ScanModule(body + [n]).explicit == Some(names + extra)
  {
    ScanFromAppends(NewScan, body, n, 0);
    ReadingsHold(body, bodies, helpers, inPlace, s, m);
    DenotedIsRead(n.value, body, bodies, helpers, inPlace, s, m, extra);
  }

  /** Everything else leaves the report as it is, or ends it if it shows a change. */
  lemma OthersKeepOrEndTheReport(body: seq<Node>, n: Node)
    requires Bystander(n, ALL)
    ensures ScanModule(body + [n]).explicit == if Shows(n) then None else ScanModule(body).explicit
  {
    ScanFromAppends(NewScan, body, n, 0);
    BystanderIsScanned(ScanModule(body), n, |body|);
  }

  /** And so does an assignment or an extension of `__all__` itself that shows another change, or cannot be read. */
  lemma ShownAssignmentEndsTheReport(body: seq<Node>, n: Node)
    requires IsStatement(n) && Shows(n) && !IsPlainAugmented(n)
    ensures ScanModule(body + [n]).explicit == None
  {
    ScanFromAppends(NewScan, body, n, 0);
    ReportedExactlyWhen(n, ScanModule(body).values);
  }

  lemma {:induction false} ReportIsBacked(body: seq<Node>)
    ensures Backed(ScanModule(body))
  {
    if body != [] {
      var front, last := body[..|body| - 1], body[|body| - 1];
      ReportIsBacked(front);
      ScanFromAppends(NewScan, front, last, 0);
      assert front + [last] == body;
      ScanStepKeepsBacked(ScanModule(front), last, |front|);
    }
  }

  lemma UnreadExtensionEndsTheReport(body: seq<Node>, n: Node)
    requires IsPlainAugmented(n) && n.target.id == ALL
    requires !n.isAdd || ScanModule(body).explicit.None? || !IsReadable(n.value, ScanModule(body).values.Keys)
    ensures ScanModule(body + [n]).explicit == None
  {
    ScanFromAppends(NewScan, body, n, 0);
    ReportIsBacked(body);
    ReadableExactlyWhen(n.value, ScanModule(body).values);
  }

  // ----- the readings of helpers -----

  /** A helper that is read stays read, unless an assignment names it and can be read. */
  lemma OthersKeepTheReading(body: seq<Node>, n: Node, h: string)
    requires h != ALL && IsStatement(n) && !Assigns(n, h)
    ensures (h in ScanModule(body + [n]).values <==> h in ScanModule(body).values)
    ensures h in ScanModule(body).values ==> ScanModule(body + [n]).values[h] == ScanModule(body).values[h]
  {
    if n.Assign? || n.AnnAssign? {
      AssignedExactlyWhen(n, h);
    }
    ScanFromAppends(NewScan, body, n, 0);
  }

  // ----- the statement that decided -----

  /** A statement that shows a change of `__all__`, or assigns it a value. */
  predicate Decides(n: Node) {
    Shows(n) || (IsPlainAssignment(n) && ALL in AssignedNames(n))
  }

  lemma DecidesExactlyWhen(sc: Scan, n: Node, index: nat)
    requires IsStatement(n)
    ensures ScanStep(sc, n, index).owner == if Decides(n) then Some(index) else sc.owner
  {
    ReportedExactlyWhen(n, sc.values);
    if n.Assign? {
      BoundNamesOfTargets(n.targets);
    } else if n.AnnAssign? {
      BoundNameIsTarget(n.target);
    }
  }

  /** The last statement that decides, or none. */
  predicate IsLastToDecide(body: seq<Node>, owner: Option<nat>) {
    match owner
    case None => NoneDecides(body)
    case Some(i) => i < |body| && Decides(body[i]) && NoneDecides(body[i + 1..])
  }

  predicate NoneDecides(body: seq<Node>) {
    forall n :: n in body ==> !Decides(n)
  }

  lemma LastToDecideGrows(front: seq<Node>, last: Node, owner: Option<nat>)
    requires IsLastToDecide(front, owner)
    ensures IsLastToDecide(front + [last], if Decides(last) then Some(|front|) else owner)
  {
    if Decides(last) {
      assert (front + [last])[|front| + 1..] == [];
    } else if owner.Some? {
      assert (front + [last])[owner.value + 1..] == front[owner.value + 1..] + [last];
    }
  }

  /** The statement named beside the report is the last one that decided about `__all__`. */
  lemma {:induction false} OwnerIsTheLastToDecide(body: seq<Node>)
    requires forall n :: n in body ==> IsStatement(n)
    ensures IsLastToDecide(body, ScanModule(body).owner)
  {
    if body != [] {
      var front, last := body[..|body| - 1], body[|body| - 1];
      OwnerIsTheLastToDecide(front);
      LastToDecideGrows(front, last, ScanModule(front).owner);
      ScanFromAppends(NewScan, front, last, 0);
      assert front + [last] == body;
      DecidesExactlyWhen(ScanModule(front), last, |front|);
    }
  }
}
