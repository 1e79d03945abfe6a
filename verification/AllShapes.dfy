/**
 The shapes the linter goes by, told by following targets down to names: which names an assignment binds, and which
 nodes are recognised as changes of `__all__`.
 */
module AllShapes {
  import opened Wrappers
  import opened PythonAst
  import opened ExplicitAll
  import opened ModuleRuns
  import opened AllVisibility

  // ----- targets -----

  /** Stars and the elements of lists and tuples lead from `t` to `m`. */
  ghost predicate UnpacksTo(t: Node, m: Node) {
    || t == m
    || (t.Starred? && UnpacksTo(t.value, m))
    || ((t.ListExpr? || t.TupleExpr?) && exists e :: e in t.elts && UnpacksTo(e, m))
  }

  /** So do attributes and subscripts, which lead to what they are taken of. */
  ghost predicate LeadsTo(t: Node, m: Node) {
    || t == m
    || ((t.Starred? || t.Attribute? || t.Subscript?) && LeadsTo(t.value, m))
    || ((t.ListExpr? || t.TupleExpr?) && exists e :: e in t.elts && LeadsTo(e, m))
  }

  predicate IsName(m: Node, x: string) {
    m.Name? && m.id == x
  }

  ghost predicate Takes(t: Node, x: string) {
    exists m :: UnpacksTo(t, m) && IsName(m, x)
  }

  ghost predicate Concerns(t: Node, x: string) {
    exists m :: LeadsTo(t, m) && IsName(m, x)
  }

  lemma {:induction false} NamesAreTaken(t: Node, x: string)
    ensures x in BindingNames(t) <==> Takes(t, x)
    decreases t, 1
  {
    assert IsName(t, x) ==> UnpacksTo(t, t);
    match t
    case Starred(v) =>
      NamesAreTaken(v, x);
      if m :| UnpacksTo(v, m) && IsName(m, x) {
        assert UnpacksTo(t, m);
      }
    case ListExpr(elts) => ElementsAreTaken(t, x);
    case TupleExpr(elts) => ElementsAreTaken(t, x);
    case _ =>
  }

  lemma ElementsAreTaken(t: Node, x: string)
    requires t.ListExpr? || t.TupleExpr?
    ensures x in BindingNamesAll(t.elts) <==> Takes(t, x)
    decreases t, 0
  {
    SomeNameIsTaken(t.elts, x);
    if e :| e in t.elts && Takes(e, x) {
      var m :| UnpacksTo(e, m) && IsName(m, x);
      assert UnpacksTo(t, m);
    }
    if m :| UnpacksTo(t, m) && IsName(m, x) {
      var e :| e in t.elts && UnpacksTo(e, m);
      assert Takes(e, x);
    }
  }

  lemma {:induction false} SomeNameIsTaken(ts: seq<Node>, x: string)
    ensures x in BindingNamesAll(ts) <==> exists t :: t in ts && Takes(t, x)
    decreases ts, 0
  {
    if ts != [] {
      NamesAreTaken(ts[0], x);
      SomeNameIsTaken(ts[1..], x);
    }
  }

  lemma {:induction false} TargetsAllExactlyWhen(t: Node)
    ensures TargetsAll(t) <==> Concerns(t, ALL)
    decreases t, 1
  {
    assert IsName(t, ALL) ==> LeadsTo(t, t);
    if t.Starred? || t.Attribute? || t.Subscript? {
      TargetsAllExactlyWhen(t.value);
      if m :| LeadsTo(t.value, m) && IsName(m, ALL) {
        assert LeadsTo(t, m);
      }
    } else if t.ListExpr? || t.TupleExpr? {
      ElementsConcern(t);
    }
  }

  lemma ElementsConcern(t: Node)
    requires t.ListExpr? || t.TupleExpr?
    ensures AnyTargetsAll(t.elts) <==> Concerns(t, ALL)
    decreases t, 0
  {
    SomeTargetConcerns(t.elts);
    if e :| e in t.elts && Concerns(e, ALL) {
      var m :| LeadsTo(e, m) && IsName(m, ALL);
      assert LeadsTo(t, m);
    }
    if m :| LeadsTo(t, m) && IsName(m, ALL) {
      var e :| e in t.elts && LeadsTo(e, m);
      assert Concerns(e, ALL);
    }
  }

  lemma {:induction false} SomeTargetConcerns(ts: seq<Node>)
    ensures AnyTargetsAll(ts) <==> exists t :: t in ts && Concerns(t, ALL)
    decreases ts, 0
  {
    if ts != [] {
      TargetsAllExactlyWhen(ts[0]);
      SomeTargetConcerns(ts[1..]);
    }
  }

  // ----- assignments -----

  function TargetsOf(n: Node): seq<Node> {
    match n
    case Assign(targets, _) => targets
    case AnnAssign(target, _, _) => [target]
    case AugAssign(target, _, _) => [target]
    case NamedExpr(target, _) => [target]
    case Delete(targets) => targets
    case _ => []
  }

  /** The names that the scan records for an assignment, annotated or not: all that its targets take apart. */
  lemma AssignedExactlyWhen(n: Node, x: string)
    requires n.Assign? || n.AnnAssign?
    ensures x in AssignedNamesAndValue(n).0 <==> exists t :: t in TargetsOf(n) && Takes(t, x)
    ensures AssignedNamesAndValue(n).1 == if n.Assign? then Some(n.value) else n.optValue
  {
    if n.Assign? {
      SomeNameIsTaken(n.targets, x);
    } else {
      NamesAreTaken(n.target, x);
    }
  }

  // ----- changes -----

  predicate ImportsAll(a: Alias) {
    a.asname == Some(ALL) || (a.asname.None? && a.name != [] && a.name[0] == ALL)
  }

  lemma {:induction false} ImportedExactlyWhen(names: seq<Alias>, skipStar: bool)
    ensures ALL in BoundNames(names, skipStar) <==>
            exists a :: a in names && ImportsAll(a) && (skipStar ==> a.name != ["*"])
  {
    if names != [] {
      ImportedExactlyWhen(names[1..], skipStar);
    }
  }

  ghost predicate HasTarget(m: Node) {
    exists t :: t in TargetsOf(m) && Concerns(t, ALL)
  }

  /** By an import of names; a star binds none that is known. */
  ghost predicate BindsByImport(m: Node) {
    || (m.Import? && exists a :: a in m.names && ImportsAll(a))
    || (m.ImportFrom? && exists a :: a in m.names && ImportsAll(a) && a.name != ["*"])
  }

  /**
   The shapes the linter knows: a name bound or deleted, a target that leads to one, a method of the bare name called,
   and definitions, imports, handlers and patterns that bind the name.
   */
  ghost predicate IsKnownShape(m: Node) {
    || (m.Name? && m.id == ALL && m.ctx != Load)
    || HasTarget(m)
    || (m.Call? && m.func.Attribute? && IsName(m.func.value, ALL))
    || ((m.FunctionDef? || m.ClassDef?) && m.name == ALL)
    || BindsByImport(m)
    || ((m.ExceptHandler? || m.MatchAs? || m.MatchStar?) && m.optName == Some(ALL))
  }

  lemma TargetsAreRecognised(m: Node)
    requires m.Assign? || m.AnnAssign? || m.AugAssign? || m.NamedExpr? || m.Delete?
    ensures MutatesAll(m) <==> HasTarget(m)
  {
    SomeTargetConcerns(TargetsOf(m));
    if m.AnnAssign? || m.AugAssign? || m.NamedExpr? {
      assert [m.target][1..] == [];
    }
  }

  lemma ImportsAreRecognised(m: Node)
    requires m.Import? || m.ImportFrom?
    ensures MutatesAll(m) <==> BindsByImport(m)
  {
    ImportedExactlyWhen(m.names, m.ImportFrom?);
  }

  lemma RecognisedExactlyWhen(m: Node)
    ensures MutatesAll(m) <==> IsKnownShape(m)
  {
    if m.Assign? || m.AnnAssign? || m.AugAssign? || m.NamedExpr? || m.Delete? {
      TargetsAreRecognised(m);
    } else {
      assert !HasTarget(m);
      if m.Import? || m.ImportFrom? {
        ImportsAreRecognised(m);
      }
    }
  }

  /** A statement shows a change exactly when a known shape is in view, other than its own plain targets. */
  lemma ShowsExactlyWhen(n: Node)
    ensures Shows(n) <==>
            || (n.AugAssign? && IsName(n.target, ALL))
            || exists m :: m in Preorder(Loose(n)) && IsKnownShape(m)
  {
    forall m
      ensures MutatesAll(m) <==> IsKnownShape(m)
    {
      RecognisedExactlyWhen(m);
    }
  }
}
