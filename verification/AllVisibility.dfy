/**
 Which changes of `__all__` the linter overlooks, told from the syntax alone, and that these are exactly the changes
 that can happen without being reported.
 */
module AllVisibility {
  import opened Wrappers
  import opened PythonAst
  import opened ExplicitAll
  import opened ModuleRuns
  import Traversal

  /** What a module body is made of. */
  predicate IsStatement(n: Node) {
    || n.Assign? || n.AnnAssign? || n.AugAssign? || n.Delete? || n.ExprStmt? || n.FunctionDef? || n.ClassDef?
    || n.Import? || n.ImportFrom? || n.Block?
  }

  /** `x` may be bound or changed in place when the nodes run. */
  predicate ChangedBy(ns: seq<Node>, bodies: seq<Node>, x: string) {
    exists m :: m in Executed(ns) && MayTouch(m, bodies, x)
  }

  /**
   The shapes in which a node changes `__all__` unnoticed: the rest of a mapping pattern, a star import, a subscript
   or an attribute stored into or deleted, a call that is handed the list or reaches it through anything but its bare
   name, a decorator or a class header that is handed it, a definition or a lambda whose defaults, decorators or class
   body change it, and whatever invokes something while a function or lambda of the module changes it.
   */
  predicate Hidden(m: Node, bodies: seq<Node>) {
    match m
    case MatchMapping(rest, _) => rest == Some(ALL)
    case ImportFrom(_, _) => IsStarImport(m)
    case Attribute(v, _, ctx) => ctx != Load && ALL in Sources(v, bodies)
    case Subscript(v, _, ctx) => ctx != Load && ALL in Sources(v, bodies)
    case Call(_, _) => (ALL in Mutates(m, bodies) && !IsMethodCallOnAll(m)) || ChangedBy(bodies, bodies, ALL)
    case FunctionDef(_, _, _, _) => HiddenInDefinition(m, bodies)
    case ClassDef(_, _, _, _) => HiddenInDefinition(m, bodies)
    case Lambda(_, _) => HiddenInDefinition(m, bodies)
    case _ => false
  }

  predicate HiddenInDefinition(m: Node, bodies: seq<Node>) {
    || ALL in Mutates(m, bodies)
    || ChangedBy(Reach(EagerParts(m), bodies), bodies, ALL)
    || (IsInvocation(m) && ChangedBy(bodies, bodies, ALL))
  }

  /** Outside of definitions there is a change the linter overlooks. */
  predicate Hides(n: Node, bodies: seq<Node>) {
    exists m :: m in Preorder(Loose(n)) && Hidden(m, bodies)
  }

  predicate Known(ns: seq<Node>) {
    exists m :: m in Preorder(ns) && MutatesAll(m)
  }

  /** Outside of definitions, and other than by plain assignment, there is a change in a shape the linter knows. */
  predicate Shows(n: Node) {
    Known(Loose(n)) || (IsPlainAugmented(n) && n.target.id == ALL)
  }

  // ----- what runs, and what is in view -----

  lemma {:induction false} ExecutedSplits(ns: seq<Node>, m: Node)
    requires m in Executed(ns)
    ensures m in Preorder(ns) || exists d :: d in Preorder(ns) && IsScope(d) && m in Executed(EagerParts(d))
    decreases SizeAll(ns), 1
  {
    if m in ExecutedBy(ns[0]) {
      ExecutedOfOneSplits(ns[0], m);
      assert forall d :: d in PreorderOf(ns[0]) ==> d in Preorder(ns);
    } else {
      ExecutedSplits(ns[1..], m);
      assert forall d :: d in Preorder(ns[1..]) ==> d in Preorder(ns);
    }
  }

  lemma {:induction false} ExecutedOfOneSplits(n: Node, m: Node)
    requires m in ExecutedBy(n)
    ensures m in PreorderOf(n) || exists d :: d in PreorderOf(n) && IsScope(d) && m in Executed(EagerParts(d))
    decreases Size(n), 0
  {
    if m != n && !IsScope(n) {
      SizeUnfolds(n);
      ExecutedSplits(Children(n), m);
      assert forall d :: d in Preorder(Children(n)) ==> d in PreorderOf(n);
    } else {
      assert n in PreorderOf(n);
    }
  }

  lemma {:induction false} InViewIsExecuted(ns: seq<Node>, m: Node)
    requires m in Preorder(ns)
    ensures m in Executed(ns)
    ensures forall p :: p in Executed(EagerParts(m)) ==> p in Executed(ns)
    decreases SizeAll(ns), 1
  {
    if m in PreorderOf(ns[0]) {
      InViewOfOneIsExecuted(ns[0], m);
    } else {
      InViewIsExecuted(ns[1..], m);
    }
  }

  lemma {:induction false} InViewOfOneIsExecuted(n: Node, m: Node)
    requires m in PreorderOf(n)
    ensures m in ExecutedBy(n)
    ensures forall p :: p in Executed(EagerParts(m)) ==> p in ExecutedBy(n)
    decreases Size(n), 0
  {
    if m != n {
      SizeUnfolds(n);
      InViewIsExecuted(Children(n), m);
    }
  }

  // ----- one node -----

  lemma {:induction false} PlainNamesAreTargets(targets: seq<Node>)
    ensures ALL in PlainNames(targets) ==> AnyTargetsAll(targets)
  {
    if targets != [] {
      PlainNamesAreTargets(targets[1..]);
    }
  }

  lemma {:induction false} ImportedIsBound(names: seq<Alias>, skipStar: bool)
    ensures ALL in ImportedAll(names) ==> ALL in BoundNames(names, skipStar)
  {
    if names != [] {
      ImportedIsBound(names[1..], skipStar);
    }
  }

  lemma BindingIsHiddenOrKnown(m: Node, bodies: seq<Node>)
    requires MayBind(m, ALL)
    ensures Hidden(m, bodies) || MutatesAll(m)
  {
    match m
    case Assign(targets, _) => PlainNamesAreTargets(targets);
    case AnnAssign(target, _, _) => PlainNamesAreTargets([target]);
    case AugAssign(target, _, _) => PlainNamesAreTargets([target]);
    case NamedExpr(target, _) => PlainNamesAreTargets([target]);
    case Import(names) => ImportedIsBound(names, false);
    case ImportFrom(_, names) => ImportedIsBound(names, true);
    case _ =>
  }

  lemma MutationIsHiddenOrKnown(m: Node, bodies: seq<Node>)
    requires ALL in Mutates(m, bodies)
    ensures Hidden(m, bodies) || MutatesAll(m)
  {
    if m.AugAssign? {
      PlainNamesAreTargets([m.target]);
    }
  }

  /** Every change by a node itself is overlooked or known. */
  lemma ChangeIsHiddenOrKnown(m: Node, bodies: seq<Node>)
    requires MayTouch(m, bodies, ALL)
    ensures Hidden(m, bodies) || MutatesAll(m)
  {
    if MayBind(m, ALL) {
      BindingIsHiddenOrKnown(m, bodies);
    } else {
      MutationIsHiddenOrKnown(m, bodies);
    }
  }

  // ----- what runs with a statement -----

  lemma ExecutedCons(n: Node, ns: seq<Node>)
    ensures Executed([n] + ns) == ExecutedBy(n) + Executed(ns)
  {
    assert ([n] + ns)[1..] == ns;
  }

  lemma {:induction false} ExecutedConcat(a: seq<Node>, b: seq<Node>)
    ensures Executed(a + b) == Executed(a) + Executed(b)
    decreases |a|
  {
    if a == [] {
      assert a + b == b;
    } else {
      var first, rest := [a[0]], a[1..];
      Traversal.Regroup(first, rest, b);
      assert first + rest == a;
      ExecutedCons(a[0], rest + b);
      ExecutedCons(a[0], rest);
      ExecutedConcat(rest, b);
      Traversal.Regroup(ExecutedBy(a[0]), Executed(rest), Executed(b));
    }
  }

  lemma ReachRuns(ns: seq<Node>, bodies: seq<Node>)
    ensures forall m :: m in Executed(Reach(ns, bodies)) <==>
              m in Executed(ns) || (Invokes(ns) && m in Executed(bodies))
  {
    ExecutedConcat(ns, bodies);
  }

  /** Where more runs, more is reached. */
  lemma ReachGrows(ns: seq<Node>, more: seq<Node>, bodies: seq<Node>)
    requires forall m :: m in Executed(ns) ==> m in Executed(more)
    ensures forall m :: m in Executed(Reach(ns, bodies)) ==> m in Executed(Reach(more, bodies))
    ensures Mentions(Reach(ns, bodies)) <= Mentions(Reach(more, bodies))
  {
    ReachRuns(ns, bodies);
    ReachRuns(more, bodies);
  }

  // ----- one statement -----

  lemma InvokingDefinitionHides(d: Node, bodies: seq<Node>, c: Node)
    requires IsScope(d) && c in Executed(EagerParts(d)) && IsInvocation(c) && ChangedBy(bodies, bodies, ALL)
    ensures Hidden(d, bodies)
  {
    ReachRuns(EagerParts(d), bodies);
    var m :| m in Executed(bodies) && MayTouch(m, bodies, ALL);
    assert Invokes(EagerParts(d)) && m in Executed(Reach(EagerParts(d), bodies));
    assert ChangedBy(Reach(EagerParts(d), bodies), bodies, ALL);
  }

  /** What is invoked by a node in view, or in a definition in view, is laid at its door. */
  lemma InvocationHides(n: Node, bodies: seq<Node>)
    requires Invokes(Loose(n)) && ChangedBy(bodies, bodies, ALL)
    ensures Hides(n, bodies)
  {
    var ns := Loose(n);
    var c :| c in Executed(ns) && IsInvocation(c);
    ExecutedSplits(ns, c);
    if c in Preorder(ns) {
      assert Hidden(c, bodies);
    } else {
      var d :| d in Preorder(ns) && IsScope(d) && c in Executed(EagerParts(d));
      InvokingDefinitionHides(d, bodies, c);
    }
  }

  lemma DefinitionHides(d: Node, bodies: seq<Node>, m: Node)
    requires IsScope(d) && m in Executed(EagerParts(d)) && MayTouch(m, bodies, ALL)
    ensures Hidden(d, bodies)
  {
    ReachRuns(EagerParts(d), bodies);
    assert ChangedBy(Reach(EagerParts(d), bodies), bodies, ALL);
  }

  lemma ChangeHidesOrShows(n: Node, bodies: seq<Node>)
    requires ChangedBy(Reach(Loose(n), bodies), bodies, ALL)
    ensures Hides(n, bodies) || Known(Loose(n))
  {
    var m :| m in Executed(Reach(Loose(n), bodies)) && MayTouch(m, bodies, ALL);
    ReachRuns(Loose(n), bodies);
    if m in Executed(Loose(n)) {
      ExecutedSplits(Loose(n), m);
      if m in Preorder(Loose(n)) {
        ChangeIsHiddenOrKnown(m, bodies);
      } else {
        var d :| d in Preorder(Loose(n)) && IsScope(d) && m in Executed(EagerParts(d));
        DefinitionHides(d, bodies, m);
      }
    } else {
      InvocationHides(n, bodies);
    }
  }

  lemma HiddenInvocationIsAChange(n: Node, bodies: seq<Node>, m: Node)
    requires m in Preorder(Loose(n)) && IsInvocation(m) && ChangedBy(bodies, bodies, ALL)
    ensures ChangedBy(Reach(Loose(n), bodies), bodies, ALL)
  {
    InViewIsExecuted(Loose(n), m);
    ReachRuns(Loose(n), bodies);
    assert Invokes(Loose(n));
  }

  lemma HiddenDefinitionIsAChange(n: Node, bodies: seq<Node>, m: Node)
    requires m in Preorder(Loose(n)) && ChangedBy(Reach(EagerParts(m), bodies), bodies, ALL)
    ensures ChangedBy(Reach(Loose(n), bodies), bodies, ALL)
  {
    InViewIsExecuted(Loose(n), m);
    ReachGrows(EagerParts(m), Loose(n), bodies);
  }

  lemma HidesIsAChange(n: Node, bodies: seq<Node>)
    requires Hides(n, bodies)
    ensures ChangedBy(Reach(Loose(n), bodies), bodies, ALL)
  {
    var m :| m in Preorder(Loose(n)) && Hidden(m, bodies);
    InViewIsExecuted(Loose(n), m);
    ReachRuns(Loose(n), bodies);
    if MayTouch(m, bodies, ALL) {
    } else if IsInvocation(m) && ChangedBy(bodies, bodies, ALL) {
      HiddenInvocationIsAChange(n, bodies, m);
    } else {
      HiddenDefinitionIsAChange(n, bodies, m);
    }
  }

  lemma KnownConcat(a: seq<Node>, b: seq<Node>)
    ensures Known(a + b) <==> Known(a) || Known(b)
  {
    Traversal.PreorderConcat(a, b);
  }

  lemma KnownOfOne(n: Node)
    ensures Known([n]) <==> MutatesAll(n) || (!IsScope(n) && Known(Children(n)))
  {
    assert [n][1..] == [] && PreorderOf(n) + Preorder([]) == PreorderOf(n);
    assert Preorder([n]) == PreorderOf(n);
    SizeUnfolds(n);
    var below := if IsScope(n) then [] else Preorder(Children(n));
    assert PreorderOf(n) == [n] + below;
    assert forall m :: m in PreorderOf(n) <==> m == n || m in below;
  }

  lemma {:induction false} KnownInTargets(targets: seq<Node>)
    ensures Known(DropPlainAll(targets)) <==> Known(OtherTargets(targets))
    ensures AnyTargetsAll(OtherTargets(targets)) <==> exists t :: t in targets && TargetsAll(t) && !t.Name?
  {
    if targets != [] {
      var first, rest := targets[0], targets[1..];
      KnownInTargets(rest);
      assert targets == [first] + rest;
      if first.Name? {
        if first.id == ALL {
          assert DropPlainAll(targets) == DropPlainAll(rest);
        } else {
          KnownOfPlainName(first);
          KnownConcat([first], DropPlainAll(rest));
        }
        assert OtherTargets(targets) == OtherTargets(rest);
      } else {
        KnownConcat([first], DropPlainAll(rest));
        KnownConcat([first], OtherTargets(rest));
        assert ([first] + OtherTargets(rest))[1..] == OtherTargets(rest);
      }
    }
  }

  lemma KnownOfPlainName(n: Node)
    requires n.Name? && n.id != ALL
    ensures !Known([n])
  {
    KnownOfOne(n);
  }

  lemma AssignmentIsReported(n: Node)
    requires n.Assign?
    ensures AllMutation(n, map[]).0 <==> Shows(n)
  {
    var others, value := OtherTargets(n.targets), n.value;
    KnownInTargets(n.targets);
    KnownConcat(DropPlainAll(n.targets), [value]);
    KnownConcat(others, [value]);
    if others != [] {
      KnownOfOne(Assign(others, value));
    }
  }

  lemma AnnotationIsReported(n: Node)
    requires n.AnnAssign?
    ensures AllMutation(n, map[]).0 <==> Shows(n)
  {
    var value := if n.optValue.Some? then [n.optValue.value] else [];
    var target := if IsNameAll(n.target) then [] else [n.target];
    assert NestedToScan(n) == Preorder(target + [n.annotation] + value);
    assert target + [n.annotation] + value == target + ([n.annotation] + value);
    KnownConcat(target, [n.annotation] + value);
    if n.target.Name? {
      if n.target.id != ALL {
        KnownOfPlainName(n.target);
      }
      assert Loose(n) == [n.annotation] + value;
    } else {
      assert Children(n) == target + ([n.annotation] + value);
      KnownOfOne(n);
    }
  }

  lemma AugmentationIsReported(n: Node)
    requires n.AugAssign?
    ensures AllMutation(n, map[]).0 <==> Shows(n)
  {
    if !n.target.Name? {
      KnownOfOne(n);
    } else if n.target.id != ALL {
      KnownOfPlainName(n.target);
      KnownConcat([n.target], [n.value]);
      assert [n.target] + [n.value] == Children(n);
    }
  }

  /** The linter reports a statement exactly when it shows a change. */
  lemma ReportedExactlyWhen(n: Node, values: Values)
    requires IsStatement(n)
    ensures AllMutation(n, values).0 <==> Shows(n)
  {
    match n
    case Assign(_, _) => AssignmentIsReported(n);
    case AnnAssign(_, _, _) => AnnotationIsReported(n);
    case AugAssign(_, _, _) => AugmentationIsReported(n);
    case _ => OtherIsReported(n);
  }

  lemma OtherIsReported(n: Node)
    requires IsStatement(n) && !n.Assign? && !n.AnnAssign? && !n.AugAssign?
    ensures AllMutation(n, map[]).0 <==> Shows(n)
  {
    KnownOfOne(n);
    if n.ExprStmt? {
      KnownOfOne(n.value);
    }
    if n.Delete? {
      AnyTargetIsOne(n.targets);
    }
  }

  lemma {:induction false} AnyTargetIsOne(targets: seq<Node>)
    ensures AnyTargetsAll(targets) <==> exists t :: t in targets && TargetsAll(t)
  {
    if targets != [] {
      AnyTargetIsOne(targets[1..]);
      assert targets[0] in targets;
      if AnyTargetsAll(targets[1..]) {
        var t :| t in targets[1..] && TargetsAll(t);
        assert t in targets;
      }
      if t :| t in targets && TargetsAll(t) {
        assert t == targets[0] || t in targets[1..];
      }
    }
  }

  /**
   The exact extent of the blind spot: running a statement can change `__all__` without a report, plain assignments
   to the name aside, if and only if the statement hides a change and shows none.
   */
  lemma OverlookedExactlyWhen(n: Node, bodies: seq<Node>)
    requires IsStatement(n)
    ensures ChangedBy(Reach(Loose(n), bodies), bodies, ALL) && !AllMutation(n, map[]).0
            <==> Hides(n, bodies) && !Shows(n)
  {
    ReportedExactlyWhen(n, map[]);
    if Hides(n, bodies) {
      HidesIsAChange(n, bodies);
    }
    if ChangedBy(Reach(Loose(n), bodies), bodies, ALL) {
      ChangeHidesOrShows(n, bodies);
    }
  }

  // ----- nothing else is reported -----

  /** What is written to: names, attributes and subscripts in this role, and lists of them. */
  predicate IsTarget(t: Node)
    decreases t, 1
  {
    match t
    case Name(_, ctx) => ctx != Load
    case Attribute(v, _, ctx) => ctx != Load && IsRead(v)
    case Subscript(v, _, ctx) => ctx != Load && IsRead(v)
    case Starred(v) => IsTarget(v)
    case ListExpr(elts) => AreTargets(elts)
    case TupleExpr(elts) => AreTargets(elts)
    case _ => true
  }

  predicate AreTargets(ts: seq<Node>)
    decreases ts, 0
  {
    ts == [] || (IsTarget(ts[0]) && AreTargets(ts[1..]))
  }

  /** What is only read on the way to a target. */
  predicate IsRead(e: Node)
    decreases e
  {
    match e
    case Name(_, ctx) => ctx == Load
    case Attribute(v, _, ctx) => ctx == Load && IsRead(v)
    case Subscript(v, _, ctx) => ctx == Load && IsRead(v)
    case _ => !TargetsAll(e)
  }

  /** The targets of a node are targets, and the receiver of a call is read. */
  predicate HasTargets(m: Node) {
    match m
    case Assign(targets, _) => AreTargets(targets)
    case AnnAssign(target, _, _) => IsTarget(target)
    case AugAssign(target, _, _) => IsTarget(target)
    case NamedExpr(target, _) => IsTarget(target)
    case Delete(targets) => AreTargets(targets)
    case Call(func, _) => func.Attribute? && func.value.Name? ==> func.value.ctx == Load
    case Import(names) => AreNamed(names, false)
    case ImportFrom(_, names) => AreNamed(names, true)
    case _ => true
  }

  /** Imported names are not empty, and only a `from` import has a star, with no new name. */
  predicate AreNamed(names: seq<Alias>, star: bool) {
    forall i: nat :: i < |names| ==> names[i].name != [] && (names[i].name == ["*"] ==> star && names[i].asname.None?)
  }

  lemma {:induction false} ReadMentionsAll(e: Node)
    requires IsRead(e) && TargetsAll(e)
    ensures ALL in Mentions([e])
    decreases e
  {
    ExecutedCons(e, []);
    assert [e] + [] == [e];
    match e
    case Name(_, _) => assert e in Executed([e]);
    case Attribute(v, _, _) =>
      ReadMentionsAll(v);
      assert Executed([v]) <= Executed([v]) + [];
      MentionedBelow(e, v, [v]);
    case Subscript(v, i, _) =>
      ReadMentionsAll(v);
      MentionedBelow(e, v, [v, i]);
    case _ =>
  }

  lemma MentionedBelow(e: Node, v: Node, parts: seq<Node>)
    requires EagerParts(e) == parts && parts != [] && parts[0] == v && ALL in Mentions([v])
    ensures ALL in Mentions([e])
  {
    assert [v] + parts[1..] == parts && [e] + [] == [e];
    ExecutedCons(e, []);
    ExecutedConcat([v], parts[1..]);
    var m :| m in Executed([v]) && m.Name? && m.ctx == Load && m.id == ALL;
    assert m in Executed([e]);
  }

  /** Through a target of `__all__`, the name is bound or its list changed. */
  lemma {:induction false} TargetChanges(t: Node, bodies: seq<Node>)
    requires IsTarget(t) && TargetsAll(t)
    ensures ChangedBy([t], bodies, ALL)
    decreases t, 1
  {
    assert [t] + [] == [t];
    ExecutedCons(t, []);
    match t
    case Name(_, _) => assert MayTouch(t, bodies, ALL);
    case Attribute(v, _, _) => StoreChanges(t, v, bodies);
    case Subscript(v, _, _) => StoreChanges(t, v, bodies);
    case Starred(v) =>
      TargetChanges(v, bodies);
      assert EagerParts(t) == [v];
    case ListExpr(elts) => SomeTargetChanges(elts, bodies);
    case TupleExpr(elts) => SomeTargetChanges(elts, bodies);
    case _ =>
  }

  lemma StoreChanges(t: Node, v: Node, bodies: seq<Node>)
    requires (t.Attribute? || t.Subscript?) && t.value == v && t.ctx != Load && IsRead(v) && TargetsAll(v)
    ensures ChangedBy([t], bodies, ALL)
  {
    assert [t] + [] == [t];
    ExecutedCons(t, []);
    ReadMentionsAll(v);
    ReachRuns([v], bodies);
    assert ALL in Sources(v, bodies);
    assert t in Executed([t]) && MayTouch(t, bodies, ALL);
  }

  lemma {:induction false} SomeTargetChanges(ts: seq<Node>, bodies: seq<Node>)
    requires AreTargets(ts) && AnyTargetsAll(ts)
    ensures ChangedBy(ts, bodies, ALL)
    decreases ts, 0
  {
    assert [ts[0]] + ts[1..] == ts;
    ExecutedConcat([ts[0]], ts[1..]);
    if TargetsAll(ts[0]) {
      TargetChanges(ts[0], bodies);
    } else {
      SomeTargetChanges(ts[1..], bodies);
    }
  }

  lemma PartsChange(m: Node, parts: seq<Node>, more: seq<Node>, bodies: seq<Node>)
    requires EagerParts(m) == parts + more && ChangedBy(parts, bodies, ALL)
    ensures ChangedBy([m], bodies, ALL)
  {
    assert [m] + [] == [m];
    ExecutedCons(m, []);
    ExecutedConcat(parts, more);
    var p :| p in Executed(parts) && MayTouch(p, bodies, ALL);
    assert p in Executed([m]);
  }

  lemma {:induction false} BoundIsImported(names: seq<Alias>, skipStar: bool)
    requires AreNamed(names, skipStar)
    ensures ALL in BoundNames(names, skipStar) ==> ALL in ImportedAll(names)
  {
    if names != [] {
      BoundIsImported(names[1..], skipStar);
    }
  }

  /** A shape the linter knows is a change: of a node with proper targets it never claims one that cannot be. */
  lemma KnownIsAChange(m: Node, bodies: seq<Node>)
    requires MutatesAll(m) && HasTargets(m)
    ensures ChangedBy([m], bodies, ALL)
  {
    assert [m] + [] == [m];
    ExecutedCons(m, []);
    match m
    case Assign(targets, v) =>
      SomeTargetChanges(targets, bodies);
      PartsChange(m, targets, [v], bodies);
    case AnnAssign(target, a, v) =>
      TargetChanges(target, bodies);
      PartsChange(m, [target], EagerParts(m)[1..], bodies);
    case AugAssign(target, _, v) =>
      TargetChanges(target, bodies);
      PartsChange(m, [target], [v], bodies);
    case NamedExpr(target, v) =>
      TargetChanges(target, bodies);
      PartsChange(m, [target], [v], bodies);
    case Delete(targets) =>
      SomeTargetChanges(targets, bodies);
      PartsChange(m, targets, [], bodies);
    case Call(_, _) => MethodCallChanges(m, bodies);
    case Import(names) =>
      BoundIsImported(names, false);
      assert m in Executed([m]) && MayTouch(m, bodies, ALL);
    case ImportFrom(_, names) =>
      BoundIsImported(names, true);
      assert m in Executed([m]) && MayTouch(m, bodies, ALL);
    case Name(_, _) => assert m in Executed([m]) && MayTouch(m, bodies, ALL);
    case FunctionDef(_, _, _, _) => assert m in Executed([m]) && MayTouch(m, bodies, ALL);
    case ClassDef(_, _, _, _) => assert m in Executed([m]) && MayTouch(m, bodies, ALL);
    case ExceptHandler(_, _) => assert m in Executed([m]) && MayTouch(m, bodies, ALL);
    case MatchAs(_, _) => assert m in Executed([m]) && MayTouch(m, bodies, ALL);
    case MatchStar(_) => assert m in Executed([m]) && MayTouch(m, bodies, ALL);
  }

  lemma MethodCallChanges(m: Node, bodies: seq<Node>)
    requires IsMethodCallOnAll(m) && HasTargets(m)
    ensures ChangedBy([m], bodies, ALL)
  {
    assert [m] + [] == [m] && [m.func] + m.args == EagerParts(m);
    ExecutedCons(m, []);
    ReadMentionsAll(m.func.value);
    MentionedBelow(m.func, m.func.value, [m.func.value]);
    ExecutedConcat([m.func], m.args);
    ReachRuns([m.func] + m.args, bodies);
    var n :| n in Executed([m.func]) && n.Name? && n.ctx == Load && n.id == ALL;
    assert ALL in Mutates(m, bodies);
    assert m in Executed([m]);
  }

  /** So a statement whose targets are targets is reported only if running it can change `__all__`. */
  lemma ReportedIsAChange(n: Node, values: Values, bodies: seq<Node>)
    requires IsStatement(n) && forall m :: m in Preorder(Loose(n)) ==> HasTargets(m)
    requires AllMutation(n, values).0
    ensures ChangedBy(Reach(Loose(n), bodies), bodies, ALL) || (IsPlainAugmented(n) && n.target.id == ALL)
  {
    ReportedExactlyWhen(n, values);
    if Known(Loose(n)) {
      var m :| m in Preorder(Loose(n)) && MutatesAll(m);
      KnownIsAChange(m, bodies);
      InViewIsExecuted(Loose(n), m);
      ReachRuns(Loose(n), bodies);
      assert [m] + [] == [m];
      ExecutedCons(m, []);
      var p :| p in Executed([m]) && MayTouch(p, bodies, ALL);
      assert p in Executed(Loose(n));
    }
  }
}
