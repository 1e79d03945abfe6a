/**
 What the import map holds for every name: the last import alias that binds it decides. And so which calls are reported
 as `importlib.import_module` in a module of imports and assignments.
 */
module ImportNames {
  import opened Wrappers
  import opened PythonAst
  import opened ExplicitAll
  import opened AliasBindings

  /** `alias` makes `x` a name of the module: by `as`, or by the first component of what is imported. */
  predicate Names(alias: Alias, x: string) {
    alias.asname == Some(x) || (alias.asname.None? && alias.name != [] && alias.name[0] == x)
  }

  /** The aliases of an `import`, or of a `from` import of a named module. */
  function AliasesOf(n: Node): seq<Alias> {
    if n.Import? || (n.ImportFrom? && n.mod != []) then n.names else []
  }

  /** The dotted name an alias stands for. */
  function Meaning(n: Node, alias: Alias): Dotted {
    if n.ImportFrom? then n.mod + alias.name else alias.name
  }

  /** Every alias has a name, as the grammar demands. */
  predicate WellFormed(walked: seq<Node>) {
    forall n, a :: n in walked && a in AliasesOf(n) ==> a.name != []
  }

  /** The `j`-th alias of the `i`-th node binds `x`, and no later one does. */
  ghost predicate BoundLast(walked: seq<Node>, i: nat, j: nat, x: string) {
    && i < |walked| && j < |AliasesOf(walked[i])| && Names(AliasesOf(walked[i])[j], x)
    && (forall l :: j < l < |AliasesOf(walked[i])| ==> !Names(AliasesOf(walked[i])[l], x))
    && (forall k, a :: i < k < |walked| && a in AliasesOf(walked[k]) ==> !Names(a, x))
  }

  ghost predicate Unbound(walked: seq<Node>, x: string) {
    forall n, a :: n in walked && a in AliasesOf(n) ==> !Names(a, x)
  }

  lemma {:induction false} AliasesKeep(names: seq<Alias>, prefix: Dotted, bindings: Bindings, x: string)
    requires forall a :: a in names ==> a.name != [] && !Names(a, x)
    ensures x in BindAliases(names, prefix, bindings) <==> x in bindings
    ensures x in bindings ==> BindAliases(names, prefix, bindings)[x] == bindings[x]
    decreases |names|
  {
    if names != [] {
      assert names[0] in names && forall a :: a in names[1..] ==> a in names;
      AliasesKeep(names[1..], prefix, bindings[BoundName(names[0]) := prefix + names[0].name], x);
    }
  }

  lemma {:induction false} LastAliasBinds(names: seq<Alias>, prefix: Dotted, bindings: Bindings, x: string, j: nat)
    requires forall a :: a in names ==> a.name != []
    requires j < |names| && Names(names[j], x) && forall l :: j < l < |names| ==> !Names(names[l], x)
    ensures x in BindAliases(names, prefix, bindings)
    ensures BindAliases(names, prefix, bindings)[x] == prefix + names[j].name
    decreases |names|
  {
    var bound := bindings[BoundName(names[0]) := prefix + names[0].name];
    assert names[0] in names && forall a :: a in names[1..] ==> a in names;
    if j == 0 {
      forall a | a in names[1..]
        ensures !Names(a, x)
      {
        var l :| 0 <= l < |names[1..]| && names[1..][l] == a;
        assert names[l + 1] == a;
      }
      AliasesKeep(names[1..], prefix, bound, x);
    } else {
      assert forall l :: j - 1 < l < |names[1..]| ==> names[1..][l] == names[l + 1];
      LastAliasBinds(names[1..], prefix, bound, x, j - 1);
    }
  }

  lemma NodeBinds(n: Node, bindings: Bindings, x: string, j: nat)
    requires forall a :: a in AliasesOf(n) ==> a.name != []
    requires j < |AliasesOf(n)| && Names(AliasesOf(n)[j], x)
    requires forall l :: j < l < |AliasesOf(n)| ==> !Names(AliasesOf(n)[l], x)
    ensures x in BindImport(n, bindings) && BindImport(n, bindings)[x] == Meaning(n, AliasesOf(n)[j])
  {
    if n.Import? {
      LastAliasBinds(n.names, [], bindings, x, j);
      assert [] + n.names[j].name == n.names[j].name;
    } else {
      LastAliasBinds(n.names, n.mod, bindings, x, j);
    }
  }

  lemma NodeKeeps(n: Node, bindings: Bindings, x: string)
    requires forall a :: a in AliasesOf(n) ==> a.name != [] && !Names(a, x)
    ensures x in BindImport(n, bindings) <==> x in bindings
    ensures x in bindings ==> BindImport(n, bindings)[x] == bindings[x]
  {
    if n.Import? {
      AliasesKeep(n.names, [], bindings, x);
    } else if n.ImportFrom? && n.mod != [] {
      AliasesKeep(n.names, n.mod, bindings, x);
    }
  }

  /** The last alias that binds a name gives its meaning. */
  lemma {:induction false} LastImportDecides(walked: seq<Node>, i: nat, j: nat, x: string)
    requires WellFormed(walked) && BoundLast(walked, i, j, x)
    ensures x in ImportMap(walked) && ImportMap(walked)[x] == Meaning(walked[i], AliasesOf(walked[i])[j])
    decreases |walked|
  {
    var front, last := walked[..|walked| - 1], walked[|walked| - 1];
    assert last in walked && forall n :: n in front ==> n in walked;
    if i == |walked| - 1 {
      NodeBinds(last, ImportMap(front), x, j);
    } else {
      assert front[i] == walked[i] && forall k :: i < k < |front| ==> front[k] == walked[k];
      LastImportDecides(front, i, j, x);
      NodeKeeps(last, ImportMap(front), x);
    }
  }

  /** A name that no import binds is absent. */
  lemma {:induction false} UnboundIsAbsent(walked: seq<Node>, x: string)
    requires WellFormed(walked) && Unbound(walked, x)
    ensures x !in ImportMap(walked)
    decreases |walked|
  {
    if walked != [] {
      var front, last := walked[..|walked| - 1], walked[|walked| - 1];
      assert last in walked && forall n :: n in front ==> n in walked;
      UnboundIsAbsent(front, x);
      NodeKeeps(last, ImportMap(front), x);
    }
  }

  /** What an alias stands for is never empty, so the map can be followed. */
  lemma {:induction false} ImportMapIsNonEmpty(walked: seq<Node>)
    requires WellFormed(walked)
    ensures NonEmpty(ImportMap(walked))
    decreases |walked|
  {
    if walked != [] {
      var front, last := walked[..|walked| - 1], walked[|walked| - 1];
      assert last in walked && forall n :: n in front ==> n in walked;
      ImportMapIsNonEmpty(front);
      if last.Import? {
        AliasesAreNonEmpty(last.names, [], ImportMap(front));
      } else if last.ImportFrom? && last.mod != [] {
        AliasesAreNonEmpty(last.names, last.mod, ImportMap(front));
      }
    }
  }

  lemma {:induction false} AliasesAreNonEmpty(names: seq<Alias>, prefix: Dotted, bindings: Bindings)
    requires NonEmpty(bindings) && forall a :: a in names ==> a.name != []
    ensures NonEmpty(BindAliases(names, prefix, bindings))
    decreases |names|
  {
    if names != [] {
      assert names[0] in names && forall a :: a in names[1..] ==> a in names;
      assert prefix + names[0].name != [];
      AliasesAreNonEmpty(names[1..], prefix, bindings[BoundName(names[0]) := prefix + names[0].name]);
    }
  }

  // ----- the assignments -----

  /** All assignments of the walk, annotated ones too, in its order. */
  lemma {:induction false} AssignmentsConcat(a: seq<Node>, b: seq<Node>)
    ensures Assignments(a + b) == Assignments(a) + Assignments(b)
    decreases |b|
  {
    if b == [] {
      assert a + b == a;
    } else {
      AssignmentsConcat(a, b[..|b| - 1]);
      assert (a + b)[..|a + b| - 1] == a + b[..|b| - 1];
    }
  }

  lemma {:induction false} AssignmentsAreWalked(walked: seq<Node>, n: Node)
    ensures n in Assignments(walked) <==> n in walked && (n.Assign? || n.AnnAssign?)
    decreases |walked|
  {
    if walked != [] {
      AssignmentsAreWalked(walked[..|walked| - 1], n);
      assert walked == walked[..|walked| - 1] + [walked[|walked| - 1]];
    }
  }

  // ----- what is reported -----

  /** The bindings the linter uses. */
  function AllBindings(walked: seq<Node>): Bindings {
    Rounds(Assignments(walked), ImportMap(walked), |Assignments(walked)| + 1)
  }

  /** The chain starts, through any assignments, at `y`, and adds `path` on the way. */
  ghost predicate LeadsTo(assignments: seq<Node>, rank: seq<nat>, node: Node, y: string, path: Dotted)
    requires Acyclic(assignments, rank)
  {
    IsChain(node) && forall imports :: ExpandChain(assignments, rank, imports, node) == Lookup(imports, y) + path
  }

  /** A name that no assignment aliases leads to itself, and a chain on it to its attributes. */
  lemma UnassignedLeadsToItself(assignments: seq<Node>, rank: seq<nat>, node: Node)
    requires Acyclic(assignments, rank) && IsChain(node)
    requires forall n :: n in assignments ==> Base(node) !in AliasNames(n)
    ensures LeadsTo(assignments, rank, node, Base(node), Attributes(node))
  {
    assert Definer(assignments, Base(node)) == |assignments|;
  }

  lemma AliasExpands(assignments: seq<Node>, rank: seq<nat>, imports: Bindings, node: Node, i: nat)
    requires Acyclic(assignments, rank) && WriteOnce(assignments) && IsChain(node)
    requires i < |assignments| && Base(node) in AliasNames(assignments[i])
    ensures IsChain(AliasValue(assignments[i]))
    ensures ExpandChain(assignments, rank, imports, node)
         == ExpandChain(assignments, rank, imports, AliasValue(assignments[i])) + Attributes(node)
  {
    assert Definer(assignments, Base(node)) == i;
  }

  lemma AliasLeadsOn(assignments: seq<Node>, rank: seq<nat>, node: Node, i: nat, y: string, path: Dotted)
    requires Acyclic(assignments, rank) && WriteOnce(assignments) && IsChain(node)
    requires i < |assignments| && Base(node) in AliasNames(assignments[i])
    requires LeadsTo(assignments, rank, AliasValue(assignments[i]), y, path)
    ensures LeadsTo(assignments, rank, node, y, path + Attributes(node))
  {
    forall imports
      ensures ExpandChain(assignments, rank, imports, node) == Lookup(imports, y) + (path + Attributes(node))
    {
      AliasExpands(assignments, rank, imports, node, i);
      assert ExpandChain(assignments, rank, imports, AliasValue(assignments[i])) == Lookup(imports, y) + path;
      assert (Lookup(imports, y) + path) + Attributes(node) == Lookup(imports, y) + (path + Attributes(node));
    }
  }

  /** A call through any chain is reported exactly when the import behind it and the path make up the function. */
  lemma ReportedExactlyWhenImported(walked: seq<Node>, rank: seq<nat>, callee: Node, i: nat, j: nat, y: string,
                                    path: Dotted)
    requires WellFormed(walked) && BoundLast(walked, i, j, y)
    requires Acyclic(Assignments(walked), rank) && WriteOnce(Assignments(walked))
    requires LeadsTo(Assignments(walked), rank, callee, y, path)
    ensures IsReported(callee, AllBindings(walked)) <==>
            Meaning(walked[i], AliasesOf(walked[i])[j]) + path == ["importlib", "import_module"]
  {
    ImportMapIsNonEmpty(walked);
    LastImportDecides(walked, i, j, y);
    ReportedThroughAnyChain(Assignments(walked), rank, ImportMap(walked), callee);
    assert ExpandChain(Assignments(walked), rank, ImportMap(walked), callee) == Lookup(ImportMap(walked), y) + path;
  }

  /** `from importlib import import_module as y`, then a call of `y` itself or of anything assigned from it. */
  lemma RenamedLocatorIsReported(walked: seq<Node>, rank: seq<nat>, callee: Node, i: nat, y: string)
    requires WellFormed(walked) && BoundLast(walked, i, 0, y)
    requires walked[i] == ImportFrom(["importlib"], [Alias(["import_module"], Some(y))])
    requires Acyclic(Assignments(walked), rank) && WriteOnce(Assignments(walked))
    requires LeadsTo(Assignments(walked), rank, callee, y, [])
    ensures IsReported(callee, AllBindings(walked))
  {
    ReportedExactlyWhenImported(walked, rank, callee, i, 0, y, []);
    assert ["importlib"] + ["import_module"] + [] == ["importlib", "import_module"];
  }
}
