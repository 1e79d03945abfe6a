/**
 The linter's alias map: which dotted name each local name stands for. Imports give the initial
 map; assignments of names and attribute chains are then applied in rounds until nothing changes.
 */
module AliasBindings {
  import opened Wrappers
  import opened PythonAst
  import opened ExplicitAll

  type Bindings = map<string, Dotted>

  function Lookup(bindings: Bindings, id: string): Dotted {
    if id in bindings then bindings[id] else [id]
  }

  function QualifiedName(node: Node, bindings: Bindings): Option<Dotted> {
    match node
    case Name(id, _) => Some(Lookup(bindings, id))
    case Attribute(v, attr, _) =>
      var owner := QualifiedName(v, bindings);
      if owner.Some? && owner.value != [] then Some(owner.value + [attr]) else None
    case _ => None
  }

  // ----- imports -----

  function BindAliases(names: seq<Alias>, prefix: Dotted, bindings: Bindings): Bindings
    decreases |names|
  {
    if names == [] then bindings
    else BindAliases(names[1..], prefix, bindings[BoundName(names[0]) := prefix + names[0].name])
  }

  function BindImport(node: Node, bindings: Bindings): Bindings {
    match node
    case Import(names) => BindAliases(names, [], bindings)
    case ImportFrom(mod, names) => if mod == [] then bindings else BindAliases(names, mod, bindings)
    case _ => bindings
  }

  function ImportMap(walked: seq<Node>): Bindings {
    if walked == [] then map[]
    else BindImport(walked[|walked| - 1], ImportMap(walked[..|walked| - 1]))
  }

  predicate IsAssignment(n: Node) {
    n.Assign? || n.AnnAssign?
  }

  function Assignments(walked: seq<Node>): seq<Node> {
    if walked == [] then []
    else Assignments(walked[..|walked| - 1]) +
         (if IsAssignment(walked[|walked| - 1]) then [walked[|walked| - 1]] else [])
  }

  // ----- rounds -----

  function QualifiedValue(node: Node, bindings: Bindings): Option<Dotted> {
    var value := AssignedNamesAndValue(node).1;
    if value.Some? then QualifiedName(value.value, bindings) else None
  }

  function Apply(node: Node, bindings: Bindings): Bindings {
    var qualified := QualifiedValue(node, bindings);
    if qualified.None? then bindings
    else BindEach(bindings, AssignedNamesAndValue(node).0, qualified.value)
  }

  /** One pass over the assignments, each seeing the updates before it. */
  function Round(assignments: seq<Node>, bindings: Bindings): Bindings {
    if assignments == [] then bindings
    else Apply(assignments[|assignments| - 1], Round(assignments[..|assignments| - 1], bindings))
  }

  function Rounds(assignments: seq<Node>, bindings: Bindings, k: nat): Bindings {
    if k == 0 then bindings else Round(assignments, Rounds(assignments, bindings, k - 1))
  }

  lemma {:induction false} StableForGood(assignments: seq<Node>, bindings: Bindings, j: nat, k: nat)
    requires j <= k
    requires Round(assignments, Rounds(assignments, bindings, j)) == Rounds(assignments, bindings, j)
    ensures Rounds(assignments, bindings, k) == Rounds(assignments, bindings, j)
  {
    if j < k {
      StableForGood(assignments, bindings, j, k - 1);
    }
  }

  method BindNames(names: seq<string>, qualified: Dotted, known: Bindings) returns (bindings: Bindings, changed: bool)
    ensures bindings == BindEach(known, names, qualified)
    ensures !changed ==> bindings == known
  {
    bindings, changed := known, false;
    for i := 0 to |names|
      invariant forall x :: x in bindings <==> x in known || x in names[..i]
      invariant forall x :: x in bindings ==> bindings[x] == if x in names[..i] then qualified else known[x]
      invariant !changed ==> bindings == known
    {
      assert names[..i + 1] == names[..i] + [names[i]];
      if names[i] !in bindings || bindings[names[i]] != qualified {
        bindings := bindings[names[i] := qualified];
        changed := true;
      }
    }
    assert names[..|names|] == names;
  }

  /** Stops at the first round that changes nothing, and gives up after `|assignments| + 1`. */
  method ExtendAssignmentBindings(assignments: seq<Node>, imports: Bindings) returns (bindings: Bindings)
    ensures bindings == Rounds(assignments, imports, |assignments| + 1)
  {
    bindings := imports;
    for k := 0 to |assignments| + 1
      invariant bindings == Rounds(assignments, imports, k)
    {
      var changed := false;
      ghost var before := bindings;
      for i := 0 to |assignments|
        invariant bindings == Round(assignments[..i], before)
        invariant !changed ==> bindings == before
      {
        assert assignments[..i + 1][..i] == assignments[..i];
        var (names, value) := AssignedNamesAndValue(assignments[i]);
        var qualified := if value.Some? then QualifiedName(value.value, bindings) else None;
        if qualified.None? {
          continue;
        }
        var moved;
        bindings, moved := BindNames(names, qualified.value, bindings);
        changed := changed || moved;
      }
      assert assignments[..|assignments|] == assignments;
      if !changed {
        StableForGood(assignments, imports, k, |assignments| + 1);
        return;
      }
    }
  }

  /** The import map of a module, extended by its assignments. */
  method ImportBindings(walked: seq<Node>) returns (bindings: Bindings)
    ensures bindings == Rounds(Assignments(walked), ImportMap(walked), |Assignments(walked)| + 1)
  {
    bindings := map[];
    var assignments := [];
    for i := 0 to |walked|
      invariant bindings == ImportMap(walked[..i]) && assignments == Assignments(walked[..i])
    {
      assert walked[..i + 1][..i] == walked[..i];
      var node := walked[i];
      if node.Import? {
        bindings := BindAliases(node.names, [], bindings);
      } else if node.ImportFrom? && node.mod != [] {
        bindings := BindAliases(node.names, node.mod, bindings);
      }
      if IsAssignment(node) {
        assignments := assignments + [node];
      }
    }
    assert walked[..|walked|] == walked;
    bindings := ExtendAssignmentBindings(assignments, bindings);
  }

  // ----- full expansion -----

  predicate IsChain(node: Node) {
    match node
    case Name(_, _) => true
    case Attribute(v, _, _) => IsChain(v)
    case _ => false
  }

  function Base(node: Node): string
    requires IsChain(node)
  {
    match node
    case Name(id, _) => id
    case Attribute(v, _, _) => Base(v)
  }

  function Attributes(node: Node): Dotted
    requires IsChain(node)
  {
    match node
    case Name(_, _) => []
    case Attribute(v, attr, _) => Attributes(v) + [attr]
  }

  predicate IsAlias(node: Node) {
    AssignedNamesAndValue(node).1.Some? && IsChain(AssignedNamesAndValue(node).1.value)
  }

  function AliasNames(node: Node): seq<string> {
    if IsAlias(node) then AssignedNamesAndValue(node).0 else []
  }

  function AliasValue(node: Node): Node
    requires IsAlias(node)
  {
    AssignedNamesAndValue(node).1.value
  }

  /** No name is given an alias by two assignments. */
  predicate WriteOnce(assignments: seq<Node>) {
    forall i, j, x :: 0 <= i < j < |assignments| && x in AliasNames(assignments[i]) ==> x !in AliasNames(assignments[j])
  }

  /** Some ranking puts every assignment above the one its value starts from. */
  predicate Acyclic(assignments: seq<Node>, rank: seq<nat>) {
    && |rank| == |assignments|
    && forall i, j | 0 <= i < |assignments| && 0 <= j < |assignments| && IsAlias(assignments[i]) ::
         Base(AliasValue(assignments[i])) in AliasNames(assignments[j]) ==> rank[j] < rank[i]
  }

  predicate NonEmpty(bindings: Bindings) {
    forall x :: x in bindings ==> bindings[x] != []
  }

  /** The assignment that makes `x` an alias, or `|assignments|` if there is none. */
  function Definer(assignments: seq<Node>, x: string): (i: nat)
    ensures i <= |assignments|
    ensures i < |assignments| ==> x in AliasNames(assignments[i])
    ensures forall j :: 0 <= j < i ==> x !in AliasNames(assignments[j])
  {
    if assignments == [] then 0
    else if x in AliasNames(assignments[0]) then 0
    else
      var i := Definer(assignments[1..], x);
      assert forall j :: 0 < j < i + 1 ==> assignments[j] == assignments[1..][j - 1];
      i + 1
  }

  /** What `x` stands for once every alias has been followed back to an import. */
  function Expand(assignments: seq<Node>, rank: seq<nat>, imports: Bindings, x: string): Dotted
    requires Acyclic(assignments, rank)
    decreases var i := Definer(assignments, x); if i < |assignments| then rank[i] + 1 else 0
  {
    var i := Definer(assignments, x);
    if i == |assignments| then Lookup(imports, x)
    else
      Expand(assignments, rank, imports, Base(AliasValue(assignments[i]))) + Attributes(AliasValue(assignments[i]))
  }

  function ExpandChain(assignments: seq<Node>, rank: seq<nat>, imports: Bindings, node: Node): Dotted
    requires Acyclic(assignments, rank) && IsChain(node)
  {
    Expand(assignments, rank, imports, Base(node)) + Attributes(node)
  }

  /** The length of the chain of assignments behind `x`. */
  function Depth(assignments: seq<Node>, rank: seq<nat>, x: string): nat
    requires Acyclic(assignments, rank)
    decreases var i := Definer(assignments, x); if i < |assignments| then rank[i] + 1 else 0
  {
    var i := Definer(assignments, x);
    if i == |assignments| then 0 else 1 + Depth(assignments, rank, Base(AliasValue(assignments[i])))
  }

  lemma {:induction false} Definers(assignments: seq<Node>, rank: seq<nat>, x: string) returns (chain: set<nat>)
    requires Acyclic(assignments, rank)
    ensures |chain| == Depth(assignments, rank, x)
    ensures forall i :: i in chain ==> i < |assignments|
    ensures forall i :: i in chain ==>
              Definer(assignments, x) < |assignments| && rank[i] <= rank[Definer(assignments, x)]
    decreases var i := Definer(assignments, x); if i < |assignments| then rank[i] + 1 else 0
  {
    var i := Definer(assignments, x);
    if i == |assignments| {
      chain := {};
    } else {
      chain := Definers(assignments, rank, Base(AliasValue(assignments[i])));
      assert i !in chain;
      chain := chain + {i};
    }
  }

  /** A chain passes through each assignment at most once. */
  lemma DepthIsBounded(assignments: seq<Node>, rank: seq<nat>, x: string)
    requires Acyclic(assignments, rank)
    ensures Depth(assignments, rank, x) <= |assignments|
  {
    var chain := Definers(assignments, rank, x);
    SubsetSize(chain, Indices(|assignments|));
  }

  function Indices(n: nat): (r: set<nat>)
    ensures |r| == n
    ensures forall i: nat :: i in r <==> i < n
  {
    if n == 0 then {} else Indices(n - 1) + {n - 1}
  }

  lemma {:induction false} SubsetSize(a: set<nat>, b: set<nat>)
    requires a <= b
    ensures |a| <= |b|
  {
    if a != {} {
      var x :| x in a;
      SubsetSize(a - {x}, b - {x});
    }
  }

  // ----- convergence -----

  lemma {:induction false} ChainIsQualified(node: Node, bindings: Bindings)
    requires NonEmpty(bindings)
    ensures QualifiedName(node, bindings) ==
            if IsChain(node) then Some(Lookup(bindings, Base(node)) + Attributes(node)) else None
  {
    match node
    case Name(id, _) => assert Lookup(bindings, id) + [] == Lookup(bindings, id);
    case Attribute(v, attr, _) =>
      ChainIsQualified(v, bindings);
      if IsChain(v) {
        var root := Lookup(bindings, Base(v));
        assert root + (Attributes(v) + [attr]) == (root + Attributes(v)) + [attr];
      }
    case _ =>
  }

  /** After `k` rounds, names at depth `k` are right; in the next round, so are the deeper names already passed. */
  ghost predicate Settled(assignments: seq<Node>, rank: seq<nat>, imports: Bindings, bindings: Bindings,
                          k: nat, passed: nat)
    requires Acyclic(assignments, rank)
  {
    && NonEmpty(bindings)
    && forall x :: Depth(assignments, rank, x) <= k
                   || (Depth(assignments, rank, x) == k + 1 && Definer(assignments, x) < passed) ==>
         Lookup(bindings, x) == Expand(assignments, rank, imports, x)
  }

  lemma ApplySettles(assignments: seq<Node>, rank: seq<nat>, imports: Bindings, bindings: Bindings, k: nat, i: nat)
    requires Acyclic(assignments, rank) && WriteOnce(assignments) && i < |assignments|
    requires Settled(assignments, rank, imports, bindings, k, i)
    ensures Settled(assignments, rank, imports, Apply(assignments[i], bindings), k, i + 1)
  {
    var node := assignments[i];
    var after := Apply(node, bindings);
    if AssignedNamesAndValue(node).1.Some? {
      ChainIsQualified(AssignedNamesAndValue(node).1.value, bindings);
    }
    forall x | Depth(assignments, rank, x) <= k
               || (Depth(assignments, rank, x) == k + 1 && Definer(assignments, x) < i + 1)
      ensures Lookup(after, x) == Expand(assignments, rank, imports, x)
    {
      if x in AliasNames(node) {
        assert Definer(assignments, x) == i;
      } else {
        assert Definer(assignments, x) != i;
        assert Lookup(after, x) == Lookup(bindings, x);
      }
    }
  }

  lemma {:induction false} RoundSettles(assignments: seq<Node>, rank: seq<nat>, imports: Bindings, bindings: Bindings,
                                        k: nat, i: nat)
    requires Acyclic(assignments, rank) && WriteOnce(assignments) && i <= |assignments|
    requires Settled(assignments, rank, imports, bindings, k, 0)
    ensures Settled(assignments, rank, imports, Round(assignments[..i], bindings), k, i)
  {
    if i > 0 {
      RoundSettles(assignments, rank, imports, bindings, k, i - 1);
      assert assignments[..i][..i - 1] == assignments[..i - 1];
      ApplySettles(assignments, rank, imports, Round(assignments[..i - 1], bindings), k, i - 1);
    }
  }

  lemma {:induction false} RoundsSettle(assignments: seq<Node>, rank: seq<nat>, imports: Bindings, k: nat)
    requires Acyclic(assignments, rank) && WriteOnce(assignments) && NonEmpty(imports)
    ensures Settled(assignments, rank, imports, Rounds(assignments, imports, k), k, 0)
  {
    if k > 0 {
      RoundsSettle(assignments, rank, imports, k - 1);
      RoundSettles(assignments, rank, imports, Rounds(assignments, imports, k - 1), k - 1, |assignments|);
      assert assignments[..|assignments|] == assignments;
    }
  }

  /**
   Convergence: whatever the order of the assignments, `|assignments|` rounds expand every name fully,
   and further rounds change no name.
   */
  lemma RoundsExpandFully(assignments: seq<Node>, rank: seq<nat>, imports: Bindings, x: string, k: nat)
    requires Acyclic(assignments, rank) && WriteOnce(assignments) && NonEmpty(imports)
    requires k >= |assignments|
    ensures Lookup(Rounds(assignments, imports, k), x) == Expand(assignments, rank, imports, x)
  {
    DepthIsBounded(assignments, rank, x);
    RoundsSettle(assignments, rank, imports, k);
  }

  const ImportModule: Dotted := ["importlib", "import_module"]

  /** The guard of the finding for `importlib.import_module`. */
  predicate IsReported(callee: Node, bindings: Bindings) {
    QualifiedName(callee, bindings) == Some(ImportModule)
  }

  /** A call is reported exactly when its callee is an alias chain that leads to `importlib.import_module`. */
  lemma ReportedThroughAnyChain(assignments: seq<Node>, rank: seq<nat>, imports: Bindings, callee: Node)
    requires Acyclic(assignments, rank) && WriteOnce(assignments) && NonEmpty(imports)
    ensures IsReported(callee, Rounds(assignments, imports, |assignments| + 1)) <==>
            IsChain(callee) && ExpandChain(assignments, rank, imports, callee) == ImportModule
  {
    RoundsSettle(assignments, rank, imports, |assignments| + 1);
    ChainIsQualified(callee, Rounds(assignments, imports, |assignments| + 1));
    if IsChain(callee) {
      RoundsExpandFully(assignments, rank, imports, Base(callee), |assignments| + 1);
    }
  }
}
