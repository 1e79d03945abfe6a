/**
 The linter's abstract interpreter for `__all__`: it reads the statements of a module once, top to
 bottom, keeping the string lists it can evaluate, and gives up on anything it cannot follow.
 */
module ExplicitAll {
  import opened Wrappers
  import opened PythonAst

  const ALL := "__all__"

  // ----- expressions and targets -----

  type Values = map<string, seq<string>>

  function StaticStringList(e: Node, values: Values): Option<seq<string>>
    decreases e, 1
  {
    match e
    case ListExpr(elts) => StaticElements(elts, values)
    case TupleExpr(elts) => StaticElements(elts, values)
    case SetExpr(elts) => StaticElements(elts, values)
    case Name(id, _) => if id in values then Some(values[id]) else None
    case Add(l, r) =>
      var left := StaticStringList(l, values);
      var right := StaticStringList(r, values);
      if left.None? || right.None? then None else Some(left.value + right.value)
    case _ => None
  }

  function StaticElements(elts: seq<Node>, values: Values): Option<seq<string>>
    decreases elts, 0
  {
    if elts == [] then Some([])
    else
      var first := StaticElement(elts[0], values);
      var rest := StaticElements(elts[1..], values);
      if first.None? || rest.None? then None else Some(first.value + rest.value)
  }

  function StaticElement(element: Node, values: Values): Option<seq<string>>
    decreases element, 1
  {
    match element
    case Starred(v) => StaticStringList(v, values)
    case Str(text) => Some([text])
    case _ => None
  }

  function BindingNames(n: Node): seq<string>
    decreases n, 1
  {
    match n
    case Name(id, _) => [id]
    case Starred(v) => BindingNames(v)
    case ListExpr(elts) => BindingNamesAll(elts)
    case TupleExpr(elts) => BindingNamesAll(elts)
    case _ => []
  }

  function BindingNamesAll(ns: seq<Node>): seq<string>
    decreases ns, 0
  {
    if ns == [] then [] else BindingNames(ns[0]) + BindingNamesAll(ns[1..])
  }

  function AssignedNamesAndValue(n: Node): (seq<string>, Option<Node>) {
    match n
    case Assign(targets, value) => (BindingNamesAll(targets), Some(value))
    case AnnAssign(target, _, value) => (BindingNames(target), value)
    case _ => ([], None)
  }

  predicate TargetsAll(n: Node)
    decreases n, 1
  {
    match n
    case Name(id, _) => id == ALL
    case Attribute(v, _, _) => TargetsAll(v)
    case Subscript(v, _, _) => TargetsAll(v)
    case Starred(v) => TargetsAll(v)
    case ListExpr(elts) => AnyTargetsAll(elts)
    case TupleExpr(elts) => AnyTargetsAll(elts)
    case _ => false
  }

  predicate AnyTargetsAll(ns: seq<Node>)
    decreases ns, 0
  {
    ns != [] && (TargetsAll(ns[0]) || AnyTargetsAll(ns[1..]))
  }

  // ----- what the scanner recognises as a change of `__all__` -----

  function BoundName(a: Alias): string {
    if a.asname.Some? then a.asname.value else if a.name == [] then "" else a.name[0]
  }

  function ImportBoundNames(n: Node): seq<string>
    requires n.Import? || n.ImportFrom?
  {
    BoundNames(n.names, n.ImportFrom?)
  }

  function BoundNames(names: seq<Alias>, skipStar: bool): seq<string> {
    if names == [] then []
    else if skipStar && names[0].name == ["*"] then BoundNames(names[1..], skipStar)
    else [BoundName(names[0])] + BoundNames(names[1..], skipStar)
  }

  predicate IsNameAll(n: Node) {
    n.Name? && n.id == ALL
  }

  predicate IsMethodCallOnAll(n: Node) {
    n.Call? && n.func.Attribute? && IsNameAll(n.func.value)
  }

  predicate MutatesAll(n: Node) {
    match n
    case Assign(targets, _) => AnyTargetsAll(targets)
    case AnnAssign(target, _, _) => TargetsAll(target)
    case AugAssign(target, _, _) => TargetsAll(target)
    case NamedExpr(target, _) => TargetsAll(target)
    case Delete(targets) => AnyTargetsAll(targets)
    case Call(_, _) => IsMethodCallOnAll(n)
    case Name(id, ctx) => id == ALL && ctx != Load
    case FunctionDef(name, _, _, _) => name == ALL
    case ClassDef(name, _, _, _) => name == ALL
    case Import(_) => ALL in ImportBoundNames(n)
    case ImportFrom(_, _) => ALL in ImportBoundNames(n)
    case ExceptHandler(name, _) => name == Some(ALL)
    case MatchAs(name, _) => name == Some(ALL)
    case MatchStar(name) => name == Some(ALL)
    case _ => false
  }

  /** The executed descendants the scanner looks at, less the plain `__all__` targets of an assignment. */
  function NestedToScan(n: Node): seq<Node> {
    if IsScope(n) then []
    else match n
      case Assign(targets, value) => Preorder(DropPlainAll(targets) + [value])
      case AnnAssign(target, annotation, value) =>
        Preorder((if IsNameAll(target) then [] else [target]) + [annotation] +
                 (if value.Some? then [value.value] else []))
      case _ => Preorder(Children(n))
  }

  function DropPlainAll(targets: seq<Node>): seq<Node> {
    if targets == [] then []
    else (if IsNameAll(targets[0]) then [] else [targets[0]]) + DropPlainAll(targets[1..])
  }

  predicate NestedAllMutation(n: Node) {
    exists m :: m in NestedToScan(n) && MutatesAll(m)
  }

  predicate DestroysAll(n: Node) {
    match n
    case Assign(targets, _) => exists t :: t in targets && TargetsAll(t) && !t.Name?
    case AnnAssign(target, _, _) => TargetsAll(target) && !target.Name?
    case Delete(targets) => exists t :: t in targets && TargetsAll(t)
    case _ => false
  }

  function AllMutation(n: Node, values: Values): (bool, Option<seq<string>>) {
    if n.AugAssign? && TargetsAll(n.target) then
      if !n.target.Name? then (true, None)
      else
        var extension := StaticStringList(n.value, values);
        if n.isAdd && ALL in values && extension.Some?
        then (true, Some(values[ALL] + extension.value))
        else (true, None)
    else
      var isCall := n.ExprStmt? && IsMethodCallOnAll(n.value);
      var isRoot := (n.FunctionDef? || n.ClassDef? || n.Import? || n.ImportFrom?) && MutatesAll(n);
      (isCall || DestroysAll(n) || isRoot || NestedAllMutation(n), None)
  }

  // ----- the scan -----

  /** `owner` is the index of the statement that last decided about `__all__`. */
  datatype Scan = Scan(values: Values, explicit: Option<seq<string>>, owner: Option<nat>)

  const NewScan := Scan(map[], None, None)

  function ScanStep(sc: Scan, n: Node, index: nat): Scan {
    var (isMutation, mutated) := AllMutation(n, sc.values);
    if isMutation then
      Scan(if mutated.Some? then sc.values[ALL := mutated.value] else sc.values - {ALL}, mutated, Some(index))
    else
      var (names, value) := AssignedNamesAndValue(n);
      if value.None? then sc
      else
        var owner := if ALL in names then Some(index) else sc.owner;
        var known := StaticStringList(value.value, sc.values);
        if known.None? then
          if ALL in names then Scan(sc.values - {ALL}, None, owner) else sc.(owner := owner)
        else
          Scan(BindEach(sc.values, names, known.value),
               if ALL in names then known else sc.explicit,
               owner)
  }

  function ScanFrom(sc: Scan, body: seq<Node>, index: nat): Scan
    decreases |body|
  {
    if body == [] then sc else ScanFrom(ScanStep(sc, body[0], index), body[1..], index + 1)
  }

  function ScanModule(body: seq<Node>): Scan {
    ScanFrom(NewScan, body, 0)
  }

  lemma {:induction false} ScanFromAppends(sc: Scan, body: seq<Node>, n: Node, index: nat)
    ensures ScanFrom(sc, body + [n], index) == ScanStep(ScanFrom(sc, body, index), n, index + |body|)
    decreases |body|
  {
    if body == [] {
      assert (body + [n])[1..] == [];
    } else {
      assert (body + [n])[1..] == body[1..] + [n];
      ScanFromAppends(ScanStep(sc, body[0], index), body[1..], n, index + 1);
    }
  }

  /** The inner loop: every assigned name is recorded, and `__all__` decides the outcome. */
  method RecordNames(known: Values, decided: Option<seq<string>>, decider: Option<nat>,
                     names: seq<string>, value: seq<string>, index: nat)
    returns (values: Values, explicit: Option<seq<string>>, owner: Option<nat>)
    ensures values == BindEach(known, names, value)
    ensures explicit == if ALL in names then Some(value) else decided
    ensures owner == if ALL in names then Some(index) else decider
  {
    values, explicit, owner := known, decided, decider;
    for j := 0 to |names|
      invariant BindEach(values, names[j..], value) == BindEach(known, names, value)
      invariant explicit == if ALL in names[..j] then Some(value) else decided
      invariant owner == if ALL in names[..j] then Some(index) else decider
    {
      values := values[names[j] := value];
      if names[j] == ALL {
        explicit := Some(value);
        owner := Some(index);
      }
      assert names[j..][1..] == names[j + 1..];
      assert names[..j + 1] == names[..j] + [names[j]];
    }
    assert names[..|names|] == names;
  }

  /** The loop of the linter, with the dictionary it updates. */
  method ExplicitAll(body: seq<Node>) returns (explicit: Option<seq<string>>, owner: Option<nat>)
    ensures explicit == ScanModule(body).explicit
    ensures owner == ScanModule(body).owner
  {
    var values: Values := map[];
    explicit, owner := None, None;
    for i := 0 to |body|
      invariant Scan(values, explicit, owner) == ScanModule(body[..i])
    {
      var node := body[i];
      assert body[..i + 1] == body[..i] + [node];
      ScanFromAppends(NewScan, body[..i], node, 0);
      var (isMutation, mutated) := AllMutation(node, values);
      if isMutation {
        owner := Some(i);
        explicit := mutated;
        if mutated.Some? {
          values := values[ALL := mutated.value];
        } else {
          values := values - {ALL};
        }
        continue;
      }
      var (names, valueNode) := AssignedNamesAndValue(node);
      if valueNode.None? {
        continue;
      }
      if ALL in names {
        owner := Some(i);
      }
      var value := StaticStringList(valueNode.value, values);
      if value.None? {
        if ALL in names {
          explicit := None;
          values := values - {ALL};
        }
        continue;
      }
      values, explicit, owner := RecordNames(values, explicit, owner, names, value.value, i);
    }
    assert body[..|body|] == body;
  }
}
