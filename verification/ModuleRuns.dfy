/**
 What importing a module can do to its namespace. Names hold tuples, references to list objects, or
 values that are no concern here. Assignments at the top level of the module are followed exactly;
 everything inside compound statements is free to run any number of times, in any order, so that
 every way of taking branches, iterating loops and leaving through exceptions is covered. Where the
 syntax does not tell, a value may be any list its expression mentions, a name bound inside a
 statement may come to hold any list the statement mentions, and a call, a decorator or the creation
 of a class may change any list it mentions and run any function or lambda of the module. A star
 import may bind any name at all. None of this uses what the linter recognises.
 */
module ModuleRuns {
  import opened Wrappers
  import opened PythonAst
  import opened ExplicitAll

  datatype Elem = Text(s: string) | Opaque(tag: nat)

  datatype PyVal = ListRef(addr: nat) | TupleVal(items: seq<Elem>) | Other(tag: nat)

  datatype State = State(env: map<string, PyVal>, heap: map<nat, seq<Elem>>)

  predicate Closed(s: State) {
    forall x :: x in s.env && s.env[x].ListRef? ==> s.env[x].addr in s.heap
  }

  function Contents(s: State, v: PyVal): Option<seq<Elem>> {
    match v
    case ListRef(a) => if a in s.heap then Some(s.heap[a]) else None
    case TupleVal(items) => Some(items)
    case Other(_) => None
  }

  function Texts(names: seq<string>): (r: seq<Elem>)
    ensures |r| == |names|
    ensures forall i :: 0 <= i < |names| ==> r[i] == Text(names[i])
  {
    seq(|names|, i requires 0 <= i < |names| => Text(names[i]))
  }

  // ----- expressions -----

  /** The names that are read when the nodes run. */
  function Mentions(ns: seq<Node>): set<string> {
    set m | m in Executed(ns) && m.Name? && m.ctx == Load :: m.id
  }

  /** The names whose list object an expression may evaluate to; displays and sums are new objects. */
  function Sources(e: Node, bodies: seq<Node>): set<string> {
    match e
    case Name(id, _) => {id}
    case NamedExpr(_, v) => Sources(v, bodies)
    case ListExpr(_) => {}
    case TupleExpr(_) => {}
    case SetExpr(_) => {}
    case Str(_) => {}
    case Add(_, _) => {}
    case _ => Mentions(Reach([e], bodies))
  }

  /** The elements of a value built from string constants and from the lists and tuples names hold now. */
  function Denote(e: Node, s: State): Option<seq<Elem>>
    decreases e, 1
  {
    match e
    case ListExpr(elts) => DenoteElements(elts, s)
    case TupleExpr(elts) => DenoteElements(elts, s)
    case Name(id, _) => if id in s.env then Contents(s, s.env[id]) else None
    case Add(l, r) =>
      var left := Denote(l, s);
      var right := Denote(r, s);
      if left.None? || right.None? then None else Some(left.value + right.value)
    case _ => None
  }

  function DenoteElements(elts: seq<Node>, s: State): Option<seq<Elem>>
    decreases elts, 0
  {
    if elts == [] then Some([])
    else
      var first := DenoteElement(elts[0], s);
      var rest := DenoteElements(elts[1..], s);
      if first.None? || rest.None? then None else Some(first.value + rest.value)
  }

  function DenoteElement(element: Node, s: State): Option<seq<Elem>>
    decreases element, 1
  {
    match element
    case Starred(v) => Denote(v, s)
    case Str(text) => Some([Text(text)])
    case _ => None
  }

  ghost predicate HeapGrows(s: State, s': State) {
    forall a :: a in s.heap ==> a in s'.heap && s'.heap[a] == s.heap[a]
  }

  /** A value whose list, if it is one, is new or was copied from one of the given names. */
  ghost predicate Obtainable(v: PyVal, sources: set<string>, s: State) {
    v.ListRef? ==> v.addr !in s.heap || exists m :: m in sources && m in s.env && s.env[m] == v
  }

  predicate KindOk(e: Node, v: PyVal) {
    match e
    case ListExpr(_) => v.ListRef?
    case TupleExpr(_) => v.TupleVal?
    case SetExpr(_) => v.Other?
    case _ => true
  }

  /** Evaluating `e` yields `v`; anything unknown yields any value of its kind. */
  ghost predicate Evaluates(e: Node, bodies: seq<Node>, s: State, v: PyVal, s': State) {
    && s'.env == s.env
    && HeapGrows(s, s')
    && (v.ListRef? ==> v.addr in s'.heap)
    && KindOk(e, v)
    && (if e.Name? && e.id in s.env then v == s.env[e.id] && s' == s
        else if Denote(e, s).Some? then Contents(s', v) == Denote(e, s) && Obtainable(v, {}, s)
        else Obtainable(v, Sources(e, bodies), s))
  }

  // ----- local effects -----

  function PlainNames(targets: seq<Node>): seq<string> {
    if targets == [] then []
    else (if targets[0].Name? then [targets[0].id] else []) + PlainNames(targets[1..])
  }

  function OtherTargets(targets: seq<Node>): seq<Node> {
    if targets == [] then []
    else (if targets[0].Name? then [] else [targets[0]]) + OtherTargets(targets[1..])
  }

  function OptionalName(name: Option<string>): set<string> {
    if name.Some? then {name.value} else {}
  }

  function Imported(a: Alias): set<string> {
    if a.name == ["*"] then {}
    else if a.asname.Some? then {a.asname.value}
    else if a.name == [] then {} else {a.name[0]}
  }

  function ImportedAll(names: seq<Alias>): set<string> {
    if names == [] then {} else Imported(names[0]) + ImportedAll(names[1..])
  }

  predicate IsStarImport(n: Node) {
    n.ImportFrom? && exists a :: a in n.names && a.name == ["*"]
  }

  /** The names a node itself may bind or unbind; a star import may bind others too. */
  function Binds(n: Node): set<string> {
    match n
    case Name(id, ctx) => if ctx == Load then {} else {id}
    case NamedExpr(target, _) => set x | x in PlainNames([target])
    case Assign(targets, _) => set x | x in PlainNames(targets)
    case AnnAssign(target, _, _) => set x | x in PlainNames([target])
    case AugAssign(target, _, _) => set x | x in PlainNames([target])
    case FunctionDef(name, _, _, _) => {name}
    case ClassDef(name, _, _, _) => {name}
    case Import(names) => ImportedAll(names)
    case ImportFrom(_, names) => ImportedAll(names)
    case ExceptHandler(name, _) => OptionalName(name)
    case MatchAs(name, _) => OptionalName(name)
    case MatchStar(name) => OptionalName(name)
    case MatchMapping(name, _) => OptionalName(name)
    case _ => {}
  }

  predicate MayBind(n: Node, x: string) {
    x in Binds(n) || IsStarImport(n)
  }

  /** The names whose list object a node itself may change in place; what it invokes comes on top. */
  function Mutates(n: Node, bodies: seq<Node>): set<string> {
    match n
    case Attribute(v, _, ctx) => if ctx == Load then {} else Sources(v, bodies)
    case Subscript(v, _, ctx) => if ctx == Load then {} else Sources(v, bodies)
    case AugAssign(target, _, _) => set x | x in PlainNames([target])
    case Call(func, args) => Mentions(Reach([func] + args, bodies))
    case FunctionDef(_, decorators, _, _) => if decorators == [] then {} else Mentions(Reach(decorators, bodies))
    case ClassDef(_, decorators, eager, _) => Mentions(Reach(decorators + eager, bodies))
    case _ => {}
  }

  predicate MayTouch(n: Node, bodies: seq<Node>, x: string) {
    MayBind(n, x) || x in Mutates(n, bodies)
  }

  /** What an import or a handler binds, and what a star or a mapping pattern collects, is a new object. */
  function Copies(n: Node, mentioned: set<string>): set<string> {
    if n.Import? || n.ImportFrom? || n.ExceptHandler? || n.MatchStar? || n.MatchMapping? then {} else mentioned
  }

  ghost predicate LocalEffect(n: Node, mentioned: set<string>, bodies: seq<Node>, s: State, s': State) {
    && Closed(s')
    && (forall x :: !MayBind(n, x) ==> (x in s'.env <==> x in s.env) && (x in s.env ==> s'.env[x] == s.env[x]))
    && (forall x :: MayBind(n, x) && x in s'.env ==>
          Obtainable(s'.env[x], Copies(n, mentioned), s) || (x in s.env && s'.env[x] == s.env[x]))
    && (forall a :: a in s.heap ==> a in s'.heap && (s'.heap[a] == s.heap[a] || HeldBy(a, Mutates(n, bodies), s)))
  }

  ghost predicate HeldBy(a: nat, names: set<string>, s: State) {
    exists m :: m in names && m in s.env && s.env[m] == ListRef(a)
  }

  ghost predicate Steps(ns: seq<Node>, mentioned: set<string>, bodies: seq<Node>, k: nat, s: State, s': State) {
    if k == 0 then s == s'
    else exists m :: AnyEffect(ns, mentioned, bodies, s, m) && Steps(ns, mentioned, bodies, k - 1, m, s')
  }

  ghost predicate AnyEffect(ns: seq<Node>, mentioned: set<string>, bodies: seq<Node>, s: State, s': State) {
    exists n :: n in Executed(ns) && LocalEffect(n, mentioned, bodies, s, s')
  }

  /** Any finite number of local effects of what runs when the given nodes do. */
  ghost predicate Star(ns: seq<Node>, mentioned: set<string>, bodies: seq<Node>, s: State, s': State) {
    exists k: nat :: Steps(ns, mentioned, bodies, k, s, s')
  }

  lemma {:induction false} StepsKeep(ns: seq<Node>, mentioned: set<string>, bodies: seq<Node>, keeps: State -> bool,
                                     k: nat, s: State, s': State)
    requires keeps(s) && forall t, t' :: keeps(t) && AnyEffect(ns, mentioned, bodies, t, t') ==> keeps(t')
    requires Steps(ns, mentioned, bodies, k, s, s')
    ensures keeps(s')
    decreases k
  {
    if k > 0 {
      var m :| AnyEffect(ns, mentioned, bodies, s, m) && Steps(ns, mentioned, bodies, k - 1, m, s');
      StepsKeep(ns, mentioned, bodies, keeps, k - 1, m, s');
    }
  }

  /** What every effect keeps, any number of them keeps. */
  lemma StarKeeps(ns: seq<Node>, mentioned: set<string>, bodies: seq<Node>, keeps: State -> bool, s: State, s': State)
    requires keeps(s) && forall t, t' :: keeps(t) && AnyEffect(ns, mentioned, bodies, t, t') ==> keeps(t')
    requires Star(ns, mentioned, bodies, s, s')
    ensures keeps(s')
  {
    var k: nat :| Steps(ns, mentioned, bodies, k, s, s');
    StepsKeep(ns, mentioned, bodies, keeps, k, s, s');
  }

  // ----- statements -----

  predicate IsPlainAssignment(n: Node) {
    n.Assign? || (n.AnnAssign? && n.target.Name? && n.optValue.Some?)
  }

  predicate IsPlainAugmented(n: Node) {
    n.AugAssign? && n.target.Name?
  }

  function AssignedNames(n: Node): seq<string>
    requires IsPlainAssignment(n)
  {
    if n.Assign? then PlainNames(n.targets) else [n.target.id]
  }

  function AssignedValue(n: Node): Node
    requires IsPlainAssignment(n)
  {
    if n.Assign? then n.value else n.optValue.value
  }

  /** The parts of a top-level statement that are not followed exactly. */
  function Loose(n: Node): seq<Node> {
    match n
    case Assign(targets, v) =>
      if OtherTargets(targets) == [] then [v] else [Assign(OtherTargets(targets), v)]
    case AnnAssign(target, annotation, v) =>
      if !target.Name? then [n] else if v.Some? then [annotation, v.value] else [annotation]
    case AugAssign(target, _, v) => if target.Name? then [v] else [n]
    case _ => [n]
  }

  /** Those that run before the value of an assignment is taken; of other statements, all. */
  function Before(n: Node): seq<Node> {
    if IsPlainAssignment(n) then [AssignedValue(n)] else Loose(n)
  }

  /** Those that run after the plain names are bound. */
  function After(n: Node): seq<Node> {
    if n.Assign? then OtherTargets(n.targets)
    else if IsPlainAssignment(n) then [n.annotation]
    else []
  }

  /** The lists the statement may hand from name to name. */
  function Pool(n: Node, bodies: seq<Node>): set<string> {
    Mentions(Reach(Loose(n), bodies))
  }

  /** `x += value`: a list is extended in place, a tuple is replaced, the rest is unknown. */
  ghost predicate Augments(n: Node, bodies: seq<Node>, s: State, v: PyVal, s': State)
    requires IsPlainAugmented(n)
  {
    var x := n.target.id;
    && x in s.env
    && if n.isAdd && s.env[x].ListRef? && s.env[x].addr in s.heap && Contents(s, v).Some? then
         s' == s.(heap := s.heap[s.env[x].addr := s.heap[s.env[x].addr] + Contents(s, v).value])
       else if n.isAdd && s.env[x].TupleVal? && Contents(s, v).Some? then
         s' == s.(env := s.env[x := TupleVal(s.env[x].items + Contents(s, v).value)])
       else LocalEffect(n, Pool(n, bodies), bodies, s, s')
  }

  /** An augmented assignment works on the value its target had before the other side was evaluated. */
  ghost function Reloaded(n: Node, s: State, t: State): State
    requires IsPlainAugmented(n) && n.target.id in s.env
  {
    t.(env := t.env[n.target.id := s.env[n.target.id]])
  }

  /** The parts before the value run, and then it is taken. */
  ghost predicate EvaluatesAfter(n: Node, e: Node, bodies: seq<Node>, s: State, v: PyVal, s': State) {
    var ns := Reach(Before(n), bodies);
    exists t :: Star(ns, Mentions(ns), bodies, s, t) && Evaluates(e, bodies, t, v, s')
  }

  ghost predicate AssignsAndFinishes(n: Node, bodies: seq<Node>, s: State, v: PyVal, s': State)
    requires IsPlainAssignment(n)
  {
    Star(Reach(After(n), bodies), Pool(n, bodies), bodies, s.(env := BindEach(s.env, AssignedNames(n), v)), s')
  }

  /** One completed execution of a top-level statement. */
  ghost predicate Runs(n: Node, bodies: seq<Node>, s: State, s': State) {
    if IsPlainAssignment(n) then
      exists v, t :: EvaluatesAfter(n, AssignedValue(n), bodies, s, v, t) && AssignsAndFinishes(n, bodies, t, v, s')
    else if IsPlainAugmented(n) then
      n.target.id in s.env
      && exists v, t :: EvaluatesAfter(n, n.value, bodies, s, v, t) && Augments(n, bodies, Reloaded(n, s, t), v, s')
    else
      Star(Reach(Loose(n), bodies), Pool(n, bodies), bodies, s, s')
  }

  /** A completed run of some statements of a module that has the given function bodies. */
  ghost predicate RunsAll(body: seq<Node>, bodies: seq<Node>, s: State, s': State) {
    if body == [] then s == s'
    else exists m :: Runs(body[0], bodies, s, m) && RunsAll(body[1..], bodies, m, s')
  }

  /** A completed run of a whole module. */
  ghost predicate Completes(body: seq<Node>, s: State, s': State) {
    RunsAll(body, Bodies(body), s, s')
  }
}
