/**
 A small Python syntax tree, and three walks over it: the pruned preorder the architecture linter scans, the larger
 part that runs when a module is imported, and the bodies that calls may run. Names are resolved: one that is local to
 a function, a class body or a comprehension is spelled apart from the names of the module.
 */
module PythonAst {
  import opened Wrappers

  datatype Ctx = Load | Store | Del

  /** A dotted name is kept as its components: `a.b.c` is `["a", "b", "c"]`. */
  type Dotted = seq<string>

  datatype Alias = Alias(name: Dotted, asname: Option<string>)

  /** Contexts and operators are leaves without effect and are not kept as children. */
  datatype Node =
      // expressions
    | Name(id: string, ctx: Ctx)
    | Str(text: string)
    | ListExpr(elts: seq<Node>)
    | TupleExpr(elts: seq<Node>)
    | SetExpr(elts: seq<Node>)
    | Starred(value: Node)
    | Attribute(value: Node, attr: string, ctx: Ctx)
    | Subscript(value: Node, index: Node, ctx: Ctx)
    | Add(left: Node, right: Node)
    | Call(func: Node, args: seq<Node>)
    | NamedExpr(target: Node, value: Node)
    | Lambda(eager: seq<Node>, body: seq<Node>)
    | OtherExpr(parts: seq<Node>)
      // statements
    | Assign(targets: seq<Node>, value: Node)
    | AnnAssign(target: Node, annotation: Node, optValue: Option<Node>)
    | AugAssign(target: Node, isAdd: bool, value: Node)
    | Delete(targets: seq<Node>)
    | ExprStmt(value: Node)
    | FunctionDef(name: string, decorators: seq<Node>, eager: seq<Node>, body: seq<Node>)
    | ClassDef(name: string, decorators: seq<Node>, eager: seq<Node>, body: seq<Node>)
    | Import(names: seq<Alias>)
    | ImportFrom(mod: Dotted, names: seq<Alias>)
      // parts of statements that bind a name of their own
    | ExceptHandler(optName: Option<string>, parts: seq<Node>)
    | MatchAs(optName: Option<string>, parts: seq<Node>)
    | MatchStar(optName: Option<string>)
    | MatchMapping(rest: Option<string>, parts: seq<Node>)
      // if, for, while, with, try, match and the rest
    | Block(parts: seq<Node>)

  function Children(n: Node): (r: seq<Node>)
    ensures forall c :: c in r ==> c < n
  {
    match n
    case Name(_, _) => []
    case Str(_) => []
    case ListExpr(elts) => elts
    case TupleExpr(elts) => elts
    case SetExpr(elts) => elts
    case Starred(v) => [v]
    case Attribute(v, _, _) => [v]
    case Subscript(v, i, _) => [v, i]
    case Add(l, r) => [l, r]
    case Call(f, args) => [f] + args
    case NamedExpr(t, v) => [t, v]
    case Lambda(eager, body) => eager + body
    case OtherExpr(parts) => parts
    case Assign(ts, v) => ts + [v]
    case AnnAssign(t, a, v) => if v.Some? then [t, a, v.value] else [t, a]
    case AugAssign(t, _, v) => [t, v]
    case Delete(ts) => ts
    case ExprStmt(v) => [v]
    case FunctionDef(_, decorators, eager, body) => decorators + eager + body
    case ClassDef(_, decorators, eager, body) => decorators + eager + body
    case Import(_) => []
    case ImportFrom(_, _) => []
    case ExceptHandler(_, parts) => parts
    case MatchAs(_, parts) => parts
    case MatchStar(_) => []
    case MatchMapping(_, parts) => parts
    case Block(parts) => parts
  }

  predicate IsScope(n: Node) {
    n.FunctionDef? || n.ClassDef? || n.Lambda?
  }

  /**
   What a node hands to the interpreter when it is executed at module level. Decorators, defaults,
   base classes and annotations (`eager`) run at the definition, and so does a class body; the body
   of a function or a lambda does not.
   */
  function EagerParts(n: Node): seq<Node> {
    match n
    case FunctionDef(_, decorators, eager, _) => decorators + eager
    case Lambda(eager, _) => eager
    case ClassDef(_, decorators, eager, body) => decorators + eager + body
    case _ => Children(n)
  }

  // ----- size, the termination measure of every walk -----

  function Size(n: Node): nat
    decreases n
  {
    1 + SizeBelow(n, Children(n))
  }

  function SizeBelow(parent: Node, ns: seq<Node>): nat
    requires forall c :: c in ns ==> c < parent
    decreases parent, |ns|
  {
    if ns == [] then 0
    else
      assert ns[0] in ns && forall c :: c in ns[1..] ==> c in ns;
      Size(ns[0]) + SizeBelow(parent, ns[1..])
  }

  function SizeAll(ns: seq<Node>): nat {
    if ns == [] then 0 else Size(ns[0]) + SizeAll(ns[1..])
  }

  lemma SizeBelowIsSizeAll(parent: Node, ns: seq<Node>)
    requires forall c :: c in ns ==> c < parent
    ensures SizeBelow(parent, ns) == SizeAll(ns)
  {
    if ns != [] {
      assert forall c :: c in ns[1..] ==> c in ns;
      SizeBelowIsSizeAll(parent, ns[1..]);
    }
  }

  lemma SizeUnfolds(n: Node)
    ensures Size(n) == 1 + SizeAll(Children(n))
  {
    SizeBelowIsSizeAll(n, Children(n));
  }

  lemma SizeOfConcat(a: seq<Node>, b: seq<Node>)
    ensures SizeAll(a + b) == SizeAll(a) + SizeAll(b)
  {
    if a == [] {
      assert a + b == b;
    } else {
      assert (a + b)[1..] == a[1..] + b;
    }
  }

  lemma EagerPartsAreSmaller(n: Node)
    ensures SizeAll(EagerParts(n)) < Size(n)
  {
    SizeUnfolds(n);
    if n.FunctionDef? {
      SizeOfConcat(n.decorators + n.eager, n.body);
    } else if n.Lambda? {
      SizeOfConcat(n.eager, n.body);
    }
  }

  // ----- the walks -----

  /** The nodes the linter visits, in source order; definitions are visited but not entered. */
  function Preorder(ns: seq<Node>): seq<Node>
    decreases SizeAll(ns), 1
  {
    if ns == [] then [] else PreorderOf(ns[0]) + Preorder(ns[1..])
  }

  function PreorderOf(n: Node): seq<Node>
    decreases Size(n), 0
  {
    SizeUnfolds(n);
    [n] + (if IsScope(n) then [] else Preorder(Children(n)))
  }

  /** The nodes that run when the module is imported. */
  function Executed(ns: seq<Node>): seq<Node>
    decreases SizeAll(ns), 1
  {
    if ns == [] then [] else ExecutedBy(ns[0]) + Executed(ns[1..])
  }

  function ExecutedBy(n: Node): seq<Node>
    decreases Size(n), 0
  {
    EagerPartsAreSmaller(n);
    [n] + Executed(EagerParts(n))
  }

  /** The bodies of all functions and lambdas, however deep: what a call may run. */
  function Bodies(ns: seq<Node>): seq<Node>
    decreases SizeAll(ns), 1
  {
    if ns == [] then [] else BodiesOf(ns[0]) + Bodies(ns[1..])
  }

  function BodiesOf(n: Node): seq<Node>
    decreases Size(n), 0
  {
    SizeUnfolds(n);
    (if n.FunctionDef? || n.Lambda? then n.body else []) + Bodies(Children(n))
  }

  /** Calling, decorating, and creating a class from bases or with keywords, which runs hooks of theirs. */
  predicate IsInvocation(n: Node) {
    n.Call? || (n.FunctionDef? && n.decorators != []) || (n.ClassDef? && n.decorators + n.eager != [])
  }

  predicate Invokes(ns: seq<Node>) {
    exists n :: n in Executed(ns) && IsInvocation(n)
  }

  /** What runs with the nodes: their own parts, and the given bodies if something is invoked. */
  function Reach(ns: seq<Node>, bodies: seq<Node>): seq<Node> {
    if Invokes(ns) then ns + bodies else ns
  }
}
