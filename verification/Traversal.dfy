/** The linter's explicit-stack walks, each against the recursive walk it stands for. */
module Traversal {
  import opened PythonAst

  function Reversed<T>(s: seq<T>): (r: seq<T>)
    ensures |r| == |s|
  {
    if s == [] then [] else Reversed(s[1..]) + [s[0]]
  }

  lemma {:induction false} ReversedConcat<T>(a: seq<T>, b: seq<T>)
    ensures Reversed(a + b) == Reversed(b) + Reversed(a)
  {
    if a == [] {
      assert a + b == b;
    } else {
      assert (a + b)[1..] == a[1..] + b;
      ReversedConcat(a[1..], b);
    }
  }

  lemma {:induction false} ReversedTwice<T>(s: seq<T>)
    ensures Reversed(Reversed(s)) == s
  {
    if s != [] {
      ReversedConcat(Reversed(s[1..]), [s[0]]);
      ReversedTwice(s[1..]);
      assert Reversed([s[0]]) == [s[0]];
    }
  }

  lemma {:induction false} SizeOfReversed(ns: seq<Node>)
    ensures SizeAll(Reversed(ns)) == SizeAll(ns)
  {
    if ns != [] {
      SizeOfReversed(ns[1..]);
      SizeOfConcat(Reversed(ns[1..]), [ns[0]]);
    }
  }

  lemma Regroup<T>(a: seq<T>, b: seq<T>, c: seq<T>)
    ensures a + (b + c) == (a + b) + c
  {
  }

  lemma PreorderCons(node: Node, ns: seq<Node>)
    ensures Preorder([node] + ns) == PreorderOf(node) + Preorder(ns)
  {
    assert ([node] + ns)[1..] == ns;
  }

  lemma {:induction false} PreorderConcat(a: seq<Node>, b: seq<Node>)
    ensures Preorder(a + b) == Preorder(a) + Preorder(b)
    decreases |a|
  {
    if a == [] {
      assert a + b == b;
    } else {
      var first, rest := [a[0]], a[1..];
      Regroup(first, rest, b);
      assert first + rest == a;
      PreorderCons(a[0], rest + b);
      PreorderCons(a[0], rest);
      PreorderConcat(rest, b);
      Regroup(PreorderOf(a[0]), Preorder(rest), Preorder(b));
    }
  }

  lemma Shift<T>(a: seq<T>, x: T, b: seq<T>, c: seq<T>)
    ensures a + (([x] + b) + c) == (a + [x]) + (b + c)
    ensures ([x] + b) + c == [x] + (b + c)
  {
  }

  function Opened(n: Node): seq<Node> {
    if IsScope(n) then [] else Children(n)
  }

  lemma OpenedIsSmaller(n: Node)
    ensures SizeAll(Opened(n)) < Size(n)
  {
    SizeUnfolds(n);
  }

  /** Popping `node` off the end of the stack leaves less to do, even once its children are pushed. */
  lemma PopSize(rest: seq<Node>, node: Node)
    ensures SizeAll(rest) < SizeAll(rest + [node])
    ensures SizeAll(rest + Opened(node)) < SizeAll(rest + [node])
    ensures SizeAll(rest + Reversed(Opened(node))) < SizeAll(rest + [node])
  {
    OpenedIsSmaller(node);
    SizeOfConcat(rest, [node]);
    SizeOfConcat(rest, Opened(node));
    SizeOfConcat(rest, Reversed(Opened(node)));
    SizeOfReversed(Opened(node));
  }

  lemma PreorderOfOne(node: Node)
    ensures Preorder([node]) == [node] + Preorder(Opened(node))
  {
    assert [node][1..] == [] && Preorder([]) == [];
    assert PreorderOf(node) + [] == PreorderOf(node);
  }

  lemma PopOrder(rest: seq<Node>, node: Node)
    ensures Preorder(Reversed(rest + [node])) == [node] + (Preorder(Opened(node)) + Preorder(Reversed(rest)))
    ensures Preorder(Reversed(rest + Reversed(Opened(node)))) == Preorder(Opened(node)) + Preorder(Reversed(rest))
  {
    ReversedConcat(rest, [node]);
    assert Reversed([node]) == [node];
    PreorderConcat([node], Reversed(rest));
    PreorderOfOne(node);
    Shift([], node, Preorder(Opened(node)), Preorder(Reversed(rest)));
    ReversedConcat(rest, Reversed(Opened(node)));
    ReversedTwice(Opened(node));
    PreorderConcat(Opened(node), Reversed(rest));
  }

  lemma PopPreorder(visited: seq<Node>, rest: seq<Node>, node: Node)
    ensures visited + Preorder(Reversed(rest + [node])) ==
            (visited + [node]) + Preorder(Reversed(rest + Reversed(Opened(node))))
    ensures IsScope(node) ==> rest + Reversed(Opened(node)) == rest
  {
    PopOrder(rest, node);
    Shift(visited, node, Preorder(Opened(node)), Preorder(Reversed(rest)));
    Shift([], node, Preorder(Opened(node)), Preorder(Reversed(rest)));
  }

  /** The whole module, in source order. */
  method ModuleExecutedNodes(body: seq<Node>) returns (visited: seq<Node>)
    ensures visited == Preorder(body)
  {
    visited := [];
    var stack := Reversed(body);
    ReversedTwice(body);
    while stack != []
      invariant visited + Preorder(Reversed(stack)) == Preorder(body)
      decreases SizeAll(stack)
    {
      var node, rest := stack[|stack| - 1], stack[..|stack| - 1];
      assert stack == rest + [node];
      PopSize(rest, node);
      PopPreorder(visited, rest, node);
      visited := visited + [node];
      stack := rest;
      if IsScope(node) {
        continue;
      }
      stack := stack + Reversed(Children(node));
    }
  }

  /** The mirror image: last child first. */
  function Mirrored(ns: seq<Node>): seq<Node>
    decreases SizeAll(ns), 1
  {
    if ns == [] then [] else Mirrored(ns[1..]) + MirroredOf(ns[0])
  }

  function MirroredOf(n: Node): seq<Node>
    decreases Size(n), 0
  {
    OpenedIsSmaller(n);
    [n] + Mirrored(Opened(n))
  }

  lemma MirroredCons(node: Node, ns: seq<Node>)
    ensures Mirrored([node] + ns) == Mirrored(ns) + MirroredOf(node)
  {
    assert ([node] + ns)[1..] == ns;
  }

  lemma {:induction false} MirroredConcat(a: seq<Node>, b: seq<Node>)
    ensures Mirrored(a + b) == Mirrored(b) + Mirrored(a)
    decreases |a|
  {
    if a == [] {
      assert a + b == b;
    } else {
      var first, rest := [a[0]], a[1..];
      Regroup(first, rest, b);
      assert first + rest == a;
      MirroredCons(a[0], rest + b);
      MirroredCons(a[0], rest);
      MirroredConcat(rest, b);
      Regroup(Mirrored(b), Mirrored(rest), MirroredOf(a[0]));
    }
  }

  /** The mirrored walk visits the same nodes, each as often. */
  lemma {:induction false} MirroredVisitsTheSame(ns: seq<Node>)
    ensures multiset(Mirrored(ns)) == multiset(Preorder(ns))
    decreases SizeAll(ns)
  {
    if ns != [] {
      OpenedIsSmaller(ns[0]);
      MirroredVisitsTheSame(Opened(ns[0]));
      MirroredVisitsTheSame(ns[1..]);
      assert multiset(MirroredOf(ns[0])) == multiset(PreorderOf(ns[0]));
    }
  }

  lemma MirroredOfOne(node: Node)
    ensures Mirrored([node]) == [node] + Mirrored(Opened(node))
  {
    assert [node][1..] == [] && Mirrored([]) == [];
    assert [] + MirroredOf(node) == MirroredOf(node);
  }

  lemma PopMirrored(visited: seq<Node>, rest: seq<Node>, node: Node)
    ensures visited + Mirrored(rest + [node]) == (visited + [node]) + Mirrored(rest + Opened(node))
    ensures IsScope(node) ==> rest + Opened(node) == rest
  {
    MirroredConcat(rest, [node]);
    MirroredConcat(rest, Opened(node));
    MirroredOfOne(node);
    Shift(visited, node, Mirrored(Opened(node)), Mirrored(rest));
  }

  /** The parts of one statement; children are pushed unreversed, so the order is the mirrored one. */
  method ModuleExecutedDescendants(node: Node) returns (visited: seq<Node>)
    ensures visited == Mirrored(Opened(node))
  {
    if IsScope(node) {
      return [];
    }
    visited := [];
    var stack := Children(node);
    while stack != []
      invariant visited + Mirrored(stack) == Mirrored(Opened(node))
      decreases SizeAll(stack)
    {
      var nested, rest := stack[|stack| - 1], stack[..|stack| - 1];
      assert stack == rest + [nested];
      PopSize(rest, nested);
      PopMirrored(visited, rest, nested);
      visited := visited + [nested];
      stack := rest;
      if IsScope(nested) {
        continue;
      }
      stack := stack + Children(nested);
    }
  }

  predicate IsImport(n: Node) {
    n.Import? || n.ImportFrom?
  }

  function Imports(ns: seq<Node>): seq<Node> {
    if ns == [] then [] else (if IsImport(ns[0]) then [ns[0]] else []) + Imports(ns[1..])
  }

  lemma ImportsOfCons(node: Node, ns: seq<Node>)
    ensures Imports([node] + ns) == (if IsImport(node) then [node] else []) + Imports(ns)
  {
    assert ([node] + ns)[1..] == ns;
  }

  lemma PopImports(imports: seq<Node>, node: Node, rest: seq<Node>)
    ensures imports + Imports(Preorder(Reversed(rest + [node]))) ==
            (if IsImport(node) then imports + [node] else imports) +
            Imports(Preorder(Reversed(rest + Reversed(Opened(node)))))
    ensures IsImport(node) || IsScope(node) ==> rest + Reversed(Opened(node)) == rest
  {
    PopOrder(rest, node);
    ImportsOfCons(node, Preorder(Opened(node)) + Preorder(Reversed(rest)));
    var todo := Imports(Preorder(Opened(node)) + Preorder(Reversed(rest)));
    Shift(imports, node, [], todo);
    assert [] + todo == todo && [node] + [] == [node];
  }

  /** The imports an arm of a `try` executes: those of the pruned preorder, in source order. */
  method FallbackArmImports(statements: seq<Node>) returns (imports: seq<Node>)
    ensures imports == Imports(Preorder(statements))
  {
    imports := [];
    var stack := Reversed(statements);
    ReversedTwice(statements);
    while stack != []
      invariant imports + Imports(Preorder(Reversed(stack))) == Imports(Preorder(statements))
      decreases SizeAll(stack)
    {
      var node, rest := stack[|stack| - 1], stack[..|stack| - 1];
      assert stack == rest + [node];
      PopSize(rest, node);
      PopImports(imports, node, rest);
      stack := rest;
      if IsImport(node) {
        imports := imports + [node];
        continue;
      }
      if IsScope(node) {
        continue;
      }
      stack := stack + Reversed(Children(node));
    }
  }

  // ----- what the walks visit -----

  /** From a root down to the node, never through a function, a class or a lambda. */
  predicate IsPath(ns: seq<Node>, path: seq<Node>, n: Node) {
    && path != [] && path[0] in ns && path[|path| - 1] == n
    && forall i :: 0 <= i < |path| - 1 ==>
         !path[i].FunctionDef? && !path[i].ClassDef? && !path[i].Lambda? && path[i + 1] in Children(path[i])
  }

  lemma {:induction false} VisitedHasAPath(ns: seq<Node>, n: Node) returns (path: seq<Node>)
    requires n in Preorder(ns)
    ensures IsPath(ns, path, n)
    decreases SizeAll(ns)
  {
    var first := ns[0];
    if n in PreorderOf(first) {
      path := [first];
      if n != first {
        OpenedIsSmaller(first);
        var below := VisitedHasAPath(Children(first), n);
        path := [first] + below;
      }
    } else {
      path := VisitedHasAPath(ns[1..], n);
    }
  }

  lemma {:induction false} PathIsVisited(ns: seq<Node>, path: seq<Node>, n: Node)
    requires IsPath(ns, path, n)
    ensures n in Preorder(ns)
    decreases |path|, |ns|
  {
    if path[0] == ns[0] {
      if |path| > 1 {
        assert forall i :: 0 <= i < |path| - 1 ==> path[1..][i] == path[i + 1];
        PathIsVisited(Children(ns[0]), path[1..], n);
      }
    } else {
      PathIsVisited(ns[1..], path, n);
    }
  }

  /** A node is visited exactly when it is reached without passing through a definition. */
  lemma VisitedExactlyWhen(ns: seq<Node>, n: Node)
    ensures n in Preorder(ns) <==> exists path :: IsPath(ns, path, n)
  {
    if n in Preorder(ns) {
      var path := VisitedHasAPath(ns, n);
    }
    if path :| IsPath(ns, path, n) {
      PathIsVisited(ns, path, n);
    }
  }

  lemma {:induction false} ImportsAreThose(ns: seq<Node>, n: Node)
    ensures multiset(Imports(ns))[n] == if n.Import? || n.ImportFrom? then multiset(ns)[n] else 0
  {
    if ns != [] {
      ImportsAreThose(ns[1..], n);
      assert ns == [ns[0]] + ns[1..];
    }
  }
}
