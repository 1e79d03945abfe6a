/** Building completed runs of modules piece by piece, and taking apart those of simple assignments. */
module ModuleSteps {
  import opened Wrappers
  import opened PythonAst
  import opened ExplicitAll
  import opened ModuleRuns
  import opened AllVisibility
  import opened AllSoundness

  function Target(id: string): Node { Name(id, Store) }

  function Read(id: string): Node { Name(id, Load) }

  function Let(id: string, value: Node): Node { Assign([Target(id)], value) }

  // ----- effects -----

  lemma StarHere(ns: seq<Node>, mentioned: set<string>, bodies: seq<Node>, s: State)
    ensures Star(ns, mentioned, bodies, s, s)
  {
    assert Steps(ns, mentioned, bodies, 0, s, s);
  }

  lemma StarOnce(ns: seq<Node>, mentioned: set<string>, bodies: seq<Node>, m: Node, s: State, s': State)
    requires m in Executed(ns) && LocalEffect(m, mentioned, bodies, s, s')
    ensures Star(ns, mentioned, bodies, s, s')
  {
    assert AnyEffect(ns, mentioned, bodies, s, s') && Steps(ns, mentioned, bodies, 0, s', s');
    assert Steps(ns, mentioned, bodies, 1, s, s');
  }

  lemma StarThen(ns: seq<Node>, mentioned: set<string>, bodies: seq<Node>, s: State, m: Node, t: State, s': State)
    requires m in Executed(ns) && LocalEffect(m, mentioned, bodies, s, t) && Star(ns, mentioned, bodies, t, s')
    ensures Star(ns, mentioned, bodies, s, s')
  {
    var k: nat :| Steps(ns, mentioned, bodies, k, t, s');
    assert AnyEffect(ns, mentioned, bodies, s, t);
    assert Steps(ns, mentioned, bodies, k + 1, s, s');
  }

  lemma StandingStillIsLocal(n: Node, mentioned: set<string>, bodies: seq<Node>, s: State)
    requires Closed(s)
    ensures LocalEffect(n, mentioned, bodies, s, s)
  {
  }

  lemma RebindingIsLocal(m: Node, mentioned: set<string>, bodies: seq<Node>, x: string, v: PyVal, s: State)
    requires MayBind(m, x) && Closed(s) && Obtainable(v, Copies(m, mentioned), s) && (v.ListRef? ==> v.addr in s.heap)
    ensures LocalEffect(m, mentioned, bodies, s, s.(env := s.env[x := v]))
  {
    forall y | !MayBind(m, y)
      ensures y != x
    {
    }
  }

  lemma ChangingIsLocal(m: Node, mentioned: set<string>, bodies: seq<Node>, y: string, a: nat, items: seq<Elem>,
                        s: State)
    requires y in Mutates(m, bodies) && Closed(s) && y in s.env && s.env[y] == ListRef(a) && a in s.heap
    ensures LocalEffect(m, mentioned, bodies, s, s.(heap := s.heap[a := items]))
  {
    assert HeldBy(a, Mutates(m, bodies), s);
  }

  // ----- values -----

  ghost function Largest(keys: set<nat>): (r: nat)
    ensures forall k :: k in keys ==> k <= r
  {
    if keys == {} then 0
    else
      var one :| one in keys;
      var rest := Largest(keys - {one});
      assert forall k :: k in keys ==> k == one || k in keys - {one};
      if one > rest then one else rest
  }

  lemma Unused(heap: map<nat, seq<Elem>>) returns (a: nat)
    ensures a !in heap
  {
    a := Largest(heap.Keys) + 1;
  }

  /** Contents nobody could have read off the page. */
  ghost predicate Odd(s: State, v: PyVal) {
    Contents(s, v) == None || Contents(s, v) == Some([Opaque(0)])
  }

  lemma OddIsNoText(s: State, v: PyVal, names: seq<string>)
    requires Odd(s, v)
    ensures Contents(s, v) != Some(Texts(names))
  {
    if names != [] {
      assert Texts(names)[0] == Text(names[0]);
    }
  }

  /** Evaluation can always finish, with an odd value when the expression denotes nothing. */
  lemma SomeValue(e: Node, bodies: seq<Node>, s: State) returns (v: PyVal, s': State)
    requires Closed(s)
    ensures Evaluates(e, bodies, s, v, s')
    ensures s'.env == s.env && HeapGrows(s, s') && Closed(s')
    ensures Denote(e, s).None? && !(e.Name? && e.id in s.env) ==> Odd(s', v)
  {
    var a := Unused(s.heap);
    var items := if Denote(e, s).Some? then Denote(e, s).value else [Opaque(0)];
    s' := s;
    if e.Name? && e.id in s.env {
      v := s.env[e.id];
    } else if e.ListExpr? {
      s' := State(s.env, s.heap[a := items]);
      v := ListRef(a);
    } else if e.TupleExpr? || Denote(e, s).Some? {
      v := TupleVal(items);
    } else {
      v := Other(0);
    }
  }

  // ----- statements -----

  lemma RunsCons(n: Node, rest: seq<Node>, bodies: seq<Node>, s: State, m: State, s': State)
    requires Runs(n, bodies, s, m) && RunsAll(rest, bodies, m, s')
    ensures RunsAll([n] + rest, bodies, s, s')
  {
    assert ([n] + rest)[1..] == rest;
  }

  lemma RunsFirst(n: Node, rest: seq<Node>, bodies: seq<Node>, s: State, s': State) returns (m: State)
    requires RunsAll([n] + rest, bodies, s, s')
    ensures Runs(n, bodies, s, m) && RunsAll(rest, bodies, m, s')
  {
    assert ([n] + rest)[0] == n && ([n] + rest)[1..] == rest;
    m :| Runs(n, bodies, s, m) && RunsAll(rest, bodies, m, s');
  }

  /** Runs of any kind of step, and that they compose. */
  ghost predicate Chain(step: (Node, State, State) -> bool, body: seq<Node>, s: State, s': State) {
    if body == [] then s == s' else exists m :: step(body[0], s, m) && Chain(step, body[1..], m, s')
  }

  ghost function StepOf(bodies: seq<Node>): (Node, State, State) -> bool {
    (n, s, s') => Runs(n, bodies, s, s')
  }

  lemma {:induction false} ChainConcat(step: (Node, State, State) -> bool, a: seq<Node>, b: seq<Node>,
                                       s: State, m: State, s': State)
    requires Chain(step, a, s, m) && Chain(step, b, m, s')
    ensures Chain(step, a + b, s, s')
    decreases |a|
  {
    if a == [] {
      assert a + b == b;
    } else {
      var t :| step(a[0], s, t) && Chain(step, a[1..], t, m);
      ChainConcat(step, a[1..], b, t, m, s');
      assert (a + b)[0] == a[0] && (a + b)[1..] == a[1..] + b;
    }
  }

  lemma {:induction false} ChainSplit(step: (Node, State, State) -> bool, a: seq<Node>, b: seq<Node>,
                                      s: State, s': State) returns (m: State)
    requires Chain(step, a + b, s, s')
    ensures Chain(step, a, s, m) && Chain(step, b, m, s')
    decreases |a|
  {
    if a == [] {
      assert a + b == b;
      m := s;
    } else {
      assert (a + b)[0] == a[0] && (a + b)[1..] == a[1..] + b;
      var t :| step(a[0], s, t) && Chain(step, a[1..] + b, t, s');
      m := ChainSplit(step, a[1..], b, t, s');
    }
  }

  lemma {:induction false} RunIsChain(body: seq<Node>, bodies: seq<Node>, s: State, s': State)
    requires RunsAll(body, bodies, s, s')
    ensures Chain(StepOf(bodies), body, s, s')
    decreases |body|
  {
    if body != [] {
      var m :| Runs(body[0], bodies, s, m) && RunsAll(body[1..], bodies, m, s');
      RunIsChain(body[1..], bodies, m, s');
      assert StepOf(bodies)(body[0], s, m);
    }
  }

  lemma {:induction false} ChainIsRun(body: seq<Node>, bodies: seq<Node>, s: State, s': State)
    requires Chain(StepOf(bodies), body, s, s')
    ensures RunsAll(body, bodies, s, s')
    decreases |body|
  {
    if body != [] {
      var m :| StepOf(bodies)(body[0], s, m) && Chain(StepOf(bodies), body[1..], m, s');
      ChainIsRun(body[1..], bodies, m, s');
      assert Runs(body[0], bodies, s, m);
    }
  }

  lemma RunsConcat(a: seq<Node>, b: seq<Node>, bodies: seq<Node>, s: State, m: State, s': State)
    requires RunsAll(a, bodies, s, m) && RunsAll(b, bodies, m, s')
    ensures RunsAll(a + b, bodies, s, s')
  {
    RunIsChain(a, bodies, s, m);
    RunIsChain(b, bodies, m, s');
    ChainConcat(StepOf(bodies), a, b, s, m, s');
    ChainIsRun(a + b, bodies, s, s');
  }

  lemma RunsSplit(a: seq<Node>, b: seq<Node>, bodies: seq<Node>, s: State, s': State) returns (m: State)
    requires RunsAll(a + b, bodies, s, s')
    ensures RunsAll(a, bodies, s, m) && RunsAll(b, bodies, m, s')
  {
    RunIsChain(a + b, bodies, s, s');
    m := ChainSplit(StepOf(bodies), a, b, s, s');
    ChainIsRun(a, bodies, s, m);
    ChainIsRun(b, bodies, m, s');
  }

  lemma AssignmentRuns(n: Node, bodies: seq<Node>, s: State, t: State, v: PyVal, t1: State, s': State)
    requires IsPlainAssignment(n)
    requires var ns := Reach(Before(n), bodies); Star(ns, Mentions(ns), bodies, s, t)
    requires Evaluates(AssignedValue(n), bodies, t, v, t1)
    requires AssignsAndFinishes(n, bodies, t1, v, s')
    ensures Runs(n, bodies, s, s')
  {
    assert EvaluatesAfter(n, AssignedValue(n), bodies, s, v, t1);
  }

  lemma LooseOfLet(id: string, value: Node)
    ensures Loose(Let(id, value)) == [value] && Before(Let(id, value)) == [value] && After(Let(id, value)) == []
    ensures AssignedNames(Let(id, value)) == [id] && NewlyHeld(Let(id, value)) == {id}
    ensures AssignedNamesAndValue(Let(id, value)) == ([id], Some(value))
  {
    var targets := [Target(id)];
    assert targets[1..] == [] && PlainNames([]) == [] && OtherTargets([]) == [];
    assert AssignedNames(Let(id, value)) == [id];
    assert OtherTargets(targets) == [];
    assert BindingNames(targets[0]) == [id] && BindingNamesAll(targets) == [id];
  }

  lemma LetRuns(id: string, value: Node, bodies: seq<Node>, s: State, v: PyVal, s1: State)
    requires Evaluates(value, bodies, s, v, s1)
    ensures Runs(Let(id, value), bodies, s, s1.(env := s1.env[id := v]))
  {
    var n := Let(id, value);
    var s' := s1.(env := s1.env[id := v]);
    LooseOfLet(id, value);
    assert BindEach(s1.env, [id], v) == s1.env[id := v];
    StarHere(Reach(Before(n), bodies), Mentions(Reach(Before(n), bodies)), bodies, s);
    StarHere(Reach(After(n), bodies), Pool(n, bodies), bodies, s');
    AssignmentRuns(n, bodies, s, s, v, s1, s');
  }

  // ----- quiet assignments, whatever their run -----

  lemma InertEffect(m: Node, mentioned: set<string>, bodies: seq<Node>, s: State, s': State)
    requires Inert(m) && LocalEffect(m, mentioned, bodies, s, s')
    ensures s'.env == s.env && HeapGrows(s, s') && Closed(s')
  {
    assert Binds(m) == {} && Mutates(m, bodies) == {} && !IsStarImport(m);
    assert forall x :: !MayBind(m, x);
  }

  lemma QuietStar(ns: seq<Node>, mentioned: set<string>, bodies: seq<Node>, s: State, s': State)
    requires Quiet(ns) && Closed(s) && Star(Reach(ns, bodies), mentioned, bodies, s, s')
    ensures s'.env == s.env && HeapGrows(s, s') && Closed(s')
  {
    QuietInvokesNothing(ns, bodies);
    forall t: State, t': State | t.env == s.env && HeapGrows(s, t) && AnyEffect(ns, mentioned, bodies, t, t')
      ensures t'.env == s.env && HeapGrows(s, t') && Closed(t')
    {
      var m :| m in Executed(ns) && LocalEffect(m, mentioned, bodies, t, t');
      InertEffect(m, mentioned, bodies, t, t');
    }
    StarKeeps(ns, mentioned, bodies, (t: State) => t.env == s.env && HeapGrows(s, t) && Closed(t), s, s');
  }

  /** A quiet value before an assignment, or before anything else that takes one. */
  lemma QuietValue(n: Node, value: Node, bodies: seq<Node>, s: State, v: PyVal, s1: State) returns (t: State)
    requires Quiet([value]) && Before(n) == [value] && Closed(s) && EvaluatesAfter(n, value, bodies, s, v, s1)
    ensures t.env == s.env && HeapGrows(s, t) && Closed(t) && Evaluates(value, bodies, t, v, s1)
  {
    var ns := Reach([value], bodies);
    t :| Star(ns, Mentions(ns), bodies, s, t) && Evaluates(value, bodies, t, v, s1);
    QuietStar([value], Mentions(ns), bodies, s, t);
  }

  /** A quiet assignment evaluates its value and binds the name. */
  lemma QuietLetEnds(id: string, value: Node, bodies: seq<Node>, s: State, s': State)
    returns (t: State, v: PyVal, s1: State)
    requires Quiet([value]) && Closed(s) && Runs(Let(id, value), bodies, s, s')
    ensures t.env == s.env && HeapGrows(s, t) && Closed(t) && Evaluates(value, bodies, t, v, s1)
    ensures s'.env == s.env[id := v] && HeapGrows(s1, s') && Closed(s')
  {
    var n := Let(id, value);
    LooseOfLet(id, value);
    v, s1 :| EvaluatesAfter(n, AssignedValue(n), bodies, s, v, s1) && AssignsAndFinishes(n, bodies, s1, v, s');
    t := QuietValue(n, value, bodies, s, v, s1);
    assert BindEach(s1.env, [id], v) == s1.env[id := v];
    QuietStar([], Pool(n, bodies), bodies, s1.(env := s1.env[id := v]), s');
  }

  // ----- values that can be read off -----

  lemma QuietIsPlain(ns: seq<Node>, bodies: seq<Node>)
    requires Quiet(ns)
    ensures !Known(ns) && forall m :: m in Preorder(ns) ==> !Hidden(m, bodies)
  {
    forall m | m in Preorder(ns)
      ensures !MutatesAll(m) && !Hidden(m, bodies)
    {
      InViewIsExecuted(ns, m);
      assert Inert(m);
    }
  }

  /** What can be read without any helper is read the same among helpers. */
  lemma {:induction false} StaticAnywhere(e: Node, values: Values)
    requires StaticStringList(e, map[]).Some?
    ensures StaticStringList(e, values) == StaticStringList(e, map[])
    decreases e, 1
  {
    match e
    case ListExpr(elts) => StaticElementsAnywhere(elts, values);
    case TupleExpr(elts) => StaticElementsAnywhere(elts, values);
    case SetExpr(elts) => StaticElementsAnywhere(elts, values);
    case Add(l, r) =>
      StaticAnywhere(l, values);
      StaticAnywhere(r, values);
    case _ =>
  }

  lemma {:induction false} StaticElementsAnywhere(elts: seq<Node>, values: Values)
    requires StaticElements(elts, map[]).Some?
    ensures StaticElements(elts, values) == StaticElements(elts, map[])
    decreases elts, 0
  {
    if elts != [] {
      StaticElementAnywhere(elts[0], values);
      StaticElementsAnywhere(elts[1..], values);
    }
  }

  lemma StaticElementAnywhere(element: Node, values: Values)
    requires StaticElement(element, map[]).Some?
    ensures StaticElement(element, values) == StaticElement(element, map[])
    decreases element, 1
  {
    match element
    case Starred(v) => StaticAnywhere(v, values);
    case _ =>
  }

  /** A value that can be read without any helper, built without set displays. */
  predicate IsStatic(value: Node, names: seq<string>) {
    StaticStringList(value, map[]) == Some(names) && ListsOnly(value, {ALL})
  }

  lemma StaticFacts(value: Node, names: seq<string>, values: Values, s: State)
    requires IsStatic(value, names) && Closed(s)
    ensures Quiet([value]) && !Known([value]) && StaticStringList(value, values) == Some(names)
    ensures Denote(value, s) == Some(Texts(names)) && !value.Name?
  {
    assert Tracked({}) == {ALL};
    StaticIsQuiet(value, map[], {ALL});
    QuietIsPlain([value], []);
    StaticAnywhere(value, values);
    assert Inv(map[], {}, false, s);
    StaticIsDenoted(value, map[], {}, false, s);
  }

  lemma {:induction false} MoreTracked(e: Node, tracked: set<string>, more: set<string>)
    requires ListsOnly(e, tracked) && tracked <= more
    ensures ListsOnly(e, more)
    decreases e, 1
  {
    match e
    case ListExpr(elts) => MoreElementsTracked(elts, tracked, more);
    case TupleExpr(elts) => MoreElementsTracked(elts, tracked, more);
    case Add(l, r) =>
      MoreTracked(l, tracked, more);
      MoreTracked(r, tracked, more);
    case _ =>
  }

  lemma {:induction false} MoreElementsTracked(elts: seq<Node>, tracked: set<string>, more: set<string>)
    requires ElementsListsOnly(elts, tracked) && tracked <= more
    ensures ElementsListsOnly(elts, more)
    decreases elts, 0
  {
    if elts != [] {
      MoreElementTracked(elts[0], tracked, more);
      MoreElementsTracked(elts[1..], tracked, more);
    }
  }

  lemma MoreElementTracked(element: Node, tracked: set<string>, more: set<string>)
    requires ElementListsOnly(element, tracked) && tracked <= more
    ensures ElementListsOnly(element, more)
    decreases element, 1
  {
    match element
    case Starred(v) => MoreTracked(v, tracked, more);
    case _ =>
  }

  lemma {:induction false} InertHasNoBodies(ns: seq<Node>)
    requires Quiet(ns)
    ensures Bodies(ns) == []
    decreases SizeAll(ns)
  {
    if ns != [] {
      SizeUnfolds(ns[0]);
      ExecutedCons(ns[0], ns[1..]);
      assert [ns[0]] + ns[1..] == ns;
      assert Inert(ns[0]) && EagerParts(ns[0]) == Children(ns[0]);
      assert Quiet(Children(ns[0])) && Quiet(ns[1..]);
      InertHasNoBodies(Children(ns[0]));
      InertHasNoBodies(ns[1..]);
    }
  }
}
