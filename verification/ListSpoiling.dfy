/** If something strikes, some run spoils the list: it is handed on from name to name, struck, and stays spoiled. */
module ListSpoiling {
  import opened Wrappers
  import opened PythonAst
  import opened ExplicitAll
  import opened ModuleRuns
  import opened AllVisibility
  import opened AllSoundness
  import opened ModuleSteps
  import opened ListSurvival

  // ----- states from which statements can go on -----

  function AugTargets(rest: seq<Node>): set<string> {
    if rest == [] then {}
    else (if IsPlainAugmented(rest[0]) then {rest[0].target.id} else {}) + AugTargets(rest[1..])
  }

  /** The targets of augmented assignments are there, with values that are no concern. */
  ghost predicate Ready(s: State, targets: set<string>) {
    Closed(s) && forall t :: t in targets ==> t in s.env && s.env[t].Other?
  }

  /** The one list in question, at address 0, is held by `x` and by `y`, untouched. */
  ghost predicate Holds(s: State, x: string, y: string, names: seq<string>) {
    && x in s.env && s.env[x] == ListRef(0) && y in s.env && s.env[y] == ListRef(0)
    && 0 in s.heap && s.heap[0] == Texts(names)
  }

  ghost predicate Spoiled(s: State, x: string) {
    x in s.env && Odd(s, s.env[x])
  }

  /** Nothing is lost: names keep their values, but for `but`, and lists their contents. */
  ghost predicate Extends(s: State, s': State, but: set<string>) {
    && Closed(s') && HeapGrows(s, s')
    && forall y :: y in s.env && y !in but ==> y in s'.env && s'.env[y] == s.env[y]
  }

  // ----- running to the end of a statement -----

  /** The state once the plain names of the statement are bound, or its augmented target changed. */
  ghost predicate Bound(n: Node, bodies: seq<Node>, s: State, u: State) {
    if IsPlainAssignment(n) then
      exists v, t :: EvaluatesAfter(n, AssignedValue(n), bodies, s, v, t)
                     && u == t.(env := BindEach(t.env, AssignedNames(n), v))
    else Runs(n, bodies, s, u)
  }

  lemma FinishBound(n: Node, bodies: seq<Node>, s: State, u: State, s': State)
    requires Bound(n, bodies, s, u)
    requires if IsPlainAssignment(n) then Star(Reach(After(n), bodies), Pool(n, bodies), bodies, u, s') else s' == u
    ensures Runs(n, bodies, s, s')
  {
    if IsPlainAssignment(n) {
      var v, t :| EvaluatesAfter(n, AssignedValue(n), bodies, s, v, t)
                  && u == t.(env := BindEach(t.env, AssignedNames(n), v));
      assert AssignsAndFinishes(n, bodies, t, v, s');
    }
  }

  /** `t` is reached by what runs before the value. */
  ghost predicate Arrives(n: Node, bodies: seq<Node>, s: State, t: State) {
    var ns := Reach(Before(n), bodies);
    Star(ns, Mentions(ns), bodies, s, t)
  }

  /** The target of an augmented assignment has a value of no concern to start with. */
  ghost predicate Startable(n: Node, s: State) {
    IsPlainAugmented(n) ==> n.target.id in s.env && s.env[n.target.id].Other?
  }

  /** And has it back, or still. */
  ghost predicate Restored(n: Node, s: State, t: State) {
    IsPlainAugmented(n) ==> n.target.id in s.env && n.target.id in t.env && t.env[n.target.id] == s.env[n.target.id]
  }

  lemma BindSomehow(n: Node, bodies: seq<Node>, s: State, t: State) returns (u: State)
    requires IsStatement(n) && Arrives(n, bodies, s, t) && Closed(t) && Startable(n, s)
    ensures Bound(n, bodies, s, u) && Extends(t, u, Own(n)) && Restored(n, s, u)
  {
    if IsPlainAssignment(n) {
      var v, t1 := SomeValue(AssignedValue(n), bodies, t);
      assert EvaluatesAfter(n, AssignedValue(n), bodies, s, v, t1);
      u := t1.(env := BindEach(t1.env, AssignedNames(n), v));
    } else if IsPlainAugmented(n) {
      u := AugmentSomehow(n, bodies, s, t);
    } else {
      u := t;
    }
  }

  lemma AugmentSomehow(n: Node, bodies: seq<Node>, s: State, t: State) returns (u: State)
    requires IsPlainAugmented(n) && Arrives(n, bodies, s, t) && Closed(t) && Startable(n, s)
    ensures Runs(n, bodies, s, u) && Extends(t, u, Own(n)) && Restored(n, s, u)
  {
    var v, t1 := SomeValue(n.value, bodies, t);
    assert EvaluatesAfter(n, n.value, bodies, s, v, t1);
    u := Reloaded(n, s, t1);
    StandingStillIsLocal(n, Pool(n, bodies), bodies, u);
    assert Augments(n, bodies, u, v, u);
  }

  lemma FinishSomehow(n: Node, bodies: seq<Node>, s: State, t: State) returns (s': State)
    requires IsStatement(n) && Arrives(n, bodies, s, t) && Closed(t) && Startable(n, s)
    ensures Runs(n, bodies, s, s') && Extends(t, s', Own(n)) && Restored(n, s, s')
  {
    s' := BindSomehow(n, bodies, s, t);
    StarHere(Reach(After(n), bodies), Pool(n, bodies), bodies, s');
    FinishBound(n, bodies, s, s', s');
  }

  // ----- handing the list on -----

  predicate GivesBefore(n: Node, bodies: seq<Node>, z: string, w: string) {
    var ns := Reach(Before(n), bodies);
    z == w || exists m :: m in Executed(ns) && w in Binds(m) && z in Copies(m, Mentions(ns))
  }

  predicate GivesBound(n: Node, bodies: seq<Node>, z: string, w: string) {
    || (z == w && w !in Own(n))
    || (IsPlainAssignment(n) && z in Sources(AssignedValue(n), bodies) && w in NewlyHeld(n))
    || (IsPlainAugmented(n) && z in Pool(n, bodies) && z != n.target.id && w == n.target.id)
  }

  predicate GivesAfter(n: Node, bodies: seq<Node>, z: string, w: string) {
    z == w || exists m :: m in Executed(Reach(After(n), bodies)) && w in Binds(m) && z in Copies(m, Pool(n, bodies))
  }

  lemma GiverBefore(n: Node, bodies: seq<Node>, held: set<string>, w: string) returns (z: string)
    requires w in HeldBefore(n, bodies, held)
    ensures z in held && GivesBefore(n, bodies, z, w)
  {
    z := w;
    if w !in held {
      var ns := Reach(Before(n), bodies);
      var m, y :| m in Executed(ns) && y in Binds(m) && Copies(m, Mentions(ns)) * held != {} && y == w;
      z :| z in Copies(m, Mentions(ns)) * held;
    }
  }

  lemma GiverBound(n: Node, bodies: seq<Node>, held: set<string>, w: string) returns (z: string)
    requires w in HeldBound(n, bodies, held)
    ensures z in HeldBefore(n, bodies, held) && GivesBound(n, bodies, z, w)
  {
    var h := HeldBefore(n, bodies, held);
    z := w;
    if IsPlainAssignment(n) && w in Own(n) {
      z :| z in Sources(AssignedValue(n), bodies) * h;
    } else if w in Own(n) {
      z :| z in Pool(n, bodies) * (h - Own(n));
    }
  }

  lemma GiverAfter(n: Node, bodies: seq<Node>, held: set<string>, w: string) returns (z: string)
    requires w in HeldAfter(n, bodies, held)
    ensures z in HeldBound(n, bodies, held) && GivesAfter(n, bodies, z, w)
  {
    z := w;
    var h := HeldBound(n, bodies, held);
    if w !in h {
      var m, y :| m in Executed(Reach(After(n), bodies)) && y in Binds(m)
                  && Copies(m, Pool(n, bodies)) * h != {} && y == w;
      z :| z in Copies(m, Pool(n, bodies)) * h;
    }
  }

  /** One effect that binds `w` to the list `z` holds. */
  lemma Handing(m: Node, mentioned: set<string>, bodies: seq<Node>, x: string, z: string, w: string,
                names: seq<string>, s: State) returns (t: State)
    requires w in Binds(m) && z in Copies(m, mentioned) && Closed(s) && Holds(s, x, z, names)
    ensures LocalEffect(m, mentioned, bodies, s, t) && Holds(t, x, w, names) && Extends(s, t, {w})
  {
    t := s.(env := s.env[w := ListRef(0)]);
    assert Obtainable(ListRef(0), Copies(m, mentioned), s);
    RebindingIsLocal(m, mentioned, bodies, w, ListRef(0), s);
  }

  lemma HandBefore(n: Node, bodies: seq<Node>, x: string, z: string, w: string, names: seq<string>, s: State)
    returns (t: State)
    requires GivesBefore(n, bodies, z, w) && Closed(s) && Holds(s, x, z, names)
    ensures Arrives(n, bodies, s, t) && Holds(t, x, w, names) && Extends(s, t, {w})
  {
    var ns := Reach(Before(n), bodies);
    t := s;
    if z == w {
      StarHere(ns, Mentions(ns), bodies, s);
    } else {
      var m :| m in Executed(ns) && w in Binds(m) && z in Copies(m, Mentions(ns));
      t := Handing(m, Mentions(ns), bodies, x, z, w, names, s);
      StarOnce(ns, Mentions(ns), bodies, m, s, t);
    }
  }

  lemma ListIsAValue(e: Node, bodies: seq<Node>, x: string, z: string, names: seq<string>, t: State)
    requires z in Sources(e, bodies) && Closed(t) && Holds(t, x, z, names)
    ensures Evaluates(e, bodies, t, ListRef(0), t)
  {
  }

  lemma HandBound(n: Node, bodies: seq<Node>, x: string, z: string, w: string, names: seq<string>, s: State, t: State)
    returns (u: State)
    requires Bystander(n, x) && GivesBound(n, bodies, z, w) && Arrives(n, bodies, s, t)
    requires Closed(t) && Holds(t, x, z, names)
    requires Startable(n, s) && Restored(n, s, t)
    ensures Bound(n, bodies, s, u) && Holds(u, x, w, names) && Extends(t, u, NewlyHeld(n) + {w})
  {
    if IsPlainAssignment(n) && w in Own(n) {
      ListIsAValue(AssignedValue(n), bodies, x, z, names, t);
      assert EvaluatesAfter(n, AssignedValue(n), bodies, s, ListRef(0), t);
      assert AssignedNames(n) != [];
      u := t.(env := BindEach(t.env, AssignedNames(n), ListRef(0)));
    } else if z == w {
      u := BindSomehow(n, bodies, s, t);
    } else {
      u := HandAugmented(n, bodies, x, z, names, s, t);
    }
  }

  lemma HandAugmented(n: Node, bodies: seq<Node>, x: string, z: string, names: seq<string>, s: State, t: State)
    returns (u: State)
    requires IsPlainAugmented(n) && z in Pool(n, bodies) && Arrives(n, bodies, s, t)
    requires Closed(t) && Holds(t, x, z, names) && Startable(n, s) && Restored(n, s, t)
    ensures Runs(n, bodies, s, u) && Holds(u, x, n.target.id, names) && Extends(t, u, {n.target.id})
  {
    var v, t1 := SomeValue(n.value, bodies, t);
    assert EvaluatesAfter(n, n.value, bodies, s, v, t1);
    AugmentedNode(n, bodies);
    assert t1.env[n.target.id := s.env[n.target.id]] == t1.env;
    u := Handing(n, Pool(n, bodies), bodies, x, z, n.target.id, names, t1);
    assert Augments(n, bodies, t1, v, u);
  }

  lemma HandAfter(n: Node, bodies: seq<Node>, x: string, z: string, w: string, names: seq<string>, u: State)
    returns (s': State)
    requires GivesAfter(n, bodies, z, w) && Closed(u) && Holds(u, x, z, names)
    ensures Star(Reach(After(n), bodies), Pool(n, bodies), bodies, u, s')
    ensures Holds(s', x, w, names) && Extends(u, s', {w})
  {
    var ns := Reach(After(n), bodies);
    s' := u;
    if z == w {
      StarHere(ns, Pool(n, bodies), bodies, u);
    } else {
      var m :| m in Executed(ns) && w in Binds(m) && z in Copies(m, Pool(n, bodies));
      s' := Handing(m, Pool(n, bodies), bodies, x, z, w, names, u);
      StarOnce(ns, Pool(n, bodies), bodies, m, u, s');
    }
  }

  // ----- striking -----

  /** A striking node spoils the list, if the name it strikes through holds it; nothing else changes. */
  lemma StrikeSpoils(m: Node, mentioned: set<string>, bodies: seq<Node>, x: string, w: string, names: seq<string>,
                     s: State) returns (q: State)
    requires MayBind(m, x) || w in Mutates(m, bodies)
    requires Closed(s) && Holds(s, x, w, names)
    ensures LocalEffect(m, mentioned, bodies, s, q) && Spoiled(q, x) && Closed(q)
    ensures forall y :: y in s.env && y != x ==> y in q.env && q.env[y] == s.env[y]
  {
    if MayBind(m, x) {
      q := s.(env := s.env[x := Other(0)]);
      RebindingIsLocal(m, mentioned, bodies, x, Other(0), s);
    } else {
      q := s.(heap := s.heap[0 := [Opaque(0)]]);
      ChangingIsLocal(m, mentioned, bodies, w, 0, [Opaque(0)], s);
    }
  }

  /** The name through which one of the nodes strikes. */
  lemma Striker(ns: seq<Node>, bodies: seq<Node>, held: set<string>, x: string) returns (m: Node, w: string)
    requires Strikes(ns, bodies, held, x) && x in held
    ensures m in Executed(ns) && w in held && (MayBind(m, x) || w in Mutates(m, bodies))
  {
    m :| m in Executed(ns) && (MayBind(m, x) || Mutates(m, bodies) * held != {});
    w := x;
    if !MayBind(m, x) {
      w :| w in Mutates(m, bodies) * held;
    }
  }
}
