/**
 What becomes of a list that a name was bound to: following which other names may come to hold it, it is untouched in
 every run of some statements, or some run spoils it, and which of the two can be told from the syntax.
 */
module ListSurvival {
  import opened Wrappers
  import opened PythonAst
  import opened ExplicitAll
  import opened ModuleRuns
  import opened AllVisibility
  import opened AllSoundness
  import opened ModuleSteps

  /** The statement does not itself assign or extend the name. */
  predicate Bystander(n: Node, x: string) {
    && IsStatement(n)
    && (IsPlainAssignment(n) ==> x !in AssignedNames(n))
    && (IsPlainAugmented(n) ==> n.target.id != x)
  }

  predicate Bystanders(rest: seq<Node>, x: string) {
    forall n :: n in rest ==> Bystander(n, x)
  }

  // ----- who may come to hold the list -----

  /** The names to which the nodes may hand a list that one of `held` holds. */
  function Takers(ns: seq<Node>, mentioned: set<string>, held: set<string>): set<string> {
    set m, y | m in Executed(ns) && y in Binds(m) && Copies(m, mentioned) * held != {} :: y
  }

  function HeldBefore(n: Node, bodies: seq<Node>, held: set<string>): set<string> {
    var ns := Reach(Before(n), bodies);
    held + Takers(ns, Mentions(ns), held)
  }

  /** The names the statement itself assigns or extends. */
  function Own(n: Node): set<string> {
    if IsPlainAugmented(n) then {n.target.id} else NewlyHeld(n)
  }

  /** Once they are bound, or the target of an augmented assignment is back and changed: they hold it, or do not. */
  function HeldBound(n: Node, bodies: seq<Node>, held: set<string>): set<string> {
    var h := HeldBefore(n, bodies, held);
    if IsPlainAssignment(n) then
      if Sources(AssignedValue(n), bodies) * h != {} then h + Own(n) else h - Own(n)
    else if IsPlainAugmented(n) && Pool(n, bodies) * (h - Own(n)) != {} then h + Own(n)
    else h - Own(n)
  }

  function HeldAfter(n: Node, bodies: seq<Node>, held: set<string>): set<string> {
    var h := HeldBound(n, bodies, held);
    h + Takers(Reach(After(n), bodies), Pool(n, bodies), h)
  }

  /** Some node binds the name, or changes a list that one of `held` holds. */
  predicate Strikes(ns: seq<Node>, bodies: seq<Node>, held: set<string>, x: string) {
    exists m :: m in Executed(ns) && (MayBind(m, x) || Mutates(m, bodies) * held != {})
  }

  predicate StruckAt(n: Node, bodies: seq<Node>, held: set<string>, x: string) {
    || Strikes(Reach(Before(n), bodies), bodies, HeldBefore(n, bodies, held), x)
    || Strikes(Reach(After(n), bodies), bodies, HeldAfter(n, bodies, held), x)
  }

  predicate Struck(rest: seq<Node>, bodies: seq<Node>, held: set<string>, x: string)
    decreases |rest|
  {
    rest != []
    && (StruckAt(rest[0], bodies, held, x) || Struck(rest[1..], bodies, HeldAfter(rest[0], bodies, held), x))
  }

  /** The target of an augmented assignment neither holds the list nor got a value from an earlier assignment. */
  predicate Apart(rest: seq<Node>, bodies: seq<Node>, held: set<string>, given: set<string>)
    decreases |rest|
  {
    rest == []
    || (&& (IsPlainAugmented(rest[0]) ==> rest[0].target.id !in held + given)
        && Apart(rest[1..], bodies, HeldAfter(rest[0], bodies, held), given + NewlyHeld(rest[0])))
  }

  // ----- if nothing strikes -----

  /** `x` holds the list at `a`, untouched, and nobody holds it who should not. */
  ghost predicate Alive(s: State, x: string, a: nat, names: seq<string>, held: set<string>) {
    && Closed(s) && x in s.env && s.env[x] == ListRef(a) && a in s.heap && s.heap[a] == Texts(names)
    && forall y :: y in s.env && s.env[y] == ListRef(a) ==> y in held
  }

  lemma EffectKeepsAlive(m: Node, mentioned: set<string>, bodies: seq<Node>, x: string, a: nat, names: seq<string>,
                         held: set<string>, more: set<string>, s: State, s': State)
    requires Alive(s, x, a, names, held) && LocalEffect(m, mentioned, bodies, s, s')
    requires !MayBind(m, x) && Mutates(m, bodies) * held == {} && held <= more
    requires Copies(m, mentioned) * held != {} ==> Binds(m) <= more
    ensures Alive(s', x, a, names, more)
  {
    forall y | y in s'.env && s'.env[y] == ListRef(a)
      ensures y in more
    {
      if MayBind(m, y) && !(y in s.env && s.env[y] == ListRef(a)) {
        var z :| z in Copies(m, mentioned) && z in s.env && s.env[z] == ListRef(a);
        assert z in Copies(m, mentioned) * held;
        assert !IsStarImport(m);
      }
    }
    forall z | z in Mutates(m, bodies) && z in s.env
      ensures s.env[z] != ListRef(a)
    {
      assert z in held ==> z in Mutates(m, bodies) * held;
    }
  }

  /** The node leaves the list alone and hands it to nobody else. */
  predicate Harmless(m: Node, mentioned: set<string>, bodies: seq<Node>, x: string, all: set<string>) {
    !MayBind(m, x) && Mutates(m, bodies) * all == {} && (Copies(m, mentioned) * all != {} ==> Binds(m) <= all)
  }

  ghost predicate AllHarmless(ns: seq<Node>, mentioned: set<string>, bodies: seq<Node>, x: string, all: set<string>) {
    forall m :: m in Executed(ns) ==> Harmless(m, mentioned, bodies, x, all)
  }

  /** Taking once more takes nothing more. */
  lemma TakersAreClosed(ns: seq<Node>, mentioned: set<string>, held: set<string>, m: Node)
    requires m in Executed(ns)
    ensures var all := held + Takers(ns, mentioned, held);
            Copies(m, mentioned) * all != {} ==> Binds(m) <= all
  {
    var all := held + Takers(ns, mentioned, held);
    if z :| z in Copies(m, mentioned) * all {
      if z !in held {
        var m', y :| m' in Executed(ns) && y in Binds(m') && Copies(m', mentioned) * held != {} && y == z;
        assert mentioned * held != {};
      } else {
        assert z in Copies(m, mentioned) * held;
      }
      assert Copies(m, mentioned) == mentioned;
    }
  }

  lemma HarmlessKeepsAlive(m: Node, mentioned: set<string>, bodies: seq<Node>, x: string, a: nat, names: seq<string>,
                           all: set<string>, s: State, s': State)
    requires Alive(s, x, a, names, all) && LocalEffect(m, mentioned, bodies, s, s')
    requires Harmless(m, mentioned, bodies, x, all)
    ensures Alive(s', x, a, names, all)
  {
    EffectKeepsAlive(m, mentioned, bodies, x, a, names, all, all, s, s');
  }

  lemma UnstruckIsHarmless(ns: seq<Node>, mentioned: set<string>, bodies: seq<Node>, x: string, held: set<string>)
    requires !Strikes(ns, bodies, held + Takers(ns, mentioned, held), x)
    ensures AllHarmless(ns, mentioned, bodies, x, held + Takers(ns, mentioned, held))
  {
    forall m | m in Executed(ns)
      ensures Harmless(m, mentioned, bodies, x, held + Takers(ns, mentioned, held))
    {
      TakersAreClosed(ns, mentioned, held, m);
    }
  }

  lemma StarKeepsAlive(ns: seq<Node>, mentioned: set<string>, bodies: seq<Node>, x: string, a: nat,
                       names: seq<string>, held: set<string>, s: State, s': State)
    requires Alive(s, x, a, names, held) && Star(ns, mentioned, bodies, s, s')
    requires !Strikes(ns, bodies, held + Takers(ns, mentioned, held), x)
    ensures Alive(s', x, a, names, held + Takers(ns, mentioned, held))
  {
    var all := held + Takers(ns, mentioned, held);
    UnstruckIsHarmless(ns, mentioned, bodies, x, held);
    forall t, t' | Alive(t, x, a, names, all) && AnyEffect(ns, mentioned, bodies, t, t')
      ensures Alive(t', x, a, names, all)
    {
      var m :| m in Executed(ns) && LocalEffect(m, mentioned, bodies, t, t');
      HarmlessKeepsAlive(m, mentioned, bodies, x, a, names, all, t, t');
    }
    StarKeeps(ns, mentioned, bodies, t => Alive(t, x, a, names, all), s, s');
  }

  lemma BindingKeepsAlive(n: Node, bodies: seq<Node>, x: string, a: nat, names: seq<string>, held: set<string>,
                          t: State, v: PyVal, t1: State, u: State)
    requires IsPlainAssignment(n) && Bystander(n, x) && Alive(t, x, a, names, HeldBefore(n, bodies, held))
    requires Evaluates(AssignedValue(n), bodies, t, v, t1)
    requires u == t1.(env := BindEach(t1.env, AssignedNames(n), v))
    ensures Alive(u, x, a, names, HeldBound(n, bodies, held))
  {
    var h := HeldBefore(n, bodies, held);
    if v == ListRef(a) {
      var z :| z in Sources(AssignedValue(n), bodies) && z in t.env && t.env[z] == ListRef(a);
      assert z in Sources(AssignedValue(n), bodies) * h;
    }
    forall y | y in u.env && u.env[y] == ListRef(a)
      ensures y in HeldBound(n, bodies, held)
    {
      assert y in AssignedNames(n) <==> y in NewlyHeld(n);
    }
  }

  lemma AssignmentKeepsAlive(n: Node, bodies: seq<Node>, x: string, a: nat, names: seq<string>, held: set<string>,
                             s: State, s': State)
    requires IsPlainAssignment(n) && Bystander(n, x) && Alive(s, x, a, names, held)
    requires Runs(n, bodies, s, s') && !StruckAt(n, bodies, held, x)
    ensures Alive(s', x, a, names, HeldAfter(n, bodies, held))
  {
    var v, t1 :| EvaluatesAfter(n, AssignedValue(n), bodies, s, v, t1) && AssignsAndFinishes(n, bodies, t1, v, s');
    var ns := Reach(Before(n), bodies);
    var t :| Star(ns, Mentions(ns), bodies, s, t) && Evaluates(AssignedValue(n), bodies, t, v, t1);
    StarKeepsAlive(ns, Mentions(ns), bodies, x, a, names, held, s, t);
    var u := t1.(env := BindEach(t1.env, AssignedNames(n), v));
    BindingKeepsAlive(n, bodies, x, a, names, held, t, v, t1, u);
    StarKeepsAlive(Reach(After(n), bodies), Pool(n, bodies), bodies, x, a, names, HeldBound(n, bodies, held), u, s');
  }

  lemma StarKeepsLists(ns: seq<Node>, mentioned: set<string>, bodies: seq<Node>, s: State, s': State)
    requires Star(ns, mentioned, bodies, s, s')
    ensures s.heap.Keys <= s'.heap.Keys
  {
    forall t: State, t': State | s.heap.Keys <= t.heap.Keys && AnyEffect(ns, mentioned, bodies, t, t')
      ensures s.heap.Keys <= t'.heap.Keys
    {
      var m :| m in Executed(ns) && LocalEffect(m, mentioned, bodies, t, t');
    }
    StarKeeps(ns, mentioned, bodies, (t: State) => s.heap.Keys <= t.heap.Keys, s, s');
  }

  /** The target is back to what it had, which is not the list. */
  lemma ReloadingKeepsAlive(n: Node, x: string, a: nat, names: seq<string>, held: set<string>, all: set<string>,
                            s: State, t: State)
    requires IsPlainAugmented(n) && n.target.id in s.env && n.target.id != x && n.target.id !in held
    requires Alive(s, x, a, names, held) && Alive(t, x, a, names, all) && s.heap.Keys <= t.heap.Keys
    ensures Alive(Reloaded(n, s, t), x, a, names, all - Own(n))
  {
  }

  lemma AugmentationKeepsAlive(n: Node, bodies: seq<Node>, x: string, a: nat, names: seq<string>, held: set<string>,
                               s: State, s': State)
    requires IsPlainAugmented(n) && Bystander(n, x) && Alive(s, x, a, names, held)
    requires n.target.id !in held
    requires Runs(n, bodies, s, s') && !StruckAt(n, bodies, held, x)
    ensures Alive(s', x, a, names, HeldAfter(n, bodies, held))
  {
    var v, t1 :| EvaluatesAfter(n, n.value, bodies, s, v, t1) && Augments(n, bodies, Reloaded(n, s, t1), v, s');
    var ns := Reach(Before(n), bodies);
    var t :| Star(ns, Mentions(ns), bodies, s, t) && Evaluates(n.value, bodies, t, v, t1);
    StarKeepsAlive(ns, Mentions(ns), bodies, x, a, names, held, s, t);
    StarKeepsLists(ns, Mentions(ns), bodies, s, t);
    var h := HeldBefore(n, bodies, held);
    assert Alive(t1, x, a, names, h);
    ReloadingKeepsAlive(n, x, a, names, held, h, s, t1);
    AugmentedNode(n, bodies);
    AugmentingIsLocal(n, bodies, Reloaded(n, s, t1), v, s');
    EffectKeepsAlive(n, Pool(n, bodies), bodies, x, a, names, h - Own(n), HeldAfter(n, bodies, held),
                     Reloaded(n, s, t1), s');
  }

  lemma StatementKeepsAlive(n: Node, bodies: seq<Node>, x: string, a: nat, names: seq<string>, held: set<string>,
                            s: State, s': State)
    requires Bystander(n, x) && Alive(s, x, a, names, held)
    requires IsPlainAugmented(n) ==> n.target.id !in held
    requires Runs(n, bodies, s, s') && !StruckAt(n, bodies, held, x)
    ensures Alive(s', x, a, names, HeldAfter(n, bodies, held))
  {
    if IsPlainAssignment(n) {
      AssignmentKeepsAlive(n, bodies, x, a, names, held, s, s');
    } else if IsPlainAugmented(n) {
      AugmentationKeepsAlive(n, bodies, x, a, names, held, s, s');
    } else {
      StarKeepsAlive(Reach(Before(n), bodies), Pool(n, bodies), bodies, x, a, names, held, s, s');
    }
  }

  lemma {:induction false} RestKeepsAlive(rest: seq<Node>, bodies: seq<Node>, x: string, a: nat, names: seq<string>,
                                          held: set<string>, given: set<string>, s: State, s': State)
    requires Bystanders(rest, x) && Apart(rest, bodies, held, given) && !Struck(rest, bodies, held, x)
    requires Alive(s, x, a, names, held) && RunsAll(rest, bodies, s, s')
    ensures Closed(s') && x in s'.env && Contents(s', s'.env[x]) == Some(Texts(names))
    decreases |rest|
  {
    if rest != [] {
      var m :| Runs(rest[0], bodies, s, m) && RunsAll(rest[1..], bodies, m, s');
      StatementKeepsAlive(rest[0], bodies, x, a, names, held, s, m);
      RestKeepsAlive(rest[1..], bodies, x, a, names, HeldAfter(rest[0], bodies, held), given + NewlyHeld(rest[0]),
                     m, s');
    }
  }
}
