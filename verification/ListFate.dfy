/**
 The fate of a list, decided exactly: after `x = value`, statements that do not themselves assign `x` leave its list
 alone in every run if and only if none of them strikes at it.
 */
module ListFate {
  import opened Wrappers
  import opened PythonAst
  import opened ExplicitAll
  import opened ModuleRuns
  import opened AllVisibility
  import opened AllSoundness
  import opened ModuleSteps
  import opened ListSurvival
  import opened ListSpoiling

  ghost predicate EndsSpoiled(rest: seq<Node>, bodies: seq<Node>, x: string, s: State) {
    exists s' :: RunsAll(rest, bodies, s, s') && Spoiled(s', x) && Closed(s')
  }

  /** From every state in which `z` holds the list. */
  ghost predicate CanSpoil(rest: seq<Node>, bodies: seq<Node>, x: string, z: string, names: seq<string>) {
    forall s :: Ready(s, AugTargets(rest)) && Holds(s, x, z, names) ==> EndsSpoiled(rest, bodies, x, s)
  }

  lemma EndsAfter(n: Node, rest: seq<Node>, bodies: seq<Node>, x: string, s: State, m: State)
    requires Runs(n, bodies, s, m) && EndsSpoiled(rest, bodies, x, m)
    ensures EndsSpoiled([n] + rest, bodies, x, s)
  {
    var s' :| RunsAll(rest, bodies, m, s') && Spoiled(s', x) && Closed(s');
    RunsCons(n, rest, bodies, s, m, s');
  }

  // ----- the targets of augmented assignments are out of the way -----

  lemma HeldIsKept(n: Node, bodies: seq<Node>, held: set<string>)
    ensures HeldBefore(n, bodies, held) <= HeldAfter(n, bodies, held) + Own(n)
    ensures HeldBound(n, bodies, held) <= HeldAfter(n, bodies, held)
    ensures held <= HeldBefore(n, bodies, held)
  {
  }

  lemma {:induction false} TargetsAreApart(rest: seq<Node>, bodies: seq<Node>, held: set<string>, given: set<string>)
    requires Apart(rest, bodies, held, given)
    ensures AugTargets(rest) * (held + given) == {}
    decreases |rest|
  {
    if rest != [] {
      var n := rest[0];
      HeldIsKept(n, bodies, held);
      TargetsAreApart(rest[1..], bodies, HeldAfter(n, bodies, held), given + NewlyHeld(n));
      forall t | t in AugTargets(rest)
        ensures t !in held + given
      {
        if t in AugTargets(rest[1..]) {
          assert t !in HeldAfter(n, bodies, held) + (given + NewlyHeld(n));
        }
      }
    }
  }

  /** What the rest still needs, given what a statement may have changed. */
  ghost predicate Clear(n: Node, tail: seq<Node>, bodies: seq<Node>, held: set<string>, x: string) {
    && Bystander(n, x) && Bystanders(tail, x) && x in held
    && (IsPlainAugmented(n) ==> n.target.id !in held)
    && AugTargets(tail) * (HeldAfter(n, bodies, held) + NewlyHeld(n)) == {}
    && exists given: set<string> :: Apart(tail, bodies, HeldAfter(n, bodies, held), given)
  }

  lemma HolderStays(n: Node, bodies: seq<Node>, held: set<string>, x: string)
    requires Bystander(n, x) && x in held
    ensures x in HeldAfter(n, bodies, held)
  {
    HeldIsKept(n, bodies, held);
  }

  lemma ApartIsClear(rest: seq<Node>, bodies: seq<Node>, held: set<string>, given: set<string>, x: string)
    requires rest != [] && Bystanders(rest, x) && x in held && Apart(rest, bodies, held, given)
    ensures Clear(rest[0], rest[1..], bodies, held, x)
    ensures x in HeldAfter(rest[0], bodies, held)
  {
    var n := rest[0];
    TargetsAreApart(rest[1..], bodies, HeldAfter(n, bodies, held), given + NewlyHeld(n));
    var after := HeldAfter(n, bodies, held);
    assert Bystander(n, x) && forall m :: m in rest[1..] ==> m in rest;
    HolderStays(n, bodies, held, x);
    forall t | t in AugTargets(rest[1..])
      ensures t !in after + NewlyHeld(n)
    {
      assert t !in after + (given + NewlyHeld(n));
    }
  }

  lemma {:induction false} BystandersAreNoTargets(rest: seq<Node>, x: string)
    requires Bystanders(rest, x)
    ensures x !in AugTargets(rest)
  {
    if rest != [] {
      assert Bystander(rest[0], x) && forall n :: n in rest[1..] ==> n in rest;
      BystandersAreNoTargets(rest[1..], x);
    }
  }

  // ----- once spoiled, spoiled -----

  lemma SpoiledExtends(x: string, s: State, s': State, but: set<string>)
    requires Spoiled(s, x) && Closed(s) && Extends(s, s', but) && x !in but
    ensures Spoiled(s', x)
  {
  }

  lemma ReadyExtends(s: State, s': State, but: set<string>, targets: set<string>, fewer: set<string>)
    requires Ready(s, targets) && Extends(s, s', but) && fewer <= targets && fewer * but == {}
    ensures Ready(s', fewer)
  {
    forall t | t in fewer
      ensures t in s'.env && s'.env[t].Other?
    {
      assert t in but ==> t in fewer * but;
    }
  }

  lemma StandsSpoiled(n: Node, tail: seq<Node>, bodies: seq<Node>, x: string, s: State) returns (m: State)
    requires Bystander(n, x) && AugTargets(tail) * NewlyHeld(n) == {}
    requires Ready(s, AugTargets([n] + tail)) && Spoiled(s, x)
    ensures Runs(n, bodies, s, m) && Ready(m, AugTargets(tail)) && Spoiled(m, x)
  {
    var ns := Reach(Before(n), bodies);
    assert ([n] + tail)[0] == n && ([n] + tail)[1..] == tail;
    if IsPlainAugmented(n) {
      assert n.target.id in AugTargets([n] + tail);
    }
    StarHere(ns, Mentions(ns), bodies, s);
    m := FinishSomehow(n, bodies, s, s);
    assert Extends(s, m, NewlyHeld(n));
    ReadyExtends(s, m, NewlyHeld(n), AugTargets([n] + tail), AugTargets(tail));
    SpoiledExtends(x, s, m, NewlyHeld(n));
  }

  lemma {:induction false} StaysSpoiled(rest: seq<Node>, bodies: seq<Node>, held: set<string>, given: set<string>,
                                        x: string, s: State)
    requires Bystanders(rest, x) && Apart(rest, bodies, held, given)
    requires Ready(s, AugTargets(rest)) && Spoiled(s, x)
    ensures EndsSpoiled(rest, bodies, x, s)
    decreases |rest|
  {
    if rest == [] {
      assert RunsAll(rest, bodies, s, s);
    } else {
      var n, tail := rest[0], rest[1..];
      assert [n] + tail == rest && Bystander(n, x) && forall m :: m in tail ==> m in rest;
      TargetsAreApart(tail, bodies, HeldAfter(n, bodies, held), given + NewlyHeld(n));
      assert forall y :: y in AugTargets(tail) ==> y !in HeldAfter(n, bodies, held) + (given + NewlyHeld(n));
      var m := StandsSpoiled(n, tail, bodies, x, s);
      StaysSpoiled(tail, bodies, HeldAfter(n, bodies, held), given + NewlyHeld(n), x, m);
      EndsAfter(n, tail, bodies, x, s, m);
    }
  }

  // ----- a strike before the names are bound -----

  lemma {:induction false} StepsThenStar(ns: seq<Node>, mentioned: set<string>, bodies: seq<Node>, k: nat,
                                         s: State, t: State, s': State)
    requires Steps(ns, mentioned, bodies, k, s, t) && Star(ns, mentioned, bodies, t, s')
    ensures Star(ns, mentioned, bodies, s, s')
    decreases k
  {
    if k > 0 {
      var m :| AnyEffect(ns, mentioned, bodies, s, m) && Steps(ns, mentioned, bodies, k - 1, m, t);
      StepsThenStar(ns, mentioned, bodies, k - 1, m, t, s');
      var n :| n in Executed(ns) && LocalEffect(n, mentioned, bodies, s, m);
      StarThen(ns, mentioned, bodies, s, n, m, s');
    }
  }

  lemma StarConcat(ns: seq<Node>, mentioned: set<string>, bodies: seq<Node>, s: State, t: State, s': State)
    requires Star(ns, mentioned, bodies, s, t) && Star(ns, mentioned, bodies, t, s')
    ensures Star(ns, mentioned, bodies, s, s')
  {
    var k: nat :| Steps(ns, mentioned, bodies, k, s, t);
    StepsThenStar(ns, mentioned, bodies, k, s, t, s');
  }

  lemma StrikeBefore(n: Node, tail: seq<Node>, bodies: seq<Node>, held: set<string>, x: string, names: seq<string>,
                     m: Node, z: string, w: string, s: State)
    requires Clear(n, tail, bodies, held, x) && GivesBefore(n, bodies, z, w) && w in HeldBefore(n, bodies, held)
    requires m in Executed(Reach(Before(n), bodies)) && (MayBind(m, x) || w in Mutates(m, bodies))
    requires Ready(s, AugTargets([n] + tail)) && Holds(s, x, z, names)
    ensures EndsSpoiled([n] + tail, bodies, x, s)
  {
    var ns := Reach(Before(n), bodies);
    assert ([n] + tail)[1..] == tail;
    var t := HandBefore(n, bodies, x, z, w, names, s);
    var q := StrikeSpoils(m, Mentions(ns), bodies, x, w, names, t);
    StarOnce(ns, Mentions(ns), bodies, m, t, q);
    StarConcat(ns, Mentions(ns), bodies, s, t, q);
    var s' := FinishSomehow(n, bodies, s, q);
    SpoiledExtends(x, q, s', Own(n));
    StruckGoesOn(n, tail, bodies, held, x, s, t, q, s', {w});
    EndsAfter(n, tail, bodies, x, s, s');
  }

  /** After the strike: nothing but `x`, and names that hold the list or were bound, has changed. */
  lemma StruckGoesOn(n: Node, tail: seq<Node>, bodies: seq<Node>, held: set<string>, x: string, s: State, t: State,
                     q: State, s': State, but: set<string>)
    requires Clear(n, tail, bodies, held, x) && Ready(s, AugTargets([n] + tail)) && Extends(s, t, but)
    requires but <= HeldAfter(n, bodies, held) + Own(n)
    requires forall y :: y in t.env && y != x ==> y in q.env && q.env[y] == t.env[y]
    requires Extends(q, s', Own(n)) && Restored(n, s, s') && Spoiled(s', x)
    ensures EndsSpoiled(tail, bodies, x, s')
  {
    assert ([n] + tail)[1..] == tail;
    BystandersAreNoTargets(tail, x);
    forall y | y in AugTargets(tail)
      ensures y in s'.env && s'.env[y].Other?
    {
      assert y in AugTargets([n] + tail);
      assert y !in HeldAfter(n, bodies, held) + NewlyHeld(n);
    }
    var given: set<string> :| Apart(tail, bodies, HeldAfter(n, bodies, held), given);
    StaysSpoiled(tail, bodies, HeldAfter(n, bodies, held), given, x, s');
  }

  // ----- a strike after they are bound, and no strike yet -----

  lemma StartsReady(n: Node, tail: seq<Node>, s: State)
    requires Ready(s, AugTargets([n] + tail))
    ensures Startable(n, s)
  {
    assert ([n] + tail)[0] == n && ([n] + tail)[1..] == tail;
    if IsPlainAugmented(n) {
      assert n.target.id in AugTargets([n] + tail);
    }
  }

  lemma ExtendsTwice(s: State, t: State, u: State, but: set<string>, more: set<string>)
    requires Extends(s, t, but) && Extends(t, u, more)
    ensures Extends(s, u, but + more)
  {
  }

  /** A target that the list is not handed through still has what it had. */
  lemma TargetIsUntouched(n: Node, bodies: seq<Node>, w1: string, w2: string, s: State, t: State)
    requires GivesBound(n, bodies, w1, w2) && Startable(n, s) && Extends(s, t, {w1})
    ensures Restored(n, s, t)
  {
  }

  lemma HandThrough(n: Node, bodies: seq<Node>, x: string, names: seq<string>, z: string, w1: string, w2: string,
                    s: State) returns (u: State)
    requires Bystander(n, x) && GivesBefore(n, bodies, z, w1) && GivesBound(n, bodies, w1, w2)
    requires Startable(n, s) && Closed(s) && Holds(s, x, z, names)
    ensures Bound(n, bodies, s, u) && Holds(u, x, w2, names) && Extends(s, u, {w1, w2} + NewlyHeld(n))
  {
    var t := HandBefore(n, bodies, x, z, w1, names, s);
    TargetIsUntouched(n, bodies, w1, w2, s, t);
    u := HandBound(n, bodies, x, w1, w2, names, s, t);
    ExtendsTwice(s, t, u, {w1}, NewlyHeld(n) + {w2});
    assert {w1} + (NewlyHeld(n) + {w2}) == {w1, w2} + NewlyHeld(n);
  }

  /** From `z` over two names to the one through which the list is struck, or passed on. */
  predicate Route(n: Node, bodies: seq<Node>, held: set<string>, z: string, w1: string, w2: string, w3: string) {
    && w1 in HeldBefore(n, bodies, held) && GivesBefore(n, bodies, z, w1)
    && w2 in HeldBound(n, bodies, held) && GivesBound(n, bodies, w1, w2)
    && w3 in HeldAfter(n, bodies, held) && GivesAfter(n, bodies, w2, w3)
  }

  function Changed(n: Node, w1: string, w2: string, w3: string): set<string> {
    {w1, w2, w3} + NewlyHeld(n)
  }

  lemma RouteIsWithin(n: Node, bodies: seq<Node>, held: set<string>, z: string, w1: string, w2: string, w3: string)
    requires Route(n, bodies, held, z, w1, w2, w3)
    ensures Changed(n, w1, w2, w3) <= HeldAfter(n, bodies, held) + NewlyHeld(n)
  {
    HeldIsKept(n, bodies, held);
  }

  lemma FindRoute(n: Node, bodies: seq<Node>, held: set<string>, w3: string)
    returns (z: string, w1: string, w2: string)
    requires w3 in HeldAfter(n, bodies, held)
    ensures z in held && Route(n, bodies, held, z, w1, w2, w3)
  {
    w2 := GiverAfter(n, bodies, held, w3);
    w1 := GiverBound(n, bodies, held, w2);
    z := GiverBefore(n, bodies, held, w1);
  }

  lemma ExtendsThen(s: State, u: State, r: State, w1: string, w2: string, w3: string, n: Node)
    requires Extends(s, u, {w1, w2} + NewlyHeld(n)) && Extends(u, r, {w3})
    ensures Extends(s, r, Changed(n, w1, w2, w3))
  {
  }

  lemma RouteRuns(n: Node, tail: seq<Node>, bodies: seq<Node>, held: set<string>, x: string, names: seq<string>,
                  z: string, w1: string, w2: string, w3: string, s: State) returns (u: State, r: State)
    requires Clear(n, tail, bodies, held, x) && Route(n, bodies, held, z, w1, w2, w3)
    requires Ready(s, AugTargets([n] + tail)) && Holds(s, x, z, names)
    ensures Bound(n, bodies, s, u) && Holds(r, x, w3, names) && Extends(s, r, Changed(n, w1, w2, w3))
    ensures if IsPlainAssignment(n) then Star(Reach(After(n), bodies), Pool(n, bodies), bodies, u, r) else r == u
  {
    StartsReady(n, tail, s);
    u := HandThrough(n, bodies, x, names, z, w1, w2, s);
    r := u;
    if IsPlainAssignment(n) {
      r := HandAfter(n, bodies, x, w2, w3, names, u);
    } else {
      NothingAfter(n, bodies);
      assert w2 == w3;
    }
    ExtendsThen(s, u, r, w1, w2, w3, n);
  }

  lemma StrikeRuns(n: Node, bodies: seq<Node>, x: string, names: seq<string>, m: Node, w: string,
                   s: State, u: State, r: State) returns (q: State)
    requires IsPlainAssignment(n) && Bound(n, bodies, s, u) && Closed(r) && Holds(r, x, w, names)
    requires Star(Reach(After(n), bodies), Pool(n, bodies), bodies, u, r)
    requires m in Executed(Reach(After(n), bodies)) && (MayBind(m, x) || w in Mutates(m, bodies))
    ensures Runs(n, bodies, s, q) && Spoiled(q, x) && Closed(q)
    ensures forall y :: y in r.env && y != x ==> y in q.env && q.env[y] == r.env[y]
  {
    var ns, pool := Reach(After(n), bodies), Pool(n, bodies);
    q := StrikeSpoils(m, pool, bodies, x, w, names, r);
    StarOnce(ns, pool, bodies, m, r, q);
    StarConcat(ns, pool, bodies, u, r, q);
    FinishBound(n, bodies, s, u, q);
  }

  lemma StrikeAfter(n: Node, tail: seq<Node>, bodies: seq<Node>, held: set<string>, x: string, names: seq<string>,
                    m: Node, z: string, w1: string, w2: string, w3: string, s: State)
    requires Clear(n, tail, bodies, held, x) && IsPlainAssignment(n) && Route(n, bodies, held, z, w1, w2, w3)
    requires m in Executed(Reach(After(n), bodies)) && (MayBind(m, x) || w3 in Mutates(m, bodies))
    requires Ready(s, AugTargets([n] + tail)) && Holds(s, x, z, names)
    ensures EndsSpoiled([n] + tail, bodies, x, s)
  {
    var u, r := RouteRuns(n, tail, bodies, held, x, names, z, w1, w2, w3, s);
    var q := StrikeRuns(n, bodies, x, names, m, w3, s, u, r);
    RouteIsWithin(n, bodies, held, z, w1, w2, w3);
    StruckGoesOn(n, tail, bodies, held, x, s, r, q, q, Changed(n, w1, w2, w3));
    EndsAfter(n, tail, bodies, x, s, q);
  }

  lemma PassOn(n: Node, tail: seq<Node>, bodies: seq<Node>, held: set<string>, x: string, names: seq<string>,
               z: string, w1: string, w2: string, w3: string, s: State)
    requires Clear(n, tail, bodies, held, x) && CanSpoil(tail, bodies, x, w3, names)
    requires Route(n, bodies, held, z, w1, w2, w3)
    requires Ready(s, AugTargets([n] + tail)) && Holds(s, x, z, names)
    ensures EndsSpoiled([n] + tail, bodies, x, s)
  {
    var u, r := RouteRuns(n, tail, bodies, held, x, names, z, w1, w2, w3, s);
    FinishBound(n, bodies, s, u, r);
    RouteIsWithin(n, bodies, held, z, w1, w2, w3);
    StillReady(n, tail, bodies, held, x, s, r, Changed(n, w1, w2, w3));
    assert EndsSpoiled(tail, bodies, x, r);
    EndsAfter(n, tail, bodies, x, s, r);
  }

  lemma StillReady(n: Node, tail: seq<Node>, bodies: seq<Node>, held: set<string>, x: string, s: State, r: State,
                   but: set<string>)
    requires Clear(n, tail, bodies, held, x) && Ready(s, AugTargets([n] + tail)) && Extends(s, r, but)
    requires but <= HeldAfter(n, bodies, held) + NewlyHeld(n)
    ensures Ready(r, AugTargets(tail))
  {
    assert ([n] + tail)[1..] == tail;
    ReadyExtends(s, r, but, AugTargets([n] + tail), AugTargets(tail));
  }

  lemma NothingAfter(n: Node, bodies: seq<Node>)
    requires !IsPlainAssignment(n)
    ensures Executed(Reach(After(n), bodies)) == []
  {
    assert Executed([]) == [];
  }

  // ----- exactly when -----

  /** Where something strikes, the list can be spoiled through some name that may hold it. */
  lemma {:induction false} SpoilFrom(rest: seq<Node>, bodies: seq<Node>, held: set<string>, given: set<string>,
                                     x: string, names: seq<string>) returns (z: string)
    requires Bystanders(rest, x) && Apart(rest, bodies, held, given) && x in held
    requires Struck(rest, bodies, held, x)
    ensures z in held && CanSpoil(rest, bodies, x, z, names)
    decreases |rest|
  {
    var n, tail := rest[0], rest[1..];
    assert [n] + tail == rest && forall m :: m in tail ==> m in rest;
    ApartIsClear(rest, bodies, held, given, x);
    if Strikes(Reach(Before(n), bodies), bodies, HeldBefore(n, bodies, held), x) {
      z := SpoilBefore(n, tail, bodies, held, x, names);
    } else if Strikes(Reach(After(n), bodies), bodies, HeldAfter(n, bodies, held), x) {
      z := SpoilAfter(n, tail, bodies, held, x, names);
    } else {
      var w := SpoilFrom(tail, bodies, HeldAfter(n, bodies, held), given + NewlyHeld(n), x, names);
      z := SpoilLater(n, tail, bodies, held, x, names, w);
    }
  }

  lemma SpoilBefore(n: Node, tail: seq<Node>, bodies: seq<Node>, held: set<string>, x: string, names: seq<string>)
    returns (z: string)
    requires Clear(n, tail, bodies, held, x)
    requires Strikes(Reach(Before(n), bodies), bodies, HeldBefore(n, bodies, held), x)
    ensures z in held && CanSpoil([n] + tail, bodies, x, z, names)
  {
    HeldIsKept(n, bodies, held);
    var m, w := Striker(Reach(Before(n), bodies), bodies, HeldBefore(n, bodies, held), x);
    z := GiverBefore(n, bodies, held, w);
    forall s | Ready(s, AugTargets([n] + tail)) && Holds(s, x, z, names)
      ensures EndsSpoiled([n] + tail, bodies, x, s)
    {
      StrikeBefore(n, tail, bodies, held, x, names, m, z, w, s);
    }
  }

  lemma SpoilAfter(n: Node, tail: seq<Node>, bodies: seq<Node>, held: set<string>, x: string, names: seq<string>)
    returns (z: string)
    requires Clear(n, tail, bodies, held, x) && x in HeldAfter(n, bodies, held)
    requires Strikes(Reach(After(n), bodies), bodies, HeldAfter(n, bodies, held), x)
    ensures z in held && CanSpoil([n] + tail, bodies, x, z, names)
  {
    if !IsPlainAssignment(n) {
      NothingAfter(n, bodies);
    }
    var m, w3 := Striker(Reach(After(n), bodies), bodies, HeldAfter(n, bodies, held), x);
    var w1, w2;
    z, w1, w2 := FindRoute(n, bodies, held, w3);
    forall s | Ready(s, AugTargets([n] + tail)) && Holds(s, x, z, names)
      ensures EndsSpoiled([n] + tail, bodies, x, s)
    {
      StrikeAfter(n, tail, bodies, held, x, names, m, z, w1, w2, w3, s);
    }
  }

  lemma SpoilLater(n: Node, tail: seq<Node>, bodies: seq<Node>, held: set<string>, x: string, names: seq<string>,
                   w3: string) returns (z: string)
    requires Clear(n, tail, bodies, held, x) && w3 in HeldAfter(n, bodies, held)
    requires CanSpoil(tail, bodies, x, w3, names)
    ensures z in held && CanSpoil([n] + tail, bodies, x, z, names)
  {
    var w1, w2;
    z, w1, w2 := FindRoute(n, bodies, held, w3);
    forall s | Ready(s, AugTargets([n] + tail)) && Holds(s, x, z, names)
      ensures EndsSpoiled([n] + tail, bodies, x, s)
    {
      PassOn(n, tail, bodies, held, x, names, z, w1, w2, w3, s);
    }
  }

  /** `x = value` for a readable list display. */
  predicate IsPublished(value: Node, names: seq<string>) {
    value.ListExpr? && IsStatic(value, names)
  }

  ghost predicate IsLost(body: seq<Node>, bodies: seq<Node>, x: string, names: seq<string>, s: State, s': State) {
    && Closed(s) && RunsAll(body, bodies, s, s')
    && !(x in s'.env && Contents(s', s'.env[x]) == Some(Texts(names)))
  }

  /** The targets of later augmented assignments start out with values of no concern. */
  function Others(targets: set<string>): map<string, PyVal> {
    map t | t in targets :: Other(0)
  }

  lemma PublishRuns(x: string, value: Node, names: seq<string>, bodies: seq<Node>, targets: set<string>)
    returns (s: State, p: State)
    requires IsPublished(value, names) && x !in targets
    ensures Closed(s) && Runs(Let(x, value), bodies, s, p) && Ready(p, targets) && Holds(p, x, x, names)
  {
    s := State(Others(targets), map[]);
    StaticFacts(value, names, map[], s);
    p := State(s.env[x := ListRef(0)], map[0 := Texts(names)]);
    LetRuns(x, value, bodies, s, ListRef(0), State(s.env, map[0 := Texts(names)]));
  }

  lemma PublishEnds(x: string, value: Node, names: seq<string>, bodies: seq<Node>, s: State, p: State)
    returns (a: nat)
    requires IsPublished(value, names) && Closed(s) && Runs(Let(x, value), bodies, s, p)
    ensures Alive(p, x, a, names, {x})
  {
    StaticFacts(value, names, map[], s);
    var t, v, s1 := QuietLetEnds(x, value, bodies, s, p);
    StaticFacts(value, names, map[], t);
    a := v.addr;
  }

  lemma StruckIsLost(x: string, value: Node, names: seq<string>, rest: seq<Node>, bodies: seq<Node>)
    returns (s: State, s': State)
    requires IsPublished(value, names) && Bystanders(rest, x) && Apart(rest, bodies, {x}, {})
    requires Struck(rest, bodies, {x}, x)
    ensures IsLost([Let(x, value)] + rest, bodies, x, names, s, s') && x in s'.env && Closed(s')
  {
    BystandersAreNoTargets(rest, x);
    var z := SpoilFrom(rest, bodies, {x}, {}, x, names);
    var p;
    s, p := PublishRuns(x, value, names, bodies, AugTargets(rest));
    assert z == x && EndsSpoiled(rest, bodies, x, p);
    s' :| RunsAll(rest, bodies, p, s') && Spoiled(s', x) && Closed(s');
    OddIsNoText(s', s'.env[x], names);
    RunsCons(Let(x, value), rest, bodies, s, p, s');
  }

  lemma UnstruckIsKept(x: string, value: Node, names: seq<string>, rest: seq<Node>, bodies: seq<Node>,
                       s: State, s': State)
    requires IsPublished(value, names) && Bystanders(rest, x) && Apart(rest, bodies, {x}, {})
    requires !Struck(rest, bodies, {x}, x) && Closed(s) && RunsAll([Let(x, value)] + rest, bodies, s, s')
    ensures Closed(s') && x in s'.env && Contents(s', s'.env[x]) == Some(Texts(names))
  {
    var p := RunsFirst(Let(x, value), rest, bodies, s, s');
    var a := PublishEnds(x, value, names, bodies, s, p);
    RestKeepsAlive(rest, bodies, x, a, names, {x}, {}, p, s');
  }

  /** The list that `x` was bound to is lost in some run if and only if something strikes at it. */
  lemma ListIsLostExactlyWhen(x: string, value: Node, names: seq<string>, rest: seq<Node>, bodies: seq<Node>)
    requires IsPublished(value, names) && Bystanders(rest, x) && Apart(rest, bodies, {x}, {})
    ensures (exists s, s' :: IsLost([Let(x, value)] + rest, bodies, x, names, s, s')) <==> Struck(rest, bodies, {x}, x)
  {
    if Struck(rest, bodies, {x}, x) {
      var s, s' := StruckIsLost(x, value, names, rest, bodies);
    } else {
      forall s, s' | Closed(s) && RunsAll([Let(x, value)] + rest, bodies, s, s')
        ensures !IsLost([Let(x, value)] + rest, bodies, x, names, s, s')
      {
        UnstruckIsKept(x, value, names, rest, bodies, s, s');
      }
    }
  }
}
