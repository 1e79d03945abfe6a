/**
 Alias rounds on cyclic assignments: a cycle that adds attributes has no fixpoint; one of bare names may settle or
 may go round for ever.
 */
module AliasCycles {
  import opened Wrappers
  import opened PythonAst
  import opened ExplicitAll
  import opened AliasBindings

  // ----- what one round writes -----

  lemma ApplyWrites(node: Node, bindings: Bindings, x: string)
    requires NonEmpty(bindings)
    ensures NonEmpty(Apply(node, bindings))
    ensures Lookup(Apply(node, bindings), x) ==
            if x in AliasNames(node) then
              Lookup(bindings, Base(AliasValue(node))) + Attributes(AliasValue(node))
            else Lookup(bindings, x)
  {
    var value := AssignedNamesAndValue(node).1;
    if value.Some? {
      ChainIsQualified(value.value, bindings);
      if IsChain(value.value) {
        assert Lookup(bindings, Base(value.value)) != [];
      }
    }
  }

  lemma {:induction false} RoundIsNonEmpty(assignments: seq<Node>, bindings: Bindings)
    requires NonEmpty(bindings)
    ensures NonEmpty(Round(assignments, bindings))
  {
    if assignments != [] {
      RoundIsNonEmpty(assignments[..|assignments| - 1], bindings);
      ApplyWrites(assignments[|assignments| - 1], Round(assignments[..|assignments| - 1], bindings), "");
    }
  }

  /** Between two positions at which `x` is not written, its reading stays. */
  lemma {:induction false} Unwritten(assignments: seq<Node>, bindings: Bindings, x: string, i: nat, j: nat)
    requires NonEmpty(bindings) && i <= j <= |assignments|
    requires forall k :: i <= k < j ==> x !in AliasNames(assignments[k])
    ensures Lookup(Round(assignments[..j], bindings), x) == Lookup(Round(assignments[..i], bindings), x)
    decreases j
  {
    if i < j {
      assert assignments[..j][..j - 1] == assignments[..j - 1];
      Unwritten(assignments, bindings, x, i, j - 1);
      RoundIsNonEmpty(assignments[..j - 1], bindings);
      ApplyWrites(assignments[j - 1], Round(assignments[..j - 1], bindings), x);
    }
  }

  // ----- cycles -----

  /** A name and the assignment that writes it. */
  datatype Link = Link(index: nat, name: string)

  function After(k: nat, n: nat): nat {
    if k + 1 < n then k + 1 else 0
  }

  /** Only this assignment writes the name. */
  predicate WritesAlone(assignments: seq<Node>, link: Link) {
    && link.index < |assignments| && link.name in AliasNames(assignments[link.index])
    && forall j :: 0 <= j < |assignments| && link.name in AliasNames(assignments[j]) ==> j == link.index
  }

  function Added(assignments: seq<Node>, link: Link): Dotted
    requires WritesAlone(assignments, link)
  {
    Attributes(AliasValue(assignments[link.index]))
  }

  /** Each name is an alias that starts from the next one, all the way round. */
  predicate IsCycle(assignments: seq<Node>, cycle: seq<Link>) {
    && cycle != []
    && (forall k :: 0 <= k < |cycle| ==> WritesAlone(assignments, cycle[k]))
    && (forall k, j | 0 <= k < |cycle| && 0 <= j < |cycle| && j == After(k, |cycle|) ::
          Base(AliasValue(assignments[cycle[k].index])) == cycle[j].name)
  }

  /** At a fixpoint no reading changes in the middle of a round either. */
  lemma FixedThroughout(assignments: seq<Node>, bindings: Bindings, link: Link, i: nat)
    requires NonEmpty(bindings) && Round(assignments, bindings) == bindings
    requires WritesAlone(assignments, link) && i <= |assignments|
    ensures Lookup(Round(assignments[..i], bindings), link.name) == Lookup(bindings, link.name)
  {
    assert assignments[..0] == [] && assignments[..|assignments|] == assignments;
    if i <= link.index {
      Unwritten(assignments, bindings, link.name, 0, i);
    } else {
      Unwritten(assignments, bindings, link.name, i, |assignments|);
    }
  }

  /** There a name reads as the next one, with what its assignment adds. */
  lemma FixedLink(assignments: seq<Node>, bindings: Bindings, cycle: seq<Link>, k: nat)
    requires NonEmpty(bindings) && Round(assignments, bindings) == bindings
    requires IsCycle(assignments, cycle) && k < |cycle|
    ensures Lookup(bindings, cycle[k].name) ==
            Lookup(bindings, cycle[After(k, |cycle|)].name) + Added(assignments, cycle[k])
  {
    var link, i := cycle[k], cycle[k].index;
    FixedThroughout(assignments, bindings, link, i + 1);
    var next := After(k, |cycle|);
    assert Base(AliasValue(assignments[cycle[k].index])) == cycle[next].name;
    FixedThroughout(assignments, bindings, cycle[next], i);
    RoundIsNonEmpty(assignments[..i], bindings);
    assert assignments[..i + 1][..i] == assignments[..i];
    ApplyWrites(assignments[i], Round(assignments[..i], bindings), link.name);
  }

  function Length(bindings: Bindings, link: Link): nat {
    |Lookup(bindings, link.name)|
  }

  ghost predicate IsFixed(assignments: seq<Node>, bindings: Bindings, cycle: seq<Link>) {
    NonEmpty(bindings) && Round(assignments, bindings) == bindings && IsCycle(assignments, cycle)
  }

  lemma FixedLength(assignments: seq<Node>, bindings: Bindings, cycle: seq<Link>, k: nat)
    requires IsFixed(assignments, bindings, cycle) && k < |cycle|
    ensures WritesAlone(assignments, cycle[k])
    ensures Length(bindings, cycle[k])
         == Length(bindings, cycle[After(k, |cycle|)]) + |Added(assignments, cycle[k])|
  {
    FixedLink(assignments, bindings, cycle, k);
  }

  lemma {:induction false} NoLongerThanTheFirst(assignments: seq<Node>, bindings: Bindings, cycle: seq<Link>, k: nat)
    requires IsFixed(assignments, bindings, cycle) && k < |cycle|
    ensures Length(bindings, cycle[k]) <= Length(bindings, cycle[0])
  {
    if k > 0 {
      NoLongerThanTheFirst(assignments, bindings, cycle, k - 1);
      FixedLength(assignments, bindings, cycle, k - 1);
    }
  }

  lemma {:induction false} NoShorterThanTheFirst(assignments: seq<Node>, bindings: Bindings, cycle: seq<Link>, k: nat)
    requires IsFixed(assignments, bindings, cycle) && k < |cycle|
    ensures Length(bindings, cycle[0]) <= Length(bindings, cycle[k])
    decreases |cycle| - k
  {
    FixedLength(assignments, bindings, cycle, k);
    if k + 1 < |cycle| {
      NoShorterThanTheFirst(assignments, bindings, cycle, k + 1);
    }
  }

  lemma FixedCycleAddsNothing(assignments: seq<Node>, bindings: Bindings, cycle: seq<Link>, k: nat)
    requires IsFixed(assignments, bindings, cycle) && k < |cycle|
    ensures Added(assignments, cycle[k]) == []
  {
    FixedLength(assignments, bindings, cycle, k);
    NoLongerThanTheFirst(assignments, bindings, cycle, k);
    NoShorterThanTheFirst(assignments, bindings, cycle, After(k, |cycle|));
  }

  /** Going once round, the readings would have to be longer than themselves. */
  lemma AddingCycleHasNoFixpoint(assignments: seq<Node>, bindings: Bindings, cycle: seq<Link>, k: nat)
    requires NonEmpty(bindings) && IsCycle(assignments, cycle)
    requires k < |cycle| && Added(assignments, cycle[k]) != []
    ensures Round(assignments, bindings) != bindings
  {
    if Round(assignments, bindings) == bindings {
      FixedCycleAddsNothing(assignments, bindings, cycle, k);
    }
  }

  lemma {:induction false} RoundsAreNonEmpty(assignments: seq<Node>, imports: Bindings, n: nat)
    requires NonEmpty(imports)
    ensures NonEmpty(Rounds(assignments, imports, n))
  {
    if n > 0 {
      RoundsAreNonEmpty(assignments, imports, n - 1);
      RoundIsNonEmpty(assignments, Rounds(assignments, imports, n - 1));
    }
  }

  /** So on any assignments with such a cycle, every round changes something: the loop always runs to its limit. */
  lemma AddingCycleNeverSettles(assignments: seq<Node>, imports: Bindings, cycle: seq<Link>, k: nat, n: nat)
    requires NonEmpty(imports) && IsCycle(assignments, cycle)
    requires k < |cycle| && Added(assignments, cycle[k]) != []
    ensures Rounds(assignments, imports, n + 1) != Rounds(assignments, imports, n)
  {
    RoundsAreNonEmpty(assignments, imports, n);
    AddingCycleHasNoFixpoint(assignments, Rounds(assignments, imports, n), cycle, k);
  }

  // ----- cycles of bare names: decided by the order of the assignments -----

  function BareAlias(x: string, y: string): Node { Assign([Name(x, Store)], Name(y, Load)) }

  lemma BareAliasFacts(x: string, y: string)
    ensures AliasNames(BareAlias(x, y)) == [x] && IsAlias(BareAlias(x, y))
    ensures Base(AliasValue(BareAlias(x, y))) == y && Attributes(AliasValue(BareAlias(x, y))) == []
  {
    var targets := [Name(x, Store)];
    assert targets[1..] == [] && BindingNamesAll([]) == [] && BindingNames(targets[0]) == [x];
    assert BindingNamesAll(targets) == [x];
  }

  lemma BareAliasWrites(x: string, y: string, bindings: Bindings)
    ensures Apply(BareAlias(x, y), bindings) == bindings[x := Lookup(bindings, y)]
  {
    BareAliasFacts(x, y);
    assert BindEach(bindings, [x], Lookup(bindings, y)) == bindings[x := Lookup(bindings, y)];
  }

  lemma RoundAppends(front: seq<Node>, last: Node, bindings: Bindings)
    ensures Round(front + [last], bindings) == Apply(last, Round(front, bindings))
  {
    assert (front + [last])[..|front|] == front;
  }

  lemma SettlesAt(assignments: seq<Node>, bindings: Bindings, first: Bindings)
    requires Round(assignments, bindings) == first && Round(assignments, first) == first
    ensures Rounds(assignments, bindings, 2) == Rounds(assignments, bindings, 1)
  {
    assert Rounds(assignments, bindings, 0) == bindings;
    assert Rounds(assignments, bindings, 1) == first;
  }

  lemma SwingsBetween(assignments: seq<Node>, bindings: Bindings, first: Bindings, second: Bindings)
    requires Round(assignments, bindings) == first && Round(assignments, first) == second
    requires Round(assignments, second) == first
    ensures Rounds(assignments, bindings, 1) == first && Rounds(assignments, bindings, 2) == second
    ensures Rounds(assignments, bindings, 3) == first
  {
    assert Rounds(assignments, bindings, 0) == bindings;
    assert Rounds(assignments, bindings, 1) == first;
    assert Rounds(assignments, bindings, 2) == second;
  }

  function TwoCycle(x: string, y: string): seq<Node> {
    [] + [BareAlias(x, y)] + [BareAlias(y, x)]
  }

  lemma TwoRound(x: string, y: string, bindings: Bindings)
    requires x != y
    ensures var v := Lookup(bindings, y);
            Round(TwoCycle(x, y), bindings) == bindings[x := v][y := v]
  {
    var a, b := BareAlias(x, y), BareAlias(y, x);
    var v := Lookup(bindings, y);
    RoundAppends([] + [a], b, bindings);
    RoundAppends([], a, bindings);
    BareAliasWrites(x, y, bindings);
    BareAliasWrites(y, x, bindings[x := v]);
  }

  /** `x = y; y = x`, for all names: the second round changes nothing. */
  lemma TwoCycleSettles(x: string, y: string, bindings: Bindings)
    requires x != y
    ensures Rounds(TwoCycle(x, y), bindings, 2) == Rounds(TwoCycle(x, y), bindings, 1)
  {
    var v := Lookup(bindings, y);
    var first := bindings[x := v][y := v];
    assert first[x := v][y := v] == first && Lookup(first, y) == v;
    TwoRound(x, y, bindings);
    TwoRound(x, y, first);
    SettlesAt(TwoCycle(x, y), bindings, first);
  }

  function ThreeCycle(a: string, b: string, c: string): seq<Node> {
    [] + [BareAlias(a, b)] + [BareAlias(b, c)] + [BareAlias(c, a)]
  }

  function Turned(a: string, b: string, c: string, v: Dotted, w: Dotted, bindings: Bindings): Bindings {
    bindings[a := v][b := w][c := v]
  }

  lemma ThreeRound(a: string, b: string, c: string, bindings: Bindings)
    requires a != b && b != c && a != c
    ensures Round(ThreeCycle(a, b, c), bindings)
         == Turned(a, b, c, Lookup(bindings, b), Lookup(bindings, c), bindings)
  {
    var x, y, z := BareAlias(a, b), BareAlias(b, c), BareAlias(c, a);
    var v, w := Lookup(bindings, b), Lookup(bindings, c);
    RoundAppends([] + [x] + [y], z, bindings);
    RoundAppends([] + [x], y, bindings);
    RoundAppends([], x, bindings);
    BareAliasWrites(a, b, bindings);
    BareAliasWrites(b, c, bindings[a := v]);
    BareAliasWrites(c, a, bindings[a := v][b := w]);
  }

  /** `a = b; b = c; c = a`: two readings go round for ever, so it settles exactly when they are the same. */
  lemma ThreeCycleSettlesExactlyWhen(a: string, b: string, c: string, bindings: Bindings)
    requires a != b && b != c && a != c
    ensures var cycle := ThreeCycle(a, b, c);
            && Rounds(cycle, bindings, 3) == Rounds(cycle, bindings, 1)
            && (Rounds(cycle, bindings, 2) == Rounds(cycle, bindings, 1)
                <==> Lookup(bindings, b) == Lookup(bindings, c))
  {
    var v, w := Lookup(bindings, b), Lookup(bindings, c);
    var first := Turned(a, b, c, v, w, bindings);
    var second := Turned(a, b, c, w, v, first);
    TurnedTwice(a, b, c, v, w, bindings);
    ThreeRound(a, b, c, bindings);
    ThreeRound(a, b, c, first);
    ThreeRound(a, b, c, second);
    SwingsBetween(ThreeCycle(a, b, c), bindings, first, second);
  }

  lemma TurnedTwice(a: string, b: string, c: string, v: Dotted, w: Dotted, bindings: Bindings)
    requires a != b && b != c && a != c
    ensures var first := Turned(a, b, c, v, w, bindings);
            var second := Turned(a, b, c, w, v, first);
            && Lookup(first, b) == w && Lookup(first, c) == v && Lookup(second, b) == v && Lookup(second, c) == w
            && Turned(a, b, c, v, w, second) == first && (second == first <==> v == w)
  {
    var first := Turned(a, b, c, v, w, bindings);
    assert first[a] == v && Turned(a, b, c, w, v, first)[a] == w;
  }

  // ----- how an adding cycle grows -----

  function Repeat(s: string, k: nat): Dotted {
    if k == 0 then [] else Repeat(s, k - 1) + [s]
  }

  function SelfAlias(x: string, attr: string): Node {
    Assign([Name(x, Store)], Attribute(Name(x, Load), attr, Load))
  }

  lemma SelfAliasFacts(x: string, attr: string)
    ensures IsAlias(SelfAlias(x, attr)) && AliasNames(SelfAlias(x, attr)) == [x]
    ensures Base(AliasValue(SelfAlias(x, attr))) == x && Attributes(AliasValue(SelfAlias(x, attr))) == [attr]
  {
    var targets := [Name(x, Store)];
    assert targets[1..] == [] && BindingNamesAll([]) == [] && BindingNames(targets[0]) == [x];
    assert BindingNamesAll(targets) == [x];
    assert Attributes(Attribute(Name(x, Load), attr, Load)) == [] + [attr];
  }

  /** `x = x.attr` grows by one component a round, from any imports. */
  lemma {:induction false} SelfAliasGrows(x: string, attr: string, imports: Bindings, k: nat)
    requires NonEmpty(imports)
    ensures Lookup(Rounds([SelfAlias(x, attr)], imports, k), x) == Lookup(imports, x) + Repeat(attr, k)
  {
    var list := [SelfAlias(x, attr)];
    if k > 0 {
      SelfAliasGrows(x, attr, imports, k - 1);
      RoundsAreNonEmpty(list, imports, k - 1);
      SelfAliasRound(x, attr, Rounds(list, imports, k - 1));
      assert Repeat(attr, k) == Repeat(attr, k - 1) + [attr];
    } else {
      assert Lookup(imports, x) + [] == Lookup(imports, x);
    }
  }

  lemma SelfAliasRound(x: string, attr: string, bindings: Bindings)
    requires NonEmpty(bindings)
    ensures Lookup(Round([SelfAlias(x, attr)], bindings), x) == Lookup(bindings, x) + [attr]
  {
    SelfAliasFacts(x, attr);
    RoundAppends([], SelfAlias(x, attr), bindings);
    assert [] + [SelfAlias(x, attr)] == [SelfAlias(x, attr)];
    ApplyWrites(SelfAlias(x, attr), bindings, x);
  }
}
