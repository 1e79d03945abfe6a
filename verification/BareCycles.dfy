/**
 Cycles of bare aliases, of any length and in any order of their assignments: the alias rounds settle on one exactly
 when the readings it carries from one round to the next agree.
 */
module BareCycles {
  import opened Wrappers
  import opened PythonAst
  import opened ExplicitAll
  import opened AliasBindings
  import opened AliasCycles

  predicate IsBareCycle(assignments: seq<Node>, cycle: seq<Link>) {
    && IsCycle(assignments, cycle)
    && forall k :: 0 <= k < |cycle| ==> Added(assignments, cycle[k]) == []
  }

  function NextLink(cycle: seq<Link>, k: nat): Link
    requires k < |cycle|
  {
    cycle[After(k, |cycle|)]
  }

  /** The name is written before the next one is, so it reads what that held at the end of the round before. */
  predicate Carries(cycle: seq<Link>, k: nat) {
    k < |cycle| && cycle[k].index <= NextLink(cycle, k).index
  }

  function Carried(bindings: Bindings, cycle: seq<Link>, k: nat): Dotted
    requires k < |cycle|
  {
    Lookup(bindings, NextLink(cycle, k).name)
  }

  ghost predicate CarriedAgree(bindings: Bindings, cycle: seq<Link>) {
    forall k, j :: Carries(cycle, k) && Carries(cycle, j) ==> Carried(bindings, cycle, k) == Carried(bindings, cycle, j)
  }

  predicate AllRead(bindings: Bindings, cycle: seq<Link>, v: Dotted) {
    forall k :: 0 <= k < |cycle| ==> Lookup(bindings, cycle[k].name) == v
  }

  // ----- one round -----

  lemma ReadDuring(assignments: seq<Node>, bindings: Bindings, link: Link, i: nat)
    requires NonEmpty(bindings) && WritesAlone(assignments, link) && i <= |assignments|
    ensures Lookup(Round(assignments[..i], bindings), link.name) ==
            Lookup(if link.index < i then Round(assignments, bindings) else bindings, link.name)
  {
    assert assignments[..0] == [] && assignments[..|assignments|] == assignments;
    if link.index < i {
      Unwritten(assignments, bindings, link.name, i, |assignments|);
    } else {
      Unwritten(assignments, bindings, link.name, 0, i);
    }
  }

  lemma LinkMoves(assignments: seq<Node>, bindings: Bindings, link: Link, next: Link)
    requires NonEmpty(bindings) && WritesAlone(assignments, link) && WritesAlone(assignments, next)
    requires Base(AliasValue(assignments[link.index])) == next.name && Added(assignments, link) == []
    ensures Lookup(Round(assignments, bindings), link.name) ==
            Lookup(if next.index < link.index then Round(assignments, bindings) else bindings, next.name)
  {
    var i := link.index;
    ReadDuring(assignments, bindings, link, i + 1);
    ReadDuring(assignments, bindings, next, i);
    RoundIsNonEmpty(assignments[..i], bindings);
    assert assignments[..i + 1][..i] == assignments[..i];
    ApplyWrites(assignments[i], Round(assignments[..i], bindings), link.name);
  }

  /** Each name takes over what the next one reads at that moment. */
  lemma RoundMoves(assignments: seq<Node>, bindings: Bindings, cycle: seq<Link>, k: nat)
    requires NonEmpty(bindings) && IsBareCycle(assignments, cycle) && k < |cycle|
    ensures Lookup(Round(assignments, bindings), cycle[k].name) ==
            Carried(if Carries(cycle, k) then bindings else Round(assignments, bindings), cycle, k)
  {
    var next := After(k, |cycle|);
    assert Base(AliasValue(assignments[cycle[k].index])) == cycle[next].name;
    LinkMoves(assignments, bindings, cycle[k], cycle[next]);
  }

  lemma {:induction false} AgreeingSpreads(assignments: seq<Node>, bindings: Bindings, cycle: seq<Link>, v: Dotted,
                                           k: nat)
    requires NonEmpty(bindings) && IsBareCycle(assignments, cycle) && k < |cycle|
    requires forall j :: Carries(cycle, j) ==> Carried(bindings, cycle, j) == v
    ensures Lookup(Round(assignments, bindings), cycle[k].name) == v
    decreases cycle[k].index
  {
    RoundMoves(assignments, bindings, cycle, k);
    if !Carries(cycle, k) {
      AgreeingSpreads(assignments, bindings, cycle, v, After(k, |cycle|));
    }
  }

  function Previous(k: nat, n: nat): nat
    requires k < n
  {
    if k == 0 then n - 1 else k - 1
  }

  /** After a round, what is carried next is all there is. */
  lemma {:induction false} NothingElseIsRead(assignments: seq<Node>, bindings: Bindings, cycle: seq<Link>, v: Dotted,
                                             k: nat)
    requires NonEmpty(bindings) && IsBareCycle(assignments, cycle) && k < |cycle|
    requires forall j :: Carries(cycle, j) ==> Carried(Round(assignments, bindings), cycle, j) == v
    ensures Lookup(Round(assignments, bindings), cycle[k].name) == v
    decreases |assignments| - cycle[k].index
  {
    var p := Previous(k, |cycle|);
    assert After(p, |cycle|) == k && NextLink(cycle, p) == cycle[k];
    if Carries(cycle, p) {
      assert Carried(Round(assignments, bindings), cycle, p) == v;
    } else {
      RoundMoves(assignments, bindings, cycle, p);
      NothingElseIsRead(assignments, bindings, cycle, v, p);
    }
  }

  // ----- all rounds -----

  /** All names of the cycle read alike. */
  ghost predicate IsEven(bindings: Bindings, cycle: seq<Link>) {
    cycle != [] && AllRead(bindings, cycle, Lookup(bindings, cycle[0].name))
  }

  lemma {:induction false} SomethingIsCarried(cycle: seq<Link>, k: nat) returns (j: nat)
    requires k < |cycle|
    ensures Carries(cycle, j)
    decreases cycle[k].index
  {
    if Carries(cycle, k) {
      j := k;
    } else {
      j := SomethingIsCarried(cycle, After(k, |cycle|));
    }
  }

  lemma EvenRoundAgrees(assignments: seq<Node>, bindings: Bindings, cycle: seq<Link>)
    requires NonEmpty(bindings) && IsBareCycle(assignments, cycle) && IsEven(Round(assignments, bindings), cycle)
    ensures CarriedAgree(bindings, cycle)
  {
    var after := Round(assignments, bindings);
    forall k: nat | Carries(cycle, k)
      ensures Carried(bindings, cycle, k) == Lookup(after, cycle[0].name)
    {
      RoundMoves(assignments, bindings, cycle, k);
    }
  }

  lemma AgreeingRoundIsEven(assignments: seq<Node>, bindings: Bindings, cycle: seq<Link>)
    requires NonEmpty(bindings) && IsBareCycle(assignments, cycle) && CarriedAgree(bindings, cycle)
    ensures IsEven(Round(assignments, bindings), cycle)
  {
    var j := SomethingIsCarried(cycle, 0);
    forall k | 0 <= k < |cycle|
      ensures Lookup(Round(assignments, bindings), cycle[k].name) == Carried(bindings, cycle, j)
    {
      AgreeingSpreads(assignments, bindings, cycle, Carried(bindings, cycle, j), k);
    }
  }

  lemma AgreementAfterIsEven(assignments: seq<Node>, bindings: Bindings, cycle: seq<Link>)
    requires NonEmpty(bindings) && IsBareCycle(assignments, cycle)
    requires CarriedAgree(Round(assignments, bindings), cycle)
    ensures IsEven(Round(assignments, bindings), cycle)
  {
    var after := Round(assignments, bindings);
    var j := SomethingIsCarried(cycle, 0);
    forall k | 0 <= k < |cycle|
      ensures Lookup(after, cycle[k].name) == Carried(after, cycle, j)
    {
      NothingElseIsRead(assignments, bindings, cycle, Carried(after, cycle, j), k);
    }
  }

  lemma EvenAgrees(bindings: Bindings, cycle: seq<Link>)
    requires IsEven(bindings, cycle)
    ensures CarriedAgree(bindings, cycle)
  {
    assert forall k :: Carries(cycle, k) ==> Carried(bindings, cycle, k) == Lookup(bindings, cycle[0].name);
  }

  /** A round turns the carried readings on, and loses none. */
  lemma RoundKeepsAgreement(assignments: seq<Node>, bindings: Bindings, cycle: seq<Link>)
    requires NonEmpty(bindings) && IsBareCycle(assignments, cycle)
    ensures CarriedAgree(Round(assignments, bindings), cycle) <==> CarriedAgree(bindings, cycle)
  {
    if CarriedAgree(bindings, cycle) {
      AgreeingRoundIsEven(assignments, bindings, cycle);
      EvenAgrees(Round(assignments, bindings), cycle);
    } else if CarriedAgree(Round(assignments, bindings), cycle) {
      AgreementAfterIsEven(assignments, bindings, cycle);
      EvenRoundAgrees(assignments, bindings, cycle);
    }
  }

  lemma {:induction false} RoundsKeepAgreement(assignments: seq<Node>, imports: Bindings, cycle: seq<Link>, n: nat)
    requires NonEmpty(imports) && IsBareCycle(assignments, cycle)
    ensures NonEmpty(Rounds(assignments, imports, n))
    ensures CarriedAgree(Rounds(assignments, imports, n), cycle) <==> CarriedAgree(imports, cycle)
  {
    RoundsAreNonEmpty(assignments, imports, n);
    if n > 0 {
      RoundsKeepAgreement(assignments, imports, cycle, n - 1);
      RoundKeepsAgreement(assignments, Rounds(assignments, imports, n - 1), cycle);
    }
  }

  ghost predicate SameReadings(a: Bindings, b: Bindings, cycle: seq<Link>) {
    forall k: nat :: k < |cycle| ==> Lookup(a, cycle[k].name) == Lookup(b, cycle[k].name)
  }

  /** If a round changes no reading of the cycle, they are all the same. */
  lemma {:induction false} UnchangedIsEven(assignments: seq<Node>, bindings: Bindings, cycle: seq<Link>, k: nat)
    requires NonEmpty(bindings) && IsBareCycle(assignments, cycle) && k < |cycle|
    requires SameReadings(Round(assignments, bindings), bindings, cycle)
    ensures Lookup(bindings, cycle[k].name) == Lookup(bindings, cycle[0].name)
  {
    if k > 0 {
      UnchangedIsEven(assignments, bindings, cycle, k - 1);
      RoundMoves(assignments, bindings, cycle, k - 1);
      assert NextLink(cycle, k - 1) == cycle[k];
    }
  }

  lemma SettledRoundAgrees(assignments: seq<Node>, now: Bindings, cycle: seq<Link>)
    requires NonEmpty(now) && IsBareCycle(assignments, cycle) && SameReadings(Round(assignments, now), now, cycle)
    ensures CarriedAgree(now, cycle)
  {
    forall k | 0 <= k < |cycle|
      ensures Lookup(now, cycle[k].name) == Lookup(now, cycle[0].name)
    {
      UnchangedIsEven(assignments, now, cycle, k);
    }
    EvenAgrees(now, cycle);
  }

  lemma EvenRoundSettles(assignments: seq<Node>, now: Bindings, cycle: seq<Link>)
    requires NonEmpty(now) && IsBareCycle(assignments, cycle) && IsEven(now, cycle)
    ensures SameReadings(Round(assignments, now), now, cycle)
  {
    var v := Lookup(now, cycle[0].name);
    assert forall k :: Carries(cycle, k) ==> Carried(now, cycle, k) == v;
    forall k: nat | k < |cycle|
      ensures Lookup(Round(assignments, now), cycle[k].name) == v
    {
      AgreeingSpreads(assignments, now, cycle, v, k);
    }
  }

  /** After one round, another changes no reading of the cycle. */
  ghost predicate SettlesAfter(assignments: seq<Node>, bindings: Bindings, cycle: seq<Link>) {
    var now := Round(assignments, bindings);
    SameReadings(Round(assignments, now), now, cycle)
  }

  lemma RoundSettlesExactlyWhen(assignments: seq<Node>, imports: Bindings, before: Bindings, cycle: seq<Link>)
    requires NonEmpty(before) && IsBareCycle(assignments, cycle)
    requires CarriedAgree(before, cycle) <==> CarriedAgree(imports, cycle)
    ensures SettlesAfter(assignments, before, cycle) <==> CarriedAgree(imports, cycle)
  {
    var now := Round(assignments, before);
    RoundIsNonEmpty(assignments, before);
    if CarriedAgree(before, cycle) {
      AgreeingRoundIsEven(assignments, before, cycle);
      EvenRoundSettles(assignments, now, cycle);
    } else if SameReadings(Round(assignments, now), now, cycle) {
      SettledRoundAgrees(assignments, now, cycle);
      RoundKeepsAgreement(assignments, before, cycle);
    }
  }

  lemma RoundsSettleAfter(assignments: seq<Node>, imports: Bindings, cycle: seq<Link>, n: nat)
    requires n > 0
    ensures SettlesAfter(assignments, Rounds(assignments, imports, n - 1), cycle)
            <==> SameReadings(Rounds(assignments, imports, n + 1), Rounds(assignments, imports, n), cycle)
  {
    var before := Rounds(assignments, imports, n - 1);
    assert Rounds(assignments, imports, n) == Round(assignments, before);
    assert Rounds(assignments, imports, n + 1) == Round(assignments, Round(assignments, before));
  }

  lemma LaterRoundSettlesExactlyWhen(assignments: seq<Node>, imports: Bindings, cycle: seq<Link>, n: nat)
    requires NonEmpty(imports) && IsBareCycle(assignments, cycle)
    ensures SettlesAfter(assignments, Rounds(assignments, imports, n), cycle) <==> CarriedAgree(imports, cycle)
  {
    RoundsKeepAgreement(assignments, imports, cycle, n);
    RoundSettlesExactlyWhen(assignments, imports, Rounds(assignments, imports, n), cycle);
  }

  /**
   For every cycle of bare aliases, whatever else is assigned: from the first round on, a further round leaves its
   readings alone if and only if the readings carried into the first round agreed.
   */
  lemma BareCycleSettlesExactlyWhen(assignments: seq<Node>, imports: Bindings, cycle: seq<Link>, n: nat)
    requires NonEmpty(imports) && IsBareCycle(assignments, cycle) && n > 0
    ensures SameReadings(Rounds(assignments, imports, n + 1), Rounds(assignments, imports, n), cycle)
            <==> CarriedAgree(imports, cycle)
  {
    LaterRoundSettlesExactlyWhen(assignments, imports, cycle, n - 1);
    RoundsSettleAfter(assignments, imports, cycle, n);
  }
}
