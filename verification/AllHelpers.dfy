/**
 Families of modules around a helper, `h = value; ...; __all__ = h`, and of single assignments: for every helper and
 every value, exactly when the scan misreads them.
 */
module AllHelpers {
  import opened Wrappers
  import opened PythonAst
  import opened ExplicitAll
  import opened ModuleRuns
  import opened AllVisibility
  import opened AllSoundness
  import opened ModuleSteps
  import opened ListSurvival
  import opened ListFate
  import opened AllBlindSpots

  const Nowhere := State(map[], map[])

  // ----- one assignment -----

  predicate IsDisplay(value: Node, elts: seq<Node>) {
    value in [ListExpr(elts), TupleExpr(elts), SetExpr(elts)]
  }

  /** `__all__ = value` for a display of readable elements: misread exactly when it is a set display. */
  lemma DisplayIsMisreadExactlyWhen(value: Node, elts: seq<Node>, names: seq<string>)
    requires IsDisplay(value, elts)
    requires ElementsListsOnly(elts, {ALL}) && StaticElements(elts, map[]) == Some(names)
    ensures Misreads([Let(ALL, value)] + [], names) <==> value.SetExpr?
  {
    if value.SetExpr? {
      SetDisplayMisreads(elts, names);
    } else {
      var bodies := Bodies([Let(ALL, value)] + []);
      assert Tracked({}) == {ALL};
      LetIsOk(ALL, value, bodies, {}, false, map[]);
      DisciplinedCons(NewScan, Let(ALL, value), [], bodies, 0, {}, false);
      DisciplinedIsNotMisread([Let(ALL, value)] + [], {}, false, names);
    }
  }

  lemma SetDisplayMisreads(elts: seq<Node>, names: seq<string>)
    requires ElementsListsOnly(elts, {ALL}) && StaticElements(elts, map[]) == Some(names)
    ensures Misreads([Let(ALL, SetExpr(elts))] + [], names)
  {
    var value, body := SetExpr(elts), [Let(ALL, SetExpr(elts))] + [];
    StaticElementsAreQuiet(elts, map[], {ALL});
    WalkOfOne(value);
    QuietIsPlain([value], []);
    ScanOfLet(NewScan, ALL, value, 0);
    ScanCons(NewScan, Let(ALL, value), [], 0);
    var s' := State(map[ALL := Other(0)], map[]);
    LetRuns(ALL, value, Bodies(body), Nowhere, Other(0), Nowhere);
    RunsCons(Let(ALL, value), [], Bodies(body), Nowhere, s', s');
    assert EndsOtherwise(body, names, Nowhere, s');
  }

  lemma WalkOfOne(n: Node)
    ensures Executed([n]) == [n] + Executed(EagerParts(n))
  {
    assert [n][1..] == [] && ExecutedBy(n) + Executed([]) == ExecutedBy(n);
  }

  // ----- a helper in between -----

  function Publication(h: string): Node { Let(ALL, Read(h)) }

  /** `h = value`, then some statements, then `__all__ = h`. */
  function Around(h: string, value: Node, rest: seq<Node>): seq<Node> {
    [Let(h, value)] + (rest + [Publication(h)])
  }

  lemma ReadFacts(h: string)
    ensures !Known([Read(h)]) && Quiet([Read(h)]) && Executed([Read(h)]) == [Read(h)]
  {
    WalkOfOne(Read(h));
    QuietIsPlain([Read(h)], []);
  }

  lemma AroundBodies(h: string, value: Node, names: seq<string>, rest: seq<Node>)
    requires IsStatic(value, names)
    ensures Bodies(Around(h, value, rest)) == Bodies(rest)
  {
    var last := Publication(h);
    ReadFacts(h);
    LetHasNoBodies(ALL, Read(h));
    BodiesCons(last, []);
    assert [last] + [] == [last];
    BodiesConcat(rest, [last]);
    PublishedBodies(h, value, names, rest + [last]);
  }

  lemma HelperIsRead(h: string, value: Node, names: seq<string>)
    requires h != ALL && IsStatic(value, names)
    ensures ScanStep(NewScan, Let(h, value), 0).values == map[h := names]
  {
    StaticFacts(value, names, map[], Nowhere);
    ScanOfLet(NewScan, h, value, 0);
  }

  lemma {:induction false} ScanConcat(sc: Scan, a: seq<Node>, b: seq<Node>, index: nat)
    ensures ScanFrom(sc, a + b, index) == ScanFrom(ScanFrom(sc, a, index), b, index + |a|)
    decreases |a|
  {
    if a == [] {
      assert a + b == b;
    } else {
      assert (a + b)[0] == a[0] && (a + b)[1..] == a[1..] + b;
      ScanConcat(ScanStep(sc, a[0], index), a[1..], b, index + 1);
    }
  }

  /** The reading of the helper is what `__all__` is reported as. */
  lemma AroundIsRead(h: string, value: Node, rest: seq<Node>, names: seq<string>)
    requires h != ALL && IsStatic(value, names)
    ensures var sc := ScanFrom(ScanStep(NewScan, Let(h, value), 0), rest, 1);
            h in sc.values ==> ScanModule(Around(h, value, rest)).explicit == Some(sc.values[h])
  {
    var sc := ScanStep(NewScan, Let(h, value), 0);
    ReadFacts(h);
    ScanCons(NewScan, Let(h, value), rest + [Publication(h)], 0);
    ScanConcat(sc, rest, [Publication(h)], 1);
    assert [Publication(h)] + [] == [Publication(h)];
    ScanCons(ScanFrom(sc, rest, 1), Publication(h), [], 1 + |rest|);
    ScanOfLet(ScanFrom(sc, rest, 1), ALL, Read(h), 1 + |rest|);
  }

  /** The statement assigns the helper neither by its plain name nor by unpacking, and does not extend it. */
  predicate Onlooker(n: Node, h: string) {
    Bystander(n, h) && h !in AssignedNamesAndValue(n).0
  }

  predicate Onlookers(rest: seq<Node>, h: string) {
    forall n :: n in rest ==> Onlooker(n, h)
  }

  lemma OnlookerKeepsReading(sc: Scan, n: Node, index: nat, h: string)
    requires h != ALL && Onlooker(n, h) && h in sc.values
    ensures h in ScanStep(sc, n, index).values && ScanStep(sc, n, index).values[h] == sc.values[h]
  {
  }

  /** The scan keeps its reading of the helper, whatever they do to it. */
  lemma {:induction false} OnlookersKeepReading(sc: Scan, rest: seq<Node>, index: nat, h: string)
    requires h != ALL && Onlookers(rest, h) && h in sc.values
    ensures h in ScanFrom(sc, rest, index).values && ScanFrom(sc, rest, index).values[h] == sc.values[h]
    decreases |rest|
  {
    if rest != [] {
      OnlookerKeepsReading(sc, rest[0], index, h);
      assert forall n :: n in rest[1..] ==> n in rest;
      OnlookersKeepReading(ScanStep(sc, rest[0], index), rest[1..], index + 1, h);
    }
  }

  lemma AroundIsReported(h: string, value: Node, names: seq<string>, rest: seq<Node>)
    requires h != ALL && IsStatic(value, names) && Onlookers(rest, h)
    ensures ScanModule(Around(h, value, rest)).explicit == Some(names)
  {
    HelperIsRead(h, value, names);
    OnlookersKeepReading(ScanStep(NewScan, Let(h, value), 0), rest, 1, h);
    AroundIsRead(h, value, rest, names);
  }

  lemma ReadRuns(h: string, bodies: seq<Node>, s: State)
    requires Closed(s) && h in s.env
    ensures RunsAll([Publication(h)], bodies, s, s.(env := s.env[ALL := s.env[h]]))
  {
    var s' := s.(env := s.env[ALL := s.env[h]]);
    LetRuns(ALL, Read(h), bodies, s, s.env[h], s);
    RunsCons(Publication(h), [], bodies, s, s', s');
    assert [Publication(h)] + [] == [Publication(h)];
  }

  lemma CopyEnds(y: string, x: string, bodies: seq<Node>, s: State, s': State)
    requires Closed(s) && x in s.env && Runs(Let(y, Read(x)), bodies, s, s')
    ensures Closed(s') && s'.env == s.env[y := s.env[x]] && HeapGrows(s, s')
  {
    ReadFacts(x);
    var t, v, s1 := QuietLetEnds(y, Read(x), bodies, s, s');
  }

  /** Publishing takes what the helper holds. */
  lemma PublicationEnds(h: string, bodies: seq<Node>, s: State, s': State)
    requires Closed(s) && h in s.env && Runs(Publication(h), bodies, s, s')
    ensures Closed(s') && s'.env == s.env[ALL := s.env[h]] && HeapGrows(s, s')
  {
    CopyEnds(ALL, h, bodies, s, s');
  }

  lemma PublishedEnds(h: string, bodies: seq<Node>, names: seq<string>, s: State, s': State)
    requires Closed(s) && h in s.env && Contents(s, s.env[h]) == Some(Texts(names))
    requires RunsAll([Publication(h)], bodies, s, s')
    ensures ALL in s'.env && Contents(s', s'.env[ALL]) == Some(Texts(names))
  {
    assert [Publication(h)] + [] == [Publication(h)];
    var m := RunsFirst(Publication(h), [], bodies, s, s');
    PublicationEnds(h, bodies, s, m);
  }

  lemma AroundRuns(h: string, value: Node, rest: seq<Node>, bodies: seq<Node>, s: State, t: State)
    requires RunsAll([Let(h, value)] + rest, bodies, s, t) && Closed(t) && h in t.env
    ensures RunsAll(Around(h, value, rest), bodies, s, t.(env := t.env[ALL := t.env[h]]))
  {
    ReadRuns(h, bodies, t);
    RunsConcat([Let(h, value)] + rest, [Publication(h)], bodies, s, t, t.(env := t.env[ALL := t.env[h]]));
    AroundRegroups(h, value, rest);
  }

  lemma AroundEnds(h: string, value: Node, rest: seq<Node>, names: seq<string>, s: State, t: State)
    requires IsStatic(value, names) && Closed(s) && RunsAll([Let(h, value)] + rest, Bodies(rest), s, t)
    requires Closed(t) && h in t.env && Contents(t, t.env[h]) != Some(Texts(names))
    ensures exists a, b :: EndsOtherwise(Around(h, value, rest), names, a, b)
  {
    var end := t.(env := t.env[ALL := t.env[h]]);
    assert Completes(Around(h, value, rest), s, end) by {
      AroundBodies(h, value, names, rest);
      AroundRuns(h, value, rest, Bodies(rest), s, t);
    }
    assert EndsOtherwise(Around(h, value, rest), names, s, end);
  }

  lemma AroundRegroups(h: string, value: Node, rest: seq<Node>)
    ensures Around(h, value, rest) == ([Let(h, value)] + rest) + [Publication(h)]
  {
  }

  lemma AroundIsKept(h: string, value: Node, rest: seq<Node>, names: seq<string>, s: State, s': State)
    requires IsPublished(value, names) && Onlookers(rest, h) && Apart(rest, Bodies(rest), {h}, {})
    requires !Struck(rest, Bodies(rest), {h}, h) && Closed(s) && Completes(Around(h, value, rest), s, s')
    ensures ALL in s'.env && Contents(s', s'.env[ALL]) == Some(Texts(names))
  {
    AroundBodies(h, value, names, rest);
    AroundRegroups(h, value, rest);
    var t := RunsSplit([Let(h, value)] + rest, [Publication(h)], Bodies(rest), s, s');
    UnstruckIsKept(h, value, names, rest, Bodies(rest), s, t);
    PublishedEnds(h, Bodies(rest), names, t, s');
  }

  /**
   `h = [...]`, then statements that do not assign `h`, then `__all__ = h`: whatever they show, the module is misread
   if and only if one of them strikes at the list of the helper.
   */
  lemma HelperIsMisreadExactlyWhen(h: string, value: Node, names: seq<string>, rest: seq<Node>)
    requires h != ALL && IsPublished(value, names) && Onlookers(rest, h) && Apart(rest, Bodies(rest), {h}, {})
    ensures Misreads(Around(h, value, rest), names) <==> Struck(rest, Bodies(rest), {h}, h)
  {
    AroundIsReported(h, value, names, rest);
    if Struck(rest, Bodies(rest), {h}, h) {
      var s, t := StruckIsLost(h, value, names, rest, Bodies(rest));
      AroundEnds(h, value, rest, names, s, t);
    } else {
      forall s, s' | Closed(s) && Completes(Around(h, value, rest), s, s')
        ensures ALL in s'.env && Contents(s', s'.env[ALL]) == Some(Texts(names))
      {
        AroundIsKept(h, value, rest, names, s, s');
      }
    }
  }

  /** `h.append("b")`, `for h in x`, `def h()`, `import h`, `h[0] = x`: every statement that touches the helper. */
  lemma TouchedHelperMisreads(h: string, value: Node, names: seq<string>, n: Node)
    requires h != ALL && IsPublished(value, names) && Onlooker(n, h)
    requires ChangedBy(Reach(Loose(n), Bodies([n])), Bodies([n]), h)
    ensures Misreads(Around(h, value, [n]), names)
  {
    assert [n][1..] == [] && Bystander(n, h);
    ChangeStrikes(n, Bodies([n]), {h}, h);
    HelperIsMisreadExactlyWhen(h, value, names, [n]);
  }

  // ----- a helper that is overwritten unseen -----

  /** `h` holds the value that was read off. */
  ghost predicate HoldsOnly(h: string, names: seq<string>, s: State) {
    Closed(s) && h in s.env && s.env.Keys == {h} && Contents(s, s.env[h]) == Some(Texts(names))
  }

  lemma HelperRuns(h: string, value: Node, names: seq<string>, bodies: seq<Node>) returns (s: State)
    requires IsStatic(value, names)
    ensures Runs(Let(h, value), bodies, Nowhere, s) && HoldsOnly(h, names, s)
    ensures value.ListExpr? ==> s.env[h] == ListRef(0)
  {
    StaticFacts(value, names, map[], Nowhere);
    var v := if value.ListExpr? then ListRef(0) else TupleVal(Texts(names));
    s := State(map[h := v], if value.ListExpr? then map[0 := Texts(names)] else map[]);
    LetRuns(h, value, bodies, Nowhere, v, s.(env := map[]));
  }

  /** When the statement in between can leave `h` with something else. */
  lemma AroundOneEnds(h: string, value: Node, n: Node, names: seq<string>, s: State, t: State)
    requires IsStatic(value, names) && Runs(Let(h, value), Bodies([n]), Nowhere, s) && Runs(n, Bodies([n]), s, t)
    requires Closed(t) && h in t.env && Contents(t, t.env[h]) != Some(Texts(names))
    ensures exists a, b :: EndsOtherwise(Around(h, value, [n]), names, a, b)
  {
    RunsCons(n, [], Bodies([n]), s, t, t);
    assert [n] + [] == [n];
    RunsCons(Let(h, value), [n], Bodies([n]), Nowhere, s, t);
    AroundEnds(h, value, [n], names, Nowhere, t);
  }

  lemma StarImportIsOnlooker(mod: Dotted, h: string)
    ensures Onlooker(StarImport(mod), h)
  {
  }

  lemma StarImportRuns(h: string, mod: Dotted, names: seq<string>, bodies: seq<Node>, s: State) returns (t: State)
    requires HoldsOnly(h, names, s)
    ensures Runs(StarImport(mod), bodies, s, t) && Closed(t) && h in t.env && Odd(t, t.env[h])
  {
    var n := StarImport(mod);
    StarImportFacts(mod, bodies);
    ReachRuns([n], bodies);
    t := s.(env := s.env[h := Other(0)]);
    RebindingIsLocal(n, Pool(n, bodies), bodies, h, Other(0), s);
    StarOnce(Reach([n], bodies), Pool(n, bodies), bodies, n, s, t);
  }

  /** `h = value; from mod import *; __all__ = h`, for every helper, value and module. */
  lemma StarImportSpoilsHelpers(h: string, value: Node, mod: Dotted, names: seq<string>)
    requires h != ALL && IsStatic(value, names)
    ensures Misreads(Around(h, value, [StarImport(mod)]), names)
  {
    var n := StarImport(mod);
    StarImportIsOnlooker(mod, h);
    AroundIsReported(h, value, names, [n]);
    var s := HelperRuns(h, value, names, Bodies([n]));
    var t := StarImportRuns(h, mod, names, Bodies([n]), s);
    OddIsNoText(t, t.env[h], names);
    AroundOneEnds(h, value, n, names, s, t);
  }

  // ----- a helper that is extended -----

  function Extend(x: string, more: Node): Node { AugAssign(Target(x), true, more) }

  lemma ExtensionIsUnseen(sc: Scan, h: string, more: Node, extra: seq<string>, index: nat)
    requires h != ALL && IsStatic(more, extra)
    ensures ScanStep(sc, Extend(h, more), index) == sc
  {
    StaticFacts(more, extra, map[], Nowhere);
    ReportedExactlyWhen(Extend(h, more), sc.values);
  }

  lemma ExtensionIsReported(h: string, value: Node, more: Node, names: seq<string>, extra: seq<string>)
    requires h != ALL && IsStatic(value, names) && IsStatic(more, extra)
    ensures ScanModule(Around(h, value, [Extend(h, more)])).explicit == Some(names)
  {
    var sc := ScanStep(NewScan, Let(h, value), 0);
    HelperIsRead(h, value, names);
    ExtensionIsUnseen(sc, h, more, extra, 1);
    ScanCons(sc, Extend(h, more), [], 1);
    assert [Extend(h, more)] + [] == [Extend(h, more)];
    AroundIsRead(h, value, [Extend(h, more)], names);
  }

  lemma ExtensionEvaluates(x: string, more: Node, bodies: seq<Node>, s: State, s': State)
    returns (t: State, v: PyVal, s1: State)
    requires Quiet([more]) && Closed(s) && Runs(Extend(x, more), bodies, s, s')
    ensures t.env == s.env && HeapGrows(s, t) && Closed(t) && Evaluates(more, bodies, t, v, s1)
    ensures x in s.env && Augments(Extend(x, more), bodies, s1, v, s')
  {
    var n := Extend(x, more);
    v, s1 :| EvaluatesAfter(n, more, bodies, s, v, s1) && Augments(n, bodies, Reloaded(n, s, s1), v, s');
    t := QuietValue(n, more, bodies, s, v, s1);
    assert s1.env[x := s.env[x]] == s1.env;
  }

  /** What `x` held is extended: in place if it is a list, for every name that holds the list too. */
  lemma ExtensionEnds(x: string, more: Node, bodies: seq<Node>, names: seq<string>, extra: seq<string>,
                      s: State, s': State)
    requires IsStatic(more, extra) && Closed(s) && Runs(Extend(x, more), bodies, s, s')
    requires x in s.env && Contents(s, s.env[x]) == Some(Texts(names))
    ensures Closed(s') && x in s'.env && Contents(s', s'.env[x]) == Some(Texts(names) + Texts(extra))
    ensures forall y :: y in s.env && y != x ==> y in s'.env && s'.env[y] == s.env[y]
    ensures Contents(s', s.env[x]) == Some(if s.env[x].ListRef? then Texts(names) + Texts(extra) else Texts(names))
  {
    StaticFacts(more, extra, map[], s);
    var t, v, s1 := ExtensionEvaluates(x, more, bodies, s, s');
    StaticFacts(more, extra, map[], t);
  }

  lemma ExtensionRuns(x: string, more: Node, bodies: seq<Node>, names: seq<string>, extra: seq<string>, s: State)
    returns (s': State)
    requires IsStatic(more, extra) && Closed(s) && x in s.env && Contents(s, s.env[x]) == Some(Texts(names))
    ensures Runs(Extend(x, more), bodies, s, s')
  {
    var n := Extend(x, more);
    StaticFacts(more, extra, map[], s);
    QuietInvokesNothing([more], bodies);
    StarHere(Reach([more], bodies), Mentions(Reach([more], bodies)), bodies, s);
    var v, s1 := SomeValue(more, bodies, s);
    assert EvaluatesAfter(n, more, bodies, s, v, s1);
    assert s1.env[x := s.env[x]] == s1.env;
    s' := if s.env[x].ListRef? then s1.(heap := s1.heap[s.env[x].addr := s1.heap[s.env[x].addr] + Texts(extra)])
          else s1.(env := s1.env[x := TupleVal(s.env[x].items + Texts(extra))]);
    assert Augments(n, bodies, Reloaded(n, s, s1), v, s');
  }

  lemma GrownHelperMisreads(h: string, value: Node, more: Node, names: seq<string>, extra: seq<string>)
    requires h != ALL && IsStatic(value, names) && IsStatic(more, extra) && extra != []
    ensures Misreads(Around(h, value, [Extend(h, more)]), names)
  {
    var n := Extend(h, more);
    ExtensionIsReported(h, value, more, names, extra);
    var s := HelperRuns(h, value, names, Bodies([n]));
    var t := ExtensionRuns(h, more, Bodies([n]), names, extra, s);
    ExtensionEnds(h, more, Bodies([n]), names, extra, s, t);
    assert |Texts(names) + Texts(extra)| != |Texts(names)|;
    AroundOneEnds(h, value, n, names, s, t);
  }

  lemma HelperEnds(h: string, value: Node, names: seq<string>, bodies: seq<Node>, s: State, s': State)
    requires IsStatic(value, names) && Closed(s) && Runs(Let(h, value), bodies, s, s')
    ensures Closed(s') && h in s'.env && Contents(s', s'.env[h]) == Some(Texts(names))
    ensures (value.ListExpr? ==> s'.env[h].ListRef?) && (value.TupleExpr? ==> s'.env[h].TupleVal?)
  {
    StaticFacts(value, names, map[], s);
    var t, v, s1 := QuietLetEnds(h, value, bodies, s, s');
    StaticFacts(value, names, map[], t);
  }

  lemma AroundOneSplits(h: string, value: Node, n: Node, bodies: seq<Node>, s: State, s': State)
    returns (p: State, q: State)
    requires RunsAll(Around(h, value, [n]), bodies, s, s')
    ensures Runs(Let(h, value), bodies, s, p) && Runs(n, bodies, p, q) && RunsAll([Publication(h)], bodies, q, s')
  {
    p := RunsFirst(Let(h, value), [n] + [Publication(h)], bodies, s, s');
    q := RunsFirst(n, [Publication(h)], bodies, p, s');
  }

  lemma UngrownKeeps(h: string, more: Node, bodies: seq<Node>, names: seq<string>, s: State, s': State)
    requires IsStatic(more, []) && Closed(s) && Runs(Extend(h, more), bodies, s, s')
    requires h in s.env && Contents(s, s.env[h]) == Some(Texts(names))
    ensures Closed(s') && h in s'.env && Contents(s', s'.env[h]) == Some(Texts(names))
  {
    ExtensionEnds(h, more, bodies, names, [], s, s');
    assert Texts([]) == [] && Texts(names) + [] == Texts(names);
  }

  lemma UngrownHelperEnds(h: string, value: Node, more: Node, names: seq<string>, bodies: seq<Node>,
                          s: State, s': State)
    requires IsStatic(value, names) && IsStatic(more, [])
    requires Closed(s) && RunsAll(Around(h, value, [Extend(h, more)]), bodies, s, s')
    ensures ALL in s'.env && Contents(s', s'.env[ALL]) == Some(Texts(names))
  {
    var p, q := AroundOneSplits(h, value, Extend(h, more), bodies, s, s');
    HelperEnds(h, value, names, bodies, s, p);
    UngrownKeeps(h, more, bodies, names, p, q);
    PublishedEnds(h, bodies, names, q, s');
  }

  /** Displays that Python adds without raising: a list takes lists and tuples, a tuple only tuples. */
  predicate CanExtend(value: Node, more: Node) {
    (value.ListExpr? && (more.ListExpr? || more.TupleExpr?)) || (value.TupleExpr? && more.TupleExpr?)
  }

  /** `h = value; h += more; __all__ = h`: misread exactly when something is added. */
  lemma ExtendedHelperIsMisreadExactlyWhen(h: string, value: Node, more: Node, names: seq<string>, extra: seq<string>)
    requires h != ALL && IsStatic(value, names) && IsStatic(more, extra) && CanExtend(value, more)
    ensures Misreads(Around(h, value, [Extend(h, more)]), names) <==> extra != []
  {
    if extra != [] {
      GrownHelperMisreads(h, value, more, names, extra);
    } else {
      forall s, s' | Closed(s) && Completes(Around(h, value, [Extend(h, more)]), s, s')
        ensures ALL in s'.env && Contents(s', s'.env[ALL]) == Some(Texts(names))
      {
        UngrownHelperEnds(h, value, more, names, Bodies(Around(h, value, [Extend(h, more)])), s, s');
      }
    }
  }
}
