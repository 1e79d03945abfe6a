/**
 Helpers that are assigned again, or by unpacking: `h = value; h = next; __all__ = h` and `h, g = value; __all__ = h`,
 and when exactly the scan misreads them.
 */
module AllRebinding {
  import opened Wrappers
  import opened PythonAst
  import opened ExplicitAll
  import opened ModuleRuns
  import opened AllVisibility
  import opened AllSoundness
  import opened ModuleSteps
  import opened AllBlindSpots
  import opened AllHelpers

  // ----- a helper that is rebound -----

  lemma {:induction false} UnreadableIsUndenoted(e: Node, values: Values, s: State)
    requires s.env.Keys <= values.Keys && StaticStringList(e, values).None?
    ensures Denote(e, s).None?
    decreases e, 1
  {
    match e
    case ListExpr(elts) => UnreadableElements(elts, values, s);
    case TupleExpr(elts) => UnreadableElements(elts, values, s);
    case Add(l, r) =>
      if StaticStringList(l, values).None? {
        UnreadableIsUndenoted(l, values, s);
      } else {
        UnreadableIsUndenoted(r, values, s);
      }
    case _ =>
  }

  lemma {:induction false} UnreadableElements(elts: seq<Node>, values: Values, s: State)
    requires s.env.Keys <= values.Keys && StaticElements(elts, values).None?
    ensures DenoteElements(elts, s).None?
    decreases elts, 0
  {
    if StaticElement(elts[0], values).None? {
      UnreadableElement(elts[0], values, s);
    } else {
      UnreadableElements(elts[1..], values, s);
    }
  }

  lemma UnreadableElement(element: Node, values: Values, s: State)
    requires s.env.Keys <= values.Keys && StaticElement(element, values).None?
    ensures DenoteElement(element, s).None?
    decreases element, 1
  {
    match element
    case Starred(v) => UnreadableIsUndenoted(v, values, s);
    case _ =>
  }

  lemma UnreadableRebindingRuns(h: string, next: Node, names: seq<string>, bodies: seq<Node>, s: State)
    returns (t: State)
    requires HoldsOnly(h, names, s) && StaticStringList(next, map[h := names]).None?
    ensures Runs(Let(h, next), bodies, s, t) && Closed(t) && h in t.env && Odd(t, t.env[h])
  {
    UnreadableIsUndenoted(next, map[h := names], s);
    assert !(next.Name? && next.id in s.env);
    var v, s1 := SomeValue(next, bodies, s);
    t := s1.(env := s1.env[h := v]);
    LetRuns(h, next, bodies, s, v, s1);
  }

  lemma RebindingIsScanned(h: string, value: Node, next: Node, names: seq<string>)
    requires h != ALL && IsStatic(value, names) && !Known([next])
    ensures var second := StaticStringList(next, map[h := names]);
            ScanModule(Around(h, value, [Let(h, next)])).explicit == Some(if second.Some? then second.value else names)
  {
    var sc := ScanStep(NewScan, Let(h, value), 0);
    HelperIsRead(h, value, names);
    ScanOfLet(sc, h, next, 1);
    ScanCons(sc, Let(h, next), [], 1);
    assert [Let(h, next)] + [] == [Let(h, next)];
    AroundIsRead(h, value, [Let(h, next)], names);
  }

  lemma StaleHelperMisreads(h: string, value: Node, next: Node, names: seq<string>)
    requires h != ALL && IsStatic(value, names) && !Known([next])
    requires StaticStringList(next, map[h := names]).None?
    ensures Misreads(Around(h, value, [Let(h, next)]), names)
  {
    var n := Let(h, next);
    RebindingIsScanned(h, value, next, names);
    var s := HelperRuns(h, value, names, Bodies([n]));
    var t := UnreadableRebindingRuns(h, next, names, Bodies([n]), s);
    OddIsNoText(t, t.env[h], names);
    AroundOneEnds(h, value, n, names, s, t);
  }

  // ----- disciplined helpers -----

  lemma HelperIsDisciplined(h: string, value: Node, names: seq<string>, rest: seq<Node>, bodies: seq<Node>)
    requires h != ALL && IsStatic(value, names)
    requires DisciplinedFrom(ScanStep(NewScan, Let(h, value), 0), rest, bodies, 1, {h}, false)
    ensures DisciplinedFrom(NewScan, [Let(h, value)] + rest, bodies, 0, {h}, false)
  {
    MoreTracked(value, {ALL}, Tracked({h}));
    LetIsOk(h, value, bodies, {h}, false, map[]);
    DisciplinedCons(NewScan, Let(h, value), rest, bodies, 0, {h}, false);
  }

  lemma RebindingIsDisciplined(h: string, next: Node, names: seq<string>, sc: Scan, rest: seq<Node>, bodies: seq<Node>)
    requires h != ALL && ListsOnly(next, {h, ALL}) && StaticStringList(next, map[h := names]).Some?
    requires sc.values == map[h := names]
    requires DisciplinedFrom(ScanStep(sc, Let(h, next), 1), rest, bodies, 2, {h}, false)
    ensures DisciplinedFrom(sc, [Let(h, next)] + rest, bodies, 1, {h}, false)
  {
    assert Tracked({h}) == {h, ALL};
    assert Sources(next, bodies) <= {h};
    LetIsOk(h, next, bodies, {h}, false, map[h := names]);
    DisciplinedCons(sc, Let(h, next), rest, bodies, 1, {h}, false);
  }

  lemma PublicationIsDisciplined(h: string, names: seq<string>, sc: Scan, bodies: seq<Node>, index: nat)
    requires h != ALL && sc.values == map[h := names]
    ensures DisciplinedFrom(sc, [Publication(h)], bodies, index, {h}, false)
  {
    LetIsOk(ALL, Read(h), bodies, {h}, false, map[h := names]);
    assert [Publication(h)] + [] == [Publication(h)];
    DisciplinedCons(sc, Publication(h), [], bodies, index, {h}, false);
  }

  lemma WithHelperIsDisciplined(h: string, value: Node, names: seq<string>)
    requires h != ALL && IsStatic(value, names)
    ensures Disciplined(Around(h, value, []), {h}, false)
  {
    var bodies := Bodies(Around(h, value, []));
    HelperIsRead(h, value, names);
    PublicationIsDisciplined(h, names, ScanStep(NewScan, Let(h, value), 0), bodies, 1);
    assert [] + [Publication(h)] == [Publication(h)];
    HelperIsDisciplined(h, value, names, [Publication(h)], bodies);
  }

  lemma RebindingIsRead(h: string, value: Node, next: Node, names: seq<string>)
    requires h != ALL && IsStatic(value, names) && !Known([next])
    ensures var sc, second := ScanStep(NewScan, Let(h, value), 0), StaticStringList(next, map[h := names]);
            && sc.values == map[h := names]
            && (second.Some? ==> ScanStep(sc, Let(h, next), 1).values == map[h := second.value])
  {
    HelperIsRead(h, value, names);
    ScanOfLet(ScanStep(NewScan, Let(h, value), 0), h, next, 1);
  }

  lemma RestIsDisciplined(h: string, next: Node, names: seq<string>, sc: Scan, bodies: seq<Node>)
    requires h != ALL && ListsOnly(next, {h, ALL}) && StaticStringList(next, map[h := names]).Some?
    requires sc.values == map[h := names]
    requires ScanStep(sc, Let(h, next), 1).values == map[h := StaticStringList(next, map[h := names]).value]
    ensures DisciplinedFrom(sc, [Let(h, next)] + [Publication(h)], bodies, 1, {h}, false)
  {
    var sc1 := ScanStep(sc, Let(h, next), 1);
    assert DisciplinedFrom(sc1, [Publication(h)], bodies, 2, {h}, false) by {
      PublicationIsDisciplined(h, StaticStringList(next, map[h := names]).value, sc1, bodies, 2);
    }
    RebindingIsDisciplined(h, next, names, sc, [Publication(h)], bodies);
  }

  lemma ReadableRebindingIsDisciplined(h: string, value: Node, next: Node, names: seq<string>)
    requires h != ALL && IsStatic(value, names) && ListsOnly(next, {h, ALL}) && !Known([next])
    requires StaticStringList(next, map[h := names]).Some?
    ensures Disciplined(Around(h, value, [Let(h, next)]), {h}, false)
  {
    var bodies := Bodies(Around(h, value, [Let(h, next)]));
    var last := [Publication(h)];
    var sc := ScanStep(NewScan, Let(h, value), 0);
    RebindingIsRead(h, value, next, names);
    RestIsDisciplined(h, next, names, sc, bodies);
    HelperIsDisciplined(h, value, names, [Let(h, next)] + last, bodies);
  }

  /**
   `h = value; h = next; __all__ = h` is misread exactly when the scan cannot read the second value: its reading of
   the first one then outlives the helper. Set displays aside, which are misread anyway.
   */
  lemma RebindingIsMisreadExactlyWhen(h: string, value: Node, next: Node, names: seq<string>)
    requires h != ALL && IsStatic(value, names) && !Known([next])
    requires StaticStringList(next, map[h := names]).Some? ==> ListsOnly(next, {h, ALL})
    ensures Misreads(Around(h, value, [Let(h, next)]), names) <==> StaticStringList(next, map[h := names]).None?
  {
    if StaticStringList(next, map[h := names]).None? {
      StaleHelperMisreads(h, value, next, names);
    } else {
      ReadableRebindingIsDisciplined(h, value, next, names);
      DisciplinedIsNotMisread(Around(h, value, [Let(h, next)]), {h}, false, names);
    }
  }

  // ----- a helper that is unpacked -----

  /** `h`, or a tuple or list of names with `h` among them. */
  predicate IsTargetOf(target: Node, h: string) {
    || target == Target(h)
    || ((target.TupleExpr? || target.ListExpr?) && Target(h) in target.elts
        && forall e :: e in target.elts ==> e.Name? && e.ctx == Store && e.id != ALL)
  }

  lemma {:induction false} NamesAreUnknown(elts: seq<Node>)
    requires forall e :: e in elts ==> e.Name? && e.id != ALL
    ensures !Known(elts) && !AnyTargetsAll(elts)
  {
    if elts != [] {
      KnownOfPlainName(elts[0]);
      NamesAreUnknown(elts[1..]);
      KnownConcat([elts[0]], elts[1..]);
      assert [elts[0]] + elts[1..] == elts;
    }
  }

  lemma {:induction false} NamesAreBound(elts: seq<Node>, h: string)
    requires Target(h) in elts
    ensures h in BindingNamesAll(elts)
  {
    if Target(h) != elts[0] {
      NamesAreBound(elts[1..], h);
    }
  }

  lemma TargetFacts(target: Node, h: string)
    requires h != ALL && IsTargetOf(target, h)
    ensures h in BindingNames(target) && !Known([target]) && !TargetsAll(target)
  {
    if target == Target(h) {
      KnownOfPlainName(target);
    } else {
      NamesAreUnknown(target.elts);
      NamesAreBound(target.elts, h);
      KnownOfOne(target);
    }
  }

  /** `target = value; __all__ = h`. */
  function Taking(target: Node, value: Node, h: string): seq<Node> {
    [Assign([target], value), Publication(h)]
  }

  lemma TakingIsUnreported(target: Node, value: Node, h: string)
    requires h != ALL && IsTargetOf(target, h) && !Known([value])
    ensures !AllMutation(Assign([target], value), map[]).0
  {
    var n := Assign([target], value);
    TargetFacts(target, h);
    KnownConcat([target], [value]);
    AssignmentIsReported(n);
    assert n.targets[1..] == [];
    if target.Name? {
      assert OtherTargets(n.targets) == [] + OtherTargets([]);
    } else {
      assert OtherTargets(n.targets) == [target] + OtherTargets([]) == [target];
      assert !AnyTargetsAll([]) && !MutatesAll(n) && Children(n) == [target] + [value];
      KnownOfOne(n);
    }
  }

  lemma TargetIsRead(target: Node, value: Node, names: seq<string>, h: string)
    requires h != ALL && IsTargetOf(target, h) && IsStatic(value, names)
    ensures var sc := ScanStep(NewScan, Assign([target], value), 0);
            h in sc.values && sc.values[h] == names
  {
    var n := Assign([target], value);
    TargetFacts(target, h);
    StaticFacts(value, names, map[], Nowhere);
    TakingIsUnreported(target, value, h);
    assert n.targets[1..] == [] && BindingNamesAll(n.targets) == BindingNames(target);
  }

  lemma TakingIsReported(target: Node, value: Node, names: seq<string>, h: string)
    requires h != ALL && IsTargetOf(target, h) && IsStatic(value, names)
    ensures ScanModule(Taking(target, value, h)).explicit == Some(names)
  {
    var n := Assign([target], value);
    var sc := ScanStep(NewScan, n, 0);
    TargetIsRead(target, value, names, h);
    ReadFacts(h);
    ScanOfLet(sc, ALL, Read(h), 1);
    assert Taking(target, value, h) == [n] + ([Publication(h)] + []);
    ScanCons(NewScan, n, [Publication(h)] + [], 0);
    ScanCons(sc, Publication(h), [], 1);
  }

  lemma UnpackingParts(target: Node, value: Node)
    requires !target.Name?
    ensures var n := Assign([target], value);
            Before(n) == [value] && After(n) == [target] && AssignedNames(n) == []
  {
    assert [target][1..] == [] && OtherTargets([target]) == [target] + OtherTargets([]);
    assert PlainNames([target]) == [] + PlainNames([]);
  }

  lemma {:induction false} NameIsExecuted(elts: seq<Node>, e: Node)
    requires e in elts
    ensures e in Executed(elts)
  {
    if e != elts[0] {
      NameIsExecuted(elts[1..], e);
    }
  }

  /** An unpacked name gets an element of the list, not the list. */
  lemma UnpackingRuns(target: Node, value: Node, names: seq<string>, h: string, bodies: seq<Node>) returns (t: State)
    requires IsTargetOf(target, h) && IsStatic(value, names) && !target.Name?
    ensures Runs(Assign([target], value), bodies, Nowhere, t) && Closed(t) && h in t.env && t.env[h] == Other(0)
  {
    var n := Assign([target], value);
    UnpackingParts(target, value);
    var v, s1 := SomeValue(value, bodies, Nowhere);
    StarHere(Reach(Before(n), bodies), Mentions(Reach(Before(n), bodies)), bodies, Nowhere);
    WalkOfOne(target);
    NameIsExecuted(target.elts, Target(h));
    ReachRuns([target], bodies);
    t := s1.(env := s1.env[h := Other(0)]);
    RebindingIsLocal(Target(h), Pool(n, bodies), bodies, h, Other(0), s1);
    StarOnce(Reach([target], bodies), Pool(n, bodies), bodies, Target(h), s1, t);
    AssignmentRuns(n, bodies, Nowhere, Nowhere, v, s1, t);
  }

  lemma UnpackingMisreads(target: Node, value: Node, names: seq<string>, h: string)
    requires h != ALL && IsTargetOf(target, h) && IsStatic(value, names) && !target.Name?
    ensures Misreads(Taking(target, value, h), names)
  {
    var body := Taking(target, value, h);
    var bodies := Bodies(body);
    TakingIsReported(target, value, names, h);
    var t := UnpackingRuns(target, value, names, h, bodies);
    var end := t.(env := t.env[ALL := t.env[h]]);
    ReadRuns(h, bodies, t);
    RunsCons(Assign([target], value), [Publication(h)], bodies, Nowhere, t, end);
    assert body == [Assign([target], value)] + [Publication(h)];
    assert EndsOtherwise(body, names, Nowhere, end);
  }

  /**
   `h = value` or `h, g = value`, with as many targets as there are values to unpack, and then `__all__ = h`: misread
   exactly when the helper is unpacked.
   */
  lemma TakingIsMisreadExactlyWhen(target: Node, value: Node, names: seq<string>, h: string)
    requires h != ALL && IsTargetOf(target, h) && IsStatic(value, names)
    requires !target.Name? ==> |target.elts| == |names|
    ensures Misreads(Taking(target, value, h), names) <==> !target.Name?
  {
    if target.Name? {
      WithHelperIsDisciplined(h, value, names);
      assert Taking(target, value, h) == Around(h, value, []);
      DisciplinedIsNotMisread(Taking(target, value, h), {h}, false, names);
    } else {
      UnpackingMisreads(target, value, names, h);
    }
  }
}
