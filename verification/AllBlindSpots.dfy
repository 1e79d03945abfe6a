/**
 Why each clause of the discipline is needed, and when exactly a module that breaks one is misread: the scan reports
 a list that some completed run does not leave in `__all__`.
 */
module AllBlindSpots {
  import opened Wrappers
  import opened PythonAst
  import opened ExplicitAll
  import opened ModuleRuns
  import opened AllVisibility
  import opened AllSoundness
  import opened ModuleSteps
  import opened ListSurvival
  import opened ListFate
  import Traversal

  /** The scan reports `names`, yet some completed run ends with something else. */
  ghost predicate Misreads(body: seq<Node>, names: seq<string>) {
    && ScanModule(body).explicit == Some(names)
    && exists s, s' :: EndsOtherwise(body, names, s, s')
  }

  ghost predicate EndsOtherwise(body: seq<Node>, names: seq<string>, s: State, s': State) {
    && Closed(s) && Completes(body, s, s')
    && !(ALL in s'.env && Contents(s', s'.env[ALL]) == Some(Texts(names)))
  }

  /** A disciplined module is never misread. */
  lemma DisciplinedIsNotMisread(body: seq<Node>, helpers: set<string>, inPlace: bool, names: seq<string>)
    requires Disciplined(body, helpers, inPlace)
    ensures !Misreads(body, names)
  {
    if ScanModule(body).explicit == Some(names) {
      forall s, s' | Closed(s) && Completes(body, s, s')
        ensures ALL in s'.env && Contents(s', s'.env[ALL]) == Some(Texts(names))
      {
        ExplicitAllIsSound(body, helpers, inPlace, s, s');
      }
    }
  }

  // ----- what the scan makes of one assignment, and of one more statement -----

  lemma ScanCons(sc: Scan, n: Node, rest: seq<Node>, index: nat)
    ensures ScanFrom(sc, [n] + rest, index) == ScanFrom(ScanStep(sc, n, index), rest, index + 1)
  {
    assert ([n] + rest)[1..] == rest;
  }

  lemma ScanOfLet(sc: Scan, id: string, value: Node, index: nat)
    requires !Known([value])
    ensures var known, next := StaticStringList(value, sc.values), ScanStep(sc, Let(id, value), index);
            && next.values == (if known.Some? then sc.values[id := known.value]
                               else if id == ALL then sc.values - {ALL} else sc.values)
            && next.explicit == if id == ALL then known else sc.explicit
  {
    var known := StaticStringList(value, sc.values);
    LooseOfLet(id, value);
    ReportedExactlyWhen(Let(id, value), sc.values);
    if known.Some? {
      assert BindEach(sc.values, [id], known.value) == sc.values[id := known.value];
    }
  }

  /** A readable assignment keeps the discipline if what it shares may be shared. */
  lemma LetIsOk(id: string, value: Node, bodies: seq<Node>, helpers: set<string>, inPlace: bool, values: Values)
    requires ALL !in helpers && ListsOnly(value, Tracked(helpers)) && StaticStringList(value, values).Some?
    requires ShareOk({id}, Sources(value, bodies) + {id}, helpers, inPlace)
    ensures StatementOk(Let(id, value), bodies, helpers, inPlace, values) && !Known([value])
  {
    var n := Let(id, value);
    StaticIsQuiet(value, values, Tracked(helpers));
    QuietIsPlain([value], bodies);
    QuietInvokesNothing([value], bodies);
    LooseOfLet(id, value);
    ReportedExactlyWhen(n, values);
    assert Visible(n, bodies) && !ChangesAllInPlace(n, bodies);
    forall m | m in Executed(Reach(Loose(n), bodies))
      ensures LooseOk(m, Pool(n, bodies), bodies, values.Keys + NewlyHeld(n), helpers, inPlace)
    {
      assert Inert(m);
    }
    assert AssignmentOk(n, bodies, helpers, inPlace, values);
  }

  lemma DisciplinedCons(sc: Scan, n: Node, rest: seq<Node>, bodies: seq<Node>, index: nat, helpers: set<string>,
                        inPlace: bool)
    requires StatementOk(n, bodies, helpers, inPlace, sc.values)
    requires DisciplinedFrom(ScanStep(sc, n, index), rest, bodies, index + 1, helpers, inPlace)
    ensures DisciplinedFrom(sc, [n] + rest, bodies, index, helpers, inPlace)
  {
    assert ([n] + rest)[1..] == rest;
  }

  // ----- `__all__ = [...]`, and then anything that does not assign it -----

  /** `__all__ = value`, followed by some statements. */
  function Published(value: Node, rest: seq<Node>): seq<Node> {
    [Let(ALL, value)] + rest
  }

  lemma BodiesCons(n: Node, rest: seq<Node>)
    ensures Bodies([n] + rest) == BodiesOf(n) + Bodies(rest)
  {
    assert ([n] + rest)[1..] == rest;
  }

  lemma {:induction false} BodiesConcat(a: seq<Node>, b: seq<Node>)
    ensures Bodies(a + b) == Bodies(a) + Bodies(b)
    decreases |a|
  {
    if a == [] {
      assert a + b == b;
    } else {
      var first, rest := [a[0]], a[1..];
      Traversal.Regroup(first, rest, b);
      assert first + rest == a;
      BodiesCons(a[0], rest + b);
      BodiesCons(a[0], rest);
      BodiesConcat(rest, b);
      Traversal.Regroup(BodiesOf(a[0]), Bodies(rest), Bodies(b));
    }
  }

  /** Nothing a readable assignment does can be called. */
  lemma LetHasNoBodies(id: string, value: Node)
    requires Quiet([value])
    ensures BodiesOf(Let(id, value)) == []
  {
    var n := Let(id, value);
    SizeUnfolds(n);
    InertHasNoBodies([value]);
    BodiesCons(Target(id), [value]);
    assert Children(n) == [Target(id)] + [value];
    assert BodiesOf(Target(id)) == [] by {
      assert Children(Target(id)) == [];
    }
  }

  lemma PublishedBodies(id: string, value: Node, names: seq<string>, rest: seq<Node>)
    requires IsStatic(value, names)
    ensures Bodies([Let(id, value)] + rest) == Bodies(rest)
  {
    StaticFacts(value, names, map[], State(map[], map[]));
    LetHasNoBodies(id, value);
    BodiesCons(Let(id, value), rest);
  }

  predicate Silent(rest: seq<Node>) {
    forall n :: n in rest ==> !Shows(n)
  }

  /** A bystander leaves the report as it is, or, if it shows a change, ends it. */
  lemma BystanderIsScanned(sc: Scan, n: Node, index: nat)
    requires Bystander(n, ALL)
    ensures ScanStep(sc, n, index).explicit == if Shows(n) then None else sc.explicit
  {
    ReportedExactlyWhen(n, sc.values);
    if n.Assign? {
      BoundNamesOfTargets(n.targets);
    } else if n.AnnAssign? {
      BoundNameIsTarget(n.target);
    }
  }

  lemma {:induction false} BystandersAreScanned(sc: Scan, rest: seq<Node>, index: nat)
    requires Bystanders(rest, ALL)
    ensures ScanFrom(sc, rest, index).explicit == if Silent(rest) then sc.explicit else None
    decreases |rest|
  {
    if rest != [] {
      BystanderIsScanned(sc, rest[0], index);
      assert forall n :: n in rest <==> n == rest[0] || n in rest[1..];
      BystandersAreScanned(ScanStep(sc, rest[0], index), rest[1..], index + 1);
    }
  }

  lemma PublishedIsReported(value: Node, names: seq<string>, rest: seq<Node>)
    requires IsPublished(value, names) && Bystanders(rest, ALL)
    ensures ScanModule(Published(value, rest)).explicit == if Silent(rest) then Some(names) else None
  {
    StaticFacts(value, names, map[], State(map[], map[]));
    ScanOfLet(NewScan, ALL, value, 0);
    ScanCons(NewScan, Let(ALL, value), rest, 0);
    BystandersAreScanned(ScanStep(NewScan, Let(ALL, value), 0), rest, 1);
  }

  lemma EndsOtherwiseIsLost(value: Node, names: seq<string>, rest: seq<Node>)
    requires IsPublished(value, names)
    ensures forall s, s' :: EndsOtherwise(Published(value, rest), names, s, s')
                            <==> IsLost(Published(value, rest), Bodies(rest), ALL, names, s, s')
  {
    PublishedBodies(ALL, value, names, rest);
  }

  /**
   The exact extent of the misreadings: after `__all__ = [...]`, statements that do not themselves assign it make the
   report wrong if and only if all of them are silent while one of them strikes at the list, directly, through a name
   that the list was handed to, or in a body that it calls.
   */
  lemma MisreadExactlyWhen(value: Node, names: seq<string>, rest: seq<Node>)
    requires IsPublished(value, names) && Bystanders(rest, ALL) && Apart(rest, Bodies(rest), {ALL}, {})
    ensures Misreads(Published(value, rest), names) <==> Silent(rest) && Struck(rest, Bodies(rest), {ALL}, ALL)
  {
    PublishedIsReported(value, names, rest);
    EndsOtherwiseIsLost(value, names, rest);
    ListIsLostExactlyWhen(ALL, value, names, rest, Bodies(rest));
    if Struck(rest, Bodies(rest), {ALL}, ALL) {
      var s, s' := StruckIsLost(ALL, value, names, rest, Bodies(rest));
      assert EndsOtherwise(Published(value, rest), names, s, s');
    } else {
      forall s, s'
        ensures !EndsOtherwise(Published(value, rest), names, s, s')
      {
        assert !IsLost(Published(value, rest), Bodies(rest), ALL, names, s, s');
      }
    }
  }

  /** One statement of any kind: there is nothing an earlier one could have done to its targets. */
  lemma OneStatementMisreadsExactlyWhen(value: Node, names: seq<string>, n: Node)
    requires IsPublished(value, names) && Bystander(n, ALL)
    ensures Misreads(Published(value, [n]), names) <==> !Shows(n) && StruckAt(n, Bodies([n]), {ALL}, ALL)
  {
    assert [n][1..] == [] && [n][0] == n;
    assert Silent([n]) == !Shows(n);
    MisreadExactlyWhen(value, names, [n]);
  }

  // ----- a statement that strikes -----

  lemma {:induction false} OthersAreNotPlain(targets: seq<Node>)
    ensures PlainNames(OtherTargets(targets)) == []
  {
    if targets != [] {
      var others := OtherTargets(targets[1..]);
      OthersAreNotPlain(targets[1..]);
      assert OtherTargets(targets) == if targets[0].Name? then others else [targets[0]] + others;
      assert ([targets[0]] + others)[1..] == others;
    }
  }

  /** Whatever matters in a statement runs before its value is taken or after it is bound. */
  lemma LooseIsItsParts(n: Node, bodies: seq<Node>, m: Node, x: string)
    requires m in Executed(Loose(n)) && (IsInvocation(m) || MayTouch(m, bodies, x))
    ensures m in Executed(Before(n)) || m in Executed(After(n))
  {
    if n.Assign? {
      var others := OtherTargets(n.targets);
      ExecutedConcat(others, [n.value]);
      if others != [] {
        ExecutedCons(Assign(others, n.value), []);
        assert [Assign(others, n.value)] + [] == Loose(n);
        OthersAreNotPlain(n.targets);
      }
    } else if IsPlainAssignment(n) {
      ExecutedConcat([n.annotation], [n.optValue.value]);
      assert [n.annotation] + [n.optValue.value] == Loose(n);
    }
  }

  lemma TouchStrikes(n: Node, bodies: seq<Node>, held: set<string>, m: Node, x: string)
    requires Bystander(n, x) && x in held && MayTouch(m, bodies, x)
    requires m in Executed(Reach(Before(n), bodies)) || m in Executed(Reach(After(n), bodies))
    ensures StruckAt(n, bodies, held, x)
  {
    HeldIsKept(n, bodies, held);
    HolderStays(n, bodies, held, x);
    if m in Executed(Reach(Before(n), bodies)) {
      assert x in Mutates(m, bodies) ==> x in Mutates(m, bodies) * HeldBefore(n, bodies, held);
    } else {
      assert x in Mutates(m, bodies) ==> x in Mutates(m, bodies) * HeldAfter(n, bodies, held);
    }
  }

  /** A change of the name itself always strikes. */
  lemma ChangeStrikes(n: Node, bodies: seq<Node>, held: set<string>, x: string)
    requires Bystander(n, x) && x in held && ChangedBy(Reach(Loose(n), bodies), bodies, x)
    ensures StruckAt(n, bodies, held, x)
  {
    var m :| m in Executed(Reach(Loose(n), bodies)) && MayTouch(m, bodies, x);
    ReachRuns(Loose(n), bodies);
    ReachRuns(Before(n), bodies);
    ReachRuns(After(n), bodies);
    if m in Executed(Loose(n)) {
      LooseIsItsParts(n, bodies, m, x);
    } else {
      var c :| c in Executed(Loose(n)) && IsInvocation(c);
      LooseIsItsParts(n, bodies, c, x);
    }
    TouchStrikes(n, bodies, held, m, x);
  }

  lemma {:induction false} ChangeStrikesRest(rest: seq<Node>, bodies: seq<Node>, held: set<string>, n: Node, x: string)
    requires Bystanders(rest, x) && x in held && n in rest && ChangedBy(Reach(Loose(n), bodies), bodies, x)
    ensures Struck(rest, bodies, held, x)
    decreases |rest|
  {
    if n == rest[0] {
      ChangeStrikes(n, bodies, held, x);
    } else {
      HolderStays(rest[0], bodies, held, x);
      ChangeStrikesRest(rest[1..], bodies, HeldAfter(rest[0], bodies, held), n, x);
    }
  }

  // ----- statements the scan cannot see through -----

  /** After a readable `__all__ = [...]`: statements that do not assign it, and that show no change of it. */
  predicate IsUnreported(value: Node, names: seq<string>, rest: seq<Node>) {
    && IsPublished(value, names) && Bystanders(rest, ALL) && Silent(rest)
    && Apart(rest, Bodies(rest), {ALL}, {})
  }

  /** One of them that hides a change makes the scan wrong. */
  lemma BlindStatementMisreads(n: Node, value: Node, names: seq<string>, rest: seq<Node>)
    requires IsUnreported(value, names, rest) && n in rest && Hides(n, Bodies(rest))
    ensures Misreads(Published(value, rest), names)
  {
    HidesIsAChange(n, Bodies(rest));
    ChangeStrikesRest(rest, Bodies(rest), {ALL}, n, ALL);
    MisreadExactlyWhen(value, names, rest);
  }

  lemma HiddenNodeMisreads(n: Node, m: Node, value: Node, names: seq<string>, rest: seq<Node>)
    requires IsUnreported(value, names, rest) && n in rest && m in Preorder(Loose(n)) && Hidden(m, Bodies(rest))
    ensures Misreads(Published(value, rest), names)
  {
    BlindStatementMisreads(n, value, names, rest);
  }

  /** A definition or a lambda anywhere in the statement: defaults, decorators and class bodies are never entered. */
  lemma DefinitionsAreBlind(n: Node, d: Node, m: Node, value: Node, names: seq<string>, rest: seq<Node>)
    requires IsUnreported(value, names, rest) && n in rest
    requires d in Preorder(Loose(n)) && IsScope(d) && m in Executed(EagerParts(d)) && MayTouch(m, Bodies(rest), ALL)
    ensures Misreads(Published(value, rest), names)
  {
    DefinitionHides(d, Bodies(rest), m);
    BlindStatementMisreads(n, value, names, rest);
  }

  /** A call, a decorator or a class header anywhere, when some function or lambda of the module changes the list. */
  lemma InvokedBodiesAreBlind(n: Node, value: Node, names: seq<string>, rest: seq<Node>)
    requires IsUnreported(value, names, rest) && n in rest && Invokes(Loose(n))
    requires ChangedBy(Bodies(rest), Bodies(rest), ALL)
    ensures Misreads(Published(value, rest), names)
  {
    InvocationHides(n, Bodies(rest));
    BlindStatementMisreads(n, value, names, rest);
  }

  /** `def register(...): body`, and then `@register def g(...): ...`. */
  function Registering(register: string, defaults: seq<Node>, body: seq<Node>, g: string, more: seq<Node>,
                       gBody: seq<Node>): seq<Node>
  {
    [FunctionDef(register, [], defaults, body), FunctionDef(g, [Read(register)], more, gBody)]
  }

  lemma DefinitionFacts(d: Node)
    requires d.FunctionDef? && d.name != ALL
    ensures Loose(d) == [d] && !Shows(d) && Bystander(d, ALL) && d in Executed([d])
  {
    KnownOfOne(d);
    assert [d][0] == d && d in ExecutedBy(d);
  }

  lemma BodyIsAmongBodies(d: Node, rest: seq<Node>, m: Node)
    requires d.FunctionDef? && m in Executed(d.body)
    ensures m in Executed(Bodies([d] + rest))
  {
    SizeUnfolds(d);
    BodiesCons(d, rest);
    ExecutedConcat(d.body, Bodies(Children(d)));
    ExecutedConcat(BodiesOf(d), Bodies(rest));
  }

  lemma DefinitionsAreUnreported(d: Node, e: Node, value: Node, names: seq<string>)
    requires IsPublished(value, names) && d.FunctionDef? && e.FunctionDef? && d.name != ALL && e.name != ALL
    ensures IsUnreported(value, names, [d, e])
  {
    var rest := [d, e];
    DefinitionFacts(d);
    DefinitionFacts(e);
    assert rest[1..] == [e] && [e][1..] == [];
    assert Apart([e], Bodies(rest), HeldAfter(d, Bodies(rest), {ALL}), {} + NewlyHeld(d));
  }

  /** The usual way to export by decorator: the function that changes `__all__` runs for what it decorates. */
  lemma DecoratorIsBlind(register: string, defaults: seq<Node>, body: seq<Node>, g: string, more: seq<Node>,
                         gBody: seq<Node>, m: Node, value: Node, names: seq<string>)
    requires IsPublished(value, names) && register != ALL && g != ALL
    requires var rest := Registering(register, defaults, body, g, more, gBody);
             m in Executed(body) && MayTouch(m, Bodies(rest), ALL)
    ensures Misreads(Published(value, Registering(register, defaults, body, g, more, gBody)), names)
  {
    var rest := Registering(register, defaults, body, g, more, gBody);
    var d, e := rest[0], rest[1];
    DefinitionFacts(e);
    DefinitionsAreUnreported(d, e, value, names);
    assert rest == [d, e] == [d] + [e];
    BodyIsAmongBodies(d, [e], m);
    assert IsInvocation(e) && Invokes(Loose(e));
    InvokedBodiesAreBlind(e, value, names, rest);
  }

  /** `case {**__all__}` anywhere in a statement: only star and capture patterns are looked at. */
  lemma MappingPatternIsBlind(n: Node, pattern: Node, value: Node, names: seq<string>, rest: seq<Node>)
    requires IsUnreported(value, names, rest) && n in rest
    requires pattern in Preorder(Loose(n)) && pattern.MatchMapping? && pattern.rest == Some(ALL)
    ensures Misreads(Published(value, rest), names)
  {
    HiddenNodeMisreads(n, pattern, value, names, rest);
  }

  /** A subscript or attribute of `__all__` as a loop or `with` target, or wherever else one is stored into. */
  lemma StoredTargetIsBlind(n: Node, target: Node, value: Node, names: seq<string>, rest: seq<Node>)
    requires IsUnreported(value, names, rest) && n in rest
    requires target in Preorder(Loose(n)) && (target.Subscript? || target.Attribute?)
    requires target.ctx != Load && ALL in Sources(target.value, Bodies(rest))
    ensures Misreads(Published(value, rest), names)
  {
    HiddenNodeMisreads(n, target, value, names, rest);
  }

  lemma CallTouches(call: Node, bodies: seq<Node>)
    requires call.Call? && ALL in Mentions([call.func] + call.args)
    ensures ALL in Mutates(call, bodies)
  {
    ReachRuns([call.func] + call.args, bodies);
  }

  /** A call that is handed the list, or a method of anything but the bare name. */
  lemma CallIsBlind(n: Node, call: Node, value: Node, names: seq<string>, rest: seq<Node>)
    requires IsUnreported(value, names, rest) && n in rest
    requires call in Preorder(Loose(n)) && call.Call? && !IsMethodCallOnAll(call)
    requires ALL in Mentions([call.func] + call.args)
    ensures Misreads(Published(value, rest), names)
  {
    CallTouches(call, Bodies(rest));
    HiddenNodeMisreads(n, call, value, names, rest);
  }

  function StarImport(mod: Dotted): Node { ImportFrom(mod, [Alias(["*"], None)]) }

  lemma StarImportFacts(mod: Dotted, bodies: seq<Node>)
    ensures Bystander(StarImport(mod), ALL) && Hides(StarImport(mod), bodies) && !Shows(StarImport(mod))
    ensures IsStarImport(StarImport(mod)) && Loose(StarImport(mod)) == [StarImport(mod)]
    ensures Executed([StarImport(mod)]) == [StarImport(mod)]
  {
    var n := StarImport(mod);
    var names := n.names;
    assert names[0] in names && names[1..] == [] && BoundNames(names, true) == [];
    KnownOfOne(n);
    assert Children(n) == [] && EagerParts(n) == [] && [n][1..] == [];
    assert PreorderOf(n) == [n] + Preorder([]) && ExecutedBy(n) == [n] + Executed([]);
    assert n in Preorder([n]) && Hidden(n, bodies);
  }

  /** `from mod import *` may bring another `__all__`. */
  lemma StarImportIsBlind(mod: Dotted, value: Node, names: seq<string>)
    requires IsPublished(value, names)
    ensures Misreads(Published(value, [StarImport(mod)]), names)
  {
    var rest := [StarImport(mod)];
    StarImportFacts(mod, Bodies(rest));
    assert rest[1..] == [] && IsUnreported(value, names, rest);
    BlindStatementMisreads(rest[0], value, names, rest);
  }

  // ----- a single statement that assigns nothing itself -----

  /** A node of the statement makes `y` hold the list of `__all__`, and another changes what `y` holds. */
  predicate ChangesThrough(n: Node, bodies: seq<Node>, y: string, binder: Node, changer: Node) {
    var ns := Reach(Loose(n), bodies);
    && binder in Executed(ns) && y in Binds(binder) && ALL in Copies(binder, Mentions(ns))
    && changer in Executed(ns) && y in Mutates(changer, bodies)
  }

  predicate AssignsNothing(n: Node) {
    IsStatement(n) && !IsPlainAssignment(n) && !IsPlainAugmented(n)
  }

  lemma StruckStatement(n: Node, bodies: seq<Node>)
    requires AssignsNothing(n)
    ensures StruckAt(n, bodies, {ALL}, ALL)
            <==> Strikes(Reach(Loose(n), bodies), bodies, HeldBefore(n, bodies, {ALL}), ALL)
  {
    NothingAfter(n, bodies);
  }

  lemma SecondNameStrikes(n: Node, bodies: seq<Node>, y: string, binder: Node, changer: Node)
    requires AssignsNothing(n) && ChangesThrough(n, bodies, y, binder, changer)
    ensures StruckAt(n, bodies, {ALL}, ALL)
  {
    assert ALL in Copies(binder, Mentions(Reach(Loose(n), bodies))) * {ALL};
    assert y in HeldBefore(n, bodies, {ALL});
    assert y in Mutates(changer, bodies) * HeldBefore(n, bodies, {ALL});
  }

  lemma StrikeIsDirectOrHanded(n: Node, bodies: seq<Node>)
    requires AssignsNothing(n) && StruckAt(n, bodies, {ALL}, ALL)
    ensures ChangedBy(Reach(Loose(n), bodies), bodies, ALL)
            || exists y, binder, changer :: ChangesThrough(n, bodies, y, binder, changer)
  {
    StruckStatement(n, bodies);
    var ns := Reach(Loose(n), bodies);
    var m :| m in Executed(ns) && (MayBind(m, ALL) || Mutates(m, bodies) * HeldBefore(n, bodies, {ALL}) != {});
    if !MayTouch(m, bodies, ALL) {
      var y :| y in Mutates(m, bodies) * HeldBefore(n, bodies, {ALL});
      var b, w :| b in Executed(ns) && w in Binds(b) && Copies(b, Mentions(ns)) * {ALL} != {} && w == y;
      assert ChangesThrough(n, bodies, y, b, m);
    }
  }

  /**
   For one such statement after `__all__ = [...]`: misread exactly when it shows no change, and hides one or changes
   the list through a capture pattern, a loop variable, an unpacking or an assignment expression that takes it.
   */
  lemma StatementMisreadsExactlyWhen(n: Node, value: Node, names: seq<string>)
    requires AssignsNothing(n) && IsPublished(value, names)
    ensures Misreads(Published(value, [n]), names) <==>
              !Shows(n) && (|| Hides(n, Bodies([n]))
                            || exists y, binder, changer :: ChangesThrough(n, Bodies([n]), y, binder, changer))
  {
    var bodies := Bodies([n]);
    OneStatementMisreadsExactlyWhen(value, names, n);
    OverlookedExactlyWhen(n, bodies);
    ReportedExactlyWhen(n, map[]);
    if ChangedBy(Reach(Loose(n), bodies), bodies, ALL) {
      ChangeStrikes(n, bodies, {ALL}, ALL);
    }
    if y, binder, changer :| ChangesThrough(n, bodies, y, binder, changer) {
      SecondNameStrikes(n, bodies, y, binder, changer);
    }
    if StruckAt(n, bodies, {ALL}, ALL) {
      StrikeIsDirectOrHanded(n, bodies);
    }
  }
}
