/** The premises of the soundness theorem can be met: families of disciplined modules that run and are reported. */
module AllExample {
  import opened Wrappers
  import opened PythonAst
  import opened ExplicitAll
  import opened ModuleRuns
  import opened AllVisibility
  import opened AllSoundness
  import opened ModuleSteps
  import opened AllBlindSpots
  import opened AllHelpers
  import opened AllRebinding

  ghost predicate MeetsThePremises(body: seq<Node>, helpers: set<string>, s: State, s': State) {
    Disciplined(body, helpers, false) && Closed(s) && Completes(body, s, s')
  }

  lemma WithHelperRuns(h: string, value: Node, names: seq<string>) returns (s': State)
    requires h != ALL && IsStatic(value, names)
    ensures Closed(Nowhere) && Completes(Around(h, value, []), Nowhere, s')
  {
    var bodies := Bodies(Around(h, value, []));
    var s := HelperRuns(h, value, names, bodies);
    ReadRuns(h, bodies, s);
    s' := s.(env := s.env[ALL := s.env[h]]);
    assert [] + [Publication(h)] == [Publication(h)];
    RunsCons(Let(h, value), [Publication(h)], bodies, Nowhere, s, s');
  }

  /** For every helper and every readable value the premises hold together, and the scan reports the value. */
  lemma SoundnessApplies(h: string, value: Node, names: seq<string>)
    requires h != ALL && IsStatic(value, names)
    ensures ScanModule(Around(h, value, [])).explicit == Some(names)
    ensures exists s, s' :: MeetsThePremises(Around(h, value, []), {h}, s, s')
  {
    AroundIsReported(h, value, names, []);
    WithHelperIsDisciplined(h, value, names);
    var s' := WithHelperRuns(h, value, names);
    assert MeetsThePremises(Around(h, value, []), {h}, Nowhere, s');
  }

  lemma StarImportIsOk(mod: Dotted, bodies: seq<Node>)
    ensures StatementOk(StarImport(mod), bodies, {}, false, map[])
  {
    var n := StarImport(mod);
    StarImportFacts(mod, bodies);
    StarImportIsSilent(NewScan, mod, 0);
    QuietStarImport(mod, bodies);
    assert n.names[1..] == [] && ImportedAll([]) == {} && ImportedAll(n.names) == {};
    assert Mutates(n, bodies) == {} && Binds(n) == {};
  }

  lemma QuietStarImport(mod: Dotted, bodies: seq<Node>)
    ensures Reach([StarImport(mod)], bodies) == [StarImport(mod)]
  {
    StarImportFacts(mod, bodies);
  }

  lemma StarImportIsSilent(sc: Scan, mod: Dotted, index: nat)
    ensures ScanStep(sc, StarImport(mod), index) == sc
  {
    StarImportFacts(mod, []);
    ReportedExactlyWhen(StarImport(mod), sc.values);
  }

  /** A star import does no harm before anything is read: `from mod import *; __all__ = value`. */
  lemma StarImportFirstIsNotMisread(mod: Dotted, value: Node, names: seq<string>)
    requires IsStatic(value, names)
    ensures !Misreads([StarImport(mod)] + ([Let(ALL, value)] + []), names)
  {
    var last := [Let(ALL, value)] + [];
    var bodies := Bodies([StarImport(mod)] + last);
    assert Tracked({}) == {ALL};
    StarImportIsOk(mod, bodies);
    StarImportIsSilent(NewScan, mod, 0);
    LetIsOk(ALL, value, bodies, {}, false, map[]);
    DisciplinedCons(NewScan, Let(ALL, value), [], bodies, 1, {}, false);
    DisciplinedCons(NewScan, StarImport(mod), last, bodies, 0, {}, false);
    DisciplinedIsNotMisread([StarImport(mod)] + last, {}, false, names);
  }
}
