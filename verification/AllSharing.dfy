/**
 One list under two names, over all runs: `h = value; __all__ = h; __all__ += more; __all__ = h`, and
 `__all__ = value; y = __all__; y += more`.
 */
module AllSharing {
  import opened Wrappers
  import opened PythonAst
  import opened ExplicitAll
  import opened ModuleRuns
  import opened AllVisibility
  import opened AllSoundness
  import opened ModuleSteps
  import opened AllBlindSpots
  import opened AllHelpers

  function Shared(h: string, value: Node, more: Node): seq<Node> {
    [Let(h, value)] + ([Publication(h)] + ([Extend(ALL, more)] + [Publication(h)]))
  }

  // ----- what it is reported as -----

  lemma ExtensionIsScanned(sc: Scan, more: Node, extra: seq<string>, index: nat)
    requires IsStatic(more, extra) && ALL in sc.values
    ensures ScanStep(sc, Extend(ALL, more), index).values == sc.values[ALL := sc.values[ALL] + extra]
  {
    StaticFacts(more, extra, sc.values, Nowhere);
  }

  lemma SharedIsReported(h: string, value: Node, more: Node, names: seq<string>, extra: seq<string>)
    requires h != ALL && IsStatic(value, names) && IsStatic(more, extra)
    ensures ScanModule(Shared(h, value, more)).explicit == Some(names)
  {
    var last := [Publication(h)];
    var sc := ScanStep(NewScan, Let(h, value), 0);
    var sc1 := ScanStep(sc, Publication(h), 1);
    var sc2 := ScanStep(sc1, Extend(ALL, more), 2);
    HelperIsRead(h, value, names);
    ReadFacts(h);
    ScanOfLet(sc, ALL, Read(h), 1);
    ExtensionIsScanned(sc1, more, extra, 2);
    ScanOfLet(sc2, ALL, Read(h), 3);
    ScanCons(NewScan, Let(h, value), [Publication(h)] + ([Extend(ALL, more)] + last), 0);
    ScanCons(sc, Publication(h), [Extend(ALL, more)] + last, 1);
    ScanCons(sc1, Extend(ALL, more), last, 2);
    assert last == [Publication(h)] + [];
    ScanCons(sc2, Publication(h), [], 3);
  }

  // ----- how it runs -----

  /** `h` holds what was read off, and is no list unless nothing is added. */
  ghost predicate Fixed(h: string, names: seq<string>, extra: seq<string>, s: State) {
    && Closed(s) && h in s.env && Contents(s, s.env[h]) == Some(Texts(names))
    && (s.env[h].ListRef? ==> extra == [])
  }

  lemma PublicationKeeps(h: string, bodies: seq<Node>, names: seq<string>, extra: seq<string>, s: State, s': State)
    requires h != ALL && Fixed(h, names, extra, s) && Runs(Publication(h), bodies, s, s')
    ensures Fixed(h, names, extra, s') && ALL in s'.env && s'.env[ALL] == s'.env[h]
  {
    PublicationEnds(h, bodies, s, s');
  }

  lemma ExtensionKeeps(h: string, more: Node, bodies: seq<Node>, names: seq<string>, extra: seq<string>,
                       s: State, s': State)
    requires h != ALL && IsStatic(more, extra) && Fixed(h, names, extra, s)
    requires Runs(Extend(ALL, more), bodies, s, s') && ALL in s.env && s.env[ALL] == s.env[h]
    ensures Fixed(h, names, extra, s')
  {
    ExtensionEnds(ALL, more, bodies, names, extra, s, s');
    assert Texts([]) == [] && Texts(names) + [] == Texts(names);
  }

  lemma SharedEnds(h: string, value: Node, more: Node, names: seq<string>, extra: seq<string>, s: State, s': State)
    requires h != ALL && IsStatic(value, names) && IsStatic(more, extra)
    requires value.TupleExpr? || extra == []
    requires Closed(s) && Completes(Shared(h, value, more), s, s')
    ensures ALL in s'.env && Contents(s', s'.env[ALL]) == Some(Texts(names))
  {
    var bodies := Bodies(Shared(h, value, more));
    var p, q, r := SharedRun(h, value, more, bodies, s, s');
    assert Fixed(h, names, extra, p) by {
      HelperEnds(h, value, names, bodies, s, p);
    }
    PublicationKeeps(h, bodies, names, extra, p, q);
    ExtensionKeeps(h, more, bodies, names, extra, q, r);
    PublishedEnds(h, bodies, names, r, s');
  }

  lemma SharedRun(h: string, value: Node, more: Node, bodies: seq<Node>, s: State, s': State)
    returns (p: State, q: State, r: State)
    requires RunsAll(Shared(h, value, more), bodies, s, s')
    ensures Runs(Let(h, value), bodies, s, p) && Runs(Publication(h), bodies, p, q)
    ensures Runs(Extend(ALL, more), bodies, q, r) && RunsAll([Publication(h)], bodies, r, s')
  {
    var last := [Publication(h)];
    p := RunsFirst(Let(h, value), [Publication(h)] + ([Extend(ALL, more)] + last), bodies, s, s');
    q := RunsFirst(Publication(h), [Extend(ALL, more)] + last, bodies, p, s');
    r := RunsFirst(Extend(ALL, more), last, bodies, q, s');
  }

  lemma PublicationRuns(h: string, bodies: seq<Node>, s: State)
    requires Closed(s) && h in s.env
    ensures Runs(Publication(h), bodies, s, s.(env := s.env[ALL := s.env[h]]))
  {
    LetRuns(ALL, Read(h), bodies, s, s.env[h], s);
  }

  lemma GrownListRuns(h: string, value: Node, more: Node, names: seq<string>, extra: seq<string>, bodies: seq<Node>)
    returns (s': State)
    requires h != ALL && IsStatic(value, names) && IsStatic(more, extra) && value.ListExpr?
    ensures RunsAll(Shared(h, value, more), bodies, Nowhere, s')
    ensures ALL in s'.env && Contents(s', s'.env[ALL]) == Some(Texts(names) + Texts(extra))
  {
    var last := [Publication(h)];
    var p := HelperRuns(h, value, names, bodies);
    PublicationRuns(h, bodies, p);
    var q := p.(env := p.env[ALL := p.env[h]]);
    var r := ExtensionRuns(ALL, more, bodies, names, extra, q);
    ExtensionEnds(ALL, more, bodies, names, extra, q, r);
    ReadRuns(h, bodies, r);
    s' := r.(env := r.env[ALL := r.env[h]]);
    RunsCons(Extend(ALL, more), last, bodies, q, r, s');
    RunsCons(Publication(h), [Extend(ALL, more)] + last, bodies, p, q, s');
    RunsCons(Let(h, value), [Publication(h)] + ([Extend(ALL, more)] + last), bodies, Nowhere, p, s');
  }

  lemma GrownListMisreads(h: string, value: Node, more: Node, names: seq<string>, extra: seq<string>)
    requires h != ALL && IsStatic(value, names) && IsStatic(more, extra) && value.ListExpr? && extra != []
    ensures Misreads(Shared(h, value, more), names)
  {
    SharedIsReported(h, value, more, names, extra);
    var s' := GrownListRuns(h, value, more, names, extra, Bodies(Shared(h, value, more)));
    assert |Texts(names) + Texts(extra)| != |Texts(names)|;
    assert EndsOtherwise(Shared(h, value, more), names, Nowhere, s');
  }

  /**
   For every helper, every display and every readable extension: misread exactly when the display is a list and the
   extension adds something. A tuple is replaced, not changed.
   */
  lemma SharedIsMisreadExactlyWhen(h: string, value: Node, more: Node, names: seq<string>, extra: seq<string>)
    requires h != ALL && IsStatic(value, names) && IsStatic(more, extra) && (value.ListExpr? || value.TupleExpr?)
    ensures Misreads(Shared(h, value, more), names) <==> value.ListExpr? && extra != []
  {
    if value.ListExpr? && extra != [] {
      GrownListMisreads(h, value, more, names, extra);
    } else {
      forall s, s' | Closed(s) && Completes(Shared(h, value, more), s, s')
        ensures ALL in s'.env && Contents(s', s'.env[ALL]) == Some(Texts(names))
      {
        SharedEnds(h, value, more, names, extra, s, s');
      }
    }
  }

  // ----- another name for the published list -----

  /** `__all__ = value; y = __all__; y += more`. */
  function Aliased(y: string, value: Node, more: Node): seq<Node> {
    [Let(ALL, value)] + ([Let(y, Read(ALL))] + [Extend(y, more)])
  }

  lemma AliasedIsReported(y: string, value: Node, more: Node, names: seq<string>, extra: seq<string>)
    requires y != ALL && IsStatic(value, names) && IsStatic(more, extra)
    ensures ScanModule(Aliased(y, value, more)).explicit == Some(names)
  {
    var sc := ScanStep(NewScan, Let(ALL, value), 0);
    var sc1 := ScanStep(sc, Let(y, Read(ALL)), 1);
    assert sc1.explicit == Some(names) by {
      StaticFacts(value, names, map[], Nowhere);
      ReadFacts(ALL);
      ScanOfLet(NewScan, ALL, value, 0);
      ScanOfLet(sc, y, Read(ALL), 1);
    }
    ExtensionIsUnseen(sc1, y, more, extra, 2);
    ScanCons(NewScan, Let(ALL, value), [Let(y, Read(ALL))] + [Extend(y, more)], 0);
    ScanCons(sc, Let(y, Read(ALL)), [Extend(y, more)], 1);
    assert [Extend(y, more)] + [] == [Extend(y, more)];
    ScanCons(sc1, Extend(y, more), [], 2);
  }

  lemma AliasedRun(y: string, value: Node, more: Node, bodies: seq<Node>, s: State, s': State)
    returns (p: State, q: State)
    requires RunsAll(Aliased(y, value, more), bodies, s, s')
    ensures Runs(Let(ALL, value), bodies, s, p) && Runs(Let(y, Read(ALL)), bodies, p, q)
    ensures Runs(Extend(y, more), bodies, q, s')
  {
    p := RunsFirst(Let(ALL, value), [Let(y, Read(ALL))] + [Extend(y, more)], bodies, s, s');
    q := RunsFirst(Let(y, Read(ALL)), [Extend(y, more)], bodies, p, s');
    assert [Extend(y, more)] + [] == [Extend(y, more)];
    var r := RunsFirst(Extend(y, more), [], bodies, q, s');
  }

  lemma AliasExtends(y: string, more: Node, names: seq<string>, extra: seq<string>, bodies: seq<Node>,
                     p: State, q: State, s': State)
    requires y != ALL && IsStatic(more, extra) && Closed(p) && ALL in p.env
    requires Contents(p, p.env[ALL]) == Some(Texts(names))
    requires Runs(Let(y, Read(ALL)), bodies, p, q) && Runs(Extend(y, more), bodies, q, s')
    ensures ALL in s'.env && s'.env[ALL] == p.env[ALL]
    ensures Contents(s', p.env[ALL]) == Some(if p.env[ALL].ListRef? then Texts(names) + Texts(extra) else Texts(names))
  {
    CopyEnds(y, ALL, bodies, p, q);
    assert q.env[y] == q.env[ALL] == p.env[ALL] && Contents(q, q.env[y]) == Some(Texts(names));
    ExtensionEnds(y, more, bodies, names, extra, q, s');
  }

  /** What is in `__all__` in the end: the extension too, if the two names share a list. */
  lemma AliasedEnds(y: string, value: Node, more: Node, names: seq<string>, extra: seq<string>, bodies: seq<Node>,
                    s: State, s': State)
    requires y != ALL && IsStatic(value, names) && IsStatic(more, extra) && (value.ListExpr? || value.TupleExpr?)
    requires Closed(s) && RunsAll(Aliased(y, value, more), bodies, s, s')
    ensures ALL in s'.env
    ensures Contents(s', s'.env[ALL]) == Some(if value.ListExpr? then Texts(names) + Texts(extra) else Texts(names))
  {
    var p, q := AliasedRun(y, value, more, bodies, s, s');
    HelperEnds(ALL, value, names, bodies, s, p);
    AliasExtends(y, more, names, extra, bodies, p, q, s');
  }

  lemma AliasRuns(y: string, more: Node, names: seq<string>, extra: seq<string>, bodies: seq<Node>, p: State)
    returns (s': State)
    requires y != ALL && IsStatic(more, extra) && Closed(p) && ALL in p.env
    requires Contents(p, p.env[ALL]) == Some(Texts(names))
    ensures RunsAll([Let(y, Read(ALL))] + [Extend(y, more)], bodies, p, s')
  {
    var q := p.(env := p.env[y := p.env[ALL]]);
    assert Runs(Let(y, Read(ALL)), bodies, p, q) by {
      LetRuns(y, Read(ALL), bodies, p, p.env[ALL], p);
    }
    s' := ExtensionRuns(y, more, bodies, names, extra, q);
    assert [Extend(y, more)] + [] == [Extend(y, more)];
    RunsCons(Extend(y, more), [], bodies, q, s', s');
    RunsCons(Let(y, Read(ALL)), [Extend(y, more)], bodies, p, q, s');
  }

  lemma AliasedRuns(y: string, value: Node, more: Node, names: seq<string>, extra: seq<string>, bodies: seq<Node>)
    returns (s': State)
    requires y != ALL && IsStatic(value, names) && IsStatic(more, extra)
    ensures RunsAll(Aliased(y, value, more), bodies, Nowhere, s')
  {
    var p := HelperRuns(ALL, value, names, bodies);
    s' := AliasRuns(y, more, names, extra, bodies, p);
    RunsCons(Let(ALL, value), [Let(y, Read(ALL))] + [Extend(y, more)], bodies, Nowhere, p, s');
  }

  /** For every second name and all displays that can be added: misread exactly when a list grows. */
  lemma AliasedIsMisreadExactlyWhen(y: string, value: Node, more: Node, names: seq<string>, extra: seq<string>)
    requires y != ALL && IsStatic(value, names) && IsStatic(more, extra) && CanExtend(value, more)
    ensures Misreads(Aliased(y, value, more), names) <==> value.ListExpr? && extra != []
  {
    var body := Aliased(y, value, more);
    AliasedIsReported(y, value, more, names, extra);
    assert Texts([]) == [] && Texts(names) + [] == Texts(names);
    assert |Texts(names) + Texts(extra)| == |Texts(names)| + |extra|;
    if value.ListExpr? && extra != [] {
      var s' := AliasedRuns(y, value, more, names, extra, Bodies(body));
      AliasedEnds(y, value, more, names, extra, Bodies(body), Nowhere, s');
      assert EndsOtherwise(body, names, Nowhere, s');
    } else {
      forall s, s' | Closed(s) && Completes(body, s, s')
        ensures ALL in s'.env && Contents(s', s'.env[ALL]) == Some(Texts(names))
      {
        AliasedEnds(y, value, more, names, extra, Bodies(body), s, s');
      }
    }
  }
}
