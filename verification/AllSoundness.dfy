/**
 When the linter's reading of `__all__` can be believed: on a disciplined module, every completed
 run ends with exactly the list the scan reported.
 */
module AllSoundness {
  import opened Wrappers
  import opened PythonAst
  import opened ExplicitAll
  import opened ModuleRuns
  import opened AllVisibility

  /** `__all__` and the helper names its value is built from. */
  function Tracked(helpers: set<string>): set<string> {
    helpers + {ALL}
  }

  // ----- discipline -----

  /** Built without set displays, reading tracked names only. */
  predicate ListsOnly(e: Node, tracked: set<string>)
    decreases e, 1
  {
    match e
    case ListExpr(elts) => ElementsListsOnly(elts, tracked)
    case TupleExpr(elts) => ElementsListsOnly(elts, tracked)
    case SetExpr(_) => false
    case Name(id, ctx) => ctx == Load && id in tracked
    case Add(l, r) => ListsOnly(l, tracked) && ListsOnly(r, tracked)
    case _ => true
  }

  predicate ElementsListsOnly(elts: seq<Node>, tracked: set<string>)
    decreases elts, 0
  {
    elts == [] || (ElementListsOnly(elts[0], tracked) && ElementsListsOnly(elts[1..], tracked))
  }

  predicate ElementListsOnly(element: Node, tracked: set<string>)
    decreases element, 1
  {
    match element
    case Starred(v) => ListsOnly(v, tracked)
    case _ => true
  }

  /**
   Names `binds` may come to share a list with `sources`. A tracked list is shared with tracked names
   only; and when `__all__` is changed in place somewhere, never between `__all__` and a helper.
   */
  predicate ShareOk(binds: set<string>, sources: set<string>, helpers: set<string>, inPlace: bool) {
    || sources * Tracked(helpers) == {}
    || binds == {}
    || (&& binds <= Tracked(helpers)
        && (inPlace ==> || (ALL !in binds && ALL !in sources)
                        || (binds <= {ALL} && sources * helpers == {})))
  }

  predicate ChangesAllInPlace(n: Node, bodies: seq<Node>) {
    || (IsPlainAugmented(n) && n.target.id == ALL)
    || exists m :: m in Executed(Reach(Loose(n), bodies)) && ALL in Mutates(m, bodies)
  }

  /** Whatever change the statement hides, it shows one too. */
  predicate Visible(n: Node, bodies: seq<Node>) {
    Hides(n, bodies) ==> Shows(n)
  }

  predicate LooseOk(m: Node, mentioned: set<string>, bodies: seq<Node>, held: set<string>, helpers: set<string>,
                    inPlace: bool)
  {
    && Mutates(m, bodies) * helpers == {}
    && (forall x :: x in held && x in helpers ==> !MayBind(m, x))
    && ShareOk(Binds(m), Copies(m, mentioned), helpers, inPlace)
  }

  function NameSet(names: seq<string>): set<string> {
    set x | x in names
  }

  function NewlyHeld(n: Node): set<string> {
    if IsPlainAssignment(n) then NameSet(AssignedNames(n)) else {}
  }

  predicate AssignmentOk(n: Node, bodies: seq<Node>, helpers: set<string>, inPlace: bool, values: Values)
    requires IsPlainAssignment(n)
  {
    var names := NewlyHeld(n);
    var value := AssignedValue(n);
    && ShareOk(names, Sources(value, bodies) + names, helpers, inPlace)
    && (names * Tracked(helpers) != {} ==> ListsOnly(value, Tracked(helpers)))
    // a helper is never given a value the scanner cannot read while an older reading of it is kept
    && (AllMutation(n, values).0 || StaticStringList(value, values).None? ==> names * helpers * values.Keys == {})
  }

  predicate AugmentationOk(n: Node, bodies: seq<Node>, helpers: set<string>, inPlace: bool, values: Values)
    requires IsPlainAugmented(n)
  {
    && n.target.id !in helpers
    && (n.target.id == ALL ==> ListsOnly(n.value, Tracked(helpers)))
    && (AllMutation(n, values).1.None? ==> ShareOk({n.target.id}, Pool(n, bodies), helpers, inPlace))
  }

  /** The readings the scan keeps after a statement. */
  function Next(n: Node, values: Values): Values {
    ScanStep(Scan(values, None, None), n, 0).values
  }

  predicate StatementOk(n: Node, bodies: seq<Node>, helpers: set<string>, inPlace: bool, values: Values) {
    && IsStatement(n)
    && (ALL in Next(n, values) ==> Visible(n, bodies))
    && (ChangesAllInPlace(n, bodies) ==> inPlace)
    && (forall m :: m in Executed(Reach(Loose(n), bodies)) ==>
          LooseOk(m, Pool(n, bodies), bodies, values.Keys + NewlyHeld(n), helpers, inPlace))
    && (IsPlainAugmented(n) ==> AugmentationOk(n, bodies, helpers, inPlace, values))
    && (IsPlainAssignment(n) ==> AssignmentOk(n, bodies, helpers, inPlace, values))
    // helpers are plain-name targets
    && (forall x :: x in AssignedNamesAndValue(n).0 && x in helpers ==>
          IsPlainAssignment(n) && x in AssignedNames(n))
  }

  predicate DisciplinedFrom(sc: Scan, body: seq<Node>, bodies: seq<Node>, index: nat, helpers: set<string>,
                            inPlace: bool)
    decreases |body|
  {
    body == [] || (&& StatementOk(body[0], bodies, helpers, inPlace, sc.values)
                   && DisciplinedFrom(ScanStep(sc, body[0], index), body[1..], bodies, index + 1, helpers, inPlace))
  }

  predicate Disciplined(body: seq<Node>, helpers: set<string>, inPlace: bool) {
    ALL !in helpers && DisciplinedFrom(NewScan, body, Bodies(body), 0, helpers, inPlace)
  }

  // ----- the invariant -----

  /** Every tracked reading is what the name holds. */
  ghost predicate Faithful(values: Values, helpers: set<string>, s: State) {
    forall x :: x in values && x in Tracked(helpers) ==>
      x in s.env && Contents(s, s.env[x]) == Some(Texts(values[x]))
  }

  ghost predicate Shares(x: string, y: string, s: State) {
    x != y && x in s.env && y in s.env && s.env[x].ListRef? && s.env[x] == s.env[y]
  }

  /** A list with a tracked reading is held by tracked names only. */
  ghost predicate Separate(values: Values, helpers: set<string>, inPlace: bool, s: State) {
    forall x, y :: x in values && x in Tracked(helpers) && Shares(x, y, s) ==>
      y in Tracked(helpers) && (inPlace ==> x != ALL && y != ALL)
  }

  ghost predicate Inv(values: Values, helpers: set<string>, inPlace: bool, s: State) {
    Closed(s) && Faithful(values, helpers, s) && Separate(values, helpers, inPlace, s)
  }

  ghost predicate NodeOk(m: Node, mentioned: set<string>, bodies: seq<Node>, values: Values, helpers: set<string>,
                         inPlace: bool)
  {
    && (forall x :: x in values && x in Tracked(helpers) ==> !MayBind(m, x))
    && Mutates(m, bodies) * helpers == {}
    && (ALL in Mutates(m, bodies) ==> inPlace && ALL !in values)
    && ShareOk(Binds(m), Copies(m, mentioned), helpers, inPlace)
  }

  lemma TrackedListIsNotHeld(m: Node, mentioned: set<string>, bodies: seq<Node>, values: Values, helpers: set<string>,
                             inPlace: bool, s: State, x: string)
    requires ALL !in helpers && Inv(values, helpers, inPlace, s)
    requires NodeOk(m, mentioned, bodies, values, helpers, inPlace)
    requires x in values && x in Tracked(helpers) && x in s.env && s.env[x].ListRef?
    ensures !HeldBy(s.env[x].addr, Mutates(m, bodies), s)
  {
    forall y | y in Mutates(m, bodies) && y in s.env
      ensures s.env[y] != s.env[x]
    {
      assert y !in helpers by {
        assert y in helpers ==> y in Mutates(m, bodies) * helpers;
      }
      assert y != x && !Shares(x, y, s);
    }
  }

  lemma LocalEffectKeepsFaithful(m: Node, mentioned: set<string>, bodies: seq<Node>, values: Values,
                                 helpers: set<string>, inPlace: bool, s: State, s': State)
    requires ALL !in helpers && Inv(values, helpers, inPlace, s)
    requires NodeOk(m, mentioned, bodies, values, helpers, inPlace) && LocalEffect(m, mentioned, bodies, s, s')
    ensures Faithful(values, helpers, s')
  {
    forall x | x in values && x in Tracked(helpers)
      ensures x in s'.env && Contents(s', s'.env[x]) == Some(Texts(values[x]))
    {
      assert !MayBind(m, x) && s'.env[x] == s.env[x];
      if s.env[x].ListRef? {
        TrackedListIsNotHeld(m, mentioned, bodies, values, helpers, inPlace, s, x);
      }
    }
  }

  lemma LocalEffectKeepsSeparate(m: Node, mentioned: set<string>, bodies: seq<Node>, values: Values,
                                 helpers: set<string>, inPlace: bool, s: State, s': State)
    requires ALL !in helpers && Inv(values, helpers, inPlace, s)
    requires NodeOk(m, mentioned, bodies, values, helpers, inPlace) && LocalEffect(m, mentioned, bodies, s, s')
    ensures Separate(values, helpers, inPlace, s')
  {
    forall x, y | x in values && x in Tracked(helpers) && Shares(x, y, s')
      ensures y in Tracked(helpers) && (inPlace ==> x != ALL && y != ALL)
    {
      assert !MayBind(m, x) && s'.env[x] == s.env[x] && x in s.env;
      if Shares(x, y, s) {
      } else {
        assert MayBind(m, y);
        var z :| z in Copies(m, mentioned) && z in s.env && s.env[z] == s'.env[y];
        assert y in Binds(m);
        assert z == x || Shares(x, z, s);
        assert z in Copies(m, mentioned) * Tracked(helpers);
        assert z != ALL ==> z in Copies(m, mentioned) * helpers;
      }
    }
  }

  lemma LocalEffectKeepsInv(m: Node, mentioned: set<string>, bodies: seq<Node>, values: Values, helpers: set<string>,
                            inPlace: bool, s: State, s': State)
    requires ALL !in helpers && Inv(values, helpers, inPlace, s)
    requires NodeOk(m, mentioned, bodies, values, helpers, inPlace) && LocalEffect(m, mentioned, bodies, s, s')
    ensures Inv(values, helpers, inPlace, s')
  {
    LocalEffectKeepsFaithful(m, mentioned, bodies, values, helpers, inPlace, s, s');
    LocalEffectKeepsSeparate(m, mentioned, bodies, values, helpers, inPlace, s, s');
  }

  ghost predicate NodesOk(ns: seq<Node>, mentioned: set<string>, bodies: seq<Node>, values: Values,
                          helpers: set<string>, inPlace: bool)
  {
    forall m :: m in Executed(ns) ==> NodeOk(m, mentioned, bodies, values, helpers, inPlace)
  }

  /** Fewer nodes and fewer lists to hand around do less. */
  lemma FewerNodesOk(ns: seq<Node>, mentioned: set<string>, fewer: seq<Node>, less: set<string>, bodies: seq<Node>,
                     values: Values, helpers: set<string>, inPlace: bool)
    requires NodesOk(ns, mentioned, bodies, values, helpers, inPlace) && less <= mentioned
    requires forall m :: m in Executed(fewer) ==> m in Executed(ns)
    ensures NodesOk(fewer, less, bodies, values, helpers, inPlace)
  {
    forall m | m in Executed(fewer)
      ensures NodeOk(m, less, bodies, values, helpers, inPlace)
    {
      assert NodeOk(m, mentioned, bodies, values, helpers, inPlace);
      assert Copies(m, less) <= Copies(m, mentioned);
    }
  }

  lemma StarKeepsInv(ns: seq<Node>, mentioned: set<string>, bodies: seq<Node>, values: Values, helpers: set<string>,
                     inPlace: bool, s: State, s': State)
    requires ALL !in helpers && Inv(values, helpers, inPlace, s)
    requires NodesOk(ns, mentioned, bodies, values, helpers, inPlace) && Star(ns, mentioned, bodies, s, s')
    ensures Inv(values, helpers, inPlace, s')
  {
    forall t, t' | Inv(values, helpers, inPlace, t) && AnyEffect(ns, mentioned, bodies, t, t')
      ensures Inv(values, helpers, inPlace, t')
    {
      var m :| m in Executed(ns) && LocalEffect(m, mentioned, bodies, t, t');
      LocalEffectKeepsInv(m, mentioned, bodies, values, helpers, inPlace, t, t');
    }
    StarKeeps(ns, mentioned, bodies, t => Inv(values, helpers, inPlace, t), s, s');
  }

  /** And the names with a tracked reading keep their values, and no list is lost. */
  ghost predicate SameTracked(values: Values, helpers: set<string>, s: State, s': State) {
    && s.heap.Keys <= s'.heap.Keys
    && forall x :: x in values && x in Tracked(helpers) && x in s.env ==> x in s'.env && s'.env[x] == s.env[x]
  }

  lemma StarKeepsTracked(ns: seq<Node>, mentioned: set<string>, bodies: seq<Node>, values: Values,
                         helpers: set<string>, inPlace: bool, s: State, s': State)
    requires NodesOk(ns, mentioned, bodies, values, helpers, inPlace) && Star(ns, mentioned, bodies, s, s')
    ensures SameTracked(values, helpers, s, s')
  {
    forall t, t' | SameTracked(values, helpers, s, t) && AnyEffect(ns, mentioned, bodies, t, t')
      ensures SameTracked(values, helpers, s, t')
    {
      var m :| m in Executed(ns) && LocalEffect(m, mentioned, bodies, t, t');
      assert NodeOk(m, mentioned, bodies, values, helpers, inPlace);
    }
    StarKeeps(ns, mentioned, bodies, t => SameTracked(values, helpers, s, t), s, s');
  }

  // ----- static values are right -----

  lemma TextsConcat(a: seq<string>, b: seq<string>)
    ensures Texts(a + b) == Texts(a) + Texts(b)
  {
  }

  lemma {:induction false} StaticIsDenoted(e: Node, values: Values, helpers: set<string>, inPlace: bool, s: State)
    requires Inv(values, helpers, inPlace, s)
    requires ListsOnly(e, Tracked(helpers)) && StaticStringList(e, values).Some?
    ensures Denote(e, s) == Some(Texts(StaticStringList(e, values).value))
    decreases e, 1
  {
    match e
    case ListExpr(elts) => StaticElementsAreDenoted(elts, values, helpers, inPlace, s);
    case TupleExpr(elts) => StaticElementsAreDenoted(elts, values, helpers, inPlace, s);
    case Add(l, r) =>
      StaticIsDenoted(l, values, helpers, inPlace, s);
      StaticIsDenoted(r, values, helpers, inPlace, s);
      TextsConcat(StaticStringList(l, values).value, StaticStringList(r, values).value);
    case _ =>
  }

  lemma {:induction false} StaticElementsAreDenoted(elts: seq<Node>, values: Values, helpers: set<string>,
                                                    inPlace: bool, s: State)
    requires Inv(values, helpers, inPlace, s)
    requires ElementsListsOnly(elts, Tracked(helpers)) && StaticElements(elts, values).Some?
    ensures DenoteElements(elts, s) == Some(Texts(StaticElements(elts, values).value))
    decreases elts, 0
  {
    if elts == [] {
      assert Texts([]) == [];
    } else {
      StaticElementIsDenoted(elts[0], values, helpers, inPlace, s);
      StaticElementsAreDenoted(elts[1..], values, helpers, inPlace, s);
      TextsConcat(StaticElement(elts[0], values).value, StaticElements(elts[1..], values).value);
    }
  }

  lemma StaticElementIsDenoted(element: Node, values: Values, helpers: set<string>, inPlace: bool, s: State)
    requires Inv(values, helpers, inPlace, s)
    requires ElementListsOnly(element, Tracked(helpers)) && StaticElement(element, values).Some?
    ensures DenoteElement(element, s) == Some(Texts(StaticElement(element, values).value))
    decreases element, 1
  {
    match element
    case Starred(v) => StaticIsDenoted(v, values, helpers, inPlace, s);
    case Str(text) => assert Texts([text]) == [Text(text)];
    case _ =>
  }

  // ----- one statement -----

  lemma EvaluationKeepsInv(e: Node, bodies: seq<Node>, values: Values, helpers: set<string>, inPlace: bool,
                           s: State, v: PyVal, s': State)
    requires Inv(values, helpers, inPlace, s) && Evaluates(e, bodies, s, v, s')
    ensures Inv(values, helpers, inPlace, s')
    ensures v.ListRef? ==> v.addr in s'.heap
    ensures Obtainable(v, Sources(e, bodies), s) && s'.env == s.env
  {
  }

  /** Dropping readings only weakens the invariant. */
  lemma FewerReadings(values: Values, fewer: Values, helpers: set<string>, inPlace: bool, s: State)
    requires Inv(values, helpers, inPlace, s)
    requires forall x :: x in fewer && x in Tracked(helpers) ==> x in values && fewer[x] == values[x]
    ensures Inv(fewer, helpers, inPlace, s)
  {
  }

  lemma SharingFact(binds: set<string>, sources: set<string>, helpers: set<string>, inPlace: bool, b: string, m: string)
    requires ALL !in helpers && ShareOk(binds, sources + binds, helpers, inPlace)
    requires b in binds && m in sources + binds && m in Tracked(helpers)
    ensures b in Tracked(helpers)
    ensures inPlace ==> (b != ALL && m != ALL) || (b == ALL && m == ALL)
  {
    assert m in (sources + binds) * Tracked(helpers);
    assert m != ALL ==> m in (sources + binds) * helpers;
  }

  /**
   Binding names to a value: afterwards each tracked reading is either an untouched old one, or that of
   a bound name and then the value is what was read, new or copied from a name whose reading is held.
   */
  ghost predicate Rebinds(names: seq<string>, sources: set<string>, v: PyVal, values: Values, values': Values,
                          helpers: set<string>, inPlace: bool, s0: State, s: State) {
    && s.env == s0.env && Closed(s0) && Obtainable(v, sources, s0) && (v.ListRef? ==> v.addr in s.heap)
    && ShareOk(NameSet(names), sources + NameSet(names), helpers, inPlace)
    && (forall x :: x in values' && x in Tracked(helpers) && x !in names ==> x in values && values'[x] == values[x])
    && (forall x :: x in values' && x in Tracked(helpers) && x in names ==>
          Contents(s, v) == Some(Texts(values'[x])) && Obtainable(v, values.Keys * Tracked(helpers) * sources, s0))
  }

  lemma BindingKeepsSeparate(names: seq<string>, sources: set<string>, v: PyVal, values: Values, values': Values,
                             helpers: set<string>, inPlace: bool, s0: State, s: State, s': State, x: string, y: string)
    requires ALL !in helpers && Inv(values, helpers, inPlace, s)
    requires Rebinds(names, sources, v, values, values', helpers, inPlace, s0, s)
    requires s' == s.(env := BindEach(s.env, names, v))
    requires x in values' && x in Tracked(helpers) && Shares(x, y, s')
    ensures y in Tracked(helpers) && (inPlace ==> x != ALL && y != ALL)
  {
    var bound := NameSet(names);
    if x in names && y in names {
      SharingFact(bound, sources, helpers, inPlace, y, x);
    } else if x in names {
      assert s'.env[y] == s.env[y] == v;
      var m :| m in values.Keys * Tracked(helpers) * sources && m in s0.env && s0.env[m] == v;
      SharingFact(bound, sources, helpers, inPlace, x, m);
      assert m == y || Shares(m, y, s);
    } else if y in names {
      assert s'.env[x] == s.env[x] == v;
      var m :| m in sources && m in s0.env && s0.env[m] == v;
      assert m == x || Shares(x, m, s);
      SharingFact(bound, sources, helpers, inPlace, y, m);
    } else {
      assert Shares(x, y, s);
    }
  }

  lemma BindingKeepsInv(names: seq<string>, sources: set<string>, v: PyVal, values: Values, values': Values,
                        helpers: set<string>, inPlace: bool, s0: State, s: State, s': State)
    requires ALL !in helpers && Inv(values, helpers, inPlace, s)
    requires Rebinds(names, sources, v, values, values', helpers, inPlace, s0, s)
    requires s' == s.(env := BindEach(s.env, names, v))
    ensures Inv(values', helpers, inPlace, s')
  {
    forall x, y | x in values' && x in Tracked(helpers) && Shares(x, y, s')
      ensures y in Tracked(helpers) && (inPlace ==> x != ALL && y != ALL)
    {
      BindingKeepsSeparate(names, sources, v, values, values', helpers, inPlace, s0, s, s', x, y);
    }
  }

  // ----- what the scanner's names mean -----

  lemma {:induction false} BoundNamesOfTargets(targets: seq<Node>)
    ensures forall x :: x in PlainNames(targets) ==> x in BindingNamesAll(targets)
    ensures ALL in BindingNamesAll(targets) ==>
              ALL in PlainNames(targets) || exists t :: t in targets && TargetsAll(t) && !t.Name?
  {
    if targets != [] {
      BoundNamesOfTargets(targets[1..]);
      assert forall t :: t in targets[1..] ==> t in targets;
      assert targets[0] in targets;
      BoundNameIsTarget(targets[0]);
      assert BindingNamesAll(targets) == BindingNames(targets[0]) + BindingNamesAll(targets[1..]);
    }
  }

  lemma {:induction false} BoundNameIsTarget(n: Node)
    ensures ALL in BindingNames(n) ==> TargetsAll(n)
    decreases n, 1
  {
    match n
    case Starred(v) => BoundNameIsTarget(v);
    case ListExpr(elts) => BoundNamesAreTargets(elts);
    case TupleExpr(elts) => BoundNamesAreTargets(elts);
    case _ =>
  }

  lemma {:induction false} BoundNamesAreTargets(ns: seq<Node>)
    ensures ALL in BindingNamesAll(ns) ==> AnyTargetsAll(ns)
    decreases ns, 0
  {
    if ns != [] {
      BoundNameIsTarget(ns[0]);
      BoundNamesAreTargets(ns[1..]);
    }
  }

  /** Displays, sums, strings and names that are read. */
  predicate Inert(m: Node) {
    || m.ListExpr? || m.TupleExpr? || m.SetExpr? || m.Starred? || m.Add? || m.Str? || (m.Name? && m.ctx == Load)
  }

  ghost predicate Quiet(ns: seq<Node>) {
    forall m :: m in Executed(ns) ==> Inert(m)
  }

  lemma QuietConcat(a: seq<Node>, b: seq<Node>)
    requires Quiet(a) && Quiet(b)
    ensures Quiet(a + b)
  {
    ExecutedConcat(a, b);
  }

  /** A value the scanner can read has no effect when it runs. */
  lemma {:induction false} StaticIsQuiet(e: Node, values: Values, tracked: set<string>)
    requires ListsOnly(e, tracked) && StaticStringList(e, values).Some?
    ensures Quiet([e])
    decreases e, 1
  {
    match e
    case ListExpr(elts) =>
      StaticElementsAreQuiet(elts, values, tracked);
      assert Executed([e]) == [e] + Executed(elts);
    case TupleExpr(elts) =>
      StaticElementsAreQuiet(elts, values, tracked);
      assert Executed([e]) == [e] + Executed(elts);
    case Add(l, r) =>
      StaticIsQuiet(l, values, tracked);
      StaticIsQuiet(r, values, tracked);
      QuietConcat([l], [r]);
      assert [l] + [r] == [l, r];
      assert Executed([e]) == [e] + Executed([l, r]);
    case _ =>
  }

  lemma {:induction false} StaticElementsAreQuiet(elts: seq<Node>, values: Values, tracked: set<string>)
    requires ElementsListsOnly(elts, tracked) && StaticElements(elts, values).Some?
    ensures Quiet(elts)
    decreases elts, 0
  {
    if elts != [] {
      StaticElementIsQuiet(elts[0], values, tracked);
      StaticElementsAreQuiet(elts[1..], values, tracked);
      QuietConcat([elts[0]], elts[1..]);
      assert [elts[0]] + elts[1..] == elts;
    }
  }

  lemma {:induction false} StaticElementIsQuiet(element: Node, values: Values, tracked: set<string>)
    requires ElementListsOnly(element, tracked) && StaticElement(element, values).Some?
    ensures Quiet([element])
    decreases element, 1
  {
    match element
    case Starred(v) =>
      StaticIsQuiet(v, values, tracked);
      assert Executed([element]) == [element] + Executed([v]);
    case _ =>
  }

  lemma QuietInvokesNothing(ns: seq<Node>, bodies: seq<Node>)
    requires Quiet(ns)
    ensures Reach(ns, bodies) == ns && forall x :: !ChangedBy(ns, bodies, x)
  {
    forall m, x | m in Executed(ns)
      ensures !IsInvocation(m) && !MayTouch(m, bodies, x)
    {
      assert Inert(m);
    }
  }

  // ----- one statement keeps the invariant -----

  lemma KeepingIsStill(n: Node, bodies: seq<Node>, values: Values, helpers: set<string>, inPlace: bool)
    requires StatementOk(n, bodies, helpers, inPlace, values) && ALL in Next(n, values)
    ensures !ChangedBy(Reach(Loose(n), bodies), bodies, ALL)
  {
    if AllMutation(n, values).1.Some? {
      StaticIsQuiet(n.value, values, Tracked(helpers));
      QuietInvokesNothing(Loose(n), bodies);
    } else {
      OverlookedExactlyWhen(n, bodies);
      ReportedExactlyWhen(n, values);
    }
  }

  /** The readings `vals` may be relied on while the statement runs. */
  ghost predicate Reliable(n: Node, bodies: seq<Node>, vals: Values, values: Values, helpers: set<string>) {
    && (forall x :: x in vals && x in helpers ==> x in values || x in NewlyHeld(n))
    && (ALL in vals ==> !ChangedBy(Reach(Loose(n), bodies), bodies, ALL))
  }

  lemma LooseNodesOk(n: Node, bodies: seq<Node>, vals: Values, values: Values, helpers: set<string>, inPlace: bool)
    requires ALL !in helpers && StatementOk(n, bodies, helpers, inPlace, values)
    requires Reliable(n, bodies, vals, values, helpers)
    ensures NodesOk(Reach(Loose(n), bodies), Pool(n, bodies), bodies, vals, helpers, inPlace)
  {
    forall m | m in Executed(Reach(Loose(n), bodies))
      ensures NodeOk(m, Pool(n, bodies), bodies, vals, helpers, inPlace)
    {
      assert LooseOk(m, Pool(n, bodies), bodies, values.Keys + NewlyHeld(n), helpers, inPlace);
      assert MayTouch(m, bodies, ALL) ==> ALL !in vals;
      assert ALL in Mutates(m, bodies) ==> ChangesAllInPlace(n, bodies);
    }
  }

  lemma PartsOfLoose(n: Node)
    ensures forall m :: m in Executed(Before(n)) ==> m in Executed(Loose(n))
    ensures forall m :: m in Executed(After(n)) ==> m in Executed(Loose(n))
  {
    if n.Assign? {
      var others := OtherTargets(n.targets);
      ExecutedConcat(others, [n.value]);
      if others != [] {
        ExecutedCons(Assign(others, n.value), []);
        assert [Assign(others, n.value)] + [] == Loose(n);
      }
    } else if IsPlainAssignment(n) {
      ExecutedConcat([n.annotation], [n.optValue.value]);
      assert [n.annotation] + [n.optValue.value] == Loose(n);
    }
  }

  lemma StarBeforeKeepsInv(n: Node, bodies: seq<Node>, vals: Values, values: Values, helpers: set<string>,
                           inPlace: bool, s: State, s': State)
    requires ALL !in helpers && StatementOk(n, bodies, helpers, inPlace, values)
    requires Reliable(n, bodies, vals, values, helpers) && Inv(vals, helpers, inPlace, s)
    requires var ns := Reach(Before(n), bodies); Star(ns, Mentions(ns), bodies, s, s')
    ensures Inv(vals, helpers, inPlace, s') && SameTracked(vals, helpers, s, s')
  {
    var ns := Reach(Before(n), bodies);
    LooseNodesOk(n, bodies, vals, values, helpers, inPlace);
    PartsOfLoose(n);
    ReachGrows(Before(n), Loose(n), bodies);
    FewerNodesOk(Reach(Loose(n), bodies), Pool(n, bodies), ns, Mentions(ns), bodies, vals, helpers, inPlace);
    StarKeepsInv(ns, Mentions(ns), bodies, vals, helpers, inPlace, s, s');
    StarKeepsTracked(ns, Mentions(ns), bodies, vals, helpers, inPlace, s, s');
  }

  lemma StarAfterKeepsInv(n: Node, bodies: seq<Node>, vals: Values, values: Values, helpers: set<string>,
                          inPlace: bool, s: State, s': State)
    requires ALL !in helpers && StatementOk(n, bodies, helpers, inPlace, values)
    requires Reliable(n, bodies, vals, values, helpers) && Inv(vals, helpers, inPlace, s)
    requires Star(Reach(After(n), bodies), Pool(n, bodies), bodies, s, s')
    ensures Inv(vals, helpers, inPlace, s')
  {
    var ns := Reach(After(n), bodies);
    LooseNodesOk(n, bodies, vals, values, helpers, inPlace);
    PartsOfLoose(n);
    ReachGrows(After(n), Loose(n), bodies);
    FewerNodesOk(Reach(Loose(n), bodies), Pool(n, bodies), ns, Pool(n, bodies), bodies, vals, helpers, inPlace);
    StarKeepsInv(ns, Pool(n, bodies), bodies, vals, helpers, inPlace, s, s');
  }

  /** The parts before the value, and the value. */
  lemma EvaluationAfterKeepsInv(n: Node, e: Node, bodies: seq<Node>, vals: Values, values: Values,
                                helpers: set<string>, inPlace: bool, s: State, v: PyVal, s': State)
    returns (t: State)
    requires ALL !in helpers && StatementOk(n, bodies, helpers, inPlace, values)
    requires Reliable(n, bodies, vals, values, helpers) && Inv(vals, helpers, inPlace, s)
    requires EvaluatesAfter(n, e, bodies, s, v, s')
    ensures Inv(vals, helpers, inPlace, t) && Evaluates(e, bodies, t, v, s') && Inv(vals, helpers, inPlace, s')
    ensures SameTracked(vals, helpers, s, s')
  {
    var ns := Reach(Before(n), bodies);
    t :| Star(ns, Mentions(ns), bodies, s, t) && Evaluates(e, bodies, t, v, s');
    StarBeforeKeepsInv(n, bodies, vals, values, helpers, inPlace, s, t);
    EvaluationKeepsInv(e, bodies, vals, helpers, inPlace, t, v, s');
  }

  /** The readings that hold while a statement runs: that of `__all__` only if it outlives the statement. */
  function Kept(values: Values, after: Values): Values {
    if ALL in after then values else values - {ALL}
  }

  /** What a scanned assignment does to the tracked readings. */
  ghost predicate Recorded(n: Node, values: Values, before: Values, after: Values, helpers: set<string>)
    requires IsPlainAssignment(n)
  {
    forall x :: x in after && x in Tracked(helpers) ==>
      if x in AssignedNames(n) then
        && before == values
        && StaticStringList(AssignedValue(n), values) == Some(after[x])
      else
        x in before && after[x] == before[x]
  }

  lemma ScanRecords(n: Node, bodies: seq<Node>, values: Values, helpers: set<string>, inPlace: bool)
    requires ALL !in helpers && StatementOk(n, bodies, helpers, inPlace, values) && IsPlainAssignment(n)
    ensures Recorded(n, values, Kept(values, Next(n, values)), Next(n, values), helpers)
  {
    var names := AssignedNames(n);
    var after := Next(n, values);
    if n.Assign? {
      BoundNamesOfTargets(n.targets);
    }
    assert forall x :: x in names && x in helpers && x in values ==> x in NewlyHeld(n) * helpers * values.Keys;
    assert ALL in AssignedNamesAndValue(n).0 ==> ALL in names || AllMutation(n, values).0;
    if ALL !in values {
      assert values - {ALL} == values;
    }
  }

  lemma KeptIsReliable(n: Node, bodies: seq<Node>, values: Values, helpers: set<string>, inPlace: bool)
    requires ALL !in helpers && StatementOk(n, bodies, helpers, inPlace, values)
    ensures Reliable(n, bodies, Kept(values, Next(n, values)), values, helpers)
  {
    if ALL in Next(n, values) {
      KeepingIsStill(n, bodies, values, helpers, inPlace);
    }
  }

  lemma PlainAssignmentKeepsInv(n: Node, bodies: seq<Node>, values: Values, helpers: set<string>, inPlace: bool,
                                s: State, s': State)
    requires ALL !in helpers && StatementOk(n, bodies, helpers, inPlace, values) && IsPlainAssignment(n)
    requires Inv(values, helpers, inPlace, s) && Runs(n, bodies, s, s')
    ensures Inv(Next(n, values), helpers, inPlace, s')
  {
    var value, after := AssignedValue(n), Next(n, values);
    var before := Kept(values, after);
    var v, s1 :| EvaluatesAfter(n, value, bodies, s, v, s1) && AssignsAndFinishes(n, bodies, s1, v, s');
    FewerReadings(values, before, helpers, inPlace, s);
    KeptIsReliable(n, bodies, values, helpers, inPlace);
    ScanRecords(n, bodies, values, helpers, inPlace);
    var t := EvaluationAfterKeepsInv(n, value, bodies, before, values, helpers, inPlace, s, v, s1);
    ValueIsRecorded(n, bodies, values, before, after, helpers, inPlace, t, v, s1);
    var s2 := s1.(env := BindEach(s1.env, AssignedNames(n), v));
    BindingKeepsInv(AssignedNames(n), Sources(value, bodies), v, before, after, helpers, inPlace, t, s1, s2);
    FinishingKeepsInv(n, bodies, values, helpers, inPlace, s2, s');
  }

  lemma FinishingKeepsInv(n: Node, bodies: seq<Node>, values: Values, helpers: set<string>, inPlace: bool,
                          s: State, s': State)
    requires ALL !in helpers && StatementOk(n, bodies, helpers, inPlace, values) && IsPlainAssignment(n)
    requires Inv(Next(n, values), helpers, inPlace, s)
    requires Star(Reach(After(n), bodies), Pool(n, bodies), bodies, s, s')
    ensures Inv(Next(n, values), helpers, inPlace, s')
  {
    var after := Next(n, values);
    var tracked := map x | x in after && x in Tracked(helpers) :: after[x];
    ScanRecords(n, bodies, values, helpers, inPlace);
    FewerReadings(after, tracked, helpers, inPlace, s);
    if ALL in after {
      KeepingIsStill(n, bodies, values, helpers, inPlace);
    }
    StarAfterKeepsInv(n, bodies, tracked, values, helpers, inPlace, s, s');
    FewerReadings(tracked, after, helpers, inPlace, s');
  }

  lemma ValueIsRecorded(n: Node, bodies: seq<Node>, values: Values, before: Values, after: Values,
                        helpers: set<string>, inPlace: bool, t: State, v: PyVal, s1: State)
    requires ALL !in helpers && StatementOk(n, bodies, helpers, inPlace, values) && IsPlainAssignment(n)
    requires Recorded(n, values, before, after, helpers)
    requires Inv(before, helpers, inPlace, t) && Evaluates(AssignedValue(n), bodies, t, v, s1)
    ensures Rebinds(AssignedNames(n), Sources(AssignedValue(n), bodies), v, before, after, helpers, inPlace, t, s1)
  {
    var value := AssignedValue(n);
    forall x | x in after && x in Tracked(helpers) && x in AssignedNames(n)
      ensures Contents(s1, v) == Some(Texts(after[x]))
      ensures Obtainable(v, before.Keys * Tracked(helpers) * Sources(value, bodies), t)
    {
      assert x in NewlyHeld(n) * Tracked(helpers);
      StaticIsDenoted(value, before, helpers, inPlace, t);
    }
  }

  lemma ExtensionKeepsInv(n: Node, bodies: seq<Node>, values: Values, more: seq<string>, helpers: set<string>,
                          inPlace: bool, s: State, s': State)
    requires ALL !in helpers && StatementOk(n, bodies, helpers, inPlace, values)
    requires IsPlainAugmented(n) && n.target.id == ALL && n.isAdd && ALL in values
    requires StaticStringList(n.value, values) == Some(more)
    requires Inv(values, helpers, inPlace, s) && Runs(n, bodies, s, s')
    ensures Inv(values[ALL := values[ALL] + more], helpers, inPlace, s')
  {
    var v, s1 :| EvaluatesAfter(n, n.value, bodies, s, v, s1) && Augments(n, bodies, Reloaded(n, s, s1), v, s');
    ExtensionValueKeepsInv(n, bodies, values, more, helpers, inPlace, s, v, s1);
    TextsConcat(values[ALL], more);
    ExtendingAllKeepsInv(values, more, n, bodies, v, helpers, inPlace, s1, s');
  }

  lemma ExtensionValueKeepsInv(n: Node, bodies: seq<Node>, values: Values, more: seq<string>, helpers: set<string>,
                               inPlace: bool, s: State, v: PyVal, s1: State)
    requires ALL !in helpers && StatementOk(n, bodies, helpers, inPlace, values)
    requires IsPlainAugmented(n) && n.target.id == ALL && n.isAdd && ALL in values && ALL in s.env
    requires StaticStringList(n.value, values) == Some(more)
    requires Inv(values, helpers, inPlace, s) && EvaluatesAfter(n, n.value, bodies, s, v, s1)
    ensures Inv(values, helpers, inPlace, s1) && Reloaded(n, s, s1) == s1 && Contents(s1, v) == Some(Texts(more))
  {
    KeepingIsStill(n, bodies, values, helpers, inPlace);
    var t := EvaluationAfterKeepsInv(n, n.value, bodies, values, values, helpers, inPlace, s, v, s1);
    StaticIsDenoted(n.value, values, helpers, inPlace, t);
    assert s1.env[ALL] == s.env[ALL];
    assert s1.env[ALL := s.env[ALL]] == s1.env;
  }

  /** Any other augmented assignment, once nothing is read for its target. */
  lemma AugmentationKeepsInv(n: Node, bodies: seq<Node>, rest: Values, values: Values, helpers: set<string>,
                             inPlace: bool, s: State, s': State)
    requires ALL !in helpers && StatementOk(n, bodies, helpers, inPlace, values) && IsPlainAugmented(n)
    requires AllMutation(n, values).1.None?
    requires rest == Kept(values, Next(n, values))
    requires Inv(values, helpers, inPlace, s) && Runs(n, bodies, s, s')
    ensures Inv(rest, helpers, inPlace, s')
  {
    var v, s1 :| EvaluatesAfter(n, n.value, bodies, s, v, s1) && Augments(n, bodies, Reloaded(n, s, s1), v, s');
    FewerReadings(values, rest, helpers, inPlace, s);
    KeptIsReliable(n, bodies, values, helpers, inPlace);
    AugmentedValueKeepsInv(n, bodies, rest, values, helpers, inPlace, s, v, s1);
    AugmentingKeepsInv(rest, n, bodies, v, helpers, inPlace, Reloaded(n, s, s1), s');
  }

  lemma AugmentedValueKeepsInv(n: Node, bodies: seq<Node>, rest: Values, values: Values, helpers: set<string>,
                               inPlace: bool, s: State, v: PyVal, s1: State)
    requires ALL !in helpers && StatementOk(n, bodies, helpers, inPlace, values) && IsPlainAugmented(n)
    requires AllMutation(n, values).1.None? && rest == Kept(values, Next(n, values)) && n.target.id in s.env
    requires Reliable(n, bodies, rest, values, helpers) && Inv(rest, helpers, inPlace, s)
    requires EvaluatesAfter(n, n.value, bodies, s, v, s1)
    ensures Inv(rest, helpers, inPlace, Reloaded(n, s, s1))
  {
    var t := EvaluationAfterKeepsInv(n, n.value, bodies, rest, values, helpers, inPlace, s, v, s1);
    ReloadingKeepsInv(n, rest, helpers, inPlace, s, s1);
  }

  /** The target gets back a value it had before, whoever shares that. */
  lemma ReloadingKeepsInv(n: Node, values: Values, helpers: set<string>, inPlace: bool, s: State, t: State)
    requires ALL !in helpers && IsPlainAugmented(n) && n.target.id in s.env
    requires n.target.id !in helpers && (n.target.id == ALL ==> ALL !in values)
    requires Inv(values, helpers, inPlace, s) && Inv(values, helpers, inPlace, t) && SameTracked(values, helpers, s, t)
    ensures Inv(values, helpers, inPlace, Reloaded(n, s, t))
  {
    var x, r := n.target.id, Reloaded(n, s, t);
    forall y, z | y in values && y in Tracked(helpers) && Shares(y, z, r)
      ensures z in Tracked(helpers) && (inPlace ==> y != ALL && z != ALL)
    {
      assert y != x && r.env[y] == t.env[y] && y in s.env && s.env[y] == t.env[y];
      if z == x {
        assert Shares(y, x, s);
      } else {
        assert Shares(y, z, t);
      }
    }
  }

  /** `__all__ += known`, on a list nobody shares or on a tuple. */
  lemma ExtendingAllKeepsInv(values: Values, more: seq<string>, n: Node, bodies: seq<Node>, v: PyVal,
                             helpers: set<string>, inPlace: bool, s: State, s': State)
    requires ALL !in helpers && inPlace && ALL in values && Inv(values, helpers, inPlace, s)
    requires IsPlainAugmented(n) && n.isAdd && n.target.id == ALL && Augments(n, bodies, s, v, s')
    requires Contents(s, v) == Some(Texts(more)) && Texts(values[ALL] + more) == Texts(values[ALL]) + Texts(more)
    ensures Inv(values[ALL := values[ALL] + more], helpers, inPlace, s')
  {
    var after := values[ALL := values[ALL] + more];
    forall x | x in after && x in Tracked(helpers)
      ensures x in s'.env && Contents(s', s'.env[x]) == Some(Texts(after[x]))
    {
      if x != ALL {
        assert !Shares(x, ALL, s);
      }
    }
    forall x, y | x in after && x in Tracked(helpers) && Shares(x, y, s')
      ensures y in Tracked(helpers) && (inPlace ==> x != ALL && y != ALL)
    {
      assert Shares(x, y, s);
    }
  }

  lemma AugmentedNode(n: Node, bodies: seq<Node>)
    requires IsPlainAugmented(n)
    ensures Binds(n) == {n.target.id} && Mutates(n, bodies) == {n.target.id} && !IsStarImport(n)
  {
    assert PlainNames([n.target]) == [n.target.id];
  }

  /** Extending a list or replacing a tuple is an effect like any other of the statement. */
  lemma AugmentingIsLocal(n: Node, bodies: seq<Node>, s: State, v: PyVal, s': State)
    requires IsPlainAugmented(n) && Closed(s) && Augments(n, bodies, s, v, s')
    ensures LocalEffect(n, Pool(n, bodies), bodies, s, s')
  {
    var x := n.target.id;
    AugmentedNode(n, bodies);
    if s.env[x].ListRef? {
      assert HeldBy(s.env[x].addr, Mutates(n, bodies), s);
    }
  }

  /** `x += anything`, where neither `x` nor a list it shares has a tracked reading. */
  lemma AugmentingKeepsInv(values: Values, n: Node, bodies: seq<Node>, v: PyVal, helpers: set<string>, inPlace: bool,
                           s: State, s': State)
    requires ALL !in helpers && Inv(values, helpers, inPlace, s)
    requires IsPlainAugmented(n) && Augments(n, bodies, s, v, s')
    requires n.target.id !in helpers && (n.target.id == ALL ==> inPlace && ALL !in values)
    requires ShareOk({n.target.id}, Pool(n, bodies), helpers, inPlace)
    ensures Inv(values, helpers, inPlace, s')
  {
    AugmentedNode(n, bodies);
    AugmentingIsLocal(n, bodies, s, v, s');
    assert NodeOk(n, Pool(n, bodies), bodies, values, helpers, inPlace);
    LocalEffectKeepsInv(n, Pool(n, bodies), bodies, values, helpers, inPlace, s, s');
  }

  lemma OtherStatementKeepsInv(n: Node, bodies: seq<Node>, values: Values, helpers: set<string>, inPlace: bool,
                               s: State, s': State)
    requires ALL !in helpers && StatementOk(n, bodies, helpers, inPlace, values)
    requires !IsPlainAssignment(n) && !IsPlainAugmented(n)
    requires Inv(values, helpers, inPlace, s) && Runs(n, bodies, s, s')
    ensures Inv(Kept(values, Next(n, values)), helpers, inPlace, s')
  {
    var rest := Kept(values, Next(n, values));
    FewerReadings(values, rest, helpers, inPlace, s);
    KeptIsReliable(n, bodies, values, helpers, inPlace);
    LooseNodesOk(n, bodies, rest, values, helpers, inPlace);
    StarKeepsInv(Reach(Loose(n), bodies), Pool(n, bodies), bodies, rest, helpers, inPlace, s, s');
  }

  /** What a scanned statement that is no plain assignment does to the tracked readings. */
  lemma ScanDrops(n: Node, bodies: seq<Node>, values: Values, helpers: set<string>, inPlace: bool)
    requires ALL !in helpers && StatementOk(n, bodies, helpers, inPlace, values) && !IsPlainAssignment(n)
    requires AllMutation(n, values).1.None?
    ensures var after := Next(n, values);
            forall x :: x in after && x in Tracked(helpers) ==>
              x in Kept(values, after) && after[x] == Kept(values, after)[x]
  {
    if n.AnnAssign? {
      BoundNameIsTarget(n.target);
    }
  }

  lemma StatementKeepsInv(n: Node, bodies: seq<Node>, values: Values, helpers: set<string>, inPlace: bool,
                          s: State, s': State)
    requires ALL !in helpers && StatementOk(n, bodies, helpers, inPlace, values)
    requires Inv(values, helpers, inPlace, s) && Runs(n, bodies, s, s')
    ensures Inv(Next(n, values), helpers, inPlace, s')
  {
    var after := Next(n, values);
    var rest := Kept(values, after);
    if IsPlainAssignment(n) {
      PlainAssignmentKeepsInv(n, bodies, values, helpers, inPlace, s, s');
    } else if AllMutation(n, values).1.Some? {
      ExtensionKeepsInv(n, bodies, values, StaticStringList(n.value, values).value, helpers, inPlace, s, s');
    } else {
      if IsPlainAugmented(n) {
        AugmentationKeepsInv(n, bodies, rest, values, helpers, inPlace, s, s');
      } else {
        OtherStatementKeepsInv(n, bodies, values, helpers, inPlace, s, s');
      }
      ScanDrops(n, bodies, values, helpers, inPlace);
      FewerReadings(rest, after, helpers, inPlace, s');
    }
  }

  // ----- whole modules -----

  /** A reported list is always backed by a reading. */
  ghost predicate Backed(sc: Scan) {
    sc.explicit == if ALL in sc.values then Some(sc.values[ALL]) else None
  }

  lemma ScanStepKeepsBacked(sc: Scan, n: Node, index: nat)
    requires Backed(sc)
    ensures Backed(ScanStep(sc, n, index))
  {
  }

  lemma {:induction false} RestKeepsInv(sc: Scan, body: seq<Node>, bodies: seq<Node>, index: nat, helpers: set<string>,
                                        inPlace: bool, s: State, s': State)
    requires ALL !in helpers && DisciplinedFrom(sc, body, bodies, index, helpers, inPlace) && Backed(sc)
    requires Inv(sc.values, helpers, inPlace, s) && RunsAll(body, bodies, s, s')
    ensures Backed(ScanFrom(sc, body, index)) && Inv(ScanFrom(sc, body, index).values, helpers, inPlace, s')
    decreases |body|
  {
    if body != [] {
      var m :| Runs(body[0], bodies, s, m) && RunsAll(body[1..], bodies, m, s');
      StatementKeepsInv(body[0], bodies, sc.values, helpers, inPlace, s, m);
      ScanStepKeepsBacked(sc, body[0], index);
      RestKeepsInv(ScanStep(sc, body[0], index), body[1..], bodies, index + 1, helpers, inPlace, m, s');
    }
  }

  /** Soundness: what the scan reports is what every completed run leaves in `__all__`. */
  lemma ExplicitAllIsSound(body: seq<Node>, helpers: set<string>, inPlace: bool, s: State, s': State)
    requires Disciplined(body, helpers, inPlace)
    requires Closed(s) && Completes(body, s, s')
    ensures ScanModule(body).explicit.Some? ==>
              ALL in s'.env && Contents(s', s'.env[ALL]) == Some(Texts(ScanModule(body).explicit.value))
  {
    RestKeepsInv(NewScan, body, Bodies(body), 0, helpers, inPlace, s, s');
  }
}
