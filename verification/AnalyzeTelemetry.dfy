/**
 The report on telemetry events: counters, shares, and one entry for every code pattern that went through
 `execute_code`. Sets and counters stand for the sorted lists and dictionaries of the rendered report.
 */
module AnalyzeTelemetry {
  import opened Wrappers
  import opened StableSort
  import opened TextOrder
  import opened MergeTelemetry
  import opened Percentiles

  // ----- one event -----

  predicate IsCompletedCall(e: Event) {
    e.name == Some("tool_call_completed") && e.payload.Some?
  }

  function CategoryOf(e: Event): multiset<string> {
    if IsCompletedCall(e) && OrText(e.payload.value.category, "") != "" then multiset{e.payload.value.category.value}
    else multiset{}
  }

  function PublicAnalysis(e: Event): Option<Analysis> {
    if IsCompletedCall(e) && e.payload.value.category == Some("public_execute_code") then e.payload.value.analysis
    else None
  }

  function KeyOf(a: Analysis): string {
    OrText(a.patternHash, "unparsed")
  }

  predicate InGroup(e: Event, k: string) {
    PublicAnalysis(e).Some? && KeyOf(PublicAnalysis(e).value) == k
  }

  function NameOf(e: Event): string {
    OrText(e.name, "unknown")
  }

  function StatusOf(e: Event): string {
    OrText(e.status, "unknown")
  }

  function SessionOf(e: Event): set<string> {
    if OrText(e.session, "") != "" then {e.session.value} else {}
  }

  // ----- groups -----

  datatype Group = Group(calls: nat, imports: set<string>, operations: set<string>, scopes: set<seq<string>>,
                         access: multiset<string>, modes: multiset<string>, targets: multiset<string>,
                         outcomes: multiset<string>, latencies: seq<real>, suggestions: set<string>,
                         hashes: set<string>)

  const NewGroup := Group(0, {}, {}, {}, multiset{}, multiset{}, multiset{}, multiset{}, [], {}, {})

  function ItemsOf(items: seq<string>): set<string> {
    set x | x in items
  }

  function ModeOf(a: Analysis): string {
    OrText(a.mode, "auto")
  }

  function AccessOf(a: Analysis): string {
    if a.readOnly then "read_only" else "mutating"
  }

  function TargetOf(a: Analysis): string {
    if a.readOnly || ModeOf(a) == "worker" then "worker" else "gui"
  }

  function HashOf(a: Analysis): set<string> {
    if OrText(a.codeHash, "") != "" then {a.codeHash.value} else {}
  }

  function LatencyOf(e: Event): seq<real> {
    if e.duration.Some? then [e.duration.value] else []
  }

  function AddCall(g: Group, e: Event, a: Analysis): Group {
    Group(g.calls + 1, g.imports + ItemsOf(a.imports), g.operations + ItemsOf(a.families), g.scopes + {a.scope},
          g.access + multiset{AccessOf(a)}, g.modes + multiset{ModeOf(a)}, g.targets + multiset{TargetOf(a)},
          g.outcomes + multiset{StatusOf(e)}, g.latencies + LatencyOf(e),
          g.suggestions + ItemsOf(a.suggestions), g.hashes + HashOf(a))
  }

  function GroupOf(events: seq<Event>, k: string): Group {
    if events == [] then NewGroup
    else
      var g, e := GroupOf(events[..|events| - 1], k), events[|events| - 1];
      if InGroup(e, k) then AddCall(g, e, PublicAnalysis(e).value) else g
  }

  /** The keys in the order they are first seen, as the dictionary keeps them. */
  function Keys(events: seq<Event>): seq<string> {
    if events == [] then []
    else
      var ks, a := Keys(events[..|events| - 1]), PublicAnalysis(events[|events| - 1]);
      if a.Some? && KeyOf(a.value) !in ks then ks + [KeyOf(a.value)] else ks
  }

  datatype Counters = Counters(names: multiset<string>, statuses: multiset<string>,
                               categories: multiset<string>, sessions: set<string>)

  const NoCounters := Counters(multiset{}, multiset{}, multiset{}, {})

  function Plus(c: Counters, d: Counters): Counters {
    Counters(c.names + d.names, c.statuses + d.statuses, c.categories + d.categories, c.sessions + d.sessions)
  }

  function CountersOf(e: Event): Counters {
    Counters(multiset{NameOf(e)}, multiset{StatusOf(e)}, CategoryOf(e), SessionOf(e))
  }

  function Count(events: seq<Event>): Counters {
    if events == [] then NoCounters else Plus(Count(events[..|events| - 1]), CountersOf(events[|events| - 1]))
  }

  // ----- the report -----

  function Sum(values: seq<real>): real {
    if values == [] then 0.0 else Sum(values[..|values| - 1]) + values[|values| - 1]
  }

  datatype Latency = Latency(average: Option<real>, p50: Option<real>, p95: Option<real>)

  datatype Pattern = Pattern(key: string, group: Group, successes: nat, failures: nat, timeouts: nat, latency: Latency)

  function Failures(outcomes: multiset<string>): nat {
    |outcomes["succeeded" := 0]["condition_false" := 0]["warning" := 0]|
  }

  /** The rendered group has its latencies summarised, not listed. */
  function PatternOf(k: string, g: Group): Pattern {
    Pattern(k, g.(latencies := []), g.outcomes["succeeded"], Failures(g.outcomes), g.outcomes["timed_out"],
            Latency(if g.latencies == [] then None else Some(Sum(g.latencies) / |g.latencies| as real),
                    NearestRank(g.latencies, 0.50), NearestRank(g.latencies, 0.95)))
  }

  datatype Item = Item(calls: nat, key: string)

  /** Most calls first, then by key. */
  predicate ItemLe(a: Item, b: Item) {
    a.calls > b.calls || (a.calls == b.calls && TextLe(a.key, b.key))
  }

  function Items(events: seq<Event>, keys: seq<string>): seq<Item> {
    seq(|keys|, i requires 0 <= i < |keys| => Item(GroupOf(events, keys[i]).calls, keys[i]))
  }

  function SortedItems(events: seq<Event>): seq<Item> {
    Sort(Items(events, Keys(events)), ItemLe)
  }

  function Patterns(events: seq<Event>): seq<Pattern> {
    var items := SortedItems(events);
    seq(|items|, i requires 0 <= i < |items| => PatternOf(items[i].key, GroupOf(events, items[i].key)))
  }

  function Share(counts: multiset<string>, name: string): real {
    if |counts| == 0 then 0.0 else counts[name] as real / |counts| as real
  }

  datatype Report = Report(eventCount: nat, sessionCount: nat, events: multiset<string>, statuses: multiset<string>,
                           categories: multiset<string>, publicShare: real, typedShare: real, patterns: seq<Pattern>)

  function ReportOf(events: seq<Event>): Report {
    var c := Count(events);
    Report(|events|, |c.sessions|, c.names, c.statuses, c.categories, Share(c.categories, "public_execute_code"),
           Share(c.categories, "typed_direct_rpc"), Patterns(events))
  }

  // ----- the loops -----

  method CountEvents(events: seq<Event>) returns (counters: Counters)
    ensures counters == Count(events)
  {
    counters := NoCounters;
    for i := 0 to |events|
      invariant counters == Count(events[..i])
    {
      assert events[..i + 1][..i] == events[..i];
      counters := Plus(counters, CountersOf(events[i]));
    }
    assert events[..|events|] == events;
  }

  /** The dictionary of groups, and the order in which its keys were inserted. */
  ghost predicate Grouped(events: seq<Event>, groups: map<string, Group>, order: seq<string>) {
    && order == Keys(events)
    && (forall k :: k in groups <==> k in order)
    && (forall k :: GroupOf(events, k) == if k in groups then groups[k] else NewGroup)
  }

  lemma GroupOfAppend(front: seq<Event>, e: Event, k: string)
    ensures GroupOf(front + [e], k) ==
            if InGroup(e, k) then AddCall(GroupOf(front, k), e, PublicAnalysis(e).value) else GroupOf(front, k)
  {
    assert (front + [e])[..|front|] == front;
  }

  lemma GroupingOne(events: seq<Event>, e: Event, groups: map<string, Group>, order: seq<string>)
    requires Grouped(events, groups, order) && PublicAnalysis(e).Some?
    ensures var key := KeyOf(PublicAnalysis(e).value);
            var group := if key in groups then groups[key] else NewGroup;
            Grouped(events + [e], groups[key := AddCall(group, e, PublicAnalysis(e).value)],
                    if key in groups then order else order + [key])
  {
    var key := KeyOf(PublicAnalysis(e).value);
    assert Keys(events + [e]) == if key in groups then order else order + [key] by {
      assert (events + [e])[..|events|] == events;
    }
    forall k
      ensures GroupOf(events + [e], k) ==
              if k == key then AddCall(GroupOf(events, k), e, PublicAnalysis(e).value) else GroupOf(events, k)
    {
      GroupOfAppend(events, e, k);
    }
  }

  method GroupCalls(events: seq<Event>) returns (groups: map<string, Group>, order: seq<string>)
    ensures Grouped(events, groups, order)
  {
    groups, order := map[], [];
    for i := 0 to |events|
      invariant Grouped(events[..i], groups, order)
    {
      var event := events[i];
      assert events[..i + 1] == events[..i] + [event];
      assert events[..i + 1][..i] == events[..i];
      var analysis := PublicAnalysis(event);
      if analysis.None? {
        continue;
      }
      GroupingOne(events[..i], event, groups, order);
      var key := KeyOf(analysis.value);
      var group := NewGroup;
      if key in groups {
        group := groups[key];
      } else {
        order := order + [key];
      }
      groups := groups[key := AddCall(group, event, analysis.value)];
    }
    assert events[..|events|] == events;
  }

  lemma SortedItemsAreKeys(events: seq<Event>)
    ensures forall i :: 0 <= i < |SortedItems(events)| ==> SortedItems(events)[i].key in Keys(events)
  {
    var items := Items(events, Keys(events));
    SortPermutes(items, ItemLe);
    forall i | 0 <= i < |SortedItems(events)|
      ensures SortedItems(events)[i].key in Keys(events)
    {
      assert SortedItems(events)[i] in multiset(items);
    }
  }

  method RenderPatterns(ghost events: seq<Event>, groups: map<string, Group>, order: seq<string>)
    returns (patterns: seq<Pattern>)
    requires Grouped(events, groups, order)
    ensures patterns == Patterns(events)
  {
    var items := seq(|order|, i requires 0 <= i < |order| => Item(groups[order[i]].calls, order[i]));
    assert items == Items(events, order);
    items := Sort(items, ItemLe);
    SortedItemsAreKeys(events);
    ghost var all := Patterns(events);
    patterns := [];
    for i := 0 to |items|
      invariant patterns == all[..i]
    {
      assert items[i].key in groups;
      assert all[i] == PatternOf(items[i].key, groups[items[i].key]);
      patterns := patterns + [PatternOf(items[i].key, groups[items[i].key])];
    }
  }

  method Summarize(events: seq<Event>) returns (report: Report)
    ensures report == ReportOf(events)
  {
    var c := CountEvents(events);
    var groups, order := GroupCalls(events);
    var patterns := RenderPatterns(events, groups, order);
    report := Report(|events|, |c.sessions|, c.names, c.statuses, c.categories,
                     Share(c.categories, "public_execute_code"), Share(c.categories, "typed_direct_rpc"), patterns);
  }

  // ----- the order of events does not matter -----

  /** Equal up to the order in which the latencies were seen. */
  ghost predicate SameGroup(a: Group, b: Group) {
    a.(latencies := []) == b.(latencies := []) && multiset(a.latencies) == multiset(b.latencies)
  }

  lemma SetsCommute<T>(s: set<T>, a: set<T>, b: set<T>)
    ensures s + a + b == s + b + a
  {
  }

  lemma MultisetsCommute<T>(m: multiset<T>, a: multiset<T>, b: multiset<T>)
    ensures m + a + b == m + b + a
  {
  }

  lemma LatenciesCommute(s: seq<real>, a: seq<real>, b: seq<real>)
    ensures multiset(s + a + b) == multiset(s + b + a)
  {
  }

  lemma AddingCommutes(g: Group, x: Event, y: Event, a: Analysis, b: Analysis)
    ensures SameGroup(AddCall(AddCall(g, x, a), y, b), AddCall(AddCall(g, y, b), x, a))
  {
    SetsCommute(g.imports, ItemsOf(a.imports), ItemsOf(b.imports));
    SetsCommute(g.operations, ItemsOf(a.families), ItemsOf(b.families));
    SetsCommute(g.scopes, {a.scope}, {b.scope});
    SetsCommute(g.suggestions, ItemsOf(a.suggestions), ItemsOf(b.suggestions));
    SetsCommute(g.hashes, HashOf(a), HashOf(b));
    MultisetsCommute(g.access, multiset{AccessOf(a)}, multiset{AccessOf(b)});
    MultisetsCommute(g.modes, multiset{ModeOf(a)}, multiset{ModeOf(b)});
    MultisetsCommute(g.targets, multiset{TargetOf(a)}, multiset{TargetOf(b)});
    MultisetsCommute(g.outcomes, multiset{StatusOf(x)}, multiset{StatusOf(y)});
    LatenciesCommute(g.latencies, LatencyOf(x), LatencyOf(y));
  }

  /** Two neighbouring events may change places. */
  lemma GroupOfSwapped(front: seq<Event>, x: Event, y: Event, k: string)
    ensures SameGroup(GroupOf(front + [x] + [y], k), GroupOf(front + [y] + [x], k))
  {
    GroupOfAppend(front, x, k);
    GroupOfAppend(front, y, k);
    GroupOfAppend(front + [x], y, k);
    GroupOfAppend(front + [y], x, k);
    if InGroup(x, k) && InGroup(y, k) {
      AddingCommutes(GroupOf(front, k), x, y, PublicAnalysis(x).value, PublicAnalysis(y).value);
    }
  }

  lemma AppendingKeepsSame(a: seq<Event>, b: seq<Event>, e: Event, k: string)
    requires SameGroup(GroupOf(a, k), GroupOf(b, k))
    ensures SameGroup(GroupOf(a + [e], k), GroupOf(b + [e], k))
  {
    GroupOfAppend(a, e, k);
    GroupOfAppend(b, e, k);
  }

  /** An event may move to the end. */
  lemma {:induction false} GroupOfMoved(front: seq<Event>, e: Event, back: seq<Event>, k: string)
    ensures SameGroup(GroupOf(front + [e] + back, k), GroupOf(front + back + [e], k))
    decreases |back|
  {
    if back == [] {
      assert front + [e] + back == front + back + [e];
    } else {
      var short, last := back[..|back| - 1], back[|back| - 1];
      assert front + [e] + back == (front + [e] + short) + [last];
      assert front + back + [e] == (front + short) + [last] + [e];
      GroupOfMoved(front, e, short, k);
      AppendingKeepsSame(front + [e] + short, front + short + [e], last, k);
      GroupOfSwapped(front + short, e, last, k);
    }
  }

  lemma TakeOut<T>(s: seq<T>, x: T) returns (left: seq<T>, right: seq<T>)
    requires x in multiset(s)
    ensures s == left + [x] + right
    ensures multiset(left + right) == multiset(s) - multiset{x}
  {
    var i :| 0 <= i < |s| && s[i] == x;
    left, right := s[..i], s[i + 1..];
    assert s == left + [x] + right;
    assert multiset(s) == multiset(left) + multiset{x} + multiset(right);
  }

  lemma LastOfPermutation<T>(a: seq<T>, b: seq<T>) returns (left: seq<T>, right: seq<T>)
    requires a != [] && multiset(a) == multiset(b)
    ensures b == left + [a[|a| - 1]] + right
    ensures multiset(a[..|a| - 1]) == multiset(left + right)
  {
    assert a == a[..|a| - 1] + [a[|a| - 1]];
    left, right := TakeOut(b, a[|a| - 1]);
  }

  lemma EmptyPermutation<T>(a: seq<T>)
    requires multiset(a) == multiset{}
    ensures a == []
  {
    assert |multiset(a)| == 0;
  }

  lemma {:induction false} GroupOfPermutation(a: seq<Event>, b: seq<Event>, k: string)
    requires multiset(a) == multiset(b)
    ensures SameGroup(GroupOf(a, k), GroupOf(b, k))
    decreases |a|
  {
    if a == [] {
      EmptyPermutation(b);
    } else {
      var left, right := LastOfPermutation(a, b);
      var front, last := a[..|a| - 1], a[|a| - 1];
      GroupOfPermutation(front, left + right, k);
      AppendingKeepsSame(front, left + right, last, k);
      GroupOfMoved(left, last, right, k);
      assert front + [last] == a;
    }
  }

  lemma AddingCountersCommutes(c: Counters, d: Counters, e: Counters)
    ensures Plus(Plus(c, d), e) == Plus(Plus(c, e), d)
  {
    MultisetsCommute(c.names, d.names, e.names);
    MultisetsCommute(c.statuses, d.statuses, e.statuses);
    MultisetsCommute(c.categories, d.categories, e.categories);
    SetsCommute(c.sessions, d.sessions, e.sessions);
  }

  ghost predicate SameCount(a: seq<Event>, b: seq<Event>) {
    Count(a) == Count(b)
  }

  lemma CountOne(front: seq<Event>, e: Event)
    ensures Count(front + [e]) == Plus(Count(front), CountersOf(e))
  {
    assert (front + [e])[..|front|] == front;
  }

  lemma CountSwapped(front: seq<Event>, x: Event, y: Event)
    ensures SameCount(front + [x] + [y], front + [y] + [x])
  {
    CountOne(front, x);
    CountOne(front, y);
    CountOne(front + [x], y);
    CountOne(front + [y], x);
    AddingCountersCommutes(Count(front), CountersOf(x), CountersOf(y));
  }

  lemma AppendingKeepsCount(a: seq<Event>, b: seq<Event>, e: Event)
    requires SameCount(a, b)
    ensures SameCount(a + [e], b + [e])
  {
    CountOne(a, e);
    CountOne(b, e);
  }

  lemma {:induction false} CountMoved(front: seq<Event>, e: Event, back: seq<Event>)
    ensures SameCount(front + [e] + back, front + back + [e])
    decreases |back|
  {
    if back == [] {
      assert front + [e] + back == front + back + [e];
    } else {
      var short, last := back[..|back| - 1], back[|back| - 1];
      assert front + [e] + back == (front + [e] + short) + [last];
      assert front + back + [e] == (front + short) + [last] + [e];
      CountMoved(front, e, short);
      AppendingKeepsCount(front + [e] + short, front + short + [e], last);
      CountSwapped(front + short, e, last);
    }
  }

  lemma CountAsMoved(a: seq<Event>, left: seq<Event>, right: seq<Event>)
    requires a != [] && SameCount(a[..|a| - 1], left + right)
    ensures SameCount(a, left + [a[|a| - 1]] + right)
  {
    var front, last := a[..|a| - 1], a[|a| - 1];
    AppendingKeepsCount(front, left + right, last);
    CountMoved(left, last, right);
    assert front + [last] == a;
  }

  lemma {:induction false} CountOfPermutation(a: seq<Event>, b: seq<Event>)
    requires multiset(a) == multiset(b)
    ensures SameCount(a, b)
    decreases |a|
  {
    if a == [] {
      EmptyPermutation(b);
    } else {
      var left, right := LastOfPermutation(a, b);
      CountOfPermutation(a[..|a| - 1], left + right);
      CountAsMoved(a, left, right);
    }
  }

  ghost predicate NoRepeats<T>(s: seq<T>) {
    forall i, j :: 0 <= i < j < |s| ==> s[i] != s[j]
  }

  lemma {:induction false} KeysAreTheGroups(events: seq<Event>)
    ensures NoRepeats(Keys(events))
    ensures forall k :: k in Keys(events) <==> exists e :: e in events && InGroup(e, k)
  {
    if events != [] {
      var front, last := events[..|events| - 1], events[|events| - 1];
      KeysAreTheGroups(front);
      assert events == front + [last];
      forall k
        ensures k in Keys(events) <==> exists e :: e in events && InGroup(e, k)
      {
        if k in Keys(events) && k !in Keys(front) {
          assert InGroup(last, k);
        }
        if e :| e in events && InGroup(e, k) {
          assert e in front || e == last;
        }
      }
    }
  }

  lemma {:induction false} CountWithoutRepeats<T>(s: seq<T>, x: T)
    requires NoRepeats(s)
    ensures multiset(s)[x] == if x in s then 1 else 0
  {
    if s != [] {
      CountWithoutRepeats(s[1..], x);
      assert s == [s[0]] + s[1..];
    }
  }

  lemma SameElementsArePermutation<T(!new)>(a: seq<T>, b: seq<T>)
    requires NoRepeats(a) && NoRepeats(b) && forall x :: x in a <==> x in b
    ensures multiset(a) == multiset(b)
  {
    forall x
      ensures multiset(a)[x] == multiset(b)[x]
    {
      CountWithoutRepeats(a, x);
      CountWithoutRepeats(b, x);
    }
  }

  lemma ItemLeIsTotalOrder()
    ensures TotalOrder(ItemLe)
  {
    TextLeIsTotalOrder();
    forall a, b, c | ItemLe(a, b) && ItemLe(b, c)
      ensures ItemLe(a, c)
    {
      if a.calls == c.calls {
        TextLeIsTransitive(a.key, b.key, c.key);
      }
    }
  }

  lemma ItemsOfPermutation(a: seq<Event>, b: seq<Event>)
    requires multiset(a) == multiset(b)
    ensures SortedItems(a) == SortedItems(b)
  {
    KeysAreTheGroups(a);
    KeysAreTheGroups(b);
    var ia, ib := Items(a, Keys(a)), Items(b, Keys(b));
    forall k
      ensures k in Keys(a) <==> k in Keys(b)
      ensures GroupOf(a, k).calls == GroupOf(b, k).calls
    {
      GroupOfPermutation(a, b, k);
      assert forall e :: e in a <==> e in multiset(a);
      assert forall e :: e in b <==> e in multiset(b);
    }
    ItemsAreKeys(a);
    ItemsAreKeys(b);
    SameElementsArePermutation(ia, ib);
    ItemLeIsTotalOrder();
    SortOfPermutation(ia, ib, ItemLe);
  }

  lemma ItemsAreKeys(events: seq<Event>)
    requires NoRepeats(Keys(events))
    ensures NoRepeats(Items(events, Keys(events)))
    ensures forall x :: x in Items(events, Keys(events)) <==>
              x.key in Keys(events) && x.calls == GroupOf(events, x.key).calls
  {
    var items := Items(events, Keys(events));
    forall x
      ensures x in items <==> x.key in Keys(events) && x.calls == GroupOf(events, x.key).calls
    {
      if x.key in Keys(events) && x.calls == GroupOf(events, x.key).calls {
        var i :| 0 <= i < |Keys(events)| && Keys(events)[i] == x.key;
        assert items[i] == x;
      }
    }
  }

  lemma {:induction false} SumAppend(a: seq<real>, b: seq<real>)
    ensures Sum(a + b) == Sum(a) + Sum(b)
    decreases |b|
  {
    if b == [] {
      assert a + b == a;
    } else {
      SumAppend(a, b[..|b| - 1]);
      assert (a + b)[..|a + b| - 1] == a + b[..|b| - 1];
    }
  }

  lemma {:induction false} SumOfPermutation(a: seq<real>, b: seq<real>)
    requires multiset(a) == multiset(b)
    ensures Sum(a) == Sum(b)
    decreases |a|
  {
    if a == [] {
      EmptyPermutation(b);
    } else {
      var left, right := LastOfPermutation(a, b);
      var last := [a[|a| - 1]];
      SumOfPermutation(a[..|a| - 1], left + right);
      SumAppend(left, right);
      SumAppend(left + last, right);
      SumAppend(left, last);
      assert Sum(last) == a[|a| - 1];
    }
  }

  lemma PatternOfSameGroup(k: string, g: Group, h: Group)
    requires SameGroup(g, h)
    ensures PatternOf(k, g) == PatternOf(k, h)
  {
    SumOfPermutation(g.latencies, h.latencies);
    NearestRankOfPermutation(g.latencies, h.latencies, 0.50);
    NearestRankOfPermutation(g.latencies, h.latencies, 0.95);
    assert |g.latencies| == |multiset(g.latencies)| == |multiset(h.latencies)| == |h.latencies|;
  }

  /** The report is the same for every order of the same events. */
  lemma ReportIgnoresOrder(a: seq<Event>, b: seq<Event>)
    requires multiset(a) == multiset(b)
    ensures ReportOf(a) == ReportOf(b)
  {
    CountOfPermutation(a, b);
    ItemsOfPermutation(a, b);
    var items := SortedItems(a);
    forall i | 0 <= i < |items|
      ensures Patterns(a)[i] == Patterns(b)[i]
    {
      GroupOfPermutation(a, b, items[i].key);
      PatternOfSameGroup(items[i].key, GroupOf(a, items[i].key), GroupOf(b, items[i].key));
    }
    assert Patterns(a) == Patterns(b);
    assert |a| == |multiset(a)| == |multiset(b)| == |b|;
  }

  // ----- conservation -----

  /** Every call of a group is counted once by outcome, once by access, once by mode and once by target. */
  lemma {:induction false} CallsAreConserved(events: seq<Event>, k: string)
    ensures var g := GroupOf(events, k);
            && g.calls == |g.outcomes| == |g.access| == |g.modes| == |g.targets|
            && |g.latencies| <= g.calls
  {
    if events != [] {
      CallsAreConserved(events[..|events| - 1], k);
    }
  }

  lemma OutcomesSplit(m: multiset<string>)
    ensures m["succeeded"] + m["condition_false"] + m["warning"] + Failures(m) == |m|
  {
    var m1 := m["succeeded" := 0];
    var m2 := m1["condition_false" := 0];
    var m3 := m2["warning" := 0];
    RemovingAll(m, "succeeded");
    RemovingAll(m1, "condition_false");
    RemovingAll(m2, "warning");
  }

  lemma {:induction false} RemovingAll(m: multiset<string>, x: string)
    ensures |m[x := 0]| + m[x] == |m|
    decreases m[x]
  {
    if m[x] == 0 {
      assert m[x := 0] == m;
    } else {
      RemovingAll(m - multiset{x}, x);
      assert (m - multiset{x})[x := 0] == m[x := 0];
    }
  }

  lemma PatternsAreConserved(events: seq<Event>, k: string)
    ensures var g := GroupOf(events, k);
            var p := PatternOf(k, g);
            p.successes + g.outcomes["condition_false"] + g.outcomes["warning"] + p.failures == g.calls
  {
    CallsAreConserved(events, k);
    OutcomesSplit(GroupOf(events, k).outcomes);
  }

  // ----- reading the files -----

  function AnalyzedLines(f: File, count: nat): Result<seq<Event>>
    requires count <= |f.lines|
  {
    if count == 0 then Ok([])
    else
      var before := AnalyzedLines(f, count - 1);
      if before.BadLine? then before
      else match f.lines[count - 1]
        case Malformed => BadLine(f.name, count)
        case Object(e) => Ok(before.value + [e])
        case _ => before
  }

  function Analyzed(files: seq<File>): Result<seq<Event>> {
    if files == [] then Ok([])
    else
      var before := Analyzed(files[..|files| - 1]);
      if before.BadLine? then before
      else
        var f := files[|files| - 1];
        var last := AnalyzedLines(f, |f.lines|);
        if last.BadLine? then last else Ok(before.value + last.value)
  }

  function Analyze(files: seq<File>): Result<Report> {
    var events := Analyzed(files);
    if events.BadLine? then BadLine(events.file, events.line) else Ok(ReportOf(events.value))
  }

  /** However the same events are spread over files. */
  lemma AnalysisIgnoresSplitting(a: seq<File>, b: seq<File>)
    requires Analyzed(a).Ok? && Analyzed(b).Ok?
    requires multiset(Analyzed(a).value) == multiset(Analyzed(b).value)
    ensures Analyze(a) == Analyze(b)
  {
    ReportIgnoresOrder(Analyzed(a).value, Analyzed(b).value);
  }

  /** Event by event the same, but for the source file. */
  predicate SameButSource(a: seq<Event>, b: seq<Event>) {
    |a| == |b| && forall i :: 0 <= i < |a| ==> a[i].(sourceFile := None) == b[i].(sourceFile := None)
  }

  lemma {:induction false} GroupsIgnoreSources(a: seq<Event>, b: seq<Event>, k: string)
    requires SameButSource(a, b)
    ensures GroupOf(a, k) == GroupOf(b, k)
  {
    if a != [] {
      GroupsIgnoreSources(a[..|a| - 1], b[..|b| - 1], k);
      assert a[|a| - 1].(sourceFile := None) == b[|b| - 1].(sourceFile := None);
    }
  }

  lemma {:induction false} CountersIgnoreSources(a: seq<Event>, b: seq<Event>)
    requires SameButSource(a, b)
    ensures Count(a) == Count(b) && Keys(a) == Keys(b)
  {
    if a != [] {
      CountersIgnoreSources(a[..|a| - 1], b[..|b| - 1]);
      var x, y := a[|a| - 1], b[|b| - 1];
      assert x.(sourceFile := None) == y.(sourceFile := None);
      assert CountersOf(x) == CountersOf(y) && PublicAnalysis(x) == PublicAnalysis(y);
    }
  }

  lemma ReportIgnoresSources(a: seq<Event>, b: seq<Event>)
    requires SameButSource(a, b)
    ensures ReportOf(a) == ReportOf(b)
  {
    CountersIgnoreSources(a, b);
    forall k
      ensures GroupOf(a, k) == GroupOf(b, k)
    {
      GroupsIgnoreSources(a, b, k);
    }
    assert Items(a, Keys(a)) == Items(b, Keys(b));
    assert Patterns(a) == Patterns(b);
  }

  lemma {:induction false} LinesAreReadAlike(f: File, count: nat)
    requires count <= |f.lines| && ReadLines(f, count).Ok?
    ensures AnalyzedLines(f, count).Ok? && SameButSource(AnalyzedLines(f, count).value, ReadLines(f, count).value)
  {
    if count > 0 {
      LinesAreReadAlike(f, count - 1);
    }
  }

  lemma {:induction false} FilesAreReadAlike(files: seq<File>)
    requires Collect(files).Ok?
    ensures Analyzed(files).Ok? && SameButSource(Analyzed(files).value, Collect(files).value)
  {
    if files != [] {
      FilesAreReadAlike(files[..|files| - 1]);
      LinesAreReadAlike(files[|files| - 1], |files[|files| - 1].lines|);
    }
  }

  /** Analysing a merged file is analysing the files it was merged from. */
  lemma AnalysisOfMergedFile(files: seq<File>, name: string)
    requires Events(files).Ok?
    ensures Analyze([MergedFile(name, Events(files).value)]) == Analyze(files)
  {
    var merged := [MergedFile(name, Events(files).value)];
    MergedIsCollected(name, files);
    FilesAreReadAlike(merged);
    FilesAreReadAlike(files);
    ReportIgnoresSources(Analyzed(merged).value, Collect(merged).value);
    ReportIgnoresSources(Analyzed(files).value, Collect(files).value);
    SortPermutes(Collect(files).value, EventLe);
    ReportIgnoresOrder(Collect(merged).value, Collect(files).value);
  }
}
