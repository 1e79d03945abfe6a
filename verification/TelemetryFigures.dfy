/** What the figures of the telemetry report count, in numbers of events. */
module TelemetryFigures {
  import opened Wrappers
  import opened Counting
  import opened StableSort
  import opened TextOrder
  import opened MergeTelemetry
  import opened Percentiles
  import opened AnalyzeTelemetry
  import opened MergedEvents

  // ----- what can be asked of an event -----

  /** A name or a status; a completed call with a tool class; and calls of `execute_code` whose code has a pattern. */
  datatype Question =
    | HasName(text: string)
    | HasStatus(text: string)
    | HasClass(category: string)
    | HasAnyClass
    | IsCall(key: string)
    | OnlyReads(key: string)
    | Mutates(key: string)
    | HasMode(key: string, mode: string)
    | RunsInWorker(key: string)
    | RunsInGui(key: string)
    | EndsWith(key: string, status: string)
    | FailsOtherwise(key: string)

  /** The text is what was recorded, or the default if nothing was, or nothing but the empty text. */
  predicate ReadsAs(x: Option<string>, text: string, default: string) {
    (x == Some(text) && text != "") || (text == default && (x.None? || x == Some("")))
  }

  predicate IsCompleted(e: Event) {
    e.name == Some("tool_call_completed") && e.payload.Some?
  }

  /** The analysis of a completed call of `execute_code`, if it has one and the code has this pattern. */
  predicate IsAnalyzed(e: Event, key: string, a: Analysis) {
    && IsCompleted(e) && e.payload.value.category == Some("public_execute_code")
    && e.payload.value.analysis == Some(a) && ReadsAs(a.patternHash, key, "unparsed")
  }

  predicate Answers(e: Event, q: Question) {
    match q
    case HasName(text) => ReadsAs(e.name, text, "unknown")
    case HasStatus(text) => ReadsAs(e.status, text, "unknown")
    case HasClass(category) => IsCompleted(e) && category != "" && e.payload.value.category == Some(category)
    case HasAnyClass => IsCompleted(e) && e.payload.value.category.Some? && e.payload.value.category.value != ""
    case IsCall(key) => CallOf(e, key).Some?
    case OnlyReads(key) => CallOf(e, key).Some? && CallOf(e, key).value.readOnly
    case Mutates(key) => CallOf(e, key).Some? && !CallOf(e, key).value.readOnly
    case HasMode(key, mode) => CallOf(e, key).Some? && ReadsAs(CallOf(e, key).value.mode, mode, "auto")
    case RunsInWorker(key) =>
      CallOf(e, key).Some? && (CallOf(e, key).value.readOnly || CallOf(e, key).value.mode == Some("worker"))
    case RunsInGui(key) =>
      CallOf(e, key).Some? && !CallOf(e, key).value.readOnly && CallOf(e, key).value.mode != Some("worker")
    case EndsWith(key, status) => CallOf(e, key).Some? && ReadsAs(e.status, status, "unknown")
    case FailsOtherwise(key) =>
      && CallOf(e, key).Some?
      && e.status !in [Some("succeeded"), Some("condition_false"), Some("warning")]
  }

  function CallOf(e: Event, key: string): (r: Option<Analysis>)
    ensures r.Some? <==> exists a :: IsAnalyzed(e, key, a)
    ensures r.Some? ==> IsAnalyzed(e, key, r.value)
  {
    if IsCompleted(e) && e.payload.value.analysis.Some? && IsAnalyzed(e, key, e.payload.value.analysis.value) then
      e.payload.value.analysis
    else None
  }

  // ----- numbers of events -----

  function Asking(q: Question): Event -> bool {
    e => Answers(e, q)
  }

  function Number(events: seq<Event>, q: Question): nat {
    |Hits(events, Asking(q))|
  }

  lemma NumberGrows(front: seq<Event>, e: Event, q: Question)
    ensures Number(front + [e], q) == Number(front, q) + if Answers(e, q) then 1 else 0
    ensures Number([], q) == 0
  {
    HitsGrow(front, e, Asking(q));
  }

  // ----- the counters -----

  predicate IsCounted(q: Question) {
    q.HasName? || q.HasStatus? || q.HasClass? || q.HasAnyClass?
  }

  /** What the counters say of a question about names, statuses and classes. */
  function Counted(c: Counters, q: Question): nat
    requires IsCounted(q)
  {
    match q
    case HasName(text) => c.names[text]
    case HasStatus(text) => c.statuses[text]
    case HasClass(category) => c.categories[category]
    case HasAnyClass => |c.categories|
  }

  lemma CountersOfOne(c: Counters, e: Event, q: Question)
    requires IsCounted(q)
    ensures Counted(Plus(c, CountersOf(e)), q) == Counted(c, q) + if Answers(e, q) then 1 else 0
  {
  }

  lemma CountersGrow(front: seq<Event>, e: Event, q: Question)
    requires IsCounted(q)
    ensures Counted(Count(front + [e]), q) == Counted(Count(front), q) + if Answers(e, q) then 1 else 0
  {
    assert (front + [e])[..|front|] == front;
    CountersOfOne(Count(front), e, q);
  }

  lemma {:induction false} CountersAreNumbers(events: seq<Event>, q: Question)
    requires IsCounted(q)
    ensures Counted(Count(events), q) == Number(events, q)
    decreases |events|
  {
    if events == [] {
      assert Hits(events, Asking(q)) == {};
    } else {
      var front, last := events[..|events| - 1], events[|events| - 1];
      CountersAreNumbers(front, q);
      assert front + [last] == events;
      NumberGrows(front, last, q);
      CountersGrow(front, last, q);
    }
  }

  predicate AnySession(events: seq<Event>, x: string) {
    exists e :: e in events && e.session == Some(x)
  }

  lemma AnySessionGrows(front: seq<Event>, e: Event, x: string)
    ensures AnySession(front + [e], x) <==> AnySession(front, x) || e.session == Some(x)
  {
    assert forall d :: d in front + [e] <==> d in front || d == e;
  }

  lemma SessionOfOne(c: Counters, e: Event, x: string)
    ensures x in Plus(c, CountersOf(e)).sessions <==> x in c.sessions || (x != "" && e.session == Some(x))
  {
  }

  lemma {:induction false} SessionsAreThose(events: seq<Event>, x: string)
    ensures x in Count(events).sessions <==> x != "" && AnySession(events, x)
    decreases |events|
  {
    if events != [] {
      var front, last := events[..|events| - 1], events[|events| - 1];
      SessionsAreThose(front, x);
      assert front + [last] == events;
      AnySessionGrows(front, last, x);
      SessionOfOne(Count(front), last, x);
    }
  }

  /** A share of the calls with a tool class, and nought if there is none. */
  predicate IsShare(share: real, part: nat, whole: nat) {
    if whole == 0 then share == 0.0 else share == part as real / whole as real
  }

  /** The figures of the report but for its patterns. */
  lemma ReportCounts(events: seq<Event>, x: string)
    ensures var r := ReportOf(events);
            && r.eventCount == |events|
            && r.events[x] == Number(events, HasName(x)) && r.statuses[x] == Number(events, HasStatus(x))
            && r.categories[x] == Number(events, HasClass(x))
            && IsShare(r.publicShare, Number(events, HasClass("public_execute_code")), Number(events, HasAnyClass))
            && IsShare(r.typedShare, Number(events, HasClass("typed_direct_rpc")), Number(events, HasAnyClass))
  {
    CountersAreNumbers(events, HasName(x));
    CountersAreNumbers(events, HasStatus(x));
    CountersAreNumbers(events, HasClass(x));
    CountersAreNumbers(events, HasClass("public_execute_code"));
    CountersAreNumbers(events, HasClass("typed_direct_rpc"));
    CountersAreNumbers(events, HasAnyClass);
  }

  /** The sessions counted are the different non-empty ones. */
  lemma ReportCountsSessions(events: seq<Event>, sessions: set<string>)
    requires forall x :: x in sessions <==> x != "" && AnySession(events, x)
    ensures ReportOf(events).sessionCount == |sessions|
  {
    forall x
      ensures x in sessions <==> x in Count(events).sessions
    {
      SessionsAreThose(events, x);
    }
    assert sessions == Count(events).sessions;
  }

  // ----- the groups -----

  predicate IsAboutCalls(q: Question) {
    !q.HasName? && !q.HasStatus? && !q.HasClass? && !q.HasAnyClass?
  }

  function Tallied(g: Group, q: Question): nat
    requires IsAboutCalls(q)
  {
    match q
    case IsCall(_) => g.calls
    case OnlyReads(_) => g.access["read_only"]
    case Mutates(_) => g.access["mutating"]
    case HasMode(_, mode) => g.modes[mode]
    case RunsInWorker(_) => g.targets["worker"]
    case RunsInGui(_) => g.targets["gui"]
    case EndsWith(_, status) => g.outcomes[status]
    case FailsOtherwise(_) => Failures(g.outcomes)
  }

  lemma CallIsInGroup(e: Event, key: string)
    ensures InGroup(e, key) <==> CallOf(e, key).Some?
    ensures InGroup(e, key) ==> PublicAnalysis(e) == CallOf(e, key)
  {
    if InGroup(e, key) {
      assert IsAnalyzed(e, key, PublicAnalysis(e).value);
    }
  }

  lemma FailuresGrow(m: multiset<string>, status: string)
    ensures Failures(m + multiset{status})
         == Failures(m) + if status in {"succeeded", "condition_false", "warning"} then 0 else 1
  {
    OutcomesSplit(m);
    OutcomesSplit(m + multiset{status});
  }

  lemma BagGrows(m: multiset<string>, x: string, y: string)
    ensures (m + multiset{x})[y] == m[y] + if x == y then 1 else 0
  {
  }

  lemma AccessGrows(m: multiset<string>, a: Analysis)
    ensures var grown := m + multiset{AccessOf(a)};
            && grown["read_only"] == m["read_only"] + (if a.readOnly then 1 else 0)
            && grown["mutating"] == m["mutating"] + (if a.readOnly then 0 else 1)
  {
  }

  lemma TargetsGrow(m: multiset<string>, a: Analysis)
    ensures var grown, worker := m + multiset{TargetOf(a)}, a.readOnly || a.mode == Some("worker");
            && grown["worker"] == m["worker"] + (if worker then 1 else 0)
            && grown["gui"] == m["gui"] + (if worker then 0 else 1)
  {
  }

  lemma StatusReads(e: Event, status: string)
    ensures ReadsAs(e.status, status, "unknown") <==> StatusOf(e) == status
  {
  }

  lemma StatusIsFailure(e: Event)
    ensures e.status !in [Some("succeeded"), Some("condition_false"), Some("warning")]
       <==> StatusOf(e) !in {"succeeded", "condition_false", "warning"}
  {
  }

  lemma ModeReads(a: Analysis, mode: string)
    ensures ReadsAs(a.mode, mode, "auto") <==> ModeOf(a) == mode
  {
  }

  lemma TallyGrows(g: Group, e: Event, a: Analysis, key: string, q: Question)
    requires IsAboutCalls(q) && q.key == key && CallOf(e, key) == Some(a)
    ensures Tallied(AddCall(g, e, a), q) == Tallied(g, q) + if Answers(e, q) then 1 else 0
  {
    match q
    case FailsOtherwise(_) =>
      FailuresGrow(g.outcomes, StatusOf(e));
      StatusIsFailure(e);
    case EndsWith(_, status) =>
      BagGrows(g.outcomes, StatusOf(e), status);
      StatusReads(e, status);
    case HasMode(_, mode) =>
      BagGrows(g.modes, ModeOf(a), mode);
      ModeReads(a, mode);
    case OnlyReads(_) => AccessGrows(g.access, a);
    case Mutates(_) => AccessGrows(g.access, a);
    case RunsInWorker(_) => TargetsGrow(g.targets, a);
    case RunsInGui(_) => TargetsGrow(g.targets, a);
    case IsCall(_) =>
  }

  /** How often a group counts something is the number of its calls of which it holds. */
  lemma {:induction false} GroupsCountCalls(events: seq<Event>, q: Question)
    requires IsAboutCalls(q)
    ensures Tallied(GroupOf(events, q.key), q) == Number(events, q)
    decreases |events|
  {
    if events == [] {
      assert Hits(events, Asking(q)) == {};
    } else {
      var front, last := events[..|events| - 1], events[|events| - 1];
      GroupsCountCalls(front, q);
      assert front + [last] == events;
      NumberGrows(front, last, q);
      CallIsInGroup(last, q.key);
      if InGroup(last, q.key) {
        TallyGrows(GroupOf(front, q.key), last, PublicAnalysis(last).value, q.key, q);
      }
    }
  }

  /** The durations of its calls, in order. */
  lemma GroupsKeepDurations(front: seq<Event>, e: Event, key: string)
    ensures GroupOf([], key).latencies == []
    ensures GroupOf(front + [e], key).latencies
         == GroupOf(front, key).latencies
            + if CallOf(e, key).Some? && e.duration.Some? then [e.duration.value] else []
  {
    GroupOfAppend(front, e, key);
    CallIsInGroup(e, key);
  }

  /** What the code of a call mentions. */
  datatype Mention = AnImport(x: string) | AnOperation(x: string) | ASuggestion(x: string) | AHash(x: string)
                   | AScope(documents: seq<string>)

  predicate IsMentioned(a: Analysis, m: Mention) {
    match m
    case AnImport(x) => x in a.imports
    case AnOperation(x) => x in a.families
    case ASuggestion(x) => x in a.suggestions
    case AHash(x) => x != "" && a.codeHash == Some(x)
    case AScope(documents) => a.scope == documents
  }

  predicate IsCollected(g: Group, m: Mention) {
    match m
    case AnImport(x) => x in g.imports
    case AnOperation(x) => x in g.operations
    case ASuggestion(x) => x in g.suggestions
    case AHash(x) => x in g.hashes
    case AScope(documents) => documents in g.scopes
  }

  predicate MentionedBy(e: Event, key: string, m: Mention) {
    CallOf(e, key).Some? && IsMentioned(CallOf(e, key).value, m)
  }

  predicate AnyMentions(events: seq<Event>, key: string, m: Mention) {
    exists e :: e in events && MentionedBy(e, key, m)
  }

  lemma AnyMentionsGrows(front: seq<Event>, e: Event, key: string, m: Mention)
    ensures AnyMentions(front + [e], key, m) <==> AnyMentions(front, key, m) || MentionedBy(e, key, m)
  {
    assert forall d :: d in front + [e] <==> d in front || d == e;
  }

  lemma CollectionGrows(g: Group, e: Event, a: Analysis, m: Mention)
    ensures IsCollected(AddCall(g, e, a), m) <==> IsCollected(g, m) || IsMentioned(a, m)
  {
  }

  /** The sets of a group hold what the code of some call of it mentions. */
  lemma {:induction false} GroupsCollect(events: seq<Event>, key: string, m: Mention)
    ensures IsCollected(GroupOf(events, key), m) <==> AnyMentions(events, key, m)
    decreases |events|
  {
    if events != [] {
      var front, last := events[..|events| - 1], events[|events| - 1];
      GroupsCollect(front, key, m);
      assert front + [last] == events;
      AnyMentionsGrows(front, last, key, m);
      CallIsInGroup(last, key);
      if InGroup(last, key) {
        CollectionGrows(GroupOf(front, key), last, PublicAnalysis(last).value, m);
      }
    }
  }

  // ----- the patterns -----

  /** The mean of some numbers, if there are any. */
  predicate IsMean(mean: Option<real>, values: seq<real>) {
    if values == [] then mean.None? else mean.Some? && mean.value * |values| as real == Sum(values)
  }

  lemma QuotientIsMean(values: seq<real>)
    requires values != []
    ensures IsMean(Some(Sum(values) / |values| as real), values)
  {
  }

  lemma LatencyIsOf(key: string, g: Group)
    ensures var latency := PatternOf(key, g).latency;
            && IsMean(latency.average, g.latencies)
            && latency.p50 == NearestRank(g.latencies, 0.50) && latency.p95 == NearestRank(g.latencies, 0.95)
  {
    if g.latencies != [] {
      QuotientIsMean(g.latencies);
    }
  }

  /** The pattern of a key: its group, and the numbers derived from it. */
  lemma PatternIsOf(events: seq<Event>, key: string)
    ensures var p := PatternOf(key, GroupOf(events, key));
            && p.key == key && p.group == GroupOf(events, key).(latencies := [])
            && p.successes == Number(events, EndsWith(key, "succeeded"))
            && p.timeouts == Number(events, EndsWith(key, "timed_out"))
            && p.failures == Number(events, FailsOtherwise(key))
  {
    OutcomesAreCounted(events, key, "succeeded");
    OutcomesAreCounted(events, key, "timed_out");
    FailuresAreCounted(events, key);
  }

  lemma OutcomesAreCounted(events: seq<Event>, key: string, status: string)
    ensures GroupOf(events, key).outcomes[status] == Number(events, EndsWith(key, status))
  {
    GroupsCountCalls(events, EndsWith(key, status));
  }

  lemma FailuresAreCounted(events: seq<Event>, key: string)
    ensures Failures(GroupOf(events, key).outcomes) == Number(events, FailsOtherwise(key))
  {
    GroupsCountCalls(events, FailsOtherwise(key));
  }

  lemma PatternsAreOfKeys(events: seq<Event>, i: nat)
    requires i < |ReportOf(events).patterns|
    ensures i < |SortedItems(events)|
    ensures var key := SortedItems(events)[i].key; ReportOf(events).patterns[i] == PatternOf(key, GroupOf(events, key))
  {
  }

  /** So for every pattern of the report. */
  lemma PatternCounts(events: seq<Event>, i: nat)
    requires i < |ReportOf(events).patterns|
    ensures var p := ReportOf(events).patterns[i];
            var latencies := GroupOf(events, p.key).latencies;
            && p.group == GroupOf(events, p.key).(latencies := [])
            && p.successes == Number(events, EndsWith(p.key, "succeeded"))
            && p.timeouts == Number(events, EndsWith(p.key, "timed_out"))
            && p.failures == Number(events, FailsOtherwise(p.key))
            && IsMean(p.latency.average, latencies)
            && p.latency.p50 == NearestRank(latencies, 0.50) && p.latency.p95 == NearestRank(latencies, 0.95)
  {
    PatternsAreOfKeys(events, i);
    PatternIsOf(events, SortedItems(events)[i].key);
    LatencyIsOf(SortedItems(events)[i].key, GroupOf(events, SortedItems(events)[i].key));
  }

  lemma TwiceIsTwo<T>(s: seq<T>, i: nat, j: nat)
    requires i < j < |s| && s[i] == s[j]
    ensures multiset(s)[s[i]] >= 2
  {
    assert s == s[..j] + s[j..];
    assert s[i] in s[..j] && s[i] in s[j..];
    assert multiset(s) == multiset(s[..j]) + multiset(s[j..]);
  }

  lemma SortedWithoutRepeats(items: seq<Item>, i: nat, j: nat)
    requires NoRepeats(items) && i < j < |Sort(items, ItemLe)|
    ensures Sort(items, ItemLe)[i] != Sort(items, ItemLe)[j]
  {
    var sorted := Sort(items, ItemLe);
    SortPermutes(items, ItemLe);
    if sorted[i] == sorted[j] {
      CountWithoutRepeats(items, sorted[i]);
      TwiceIsTwo(sorted, i, j);
    }
  }

  /** The sorted items: one for each key of some call, with the calls of its group. */
  lemma SortedItemsFacts(events: seq<Event>, i: nat, j: nat)
    requires i < j < |SortedItems(events)|
    ensures var a, b := SortedItems(events)[i], SortedItems(events)[j];
            && a != b && ItemLe(a, b)
            && a.calls == GroupOf(events, a.key).calls && b.calls == GroupOf(events, b.key).calls
  {
    var items := Items(events, Keys(events));
    KeysAreTheGroups(events);
    ItemsAreKeys(events);
    ItemLeIsTotalOrder();
    SortSorts(items, ItemLe);
    SortPermutes(items, ItemLe);
    SortedWithoutRepeats(items, i, j);
    assert SortedItems(events)[i] in multiset(items) && SortedItems(events)[j] in multiset(items);
  }

  /** Most calls come first, then the smaller key, and no key comes twice. */
  lemma PatternsAreOrdered(events: seq<Event>, i: nat, j: nat)
    requires i < j < |ReportOf(events).patterns|
    ensures var p, r := ReportOf(events).patterns[i], ReportOf(events).patterns[j];
            && p.key != r.key && p.group.calls >= r.group.calls
            && (p.group.calls == r.group.calls ==> TextLe(p.key, r.key))
  {
    PatternsAreOfKeys(events, i);
    PatternsAreOfKeys(events, j);
    SortedItemsFacts(events, i, j);
  }

  lemma KeysAreSorted(events: seq<Event>, key: string)
    ensures (exists i :: 0 <= i < |SortedItems(events)| && SortedItems(events)[i].key == key) <==> key in Keys(events)
  {
    var items, sorted := Items(events, Keys(events)), SortedItems(events);
    KeysAreTheGroups(events);
    ItemsAreKeys(events);
    SortPermutes(items, ItemLe);
    SortedItemsAreKeys(events);
    if key in Keys(events) {
      var item := Item(GroupOf(events, key).calls, key);
      assert item in items;
      assert item in multiset(sorted);
    }
  }

  /** And there is one for every key of some call. */
  lemma PatternsCoverTheKeys(events: seq<Event>, key: string)
    ensures (exists i :: 0 <= i < |ReportOf(events).patterns| && ReportOf(events).patterns[i].key == key)
            <==> exists e :: e in events && CallOf(e, key).Some?
  {
    KeysAreTheGroups(events);
    KeysAreSorted(events, key);
    forall e: Event
      ensures InGroup(e, key) <==> CallOf(e, key).Some?
    {
      CallIsInGroup(e, key);
    }
    forall i: nat | i < |ReportOf(events).patterns|
      ensures ReportOf(events).patterns[i].key == SortedItems(events)[i].key
    {
      PatternsAreOfKeys(events, i);
    }
    assert |ReportOf(events).patterns| == |SortedItems(events)|;
  }

  // ----- reading for the report -----

  ghost predicate NoneMalformed(f: File, count: nat)
    requires count <= |f.lines|
  {
    forall i :: 0 <= i < count ==> !f.lines[i].Malformed?
  }

  lemma {:induction false} ReadableLinesAreAnalyzed(f: File, count: nat)
    requires count <= |f.lines| && NoneMalformed(f, count)
    ensures AnalyzedLines(f, count).Ok? && |AnalyzedLines(f, count).value| == |EventLines(f, count)|
  {
    if count == 0 {
      assert EventLines(f, 0) == {};
    } else {
      ReadableLinesAreAnalyzed(f, count - 1);
      LinesGrow(f, count);
    }
  }

  /** The events of a file are those of its lines, in order; other values are skipped, broken lines stop the reading. */
  lemma {:induction false} LinesAreAnalyzed(f: File, count: nat, i: nat)
    requires i < count <= |f.lines| && NoneMalformed(f, count) && f.lines[i].Object?
    ensures AnalyzedLines(f, count).Ok? && |EventLines(f, i)| < |AnalyzedLines(f, count).value|
    ensures AnalyzedLines(f, count).value[|EventLines(f, i)|] == f.lines[i].event
    decreases count
  {
    ReadableLinesAreAnalyzed(f, count - 1);
    ReadableLinesAreAnalyzed(f, count);
    if i < count - 1 {
      LinesAreAnalyzed(f, count - 1, i);
    }
  }

  lemma {:induction false} MalformedLineStops(f: File, n: nat, count: nat)
    requires n < count <= |f.lines| && NoneMalformed(f, n) && f.lines[n].Malformed?
    ensures AnalyzedLines(f, count) == BadLine(f.name, n + 1)
    decreases count
  {
    if n == count - 1 {
      ReadableLinesAreAnalyzed(f, n);
    } else {
      MalformedLineStops(f, n, count - 1);
    }
  }

  ghost predicate AreReadable(files: seq<File>) {
    forall f :: f in files ==> NoneMalformed(f, |f.lines|)
  }

  /** Files without broken lines follow one another, and the report is that of all their events. */
  lemma {:induction false} ReadableFilesAreAnalyzed(front: seq<File>, f: File)
    requires AreReadable(front) && NoneMalformed(f, |f.lines|)
    ensures Analyzed(front).Ok? && AnalyzedLines(f, |f.lines|).Ok?
    ensures Analyzed(front + [f]) == Ok(Analyzed(front).value + AnalyzedLines(f, |f.lines|).value)
    ensures Analyze(front + [f]) == Ok(ReportOf(Analyzed(front + [f]).value))
    ensures Analyzed([]) == Ok([])
    decreases |front|
  {
    assert (front + [f])[..|front|] == front;
    ReadableLinesAreAnalyzed(f, |f.lines|);
    if front != [] {
      var before, last := front[..|front| - 1], front[|front| - 1];
      assert last in front && forall g :: g in before ==> g in front;
      assert before + [last] == front;
      ReadableFilesAreAnalyzed(before, last);
    }
  }

  lemma {:induction false} BrokenFilesStop(files: seq<File>, rest: seq<File>)
    requires Analyzed(files).BadLine?
    ensures Analyzed(files + rest) == Analyzed(files)
    decreases |rest|
  {
    if rest == [] {
      assert files + rest == files;
    } else {
      var before := rest[..|rest| - 1];
      assert (files + rest)[..|files + rest| - 1] == files + before;
      BrokenFilesStop(files, before);
    }
  }

  lemma {:induction false} ReadableFilesAreRead(files: seq<File>)
    requires AreReadable(files)
    ensures Analyzed(files).Ok?
  {
    if files != [] {
      var before, last := files[..|files| - 1], files[|files| - 1];
      assert last in files && before + [last] == files && forall f :: f in before ==> f in files;
      ReadableFilesAreAnalyzed(before, last);
    }
  }

  /** Otherwise the first broken line is named: `n` of the first file that has one. */
  lemma FirstBrokenLineIsNamed(front: seq<File>, f: File, rest: seq<File>, n: nat)
    requires AreReadable(front) && n < |f.lines| && NoneMalformed(f, n) && f.lines[n].Malformed?
    ensures Analyze(front + [f] + rest) == BadLine(f.name, n + 1)
  {
    ReadableFilesAreRead(front);
    MalformedLineStops(f, n, |f.lines|);
    assert (front + [f])[..|front|] == front;
    assert Analyzed(front + [f]) == BadLine(f.name, n + 1);
    BrokenFilesStop(front + [f], rest);
  }
}
