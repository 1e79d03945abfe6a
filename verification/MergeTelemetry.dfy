/**
 Merging per-process telemetry files: read every event, remember where it came from, and sort by
 timestamp, session and sequence number. JSON values are kept as the fields the scripts look at.
 */
module MergeTelemetry {
  import opened Wrappers
  import opened StableSort
  import opened TextOrder

  datatype Analysis = Analysis(patternHash: Option<string>, imports: seq<string>, families: seq<string>,
                               scope: seq<string>, readOnly: bool, mode: Option<string>,
                               suggestions: seq<string>, codeHash: Option<string>)

  datatype Payload = Payload(category: Option<string>, analysis: Option<Analysis>)

  datatype Event = Event(timestamp: Option<string>, session: Option<string>, sequence: Option<int>,
                         sourceFile: Option<string>, name: Option<string>, status: Option<string>,
                         duration: Option<real>, payload: Option<Payload>)

  /** A line of a file: nothing, broken JSON, JSON that is no object, or an event. */
  datatype Line = Blank | Malformed | NonObject | Object(event: Event)

  datatype File = File(name: string, lines: seq<Line>)

  /** The error names the file and the line, counted from one. */
  datatype Result<T> = Ok(value: T) | BadLine(file: string, line: nat)

  // ----- the sort key -----

  /** `str(item.get(...) or default)`. */
  function OrText(x: Option<string>, default: string): string {
    if x.Some? && x.value != "" then x.value else default
  }

  function Number(e: Event): int {
    if e.sequence.Some? then e.sequence.value else 0
  }

  predicate EventLe(a: Event, b: Event) {
    var ta, tb := OrText(a.timestamp, ""), OrText(b.timestamp, "");
    var sa, sb := OrText(a.session, ""), OrText(b.session, "");
    if ta != tb then TextLe(ta, tb) else if sa != sb then TextLe(sa, sb) else Number(a) <= Number(b)
  }

  lemma EventLeIsTotal()
    ensures TotalPreorder(EventLe)
  {
    TextLeIsTotalOrder();
    forall a, b, c | EventLe(a, b) && EventLe(b, c)
      ensures EventLe(a, c)
    {
      EventLeIsTransitive(a, b, c);
    }
  }

  lemma EventLeIsTransitive(a: Event, b: Event, c: Event)
    requires EventLe(a, b) && EventLe(b, c)
    ensures EventLe(a, c)
  {
    TextLeIsTotalOrder();
    var ta, tb, tc := OrText(a.timestamp, ""), OrText(b.timestamp, ""), OrText(c.timestamp, "");
    var sa, sb, sc := OrText(a.session, ""), OrText(b.session, ""), OrText(c.session, "");
    if ta == tb == tc {
    } else if ta != tb && tb != tc {
      TextLeIsTransitive(ta, tb, tc);
    }
    if sa != sb && sb != sc && TextLe(sa, sb) && TextLe(sb, sc) {
      TextLeIsTransitive(sa, sb, sc);
    }
  }

  // ----- reading -----

  /** `setdefault("_source_file", path.name)`. */
  function Sourced(e: Event, file: string): Event {
    if e.sourceFile.None? then e.(sourceFile := Some(file)) else e
  }

  function ReadLines(f: File, count: nat): Result<seq<Event>>
    requires count <= |f.lines|
  {
    if count == 0 then Ok([])
    else
      var before := ReadLines(f, count - 1);
      if before.BadLine? then before
      else match f.lines[count - 1]
        case Blank => before
        case Malformed => BadLine(f.name, count)
        case NonObject => BadLine(f.name, count)
        case Object(e) => Ok(before.value + [Sourced(e, f.name)])
  }

  function ReadFile(f: File): Result<seq<Event>> {
    ReadLines(f, |f.lines|)
  }

  /** All events in the order they are read; the first bad line stops the reading. */
  function Collect(files: seq<File>): Result<seq<Event>> {
    if files == [] then Ok([])
    else
      var before := Collect(files[..|files| - 1]);
      if before.BadLine? then before
      else
        var last := ReadFile(files[|files| - 1]);
        if last.BadLine? then last else Ok(before.value + last.value)
  }

  function Events(files: seq<File>): Result<seq<Event>> {
    var events := Collect(files);
    if events.BadLine? then events else Ok(Sort(events.value, EventLe))
  }

  /** The merged file: one line an event. */
  function MergedFile(name: string, events: seq<Event>): File {
    File(name, seq(|events|, i requires 0 <= i < |events| => Object(events[i])))
  }

  method ReadEvents(files: seq<File>) returns (result: Result<seq<Event>>)
    ensures result == Events(files)
  {
    var events: seq<Event> := [];
    for i := 0 to |files|
      invariant Collect(files[..i]) == Ok(events)
    {
      var f := files[i];
      ghost var earlier := events;
      assert files[..i + 1][..i] == files[..i];
      for n := 0 to |f.lines|
        invariant ReadLines(f, n).Ok? && events == earlier + ReadLines(f, n).value
      {
        match f.lines[n]
        case Blank =>
        case Malformed =>
          BadLineStops(f, n + 1, |f.lines|);
          BadFileStops(files, i + 1, |files|);
          assert files[..|files|] == files;
          return BadLine(f.name, n + 1);
        case NonObject =>
          BadLineStops(f, n + 1, |f.lines|);
          BadFileStops(files, i + 1, |files|);
          assert files[..|files|] == files;
          return BadLine(f.name, n + 1);
        case Object(e) =>
          events := events + [Sourced(e, f.name)];
      }
    }
    assert files[..|files|] == files;
    return Ok(Sort(events, EventLe));
  }

  lemma {:induction false} BadLineStops(f: File, n: nat, m: nat)
    requires n <= m <= |f.lines| && ReadLines(f, n).BadLine?
    ensures ReadLines(f, m) == ReadLines(f, n)
  {
    if n < m {
      BadLineStops(f, n, m - 1);
    }
  }

  lemma {:induction false} BadFileStops(files: seq<File>, i: nat, j: nat)
    requires i <= j <= |files| && Collect(files[..i]).BadLine?
    ensures Collect(files[..j]) == Collect(files[..i])
  {
    if i < j {
      BadFileStops(files, i, j - 1);
      assert files[..j][..j - 1] == files[..j - 1];
    }
  }

  /** Writes the merged lines, and says how many. */
  method Merge(files: seq<File>, name: string) returns (output: Result<File>, count: nat)
    ensures output == if Events(files).BadLine? then BadLine(Events(files).file, Events(files).line)
                      else Ok(MergedFile(name, Events(files).value))
    ensures count == if Events(files).Ok? then |Events(files).value| else 0
  {
    var events := ReadEvents(files);
    if events.BadLine? {
      return BadLine(events.file, events.line), 0;
    }
    var lines := [];
    for i := 0 to |events.value|
      invariant lines == MergedFile(name, events.value).lines[..i]
    {
      lines := lines + [Object(events.value[i])];
    }
    assert lines == MergedFile(name, events.value).lines;
    return Ok(File(name, lines)), |events.value|;
  }

  // ----- what reading yields -----

  /** A stable, sorted permutation of what was collected. */
  lemma EventsAreSortedStably(files: seq<File>, k: Event)
    requires Events(files).Ok?
    ensures var read, sorted := Collect(files).value, Events(files).value;
            && multiset(sorted) == multiset(read) && Sorted(sorted, EventLe)
            && Class(sorted, k, EventLe) == Class(read, k, EventLe)
  {
    EventLeIsTotal();
    SortPermutes(Collect(files).value, EventLe);
    SortSorts(Collect(files).value, EventLe);
    SortIsStable(Collect(files).value, k, EventLe);
  }

  /** Every event read says where it came from. */
  predicate AllSourced(events: seq<Event>) {
    forall i :: 0 <= i < |events| ==> events[i].sourceFile.Some?
  }

  lemma {:induction false} LinesAreSourced(f: File, count: nat)
    requires count <= |f.lines| && ReadLines(f, count).Ok?
    ensures AllSourced(ReadLines(f, count).value)
  {
    if count > 0 {
      LinesAreSourced(f, count - 1);
    }
  }

  lemma {:induction false} CollectedAreSourced(files: seq<File>)
    requires Collect(files).Ok?
    ensures AllSourced(Collect(files).value)
  {
    if files != [] {
      CollectedAreSourced(files[..|files| - 1]);
      LinesAreSourced(files[|files| - 1], |files[|files| - 1].lines|);
    }
  }

  lemma SortedAreSourced(events: seq<Event>)
    requires AllSourced(events)
    ensures AllSourced(Sort(events, EventLe))
  {
    SortPermutes(events, EventLe);
    forall i | 0 <= i < |Sort(events, EventLe)|
      ensures Sort(events, EventLe)[i].sourceFile.Some?
    {
      assert Sort(events, EventLe)[i] in multiset(events);
    }
  }

  lemma {:induction false} MergedLinesReadBack(name: string, events: seq<Event>, count: nat)
    requires AllSourced(events) && count <= |events|
    ensures ReadLines(MergedFile(name, events), count) == Ok(events[..count])
  {
    if count > 0 {
      MergedLinesReadBack(name, events, count - 1);
      assert events[..count] == events[..count - 1] + [events[count - 1]];
    }
  }

  /** A merged file keeps its events and their sources. */
  lemma MergedFileReadsBack(name: string, events: seq<Event>)
    requires AllSourced(events)
    ensures ReadFile(MergedFile(name, events)) == Ok(events)
  {
    MergedLinesReadBack(name, events, |events|);
    assert events[..|events|] == events;
  }

  lemma {:induction false} CollectConcat(a: seq<File>, b: seq<File>)
    ensures Collect(a + b) == if Collect(a).BadLine? then Collect(a)
                              else if Collect(b).BadLine? then Collect(b)
                              else Ok(Collect(a).value + Collect(b).value)
    decreases |b|
  {
    if b == [] {
      assert a + b == a;
      if Collect(a).Ok? {
        assert Collect(a).value + [] == Collect(a).value;
      }
    } else {
      var shorter := b[..|b| - 1];
      assert (a + b)[..|a + b| - 1] == a + shorter;
      CollectConcat(a, shorter);
      var last := ReadFile(b[|b| - 1]);
      if Collect(a).Ok? && Collect(shorter).Ok? && last.Ok? {
        assert Collect(a).value + (Collect(shorter).value + last.value)
            == (Collect(a).value + Collect(shorter).value) + last.value;
      }
    }
  }

  lemma CollectOne(f: File)
    ensures Collect([f]) == ReadFile(f)
  {
    assert [f][..0] == [];
    if ReadFile(f).Ok? {
      assert [] + ReadFile(f).value == ReadFile(f).value;
    }
  }

  lemma MergedIsCollected(name: string, files: seq<File>)
    requires Events(files).Ok?
    ensures Collect([MergedFile(name, Events(files).value)]) == Events(files)
  {
    CollectedAreSourced(files);
    SortedAreSourced(Collect(files).value);
    MergedFileReadsBack(name, Events(files).value);
    CollectOne(MergedFile(name, Events(files).value));
  }

  /**
   Merging in steps: putting a merged file in the place of the files it was made from changes nothing,
   event for event, wherever they stand among others.
   */
  lemma MergingInStepsIsMergingAtOnce(before: seq<File>, files: seq<File>, after: seq<File>, name: string)
    requires Events(files).Ok?
    ensures Events(before + [MergedFile(name, Events(files).value)] + after) == Events(before + files + after)
  {
    var merged := [MergedFile(name, Events(files).value)];
    MergedIsCollected(name, files);
    CollectConcat(before, merged);
    CollectConcat(before + merged, after);
    CollectConcat(before, files);
    CollectConcat(before + files, after);
    if Collect(before).Ok? && Collect(after).Ok? {
      SortedInPlace(Collect(before).value, Collect(files).value, Collect(after).value);
    }
  }

  lemma SortedInPlace(a: seq<Event>, b: seq<Event>, c: seq<Event>)
    ensures Sort(a + Sort(b, EventLe) + c, EventLe) == Sort(a + b + c, EventLe)
  {
    EventLeIsTotal();
    forall k
      ensures Class(a + Sort(b, EventLe) + c, k, EventLe) == Class(a + b + c, k, EventLe)
    {
      SortIsStable(b, k, EventLe);
      ClassConcat(a, b, k, EventLe);
      ClassConcat(a, Sort(b, EventLe), k, EventLe);
      ClassConcat(a + b, c, k, EventLe);
      ClassConcat(a + Sort(b, EventLe), c, k, EventLe);
    }
    SortOfSameClasses(a + Sort(b, EventLe) + c, a + b + c, EventLe);
  }

  /** Merging a merged file again changes nothing. */
  lemma RemergingIsIdempotent(files: seq<File>, name: string)
    requires Events(files).Ok?
    ensures Events([MergedFile(name, Events(files).value)]) == Events(files)
  {
    MergingInStepsIsMergingAtOnce([], files, [], name);
    assert [] + [MergedFile(name, Events(files).value)] + [] == [MergedFile(name, Events(files).value)];
    assert [] + files + [] == files;
  }
}
