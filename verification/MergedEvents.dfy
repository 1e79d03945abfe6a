/** Which events a merged file holds, how they are marked, and in which order, line by line. */
module MergedEvents {
  import opened Wrappers
  import opened StableSort
  import opened TextOrder
  import opened MergeTelemetry

  // ----- reading one file -----

  predicate IsBad(l: Line) {
    l.Malformed? || l.NonObject?
  }

  /** The number of the first bad line, or of lines if there is none. */
  predicate IsFirstBad(f: File, n: nat) {
    n <= |f.lines| && (forall i :: 0 <= i < n ==> !IsBad(f.lines[i])) && (n < |f.lines| ==> IsBad(f.lines[n]))
  }

  /** The positions of the events among the first lines. */
  function EventLines(f: File, count: nat): set<nat>
    requires count <= |f.lines|
  {
    set i: nat | i < count && f.lines[i].Object?
  }

  /** The event as it was, and marked with its file unless it had a mark. */
  predicate IsMarked(e: Event, file: string, marked: Event) {
    && marked.(sourceFile := e.sourceFile) == e
    && marked.sourceFile == Some(if e.sourceFile.Some? then e.sourceFile.value else file)
  }

  lemma LinesGrow(f: File, count: nat)
    requires 0 < count <= |f.lines|
    ensures EventLines(f, count) == EventLines(f, count - 1) + if f.lines[count - 1].Object? then {count - 1} else {}
    ensures |EventLines(f, count)| == |EventLines(f, count - 1)| + if f.lines[count - 1].Object? then 1 else 0
  {
    if !f.lines[count - 1].Object? {
      assert EventLines(f, count) == EventLines(f, count - 1);
    } else {
      assert count - 1 !in EventLines(f, count - 1);
      assert EventLines(f, count) == EventLines(f, count - 1) + {count - 1};
    }
  }

  ghost predicate AllGood(f: File, count: nat)
    requires count <= |f.lines|
  {
    forall i :: 0 <= i < count ==> !IsBad(f.lines[i])
  }

  lemma {:induction false} GoodLinesAreRead(f: File, count: nat)
    requires count <= |f.lines| && AllGood(f, count)
    ensures ReadLines(f, count).Ok? && |ReadLines(f, count).value| == |EventLines(f, count)|
  {
    if count == 0 {
      assert EventLines(f, 0) == {};
    } else {
      GoodLinesAreRead(f, count - 1);
      LinesGrow(f, count);
    }
  }

  /** The `i`-th line, if it is an event, is where the events before it leave off. */
  predicate IsInPlace(f: File, i: nat, events: seq<Event>)
    requires i < |f.lines| && f.lines[i].Object?
  {
    |EventLines(f, i)| < |events| && IsMarked(f.lines[i].event, f.name, events[|EventLines(f, i)|])
  }

  lemma {:induction false} EventIsInPlace(f: File, count: nat, i: nat)
    requires i < count <= |f.lines| && AllGood(f, count) && f.lines[i].Object?
    ensures ReadLines(f, count).Ok? && IsInPlace(f, i, ReadLines(f, count).value)
    decreases count
  {
    GoodLinesAreRead(f, count - 1);
    GoodLinesAreRead(f, count);
    if i < count - 1 {
      EventIsInPlace(f, count - 1, i);
    }
  }

  /** A file is read up to its first bad line, which is named. */
  lemma BadLineIsNamed(f: File, n: nat)
    requires IsFirstBad(f, n)
    ensures if n < |f.lines| then ReadFile(f) == BadLine(f.name, n + 1) else ReadFile(f).Ok?
  {
    GoodLinesAreRead(f, n);
    if n < |f.lines| {
      assert ReadLines(f, n + 1) == BadLine(f.name, n + 1);
      BadLineStops(f, n + 1, |f.lines|);
    }
  }

  /** If none is bad, the events are those of the lines, marked, in order, and no others. */
  lemma FileIsRead(f: File)
    requires AllGood(f, |f.lines|)
    ensures ReadFile(f).Ok? && |ReadFile(f).value| == |EventLines(f, |f.lines|)|
    ensures forall i: nat :: i < |f.lines| && f.lines[i].Object? ==> IsInPlace(f, i, ReadFile(f).value)
  {
    GoodLinesAreRead(f, |f.lines|);
    forall i: nat | i < |f.lines| && f.lines[i].Object?
      ensures IsInPlace(f, i, ReadFile(f).value)
    {
      EventIsInPlace(f, |f.lines|, i);
    }
  }

  // ----- reading all files -----

  /** Reading stops at the first file with a bad line; otherwise the files follow one another. */
  lemma FilesAreRead(front: seq<File>, f: File)
    ensures Collect(front + [f]) == if Collect(front).BadLine? then Collect(front)
                                    else if ReadFile(f).BadLine? then ReadFile(f)
                                    else Ok(Collect(front).value + ReadFile(f).value)
    ensures Collect([]) == Ok([])
  {
    CollectConcat(front, [f]);
    CollectOne(f);
  }

  // ----- the order -----

  function TextOf(x: Option<string>): string {
    match x
    case None => ""
    case Some(text) => text
  }

  function NumberOf(x: Option<int>): int {
    match x
    case None => 0
    case Some(n) => n
  }

  /** By timestamp, then session, then sequence number; what is missing counts as empty or nought. */
  lemma MergedAreOrdered(files: seq<File>, i: nat, j: nat)
    requires Events(files).Ok? && i < j < |Events(files).value|
    ensures var a, b := Events(files).value[i], Events(files).value[j];
            && TextLe(TextOf(a.timestamp), TextOf(b.timestamp))
            && (TextOf(a.timestamp) == TextOf(b.timestamp) ==>
                  && TextLe(TextOf(a.session), TextOf(b.session))
                  && (TextOf(a.session) == TextOf(b.session) ==> NumberOf(a.sequence) <= NumberOf(b.sequence)))
  {
    EventsAreSortedStably(files, Events(files).value[i]);
    TextLeIsTotalOrder();
  }
}
