/** Allowances and findings in terms of their fields: which entries are sound, what silences what, and what is stale. */
module AllowanceTerms {
  import opened Wrappers
  import opened Counting
  import opened StableSort
  import opened TextOrder
  import opened Allowances
  import opened AllowanceRecords

  // ----- loading -----

  function TextOr(value: Option<string>): string {
    match value
    case None => ""
    case Some(text) => text
  }

  function NumberOr(value: Option<int>): int {
    match value
    case None => 0
    case Some(n) => n
  }

  predicate NamesPolicy(e: Entry) {
    e.Object? && TextOr(e.code) in {"ARCH101", "ARCH102", "ARCH103", "ARCH104", "ARCH105", "ARCH106", "ARCH107"}
  }

  /** A path, and no glob. */
  predicate HasExactPath(e: Entry) {
    e.Object? && TextOr(e.path) != "" && forall c :: c in TextOr(e.path) ==> c !in {'*', '?', '[', ']'}
  }

  predicate HasPlace(e: Entry) {
    e.Object? && NumberOr(e.line) >= 1 && NumberOr(e.column) >= 1 && |TextOr(e.fingerprint)| == 20
  }

  predicate HasReason(e: Entry) {
    e.Object? && TextOr(e.reason) != "" && 3 <= NumberOr(e.removalPhase) <= 23
  }

  /** The faults of an entry are looked for in this order, and the first is named. */
  lemma FirstFaultIsNamed(e: Entry)
    ensures Fault(e) == if !e.Object? then Some(BadEntry)
                        else if !NamesPolicy(e) then Some(UnknownCode)
                        else if !HasExactPath(e) then Some(InexactPath)
                        else if !HasPlace(e) then Some(BadPosition)
                        else if !HasReason(e) then Some(NoReason)
                        else None
  {
  }

  /** An entry that is loaded is an allowance with its fields. */
  lemma EntryIsLoadedAs(e: Entry)
    requires e.Object?
    ensures AllowanceOf(e) == Allowance(TextOr(e.code), TextOr(e.path), NumberOr(e.line), NumberOr(e.column),
                                        TextOr(e.fingerprint), TextOr(e.reason), NumberOr(e.removalPhase))
  {
  }

  /** Two allowances repeat each other if they agree in all but reason and phase. */
  predicate SamePlace(a: Allowance, b: Allowance) {
    a.code == b.code && a.path == b.path && a.line == b.line && a.column == b.column && a.fingerprint == b.fingerprint
  }

  lemma RepeatedExactlyWhen(entries: seq<Entry>, i: nat)
    requires i < |entries| && entries[i].Object?
    ensures Repeats(entries, i) <==>
            exists j :: 0 <= j < i && entries[j].Object? && SamePlace(AllowanceOf(entries[j]), AllowanceOf(entries[i]))
  {
    if j :| 0 <= j < i && entries[j].Object? && SamePlace(AllowanceOf(entries[j]), AllowanceOf(entries[i])) {
      assert IdOfAllowance(AllowanceOf(entries[j])) == IdOfAllowance(AllowanceOf(entries[i]));
    }
  }

  // ----- applying -----

  /** The allowance names the very finding. */
  predicate Allows(a: Allowance, v: Violation) {
    a.code == v.code && a.path == v.path && a.line == v.line && a.column == v.column && a.fingerprint == v.fingerprint
  }

  lemma AllowedExactlyWhen(v: Violation, allowances: seq<Allowance>)
    ensures IsAllowed(IdOf(v), allowances) <==> exists a :: a in allowances && Allows(a, v)
  {
    if IsAllowed(IdOf(v), allowances) {
      var i :| 0 <= i < |allowances| && IdOfAllowance(allowances[i]) == IdOf(v);
      assert allowances[i] in allowances && Allows(allowances[i], v);
    }
    if a :| a in allowances && Allows(a, v) {
      var i :| 0 <= i < |allowances| && allowances[i] == a;
      assert IdOfAllowance(allowances[i]) == IdOf(v);
    }
  }

  /** Without a scope a finding is left, as often as it was made, unless an allowance names it. */
  lemma FindingIsSilencedExactlyWhen(findings: seq<Violation>, allowances: seq<Allowance>, hash: Hash, v: Violation)
    ensures multiset(Applied(findings, allowances, [], hash))[v]
         == if exists a :: a in allowances && Allows(a, v) then 0 else multiset(findings)[v]
  {
    FindingsAreReported(findings, allowances, hash, v);
    AllowedExactlyWhen(v, allowances);
  }

  /** The path is the prefix or lies below it; the root holds everything. */
  predicate LiesUnder(path: string, prefix: string) {
    prefix == "" || prefix == "." || path == prefix
    || (|path| > |prefix| && path[..|prefix|] == prefix && path[|prefix|] == '/')
  }

  lemma InScopeExactlyWhen(path: string, prefixes: seq<string>)
    ensures InScope(path, prefixes) <==> exists prefix :: prefix in prefixes && LiesUnder(path, prefix)
  {
    forall i | 0 <= i < |prefixes|
      ensures LiesUnder(path, prefixes[i]) <==>
              prefixes[i] in {"", "."} || path == prefixes[i] || StartsWith(path, prefixes[i] + "/")
    {
      var prefix := prefixes[i];
      if |path| > |prefix| {
        assert path[..|prefix| + 1] == path[..|prefix|] + [path[|prefix|]];
        assert (prefix + "/")[..|prefix|] == prefix;
        assert StartsWith(path, prefix + "/") ==> path[..|prefix|] == path[..|prefix| + 1][..|prefix|] == prefix;
      }
    }
    if prefix :| prefix in prefixes && LiesUnder(path, prefix) {
      var i :| 0 <= i < |prefixes| && prefixes[i] == prefix;
    }
  }

  /** The last allowance of its kind in the file. */
  predicate IsLastOfItsPlace(allowances: seq<Allowance>, k: nat) {
    k < |allowances| && forall j :: k < j < |allowances| ==> !SamePlace(allowances[j], allowances[k])
  }

  lemma {:induction false} LastAllowanceWins(allowances: seq<Allowance>, k: nat)
    requires IsLastOfItsPlace(allowances, k)
    ensures IdOfAllowance(allowances[k]) in Dict(allowances)
    ensures Dict(allowances)[IdOfAllowance(allowances[k])] == allowances[k]
    decreases |allowances|
  {
    var front, last := allowances[..|allowances| - 1], allowances[|allowances| - 1];
    if k < |front| {
      assert forall j :: k < j < |front| ==> front[j] == allowances[j];
      LastAllowanceWins(front, k);
      assert !SamePlace(last, allowances[k]);
    }
  }

  /** It is in scope, and no finding is named by it. */
  ghost predicate IsStaleAllowance(a: Allowance, findings: seq<Violation>, prefixes: seq<string>) {
    (exists prefix :: prefix in prefixes && LiesUnder(a.path, prefix)) && forall v :: v in findings ==> !Allows(a, v)
  }

  lemma FoundExactlyWhen(a: Allowance, findings: seq<Violation>)
    ensures IsFound(IdOfAllowance(a), findings) <==> exists v :: v in findings && Allows(a, v)
  {
    if IsFound(IdOfAllowance(a), findings) {
      var i :| 0 <= i < |findings| && IdOf(findings[i]) == IdOfAllowance(a);
      assert findings[i] in findings && Allows(a, findings[i]);
    }
    if v :| v in findings && Allows(a, v) {
      var i :| 0 <= i < |findings| && findings[i] == v;
      assert IdOf(findings[i]) == IdOfAllowance(a);
    }
  }

  /** What is reported for a stale allowance: its place, and why it was there. */
  function Staleness(a: Allowance, hash: Hash): Violation {
    Violation(a.path, a.line, a.column, "ARCH099",
              "stale architecture allowance for " + a.code + " must be removed or refreshed: " + a.reason,
              hash("ARCH099", a.path, a.line, a.column, a.fingerprint))
  }

  ghost predicate IsReportedStale(allowances: seq<Allowance>, findings: seq<Violation>, prefixes: seq<string>,
                                  hash: Hash, v: Violation) {
    exists k: nat :: IsLastOfItsPlace(allowances, k) && IsStaleAllowance(allowances[k], findings, prefixes)
                     && Staleness(allowances[k], hash) == v
  }

  lemma {:induction false} PlaceOfKey(allowances: seq<Allowance>, id: Identity) returns (k: nat)
    requires id in Dict(allowances)
    ensures IsLastOfItsPlace(allowances, k) && IdOfAllowance(allowances[k]) == id
    decreases |allowances|
  {
    var n := |allowances| - 1;
    if IdOfAllowance(allowances[n]) == id {
      k := n;
    } else {
      k := PlaceOfKey(allowances[..n], id);
      assert forall j :: k < j < n ==> allowances[..n][j] == allowances[j];
    }
  }

  /** With a scope, the report holds the findings no allowance names, and the stale allowances in scope. */
  lemma ReportedExactlyWhen(findings: seq<Violation>, allowances: seq<Allowance>, prefixes: seq<string>, hash: Hash,
                            v: Violation)
    requires prefixes != []
    ensures v in Applied(findings, allowances, prefixes, hash) <==>
            || (v in findings && !exists a :: a in allowances && Allows(a, v))
            || IsReportedStale(allowances, findings, prefixes, hash, v)
  {
    StaleAllowancesAreReported(findings, allowances, prefixes, hash, v);
    AllowedExactlyWhen(v, allowances);
    if id :| id in Dict(allowances) && !IsFound(id, findings) && InScope(Dict(allowances)[id].path, prefixes)
             && StaleOf(Dict(allowances)[id], hash) == v {
      var k := PlaceOfKey(allowances, id);
      LastAllowanceWins(allowances, k);
      StaleTerms(allowances[k], findings, prefixes);
    }
    if k: nat :| IsLastOfItsPlace(allowances, k) && IsStaleAllowance(allowances[k], findings, prefixes)
                 && Staleness(allowances[k], hash) == v {
      LastAllowanceWins(allowances, k);
      StaleTerms(allowances[k], findings, prefixes);
      assert IdOfAllowance(allowances[k]) in Dict(allowances);
    }
  }

  lemma StaleTerms(a: Allowance, findings: seq<Violation>, prefixes: seq<string>)
    ensures IsStaleAllowance(a, findings, prefixes) <==>
            !IsFound(IdOfAllowance(a), findings) && InScope(a.path, prefixes)
  {
    FoundExactlyWhen(a, findings);
    InScopeExactlyWhen(a.path, prefixes);
  }

  // ----- each once -----

  ghost predicate HasNoRepeats(s: seq<Identity>) {
    forall i, j :: 0 <= i < j < |s| ==> s[i] != s[j]
  }

  lemma {:induction false} OrderHasNoRepeats(allowances: seq<Allowance>)
    ensures HasNoRepeats(Order(allowances))
  {
    if allowances != [] {
      OrderHasNoRepeats(allowances[..|allowances| - 1]);
    }
  }

  lemma {:induction false} StaleIsCounted(order: seq<Identity>, allowed: map<Identity, Allowance>,
                                          matched: set<Identity>, prefixes: seq<string>, hash: Hash)
    ensures |Stale(order, allowed, matched, prefixes, hash)|
         == |Hits(order, (id: Identity) => IsStale(id, allowed, matched, prefixes))|
  {
    var stale := (id: Identity) => IsStale(id, allowed, matched, prefixes);
    if order == [] {
      assert Hits(order, stale) == {};
    } else {
      var front, last := order[..|order| - 1], order[|order| - 1];
      StaleIsCounted(front, allowed, matched, prefixes, hash);
      HitsGrow(front, last, stale);
      assert front + [last] == order;
    }
  }

  lemma {:induction false} UnallowedIsCounted(findings: seq<Violation>, allowed: set<Identity>)
    ensures |Unallowed(findings, allowed)| == |Hits(findings, (v: Violation) => IdOf(v) !in allowed)|
  {
    var left := (v: Violation) => IdOf(v) !in allowed;
    if findings == [] {
      assert Hits(findings, left) == {};
    } else {
      var front, last := findings[..|findings| - 1], findings[|findings| - 1];
      UnallowedIsCounted(front, allowed);
      HitsGrow(front, last, left);
      assert front + [last] == findings;
    }
  }

  /** The report is as long as there are findings left and stale identities, each of which comes once. */
  lemma ReportIsCounted(findings: seq<Violation>, allowances: seq<Allowance>, prefixes: seq<string>, hash: Hash)
    requires prefixes != []
    ensures var allowed := Dict(allowances);
            |Applied(findings, allowances, prefixes, hash)|
            == |Hits(findings, (v: Violation) => IdOf(v) !in allowed)|
               + |Hits(Order(allowances), (id: Identity) =>
                         IsStale(id, allowed, Matched(findings, allowed.Keys), prefixes))|
    ensures HasNoRepeats(Order(allowances))
  {
    var allowed := Dict(allowances);
    SortPermutes(Remaining(findings, allowances, prefixes, hash), ViolationLe);
    UnallowedIsCounted(findings, allowed.Keys);
    assert Hits(findings, (v: Violation) => IdOf(v) !in allowed.Keys)
        == Hits(findings, (v: Violation) => IdOf(v) !in allowed);
    StaleIsCounted(Order(allowances), allowed, Matched(findings, allowed.Keys), prefixes, hash);
    OrderHasNoRepeats(allowances);
  }

  // ----- the order of the report -----

  /** By path, line, column, code, message and fingerprint. */
  lemma ReportIsOrdered(findings: seq<Violation>, allowances: seq<Allowance>, prefixes: seq<string>, hash: Hash,
                        i: nat, j: nat)
    requires i < j < |Applied(findings, allowances, prefixes, hash)|
    ensures var report := Applied(findings, allowances, prefixes, hash);
            var a, b := report[i], report[j];
            && TextLe(a.path, b.path)
            && (a.path == b.path ==> a.line <= b.line)
            && (a.path == b.path && a.line == b.line ==> a.column <= b.column)
            && (a.path == b.path && a.line == b.line && a.column == b.column ==>
                  && TextLe(a.code, b.code)
                  && (a.code == b.code ==> TextLe(a.message, b.message))
                  && (a.code == b.code && a.message == b.message ==> TextLe(a.fingerprint, b.fingerprint)))
  {
    ReportIsSorted(findings, allowances, prefixes, hash);
    TextLeIsTotalOrder();
  }

  // ----- recording -----

  /** A record names the place of its finding, gives a reason that ends in its message, and a phase. */
  lemma RecordNamesItsFinding(v: Violation)
    requires IsPolicy(v)
    ensures var e := RecordOf(v);
            && Allows(AllowanceOf(e), v)
            && exists grounds: string :: grounds != "" && AllowanceOf(e).reason == grounds + ": " + v.message
    ensures AllowanceOf(RecordOf(v)).removalPhase
         == (match v.code
             case "ARCH102" => 17
             case "ARCH103" => 17
             case "ARCH104" => 23
             case "ARCH106" => 23
             case _ => 22)
  {
    assert GroundsFor(v.code).Some?;
    assert AllowanceOf(RecordOf(v)).reason == GroundsFor(v.code).value.reason + ": " + v.message;
  }
}
