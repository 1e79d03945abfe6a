/** Recording the findings of today as allowances, and what loading and applying that record then leaves. */
module AllowanceRecords {
  import opened Wrappers
  import opened StableSort
  import opened Allowances

  datatype Grounds = Grounds(reason: string, removalPhase: int)

  /** Defined for exactly the policy codes. */
  function GroundsFor(code: string): Option<Grounds> {
    if code == "ARCH101" then Some(Grounds("legacy mixed capability ownership", 22))
    else if code == "ARCH102" then Some(Grounds("legacy layer-direction dependency", 17))
    else if code == "ARCH103" then Some(Grounds("Phase 1 frozen runtime locator", 17))
    else if code == "ARCH104" then Some(Grounds("legacy package-barrel import", 23))
    else if code == "ARCH105" then Some(Grounds("legacy compatibility module with runtime behavior", 22))
    else if code == "ARCH106" then Some(Grounds("legacy package public surface", 23))
    else if code == "ARCH107" then Some(Grounds("legacy mixed-responsibility facade", 22))
    else None
  }

  predicate IsPolicy(v: Violation) {
    v.code in PolicyCodes
  }

  function RecordOf(v: Violation): Entry {
    var g := if GroundsFor(v.code).Some? then GroundsFor(v.code).value else Grounds("", 0);
    Object(Some(v.code), Some(v.path), Some(v.line), Some(v.column), Some(v.fingerprint),
           Some(g.reason + ": " + v.message), Some(g.removalPhase))
  }

  /** The findings with a policy code, in order. */
  function Policy(findings: seq<Violation>): seq<Violation> {
    if findings == [] then []
    else
      var before, last := Policy(findings[..|findings| - 1]), findings[|findings| - 1];
      if IsPolicy(last) then before + [last] else before
  }

  function NotPolicy(findings: seq<Violation>): seq<Violation> {
    if findings == [] then []
    else
      var before, last := NotPolicy(findings[..|findings| - 1]), findings[|findings| - 1];
      if IsPolicy(last) then before else before + [last]
  }

  function RecordsOf(findings: seq<Violation>): (r: seq<Entry>)
    ensures |r| == |findings|
  {
    seq(|findings|, i requires 0 <= i < |findings| => RecordOf(findings[i]))
  }

  function Records(findings: seq<Violation>): seq<Entry> {
    RecordsOf(Policy(Sort(findings, ViolationLe)))
  }

  method WriteRecords(findings: seq<Violation>) returns (records: seq<Entry>)
    ensures records == Records(findings)
  {
    records := [];
    var sorted := Sort(findings, ViolationLe);
    for i := 0 to |sorted|
      invariant records == RecordsOf(Policy(sorted[..i]))
    {
      assert sorted[..i + 1][..i] == sorted[..i];
      if GroundsFor(sorted[i].code).None? {
        continue;
      }
      records := records + [RecordOf(sorted[i])];
    }
    assert sorted[..|sorted|] == sorted;
  }

  /** What a recorded finding must satisfy for its record to be accepted. */
  predicate WellPlaced(v: Violation) {
    ExactPath(v.path) && v.line >= 1 && v.column >= 1 && |v.fingerprint| == 20
  }

  ghost predicate Distinct(findings: seq<Violation>) {
    forall i, j | 0 <= i < j < |findings| ::
      IsPolicy(findings[i]) && IsPolicy(findings[j]) ==> IdOf(findings[i]) != IdOf(findings[j])
  }

  ghost predicate AllWellPlaced(findings: seq<Violation>) {
    forall v :: v in findings && IsPolicy(v) ==> WellPlaced(v)
  }

  lemma RecordFacts(v: Violation)
    requires IsPolicy(v)
    ensures Fault(RecordOf(v)).None? <==> WellPlaced(v)
    ensures IdOfAllowance(AllowanceOf(RecordOf(v))) == IdOf(v)
  {
    assert GroundsFor(v.code).Some? && 3 <= GroundsFor(v.code).value.removalPhase <= 23;
  }

  // ----- how often an identity occurs -----

  function Occurrences(findings: seq<Violation>, id: Identity): nat {
    if findings == [] then 0
    else
      Occurrences(findings[..|findings| - 1], id) + if IdOf(findings[|findings| - 1]) == id then 1 else 0
  }

  lemma {:induction false} OccurrencesConcat(a: seq<Violation>, b: seq<Violation>, id: Identity)
    ensures Occurrences(a + b, id) == Occurrences(a, id) + Occurrences(b, id)
    decreases |b|
  {
    if b == [] {
      assert a + b == a;
    } else {
      OccurrencesConcat(a, b[..|b| - 1], id);
      assert (a + b)[..|a + b| - 1] == a + b[..|b| - 1];
    }
  }

  lemma {:induction false} OccurrencesInserted(x: Violation, s: seq<Violation>, id: Identity)
    ensures Occurrences(Insert(x, s, ViolationLe), id) == Occurrences([x], id) + Occurrences(s, id)
  {
    if s == [] || ViolationLe(x, s[0]) {
      OccurrencesConcat([x], s, id);
    } else {
      OccurrencesInserted(x, s[1..], id);
      OccurrencesConcat([s[0]], Insert(x, s[1..], ViolationLe), id);
      OccurrencesConcat([s[0]], s[1..], id);
      assert s == [s[0]] + s[1..];
    }
  }

  lemma {:induction false} OccurrencesSorted(s: seq<Violation>, id: Identity)
    ensures Occurrences(Sort(s, ViolationLe), id) == Occurrences(s, id)
  {
    if s != [] {
      OccurrencesSorted(s[1..], id);
      OccurrencesInserted(s[0], Sort(s[1..], ViolationLe), id);
      OccurrencesConcat([s[0]], s[1..], id);
      assert s == [s[0]] + s[1..];
    }
  }

  lemma {:induction false} OccurrencesOfPolicy(s: seq<Violation>, id: Identity)
    requires id.code in PolicyCodes
    ensures Occurrences(Policy(s), id) == Occurrences(s, id)
  {
    if s != [] {
      OccurrencesOfPolicy(s[..|s| - 1], id);
      OccurrencesConcat(Policy(s[..|s| - 1]), [s[|s| - 1]], id);
    }
  }

  lemma {:induction false} OccursWhenFound(s: seq<Violation>, id: Identity)
    ensures Occurrences(s, id) == 0 <==> forall i :: 0 <= i < |s| ==> IdOf(s[i]) != id
  {
    if s != [] {
      OccursWhenFound(s[..|s| - 1], id);
    }
  }

  ghost predicate AtMostOnce(findings: seq<Violation>) {
    forall id: Identity :: id.code in PolicyCodes ==> Occurrences(findings, id) <= 1
  }

  lemma {:induction false} DistinctAtMostOnce(s: seq<Violation>)
    requires Distinct(s)
    ensures AtMostOnce(s)
  {
    if s != [] {
      var front, last := s[..|s| - 1], s[|s| - 1];
      DistinctAtMostOnce(front);
      OccursWhenFound(front, IdOf(last));
    }
  }

  lemma {:induction false} AtMostOnceDistinct(s: seq<Violation>)
    requires AtMostOnce(s)
    ensures Distinct(s)
  {
    if s != [] {
      var front, last := s[..|s| - 1], s[|s| - 1];
      forall id: Identity | id.code in PolicyCodes
        ensures Occurrences(front, id) <= 1
      {
        assert Occurrences(s, id) <= 1;
      }
      AtMostOnceDistinct(front);
      if IsPolicy(last) {
        assert Occurrences(s, IdOf(last)) <= 1;
        OccursWhenFound(front, IdOf(last));
      }
    }
  }

  /** What is recorded has distinct identities exactly when the findings have. */
  lemma RecordedIsDistinct(findings: seq<Violation>)
    ensures Distinct(Policy(Sort(findings, ViolationLe))) <==> Distinct(findings)
  {
    var recorded := Policy(Sort(findings, ViolationLe));
    forall id: Identity | id.code in PolicyCodes
      ensures Occurrences(recorded, id) == Occurrences(findings, id)
    {
      OccurrencesSorted(findings, id);
      OccurrencesOfPolicy(Sort(findings, ViolationLe), id);
    }
    if Distinct(findings) {
      DistinctAtMostOnce(findings);
      AtMostOnceDistinct(recorded);
    }
    if Distinct(recorded) {
      DistinctAtMostOnce(recorded);
      AtMostOnceDistinct(findings);
    }
  }

  lemma {:induction false} PolicyIsWithin(s: seq<Violation>)
    ensures forall v :: v in Policy(s) <==> v in s && IsPolicy(v)
  {
    if s != [] {
      PolicyIsWithin(s[..|s| - 1]);
      assert s == s[..|s| - 1] + [s[|s| - 1]];
    }
  }

  lemma RecordedIsWithin(findings: seq<Violation>)
    ensures forall v :: v in Policy(Sort(findings, ViolationLe)) <==> v in findings && IsPolicy(v)
  {
    var sorted := Sort(findings, ViolationLe);
    PolicyIsWithin(sorted);
    SortPermutes(findings, ViolationLe);
    forall v
      ensures v in sorted <==> v in findings
    {
      assert v in sorted <==> v in multiset(sorted);
      assert v in findings <==> v in multiset(findings);
    }
  }

  // ----- loading what was recorded -----

  lemma RecordRepeats(recorded: seq<Violation>, i: nat)
    requires i < |recorded| && forall v :: v in recorded ==> IsPolicy(v)
    ensures Repeats(RecordsOf(recorded), i) <==> exists j :: 0 <= j < i && IdOf(recorded[j]) == IdOf(recorded[i])
  {
    var records := RecordsOf(recorded);
    forall j | 0 <= j <= i
      ensures records[j].Object? && IdOfAllowance(AllowanceOf(records[j])) == IdOf(recorded[j])
    {
      RecordFacts(recorded[j]);
    }
    if j :| 0 <= j < i && IdOf(recorded[j]) == IdOf(recorded[i]) {
      assert records[j].Object?;
    }
  }

  lemma RecordsAreAcceptable(recorded: seq<Violation>)
    requires forall v :: v in recorded ==> IsPolicy(v)
    ensures (forall i :: 0 <= i < |recorded| ==> Acceptable(RecordsOf(recorded), i))
            <==> Distinct(recorded) && AllWellPlaced(recorded)
  {
    var records := RecordsOf(recorded);
    forall i | 0 <= i < |recorded|
      ensures Acceptable(records, i) <==>
              WellPlaced(recorded[i]) && forall j :: 0 <= j < i ==> IdOf(recorded[j]) != IdOf(recorded[i])
    {
      RecordFacts(recorded[i]);
      RecordRepeats(recorded, i);
    }
    if Distinct(recorded) && AllWellPlaced(recorded) {
      forall i | 0 <= i < |recorded|
        ensures Acceptable(records, i)
      {
        assert recorded[i] in recorded;
      }
    }
    if forall i :: 0 <= i < |recorded| ==> Acceptable(records, i) {
      forall v | v in recorded
        ensures WellPlaced(v)
      {
        var i :| 0 <= i < |recorded| && recorded[i] == v;
        assert Acceptable(records, i);
      }
      forall i, j | 0 <= i < j < |recorded|
        ensures IdOf(recorded[i]) != IdOf(recorded[j])
      {
        assert Acceptable(records, j);
      }
    }
  }

  /** The record of some findings is accepted exactly when those it records are well placed and distinct. */
  lemma RecordsLoadExactlyWhen(findings: seq<Violation>, result: Loading)
    requires LoadsAs(Entries(Records(findings)), result)
    ensures result.Loaded? <==> Distinct(findings) && AllWellPlaced(findings)
  {
    var recorded := Policy(Sort(findings, ViolationLe));
    RecordedIsDistinct(findings);
    RecordedIsWithin(findings);
    RecordsAreAcceptable(recorded);
    if result.Rejected? {
      assert !Acceptable(RecordsOf(recorded), result.index);
    }
  }

  // ----- applying what was loaded -----

  lemma {:induction false} UnallowedIsNotPolicy(findings: seq<Violation>, allowed: set<Identity>)
    requires forall v :: v in findings ==> (IdOf(v) in allowed <==> IsPolicy(v))
    ensures Unallowed(findings, allowed) == NotPolicy(findings)
  {
    if findings != [] {
      UnallowedIsNotPolicy(findings[..|findings| - 1], allowed);
    }
  }

  lemma LoadedIdentities(findings: seq<Violation>, allowances: seq<Allowance>, id: Identity)
    requires LoadsAs(Entries(Records(findings)), Loaded(allowances))
    ensures IsAllowed(id, allowances) <==> id.code in PolicyCodes && IsFound(id, findings)
  {
    var recorded := Policy(Sort(findings, ViolationLe));
    RecordedIsWithin(findings);
    forall i | 0 <= i < |recorded|
      ensures IdOfAllowance(allowances[i]) == IdOf(recorded[i]) && recorded[i] in findings && IsPolicy(recorded[i])
    {
      assert recorded[i] in recorded;
      RecordFacts(recorded[i]);
    }
    if id.code in PolicyCodes && IsFound(id, findings) {
      var k :| 0 <= k < |findings| && IdOf(findings[k]) == id;
      assert findings[k] in recorded;
      var i :| 0 <= i < |recorded| && recorded[i] == findings[k];
      assert IdOfAllowance(allowances[i]) == id;
    }
    if IsAllowed(id, allowances) {
      var i :| 0 <= i < |allowances| && IdOfAllowance(allowances[i]) == id;
      var k :| 0 <= k < |findings| && findings[k] == recorded[i];
      assert IdOf(findings[k]) == id;
    }
  }

  lemma NothingIsStale(findings: seq<Violation>, allowances: seq<Allowance>, prefixes: seq<string>, hash: Hash)
    requires forall a :: a in allowances ==> IsFound(IdOfAllowance(a), findings)
    ensures var allowed := Dict(allowances);
            Stale(Order(allowances), allowed, Matched(findings, allowed.Keys), prefixes, hash) == []
  {
    var allowed := Dict(allowances);
    var matched := Matched(findings, allowed.Keys);
    var stale := Stale(Order(allowances), allowed, matched, prefixes, hash);
    if stale != [] {
      StaleReports(Order(allowances), allowed, matched, prefixes, hash, stale[0]);
      var id :| id in Order(allowances) && IsStale(id, allowed, matched, prefixes);
      DictIsAllowed(allowances, id);
      MatchedIsFound(findings, allowed.Keys, id);
      assert false;
    }
  }

  /** Applied to the findings it was made from, the record leaves exactly those without a policy code. */
  lemma RecordsRoundTrip(findings: seq<Violation>, allowances: seq<Allowance>, prefixes: seq<string>, hash: Hash)
    requires LoadsAs(Entries(Records(findings)), Loaded(allowances))
    ensures Applied(findings, allowances, prefixes, hash) == Sort(NotPolicy(findings), ViolationLe)
  {
    forall v | v in findings
      ensures IdOf(v) in Dict(allowances) <==> IsPolicy(v)
    {
      var i :| 0 <= i < |findings| && findings[i] == v;
      DictIsAllowed(allowances, IdOf(v));
      LoadedIdentities(findings, allowances, IdOf(v));
      assert IdOf(findings[i]) == IdOf(v);
    }
    UnallowedIsNotPolicy(findings, Dict(allowances).Keys);
    forall a | a in allowances
      ensures IsFound(IdOfAllowance(a), findings)
    {
      var i :| 0 <= i < |allowances| && allowances[i] == a;
      assert IdOfAllowance(allowances[i]) == IdOfAllowance(a);
      LoadedIdentities(findings, allowances, IdOfAllowance(a));
    }
    NothingIsStale(findings, allowances, prefixes, hash);
    assert Remaining(findings, allowances, prefixes, hash) == NotPolicy(findings);
  }
}
