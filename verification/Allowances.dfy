/**
 The ratchet of the architecture linter: recorded allowances silence the findings they name exactly, and an
 allowance that no longer matches anything in scope is itself reported. The hash behind a fingerprint is a parameter.
 */
module Allowances {
  import opened Wrappers
  import opened StableSort
  import opened TextOrder

  datatype Violation = Violation(path: string, line: int, column: int, code: string, message: string,
                                 fingerprint: string)

  datatype Allowance = Allowance(code: string, path: string, line: int, column: int, fingerprint: string,
                                 reason: string, removalPhase: int)

  datatype Identity = Identity(code: string, path: string, line: int, column: int, fingerprint: string)

  type Hash = (string, string, int, int, string) -> string

  function IdOf(v: Violation): Identity {
    Identity(v.code, v.path, v.line, v.column, v.fingerprint)
  }

  function IdOfAllowance(a: Allowance): Identity {
    Identity(a.code, a.path, a.line, a.column, a.fingerprint)
  }

  const PolicyCodes: set<string> :=
    {"ARCH101", "ARCH102", "ARCH103", "ARCH104", "ARCH105", "ARCH106", "ARCH107"}

  // ----- the order of violations: by path, line, column, code, message, fingerprint -----

  predicate TextsLe(a: Violation, b: Violation) {
    if a.code != b.code then TextLe(a.code, b.code)
    else if a.message != b.message then TextLe(a.message, b.message)
    else TextLe(a.fingerprint, b.fingerprint)
  }

  predicate ViolationLe(a: Violation, b: Violation) {
    if a.path != b.path then TextLe(a.path, b.path)
    else if a.line != b.line then a.line < b.line
    else if a.column != b.column then a.column < b.column
    else TextsLe(a, b)
  }

  lemma TextLeFacts(a: string, b: string, c: string)
    ensures TextLe(a, a) && (TextLe(a, b) || TextLe(b, a))
    ensures TextLe(a, b) && TextLe(b, a) ==> a == b
    ensures TextLe(a, b) && TextLe(b, c) ==> TextLe(a, c)
  {
    TextLeIsTotal(a, b);
    TextLeIsTotal(a, a);
    if TextLe(a, b) && TextLe(b, c) {
      TextLeIsTransitive(a, b, c);
    }
  }

  lemma TextsLeFacts(a: Violation, b: Violation, c: Violation)
    ensures TextsLe(a, a) && (TextsLe(a, b) || TextsLe(b, a))
    ensures TextsLe(a, b) && TextsLe(b, a) ==>
              a.code == b.code && a.message == b.message && a.fingerprint == b.fingerprint
    ensures TextsLe(a, b) && TextsLe(b, c) ==> TextsLe(a, c)
  {
    TextLeFacts(a.code, b.code, c.code);
    TextLeFacts(b.code, c.code, a.code);
    TextLeFacts(a.message, b.message, c.message);
    TextLeFacts(b.message, c.message, a.message);
    TextLeFacts(a.fingerprint, b.fingerprint, c.fingerprint);
  }

  lemma ViolationLeFacts(a: Violation, b: Violation, c: Violation)
    ensures ViolationLe(a, a) && (ViolationLe(a, b) || ViolationLe(b, a))
    ensures ViolationLe(a, b) && ViolationLe(b, a) ==> a == b
    ensures ViolationLe(a, b) && ViolationLe(b, c) ==> ViolationLe(a, c)
  {
    TextLeFacts(a.path, b.path, c.path);
    TextLeFacts(b.path, c.path, a.path);
    TextsLeFacts(a, b, c);
  }

  lemma ViolationLeIsTotalOrder()
    ensures TotalOrder(ViolationLe)
  {
    forall a, b, c
      ensures ViolationLe(a, a) && (ViolationLe(a, b) || ViolationLe(b, a))
      ensures ViolationLe(a, b) && ViolationLe(b, a) ==> a == b
      ensures ViolationLe(a, b) && ViolationLe(b, c) ==> ViolationLe(a, c)
    {
      ViolationLeFacts(a, b, c);
    }
  }

  // ----- loading -----

  /** One entry of the file; a key may be missing. */
  datatype Entry =
    | NotAnObject
    | Object(code: Option<string>, path: Option<string>, line: Option<int>, column: Option<int>,
             fingerprint: Option<string>, reason: Option<string>, removalPhase: Option<int>)

  datatype File = Absent | WrongSchema | Entries(entries: seq<Entry>)

  datatype Refusal = BadSchema | BadEntry | UnknownCode | InexactPath | BadPosition | NoReason | Duplicate

  datatype Loading = Loaded(allowances: seq<Allowance>) | Rejected(index: nat, why: Refusal)

  function Text(value: Option<string>): string {
    if value.Some? then value.value else ""
  }

  function Number(value: Option<int>): int {
    if value.Some? then value.value else 0
  }

  function AllowanceOf(e: Entry): Allowance
    requires e.Object?
  {
    Allowance(Text(e.code), Text(e.path), Number(e.line), Number(e.column), Text(e.fingerprint), Text(e.reason),
              Number(e.removalPhase))
  }

  predicate ExactPath(path: string) {
    path != "" && '*' !in path && '?' !in path && '[' !in path && ']' !in path
  }

  /** What is wrong with an entry taken by itself. */
  function Fault(e: Entry): Option<Refusal> {
    if e.NotAnObject? then Some(BadEntry)
    else
      var a := AllowanceOf(e);
      if a.code !in PolicyCodes then Some(UnknownCode)
      else if !ExactPath(a.path) then Some(InexactPath)
      else if a.line < 1 || a.column < 1 || |a.fingerprint| != 20 then Some(BadPosition)
      else if a.reason == "" || !(3 <= a.removalPhase <= 23) then Some(NoReason)
      else None
  }

  predicate Repeats(entries: seq<Entry>, i: nat)
    requires i < |entries| && entries[i].Object?
  {
    exists j :: 0 <= j < i && entries[j].Object?
                && IdOfAllowance(AllowanceOf(entries[j])) == IdOfAllowance(AllowanceOf(entries[i]))
  }

  /** The entry is sound and names nothing an earlier entry names. */
  predicate Acceptable(entries: seq<Entry>, i: nat)
    requires i < |entries|
  {
    Fault(entries[i]).None? && !Repeats(entries, i)
  }

  /** The file is accepted whole or refused at its first unacceptable entry. */
  ghost predicate LoadsAs(file: File, result: Loading) {
    match file
    case Absent => result == Loaded([])
    case WrongSchema => result == Rejected(0, BadSchema)
    case Entries(entries) =>
      match result
      case Loaded(allowances) =>
        && |allowances| == |entries|
        && (forall i | 0 <= i < |entries| :: Acceptable(entries, i) && allowances[i] == AllowanceOf(entries[i]))
      case Rejected(index, why) =>
        && index < |entries|
        && (forall i :: 0 <= i < index ==> Acceptable(entries, i))
        && !Acceptable(entries, index)
        && why == if Fault(entries[index]).Some? then Fault(entries[index]).value else Duplicate
  }

  method LoadAllowances(file: File) returns (result: Loading)
    ensures LoadsAs(file, result)
  {
    match file {
      case Absent => return Loaded([]);
      case WrongSchema => return Rejected(0, BadSchema);
      case Entries(entries) =>
        var allowances: seq<Allowance> := [];
        var identities: set<Identity> := {};
        for i := 0 to |entries|
          invariant |allowances| == i
          invariant forall k | 0 <= k < i :: Acceptable(entries, k) && allowances[k] == AllowanceOf(entries[k])
          invariant forall x :: x in identities <==>
                      exists k :: 0 <= k < i && entries[k].Object? && IdOfAllowance(AllowanceOf(entries[k])) == x
        {
          var fault := Fault(entries[i]);
          if fault.Some? {
            return Rejected(i, fault.value);
          }
          var allowance := AllowanceOf(entries[i]);
          var identity := IdOfAllowance(allowance);
          if identity in identities {
            return Rejected(i, Duplicate);
          }
          identities := identities + {identity};
          allowances := allowances + [allowance];
        }
        return Loaded(allowances);
    }
  }

  lemma LoadingIsDetermined(file: File, a: Loading, b: Loading)
    requires LoadsAs(file, a) && LoadsAs(file, b)
    ensures a == b
  {
    if file.Entries? && a.Rejected? && b.Rejected? {
      assert !Acceptable(file.entries, a.index) && !Acceptable(file.entries, b.index);
      assert a.index == b.index;
    }
  }

  // ----- applying -----

  predicate StartsWith(text: string, prefix: string) {
    |prefix| <= |text| && text[..|prefix|] == prefix
  }

  predicate InScope(path: string, prefixes: seq<string>) {
    exists i :: 0 <= i < |prefixes|
                && (prefixes[i] in {"", "."} || path == prefixes[i] || StartsWith(path, prefixes[i] + "/"))
  }

  function StaleOf(a: Allowance, hash: Hash): Violation {
    Violation(a.path, a.line, a.column, "ARCH099",
              "stale architecture allowance for " + a.code + " must be removed or refreshed: " + a.reason,
              hash("ARCH099", a.path, a.line, a.column, a.fingerprint))
  }

  /** The dictionary of allowances: the last one for an identity wins, its place is that of the first. */
  function Dict(allowances: seq<Allowance>): map<Identity, Allowance> {
    if allowances == [] then map[]
    else
      var last := allowances[|allowances| - 1];
      Dict(allowances[..|allowances| - 1])[IdOfAllowance(last) := last]
  }

  function Order(allowances: seq<Allowance>): seq<Identity> {
    if allowances == [] then []
    else
      var before, last := Order(allowances[..|allowances| - 1]), IdOfAllowance(allowances[|allowances| - 1]);
      if last in before then before else before + [last]
  }

  function Unallowed(findings: seq<Violation>, allowed: set<Identity>): seq<Violation> {
    if findings == [] then []
    else
      var before, last := Unallowed(findings[..|findings| - 1], allowed), findings[|findings| - 1];
      if IdOf(last) in allowed then before else before + [last]
  }

  function Matched(findings: seq<Violation>, allowed: set<Identity>): set<Identity> {
    if findings == [] then {}
    else
      var before, last := Matched(findings[..|findings| - 1], allowed), IdOf(findings[|findings| - 1]);
      if last in allowed then before + {last} else before
  }

  predicate IsStale(id: Identity, allowed: map<Identity, Allowance>, matched: set<Identity>, prefixes: seq<string>) {
    id in allowed && id !in matched && InScope(allowed[id].path, prefixes)
  }

  function Stale(order: seq<Identity>, allowed: map<Identity, Allowance>, matched: set<Identity>,
                 prefixes: seq<string>, hash: Hash): seq<Violation> {
    if order == [] then []
    else
      var before, last := Stale(order[..|order| - 1], allowed, matched, prefixes, hash), order[|order| - 1];
      if IsStale(last, allowed, matched, prefixes) then before + [StaleOf(allowed[last], hash)] else before
  }

  function Remaining(findings: seq<Violation>, allowances: seq<Allowance>, prefixes: seq<string>, hash: Hash)
    : seq<Violation>
  {
    var allowed := Dict(allowances);
    Unallowed(findings, allowed.Keys) +
    if prefixes == [] then []
    else Stale(Order(allowances), allowed, Matched(findings, allowed.Keys), prefixes, hash)
  }

  function Applied(findings: seq<Violation>, allowances: seq<Allowance>, prefixes: seq<string>, hash: Hash)
    : seq<Violation>
  {
    Sort(Remaining(findings, allowances, prefixes, hash), ViolationLe)
  }

  method Index(allowances: seq<Allowance>) returns (allowed: map<Identity, Allowance>, order: seq<Identity>)
    ensures allowed == Dict(allowances) && order == Order(allowances)
  {
    allowed, order := map[], [];
    for i := 0 to |allowances|
      invariant allowed == Dict(allowances[..i]) && order == Order(allowances[..i])
      invariant forall id :: id in order <==> id in allowed
    {
      assert allowances[..i + 1][..i] == allowances[..i];
      var identity := IdOfAllowance(allowances[i]);
      if identity !in allowed {
        order := order + [identity];
      }
      allowed := allowed[identity := allowances[i]];
    }
    assert allowances[..|allowances|] == allowances;
  }

  method FindStale(order: seq<Identity>, allowed: map<Identity, Allowance>, matched: set<Identity>,
                   prefixes: seq<string>, hash: Hash) returns (stale: seq<Violation>)
    requires forall id :: id in order ==> id in allowed
    ensures stale == Stale(order, allowed, matched, prefixes, hash)
  {
    stale := [];
    for i := 0 to |order|
      invariant stale == Stale(order[..i], allowed, matched, prefixes, hash)
    {
      assert order[..i + 1][..i] == order[..i];
      if order[i] in matched || !InScope(allowed[order[i]].path, prefixes) {
        continue;
      }
      stale := stale + [StaleOf(allowed[order[i]], hash)];
    }
    assert order[..|order|] == order;
  }

  method ApplyAllowances(findings: seq<Violation>, allowances: seq<Allowance>, prefixes: seq<string>, hash: Hash)
    returns (result: seq<Violation>)
    ensures result == Applied(findings, allowances, prefixes, hash)
  {
    var allowed, order := Index(allowances);
    var matched: set<Identity> := {};
    var remaining: seq<Violation> := [];
    for i := 0 to |findings|
      invariant matched == Matched(findings[..i], allowed.Keys)
      invariant remaining == Unallowed(findings[..i], allowed.Keys)
    {
      assert findings[..i + 1][..i] == findings[..i];
      if IdOf(findings[i]) in allowed {
        matched := matched + {IdOf(findings[i])};
      } else {
        remaining := remaining + [findings[i]];
      }
    }
    assert findings[..|findings|] == findings;
    if prefixes != [] {
      OrderIsKeys(allowances);
      var stale := FindStale(order, allowed, matched, prefixes, hash);
      remaining := remaining + stale;
    }
    assert remaining == Remaining(findings, allowances, prefixes, hash);
    result := Sort(remaining, ViolationLe);
  }

  // ----- what is left -----

  lemma {:induction false} OrderIsKeys(allowances: seq<Allowance>)
    ensures forall id :: id in Order(allowances) <==> id in Dict(allowances)
  {
    if allowances != [] {
      OrderIsKeys(allowances[..|allowances| - 1]);
    }
  }

  predicate IsAllowed(id: Identity, allowances: seq<Allowance>) {
    exists i :: 0 <= i < |allowances| && IdOfAllowance(allowances[i]) == id
  }

  predicate IsFound(id: Identity, findings: seq<Violation>) {
    exists i :: 0 <= i < |findings| && IdOf(findings[i]) == id
  }

  lemma {:induction false} DictIsAllowed(allowances: seq<Allowance>, id: Identity)
    ensures id in Dict(allowances) <==> IsAllowed(id, allowances)
    ensures id in Dict(allowances) ==> Dict(allowances)[id] in allowances && IdOfAllowance(Dict(allowances)[id]) == id
  {
    if allowances != [] {
      var front, last := allowances[..|allowances| - 1], allowances[|allowances| - 1];
      DictIsAllowed(front, id);
      if IsAllowed(id, allowances) && IdOfAllowance(last) != id {
        var i :| 0 <= i < |allowances| && IdOfAllowance(allowances[i]) == id;
        assert front[i] == allowances[i];
      }
      if IsAllowed(id, front) {
        var i :| 0 <= i < |front| && IdOfAllowance(front[i]) == id;
        assert allowances[i] == front[i];
      }
    }
  }

  lemma {:induction false} MatchedIsFound(findings: seq<Violation>, allowed: set<Identity>, id: Identity)
    ensures id in Matched(findings, allowed) <==> id in allowed && IsFound(id, findings)
  {
    if findings != [] {
      var front, last := findings[..|findings| - 1], findings[|findings| - 1];
      MatchedIsFound(front, allowed, id);
      if IsFound(id, findings) && IdOf(last) != id {
        var i :| 0 <= i < |findings| && IdOf(findings[i]) == id;
        assert front[i] == findings[i];
      }
      if IsFound(id, front) {
        var i :| 0 <= i < |front| && IdOf(front[i]) == id;
        assert findings[i] == front[i];
      }
    }
  }

  lemma {:induction false} UnallowedKeeps(findings: seq<Violation>, allowed: set<Identity>, v: Violation)
    ensures multiset(Unallowed(findings, allowed))[v] == if IdOf(v) in allowed then 0 else multiset(findings)[v]
  {
    if findings != [] {
      UnallowedKeeps(findings[..|findings| - 1], allowed, v);
      assert findings == findings[..|findings| - 1] + [findings[|findings| - 1]];
    }
  }

  lemma {:induction false} StaleReports(order: seq<Identity>, allowed: map<Identity, Allowance>,
                                        matched: set<Identity>, prefixes: seq<string>, hash: Hash, v: Violation)
    ensures v in Stale(order, allowed, matched, prefixes, hash) <==>
            exists id :: id in order && IsStale(id, allowed, matched, prefixes) && StaleOf(allowed[id], hash) == v
  {
    if order != [] {
      var front, last := order[..|order| - 1], order[|order| - 1];
      StaleReports(front, allowed, matched, prefixes, hash, v);
      assert order == front + [last];
    }
  }

  /** A finding is reported, as often as it was found, exactly when no allowance names it. */
  lemma FindingsAreReported(findings: seq<Violation>, allowances: seq<Allowance>, hash: Hash, v: Violation)
    ensures multiset(Applied(findings, allowances, [], hash))[v]
         == if IsAllowed(IdOf(v), allowances) then 0 else multiset(findings)[v]
  {
    SortPermutes(Remaining(findings, allowances, [], hash), ViolationLe);
    UnallowedKeeps(findings, Dict(allowances).Keys, v);
    DictIsAllowed(allowances, IdOf(v));
  }

  /** In a run with a scope, every unmatched allowance in scope is reported besides. */
  lemma StaleAllowancesAreReported(findings: seq<Violation>, allowances: seq<Allowance>, prefixes: seq<string>,
                                   hash: Hash, v: Violation)
    requires prefixes != []
    ensures v in Applied(findings, allowances, prefixes, hash) <==>
            || (v in findings && !IsAllowed(IdOf(v), allowances))
            || (exists id :: id in Dict(allowances) && !IsFound(id, findings)
                             && InScope(Dict(allowances)[id].path, prefixes)
                             && StaleOf(Dict(allowances)[id], hash) == v)
  {
    var allowed := Dict(allowances);
    var matched := Matched(findings, allowed.Keys);
    var unallowed := Unallowed(findings, allowed.Keys);
    var stale := Stale(Order(allowances), allowed, matched, prefixes, hash);
    SortPermutes(Remaining(findings, allowances, prefixes, hash), ViolationLe);
    UnallowedKeeps(findings, allowed.Keys, v);
    DictIsAllowed(allowances, IdOf(v));
    StaleReports(Order(allowances), allowed, matched, prefixes, hash, v);
    OrderIsKeys(allowances);
    forall id
      ensures IsStale(id, allowed, matched, prefixes) <==>
              id in allowed && !IsFound(id, findings) && InScope(allowed[id].path, prefixes)
    {
      MatchedIsFound(findings, allowed.Keys, id);
    }
    var r := Applied(findings, allowances, prefixes, hash);
    assert v in r <==> v in multiset(r);
    assert multiset(r) == multiset(unallowed + stale);
    assert v in unallowed <==> multiset(unallowed)[v] > 0;
    assert v in findings <==> multiset(findings)[v] > 0;
  }

  /** Nothing is left exactly when every finding is allowed and every allowance in scope still matches one. */
  lemma CleanExactlyWhen(findings: seq<Violation>, allowances: seq<Allowance>, prefixes: seq<string>, hash: Hash)
    requires prefixes != []
    ensures Applied(findings, allowances, prefixes, hash) == [] <==>
            && (forall v :: v in findings ==> IsAllowed(IdOf(v), allowances))
            && (forall a :: a in allowances && InScope(a.path, prefixes) ==> IsFound(IdOfAllowance(a), findings))
  {
    var r := Applied(findings, allowances, prefixes, hash);
    if r == [] {
      forall v | v in findings
        ensures IsAllowed(IdOf(v), allowances)
      {
        StaleAllowancesAreReported(findings, allowances, prefixes, hash, v);
      }
      forall a | a in allowances && InScope(a.path, prefixes)
        ensures IsFound(IdOfAllowance(a), findings)
      {
        var id := IdOfAllowance(a);
        DictIsAllowed(allowances, id);
        StaleAllowancesAreReported(findings, allowances, prefixes, hash, StaleOf(Dict(allowances)[id], hash));
      }
    } else {
      StaleAllowancesAreReported(findings, allowances, prefixes, hash, r[0]);
      if r[0] !in findings || IsAllowed(IdOf(r[0]), allowances) {
        var id :| id in Dict(allowances) && !IsFound(id, findings) && InScope(Dict(allowances)[id].path, prefixes);
        DictIsAllowed(allowances, id);
      }
    }
  }

  lemma ReportIsSorted(findings: seq<Violation>, allowances: seq<Allowance>, prefixes: seq<string>, hash: Hash)
    ensures Sorted(Applied(findings, allowances, prefixes, hash), ViolationLe)
  {
    ViolationLeIsTotalOrder();
    SortSorts(Remaining(findings, allowances, prefixes, hash), ViolationLe);
  }

  /** The report does not depend on the order in which the findings were made. */
  lemma ReportIgnoresOrder(a: seq<Violation>, b: seq<Violation>, allowances: seq<Allowance>, prefixes: seq<string>,
                           hash: Hash)
    requires multiset(a) == multiset(b)
    ensures Applied(a, allowances, prefixes, hash) == Applied(b, allowances, prefixes, hash)
  {
    var keys := Dict(allowances).Keys;
    forall v
      ensures multiset(Unallowed(a, keys))[v] == multiset(Unallowed(b, keys))[v]
    {
      UnallowedKeeps(a, keys, v);
      UnallowedKeeps(b, keys, v);
    }
    assert multiset(Unallowed(a, keys)) == multiset(Unallowed(b, keys));
    forall id
      ensures id in Matched(a, keys) <==> id in Matched(b, keys)
    {
      MatchedIsFound(a, keys, id);
      MatchedIsFound(b, keys, id);
      FoundInPermutation(a, b, id);
    }
    assert Matched(a, keys) == Matched(b, keys);
    ViolationLeIsTotalOrder();
    SortOfPermutation(Remaining(a, allowances, prefixes, hash), Remaining(b, allowances, prefixes, hash), ViolationLe);
  }

  lemma FoundInPermutation(a: seq<Violation>, b: seq<Violation>, id: Identity)
    requires multiset(a) == multiset(b)
    ensures IsFound(id, a) <==> IsFound(id, b)
  {
    if i :| 0 <= i < |a| && IdOf(a[i]) == id {
      assert a[i] in multiset(b);
    }
    if i :| 0 <= i < |b| && IdOf(b[i]) == id {
      assert b[i] in multiset(a);
    }
  }
}
