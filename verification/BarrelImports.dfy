/**
 Rewriting imports through a package's `__init__` into imports from the modules that define the names. A directory
 is the sequence of its path components; a source is a sequence of rows, each holding the statements that share a
 physical line.
 */
module BarrelImports {
  import opened Wrappers

  type Dir = seq<string>

  /** One name bound at the top of an `__init__`; a re-export is one alias of a `from` import. */
  datatype Export = Reexport(level: nat, target: seq<string>, name: string, local: string) | Own(local: string)

  /** Where absolute imports start, the packages with what their `__init__` binds, and the module files. */
  datatype Tree = Tree(root: Dir, inits: map<Dir, seq<Export>>, modules: set<Dir>)

  datatype Alias = Alias(name: string, asname: Option<string>)

  datatype Statement = From(level: nat, target: seq<string>, names: seq<Alias>) | Other(id: int)

  type Row = seq<Statement>

  // ----- the rewriting -----

  function Up(d: Dir, n: nat): Dir {
    if n == 0 || d == [] then d else Up(d[..|d| - 1], n - 1)
  }

  function Local(a: Alias): string {
    if a.asname.Some? then a.asname.value else a.name
  }

  function Renaming(a: Alias): Option<string> {
    if a.asname == Some(a.name) then None else a.asname
  }

  function Steps(level: nat): nat {
    if level == 0 then 0 else level - 1
  }

  /** Where the rewriter looks for the package, for absolute imports too. */
  function SearchDir(fileDir: Dir, s: Statement): Dir
    requires s.From?
  {
    Up(fileDir, Steps(s.level)) + s.target
  }

  function PackageDir(tree: Tree, fileDir: Dir, s: Statement): Option<Dir>
    requires s.From?
  {
    var d := SearchDir(fileDir, s);
    if d in tree.inits && d !in tree.modules then Some(d) else None
  }

  method PackageDirForImport(tree: Tree, fileDir: Dir, s: Statement) returns (r: Option<Dir>)
    requires s.From?
    ensures r == PackageDir(tree, fileDir, s)
  {
    var directory := fileDir;
    for i := 0 to Steps(s.level)
      invariant Up(fileDir, Steps(s.level)) == Up(directory, Steps(s.level) - i)
    {
      if directory != [] {
        directory := directory[..|directory| - 1];
      }
    }
    directory := directory + s.target;
    if directory !in tree.inits || directory in tree.modules {
      return None;
    }
    r := Some(directory);
  }

  /** The module named by the first import in an `__init__` that exports the symbol. */
  function Leaf(exports: seq<Export>, symbol: string): Option<seq<string>> {
    if exports == [] then None
    else if exports[0].Reexport? && exports[0].target != [] && exports[0].local == symbol then Some(exports[0].target)
    else Leaf(exports[1..], symbol)
  }

  /** The table of leaves has one entry for a name: that of its last alias. */
  function LeafByName(exports: seq<Export>, names: seq<Alias>, name: string): Option<seq<string>> {
    if names == [] then None
    else
      var last := names[|names| - 1];
      if last.name == name then Leaf(exports, Local(last)) else LeafByName(exports, names[..|names| - 1], name)
  }

  predicate Rewritable(tree: Tree, fileDir: Dir, s: Statement) {
    && s.From? && PackageDir(tree, fileDir, s).Some?
    && exists i :: 0 <= i < |s.names| && LeafByName(tree.inits[SearchDir(fileDir, s)], s.names, s.names[i].name).Some?
  }

  function Line(s: Statement, a: Alias, leaf: Option<seq<string>>): Statement
    requires s.From?
  {
    From(s.level, if leaf.Some? then s.target + leaf.value else s.target, [Alias(a.name, Renaming(a))])
  }

  function LineAt(exports: seq<Export>, s: Statement, k: nat): Statement
    requires s.From? && k < |s.names|
  {
    Line(s, s.names[k], LeafByName(exports, s.names, s.names[k].name))
  }

  /** One import for each of the first `count` names, each on a row of its own. */
  function Lines(exports: seq<Export>, s: Statement, count: nat): (r: seq<Row>)
    requires s.From? && count <= |s.names|
    ensures |r| == count
  {
    if count == 0 then [] else Lines(exports, s, count - 1) + [[LineAt(exports, s, count - 1)]]
  }

  function LinesFor(tree: Tree, fileDir: Dir, s: Statement): seq<Row>
    requires Rewritable(tree, fileDir, s)
  {
    Lines(tree.inits[SearchDir(fileDir, s)], s, |s.names|)
  }

  function FirstIn(tree: Tree, fileDir: Dir, row: Row): (r: Option<Statement>)
    ensures r.Some? ==> r.value in row && Rewritable(tree, fileDir, r.value)
    ensures r.None? ==> forall s :: s in row ==> !Rewritable(tree, fileDir, s)
  {
    if row == [] then None
    else if Rewritable(tree, fileDir, row[0]) then Some(row[0])
    else FirstIn(tree, fileDir, row[1..])
  }

  /** The first import that can be rewritten takes its whole row with it. */
  function Step(tree: Tree, fileDir: Dir, rows: seq<Row>): Option<seq<Row>> {
    if rows == [] then None
    else match FirstIn(tree, fileDir, rows[0])
      case Some(s) => Some(LinesFor(tree, fileDir, s) + rows[1..])
      case None =>
        var rest := Step(tree, fileDir, rows[1..]);
        if rest.None? then None else Some([rows[0]] + rest.value)
  }

  /** The row the next step replaces. */
  function TakenRow(tree: Tree, fileDir: Dir, rows: seq<Row>): (r: Row)
    requires Step(tree, fileDir, rows).Some?
    ensures FirstIn(tree, fileDir, r).Some? && r in rows
  {
    if FirstIn(tree, fileDir, rows[0]).Some? then rows[0] else TakenRow(tree, fileDir, rows[1..])
  }

  // ----- every step deepens an import -----

  ghost function Longest(dirs: set<Dir>): (r: nat)
    ensures forall d :: d in dirs ==> |d| <= r
  {
    if dirs == {} then 0
    else
      var d :| d in dirs;
      var rest := Longest(dirs - {d});
      if |d| > rest then |d| else rest
  }

  /** How much deeper than `length` a package directory can still be. */
  ghost function Room(tree: Tree, length: nat): nat {
    var deepest := Longest(tree.inits.Keys);
    if length <= deepest then deepest + 1 - length else 0
  }

  ghost function Times(n: nat, room: nat): nat {
    if n == 0 then 0 else Times(n - 1, room) + room
  }

  ghost function Weight(tree: Tree, fileDir: Dir, s: Statement): nat {
    if s.Other? then 0 else Times(|s.names|, Room(tree, |SearchDir(fileDir, s)|))
  }

  ghost function RowWeight(tree: Tree, fileDir: Dir, row: Row): nat {
    if row == [] then 0 else Weight(tree, fileDir, row[0]) + RowWeight(tree, fileDir, row[1..])
  }

  ghost function Measure(tree: Tree, fileDir: Dir, rows: seq<Row>): nat {
    if rows == [] then 0 else RowWeight(tree, fileDir, rows[0]) + Measure(tree, fileDir, rows[1..])
  }

  lemma {:induction false} MeasureConcat(tree: Tree, fileDir: Dir, a: seq<Row>, b: seq<Row>)
    ensures Measure(tree, fileDir, a + b) == Measure(tree, fileDir, a) + Measure(tree, fileDir, b)
  {
    if a == [] {
      assert a + b == b;
    } else {
      assert (a + b)[1..] == a[1..] + b;
      MeasureConcat(tree, fileDir, a[1..], b);
    }
  }

  lemma WeightOfOne(tree: Tree, fileDir: Dir, s: Statement)
    ensures Measure(tree, fileDir, [[s]]) == Weight(tree, fileDir, s)
  {
    var row: Row := [s];
    var rows: seq<Row> := [row];
    assert row[1..] == [] && rows[1..] == [];
    assert RowWeight(tree, fileDir, row) == Weight(tree, fileDir, row[0]);
    assert Measure(tree, fileDir, rows) == RowWeight(tree, fileDir, rows[0]);
  }

  lemma {:induction false} RowWeighsItsStatements(tree: Tree, fileDir: Dir, row: Row, s: Statement)
    requires s in row
    ensures Weight(tree, fileDir, s) <= RowWeight(tree, fileDir, row)
  {
    if row[0] != s {
      RowWeighsItsStatements(tree, fileDir, row[1..], s);
    }
  }

  lemma {:induction false} LeafIsNotEmpty(exports: seq<Export>, symbol: string)
    ensures Leaf(exports, symbol).Some? ==> Leaf(exports, symbol).value != []
  {
    if exports != [] {
      LeafIsNotEmpty(exports[1..], symbol);
    }
  }

  lemma {:induction false} LeafByNameIsNotEmpty(exports: seq<Export>, names: seq<Alias>, name: string)
    ensures LeafByName(exports, names, name).Some? ==> LeafByName(exports, names, name).value != []
  {
    if names != [] {
      LeafByNameIsNotEmpty(exports, names[..|names| - 1], name);
      LeafIsNotEmpty(exports, Local(names[|names| - 1]));
    }
  }

  lemma LineWeighs(tree: Tree, fileDir: Dir, s: Statement, a: Alias, leaf: Option<seq<string>>)
    requires s.From? && SearchDir(fileDir, s) in tree.inits && (leaf.Some? ==> leaf.value != [])
    ensures var room := Room(tree, |SearchDir(fileDir, s)|);
            Weight(tree, fileDir, Line(s, a, leaf)) <= (if leaf.Some? then room - 1 else room)
  {
    var line := Line(s, a, leaf);
    assert Times(1, Room(tree, |SearchDir(fileDir, line)|)) == Room(tree, |SearchDir(fileDir, line)|) by {
      assert Times(0, Room(tree, |SearchDir(fileDir, line)|)) == 0;
    }
    assert |SearchDir(fileDir, line)| == |SearchDir(fileDir, s)| + if leaf.Some? then |leaf.value| else 0;
  }

  lemma MeasureAppend(tree: Tree, fileDir: Dir, rows: seq<Row>, s: Statement)
    ensures Measure(tree, fileDir, rows + [[s]]) == Measure(tree, fileDir, rows) + Weight(tree, fileDir, s)
  {
    MeasureConcat(tree, fileDir, rows, [[s]]);
    WeightOfOne(tree, fileDir, s);
  }

  lemma {:induction false} LinesWeighLess(tree: Tree, fileDir: Dir, s: Statement, count: nat)
    requires s.From? && SearchDir(fileDir, s) in tree.inits && count <= |s.names|
    ensures var exports := tree.inits[SearchDir(fileDir, s)];
            var total := Times(count, Room(tree, |SearchDir(fileDir, s)|));
            && Measure(tree, fileDir, Lines(exports, s, count)) <= total
            && ((exists i :: 0 <= i < count && LeafByName(exports, s.names, s.names[i].name).Some?)
                ==> Measure(tree, fileDir, Lines(exports, s, count)) < total)
  {
    if count > 0 {
      var exports := tree.inits[SearchDir(fileDir, s)];
      var a := s.names[count - 1];
      var leaf := LeafByName(exports, s.names, a.name);
      LinesWeighLess(tree, fileDir, s, count - 1);
      LeafByNameIsNotEmpty(exports, s.names, a.name);
      LineWeighs(tree, fileDir, s, a, leaf);
      MeasureAppend(tree, fileDir, Lines(exports, s, count - 1), LineAt(exports, s, count - 1));
    }
  }

  lemma {:induction false} StepDeepens(tree: Tree, fileDir: Dir, rows: seq<Row>)
    ensures var next := Step(tree, fileDir, rows);
            next.Some? ==> Measure(tree, fileDir, next.value) < Measure(tree, fileDir, rows)
  {
    if rows != [] {
      var first := FirstIn(tree, fileDir, rows[0]);
      if first.Some? {
        RowWeighsItsStatements(tree, fileDir, rows[0], first.value);
        LinesWeighLess(tree, fileDir, first.value, |first.value.names|);
        MeasureConcat(tree, fileDir, LinesFor(tree, fileDir, first.value), rows[1..]);
      } else {
        StepDeepens(tree, fileDir, rows[1..]);
      }
    }
  }

  /** Steps until none applies; on every tree that ends. */
  ghost function Rewritten(tree: Tree, fileDir: Dir, rows: seq<Row>): seq<Row>
    decreases Measure(tree, fileDir, rows)
  {
    StepDeepens(tree, fileDir, rows);
    var next := Step(tree, fileDir, rows);
    if next.None? then rows else Rewritten(tree, fileDir, next.value)
  }

  // ----- the loops -----

  method RewriteNode(tree: Tree, fileDir: Dir, rows: seq<Row>, index: nat, s: Statement)
    returns (result: seq<Row>, updated: bool)
    requires index < |rows| && s in rows[index]
    ensures updated == Rewritable(tree, fileDir, s)
    ensures result == if updated then rows[..index] + LinesFor(tree, fileDir, s) + rows[index + 1..] else rows
  {
    if s.Other? {
      return rows, false;
    }
    var package := PackageDirForImport(tree, fileDir, s);
    if package.None? || !Rewritable(tree, fileDir, s) {
      return rows, false;
    }
    var exports := tree.inits[package.value];
    var lines: seq<Row> := [];
    for i := 0 to |s.names|
      invariant lines == Lines(exports, s, i)
    {
      lines := lines + [[LineAt(exports, s, i)]];
    }
    result, updated := rows[..index] + lines + rows[index + 1..], true;
  }

  lemma {:induction false} StepSkips(tree: Tree, fileDir: Dir, before: seq<Row>, rest: seq<Row>)
    requires forall row :: row in before ==> FirstIn(tree, fileDir, row).None?
    ensures var next := Step(tree, fileDir, rest);
            Step(tree, fileDir, before + rest) == if next.None? then None else Some(before + next.value)
  {
    var next := Step(tree, fileDir, rest);
    if before == [] {
      assert before + rest == rest;
      assert next.Some? ==> before + next.value == next.value;
    } else {
      assert (before + rest)[1..] == before[1..] + rest;
      StepSkips(tree, fileDir, before[1..], rest);
      assert before == [before[0]] + before[1..];
      assert next.Some? ==> [before[0]] + (before[1..] + next.value) == before + next.value;
    }
  }

  lemma StepTakes(tree: Tree, fileDir: Dir, before: seq<Row>, row: Row, rest: seq<Row>)
    requires forall r :: r in before ==> FirstIn(tree, fileDir, r).None?
    requires FirstIn(tree, fileDir, row).Some?
    ensures Step(tree, fileDir, before + ([row] + rest))
         == Some(before + (LinesFor(tree, fileDir, FirstIn(tree, fileDir, row).value) + rest))
  {
    StepSkips(tree, fileDir, before, [row] + rest);
    assert ([row] + rest)[1..] == rest;
  }

  /** One pass over the statements, up to the first that is rewritten. */
  method RewriteFirst(tree: Tree, fileDir: Dir, rows: seq<Row>) returns (result: seq<Row>, updated: bool)
    ensures updated == Step(tree, fileDir, rows).Some?
    ensures result == if updated then Step(tree, fileDir, rows).value else rows
  {
    for i := 0 to |rows|
      invariant forall row :: row in rows[..i] ==> FirstIn(tree, fileDir, row).None?
    {
      var first := FirstIn(tree, fileDir, rows[i]);
      if first.Some? {
        StepTakes(tree, fileDir, rows[..i], rows[i], rows[i + 1..]);
        assert rows == rows[..i] + ([rows[i]] + rows[i + 1..]);
        result, updated := RewriteNode(tree, fileDir, rows, i, first.value);
        assert rows[..i] + (LinesFor(tree, fileDir, first.value) + rows[i + 1..]) == result;
        return;
      }
      assert rows[..i + 1] == rows[..i] + [rows[i]];
    }
    StepSkips(tree, fileDir, rows, []);
    assert rows + [] == rows && rows[..|rows|] == rows;
    return rows, false;
  }

  method RewriteFile(tree: Tree, fileDir: Dir, rows: seq<Row>) returns (result: seq<Row>, changed: bool)
    ensures result == Rewritten(tree, fileDir, rows)
    ensures changed == Step(tree, fileDir, rows).Some?
  {
    result, changed := rows, false;
    while true
      invariant Rewritten(tree, fileDir, result) == Rewritten(tree, fileDir, rows)
      invariant if changed then Step(tree, fileDir, rows).Some? else result == rows
      decreases Measure(tree, fileDir, result)
    {
      StepDeepens(tree, fileDir, result);
      var next, updated := RewriteFirst(tree, fileDir, result);
      if !updated {
        break;
      }
      result, changed := next, true;
    }
  }

  // ----- what an import binds -----

  /** Where a name comes from: whatever the module itself binds to it, if not a re-export. */
  datatype Origin = Origin(dir: Dir, name: string)

  /** The last binding of a symbol in an `__init__` counts. */
  function Binding(exports: seq<Export>, symbol: string): Option<Export> {
    if exports == [] then None
    else if exports[|exports| - 1].local == symbol then Some(exports[|exports| - 1])
    else Binding(exports[..|exports| - 1], symbol)
  }

  function TargetDir(tree: Tree, dir: Dir, level: nat, target: seq<string>): Dir {
    if level == 0 then tree.root + target else Up(dir, level - 1) + target
  }

  /** Following re-exports for so many steps. A package importing from itself imports its submodule. */
  function Follow(tree: Tree, dir: Dir, name: string, steps: nat): Option<Origin>
    decreases steps
  {
    if steps == 0 then None
    else if dir !in tree.inits then Some(Origin(dir, name))
    else match Binding(tree.inits[dir], name)
      case None => Some(Origin(dir, name))
      case Some(Own(_)) => Some(Origin(dir, name))
      case Some(Reexport(level, target, source, _)) =>
        var next := TargetDir(tree, dir, level, target);
        if next == dir then Some(Origin(dir, source)) else Follow(tree, next, source, steps - 1)
  }

  ghost predicate Denotes(tree: Tree, dir: Dir, name: string, origin: Origin) {
    exists steps: nat :: Follow(tree, dir, name, steps) == Some(origin)
  }

  lemma {:induction false} FollowSettles(tree: Tree, dir: Dir, name: string, steps: nat, more: nat)
    requires steps <= more && Follow(tree, dir, name, steps).Some?
    ensures Follow(tree, dir, name, more) == Follow(tree, dir, name, steps)
    decreases steps
  {
    if dir in tree.inits {
      match Binding(tree.inits[dir], name)
      case Some(Reexport(level, target, source, _)) =>
        var next := TargetDir(tree, dir, level, target);
        if next != dir {
          FollowSettles(tree, next, source, steps - 1, more - 1);
        }
      case _ =>
    }
  }

  lemma DenotesAtMostOne(tree: Tree, dir: Dir, name: string, a: Origin, b: Origin)
    requires Denotes(tree, dir, name, a) && Denotes(tree, dir, name, b)
    ensures a == b
  {
    var m: nat :| Follow(tree, dir, name, m) == Some(a);
    var n: nat :| Follow(tree, dir, name, n) == Some(b);
    if m <= n {
      FollowSettles(tree, dir, name, m, n);
    } else {
      FollowSettles(tree, dir, name, n, m);
    }
  }

  ghost predicate SameName(tree: Tree, a: Dir, m: string, b: Dir, n: string) {
    forall o :: Denotes(tree, a, m, o) <==> Denotes(tree, b, n, o)
  }

  datatype Effect = Bind(local: string, dir: Dir, name: string) | Opaque(id: int)

  function EffectsOf(tree: Tree, fileDir: Dir, s: Statement): seq<Effect> {
    if s.Other? then [Opaque(s.id)]
    else
      seq(|s.names|, i requires 0 <= i < |s.names| =>
        Bind(Local(s.names[i]), TargetDir(tree, fileDir, s.level, s.target), s.names[i].name))
  }

  function RowEffects(tree: Tree, fileDir: Dir, row: Row): seq<Effect> {
    if row == [] then [] else EffectsOf(tree, fileDir, row[0]) + RowEffects(tree, fileDir, row[1..])
  }

  /** What the statements do, in order. */
  function Effects(tree: Tree, fileDir: Dir, rows: seq<Row>): seq<Effect> {
    if rows == [] then [] else RowEffects(tree, fileDir, rows[0]) + Effects(tree, fileDir, rows[1..])
  }

  ghost predicate SameEffect(tree: Tree, a: Effect, b: Effect) {
    if a.Bind? && b.Bind? then a.local == b.local && SameName(tree, a.dir, a.name, b.dir, b.name) else a == b
  }

  /** The same local names in the same order, each denoting the same definition. */
  ghost predicate Same(tree: Tree, a: seq<Effect>, b: seq<Effect>) {
    |a| == |b| && forall i :: 0 <= i < |a| ==> SameEffect(tree, a[i], b[i])
  }

  lemma SameConcat(tree: Tree, a: seq<Effect>, b: seq<Effect>, c: seq<Effect>, d: seq<Effect>)
    requires Same(tree, a, b) && Same(tree, c, d)
    ensures Same(tree, a + c, b + d)
  {
  }

  lemma SameTransitive(tree: Tree, a: seq<Effect>, b: seq<Effect>, c: seq<Effect>)
    requires Same(tree, a, b) && Same(tree, b, c)
    ensures Same(tree, a, c)
  {
    forall i | 0 <= i < |a|
      ensures SameEffect(tree, a[i], c[i])
    {
      assert SameEffect(tree, a[i], b[i]) && SameEffect(tree, b[i], c[i]);
    }
  }

  lemma {:induction false} EffectsConcat(tree: Tree, fileDir: Dir, a: seq<Row>, b: seq<Row>)
    ensures Effects(tree, fileDir, a + b) == Effects(tree, fileDir, a) + Effects(tree, fileDir, b)
  {
    if a == [] {
      assert a + b == b;
    } else {
      assert (a + b)[1..] == a[1..] + b;
      EffectsConcat(tree, fileDir, a[1..], b);
    }
  }

  lemma EffectsOfOne(tree: Tree, fileDir: Dir, s: Statement)
    ensures RowEffects(tree, fileDir, [s]) == EffectsOf(tree, fileDir, s)
    ensures Effects(tree, fileDir, [[s]]) == EffectsOf(tree, fileDir, s)
  {
    var row: Row := [s];
    var rows: seq<Row> := [row];
    assert row[1..] == [] && rows[1..] == [];
  }

  // ----- under which conventions the meaning is kept -----

  /** Re-exports come from inside the package, name by name, unrenamed, and every symbol is bound once. */
  predicate Plain(exports: seq<Export>) {
    && (forall i | 0 <= i < |exports| ::
          exports[i].Reexport? ==>
            exports[i].level == 1 && exports[i].local == exports[i].name && exports[i].name != "*")
    && (forall i, j :: 0 <= i < j < |exports| ==> exports[i].local != exports[j].local)
  }

  predicate PlainTree(tree: Tree) {
    forall d :: d in tree.inits ==> Plain(tree.inits[d])
  }

  /** The rewriter looks where the import looks. */
  predicate LooksRight(tree: Tree, fileDir: Dir, s: Statement)
    requires s.From?
  {
    s.level > 0 || fileDir == tree.root
  }

  /** No star, no renaming, and no absolute import that the rewriter would look up in the wrong place. */
  predicate SafeStatement(tree: Tree, fileDir: Dir, s: Statement) {
    s.From? ==>
      && (forall i :: 0 <= i < |s.names| ==> Renaming(s.names[i]).None? && s.names[i].name != "*")
      && (LooksRight(tree, fileDir, s) || PackageDir(tree, fileDir, s).None?)
  }

  /** And an import has its line to itself. */
  predicate SafeRow(tree: Tree, fileDir: Dir, row: Row) {
    forall i :: 0 <= i < |row| ==> SafeStatement(tree, fileDir, row[i]) && (row[i].From? ==> |row| == 1)
  }

  predicate Safe(tree: Tree, fileDir: Dir, rows: seq<Row>) {
    forall i :: 0 <= i < |rows| ==> SafeRow(tree, fileDir, rows[i])
  }

  lemma {:induction false} BindingOf(exports: seq<Export>, i: nat)
    requires i < |exports| && forall j :: i < j < |exports| ==> exports[j].local != exports[i].local
    ensures Binding(exports, exports[i].local) == Some(exports[i])
    decreases |exports|
  {
    if i < |exports| - 1 {
      BindingOf(exports[..|exports| - 1], i);
    }
  }

  lemma {:induction false} LeafIsAnExport(exports: seq<Export>, symbol: string) returns (i: int)
    ensures Leaf(exports, symbol).Some? ==>
              && 0 <= i < |exports| && exports[i].Reexport? && exports[i].target == Leaf(exports, symbol).value
              && exports[i].target != [] && exports[i].local == symbol
    ensures Leaf(exports, symbol).None? ==>
              forall k | 0 <= k < |exports| && exports[k].Reexport? && exports[k].local == symbol ::
                exports[k].target == []
  {
    if exports == [] || (exports[0].Reexport? && exports[0].target != [] && exports[0].local == symbol) {
      i := 0;
    } else {
      var k := LeafIsAnExport(exports[1..], symbol);
      i := k + 1;
    }
  }

  /** In a plain `__init__` the leaf that is found is the one that is bound. */
  lemma LeafIsBound(exports: seq<Export>, symbol: string)
    requires Plain(exports) && Leaf(exports, symbol).Some?
    ensures Binding(exports, symbol) == Some(Reexport(1, Leaf(exports, symbol).value, symbol, symbol))
  {
    var i := LeafIsAnExport(exports, symbol);
    BindingOf(exports, i);
  }

  lemma LeafStep(tree: Tree, dir: Dir, symbol: string, steps: nat)
    requires PlainTree(tree) && dir in tree.inits && Leaf(tree.inits[dir], symbol).Some?
    ensures Follow(tree, dir, symbol, steps + 1)
         == Follow(tree, dir + Leaf(tree.inits[dir], symbol).value, symbol, steps)
  {
    var exports := tree.inits[dir];
    LeafIsBound(exports, symbol);
    LeafIsNotEmpty(exports, symbol);
    var next := dir + Leaf(exports, symbol).value;
    assert TargetDir(tree, dir, 1, Leaf(exports, symbol).value) == next && next != dir;
  }

  lemma LeafMeansTheSame(tree: Tree, dir: Dir, symbol: string)
    requires PlainTree(tree) && dir in tree.inits && Leaf(tree.inits[dir], symbol).Some?
    ensures SameName(tree, dir, symbol, dir + Leaf(tree.inits[dir], symbol).value, symbol)
  {
    var next := dir + Leaf(tree.inits[dir], symbol).value;
    forall o
      ensures Denotes(tree, dir, symbol, o) <==> Denotes(tree, next, symbol, o)
    {
      if steps: nat :| Follow(tree, dir, symbol, steps) == Some(o) {
        LeafStep(tree, dir, symbol, steps - 1);
        assert Follow(tree, next, symbol, steps - 1) == Some(o);
      }
      if steps: nat :| Follow(tree, next, symbol, steps) == Some(o) {
        LeafStep(tree, dir, symbol, steps);
        assert Follow(tree, dir, symbol, steps + 1) == Some(o);
      }
    }
  }

  lemma {:induction false} LeafOfName(exports: seq<Export>, names: seq<Alias>, k: nat)
    requires k < |names| && forall i :: 0 <= i < |names| ==> Renaming(names[i]).None?
    ensures LeafByName(exports, names, names[k].name) == Leaf(exports, names[k].name)
    decreases |names|
  {
    if names[|names| - 1].name != names[k].name {
      LeafOfName(exports, names[..|names| - 1], k);
    }
  }

  /** What one name of an import binds. */
  function NameEffect(tree: Tree, fileDir: Dir, s: Statement, k: nat): Effect
    requires s.From? && k < |s.names|
  {
    Bind(Local(s.names[k]), TargetDir(tree, fileDir, s.level, s.target), s.names[k].name)
  }

  /** And what it binds in the line that replaces it. */
  function LineEffect(tree: Tree, fileDir: Dir, s: Statement, k: nat): Effect
    requires Rewritable(tree, fileDir, s) && k < |s.names|
  {
    var leaf := LeafByName(tree.inits[SearchDir(fileDir, s)], s.names, s.names[k].name);
    var dir := TargetDir(tree, fileDir, s.level, s.target);
    Bind(Local(s.names[k]), if leaf.Some? then dir + leaf.value else dir, s.names[k].name)
  }

  lemma LineBinds(tree: Tree, fileDir: Dir, s: Statement, k: nat)
    requires Rewritable(tree, fileDir, s) && k < |s.names|
    ensures EffectsOf(tree, fileDir, LineAt(tree.inits[SearchDir(fileDir, s)], s, k))
         == [LineEffect(tree, fileDir, s, k)]
  {
    var leaf := LeafByName(tree.inits[SearchDir(fileDir, s)], s.names, s.names[k].name);
    var line := Line(s, s.names[k], leaf);
    assert Local(line.names[0]) == Local(s.names[k]);
    if leaf.Some? {
      assert TargetDir(tree, fileDir, s.level, s.target + leaf.value)
          == TargetDir(tree, fileDir, s.level, s.target) + leaf.value;
    }
  }

  lemma EffectsAppend(tree: Tree, fileDir: Dir, rows: seq<Row>, s: Statement)
    ensures Effects(tree, fileDir, rows + [[s]]) == Effects(tree, fileDir, rows) + EffectsOf(tree, fileDir, s)
  {
    EffectsConcat(tree, fileDir, rows, [[s]]);
    EffectsOfOne(tree, fileDir, s);
  }

  function LineEffects(tree: Tree, fileDir: Dir, s: Statement, count: nat): (r: seq<Effect>)
    requires Rewritable(tree, fileDir, s) && count <= |s.names|
    ensures |r| == count && forall k :: 0 <= k < count ==> r[k] == LineEffect(tree, fileDir, s, k)
  {
    if count == 0 then []
    else LineEffects(tree, fileDir, s, count - 1) + [LineEffect(tree, fileDir, s, count - 1)]
  }

  lemma {:induction false} LinesBind(tree: Tree, fileDir: Dir, s: Statement, count: nat)
    requires Rewritable(tree, fileDir, s) && count <= |s.names|
    ensures Effects(tree, fileDir, Lines(tree.inits[SearchDir(fileDir, s)], s, count))
         == LineEffects(tree, fileDir, s, count)
  {
    if count > 0 {
      var exports := tree.inits[SearchDir(fileDir, s)];
      LinesBind(tree, fileDir, s, count - 1);
      EffectsAppend(tree, fileDir, Lines(exports, s, count - 1), LineAt(exports, s, count - 1));
      LineBinds(tree, fileDir, s, count - 1);
    }
  }

  /** Each line binds the name it was made for, to what the name was bound to. */
  lemma LineMeansTheSame(tree: Tree, fileDir: Dir, s: Statement, k: nat)
    requires PlainTree(tree) && SafeStatement(tree, fileDir, s) && Rewritable(tree, fileDir, s) && k < |s.names|
    ensures SameEffect(tree, NameEffect(tree, fileDir, s, k), LineEffect(tree, fileDir, s, k))
  {
    var dir := SearchDir(fileDir, s);
    LeafOfName(tree.inits[dir], s.names, k);
    assert TargetDir(tree, fileDir, s.level, s.target) == dir;
    if Leaf(tree.inits[dir], s.names[k].name).Some? {
      LeafMeansTheSame(tree, dir, s.names[k].name);
    }
  }

  lemma {:induction false} LinesAreSafe(tree: Tree, fileDir: Dir, s: Statement, count: nat)
    requires SafeStatement(tree, fileDir, s) && Rewritable(tree, fileDir, s) && count <= |s.names|
    ensures Safe(tree, fileDir, Lines(tree.inits[SearchDir(fileDir, s)], s, count))
  {
    if count > 0 {
      LinesAreSafe(tree, fileDir, s, count - 1);
      assert SafeRow(tree, fileDir, [LineAt(tree.inits[SearchDir(fileDir, s)], s, count - 1)]);
    }
  }

  lemma LinesMeanTheSame(tree: Tree, fileDir: Dir, s: Statement)
    requires PlainTree(tree) && SafeStatement(tree, fileDir, s) && Rewritable(tree, fileDir, s)
    ensures Same(tree, EffectsOf(tree, fileDir, s), Effects(tree, fileDir, LinesFor(tree, fileDir, s)))
  {
    LinesBind(tree, fileDir, s, |s.names|);
    forall k | 0 <= k < |s.names|
      ensures SameEffect(tree, EffectsOf(tree, fileDir, s)[k], LineEffect(tree, fileDir, s, k))
    {
      LineMeansTheSame(tree, fileDir, s, k);
    }
  }

  /** Replacing an import that has its line to itself. */
  lemma {:induction false} StepKeepsMeaning(tree: Tree, fileDir: Dir, rows: seq<Row>)
    requires PlainTree(tree) && Step(tree, fileDir, rows).Some? && |TakenRow(tree, fileDir, rows)| == 1
    requires SafeStatement(tree, fileDir, TakenRow(tree, fileDir, rows)[0])
    ensures Same(tree, Effects(tree, fileDir, rows), Effects(tree, fileDir, Step(tree, fileDir, rows).value))
  {
    var first := FirstIn(tree, fileDir, rows[0]);
    if first.Some? {
      var s := first.value;
      assert rows[0] == [s];
      LinesMeanTheSame(tree, fileDir, s);
      EffectsOfOne(tree, fileDir, s);
      var lines, rest := LinesFor(tree, fileDir, s), Effects(tree, fileDir, rows[1..]);
      EffectsConcat(tree, fileDir, lines, rows[1..]);
      SameConcat(tree, EffectsOf(tree, fileDir, s), Effects(tree, fileDir, lines), rest, rest);
    } else {
      StepKeepsMeaning(tree, fileDir, rows[1..]);
      var next := Step(tree, fileDir, rows[1..]).value;
      assert ([rows[0]] + next)[1..] == next;
      var head := RowEffects(tree, fileDir, rows[0]);
      SameConcat(tree, head, head, Effects(tree, fileDir, rows[1..]), Effects(tree, fileDir, next));
    }
  }

  lemma {:induction false} StepStaysSafe(tree: Tree, fileDir: Dir, rows: seq<Row>)
    requires PlainTree(tree) && Safe(tree, fileDir, rows) && Step(tree, fileDir, rows).Some?
    ensures Safe(tree, fileDir, Step(tree, fileDir, rows).value)
  {
    var first := FirstIn(tree, fileDir, rows[0]);
    if first.Some? {
      assert SafeRow(tree, fileDir, rows[0]) && first.value in rows[0];
      LinesAreSafe(tree, fileDir, first.value, |first.value.names|);
    } else {
      StepStaysSafe(tree, fileDir, rows[1..]);
    }
  }

  lemma StepMeansTheSame(tree: Tree, fileDir: Dir, rows: seq<Row>)
    requires PlainTree(tree) && Safe(tree, fileDir, rows) && Step(tree, fileDir, rows).Some?
    ensures var next := Step(tree, fileDir, rows).value;
            Safe(tree, fileDir, next) && Same(tree, Effects(tree, fileDir, rows), Effects(tree, fileDir, next))
  {
    var row := TakenRow(tree, fileDir, rows);
    assert SafeRow(tree, fileDir, row) && FirstIn(tree, fileDir, row).value in row;
    StepKeepsMeaning(tree, fileDir, rows);
    StepStaysSafe(tree, fileDir, rows);
  }

  /** After the rewriting every local name is bound in the same order to the same definition. */
  lemma {:induction false} RewritingMeansTheSame(tree: Tree, fileDir: Dir, rows: seq<Row>)
    requires PlainTree(tree) && Safe(tree, fileDir, rows)
    ensures var r := Rewritten(tree, fileDir, rows);
            Safe(tree, fileDir, r) && Same(tree, Effects(tree, fileDir, rows), Effects(tree, fileDir, r))
    decreases Measure(tree, fileDir, rows)
  {
    StepDeepens(tree, fileDir, rows);
    var next := Step(tree, fileDir, rows);
    if next.Some? {
      StepMeansTheSame(tree, fileDir, rows);
      RewritingMeansTheSame(tree, fileDir, next.value);
      SameTransitive(tree, Effects(tree, fileDir, rows), Effects(tree, fileDir, next.value),
                     Effects(tree, fileDir, Rewritten(tree, fileDir, next.value)));
    }
  }

  // ----- what is left when it stops -----

  lemma {:induction false} NothingToStep(tree: Tree, fileDir: Dir, rows: seq<Row>)
    ensures Step(tree, fileDir, rows).None? <==>
            forall i :: 0 <= i < |rows| ==> FirstIn(tree, fileDir, rows[i]).None?
  {
    if rows != [] {
      NothingToStep(tree, fileDir, rows[1..]);
      if FirstIn(tree, fileDir, rows[0]).None? {
        assert forall i :: 0 < i < |rows| ==> rows[i] == rows[1..][i - 1];
      }
    }
  }

  lemma {:induction false} RewrittenIsSettled(tree: Tree, fileDir: Dir, rows: seq<Row>)
    ensures var r := Rewritten(tree, fileDir, rows);
            && (forall i, s :: 0 <= i < |r| && s in r[i] ==> !Rewritable(tree, fileDir, s))
            && Rewritten(tree, fileDir, r) == r
    decreases Measure(tree, fileDir, rows)
  {
    StepDeepens(tree, fileDir, rows);
    var next := Step(tree, fileDir, rows);
    if next.Some? {
      RewrittenIsSettled(tree, fileDir, next.value);
    } else {
      NothingToStep(tree, fileDir, rows);
    }
  }

  /** Then every import that was looked up names the module that defines the name, unless a module shadows it. */
  lemma RewrittenImportsAreDirect(tree: Tree, fileDir: Dir, rows: seq<Row>, i: nat, k: nat)
    requires PlainTree(tree) && Safe(tree, fileDir, rows)
    requires i < |Rewritten(tree, fileDir, rows)| && |Rewritten(tree, fileDir, rows)[i]| > 0
    requires var s := Rewritten(tree, fileDir, rows)[i][0];
             s.From? && k < |s.names| && LooksRight(tree, fileDir, s) && SearchDir(fileDir, s) !in tree.modules
    ensures var s := Rewritten(tree, fileDir, rows)[i][0];
            var dir := TargetDir(tree, fileDir, s.level, s.target);
            Denotes(tree, dir, s.names[k].name, Origin(dir, s.names[k].name))
  {
    var r := Rewritten(tree, fileDir, rows);
    var s := r[i][0];
    var dir, name := SearchDir(fileDir, s), s.names[k].name;
    RewritingMeansTheSame(tree, fileDir, rows);
    RewrittenIsSettled(tree, fileDir, rows);
    assert SafeRow(tree, fileDir, r[i]) && s in r[i];
    if dir in tree.inits {
      assert SafeStatement(tree, fileDir, r[i][0]);
      LeafOfName(tree.inits[dir], s.names, k);
      assert !Rewritable(tree, fileDir, s);
      assert LeafByName(tree.inits[dir], s.names, s.names[k].name).None?;
      OwnNameIsDirect(tree, dir, name);
    }
    assert Follow(tree, dir, name, 1) == Some(Origin(dir, name));
  }

  lemma {:induction false} BindingIsAnExport(exports: seq<Export>, symbol: string)
    ensures Binding(exports, symbol).Some? ==>
              Binding(exports, symbol).value in exports && Binding(exports, symbol).value.local == symbol
  {
    if exports != [] {
      BindingIsAnExport(exports[..|exports| - 1], symbol);
    }
  }

  lemma OwnNameIsDirect(tree: Tree, dir: Dir, name: string)
    requires PlainTree(tree) && dir in tree.inits && Leaf(tree.inits[dir], name).None?
    ensures Follow(tree, dir, name, 1) == Some(Origin(dir, name))
  {
    var exports := tree.inits[dir];
    BindingIsAnExport(exports, name);
    var binding := Binding(exports, name);
    if binding.Some? && binding.value.Reexport? {
      var i := LeafIsAnExport(exports, name);
      assert binding.value.target == [] && binding.value.level == 1;
    }
  }
}
