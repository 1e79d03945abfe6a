/**
 Where the rewriting of barrel imports departs from its conventions: for each convention, exactly when a rewritten
 import still means what it meant.
 */
module BarrelMisreads {
  import opened Wrappers
  import opened BarrelImports

  // ----- statements that share a line -----

  /** The conventions but for the last: imports may share their line. Every import names something. */
  predicate SafeButSharing(tree: Tree, fileDir: Dir, rows: seq<Row>) {
    forall row, s :: row in rows && s in row ==> SafeStatement(tree, fileDir, s) && (s.From? ==> s.names != [])
  }

  lemma {:induction false} RowEffectsCount(tree: Tree, fileDir: Dir, row: Row, s: Statement)
    requires s in row && forall x :: x in row ==> (x.From? ==> x.names != [])
    ensures |RowEffects(tree, fileDir, row)| >= |EffectsOf(tree, fileDir, s)| + |row| - 1
  {
    if row[0] == s {
      RestCounts(tree, fileDir, row[1..]);
    } else {
      assert s in row[1..];
      assert |EffectsOf(tree, fileDir, row[0])| >= 1;
      RowEffectsCount(tree, fileDir, row[1..], s);
    }
  }

  lemma {:induction false} RestCounts(tree: Tree, fileDir: Dir, row: Row)
    requires forall x :: x in row ==> (x.From? ==> x.names != [])
    ensures |RowEffects(tree, fileDir, row)| >= |row|
  {
    if row != [] {
      assert |EffectsOf(tree, fileDir, row[0])| >= 1;
      RestCounts(tree, fileDir, row[1..]);
    }
  }

  /** A step replaces the effects of the taken row by those of its first rewritable import. */
  lemma {:induction false} StepCounts(tree: Tree, fileDir: Dir, rows: seq<Row>)
    requires Step(tree, fileDir, rows).Some?
    ensures var row := TakenRow(tree, fileDir, rows);
            |Effects(tree, fileDir, Step(tree, fileDir, rows).value)| + |RowEffects(tree, fileDir, row)|
            == |Effects(tree, fileDir, rows)| + |EffectsOf(tree, fileDir, FirstIn(tree, fileDir, row).value)|
  {
    var first := FirstIn(tree, fileDir, rows[0]);
    if first.Some? {
      LinesBind(tree, fileDir, first.value, |first.value.names|);
      EffectsConcat(tree, fileDir, LinesFor(tree, fileDir, first.value), rows[1..]);
    } else {
      StepCounts(tree, fileDir, rows[1..]);
      var next := Step(tree, fileDir, rows[1..]).value;
      assert ([rows[0]] + next)[1..] == next;
    }
  }

  /** Under the other conventions a step keeps what the file does exactly when the import has its line to itself. */
  lemma StepKeepsExactlyWhen(tree: Tree, fileDir: Dir, rows: seq<Row>)
    requires PlainTree(tree) && SafeButSharing(tree, fileDir, rows) && Step(tree, fileDir, rows).Some?
    ensures Same(tree, Effects(tree, fileDir, rows), Effects(tree, fileDir, Step(tree, fileDir, rows).value))
            <==> |TakenRow(tree, fileDir, rows)| == 1
  {
    var row := TakenRow(tree, fileDir, rows);
    var s := FirstIn(tree, fileDir, row).value;
    if |row| == 1 {
      assert row[0] in row;
      StepKeepsMeaning(tree, fileDir, rows);
    } else {
      StepCounts(tree, fileDir, rows);
      RowEffectsCount(tree, fileDir, row, s);
    }
  }

  // ----- an import name by name -----

  /** The line made for the name binds it to what the import bound it to. */
  ghost predicate NameIsKept(tree: Tree, fileDir: Dir, s: Statement, k: nat)
    requires Rewritable(tree, fileDir, s) && k < |s.names|
  {
    SameEffect(tree, NameEffect(tree, fileDir, s, k), LineEffect(tree, fileDir, s, k))
  }

  /** An import of any number of names is kept exactly when each of its names is. */
  lemma ImportIsKeptExactlyWhen(tree: Tree, fileDir: Dir, s: Statement)
    requires Rewritable(tree, fileDir, s)
    ensures Same(tree, EffectsOf(tree, fileDir, s), Effects(tree, fileDir, LinesFor(tree, fileDir, s)))
            <==> forall k :: 0 <= k < |s.names| ==> NameIsKept(tree, fileDir, s, k)
  {
    var before, after := EffectsOf(tree, fileDir, s), Effects(tree, fileDir, LinesFor(tree, fileDir, s));
    LinesBind(tree, fileDir, s, |s.names|);
    forall k | 0 <= k < |s.names|
      ensures SameEffect(tree, before[k], after[k]) <==> NameIsKept(tree, fileDir, s, k)
    {
      assert before[k] == NameEffect(tree, fileDir, s, k);
    }
  }

  /** Names that are traced to an end are the same exactly when the ends are. */
  lemma EndsDecide(tree: Tree, a: Dir, m: string, b: Dir, n: string, steps: nat, more: nat)
    requires Follow(tree, a, m, steps).Some? && Follow(tree, b, n, more).Some?
    ensures SameName(tree, a, m, b, n) <==> Follow(tree, a, m, steps) == Follow(tree, b, n, more)
  {
    var o, p := Follow(tree, a, m, steps).value, Follow(tree, b, n, more).value;
    assert Denotes(tree, a, m, o) && Denotes(tree, b, n, p);
    if SameName(tree, a, m, b, n) {
      assert Denotes(tree, b, n, o);
      DenotesAtMostOne(tree, b, n, o, p);
    }
    if o == p {
      forall x
        ensures Denotes(tree, a, m, x) <==> Denotes(tree, b, n, x)
      {
        if Denotes(tree, a, m, x) {
          DenotesAtMostOne(tree, a, m, o, x);
        }
        if Denotes(tree, b, n, x) {
          DenotesAtMostOne(tree, b, n, p, x);
        }
      }
    }
  }

  lemma ModuleNameEnds(tree: Tree, dir: Dir, name: string)
    requires dir !in tree.inits
    ensures forall steps: nat :: steps > 0 ==> Follow(tree, dir, name, steps) == Some(Origin(dir, name))
  {
  }

  /** The module a name finally comes from, in a tree of plain packages. */
  function End(tree: Tree, dir: Dir, name: string): Dir
    requires PlainTree(tree)
    decreases Room(tree, |dir|)
  {
    if dir !in tree.inits then dir
    else match Leaf(tree.inits[dir], name)
      case None => dir
      case Some(leaf) =>
        LeafIsNotEmpty(tree.inits[dir], name);
        End(tree, dir + leaf, name)
  }

  lemma RoomFalls(tree: Tree, dir: Dir, leaf: seq<string>)
    requires dir in tree.inits && leaf != []
    ensures Room(tree, |dir + leaf|) < Room(tree, |dir|)
  {
    assert |dir + leaf| > |dir|;
  }

  lemma NamesEndThroughLeaf(tree: Tree, dir: Dir, name: string, leaf: seq<string>)
    requires PlainTree(tree) && dir in tree.inits && Leaf(tree.inits[dir], name) == Some(leaf) && leaf != []
    requires Follow(tree, dir + leaf, name, Room(tree, |dir + leaf|) + 1) == Some(Origin(End(tree, dir, name), name))
    ensures Follow(tree, dir, name, Room(tree, |dir|) + 1) == Some(Origin(End(tree, dir, name), name))
  {
    RoomFalls(tree, dir, leaf);
    FollowSettles(tree, dir + leaf, name, Room(tree, |dir + leaf|) + 1, Room(tree, |dir|));
    LeafStep(tree, dir, name, Room(tree, |dir|));
  }

  lemma {:induction false} NamesEnd(tree: Tree, dir: Dir, name: string)
    requires PlainTree(tree)
    ensures Follow(tree, dir, name, Room(tree, |dir|) + 1) == Some(Origin(End(tree, dir, name), name))
    decreases Room(tree, |dir|)
  {
    if dir in tree.inits {
      var exports := tree.inits[dir];
      match Leaf(exports, name)
      case None =>
        OwnNameIsDirect(tree, dir, name);
        FollowSettles(tree, dir, name, 1, Room(tree, |dir|) + 1);
      case Some(leaf) =>
        LeafIsNotEmpty(exports, name);
        RoomFalls(tree, dir, leaf);
        NamesEnd(tree, dir + leaf, name);
        NamesEndThroughLeaf(tree, dir, name, leaf);
    }
  }

  lemma SameEndsDecide(tree: Tree, a: Dir, b: Dir, name: string)
    requires PlainTree(tree)
    ensures SameName(tree, a, name, b, name) <==> End(tree, a, name) == End(tree, b, name)
  {
    NamesEnd(tree, a, name);
    NamesEnd(tree, b, name);
    EndsDecide(tree, a, name, b, name, Room(tree, |a|) + 1, Room(tree, |b|) + 1);
  }

  /** In a tree of plain packages a name is kept exactly when the package and the leaf take it from the same module. */
  lemma NameIsKeptExactlyWhen(tree: Tree, fileDir: Dir, s: Statement, k: nat, leaf: seq<string>)
    requires PlainTree(tree) && Rewritable(tree, fileDir, s) && k < |s.names|
    requires LeafByName(tree.inits[SearchDir(fileDir, s)], s.names, s.names[k].name) == Some(leaf)
    ensures var dir, name := TargetDir(tree, fileDir, s.level, s.target), s.names[k].name;
            NameIsKept(tree, fileDir, s, k) <==> End(tree, dir, name) == End(tree, dir + leaf, name)
  {
    var dir := TargetDir(tree, fileDir, s.level, s.target);
    SameEndsDecide(tree, dir, dir + leaf, s.names[k].name);
  }

  lemma DifferentModules(dir: Dir, a: seq<string>, b: seq<string>)
    ensures dir + a == dir + b <==> a == b
  {
    assert (dir + a)[|dir|..] == a && (dir + b)[|dir|..] == b;
  }

  /** The modules a package takes the name from and the leaf that was found are not packages themselves. */
  predicate IsShallow(tree: Tree, dir: Dir, name: string, leaf: seq<string>) {
    && dir + leaf !in tree.inits
    && (dir in tree.inits && Leaf(tree.inits[dir], name).Some? ==>
          dir + Leaf(tree.inits[dir], name).value !in tree.inits)
  }

  /**
   An import with `as` looks the new name up instead of the old one: where packages take their names straight from
   modules, it is kept exactly when that finds the module of the old one.
   */
  lemma RenamedImportIsKeptExactlyWhen(tree: Tree, fileDir: Dir, s: Statement, k: nat, leaf: seq<string>)
    requires PlainTree(tree) && Rewritable(tree, fileDir, s) && k < |s.names| && LooksRight(tree, fileDir, s)
    requires LeafByName(tree.inits[SearchDir(fileDir, s)], s.names, s.names[k].name) == Some(leaf)
    requires IsShallow(tree, SearchDir(fileDir, s), s.names[k].name, leaf)
    ensures NameIsKept(tree, fileDir, s, k) <==> Leaf(tree.inits[SearchDir(fileDir, s)], s.names[k].name) == Some(leaf)
  {
    var dir, name := SearchDir(fileDir, s), s.names[k].name;
    var own := Leaf(tree.inits[dir], name);
    assert TargetDir(tree, fileDir, s.level, s.target) == dir;
    NameIsKeptExactlyWhen(tree, fileDir, s, k, leaf);
    LeafByNameIsNotEmpty(tree.inits[dir], s.names, name);
    DifferentModules(dir, if own.Some? then own.value else [], leaf);
    assert dir + [] == dir;
  }

  /**
   An absolute import is looked up beside the file: there it is kept exactly when the package it really names takes
   the name from a module of the same name.
   */
  lemma AbsoluteImportIsKeptExactlyWhen(tree: Tree, fileDir: Dir, s: Statement, k: nat, leaf: seq<string>)
    requires PlainTree(tree) && Rewritable(tree, fileDir, s) && k < |s.names| && s.level == 0
    requires LeafByName(tree.inits[SearchDir(fileDir, s)], s.names, s.names[k].name) == Some(leaf)
    requires IsShallow(tree, tree.root + s.target, s.names[k].name, leaf)
    ensures NameIsKept(tree, fileDir, s, k) <==>
            tree.root + s.target in tree.inits && Leaf(tree.inits[tree.root + s.target], s.names[k].name) == Some(leaf)
  {
    var dir, name := tree.root + s.target, s.names[k].name;
    var own := if dir in tree.inits then Leaf(tree.inits[dir], name) else None;
    NameIsKeptExactlyWhen(tree, fileDir, s, k, leaf);
    LeafByNameIsNotEmpty(tree.inits[SearchDir(fileDir, s)], s.names, name);
    DifferentModules(dir, if own.Some? then own.value else [], leaf);
    assert dir + [] == dir;
  }

  /**
   Whatever an `__init__` does: a name is kept exactly when the binding that counts re-exports it unrenamed from the
   module that was found below the package.
   */
  lemma ExportIsKeptExactlyWhen(tree: Tree, fileDir: Dir, s: Statement, k: nat, leaf: seq<string>)
    requires Rewritable(tree, fileDir, s) && k < |s.names| && LooksRight(tree, fileDir, s)
    requires LeafByName(tree.inits[SearchDir(fileDir, s)], s.names, s.names[k].name) == Some(leaf)
    requires SearchDir(fileDir, s) + leaf !in tree.inits
    requires var e := Binding(tree.inits[SearchDir(fileDir, s)], s.names[k].name);
             e.Some? && e.value.Reexport? ==>
               TargetDir(tree, SearchDir(fileDir, s), e.value.level, e.value.target) !in tree.inits
    ensures var dir, name := SearchDir(fileDir, s), s.names[k].name;
            var e := Binding(tree.inits[dir], name);
            NameIsKept(tree, fileDir, s, k) <==>
            && e.Some? && e.value.Reexport? && e.value.name == name
            && TargetDir(tree, dir, e.value.level, e.value.target) == dir + leaf
  {
    var dir, name := SearchDir(fileDir, s), s.names[k].name;
    var e := Binding(tree.inits[dir], name);
    assert TargetDir(tree, fileDir, s.level, s.target) == dir;
    LeafByNameIsNotEmpty(tree.inits[dir], s.names, name);
    ModuleNameEnds(tree, dir + leaf, name);
    DifferentModules(dir, [], leaf);
    assert dir + [] == dir;
    if e.Some? && e.value.Reexport? {
      ModuleNameEnds(tree, TargetDir(tree, dir, e.value.level, e.value.target), e.value.name);
    }
    EndsDecide(tree, dir, name, dir + leaf, name, 2, 1);
  }

  // ----- whatever the packages on the way do -----

  ghost predicate Ends(tree: Tree, dir: Dir, name: string) {
    exists steps: nat :: Follow(tree, dir, name, steps).Some?
  }

  /** Both are followed to the same end, however far that is, or neither is followed to any. */
  ghost predicate EndAlike(tree: Tree, a: Dir, b: Dir, name: string) {
    && (Ends(tree, a, name) <==> Ends(tree, b, name))
    && forall m: nat, n: nat :: Follow(tree, a, name, m).Some? && Follow(tree, b, name, n).Some? ==>
         Follow(tree, a, name, m) == Follow(tree, b, name, n)
  }

  lemma EndlessDenotesNothing(tree: Tree, dir: Dir, name: string)
    requires !Ends(tree, dir, name)
    ensures forall o :: !Denotes(tree, dir, name, o)
  {
    forall o, steps: nat
      ensures Follow(tree, dir, name, steps) != Some(o)
    {
      assert Follow(tree, dir, name, steps).None?;
    }
  }

  lemma SameNameExactlyWhen(tree: Tree, a: Dir, b: Dir, name: string)
    ensures SameName(tree, a, name, b, name) <==> EndAlike(tree, a, b, name)
  {
    if Ends(tree, a, name) && Ends(tree, b, name) {
      forall m: nat, n: nat | Follow(tree, a, name, m).Some? && Follow(tree, b, name, n).Some?
        ensures SameName(tree, a, name, b, name) <==> Follow(tree, a, name, m) == Follow(tree, b, name, n)
      {
        EndsDecide(tree, a, name, b, name, m, n);
      }
    } else {
      if !Ends(tree, a, name) {
        EndlessDenotesNothing(tree, a, name);
      } else {
        SomethingIsDenoted(tree, a, name);
      }
      if !Ends(tree, b, name) {
        EndlessDenotesNothing(tree, b, name);
      } else {
        SomethingIsDenoted(tree, b, name);
      }
    }
  }

  lemma SomethingIsDenoted(tree: Tree, dir: Dir, name: string)
    requires Ends(tree, dir, name)
    ensures exists o :: Denotes(tree, dir, name, o)
  {
    var steps: nat :| Follow(tree, dir, name, steps).Some?;
    assert Denotes(tree, dir, name, Follow(tree, dir, name, steps).value);
  }

  /**
   In any tree, through any re-exports, renamed or circular ones too: a name is kept exactly when following it from the
   package the import names and from the module of the new line ends alike.
   */
  lemma TracedNameIsKeptExactlyWhen(tree: Tree, fileDir: Dir, s: Statement, k: nat)
    requires Rewritable(tree, fileDir, s) && k < |s.names|
    ensures NameIsKept(tree, fileDir, s, k) <==>
            EndAlike(tree, TargetDir(tree, fileDir, s.level, s.target), LineEffect(tree, fileDir, s, k).dir,
                     s.names[k].name)
  {
    SameNameExactlyWhen(tree, TargetDir(tree, fileDir, s.level, s.target), LineEffect(tree, fileDir, s, k).dir,
                        s.names[k].name);
  }
}
