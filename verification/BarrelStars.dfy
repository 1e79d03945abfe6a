/**
 Star imports through a package. The rewriter takes `*` for a name like any other, so `from package import *` becomes
 a star import from the first module the `__init__` itself star-imports; here is exactly when that binds the same.
 `own` tells what a star import from a module binds; a package without an `__all__` gives its names that do not start
 with an underscore.
 */
module BarrelStars {
  import opened Wrappers
  import opened BarrelImports

  type Names = Dir -> set<string>

  predicate IsPublic(name: string) {
    name == "" || name[0] != '_'
  }

  /** What one binding of an `__init__` gives for a name, its sources being modules. */
  function Gives(tree: Tree, own: Names, dir: Dir, e: Export, name: string): Option<Origin> {
    match e
    case Own(local) => if local == name then Some(Origin(dir, name)) else None
    case Reexport(level, target, source, local) =>
      var origin := TargetDir(tree, dir, level, target);
      if source == "*" then if name in own(origin) then Some(Origin(origin, name)) else None
      else if local == name then Some(Origin(origin, source)) else None
  }

  /** The namespace an `__init__` ends with: later bindings replace earlier ones. */
  function Namespace(tree: Tree, own: Names, dir: Dir, exports: seq<Export>, name: string): Option<Origin> {
    if exports == [] then None
    else
      var last := Gives(tree, own, dir, exports[|exports| - 1], name);
      if last.Some? then last else Namespace(tree, own, dir, exports[..|exports| - 1], name)
  }

  /** What a star import binds a name to, if it binds it. */
  function StarBinds(tree: Tree, own: Names, dir: Dir, name: string): Option<Origin> {
    if dir in tree.inits then if IsPublic(name) then Namespace(tree, own, dir, tree.inits[dir], name) else None
    else if name in own(dir) then Some(Origin(dir, name)) else None
  }

  function StarOf(level: nat, target: seq<string>): Statement {
    From(level, target, [Alias("*", None)])
  }

  /** The rewriting finds `leaf` for the star and looks where the import looks. */
  predicate FindsStar(tree: Tree, fileDir: Dir, s: Statement, leaf: seq<string>) {
    && s.From? && s.names == [Alias("*", None)] && LooksRight(tree, fileDir, s)
    && PackageDir(tree, fileDir, s).Some? && Leaf(tree.inits[SearchDir(fileDir, s)], "*") == Some(leaf)
  }

  lemma StarStep(tree: Tree, fileDir: Dir, s: Statement, leaf: seq<string>)
    requires FindsStar(tree, fileDir, s, leaf)
    ensures Step(tree, fileDir, [[s]]) == Some([[StarOf(s.level, s.target + leaf)]])
    ensures TargetDir(tree, fileDir, s.level, s.target) == SearchDir(fileDir, s)
    ensures TargetDir(tree, fileDir, s.level, s.target + leaf) == SearchDir(fileDir, s) + leaf
  {
    var exports := tree.inits[SearchDir(fileDir, s)];
    assert LeafByName(exports, s.names, s.names[0].name) == Some(leaf);
    assert Rewritable(tree, fileDir, s);
    var row: Row := [s];
    var rows: seq<Row> := [row];
    assert FirstIn(tree, fileDir, row) == Some(s) && rows[1..] == [];
    var lines := LinesFor(tree, fileDir, s);
    assert Lines(exports, s, 0) == [] && lines == [[LineAt(exports, s, 0)]];
    assert LineAt(exports, s, 0) == StarOf(s.level, s.target + leaf);
    assert Step(tree, fileDir, rows) == Some(lines + rows[1..]) && lines + rows[1..] == lines;
  }

  /** The rewritten star import binds what the star import bound. */
  ghost predicate StarIsKept(tree: Tree, own: Names, fileDir: Dir, s: Statement)
    requires s.From?
  {
    var next := Step(tree, fileDir, [[s]]);
    && next.Some? && |next.value| == 1 && |next.value[0]| == 1 && next.value[0][0].From?
    && var line := next.value[0][0];
       forall name :: StarBinds(tree, own, TargetDir(tree, fileDir, s.level, s.target), name)
                   == StarBinds(tree, own, TargetDir(tree, fileDir, line.level, line.target), name)
  }

  /** No binding of the `__init__` gives a public name that the module does not. */
  ghost predicate GivesNoMore(tree: Tree, own: Names, dir: Dir, exports: seq<Export>, leafDir: Dir) {
    forall i, name | 0 <= i < |exports| && IsPublic(name) && Gives(tree, own, dir, exports[i], name).Some? ::
      name in own(leafDir)
  }

  /** What gives a name of the module last gives the leafDirs. */
  ghost predicate GivesLast(tree: Tree, own: Names, dir: Dir, exports: seq<Export>, leafDir: Dir) {
    forall name | name in own(leafDir) ::
      IsPublic(name) && exists i :: IsLast(tree, own, dir, exports, i, name)
                                    && Gives(tree, own, dir, exports[i], name) == Some(Origin(leafDir, name))
  }

  predicate IsLast(tree: Tree, own: Names, dir: Dir, exports: seq<Export>, i: int, name: string) {
    && 0 <= i < |exports| && Gives(tree, own, dir, exports[i], name).Some?
    && forall j :: i < j < |exports| ==> Gives(tree, own, dir, exports[j], name).None?
  }

  lemma {:induction false} NamespaceIsLast(tree: Tree, own: Names, dir: Dir, exports: seq<Export>, name: string)
    returns (i: int)
    ensures Namespace(tree, own, dir, exports, name).Some? ==>
              && IsLast(tree, own, dir, exports, i, name)
              && Gives(tree, own, dir, exports[i], name) == Namespace(tree, own, dir, exports, name)
    ensures Namespace(tree, own, dir, exports, name).None? ==>
              forall j :: 0 <= j < |exports| ==> Gives(tree, own, dir, exports[j], name).None?
  {
    i := |exports| - 1;
    if exports != [] && Gives(tree, own, dir, exports[i], name).None? {
      i := NamespaceIsLast(tree, own, dir, exports[..i], name);
    }
  }

  /** A star import is kept exactly when the module alone decides what the package gives. */
  lemma StarIsKeptExactlyWhen(tree: Tree, own: Names, fileDir: Dir, s: Statement, leaf: seq<string>)
    requires FindsStar(tree, fileDir, s, leaf) && SearchDir(fileDir, s) + leaf !in tree.inits
    ensures var dir := SearchDir(fileDir, s);
            StarIsKept(tree, own, fileDir, s) <==>
            && GivesNoMore(tree, own, dir, tree.inits[dir], dir + leaf)
            && GivesLast(tree, own, dir, tree.inits[dir], dir + leaf)
  {
    var dir := SearchDir(fileDir, s);
    var exports := tree.inits[dir];
    StarStep(tree, fileDir, s, leaf);
    if StarIsKept(tree, own, fileDir, s) {
      KeptGives(tree, own, dir, leaf);
    }
    if GivesNoMore(tree, own, dir, exports, dir + leaf) && GivesLast(tree, own, dir, exports, dir + leaf) {
      forall name
        ensures StarBinds(tree, own, dir, name) == StarBinds(tree, own, dir + leaf, name)
      {
        GivesKeeps(tree, own, dir, leaf, name);
      }
    }
  }

  lemma KeptGives(tree: Tree, own: Names, dir: Dir, leaf: seq<string>)
    requires dir in tree.inits && dir + leaf !in tree.inits
    requires forall name :: StarBinds(tree, own, dir, name) == StarBinds(tree, own, dir + leaf, name)
    ensures GivesNoMore(tree, own, dir, tree.inits[dir], dir + leaf)
    ensures GivesLast(tree, own, dir, tree.inits[dir], dir + leaf)
  {
    var exports := tree.inits[dir];
    forall i, name | 0 <= i < |exports| && IsPublic(name) && Gives(tree, own, dir, exports[i], name).Some?
      ensures name in own(dir + leaf)
    {
      var last := NamespaceIsLast(tree, own, dir, exports, name);
      assert StarBinds(tree, own, dir, name) == StarBinds(tree, own, dir + leaf, name);
    }
    forall name | name in own(dir + leaf)
      ensures IsPublic(name) && exists i :: IsLast(tree, own, dir, exports, i, name)
                                            && Gives(tree, own, dir, exports[i], name) == Some(Origin(dir + leaf, name))
    {
      var last := NamespaceIsLast(tree, own, dir, exports, name);
      assert StarBinds(tree, own, dir, name) == StarBinds(tree, own, dir + leaf, name);
    }
  }

  lemma GivesKeeps(tree: Tree, own: Names, dir: Dir, leaf: seq<string>, name: string)
    requires dir in tree.inits && dir + leaf !in tree.inits
    requires GivesNoMore(tree, own, dir, tree.inits[dir], dir + leaf)
    requires GivesLast(tree, own, dir, tree.inits[dir], dir + leaf)
    ensures StarBinds(tree, own, dir, name) == StarBinds(tree, own, dir + leaf, name)
  {
    var exports := tree.inits[dir];
    var last := NamespaceIsLast(tree, own, dir, exports, name);
    if name in own(dir + leaf) {
      var i :| IsLast(tree, own, dir, exports, i, name)
               && Gives(tree, own, dir, exports[i], name) == Some(Origin(dir + leaf, name));
      assert i == last;
    }
  }

  /** So a package that star-imports a module and defines a further public name of its own loses that name. */
  lemma OwnNameIsLost(tree: Tree, own: Names, fileDir: Dir, s: Statement, leaf: seq<string>, i: nat, name: string)
    requires FindsStar(tree, fileDir, s, leaf) && SearchDir(fileDir, s) + leaf !in tree.inits
    requires i < |tree.inits[SearchDir(fileDir, s)]| && tree.inits[SearchDir(fileDir, s)][i] == Own(name)
    requires IsPublic(name) && name !in own(SearchDir(fileDir, s) + leaf)
    ensures !StarIsKept(tree, own, fileDir, s)
  {
    StarIsKeptExactlyWhen(tree, own, fileDir, s, leaf);
    assert Gives(tree, own, SearchDir(fileDir, s), tree.inits[SearchDir(fileDir, s)][i], name).Some?;
  }
}
