/**
 Which imports are rewritten, and into what, read off the exports of the package that is found: for every alias the
 first re-export of its new name decides.
 */
module BarrelLookups {
  import opened Wrappers
  import opened BarrelImports
  import opened BarrelMisreads

  // ----- what the lookup goes by -----

  /** A re-export from a named module, under this name. */
  predicate Offers(e: Export, symbol: string) {
    e.Reexport? && e.target != [] && e.local == symbol
  }

  predicate IsFirstOffer(exports: seq<Export>, symbol: string, i: nat) {
    i < |exports| && Offers(exports[i], symbol) && forall j :: 0 <= j < i ==> !Offers(exports[j], symbol)
  }

  predicate IsOffered(exports: seq<Export>, symbol: string) {
    exists i :: 0 <= i < |exports| && Offers(exports[i], symbol)
  }

  /** The name an alias gets in the importing file: the new one of an import with `as`. */
  predicate IsCalled(a: Alias, symbol: string) {
    a.asname == Some(symbol) || (a.asname.None? && a.name == symbol)
  }

  /** Of the aliases of one name, the last. */
  predicate IsLastOf(names: seq<Alias>, name: string, j: nat) {
    j < |names| && names[j].name == name && forall l :: j < l < |names| ==> names[l].name != name
  }

  /** The directory that is looked at: up from the file's by the dots but one, and down by the module. */
  function Looked(fileDir: Dir, s: Statement): Dir
    requires s.From?
  {
    var up := if s.level > 1 then s.level - 1 else 0;
    (if up <= |fileDir| then fileDir[..|fileDir| - up] else []) + s.target
  }

  /** It is a package, and no module of its name lies beside it. */
  predicate FindsPackage(tree: Tree, fileDir: Dir, s: Statement) {
    s.From? && Looked(fileDir, s) in tree.inits && Looked(fileDir, s) !in tree.modules
  }

  // ----- the lookup -----

  lemma {:induction false} UpClimbs(d: Dir, n: nat)
    ensures Up(d, n) == if n <= |d| then d[..|d| - n] else []
  {
    if n > 0 && d != [] {
      UpClimbs(d[..|d| - 1], n - 1);
      assert n <= |d| ==> d[..|d| - 1][..|d| - n] == d[..|d| - n];
    } else {
      assert d[..|d|] == d;
    }
  }

  lemma LookedIsSearched(fileDir: Dir, s: Statement)
    requires s.From?
    ensures SearchDir(fileDir, s) == Looked(fileDir, s)
  {
    UpClimbs(fileDir, Steps(s.level));
  }

  lemma {:induction false} FirstOfferDecides(exports: seq<Export>, symbol: string, i: nat)
    requires IsFirstOffer(exports, symbol, i)
    ensures Leaf(exports, symbol) == Some(exports[i].target)
    decreases i
  {
    if i > 0 {
      assert !Offers(exports[0], symbol);
      assert forall j :: 0 <= j < i - 1 ==> exports[1..][j] == exports[j + 1];
      FirstOfferDecides(exports[1..], symbol, i - 1);
    }
  }

  lemma {:induction false} NothingIsOffered(exports: seq<Export>, symbol: string)
    ensures Leaf(exports, symbol).Some? <==> IsOffered(exports, symbol)
  {
    if exports != [] {
      NothingIsOffered(exports[1..], symbol);
      if IsOffered(exports[1..], symbol) {
        var j :| 0 <= j < |exports[1..]| && Offers(exports[1..][j], symbol);
        assert Offers(exports[j + 1], symbol);
      }
      if i :| 0 <= i < |exports| && Offers(exports[i], symbol) {
        assert i > 0 ==> Offers(exports[1..][i - 1], symbol);
      }
    }
  }

  lemma {:induction false} LastAliasDecides(exports: seq<Export>, names: seq<Alias>, j: nat, symbol: string)
    requires j < |names| && IsLastOf(names, names[j].name, j) && IsCalled(names[j], symbol)
    ensures LeafByName(exports, names, names[j].name) == Leaf(exports, symbol)
    decreases |names|
  {
    if j < |names| - 1 {
      var front := names[..|names| - 1];
      assert forall l :: j < l < |front| ==> front[l] == names[l];
      LastAliasDecides(exports, front, j, symbol);
    }
  }

  lemma {:induction false} SomeAliasIsLast(names: seq<Alias>, k: nat) returns (j: nat)
    requires k < |names|
    ensures IsLastOf(names, names[k].name, j)
    decreases |names| - k
  {
    if l :| k < l < |names| && names[l].name == names[k].name {
      j := SomeAliasIsLast(names, l);
    } else {
      j := k;
    }
  }

  function CalledAs(a: Alias): (symbol: string)
    ensures IsCalled(a, symbol)
  {
    if a.asname.Some? then a.asname.value else a.name
  }

  /** An alias, the last of its name, whose new name some export offers. */
  ghost predicate FindsLeaf(exports: seq<Export>, names: seq<Alias>, j: nat, symbol: string) {
    j < |names| && IsLastOf(names, names[j].name, j) && IsCalled(names[j], symbol) && IsOffered(exports, symbol)
  }

  /** An import is rewritten exactly when it finds a package, and there an offer for the new name of some alias. */
  lemma RewrittenExactlyWhen(tree: Tree, fileDir: Dir, s: Statement)
    ensures Rewritable(tree, fileDir, s) <==>
            && FindsPackage(tree, fileDir, s)
            && exists j, symbol :: FindsLeaf(tree.inits[Looked(fileDir, s)], s.names, j, symbol)
  {
    if s.From? {
      LookedIsSearched(fileDir, s);
      if FindsPackage(tree, fileDir, s) {
        var exports := tree.inits[Looked(fileDir, s)];
        if i :| 0 <= i < |s.names| && LeafByName(exports, s.names, s.names[i].name).Some? {
          var j := SomeAliasIsLast(s.names, i);
          LastAliasDecides(exports, s.names, j, CalledAs(s.names[j]));
          NothingIsOffered(exports, CalledAs(s.names[j]));
          assert FindsLeaf(exports, s.names, j, CalledAs(s.names[j]));
        }
        if j, symbol :| FindsLeaf(exports, s.names, j, symbol) {
          LastAliasDecides(exports, s.names, j, symbol);
          NothingIsOffered(exports, symbol);
        }
      }
    }
  }

  // ----- the new lines -----

  /** The alias as the new line writes it: `as` only if it renames. */
  predicate IsRewrittenAlias(a: Alias, written: Alias) {
    written.name == a.name && written.asname == (if a.asname == Some(a.name) then None else a.asname)
  }

  lemma {:induction false} LinesAt(exports: seq<Export>, s: Statement, count: nat, k: nat)
    requires s.From? && k < count <= |s.names|
    ensures Lines(exports, s, count)[k] == [LineAt(exports, s, k)]
  {
    if k < count - 1 {
      LinesAt(exports, s, count - 1, k);
    }
  }

  /**
   Every alias gets a line of its own. With `j` the last alias of its name, the line goes to the target of the first
   offer for what `j` is called, below the module of the import, or to that module if there is no offer.
   */
  lemma LineGoesToTheFirstOffer(tree: Tree, fileDir: Dir, s: Statement, k: nat, j: nat, symbol: string)
    requires Rewritable(tree, fileDir, s) && k < |s.names|
    requires IsLastOf(s.names, s.names[k].name, j) && IsCalled(s.names[j], symbol)
    ensures Looked(fileDir, s) in tree.inits && |LinesFor(tree, fileDir, s)| == |s.names|
    ensures var exports, lines := tree.inits[Looked(fileDir, s)], LinesFor(tree, fileDir, s);
            && |lines[k]| == 1 && lines[k][0].From? && lines[k][0].level == s.level && |lines[k][0].names| == 1
            && IsRewrittenAlias(s.names[k], lines[k][0].names[0])
            && (forall i: nat :: IsFirstOffer(exports, symbol, i) ==>
                  lines[k][0].target == s.target + exports[i].target)
            && (!IsOffered(exports, symbol) ==> lines[k][0].target == s.target)
  {
    LookedIsSearched(fileDir, s);
    var exports := tree.inits[SearchDir(fileDir, s)];
    LinesAt(exports, s, |s.names|, k);
    LastAliasDecides(exports, s.names, j, symbol);
    NothingIsOffered(exports, symbol);
    forall i: nat | IsFirstOffer(exports, symbol, i)
      ensures Leaf(exports, symbol) == Some(exports[i].target)
    {
      FirstOfferDecides(exports, symbol, i);
    }
  }

  // ----- the file -----

  /** The first import of the row that can be rewritten. */
  ghost predicate IsFirstIn(tree: Tree, fileDir: Dir, row: Row, c: nat) {
    c < |row| && Rewritable(tree, fileDir, row[c]) && forall b :: 0 <= b < c ==> !Rewritable(tree, fileDir, row[b])
  }

  lemma {:induction false} FirstInRow(tree: Tree, fileDir: Dir, row: Row, c: nat)
    requires IsFirstIn(tree, fileDir, row, c)
    ensures FirstIn(tree, fileDir, row) == Some(row[c])
    decreases c
  {
    if c > 0 {
      assert !Rewritable(tree, fileDir, row[0]);
      assert forall b :: 0 <= b < c - 1 ==> row[1..][b] == row[b + 1];
      FirstInRow(tree, fileDir, row[1..], c - 1);
    }
  }

  /** One step: the first row with an import that can be rewritten gives way to the lines of its first such import. */
  lemma StepReplacesTheFirst(tree: Tree, fileDir: Dir, rows: seq<Row>, r: nat, c: nat)
    requires r < |rows| && IsFirstIn(tree, fileDir, rows[r], c)
    requires forall q, s :: 0 <= q < r && s in rows[q] ==> !Rewritable(tree, fileDir, s)
    ensures Step(tree, fileDir, rows) == Some(rows[..r] + LinesFor(tree, fileDir, rows[r][c]) + rows[r + 1..])
  {
    FirstInRow(tree, fileDir, rows[r], c);
    forall row | row in rows[..r]
      ensures FirstIn(tree, fileDir, row).None?
    {
      var q :| 0 <= q < r && rows[q] == row;
    }
    StepTakes(tree, fileDir, rows[..r], rows[r], rows[r + 1..]);
    assert rows == rows[..r] + ([rows[r]] + rows[r + 1..]);
    var lines := LinesFor(tree, fileDir, rows[r][c]);
    assert rows[..r] + (lines + rows[r + 1..]) == rows[..r] + lines + rows[r + 1..];
  }

  lemma {:induction false} NothingToRewrite(tree: Tree, fileDir: Dir, rows: seq<Row>)
    requires forall row, s :: row in rows && s in row ==> !Rewritable(tree, fileDir, s)
    ensures Step(tree, fileDir, rows).None? && Rewritten(tree, fileDir, rows) == rows
  {
    if rows != [] {
      assert rows[0] in rows && forall row :: row in rows[1..] ==> row in rows;
      NothingToRewrite(tree, fileDir, rows[1..]);
    }
  }

  // ----- imports with `as` -----

  lemma SomeFirstOffer(exports: seq<Export>, symbol: string) returns (o: nat)
    requires IsOffered(exports, symbol)
    ensures IsFirstOffer(exports, symbol, o)
  {
    o := 0;
    while !Offers(exports[o], symbol)
      invariant o < |exports| && forall j :: 0 <= j < o ==> !Offers(exports[j], symbol)
      invariant exists i :: o <= i < |exports| && Offers(exports[i], symbol)
      decreases |exports| - o
    {
      o := o + 1;
    }
  }

  /** The two names lead to one module. */
  ghost predicate LeadAlike(exports: seq<Export>, name: string, newName: string) {
    exists o: nat, i: nat :: IsFirstOffer(exports, name, o) && IsFirstOffer(exports, newName, i)
                             && exports[o].target == exports[i].target
  }

  lemma LeadAlikeExactlyWhen(exports: seq<Export>, name: string, newName: string, i: nat)
    requires IsFirstOffer(exports, newName, i)
    ensures LeadAlike(exports, name, newName) <==> Leaf(exports, name) == Some(exports[i].target)
  {
    NothingIsOffered(exports, name);
    FirstOfferDecides(exports, newName, i);
    if Leaf(exports, name).Some? {
      var o := SomeFirstOffer(exports, name);
      FirstOfferDecides(exports, name, o);
    }
    if o: nat, p: nat :| IsFirstOffer(exports, name, o) && IsFirstOffer(exports, newName, p)
                         && exports[o].target == exports[p].target {
      FirstOfferDecides(exports, name, o);
      FirstOfferDecides(exports, newName, p);
    }
  }

  /** What is offered under the name is not itself a package. */
  ghost predicate TakesFromModules(tree: Tree, dir: Dir, name: string)
    requires dir in tree.inits
  {
    forall e :: e in tree.inits[dir] && Offers(e, name) ==> dir + e.target !in tree.inits
  }

  lemma ModulesAreShallow(tree: Tree, dir: Dir, name: string, newName: string, i: nat)
    requires dir in tree.inits && TakesFromModules(tree, dir, name) && TakesFromModules(tree, dir, newName)
    requires IsFirstOffer(tree.inits[dir], newName, i)
    ensures IsShallow(tree, dir, name, tree.inits[dir][i].target)
  {
    var exports := tree.inits[dir];
    NothingIsOffered(exports, name);
    assert exports[i] in exports;
    if Leaf(exports, name).Some? {
      var o := SomeFirstOffer(exports, name);
      FirstOfferDecides(exports, name, o);
      assert exports[o] in exports;
    }
  }

  /**
   Where a package takes the two names straight from modules, a name imported with `as` is kept exactly when the first
   offers for its old and for its new name lead to one module.
   */
  lemma AsIsKeptExactlyWhen(tree: Tree, fileDir: Dir, s: Statement, k: nat, newName: string)
    requires PlainTree(tree) && Rewritable(tree, fileDir, s) && LooksRight(tree, fileDir, s)
    requires k < |s.names| && s.names[k].asname == Some(newName) && IsLastOf(s.names, s.names[k].name, k)
    requires FindsPackage(tree, fileDir, s) && IsOffered(tree.inits[Looked(fileDir, s)], newName)
    requires TakesFromModules(tree, Looked(fileDir, s), newName)
    requires TakesFromModules(tree, Looked(fileDir, s), s.names[k].name)
    ensures NameIsKept(tree, fileDir, s, k) <==>
            LeadAlike(tree.inits[Looked(fileDir, s)], s.names[k].name, newName)
  {
    LookedIsSearched(fileDir, s);
    var exports, name := tree.inits[Looked(fileDir, s)], s.names[k].name;
    var i := SomeFirstOffer(exports, newName);
    assert LeafByName(exports, s.names, name) == Some(exports[i].target) by {
      LastAliasDecides(exports, s.names, k, newName);
      FirstOfferDecides(exports, newName, i);
    }
    ModulesAreShallow(tree, Looked(fileDir, s), name, newName, i);
    LeadAlikeExactlyWhen(exports, name, newName, i);
    RenamedImportIsKeptExactlyWhen(tree, fileDir, s, k, exports[i].target);
  }
}
