/**
 * The `use` translation and the set of imported top-level modules: which
 * lines a path prints, how the set grows, and that each top-level module is
 * imported at most once over a whole run.
 */
module Imports {
  import opened Syntax
  import opened Text
  import opened TypeMap
  import opened UseExpansion
  import opened Emit
  import opened Properties

  /** Paths into `ctypes` print nothing and import nothing. */
  lemma CtypesSkipped(vis: Visibility, path: UsePath, imports: set<string>)
    requires |path| > 0 && path[0] == "ctypes"
    ensures UsePathEmission(vis, path, imports) == Step([], imports, Ok(()))
  {
  }

  /**
   * Any other path always prints its alias line last; a blank line and the
   * module import come before it exactly when its top-level module is not
   * yet imported; and that module is imported afterwards.
   */
  lemma UsePathLines(vis: Visibility, path: UsePath, imports: set<string>)
    requires |path| > 0 && path[0] != "ctypes"
    ensures var s := UsePathEmission(vis, path, imports);
      && s.status == Ok(())
      && s.imports == imports + {path[0]}
      && |s.lines| == (if path[0] in imports then 1 else 3)
      && s.lines[|s.lines| - 1] == ConstDecl(vis, path[|path| - 1], Join(path, "."))
      && (path[0] !in imports ==> s.lines[..2] == ["", ModuleImport(path[0])])
  {
  }

  /** A `use` item succeeds exactly when its tree has neither a glob nor a rename; otherwise it prints nothing and fails with `Nyi`. */
  lemma UseStatus(vis: Visibility, tree: UseTree, imports: set<string>)
    ensures UseEmission(vis, tree, imports).status.Ok? <==> Supported(tree)
    ensures !Supported(tree) ==> UseEmission(vis, tree, imports) == Step([], imports, Err(Nyi))
  {
    ExpansionSucceedsIff(tree, []);
  }

  /** The top-level modules a list of expanded paths imports. */
  function TopLevels(paths: seq<UsePath>): (r: set<string>)
    requires forall i :: 0 <= i < |paths| ==> |paths[i]| > 0
  {
    set i | 0 <= i < |paths| && paths[i][0] != "ctypes" :: paths[i][0]
  }

  /** The import set only grows, by the top-level module of every path not into `ctypes`. */
  lemma {:induction false} UseImportsGrow(vis: Visibility, paths: seq<UsePath>, imports: set<string>)
    requires forall i :: 0 <= i < |paths| ==> |paths[i]| > 0
    ensures UsePathsEmission(vis, paths, imports).imports == imports + TopLevels(paths)
    decreases |paths|
  {
    if paths != [] {
      var n := |paths| - 1;
      var front := paths[..n];
      UseImportsGrow(vis, front, imports);
      assert forall i :: 0 <= i < n ==> front[i] == paths[i];
      assert TopLevels(paths) == TopLevels(front) + (if paths[n][0] != "ctypes" then {paths[n][0]} else {});
    }
  }

  /** The alias line of a path: `{vis}const {last} = {path joined by "."};`. */
  function AliasLine(vis: Visibility, path: UsePath): string
    requires |path| > 0
  {
    ConstDecl(vis, path[|path| - 1], Join(path, "."))
  }

  /** Every path not into `ctypes` gets its alias line, whether or not its module was new. */
  lemma {:induction false} AliasEmitted(vis: Visibility, paths: seq<UsePath>, imports: set<string>)
    requires forall i :: 0 <= i < |paths| ==> |paths[i]| > 0
    ensures forall i :: 0 <= i < |paths| && paths[i][0] != "ctypes" ==>
      AliasLine(vis, paths[i]) in UsePathsEmission(vis, paths, imports).lines
    decreases |paths|
  {
    if paths != [] {
      var n := |paths| - 1;
      var front := paths[..n];
      AliasEmitted(vis, front, imports);
      var f := UsePathsEmission(vis, front, imports);
      var last := UsePathEmission(vis, paths[n], f.imports);
      var all := UsePathsEmission(vis, paths, imports);
      assert all.lines == f.lines + last.lines;
      forall i | 0 <= i < |paths| && paths[i][0] != "ctypes"
        ensures AliasLine(vis, paths[i]) in all.lines
      {
        if i < n {
          assert front[i] == paths[i];
          assert AliasLine(vis, paths[i]) in f.lines;
        } else {
          UsePathLines(vis, paths[n], f.imports);
          assert last.lines[|last.lines| - 1] == AliasLine(vis, paths[n]);
        }
      }
    }
  }

  /** Distinct identifiers give distinct import lines. */
  lemma ModuleImportInjective(a: string, b: string)
    requires IsIdent(a) && IsIdent(b) && ModuleImport(a) == ModuleImport(b)
    ensures a == b
  {
    var s := ModuleImport(a);
    assert s == "const " + a + " = @import(\"" + a + ".zig\");";
    assert s == "const " + b + " = @import(\"" + b + ".zig\");";
    assert s[6 + |a|] == ' ' && s[6 + |b|] == ' ';
    assert |a| == |b|;
    assert a == s[6..6 + |a|] == b;
  }

  /** Only an import line holds `@`. */
  lemma AtInImport(m: string)
    ensures '@' in ModuleImport(m)
  {
    var mi := ModuleImport(m);
    var tail := " = @import(\"" + m + ".zig\");";
    assert mi == ("const " + m) + tail;
    assert tail[3] == '@';
    assert mi[|m| + 9] == tail[3];
  }

  lemma NoAtInAlias(vis: Visibility, path: UsePath)
    requires IdentPath(path)
    ensures '@' !in ConstDecl(vis, path[|path| - 1], Join(path, "."))
  {
    var last := path[|path| - 1];
    assert IsIdent(last);
    var joined := Join(path, ".");
    JoinAvoids(path, ".", '@');
    var v := VisToZig(vis);
    assert '@' !in v;
    var a := v + "const ";
    assert '@' !in a;
    var b := a + last;
    assert '@' !in b;
    var c := b + " = ";
    assert '@' !in c;
    var d := c + joined;
    assert '@' !in d;
    assert ConstDecl(vis, last, joined) == d + ";";
  }

  /** An alias line of identifiers is never an import line. */
  lemma AliasIsNotImport(vis: Visibility, path: UsePath, m: string)
    requires IdentPath(path)
    ensures ConstDecl(vis, path[|path| - 1], Join(path, ".")) != ModuleImport(m)
  {
    AtInImport(m);
    NoAtInAlias(vis, path);
  }

  /** A non-empty path of identifiers. */
  predicate IdentPath(p: UsePath) {
    |p| > 0 && forall j :: 0 <= j < |p| ==> IsIdent(p[j])
  }

  predicate IdentPaths(paths: seq<UsePath>) {
    forall i :: 0 <= i < |paths| ==> IdentPath(paths[i])
  }

  /** Counting an import line over two consecutive stretches of output whose import sets grow. */
  lemma CountStep(m: string, i0: set<string>, i1: set<string>, i2: set<string>, c1: int, c2: int)
    requires i0 <= i1 <= i2
    requires c1 == (if m !in i0 && m in i1 then 1 else 0)
    requires c2 == (if m !in i1 && m in i2 then 1 else 0)
    ensures c1 + c2 == (if m !in i0 && m in i2 then 1 else 0)
  {
  }

  /** One path prints the import line of `m` exactly when it brings `m` into the set. */
  lemma PathImportCount(vis: Visibility, path: UsePath, imports: set<string>, m: string)
    requires IdentPath(path)
    requires IsIdent(m)
    ensures var s := UsePathEmission(vis, path, imports);
      && imports <= s.imports
      && multiset(s.lines)[ModuleImport(m)] == (if m !in imports && m in s.imports then 1 else 0)
  {
    var top := path[0];
    if top != "ctypes" {
      var alias := ConstDecl(vis, path[|path| - 1], Join(path, "."));
      AliasIsNotImport(vis, path, m);
      assert |ModuleImport(m)| > 0;
      if top !in imports {
        assert IsIdent(top);
        if ModuleImport(top) == ModuleImport(m) {
          ModuleImportInjective(top, m);
        }
        assert UsePathEmission(vis, path, imports).lines == ["", ModuleImport(top)] + [alias];
        assert multiset(["", ModuleImport(top)] + [alias])[ModuleImport(m)] == (if top == m then 1 else 0);
      } else {
        assert UsePathEmission(vis, path, imports).lines == [alias];
      }
    }
  }

  /** The paths of one `use` item together print the import line of `m` exactly when they bring `m` into the set. */
  lemma {:induction false} PathsImportCount(vis: Visibility, paths: seq<UsePath>, imports: set<string>, m: string)
    requires IdentPaths(paths)
    requires IsIdent(m)
    ensures var s := UsePathsEmission(vis, paths, imports);
      && imports <= s.imports
      && multiset(s.lines)[ModuleImport(m)] == (if m !in imports && m in s.imports then 1 else 0)
    decreases |paths|
  {
    if paths != [] {
      var n := |paths| - 1;
      var front := paths[..n];
      assert IdentPaths(front) by {
        assert forall i :: 0 <= i < n ==> front[i] == paths[i];
      }
      PathsImportCount(vis, front, imports, m);
      var f := UsePathsEmission(vis, front, imports);
      assert IdentPath(paths[n]);
      PathImportCount(vis, paths[n], f.imports, m);
      var last := UsePathEmission(vis, paths[n], f.imports);
      assert UsePathsEmission(vis, paths, imports) == Step(f.lines + last.lines, last.imports, Ok(()));
      var target := ModuleImport(m);
      assert multiset(f.lines + last.lines)[target] == multiset(f.lines)[target] + multiset(last.lines)[target];
      CountStep(m, imports, f.imports, last.imports, multiset(f.lines)[target], multiset(last.lines)[target]);
    }
  }

  /** The driver passes a `use` item's output through when it succeeds, and otherwise adds only the `Nyi` comment. */
  lemma UseItemWrap(linkName: string, imports: set<string>, vis: Visibility, tree: UseTree)
    ensures var u := UseEmission(vis, tree, imports);
      WrapEmission(linkName, imports, ItemUse(vis, tree))
        == if u.status.Ok? then u else Step([NyiComment], imports, Ok(()))
  {
    UseStatus(vis, tree, imports);
    assert [] + [NyiComment] == [NyiComment];
  }

  /** A `use` item of identifiers prints the import line of `m` exactly when it brings `m` into the set. */
  lemma UseImportCount(vis: Visibility, tree: UseTree, imports: set<string>, m: string)
    requires IdentTree(tree) && IsIdent(m)
    ensures var s := UseEmission(vis, tree, imports);
      && imports <= s.imports
      && multiset(s.lines)[ModuleImport(m)] == (if m !in imports && m in s.imports then 1 else 0)
  {
    match Expansion(tree, [])
    case None =>
    case Some(paths) =>
      ExpansionIdents(tree, []);
      assert IdentPaths(paths) by {
        forall i | 0 <= i < |paths|
          ensures IdentPath(paths[i])
        {
          assert paths[i] in paths;
        }
      }
      PathsImportCount(vis, paths, imports, m);
  }

  /** The same, for the `use` item as the driver wraps it. */
  lemma UseItemImportCount(linkName: string, imports: set<string>, vis: Visibility, tree: UseTree, m: string)
    requires IdentTree(tree) && IsIdent(m)
    ensures var s := WrapEmission(linkName, imports, ItemUse(vis, tree));
      && imports <= s.imports
      && multiset(s.lines)[ModuleImport(m)] == (if m !in imports && m in s.imports then 1 else 0)
  {
    UseItemWrap(linkName, imports, vis, tree);
    UseImportCount(vis, tree, imports, m);
    assert NyiComment[0] != ModuleImport(m)[0];
  }

  /** A run made of `use` items whose names are identifiers. */
  predicate UseItems(items: seq<Item>) {
    forall i :: 0 <= i < |items| ==> items[i].ItemUse? && IdentTree(items[i].tree)
  }

  /**
   * Over a whole run of `use` items, the import set only grows, and the
   * import line of a module appears once if the run brought the module in and
   * never otherwise: no top-level module is imported twice.
   */
  lemma {:induction false} RunImportCount(linkName: string, imports: set<string>, items: seq<Item>, m: string)
    requires UseItems(items) && IsIdent(m)
    ensures ItemsWellFormed(items)
    ensures var s := RunEmission(linkName, imports, items);
      && imports <= s.imports
      && multiset(s.lines)[ModuleImport(m)] == (if m !in imports && m in s.imports then 1 else 0)
      && multiset(s.lines)[ModuleImport(m)] <= 1
    decreases |items|
  {
    if items != [] {
      var n := |items| - 1;
      var front := items[..n];
      assert UseItems(front) by {
        assert forall i :: 0 <= i < n ==> front[i] == items[i];
      }
      RunImportCount(linkName, imports, front, m);
      RunNeverAborts(linkName, imports, front);
      var f := RunEmission(linkName, imports, front);
      UseItemImportCount(linkName, f.imports, items[n].vis, items[n].tree, m);
      var last := WrapEmission(linkName, f.imports, items[n]);
      assert RunEmission(linkName, imports, items) == Step(f.lines + last.lines, last.imports, last.status) by {
        assert items[..n] == front;
      }
      var target := ModuleImport(m);
      assert multiset(f.lines + last.lines)[target] == multiset(f.lines)[target] + multiset(last.lines)[target];
      CountStep(m, imports, f.imports, last.imports, multiset(f.lines)[target], multiset(last.lines)[target]);
    }
  }
}
