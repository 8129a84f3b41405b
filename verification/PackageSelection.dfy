/** Which Go packages a change can affect: its owners and all that reaches them by imports. */
module PackageSelection {
  import opened Options
  import Ordering

  /** Path components below the repository's root; the root itself is []. */
  type Path = seq<string>

  /** `imports` are the package's own, its tests' and its external tests' imports together. */
  datatype Package = Package(importPath: string, dir: Path, imports: seq<string>, testImports: seq<string>,
    externalImports: seq<string>, embedded: set<Path>)

  const MODULE_FILES: set<string> := {"go.mod", "go.sum", "go.work", "go.work.sum"}
  const ROOT_SUFFIXES: set<string> := {".go", ".c", ".h", ".s", ".cc", ".cpp", ".m", ".f", ".syso", ".swig", ".swigcxx"}

  function LastDot(name: string, n: nat): Option<nat>
    requires n <= |name|
  {
    if n == 0 then None else if name[n - 1] == '.' then Some(n - 1) else LastDot(name, n - 1)
  }

  /** `Path(name).suffix`: not of a name that only begins or ends with its dot. */
  function Suffix(name: string): string {
    match LastDot(name, |name|)
    case None => ""
    case Some(i) => if 0 < i < |name| - 1 then name[i..] else ""
  }

  predicate EndsWith(s: string, end: string) {
    |s| >= |end| && s[|s| - |end|..] == end
  }

  predicate ModuleFile(file: Path) {
    (|file| == 1 && file[0] in MODULE_FILES) || (|file| > 1 && file[0] == "third_party")
  }

  predicate GoFile(file: Path) {
    file != [] && EndsWith(file[|file| - 1], ".go")
  }

  /** The root package owns less than all that lies below it. */
  predicate Owns(p: Package, file: Path) {
    && p.dir <= file
    && (|| p.dir != []
        || (|file| == 1 && Suffix(file[0]) in ROOT_SUFFIXES)
        || (|file| > 1 && file[0] == "testdata")
        || file in p.embedded)
  }

  /** The first of the deepest owners. */
  function Owner(packages: seq<Package>, file: Path): (r: Option<Package>)
    ensures r.Some? ==> r.value in packages && Owns(r.value, file)
    ensures r.None? ==> forall p :: p in packages ==> !Owns(p, file)
    ensures r.Some? ==> forall p :: p in packages && Owns(p, file) ==> |p.dir| <= |r.value.dir|
  {
    if packages == [] then None
    else
      var rest := Owner(packages[1..], file);
      if !Owns(packages[0], file) then rest
      else if rest.Some? && |rest.value.dir| > |packages[0].dir| then rest
      else Some(packages[0])
  }

  function Paths(packages: seq<Package>): set<string> {
    set p | p in packages :: p.importPath
  }

  predicate Imports(p: Package, path: string) {
    path in p.imports || path in p.testImports || path in p.externalImports
  }

  /** Whether everything is selected: no owner can be named for what the change touches. */
  predicate TakesAll(packages: seq<Package>, files: seq<Path>) {
    exists i :: 0 <= i < |files| && (ModuleFile(files[i]) || (GoFile(files[i]) && Owner(packages, files[i]).None?))
  }

  function Owners(packages: seq<Package>, files: seq<Path>): set<string> {
    set i | 0 <= i < |files| && Owner(packages, files[i]).Some? :: Owner(packages, files[i]).value.importPath
  }

  /** Each package of the chain imports the next, and the last owns a changed file. */
  predicate Chain(packages: seq<Package>, seeds: set<string>, chain: seq<Package>) {
    && chain != [] && (forall p :: p in chain ==> p in packages)
    && chain[|chain| - 1].importPath in seeds
    && forall i :: 0 <= i < |chain| - 1 ==> Imports(chain[i], chain[i + 1].importPath)
  }

  ghost predicate Reaches(packages: seq<Package>, seeds: set<string>, path: string) {
    exists chain: seq<Package> :: Chain(packages, seeds, chain) && chain[0].importPath == path
  }

  ghost predicate Closed(packages: seq<Package>, selected: set<string>) {
    forall p, path :: p in packages && path in selected && Imports(p, path) ==> p.importPath in selected
  }

  /** The packages a change selects. */
  ghost function Selection(packages: seq<Package>, files: seq<Path>): set<string> {
    if TakesAll(packages, files) then Paths(packages)
    else set path | path in Paths(packages) && Reaches(packages, Owners(packages, files), path)
  }

  lemma ChainGrows(packages: seq<Package>, seeds: set<string>, p: Package, path: string)
    requires p in packages && Imports(p, path) && Reaches(packages, seeds, path)
    ensures Reaches(packages, seeds, p.importPath)
  {
    var chain: seq<Package> :| Chain(packages, seeds, chain) && chain[0].importPath == path;
    assert Chain(packages, seeds, [p] + chain);
  }

  lemma SeedReaches(packages: seq<Package>, seeds: set<string>, p: Package)
    requires p in packages && p.importPath in seeds
    ensures Reaches(packages, seeds, p.importPath)
  {
    assert Chain(packages, seeds, [p]);
  }

  lemma {:induction false} ChainStaysInClosed(packages: seq<Package>, seeds: set<string>, chain: seq<Package>, closed: set<string>)
    requires Chain(packages, seeds, chain) && Closed(packages, closed) && seeds <= closed
    ensures chain[0].importPath in closed
    decreases |chain|
  {
    if |chain| > 1 {
      var rest := chain[1..];
      assert Chain(packages, seeds, rest) by {
        forall i | 0 <= i < |rest| - 1 ensures Imports(rest[i], rest[i + 1].importPath) {
          assert rest[i] == chain[i + 1] && rest[i + 1] == chain[i + 2];
        }
      }
      ChainStaysInClosed(packages, seeds, rest, closed);
      assert Imports(chain[0], chain[0 + 1].importPath) && chain[0] in chain;
    }
  }

  /** The reaching packages are the least closed set over the owners. */
  lemma SelectionIsLeastClosed(packages: seq<Package>, files: seq<Path>, closed: set<string>)
    requires !TakesAll(packages, files)
    ensures Owners(packages, files) <= Selection(packages, files) && Closed(packages, Selection(packages, files))
    ensures Owners(packages, files) <= closed && Closed(packages, closed) ==> Selection(packages, files) <= closed
  {
    var seeds, selection := Owners(packages, files), Selection(packages, files);
    forall path | path in seeds ensures path in selection {
      var i :| 0 <= i < |files| && Owner(packages, files[i]).Some? && Owner(packages, files[i]).value.importPath == path;
      SeedReaches(packages, seeds, Owner(packages, files[i]).value);
    }
    forall p, path | p in packages && path in selection && Imports(p, path) ensures p.importPath in selection {
      ChainGrows(packages, seeds, p, path);
    }
    if seeds <= closed && Closed(packages, closed) {
      forall path | path in selection ensures path in closed {
        var chain: seq<Package> :| Chain(packages, seeds, chain) && chain[0].importPath == path;
        ChainStaysInClosed(packages, seeds, chain, closed);
      }
    }
  }

  /** Changing more files never selects fewer packages. */
  lemma SelectionIsMonotone(packages: seq<Package>, files: seq<Path>, more: seq<Path>)
    requires forall f :: f in files ==> f in more
    ensures Selection(packages, files) <= Selection(packages, more)
  {
    if TakesAll(packages, files) {
      var i :| 0 <= i < |files| && (ModuleFile(files[i]) || (GoFile(files[i]) && Owner(packages, files[i]).None?));
      assert files[i] in more;
      var j :| 0 <= j < |more| && more[j] == files[i];
    } else if !TakesAll(packages, more) {
      var seeds := Owners(packages, files);
      forall path | path in seeds ensures path in Owners(packages, more) {
        var i :| 0 <= i < |files| && Owner(packages, files[i]).Some? && Owner(packages, files[i]).value.importPath == path;
        assert files[i] in more;
        var j :| 0 <= j < |more| && more[j] == files[i];
      }
      SelectionIsLeastClosed(packages, more, {});
      SelectionIsLeastClosed(packages, files, Selection(packages, more));
    }
  }

  /** One round of the search: the packages that import a selected one. */
  method Importers(packages: seq<Package>, selected: set<string>) returns (added: set<string>)
    ensures Importing(packages, selected, added)
  {
    added := {};
    for n := 0 to |packages|
      invariant forall path :: path in added <==> exists i :: 0 <= i < n && packages[i].importPath == path && ImportsAny(packages[i], selected)
    {
      if ImportsAny(packages[n], selected) {
        added := added + {packages[n].importPath};
      }
    }
  }

  predicate ImportsAny(p: Package, selected: set<string>) {
    exists path :: path in selected && Imports(p, path)
  }

  /** The loop stops, with exactly the selection in order. */
  method SelectPackages(packages: seq<Package>, files: seq<Path>) returns (list: seq<string>)
    ensures Ordering.Sorted(list, Ordering.Before)
    ensures (forall path :: path in list <==> path in Selection(packages, files)) && forall i, j :: 0 <= i < j < |list| ==> list[i] != list[j]
  {
    var paths := Paths(packages);
    if exists f :: f in files && ModuleFile(f) {
      list := Ordering.SortedKeys(paths);
      return;
    }
    var selected: set<string> := {};
    for n := 0 to |files|
      invariant selected == Owners(packages, files[..n]) && !TakesAll(packages, files[..n])
    {
      OwnersOfOneMore(packages, files, n);
      var owner := Owner(packages, files[n]);
      if owner.Some? {
        selected := selected + {owner.value.importPath};
      } else if GoFile(files[n]) {
        list := Ordering.SortedKeys(paths);
        return;
      }
    }
    assert files[..|files|] == files;
    SelectionIsLeastClosed(packages, files, {});
    selected := Close(packages, selected, Selection(packages, files));
    SelectionIsLeastClosed(packages, files, selected);
    list := Ordering.SortedKeys(selected);
  }

  ghost predicate Importing(packages: seq<Package>, selected: set<string>, added: set<string>) {
    forall path :: path in added <==> exists i :: 0 <= i < |packages| && packages[i].importPath == path && ImportsAny(packages[i], selected)
  }

  lemma NothingAddedIsClosed(packages: seq<Package>, selected: set<string>, added: set<string>)
    requires Importing(packages, selected, added) && added <= selected
    ensures Closed(packages, selected)
  {
    forall p, path | p in packages && path in selected && Imports(p, path) ensures p.importPath in selected {
      assert ImportsAny(p, selected);
      assert p.importPath in added;
    }
  }

  lemma AddedIsInClosed(packages: seq<Package>, closed: set<string>, selected: set<string>, added: set<string>)
    requires Closed(packages, closed) && selected <= closed && Importing(packages, selected, added)
    ensures added <= closed
  {
    forall path | path in added ensures path in closed {
      var i :| 0 <= i < |packages| && packages[i].importPath == path && ImportsAny(packages[i], selected);
    }
  }

  /** `least` bounds the search from above, and what the search ends with is closed. */
  method Close(packages: seq<Package>, owners: set<string>, ghost least: set<string>) returns (selected: set<string>)
    requires owners <= least <= Paths(packages) && Closed(packages, least)
    ensures owners <= selected <= least && Closed(packages, selected)
  {
    selected := owners;
    var added := Importers(packages, selected);
    AddedIsInClosed(packages, least, selected, added);
    while !(added <= selected)
      invariant owners <= selected <= least && added <= least
      invariant Importing(packages, selected, added)
      decreases least - selected
    {
      selected := selected + added;
      added := Importers(packages, selected);
      AddedIsInClosed(packages, least, selected, added);
    }
    NothingAddedIsClosed(packages, selected, added);
  }

  predicate OwnedBy(packages: seq<Package>, file: Path, path: string) {
    Owner(packages, file).Some? && Owner(packages, file).value.importPath == path
  }

  lemma OwnersHas(packages: seq<Package>, files: seq<Path>, path: string)
    ensures path in Owners(packages, files) <==> exists i :: 0 <= i < |files| && OwnedBy(packages, files[i], path)
  {
    if path in Owners(packages, files) {
      var i :| 0 <= i < |files| && Owner(packages, files[i]).Some? && Owner(packages, files[i]).value.importPath == path;
      assert OwnedBy(packages, files[i], path);
    }
  }

  lemma OneMoreFile(packages: seq<Package>, files: seq<Path>, n: nat, path: string)
    requires n < |files|
    ensures path in Owners(packages, files[..n + 1]) <==> path in Owners(packages, files[..n]) || OwnedBy(packages, files[n], path)
  {
    var few, more := files[..n], files[..n + 1];
    OwnersHas(packages, few, path);
    OwnersHas(packages, more, path);
    assert more == few + [files[n]];
    if path in Owners(packages, few) {
      var i :| 0 <= i < |few| && OwnedBy(packages, few[i], path);
      assert more[i] == few[i];
    }
    assert more[n] == files[n];
  }

  lemma OwnersOfOneMore(packages: seq<Package>, files: seq<Path>, n: nat)
    requires n < |files|
    ensures var owner := Owner(packages, files[n]);
      Owners(packages, files[..n + 1]) == Owners(packages, files[..n]) + (if owner.Some? then {owner.value.importPath} else {})
  {
    forall path ensures path in Owners(packages, files[..n + 1]) <==> path in Owners(packages, files[..n]) || OwnedBy(packages, files[n], path) {
      OneMoreFile(packages, files, n, path);
    }
  }
}
