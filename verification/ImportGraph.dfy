/**
 * Which modules the installed entry points import. The files under the source root are given as what
 * looking each dotted name up finds, and each file as the import facts of its syntax tree.
 */
module ImportGraph {
  import opened Wrappers

  /** A dotted name, as its parts. */
  datatype Module = Module(parts: seq<string>)

  datatype Node =
    | Import(names: seq<Module>)
    | ImportFrom(level: nat, from: Option<Module>, aliases: seq<string>)
    /** A call of `__import__` or `import_module`; no target when its first argument is not a text constant. */
    | DynamicImport(target: Option<Module>)
    | OtherNode

  datatype Source = Unreadable | Parsed(nodes: seq<Node>)

  /** A dotted name is missing, found twice, or found once, as a package or as a plain file. */
  datatype Found = Ambiguous | File(isPackage: bool, source: Source)

  datatype Tree = Tree(files: map<Module, Found>)

  function Roots(): seq<Module> {
    [Module(["ea", "cli", "app"]), Module(["ea", "web", "server"])]
  }

  predicate IsEa(m: Module) { m.parts != [] && m.parts[0] == "ea" }

  predicate IsFile(tree: Tree, m: Module) { m in tree.files && tree.files[m].File? }

  /** The dotted prefixes of a name from position `from` on, the name itself last. */
  function PrefixesFrom(m: Module, from: nat): seq<Module>
    decreases |m.parts| - from
  {
    if from >= |m.parts| then [] else [Module(m.parts[..from + 1])] + PrefixesFrom(m, from + 1)
  }

  /** `add(module)`: every prefix must be one file, and all of them are pushed. */
  function Added(tree: Tree, m: Module): Option<seq<Module>> {
    var prefixes := PrefixesFrom(m, 0);
    if forall p :: p in prefixes ==> IsFile(tree, p) then Some(prefixes) else None
  }

  function Both(a: Option<seq<Module>>, b: Option<seq<Module>>): Option<seq<Module>> {
    if a.Some? && b.Some? then Some(a.value + b.value) else None
  }

  function NamesAdded(tree: Tree, names: seq<Module>): Option<seq<Module>> {
    if names == [] then Some([])
    else Both(if IsEa(names[0]) then Added(tree, names[0]) else Some([]), NamesAdded(tree, names[1..]))
  }

  /** A name imported from a package is itself a module only if there is a file for it. */
  function ChildrenAdded(tree: Tree, base: Module, aliases: seq<string>): Option<seq<Module>> {
    if aliases == [] then Some([])
    else
      var child := Module(base.parts + [aliases[0]]);
      Both(if child !in tree.files then Some([]) else Added(tree, child), ChildrenAdded(tree, base, aliases[1..]))
  }

  /** The package a module's relative imports start from; a top-level plain module has the empty name. */
  function PackageOf(m: Module, isPackage: bool): Module {
    if isPackage then m else if |m.parts| <= 1 then Module([""]) else Module(m.parts[..|m.parts| - 1])
  }

  /** The absolute base of an import-from, unless it climbs above its package. */
  function BaseOf(package: Module, level: nat, from: Option<Module>): Option<Module> {
    if level == 0 then Some(if from.Some? then from.value else Module([""]))
    else if level > |package.parts| then None
    else Some(Module(package.parts[..|package.parts| - level + 1] + (if from.Some? then from.value.parts else [])))
  }

  /** What one node pushes; nothing when it makes the whole search uncertain. */
  function NodeTargets(tree: Tree, package: Module, node: Node): Option<seq<Module>> {
    match node
    case Import(names) => NamesAdded(tree, names)
    case ImportFrom(level, from, aliases) =>
      var base := BaseOf(package, level, from);
      if base.None? then None
      else if !IsEa(base.value) then Some([])
      else Both(Added(tree, base.value), ChildrenAdded(tree, base.value, aliases))
    case DynamicImport(target) =>
      if target.None? then None else if IsEa(target.value) then Added(tree, target.value) else Some([])
    case OtherNode => Some([])
  }

  function AllTargets(tree: Tree, package: Module, nodes: seq<Node>): Option<seq<Module>> {
    if nodes == [] then Some([])
    else Both(AllTargets(tree, package, nodes[..|nodes| - 1]), NodeTargets(tree, package, nodes[|nodes| - 1]))
  }

  /** The names a module leads to; nothing when it is unresolved, unreadable or uncertain. */
  function Targets(tree: Tree, m: Module): Option<seq<Module>> {
    if !IsFile(tree, m) || tree.files[m].source.Unreadable? then None
    else AllTargets(tree, PackageOf(m, tree.files[m].isPackage), tree.files[m].source.nodes)
  }

  // ----- what imports mean, without an algorithm

  /** `p` is the name or one of the packages on the way to it. */
  predicate IsPrefixOf(p: Module, name: Module) {
    0 < |p.parts| <= |name.parts| && p.parts == name.parts[..|p.parts|]
  }

  /** The name lies in the package this repository is. */
  predicate IsOwn(name: Module) { IsPrefixOf(Module(["ea"]), name) }

  /** The module one level up; above a top-level name there is only the empty one. */
  function Parent(m: Module): Module {
    if |m.parts| <= 1 then Module([""]) else Module(m.parts[..|m.parts| - 1])
  }

  function Ancestor(m: Module, levels: nat): Module
    decreases levels
  {
    if levels == 0 then m else Ancestor(Parent(m), levels - 1)
  }

  /** A relative import starts at its package with one dot and climbs one parent with each further dot. */
  predicate HasBase(package: Module, level: nat) { level <= |package.parts| }

  function Base(package: Module, level: nat, from: Option<Module>): Module {
    var start := if level == 0 then [] else Ancestor(package, level - 1).parts;
    match from
    case Some(name) => Module(start + name.parts)
    case None => Module(if level == 0 then [""] else start)
  }

  predicate IsChild(tree: Tree, base: Module, aliases: seq<string>, name: Module) {
    && name in tree.files && |name.parts| == |base.parts| + 1
    && name.parts[..|base.parts|] == base.parts && name.parts[|base.parts|] in aliases
  }

  /** What a node imports of this repository: the names it gives, and those of its aliases that have files. */
  ghost predicate Imports(tree: Tree, package: Module, node: Node, name: Module) {
    match node
    case Import(names) => name in names && IsOwn(name)
    case ImportFrom(level, from, aliases) =>
      var base := Base(package, level, from);
      HasBase(package, level) && IsOwn(base) && (name == base || IsChild(tree, base, aliases, name))
    case DynamicImport(target) => target == Some(name) && IsOwn(name)
    case OtherNode => false
  }

  ghost predicate IsImportedPrefix(tree: Tree, package: Module, node: Node, p: Module) {
    exists name :: Imports(tree, package, node, name) && IsPrefixOf(p, name)
  }

  /**
   * A node can be followed with certainty: a dynamic import has a constant target, a relative import
   * climbs no higher than its package, and every name imported and every package on the way is one file.
   */
  ghost predicate Resolves(tree: Tree, package: Module, node: Node) {
    && (node.DynamicImport? ==> node.target.Some?)
    && (node.ImportFrom? ==> HasBase(package, node.level))
    && forall p :: IsImportedPrefix(tree, package, node, p) ==> p in tree.files && tree.files[p].File?
  }

  ghost predicate IsReadable(tree: Tree, m: Module) {
    m in tree.files && tree.files[m].File? && tree.files[m].source.Parsed?
  }

  /** A file's own package: itself when it is one, otherwise its parent. */
  ghost predicate HasNode(tree: Tree, m: Module, package: Module, node: Node) {
    && IsReadable(tree, m) && node in tree.files[m].source.nodes
    && package == if tree.files[m].isPackage then m else Parent(m)
  }

  /** A readable module all of whose imports can be followed with certainty. */
  ghost predicate IsResolved(tree: Tree, m: Module) {
    IsReadable(tree, m) && forall package, node :: HasNode(tree, m, package, node) ==> Resolves(tree, package, node)
  }

  /** Some node of `a` imports `b` or a name below it. */
  ghost predicate IsStep(tree: Tree, a: Module, b: Module) {
    exists package, node :: HasNode(tree, a, package, node) && IsImportedPrefix(tree, package, node, b)
  }

  lemma ResolvedIsFile(tree: Tree, m: Module)
    requires IsResolved(tree, m)
    ensures m in tree.files
  {
  }

  // ----- reachability

  /** A path of imports from an entry point. */
  ghost predicate IsPath(tree: Tree, path: seq<Module>) {
    && path != [] && path[0] in Roots()
    && forall i :: 0 <= i < |path| - 1 ==> IsStep(tree, path[i], path[i + 1])
  }

  ghost predicate IsReachable(tree: Tree, m: Module) {
    exists path :: IsPath(tree, path) && path[|path| - 1] == m
  }

  lemma RootIsReachable(tree: Tree, m: Module)
    requires m in Roots()
    ensures IsReachable(tree, m)
  {
    assert IsPath(tree, [m]);
  }

  lemma StepIsReachable(tree: Tree, a: Module, b: Module)
    requires IsReachable(tree, a) && IsStep(tree, a, b)
    ensures IsReachable(tree, b)
  {
    var path :| IsPath(tree, path) && path[|path| - 1] == a;
    var longer := path + [b];
    forall i | 0 <= i < |longer| - 1 ensures IsStep(tree, longer[i], longer[i + 1]) {
      assert i < |path| - 1 ==> longer[i] == path[i] && longer[i + 1] == path[i + 1];
    }
    assert IsPath(tree, longer);
  }

  /** Some reachable module cannot be resolved with certainty. */
  ghost predicate IsUncertain(tree: Tree) { exists m :: IsReachable(tree, m) && !IsResolved(tree, m) }

  ghost function Installed(tree: Tree): Option<set<Module>> {
    if IsUncertain(tree) then None else Some(set m | m in tree.files && IsReachable(tree, m))
  }

  /** Holds every entry point and everything its members lead to. */
  ghost predicate IsClosed(tree: Tree, modules: set<Module>) {
    && (forall m :: m in Roots() ==> m in modules)
    && forall a, b :: a in modules && IsStep(tree, a, b) ==> b in modules
  }

  lemma {:induction false} PathStaysInside(tree: Tree, modules: set<Module>, path: seq<Module>)
    requires IsClosed(tree, modules) && IsPath(tree, path)
    ensures path[|path| - 1] in modules
    decreases |path|
  {
    if |path| > 1 {
      var before := path[..|path| - 1];
      forall i | 0 <= i < |before| - 1 ensures IsStep(tree, before[i], before[i + 1]) {
        assert before[i] == path[i] && before[i + 1] == path[i + 1];
      }
      PathStaysInside(tree, modules, before);
      assert IsStep(tree, path[|path| - 2], path[|path| - 1]);
    }
  }

  lemma ClosedHoldsReachable(tree: Tree, modules: set<Module>, m: Module)
    requires IsClosed(tree, modules) && IsReachable(tree, m)
    ensures m in modules
  {
    var path :| IsPath(tree, path) && path[|path| - 1] == m;
    PathStaysInside(tree, modules, path);
  }

  // ----- the functions of the search compute just this

  lemma {:induction false} PrefixesAre(m: Module, from: nat)
    ensures forall p :: p in PrefixesFrom(m, from) <==> IsPrefixOf(p, m) && |p.parts| > from
    decreases |m.parts| - from
  {
    if from < |m.parts| {
      PrefixesAre(m, from + 1);
      var first := Module(m.parts[..from + 1]);
      assert forall p :: p in PrefixesFrom(m, from) <==> p == first || p in PrefixesFrom(m, from + 1);
    }
  }

  /** These names are pushed, provided each of them is one file. */
  ghost predicate Adds(tree: Tree, pushed: Option<seq<Module>>, names: iset<Module>) {
    && (pushed.Some? <==> forall p :: p in names ==> p in tree.files && tree.files[p].File?)
    && (pushed.Some? ==> forall p :: p in pushed.value <==> p in names)
  }

  lemma AddedAre(tree: Tree, m: Module)
    ensures Adds(tree, Added(tree, m), iset p | IsPrefixOf(p, m))
  {
    PrefixesAre(m, 0);
  }

  lemma BothAdd(tree: Tree, a: Option<seq<Module>>, b: Option<seq<Module>>, p: iset<Module>, q: iset<Module>)
    requires Adds(tree, a, p) && Adds(tree, b, q)
    ensures Adds(tree, Both(a, b), p + q)
  {
  }

  lemma OwnExactly(name: Module)
    ensures IsEa(name) <==> IsOwn(name)
  {
    assert Module(["ea"]).parts[0] == "ea";
    if IsEa(name) {
      assert name.parts[..1] == ["ea"];
    }
  }

  ghost predicate IsNamePrefix(names: seq<Module>, p: Module) {
    exists name :: name in names && IsOwn(name) && IsPrefixOf(p, name)
  }

  lemma {:induction false} NamesAre(tree: Tree, names: seq<Module>)
    ensures Adds(tree, NamesAdded(tree, names), iset p | IsNamePrefix(names, p))
  {
    hide IsEa, IsOwn, IsPrefixOf, Added, Adds;
    var all := iset p | IsNamePrefix(names, p);
    if names == [] {
      NothingAdded(tree);
      assert all == iset{};
    } else {
      NamesAre(tree, names[1..]);
      OwnExactly(names[0]);
      AddedAre(tree, names[0]);
      NothingAdded(tree);
      var first := if IsOwn(names[0]) then iset p | IsPrefixOf(p, names[0]) else iset{};
      var rest := iset p | IsNamePrefix(names[1..], p);
      BothAdd(tree, if IsEa(names[0]) then Added(tree, names[0]) else Some([]), NamesAdded(tree, names[1..]),
              first, rest);
      forall p ensures p in all <==> p in first + rest {
        if name :| name in names && IsOwn(name) && IsPrefixOf(p, name) {
          assert name == names[0] || name in names[1..];
        }
      }
      assert all == first + rest;
    }
  }

  lemma NothingAdded(tree: Tree)
    ensures Adds(tree, Some([]), iset{})
  {
  }

  ghost predicate IsChildPrefix(tree: Tree, base: Module, aliases: seq<string>, p: Module) {
    exists name :: IsChild(tree, base, aliases, name) && IsPrefixOf(p, name)
  }

  lemma ChildrenOfMore(tree: Tree, base: Module, aliases: seq<string>, name: Module)
    requires aliases != []
    ensures var child := Module(base.parts + [aliases[0]]);
      IsChild(tree, base, aliases, name)
      <==> IsChild(tree, base, aliases[1..], name) || (name == child && child in tree.files)
  {
    assert aliases == [aliases[0]] + aliases[1..];
    if IsChild(tree, base, aliases, name) && name.parts[|base.parts|] == aliases[0] {
      assert name.parts == base.parts + [aliases[0]];
    }
  }

  lemma {:induction false} ChildrenAre(tree: Tree, base: Module, aliases: seq<string>)
    ensures Adds(tree, ChildrenAdded(tree, base, aliases), iset p | IsChildPrefix(tree, base, aliases, p))
  {
    hide IsPrefixOf, Added, Adds;
    var all := iset p | IsChildPrefix(tree, base, aliases, p);
    NothingAdded(tree);
    if aliases == [] {
      assert all == iset{};
    } else {
      hide IsChild;
      ChildrenAre(tree, base, aliases[1..]);
      var child := Module(base.parts + [aliases[0]]);
      AddedAre(tree, child);
      var first := if child in tree.files then iset p | IsPrefixOf(p, child) else iset{};
      var rest := iset p | IsChildPrefix(tree, base, aliases[1..], p);
      BothAdd(tree, if child !in tree.files then Some([]) else Added(tree, child),
              ChildrenAdded(tree, base, aliases[1..]), first, rest);
      forall p ensures p in all <==> p in first + rest {
        forall name {
          ChildrenOfMore(tree, base, aliases, name);
        }
      }
      assert all == first + rest;
    }
  }

  lemma {:induction false} AncestorIs(m: Module, levels: nat)
    requires levels < |m.parts|
    ensures Ancestor(m, levels) == Module(m.parts[..|m.parts| - levels])
    decreases levels
  {
    if levels > 0 {
      AncestorIs(Parent(m), levels - 1);
      assert m.parts[..|m.parts| - 1][..|m.parts| - levels] == m.parts[..|m.parts| - levels];
    } else {
      assert m.parts[..|m.parts|] == m.parts;
    }
  }

  /** Slicing the package's name is climbing it, dot by dot. */
  lemma BaseExactly(package: Module, level: nat, from: Option<Module>)
    ensures BaseOf(package, level, from) == if HasBase(package, level) then Some(Base(package, level, from)) else None
  {
    if level == 0 {
      assert from.Some? ==> [] + from.value.parts == from.value.parts;
    } else if level <= |package.parts| {
      AncestorIs(package, level - 1);
      assert Ancestor(package, level - 1).parts + [] == Ancestor(package, level - 1).parts;
    }
  }

  /** Whatever its kind, a node is followed exactly when it resolves, to what it imports and the packages on the way. */
  lemma NodeLeadsExactly(tree: Tree, package: Module, node: Node)
    ensures NodeTargets(tree, package, node).Some? <==> Resolves(tree, package, node)
    ensures NodeTargets(tree, package, node).Some? ==>
      forall p :: p in NodeTargets(tree, package, node).value <==> IsImportedPrefix(tree, package, node, p)
  {
    hide IsEa, IsOwn, IsPrefixOf, Added, BaseOf, Base, HasBase, IsChild, NamesAdded, ChildrenAdded, Ancestor;
    match node {
      case Import(names) =>
        NamesAre(tree, names);
        forall p ensures IsImportedPrefix(tree, package, node, p) <==> IsNamePrefix(names, p) {
          if name :| name in names && IsOwn(name) && IsPrefixOf(p, name) {
            assert Imports(tree, package, node, name);
          }
        }
      case ImportFrom(_, _, _) =>
        FromLeadsExactly(tree, package, node);
      case DynamicImport(target) =>
        if target.Some? {
          OwnExactly(target.value);
          AddedAre(tree, target.value);
          forall p
            ensures IsImportedPrefix(tree, package, node, p) <==> IsOwn(target.value) && IsPrefixOf(p, target.value)
          {
            assert IsOwn(target.value) ==> Imports(tree, package, node, target.value);
          }
        }
      case OtherNode =>
    }
  }

  lemma FromLeadsExactly(tree: Tree, package: Module, node: Node)
    requires node.ImportFrom?
    ensures NodeTargets(tree, package, node).Some? <==> Resolves(tree, package, node)
    ensures NodeTargets(tree, package, node).Some? ==>
      forall p :: p in NodeTargets(tree, package, node).value <==> IsImportedPrefix(tree, package, node, p)
  {
    hide IsEa, IsOwn, IsPrefixOf, Added, BaseOf, Base, HasBase, IsChild, ChildrenAdded, Both;
    BaseExactly(package, node.level, node.from);
    if HasBase(package, node.level) {
      var base := Base(package, node.level, node.from);
      OwnExactly(base);
      if IsOwn(base) {
        AddedAre(tree, base);
        ChildrenAre(tree, base, node.aliases);
        BothAdd(tree, Added(tree, base), ChildrenAdded(tree, base, node.aliases), iset p | IsPrefixOf(p, base),
                iset p | IsChildPrefix(tree, base, node.aliases, p));
        forall p ensures IsImportedPrefix(tree, package, node, p)
          <==> IsPrefixOf(p, base) || IsChildPrefix(tree, base, node.aliases, p)
        {
          assert Imports(tree, package, node, base);
          if name :| IsChild(tree, base, node.aliases, name) && IsPrefixOf(p, name) {
            assert Imports(tree, package, node, name);
          }
        }
      }
    }
  }

  lemma {:induction false} TargetsByNode(tree: Tree, package: Module, nodes: seq<Node>)
    ensures AllTargets(tree, package, nodes).Some? <==> forall n :: n in nodes ==> NodeTargets(tree, package, n).Some?
    ensures AllTargets(tree, package, nodes).Some? ==>
      forall m :: m in AllTargets(tree, package, nodes).value <==>
        exists n :: n in nodes && m in NodeTargets(tree, package, n).value
  {
    hide NodeTargets;
    if nodes != [] {
      var k := |nodes| - 1;
      TargetsByNode(tree, package, nodes[..k]);
      assert nodes == nodes[..k] + [nodes[k]];
      assert forall n :: n in nodes <==> n in nodes[..k] || n == nodes[k];
      if AllTargets(tree, package, nodes).Some? {
        forall m ensures m in AllTargets(tree, package, nodes).value
          <==> exists n :: n in nodes && m in NodeTargets(tree, package, n).value
        {
          if m in NodeTargets(tree, package, nodes[k]).value {
            assert nodes[k] in nodes;
          }
        }
      }
    }
  }

  /** A module's targets are known exactly when it resolves, and are the modules one step away. */
  lemma TargetsExactly(tree: Tree, m: Module)
    ensures Targets(tree, m).Some? <==> IsResolved(tree, m)
    ensures Targets(tree, m).Some? ==> forall b :: b in Targets(tree, m).value <==> IsStep(tree, m, b)
  {
    hide AllTargets, NodeTargets, Resolves, IsImportedPrefix;
    if IsReadable(tree, m) {
      var package, nodes := PackageOf(m, tree.files[m].isPackage), tree.files[m].source.nodes;
      assert forall other, node :: HasNode(tree, m, other, node) <==> other == package && node in nodes;
      TargetsByNode(tree, package, nodes);
      forall node {
        NodeLeadsExactly(tree, package, node);
      }
    }
  }

  // ----- the worklist

  method CollectTargets(tree: Tree, package: Module, nodes: seq<Node>) returns (targets: Option<seq<Module>>)
    ensures targets == AllTargets(tree, package, nodes)
  {
    hide NodeTargets;
    var pushed: seq<Module> := [];
    for k := 0 to |nodes|
      invariant AllTargets(tree, package, nodes[..k]) == Some(pushed)
    {
      assert nodes[..k + 1][..k] == nodes[..k];
      var targets := NodeTargets(tree, package, nodes[k]);
      if targets.None? {
        UncertainPrefix(tree, package, nodes, k + 1);
        return None;
      }
      pushed := pushed + targets.value;
    }
    assert nodes[..|nodes|] == nodes;
    return Some(pushed);
  }

  lemma {:induction false} UncertainPrefix(tree: Tree, package: Module, nodes: seq<Node>, k: nat)
    requires k <= |nodes| && AllTargets(tree, package, nodes[..k]).None?
    ensures AllTargets(tree, package, nodes).None?
    decreases |nodes|
  {
    if k < |nodes| {
      assert nodes[..|nodes| - 1][..k] == nodes[..k];
      UncertainPrefix(tree, package, nodes[..|nodes| - 1], k);
    } else {
      assert nodes[..k] == nodes;
    }
  }

  ghost predicate IsWorklist(tree: Tree, stack: seq<Module>, visited: set<Module>) {
    && visited <= tree.files.Keys
    && (forall m :: m in visited ==> IsReachable(tree, m) && IsResolved(tree, m))
    && (forall m :: m in stack ==> IsReachable(tree, m))
    && (forall m :: m in Roots() ==> m in visited || m in stack)
    && (forall a, b :: a in visited && IsStep(tree, a, b) ==> b in visited || b in stack)
  }

  lemma SkipVisited(tree: Tree, stack: seq<Module>, visited: set<Module>)
    requires IsWorklist(tree, stack, visited) && stack != [] && stack[|stack| - 1] in visited
    ensures IsWorklist(tree, stack[..|stack| - 1], visited)
  {
    assert forall m :: m in stack ==> m in stack[..|stack| - 1] || m == stack[|stack| - 1];
  }

  lemma VisitTop(tree: Tree, stack: seq<Module>, visited: set<Module>, pushed: seq<Module>)
    requires IsWorklist(tree, stack, visited) && stack != []
    requires Targets(tree, stack[|stack| - 1]) == Some(pushed)
    ensures IsWorklist(tree, stack[..|stack| - 1] + pushed, visited + {stack[|stack| - 1]})
  {
    hide Targets, IsReachable, IsResolved, IsStep, Roots;
    TargetsExactly(tree, stack[|stack| - 1]);
    var top, rest := stack[|stack| - 1], stack[..|stack| - 1];
    assert forall m :: m in stack ==> m in rest || m == top;
    assert top in tree.files by {
      TargetsOf(tree, top);
    }
    forall a, b | a in visited + {top} && IsStep(tree, a, b) ensures b in visited + {top} || b in rest + pushed {
      assert a == top ==> b in pushed;
    }
    forall m | m in pushed ensures IsReachable(tree, m) {
      assert IsStep(tree, top, m);
      StepIsReachable(tree, top, m);
    }
  }

  /** An empty worklist leaves exactly the reachable modules visited. */
  lemma EmptyWorklist(tree: Tree, visited: set<Module>)
    requires IsWorklist(tree, [], visited)
    ensures Installed(tree) == Some(visited)
  {
    hide IsResolved, Roots, IsReachable, IsStep;
    forall m | IsReachable(tree, m) ensures m in visited {
      ClosedHoldsReachable(tree, visited, m);
    }
    assert (set m | m in tree.files && IsReachable(tree, m)) == visited;
  }

  method InstalledPythonModules(tree: Tree) returns (installed: Option<set<Module>>)
    ensures installed == Installed(tree)
  {
    hide Targets, IsStep, IsReachable, IsResolved, IsWorklist, Roots, IsPath, AllTargets;
    var stack := Roots();
    var visited: set<Module> := {};
    StartWorklist(tree);
    while stack != []
      invariant IsWorklist(tree, stack, visited)
      decreases |tree.files.Keys - visited|, |stack|
    {
      ghost var before := stack;
      var m := stack[|stack| - 1];
      TopIsReachable(tree, stack, visited);
      stack := stack[..|stack| - 1];
      if m in visited {
        SkipVisited(tree, before, visited);
        continue;
      }
      TargetsOf(tree, m);
      TargetsExactly(tree, m);
      if m !in tree.files || tree.files[m].Ambiguous? {
        return None;
      }
      if tree.files[m].source.Unreadable? {
        return None;
      }
      var pushed := CollectTargets(tree, PackageOf(m, tree.files[m].isPackage), tree.files[m].source.nodes);
      if pushed.None? {
        return None;
      }
      VisitTop(tree, before, visited, pushed.value);
      VisitedGrows(tree, visited, m);
      visited := visited + {m};
      stack := stack + pushed.value;
    }
    EmptyWorklist(tree, visited);
    return Some(visited);
  }

  lemma StartWorklist(tree: Tree)
    ensures IsWorklist(tree, Roots(), {})
  {
    hide Roots;
    forall m | m in Roots() {
      RootIsReachable(tree, m);
    }
  }

  lemma TopIsReachable(tree: Tree, stack: seq<Module>, visited: set<Module>)
    requires IsWorklist(tree, stack, visited) && stack != []
    ensures IsReachable(tree, stack[|stack| - 1])
  {
  }

  lemma TargetsOf(tree: Tree, m: Module)
    ensures Targets(tree, m) ==
      if !IsFile(tree, m) || tree.files[m].source.Unreadable? then None
      else AllTargets(tree, PackageOf(m, tree.files[m].isPackage), tree.files[m].source.nodes)
  {
  }

  lemma VisitedGrows(tree: Tree, visited: set<Module>, m: Module)
    requires m in tree.files && m !in visited
    ensures |tree.files.Keys - (visited + {m})| < |tree.files.Keys - visited|
  {
    assert tree.files.Keys - (visited + {m}) == tree.files.Keys - visited - {m};
  }

  // ----- what the result means

  /**
   * The search is certain exactly when every module reached by imports is readable and every node of it
   * can be followed; the result is then exactly the modules reached.
   */
  lemma InstalledExactly(tree: Tree)
    ensures Installed(tree).Some? <==>
      forall m :: IsReachable(tree, m) ==>
        IsReadable(tree, m) && forall package, node :: HasNode(tree, m, package, node) ==> Resolves(tree, package, node)
    ensures Installed(tree).Some? ==> forall m :: m in Installed(tree).value <==> IsReachable(tree, m)
  {
    hide IsReachable, Resolves, HasNode;
  }

  /**
   * The result, when certain, is the least set holding the entry points and closed under imports,
   * whatever order the modules are visited in.
   */
  lemma InstalledIsLeastClosed(tree: Tree, modules: set<Module>)
    requires Installed(tree).Some?
    ensures IsClosed(tree, Installed(tree).value)
    ensures IsClosed(tree, modules) ==> Installed(tree).value <= modules
  {
    hide Roots;
    var installed := Installed(tree).value;
    forall m | IsReachable(tree, m) ensures m in installed {
      assert IsResolved(tree, m);
    }
    forall m | m in Roots() ensures m in installed {
      RootIsReachable(tree, m);
    }
    forall a, b | a in installed && IsStep(tree, a, b) ensures b in installed {
      StepIsReachable(tree, a, b);
    }
    if IsClosed(tree, modules) {
      forall m | m in installed ensures m in modules {
        ClosedHoldsReachable(tree, modules, m);
      }
    }
  }

  /** Certainty is exactly the existence of a closed set of modules that all resolve. */
  lemma CertainExactly(tree: Tree)
    ensures Installed(tree).Some? <==>
      exists modules :: IsClosed(tree, modules) && forall m :: m in modules ==> IsResolved(tree, m)
  {
    if Installed(tree).Some? {
      var installed := Installed(tree).value;
      InstalledIsLeastClosed(tree, installed);
      forall m | m in installed ensures IsResolved(tree, m) {
        assert IsReachable(tree, m);
      }
    }
    if modules :| IsClosed(tree, modules) && forall m :: m in modules ==> IsResolved(tree, m) {
      forall m | IsReachable(tree, m) ensures IsResolved(tree, m) {
        ClosedHoldsReachable(tree, modules, m);
      }
    }
  }

  /** The order in which a file's nodes are walked, and any repetition, do not matter. */
  lemma NodeOrderDoesNotMatter(tree: Tree, package: Module, nodes: seq<Node>, others: seq<Node>)
    requires forall n :: n in nodes <==> n in others
    ensures AllTargets(tree, package, nodes).Some? <==> AllTargets(tree, package, others).Some?
    ensures AllTargets(tree, package, nodes).Some? ==>
      forall m :: m in AllTargets(tree, package, nodes).value <==> m in AllTargets(tree, package, others).value
  {
    hide NodeTargets, AllTargets;
    TargetsByNode(tree, package, nodes);
    TargetsByNode(tree, package, others);
  }

  /** A node of an installed module leads only to installed modules. */
  lemma InstalledTargets(tree: Tree, m: Module, package: Module, node: Node, target: Module)
    requires Installed(tree).Some? && m in Installed(tree).value && HasNode(tree, m, package, node)
    requires NodeTargets(tree, package, node).Some? && target in NodeTargets(tree, package, node).value
    ensures target in Installed(tree).value
  {
    hide NodeTargets, HasNode, IsImportedPrefix, IsReachable;
    InstalledIsLeastClosed(tree, {});
    NodeLeadsExactly(tree, package, node);
    assert IsStep(tree, m, target);
  }

  /**
   * Whatever an installed module imports, by a plain, relative, from- or dynamic import, is installed,
   * and so is every package on the way to it.
   */
  lemma ImportedPackagesAreInstalled(tree: Tree, m: Module, package: Module, node: Node, name: Module, p: Module)
    requires Installed(tree).Some? && m in Installed(tree).value && HasNode(tree, m, package, node)
    requires Imports(tree, package, node, name) && IsPrefixOf(p, name)
    ensures p in Installed(tree).value
  {
    hide Imports, IsPrefixOf, HasNode, IsReachable;
    InstalledIsLeastClosed(tree, {});
    assert IsImportedPrefix(tree, package, node, p);
    assert IsStep(tree, m, p);
  }

  /** Every package on the way to a member is a member. */
  ghost predicate HoldsPackages(modules: set<Module>, members: set<Module>) {
    forall m, p :: m in members && IsPrefixOf(p, m) ==> p in modules
  }

  lemma PrefixOfPrefix(p: Module, m: Module, name: Module)
    requires IsPrefixOf(p, m) && IsPrefixOf(m, name)
    ensures IsPrefixOf(p, name)
  {
    assert name.parts[..|m.parts|][..|p.parts|] == name.parts[..|p.parts|];
  }

  /** What an installed module leads to is installed together with its packages. */
  lemma TargetPackages(tree: Tree, a: Module, m: Module, p: Module)
    requires Installed(tree).Some? && a in Installed(tree).value && IsStep(tree, a, m) && IsPrefixOf(p, m)
    ensures p in Installed(tree).value
  {
    hide IsReachable, IsPrefixOf, Imports, HasNode;
    var package, node :| HasNode(tree, a, package, node) && IsImportedPrefix(tree, package, node, m);
    var name :| Imports(tree, package, node, name) && IsPrefixOf(m, name);
    PrefixOfPrefix(p, m, name);
    ImportedPackagesAreInstalled(tree, a, package, node, name, p);
  }

  /** A reachable module is an entry point, or some reachable module leads to it. */
  lemma ReachedFrom(tree: Tree, m: Module)
    requires IsReachable(tree, m)
    ensures m in Roots() || exists a :: IsReachable(tree, a) && IsStep(tree, a, m)
  {
    hide Roots, IsStep;
    var path :| IsPath(tree, path) && path[|path| - 1] == m;
    if |path| > 1 {
      var start := path[..|path| - 1];
      forall i | 0 <= i < |start| - 1 ensures IsStep(tree, start[i], start[i + 1]) {
        assert start[i] == path[i] && start[i + 1] == path[i + 1];
      }
      assert IsPath(tree, start);
      assert IsReachable(tree, path[|path| - 2]);
      assert IsStep(tree, path[|path| - 2], path[|path| - 2 + 1]);
    }
  }

  function RootSet(): set<Module> { set m | m in Roots() }

  /**
   * Every package on the way to every installed module is installed exactly when those on the way to
   * the two entry points are: the entry points alone are pushed without their packages.
   */
  lemma PackagesAreInstalledExactly(tree: Tree)
    requires Installed(tree).Some?
    ensures var installed := Installed(tree).value;
      HoldsPackages(installed, installed) <==> HoldsPackages(installed, RootSet())
  {
    hide IsReachable, IsStep, IsPrefixOf, Roots;
    var installed := Installed(tree).value;
    InstalledIsLeastClosed(tree, {});
    assert forall m :: m in Roots() ==> m in installed;
    if HoldsPackages(installed, RootSet()) {
      forall m, p | m in installed && IsPrefixOf(p, m) ensures p in installed {
        ReachedFrom(tree, m);
        if m !in Roots() {
          var a :| IsReachable(tree, a) && IsStep(tree, a, m);
          ReachableIsInstalled(tree, a);
          TargetPackages(tree, a, m, p);
        }
      }
    }
  }

  lemma ReachableIsInstalled(tree: Tree, m: Module)
    requires Installed(tree).Some? && IsReachable(tree, m)
    ensures m in Installed(tree).value
  {
    hide IsReachable;
    assert IsResolved(tree, m);
  }

  /** The entry points' packages can be missing although there are files for them. */
  function BareTree(): Tree {
    var empty := File(false, Parsed([]));
    Tree(map[Module(["ea", "cli", "app"]) := empty, Module(["ea", "web", "server"]) := empty,
             Module(["ea", "cli"]) := File(true, Parsed([]))])
  }

  lemma EntryPackageIsMissed()
    ensures Installed(BareTree()).Some? && IsFile(BareTree(), Module(["ea", "cli"]))
    ensures Module(["ea", "cli", "app"]) in Installed(BareTree()).value
    ensures Module(["ea", "cli"]) !in Installed(BareTree()).value
  {
    var tree, roots := BareTree(), RootSet();
    forall m | m in roots ensures Targets(tree, m) == Some([]) {
      assert m == Module(["ea", "cli", "app"]) || m == Module(["ea", "web", "server"]);
    }
    assert Module(["ea", "cli", "app"]) == Roots()[0];
    forall m | m in roots ensures |m.parts| == 3 {
      assert m == Roots()[0] || m == Roots()[1];
    }
    hide BareTree, Roots, Targets;
    assert IsClosed(tree, roots);
    CertainExactly(tree);
    InstalledIsLeastClosed(tree, roots);
  }
}
