/** Which verification jobs a change needs: a classifier of changed paths, joined over all of them. */
module CiRoutes {
  import opened Wrappers
  import opened ImportGraph

  datatype Routes = Routes(docsOnly: bool, governance: bool, python: bool, web: bool, webE2e: bool, ci: bool,
                           rustCore: bool, macosShell: bool)

  /** Every job. */
  function Everything(): Routes { Routes(false, true, true, true, true, true, true, true) }

  /** No job at all: where the loop starts. */
  function Nothing(): Routes { Routes(true, false, false, false, false, false, false, false) }

  // ----- paths

  predicate StartsWith(s: string, prefix: string) { |prefix| <= |s| && s[..|prefix|] == prefix }

  predicate EndsWith(s: string, suffix: string) { |suffix| <= |s| && s[|s| - |suffix|..] == suffix }

  function LowerCase(c: char): char { if 'A' <= c <= 'Z' then (c as int + 32) as char else c }

  /** `path.lower().endswith(".md")`. */
  predicate IsMarkdown(path: string) {
    |path| >= 3 && path[|path| - 3] == '.' && LowerCase(path[|path| - 2]) == 'm' && LowerCase(path[|path| - 1]) == 'd'
  }

  /** What separates the parts of a module's path: `/`, and the dots that are there already. */
  predicate IsSeparator(c: char) { c == '/' || c == '.' }

  /** The pieces of a path between its separators. */
  function Pieces(text: string, current: string): seq<string> {
    if text == "" then [current]
    else if IsSeparator(text[0]) then [current] + Pieces(text[1..], "")
    else Pieces(text[1..], current + [text[0]])
  }

  /**
   * What the branches distinguish: the first one that matches a path, with the one detail each
   * looks at.
   */
  datatype Kind =
    | Workflow(core: bool)
    | WebApp
    | CoreCrate
    | DesktopApp
    | SourceFile
    | Script(buildsDesktop: bool)
    | Test(ofWebOrCli: bool)
    | BuildInput
    | DocsFixture
    | RustBuildInput
    | Documentation
    | Other

  function KindOf(path: string): Kind {
    if StartsWith(path, ".github/workflows/") || path == "scripts/ci_routes.py" then
      Workflow(path == ".github/workflows/ci.yml" || path == "scripts/ci_routes.py")
    else if StartsWith(path, "apps/web/") || path == "package.json" || path == "package-lock.json"
            || path == "npm-shrinkwrap.json" then WebApp
    else if StartsWith(path, "crates/quine-core/") then CoreCrate
    else if StartsWith(path, "apps/desktop/") then DesktopApp
    else if StartsWith(path, "src/") then SourceFile
    else if StartsWith(path, "scripts/") then Script(path == "scripts/build_desktop.py")
    else if StartsWith(path, "tests/") then
      Test(StartsWith(path, "tests/unit/test_web") || StartsWith(path, "tests/unit/test_cli"))
    else if StartsWith(path, "examples/") || path == "pyproject.toml" || path == "uv.lock"
            || path == "build-constraints.txt" || path == "MANIFEST.in" || path == "setup.cfg" then BuildInput
    else if StartsWith(path, "docs/fixtures/") then DocsFixture
    else if path == "Cargo.toml" || path == "Cargo.lock" || path == "rust-toolchain" || path == "rust-toolchain.toml"
            || StartsWith(path, ".cargo/") then RustBuildInput
    else if StartsWith(path, "docs/") || StartsWith(path, ".governance/") || StartsWith(path, ".github/ISSUE_TEMPLATE/")
            || path == "README.md" || path == "AGENTS.md" || path == "CONTRIBUTING.md"
            || path == ".github/PULL_REQUEST_TEMPLATE.md" then Documentation
    else Other
  }

  /** The checkout: which paths were added, which are regular files, and the source tree. */
  datatype Checkout = Checkout(added: set<string>, regular: set<string>, tree: Tree)

  /** An added, regular Python file of the package, whose reachability decides the browser tests. */
  predicate IsAddedModule(path: string, checkout: Checkout) {
    && path in checkout.added && StartsWith(path, "src/ea/") && EndsWith(path, ".py") && |path| >= 10
    && path in checkout.regular
  }

  /** The dotted module name of a Python file under `src/ea/`. */
  function ModuleOf(path: string, checkout: Checkout): Module
    requires IsAddedModule(path, checkout)
  {
    var parts := ["ea"] + Pieces(path[7..|path| - 3], "");
    if parts[|parts| - 1] == "__init__" then Module(parts[..|parts| - 1]) else Module(parts)
  }

  /** A source change needs the browser tests unless it only adds a module certain not to be reached. */
  ghost predicate SourceNeedsE2e(path: string, checkout: Checkout) {
    IsAddedModule(path, checkout) ==>
      Installed(checkout.tree).None? || ModuleOf(path, checkout) in Installed(checkout.tree).value
  }

  /** The jobs one path needs. */
  function RoutesOf(kind: Kind, markdown: bool, sourceE2e: bool): Routes {
    match kind
    case Workflow(core) => Routes(false, true, true, true, true, true, core, core)
    case WebApp => Routes(false, false, false, true, true, false, false, false)
    case CoreCrate => Routes(false, true, true, true, true, false, !markdown, false)
    case DesktopApp => Routes(false, true, true, true, true, false, false, !markdown)
    case SourceFile => Routes(false, false, true, false, sourceE2e, false, false, false)
    case Script(buildsDesktop) => Routes(false, false, true, false, true, false, buildsDesktop, buildsDesktop)
    case Test(ofWebOrCli) => Routes(false, false, true, false, ofWebOrCli, false, false, false)
    case BuildInput => Routes(false, false, true, false, true, false, false, false)
    case DocsFixture => Routes(false, true, true, false, false, false, false, false)
    case RustBuildInput => Routes(false, true, true, true, true, false, !markdown, !markdown)
    case Documentation => Routes(true, true, false, false, false, false, false, false)
    case Other => Routes(false, true, true, true, true, false, !markdown, !markdown)
  }

  ghost function PathRoutes(path: string, checkout: Checkout): Routes {
    RoutesOf(KindOf(path), IsMarkdown(path), SourceNeedsE2e(path, checkout))
  }

  /** Every job either side needs; documentation only when both are. */
  function Join(a: Routes, b: Routes): Routes {
    Routes(a.docsOnly && b.docsOnly, a.governance || b.governance, a.python || b.python, a.web || b.web,
           a.webE2e || b.webE2e, a.ci || b.ci, a.rustCore || b.rustCore, a.macosShell || b.macosShell)
  }

  ghost function Joined(paths: seq<string>, checkout: Checkout): Routes {
    if paths == [] then Nothing()
    else Join(Joined(paths[..|paths| - 1], checkout), PathRoutes(paths[|paths| - 1], checkout))
  }

  /** Candidate runs drop the checks another profile owns; a release always builds the frontend. */
  function Narrowed(r: Routes, candidate: bool, release: bool): Routes {
    if candidate then Routes(false, false, false, r.web || release, r.webE2e, false, r.rustCore, r.macosShell) else r
  }

  ghost function Classified(paths: seq<string>, checkout: Checkout, candidate: bool, release: bool): Routes {
    if paths == [] then Everything() else Narrowed(Joined(paths, checkout), candidate, release)
  }

  /** The source-file branch: the installed modules are computed once, when first asked for. */
  method NeedsE2e(path: string, checkout: Checkout, known: Option<set<Module>>)
      returns (needed: bool, installedModules: Option<set<Module>>)
    requires known.Some? ==> known == Installed(checkout.tree)
    ensures needed == SourceNeedsE2e(path, checkout)
    ensures installedModules.Some? ==> installedModules == Installed(checkout.tree)
  {
    hide Installed;
    installedModules := known;
    if IsAddedModule(path, checkout) {
      if installedModules.None? {
        installedModules := InstalledPythonModules(checkout.tree);
      }
      needed := installedModules.None? || ModuleOf(path, checkout) in installedModules.value;
    } else {
      needed := true;
    }
  }

  /** The branches that need every check but the workflow's own, and some of the native builds. */
  predicate IsBroad(kind: Kind) {
    kind.Workflow? || kind.CoreCrate? || kind.DesktopApp? || kind.RustBuildInput? || kind.Other?
  }

  /** What the broad branches add besides: the workflow check and the native builds. */
  method SetBroadFlags(before: Routes, kind: Kind, markdown: bool, needed: bool) returns (after: Routes)
    requires IsBroad(kind)
    ensures after == Join(before, RoutesOf(kind, markdown, needed))
  {
    var ci, rustCore, macosShell := before.ci, before.rustCore, before.macosShell;
    match kind {
      case Workflow(core) =>
        ci := true;
        if core {
          rustCore, macosShell := true, true;
        }
      case CoreCrate =>
        rustCore := rustCore || !markdown;
      case DesktopApp =>
        macosShell := macosShell || !markdown;
      case _ =>
        if !markdown {
          rustCore, macosShell := true, true;
        }
    }
    after := Routes(false, true, true, true, true, ci, rustCore, macosShell);
  }

  /** The branches that need the Python checks, and perhaps the browser tests or the native builds. */
  predicate IsPython(kind: Kind) {
    kind.SourceFile? || kind.Script? || kind.Test? || kind.BuildInput?
  }

  method SetPythonFlags(before: Routes, kind: Kind, markdown: bool, needed: bool) returns (after: Routes)
    requires IsPython(kind)
    ensures after == Join(before, RoutesOf(kind, markdown, needed))
  {
    var webE2e, native := before.webE2e, false;
    match kind {
      case SourceFile =>
        webE2e := webE2e || needed;
      case Script(buildsDesktop) =>
        webE2e, native := true, buildsDesktop;
      case Test(ofWebOrCli) =>
        webE2e := webE2e || ofWebOrCli;
      case _ =>
        webE2e := true;
    }
    after := before.(docsOnly := false, python := true, webE2e := webE2e, rustCore := before.rustCore || native,
                     macosShell := before.macosShell || native);
  }

  /** The branches: the flags one kind of path sets, on top of those already set. */
  method SetFlags(before: Routes, kind: Kind, markdown: bool, needed: bool) returns (after: Routes)
    ensures after == Join(before, RoutesOf(kind, markdown, needed))
  {
    if IsBroad(kind) {
      after := SetBroadFlags(before, kind, markdown, needed);
    } else if IsPython(kind) {
      after := SetPythonFlags(before, kind, markdown, needed);
    } else if kind.WebApp? {
      after := before.(docsOnly := false, web := true, webE2e := true);
    } else if kind.DocsFixture? {
      after := before.(docsOnly := false, governance := true, python := true);
    } else {
      after := before.(governance := true);
    }
  }

  /** One turn of the loop. */
  method AddPath(before: Routes, path: string, checkout: Checkout, known: Option<set<Module>>)
      returns (after: Routes, installedModules: Option<set<Module>>)
    requires known.Some? ==> known == Installed(checkout.tree)
    ensures after == Join(before, PathRoutes(path, checkout))
    ensures installedModules.Some? ==> installedModules == Installed(checkout.tree)
  {
    hide KindOf, IsMarkdown, Installed, SourceNeedsE2e, Join;
    var needed := false;
    installedModules := known;
    if KindOf(path) == SourceFile {
      needed, installedModules := NeedsE2e(path, checkout, known);
    }
    after := SetFlags(before, KindOf(path), IsMarkdown(path), needed);
  }

  method Classify(paths: seq<string>, checkout: Checkout, candidate: bool := false, release: bool := false)
      returns (r: Routes)
    ensures r == Classified(paths, checkout, candidate, release)
  {
    hide PathRoutes, Installed, Joined;
    if paths == [] {
      return Everything();
    }
    var flags := Nothing();
    var installedModules: Option<set<Module>> := None;
    JoinedOfNothing(checkout);
    for k := 0 to |paths|
      invariant flags == Joined(paths[..k], checkout)
      invariant installedModules.Some? ==> installedModules == Installed(checkout.tree)
    {
      assert paths[..k + 1] == paths[..k] + [paths[k]];
      JoinedStep(paths[..k], paths[k], checkout);
      flags, installedModules := AddPath(flags, paths[k], checkout, installedModules);
    }
    assert paths[..|paths|] == paths;
    if candidate {
      return Routes(false, false, false, flags.web || release, flags.webE2e, false, flags.rustCore, flags.macosShell);
    }
    return flags;
  }

  lemma JoinedOfNothing(checkout: Checkout)
    ensures Joined([], checkout) == Nothing()
  {
  }

  lemma JoinedStep(before: seq<string>, path: string, checkout: Checkout)
    ensures Joined(before + [path], checkout) == Join(Joined(before, checkout), PathRoutes(path, checkout))
  {
    assert (before + [path])[..|before|] == before;
  }

  // ----- routing is a join

  lemma {:induction false} JoinedConcat(p: seq<string>, q: seq<string>, checkout: Checkout)
    ensures Joined(p + q, checkout) == Join(Joined(p, checkout), Joined(q, checkout))
  {
    hide PathRoutes;
    if q == [] {
      assert p + q == p;
    } else {
      JoinedConcat(p, q[..|q| - 1], checkout);
      assert (p + q)[..|p + q| - 1] == p + q[..|q| - 1];
    }
  }

  /**
   * A change made of two non-empty parts needs exactly the jobs either part needs, in every mode.
   * With an empty part this holds only if the other part already needs everything.
   */
  lemma ClassifyIsJoin(p: seq<string>, q: seq<string>, checkout: Checkout, candidate: bool, release: bool)
    ensures
      Classified(p + q, checkout, candidate, release)
        == Join(Classified(p, checkout, candidate, release), Classified(q, checkout, candidate, release))
      <==> (p != [] && q != []) || Classified(p + q, checkout, candidate, release) == Everything()
  {
    hide Joined;
    JoinedConcat(p, q, checkout);
    assert p == [] ==> p + q == q;
    assert q == [] ==> p + q == p;
  }

  lemma {:induction false} JoinedFlags(paths: seq<string>, checkout: Checkout)
    ensures var r := Joined(paths, checkout);
      && (r.docsOnly <==> forall p :: p in paths ==> PathRoutes(p, checkout).docsOnly)
      && (r.governance <==> exists p :: p in paths && PathRoutes(p, checkout).governance)
      && (r.python <==> exists p :: p in paths && PathRoutes(p, checkout).python)
      && (r.web <==> exists p :: p in paths && PathRoutes(p, checkout).web)
      && (r.webE2e <==> exists p :: p in paths && PathRoutes(p, checkout).webE2e)
      && (r.ci <==> exists p :: p in paths && PathRoutes(p, checkout).ci)
      && (r.rustCore <==> exists p :: p in paths && PathRoutes(p, checkout).rustCore)
      && (r.macosShell <==> exists p :: p in paths && PathRoutes(p, checkout).macosShell)
  {
    hide PathRoutes;
    if paths != [] {
      var k := |paths| - 1;
      JoinedFlags(paths[..k], checkout);
      assert paths == paths[..k] + [paths[k]];
      assert forall p :: p in paths <==> p in paths[..k] || p == paths[k];
    }
  }

  /** Neither the order of the paths nor repetition matters: only which paths changed. */
  lemma ClassifyDependsOnPathSet(p: seq<string>, q: seq<string>, checkout: Checkout, candidate: bool, release: bool)
    requires forall path :: path in p <==> path in q
    ensures Classified(p, checkout, candidate, release) == Classified(q, checkout, candidate, release)
  {
    hide Joined, PathRoutes;
    if p != [] {
      assert p[0] in q;
    }
    if q != [] {
      assert q[0] in p;
    }
    JoinedFlags(p, checkout);
    JoinedFlags(q, checkout);
  }

  lemma PathDocsOnly(path: string, checkout: Checkout)
    ensures var r := PathRoutes(path, checkout); r.docsOnly <==> !r.python && !r.web
    ensures PathRoutes(path, checkout).docsOnly <==> KindOf(path) == Documentation
  {
    hide KindOf, IsMarkdown, SourceNeedsE2e;
  }

  /** Outside candidate mode a change is documentation only exactly when it needs neither Python nor web. */
  lemma DocsOnlyExactly(paths: seq<string>, checkout: Checkout, release: bool)
    ensures var r := Classified(paths, checkout, false, release);
      r.docsOnly <==> !r.python && !r.web
    ensures var r := Classified(paths, checkout, false, release);
      r.docsOnly <==> paths != [] && forall p :: p in paths ==> KindOf(p) == Documentation
  {
    hide Joined, KindOf, PathRoutes;
    JoinedFlags(paths, checkout);
    forall p {
      PathDocsOnly(p, checkout);
    }
  }

  /** More changed paths never drop a job. */
  lemma MorePathsMoreJobs(p: seq<string>, q: seq<string>, checkout: Checkout, candidate: bool, release: bool)
    requires p != [] && forall path :: path in p ==> path in q
    ensures var more := Classified(q, checkout, candidate, release);
      Join(Classified(p, checkout, candidate, release), more) == more
  {
    hide Joined, PathRoutes;
    assert p[0] in q;
    JoinedFlags(p, checkout);
    JoinedFlags(q, checkout);
  }

  /** The path only adds a regular module that the installed entry points certainly do not import. */
  ghost predicate IsUnused(path: string, checkout: Checkout) {
    && IsAddedModule(path, checkout) && !IsUncertain(checkout.tree)
    && !IsReachable(checkout.tree, ModuleOf(path, checkout))
  }

  /** One source path skips the browser tests exactly when it is unused. */
  lemma SourcePathSkipsE2e(path: string, checkout: Checkout)
    ensures !SourceNeedsE2e(path, checkout) <==> IsUnused(path, checkout)
  {
    hide IsReachable, ModuleOf, IsResolved;
    if
      && IsAddedModule(path, checkout) && !IsUncertain(checkout.tree)
      && IsReachable(checkout.tree, ModuleOf(path, checkout))
    {
      assert IsResolved(checkout.tree, ModuleOf(path, checkout));
      ResolvedIsFile(checkout.tree, ModuleOf(path, checkout));
    }
  }

  lemma SourceOnlyE2e(paths: seq<string>, checkout: Checkout, candidate: bool, release: bool)
    requires paths != [] && forall p :: p in paths ==> KindOf(p) == SourceFile
    ensures Classified(paths, checkout, candidate, release).webE2e
      <==> exists p :: p in paths && SourceNeedsE2e(p, checkout)
  {
    hide Joined, KindOf, IsMarkdown, SourceNeedsE2e;
    JoinedFlags(paths, checkout);
  }

  /**
   * A change of source files alone skips the browser tests exactly when each of its paths only adds a
   * regular module of the package, everything the installed entry points reach resolves, and no chain
   * of imports from them reaches one of those modules.
   */
  lemma SourceOnlySkipsE2e(paths: seq<string>, checkout: Checkout, candidate: bool, release: bool)
    requires paths != [] && forall p :: p in paths ==> KindOf(p) == SourceFile
    ensures !Classified(paths, checkout, candidate, release).webE2e
      <==> forall p :: p in paths ==> IsUnused(p, checkout)
  {
    hide Classified, KindOf, SourceNeedsE2e, IsUnused;
    SourceOnlyE2e(paths, checkout, candidate, release);
    forall p | p in paths ensures IsUnused(p, checkout) <==> !SourceNeedsE2e(p, checkout) {
      SourcePathSkipsE2e(p, checkout);
    }
  }

  // ----- which paths ask for which job

  predicate AsksGovernance(kind: Kind) {
    !kind.WebApp? && !kind.SourceFile? && !kind.Script? && !kind.Test? && !kind.BuildInput?
  }

  predicate AsksPython(kind: Kind) { !kind.WebApp? && !kind.Documentation? }

  predicate AsksWeb(kind: Kind) {
    kind.WebApp? || kind.Workflow? || kind.CoreCrate? || kind.DesktopApp? || kind.RustBuildInput? || kind.Other?
  }

  ghost predicate AsksE2e(path: string, checkout: Checkout) {
    var kind := KindOf(path);
    if kind.SourceFile? then !IsUnused(path, checkout)
    else AsksWeb(kind) || kind.Script? || kind.BuildInput? || kind == Test(true)
  }

  /** Paths of unknown use and Rust build inputs ask for both native builds, unless they are Markdown. */
  predicate AsksBothNative(path: string) {
    || KindOf(path) == Workflow(true) || KindOf(path) == Script(true)
    || (!IsMarkdown(path) && (KindOf(path).RustBuildInput? || KindOf(path).Other?))
  }

  predicate AsksCore(path: string) { AsksBothNative(path) || (KindOf(path).CoreCrate? && !IsMarkdown(path)) }

  predicate AsksShell(path: string) { AsksBothNative(path) || (KindOf(path).DesktopApp? && !IsMarkdown(path)) }

  lemma PathAsks(path: string, checkout: Checkout)
    ensures var r, kind := PathRoutes(path, checkout), KindOf(path);
      && (r.governance <==> AsksGovernance(kind)) && (r.python <==> AsksPython(kind)) && (r.web <==> AsksWeb(kind))
      && (r.webE2e <==> AsksE2e(path, checkout)) && (r.ci <==> kind.Workflow?)
      && (r.rustCore <==> AsksCore(path)) && (r.macosShell <==> AsksShell(path))
  {
    hide KindOf, IsMarkdown, SourceNeedsE2e, IsUnused;
    SourcePathSkipsE2e(path, checkout);
  }

  /** Each job runs exactly when some changed path asks for it, and the mode does not hand it to another profile. */
  lemma JobsExactly(paths: seq<string>, checkout: Checkout, candidate: bool, release: bool)
    requires paths != []
    ensures var r := Classified(paths, checkout, candidate, release);
      && (r.governance <==> !candidate && exists p :: p in paths && AsksGovernance(KindOf(p)))
      && (r.python <==> !candidate && exists p :: p in paths && AsksPython(KindOf(p)))
      && (r.web <==> (candidate && release) || exists p :: p in paths && AsksWeb(KindOf(p)))
      && (r.webE2e <==> exists p :: p in paths && AsksE2e(p, checkout))
      && (r.ci <==> !candidate && exists p :: p in paths && KindOf(p).Workflow?)
      && (r.rustCore <==> exists p :: p in paths && AsksCore(p))
      && (r.macosShell <==> exists p :: p in paths && AsksShell(p))
      && (candidate ==> !r.docsOnly)
  {
    hide Joined, KindOf, PathRoutes, AsksGovernance, AsksPython, AsksWeb, AsksE2e, AsksCore, AsksShell;
    JoinedFlags(paths, checkout);
    forall p {
      PathAsks(p, checkout);
    }
  }

  /** An empty change list runs everything, in every mode. */
  lemma NoPathsRunEverything(checkout: Checkout, candidate: bool, release: bool)
    ensures var r := Classified([], checkout, candidate, release);
      r.governance && r.python && r.web && r.webE2e && r.ci && r.rustCore && r.macosShell && !r.docsOnly
  {
  }

  lemma CharacterAt(path: string, prefix: string, i: nat)
    requires i < |prefix|
    ensures StartsWith(path, prefix) ==> i < |path| && path[i] == prefix[i]
  {
  }

  /** Characters by which the directories are told apart. */
  predicate At(path: string, i: nat, c: char) { i < |path| && path[i] == c }

  lemma DotCharacters(path: string)
    ensures StartsWith(path, ".github/workflows/") ==> At(path, 0, '.') && At(path, 2, 'i') && At(path, 8, 'w')
    ensures StartsWith(path, ".github/ISSUE_TEMPLATE/") ==> At(path, 0, '.') && At(path, 2, 'i') && At(path, 8, 'I')
    ensures StartsWith(path, ".governance/") ==> At(path, 0, '.') && At(path, 2, 'o')
    ensures StartsWith(path, ".cargo/") ==> At(path, 0, '.') && At(path, 2, 'a')
  {
    hide StartsWith;
    CharacterAt(path, ".github/workflows/", 0);
    CharacterAt(path, ".github/workflows/", 2);
    CharacterAt(path, ".github/workflows/", 8);
    CharacterAt(path, ".github/ISSUE_TEMPLATE/", 0);
    CharacterAt(path, ".github/ISSUE_TEMPLATE/", 2);
    CharacterAt(path, ".github/ISSUE_TEMPLATE/", 8);
    CharacterAt(path, ".governance/", 0);
    CharacterAt(path, ".governance/", 2);
    CharacterAt(path, ".cargo/", 0);
    CharacterAt(path, ".cargo/", 2);
  }

  lemma FirstCharacters(path: string)
    ensures StartsWith(path, "apps/web/") ==> At(path, 0, 'a') && At(path, 5, 'w')
    ensures StartsWith(path, "apps/desktop/") ==> At(path, 0, 'a') && At(path, 5, 'd')
    ensures StartsWith(path, "crates/quine-core/") ==> At(path, 0, 'c') && At(path, 1, 'r')
    ensures StartsWith(path, "src/") ==> At(path, 0, 's') && At(path, 1, 'r')
    ensures StartsWith(path, "scripts/") ==> At(path, 0, 's') && At(path, 1, 'c')
    ensures StartsWith(path, "tests/") ==> At(path, 0, 't')
    ensures StartsWith(path, "examples/") ==> At(path, 0, 'e') && At(path, 1, 'x')
    ensures StartsWith(path, "docs/") ==> At(path, 0, 'd')
    ensures StartsWith(path, "docs/fixtures/") ==> At(path, 0, 'd')
  {
    hide StartsWith;
    CharacterAt(path, "apps/web/", 0);
    CharacterAt(path, "apps/web/", 5);
    CharacterAt(path, "apps/desktop/", 0);
    CharacterAt(path, "apps/desktop/", 5);
    CharacterAt(path, "crates/quine-core/", 0);
    CharacterAt(path, "crates/quine-core/", 1);
    CharacterAt(path, "src/", 0);
    CharacterAt(path, "src/", 1);
    CharacterAt(path, "scripts/", 0);
    CharacterAt(path, "scripts/", 1);
    CharacterAt(path, "tests/", 0);
    CharacterAt(path, "examples/", 0);
    CharacterAt(path, "examples/", 1);
    CharacterAt(path, "docs/", 0);
    CharacterAt(path, "docs/fixtures/", 0);
  }

  predicate IsWorkflow(path: string) { StartsWith(path, ".github/workflows/") || path == "scripts/ci_routes.py" }

  predicate IsWebApp(path: string) {
    || StartsWith(path, "apps/web/") || path == "package-lock.json" || path == "package.json"
    || path == "npm-shrinkwrap.json"
  }

  predicate IsBuildInput(path: string) {
    || StartsWith(path, "examples/") || path == "setup.cfg" || path == "MANIFEST.in"
    || path == "build-constraints.txt" || path == "uv.lock" || path == "pyproject.toml"
  }

  predicate IsRustBuildInput(path: string) {
    || StartsWith(path, ".cargo/") || path == "rust-toolchain.toml" || path == "rust-toolchain"
    || path == "Cargo.lock" || path == "Cargo.toml"
  }

  predicate IsDocumentation(path: string) {
    || (StartsWith(path, "docs/") && !StartsWith(path, "docs/fixtures/"))
    || StartsWith(path, ".github/ISSUE_TEMPLATE/") || StartsWith(path, ".governance/")
    || path == ".github/PULL_REQUEST_TEMPLATE.md" || path == "CONTRIBUTING.md" || path == "AGENTS.md"
    || path == "README.md"
  }

  predicate IsTest(path: string, ofWebOrCli: bool) {
    && StartsWith(path, "tests/")
    && (ofWebOrCli <==> StartsWith(path, "tests/unit/test_web") || StartsWith(path, "tests/unit/test_cli"))
  }

  lemma EarlyKindExactly(path: string)
    ensures var kind := KindOf(path);
      && (kind.Workflow? <==> IsWorkflow(path))
      && (kind.Workflow? ==> (kind.core <==> path == ".github/workflows/ci.yml" || path == "scripts/ci_routes.py"))
      && (kind.WebApp? <==> IsWebApp(path))
      && (kind.CoreCrate? <==> StartsWith(path, "crates/quine-core/"))
      && (kind.DesktopApp? <==> StartsWith(path, "apps/desktop/"))
      && (kind.SourceFile? <==> StartsWith(path, "src/"))
      && (kind.Script? <==> StartsWith(path, "scripts/") && path != "scripts/ci_routes.py")
      && (kind.Script? ==> (kind.buildsDesktop <==> path == "scripts/build_desktop.py"))
  {
    DotCharacters(path);
    FirstCharacters(path);
    hide StartsWith;
  }

  lemma TestExactly(path: string)
    ensures forall b :: KindOf(path) == Test(b) <==> IsTest(path, b)
  {
    DotCharacters(path);
    FirstCharacters(path);
    hide StartsWith;
  }

  lemma BuildInputIs(path: string)
    requires IsBuildInput(path)
    ensures KindOf(path) == BuildInput
  {
    DotCharacters(path);
    FirstCharacters(path);
    hide StartsWith;
  }

  lemma DocsFixtureIs(path: string)
    requires StartsWith(path, "docs/fixtures/")
    ensures KindOf(path) == DocsFixture
  {
    DotCharacters(path);
    FirstCharacters(path);
    hide StartsWith;
  }

  lemma RustBuildInputIs(path: string)
    requires IsRustBuildInput(path)
    ensures KindOf(path) == RustBuildInput
  {
    DotCharacters(path);
    FirstCharacters(path);
    if StartsWith(path, ".cargo/") {
      hide StartsWith;
    } else {
      hide StartsWith;
      assert !At(path, 0, '.') && !At(path, 0, 'a') && !At(path, 0, 'c') && !At(path, 0, 's') && !At(path, 0, 't');
    }
  }

  lemma DocumentNameIs(path: string)
    requires path == "CONTRIBUTING.md" || path == "AGENTS.md" || path == "README.md"
    ensures KindOf(path) == Documentation
  {
    DotCharacters(path);
    FirstCharacters(path);
    hide StartsWith;
    assert !At(path, 0, '.') && !At(path, 0, 'a') && !At(path, 0, 'c') && !At(path, 0, 's') && !At(path, 0, 't');
    assert !At(path, 0, 'e') && !At(path, 0, 'd');
  }

  lemma GithubTemplateIs(path: string)
    requires path == ".github/PULL_REQUEST_TEMPLATE.md" || StartsWith(path, ".github/ISSUE_TEMPLATE/")
    ensures KindOf(path) == Documentation
  {
    DotCharacters(path);
    FirstCharacters(path);
    hide StartsWith;
    assert At(path, 0, '.') && At(path, 2, 'i') && !At(path, 8, 'w');
  }

  lemma DocumentDirectoryIs(path: string)
    requires StartsWith(path, ".governance/") || (StartsWith(path, "docs/") && !StartsWith(path, "docs/fixtures/"))
    ensures KindOf(path) == Documentation
  {
    DotCharacters(path);
    FirstCharacters(path);
    hide StartsWith;
  }

  lemma DocumentationIs(path: string)
    requires IsDocumentation(path)
    ensures KindOf(path) == Documentation
  {
    hide StartsWith, KindOf;
    if StartsWith(path, ".governance/") || (StartsWith(path, "docs/") && !StartsWith(path, "docs/fixtures/")) {
      DocumentDirectoryIs(path);
    } else if StartsWith(path, ".github/ISSUE_TEMPLATE/") || path == ".github/PULL_REQUEST_TEMPLATE.md" {
      GithubTemplateIs(path);
    } else {
      DocumentNameIs(path);
    }
  }

  /**
   * The branches overlap in two places only, the routing script among the scripts and the fixtures among
   * the documents. Apart from these, a path's kind is its directory or name, in whatever order they are tested.
   */
  lemma KindExactly(path: string)
    ensures var kind := KindOf(path);
      && (kind.Workflow? <==> IsWorkflow(path))
      && (kind.Workflow? ==> (kind.core <==> path == ".github/workflows/ci.yml" || path == "scripts/ci_routes.py"))
      && (kind.WebApp? <==> IsWebApp(path))
      && (kind.CoreCrate? <==> StartsWith(path, "crates/quine-core/"))
      && (kind.DesktopApp? <==> StartsWith(path, "apps/desktop/"))
      && (kind.SourceFile? <==> StartsWith(path, "src/"))
      && (kind.Script? <==> StartsWith(path, "scripts/") && path != "scripts/ci_routes.py")
      && (kind.Script? ==> (kind.buildsDesktop <==> path == "scripts/build_desktop.py"))
    ensures var kind := KindOf(path);
      && (forall b :: kind == Test(b) <==> IsTest(path, b))
      && (kind.BuildInput? <==> IsBuildInput(path))
      && (kind.DocsFixture? <==> StartsWith(path, "docs/fixtures/"))
      && (kind.RustBuildInput? <==> IsRustBuildInput(path))
      && (kind.Documentation? <==> IsDocumentation(path))
  {
    EarlyKindExactly(path);
    TestExactly(path);
    if IsBuildInput(path) {
      BuildInputIs(path);
    }
    if StartsWith(path, "docs/fixtures/") {
      DocsFixtureIs(path);
    }
    if IsRustBuildInput(path) {
      RustBuildInputIs(path);
    }
    if IsDocumentation(path) {
      DocumentationIs(path);
    }
    hide StartsWith;
  }

  // ----- the module of a file

  /** A name that is one part of a module's path. */
  predicate IsPart(part: string) { forall i :: 0 <= i < |part| ==> !IsSeparator(part[i]) }

  /** The path below the package of the file for a module with these further parts. */
  function Slashed(parts: seq<string>): string
    requires parts != []
  {
    if |parts| == 1 then parts[0] else parts[0] + "/" + Slashed(parts[1..])
  }

  lemma {:induction false} PieceRead(part: string, rest: string, current: string)
    requires IsPart(part)
    ensures Pieces(part + rest, current) == Pieces(rest, current + part)
    decreases |part|
  {
    if part == "" {
      assert part + rest == rest && current + part == current;
    } else {
      assert (part + rest)[1..] == part[1..] + rest;
      assert current + [part[0]] + part[1..] == current + part;
      PieceRead(part[1..], rest, current + [part[0]]);
    }
  }

  lemma {:induction false} SlashedPieces(parts: seq<string>)
    requires parts != [] && forall part :: part in parts ==> IsPart(part)
    ensures Pieces(Slashed(parts), "") == parts
  {
    assert "" + parts[0] == parts[0];
    if |parts| == 1 {
      PieceRead(parts[0], "", "");
      assert parts[0] + "" == parts[0];
    } else {
      var rest := "/" + Slashed(parts[1..]);
      PieceRead(parts[0], rest, "");
      assert parts[0] + "/" + Slashed(parts[1..]) == parts[0] + rest;
      assert rest[1..] == Slashed(parts[1..]);
      SlashedPieces(parts[1..]);
    }
  }

  /** The file below the package's directory for a module or `__init__` file with these parts. */
  function FileOf(parts: seq<string>): string
    requires parts != []
  {
    "src/ea/" + Slashed(parts) + ".py"
  }

  lemma BetweenIs(parts: seq<string>)
    requires parts != []
    ensures |FileOf(parts)| >= 10 && FileOf(parts)[7..|FileOf(parts)| - 3] == Slashed(parts)
  {
    hide Slashed;
  }

  lemma DroppedLast(parts: seq<string>)
    requires parts != []
    ensures (["ea"] + parts)[..|parts|] == ["ea"] + parts[..|parts| - 1]
  {
  }

  /** A module's file, written as its parts, is read back as the module; a package's `__init__` file as the package. */
  lemma ModuleOfItsFile(parts: seq<string>, checkout: Checkout)
    requires parts != [] && forall part :: part in parts ==> IsPart(part)
    requires IsAddedModule(FileOf(parts), checkout)
    ensures var last := |parts| - 1;
      ModuleOf(FileOf(parts), checkout) == Module(["ea"] + if parts[last] == "__init__" then parts[..last] else parts)
  {
    hide FileOf, Slashed, Pieces, IsPart, IsAddedModule;
    BetweenIs(parts);
    SlashedPieces(parts);
    DroppedLast(parts);
  }

  /** Any added regular Python file of the package is the file of a module in this sense. */
  lemma AddedModuleExactly(path: string, checkout: Checkout)
    ensures IsAddedModule(path, checkout) <==>
      path in checkout.added && path in checkout.regular
      && exists below :: path == "src/ea/" + below + ".py"
  {
    if IsAddedModule(path, checkout) {
      assert path == "src/ea/" + path[7..|path| - 3] + ".py";
    }
  }

  // ----- the change list

  const NUL: char := '\0'

  /** The non-empty pieces between NULs. */
  function Fields(raw: string, current: string): seq<string> {
    if raw == "" then (if current == "" then [] else [current])
    else if raw[0] == NUL then (if current == "" then [] else [current]) + Fields(raw[1..], "")
    else Fields(raw[1..], current + [raw[0]])
  }

  /** Odd fields as keys, even ones as their values; a later pair of one path wins. */
  function Paired(fields: seq<string>): map<string, string>
    requires |fields| % 2 == 0
  {
    if fields == [] then map[]
    else Paired(fields[..|fields| - 2])[fields[|fields| - 1] := fields[|fields| - 2]]
  }

  datatype DiffError = NotNulDelimited | UnpairedField

  function ParseChangeStatuses(raw: string): Result<map<string, string>, DiffError> {
    if raw != "" && raw[|raw| - 1] != NUL then Failure(NotNulDelimited)
    else
      var fields := Fields(raw, "");
      if |fields| % 2 != 0 then Failure(UnpairedField) else Success(Paired(fields))
  }

  /** One line of the change list. */
  datatype Change = Change(status: string, path: string)

  predicate IsField(text: string) { text != "" && forall i :: 0 <= i < |text| ==> text[i] != NUL }

  function Listing(changes: seq<Change>): string {
    if changes == [] then ""
    else changes[0].status + [NUL] + (changes[0].path + [NUL] + Listing(changes[1..]))
  }

  function Flattened(changes: seq<Change>): seq<string> {
    if changes == [] then [] else [changes[0].status, changes[0].path] + Flattened(changes[1..])
  }

  /** The last status listed for each path. */
  function LastStatus(changes: seq<Change>): map<string, string> {
    if changes == [] then map[]
    else
      var last := changes[|changes| - 1];
      LastStatus(changes[..|changes| - 1])[last.path := last.status]
  }

  lemma {:induction false} FieldRead(text: string, rest: string, current: string)
    requires forall i :: 0 <= i < |text| ==> text[i] != NUL
    requires current + text != ""
    ensures Fields(text + [NUL] + rest, current) == [current + text] + Fields(rest, "")
    decreases |text|
  {
    var raw := text + [NUL] + rest;
    if text == "" {
      assert raw[1..] == rest;
      assert current + text == current;
    } else {
      assert raw[1..] == text[1..] + [NUL] + rest;
      FieldRead(text[1..], rest, current + [text[0]]);
      assert current + [text[0]] + text[1..] == current + text;
    }
  }

  lemma {:induction false} ListingRead(changes: seq<Change>)
    requires forall c :: c in changes ==> IsField(c.status) && IsField(c.path)
    ensures Fields(Listing(changes), "") == Flattened(changes)
  {
    if changes != [] {
      var c, rest := changes[0], Listing(changes[1..]);
      assert IsField(c.status) && IsField(c.path);
      ListingRead(changes[1..]);
      var second := c.path + [NUL] + rest;
      assert Listing(changes) == c.status + [NUL] + second;
      hide Fields, Listing;
      FieldRead(c.path, rest, "");
      FieldRead(c.status, second, "");
      EmptyPrefix(c.status);
      EmptyPrefix(c.path);
    }
  }

  lemma EmptyPrefix(text: string)
    ensures "" + text == text
  {
  }

  lemma {:induction false} ListingEnds(changes: seq<Change>)
    ensures Listing(changes) != "" ==> Listing(changes)[|Listing(changes)| - 1] == NUL
  {
    if changes != [] {
      ListingEnds(changes[1..]);
    }
  }

  lemma {:induction false} FlattenedConcat(a: seq<Change>, b: seq<Change>)
    ensures Flattened(a + b) == Flattened(a) + Flattened(b)
  {
    if a == [] {
      assert a + b == b;
    } else {
      FlattenedConcat(a[1..], b);
      assert (a + b)[1..] == a[1..] + b;
    }
  }

  lemma {:induction false} PairedIsLastStatus(changes: seq<Change>)
    ensures |Flattened(changes)| % 2 == 0 && Paired(Flattened(changes)) == LastStatus(changes)
    decreases |changes|
  {
    if changes != [] {
      var before, last := changes[..|changes| - 1], changes[|changes| - 1];
      PairedIsLastStatus(before);
      FlattenedConcat(before, [last]);
      assert changes == before + [last];
      assert [last][1..] == [];
      assert Flattened([last]) == [last.status, last.path];
      var fields := Flattened(changes);
      assert fields == Flattened(before) + [last.status, last.path];
      assert fields[..|fields| - 2] == Flattened(before);
    }
  }

  /** Line `k` is the last one that lists the path. */
  predicate IsLastOf(changes: seq<Change>, path: string, k: nat) {
    k < |changes| && changes[k].path == path && forall j :: k < j < |changes| ==> changes[j].path != path
  }

  /** A listed path has the status of the last line that lists it. */
  lemma {:induction false} LastStatusExactly(changes: seq<Change>, path: string, k: nat)
    requires IsLastOf(changes, path, k)
    ensures path in LastStatus(changes) && LastStatus(changes)[path] == changes[k].status
    decreases |changes|
  {
    var last := |changes| - 1;
    if k < last {
      assert IsLastOf(changes[..last], path, k);
      LastStatusExactly(changes[..last], path, k);
    }
  }

  /** No other path has a status. */
  lemma {:induction false} OnlyListedHaveStatus(changes: seq<Change>, path: string)
    requires path in LastStatus(changes)
    ensures exists c :: c in changes && c.path == path
  {
    var last := |changes| - 1;
    if changes[last].path == path {
      assert changes[last] in changes;
    } else {
      OnlyListedHaveStatus(changes[..last], path);
    }
  }

  /** Pieces, each ended by a NUL. */
  function Terminated(pieces: seq<string>): string {
    if pieces == [] then "" else pieces[0] + [NUL] + Terminated(pieces[1..])
  }

  function NonEmpty(pieces: seq<string>): seq<string> {
    if pieces == [] then [] else (if pieces[0] == "" then [] else [pieces[0]]) + NonEmpty(pieces[1..])
  }

  lemma {:induction false} TerminatedRead(pieces: seq<string>)
    requires forall p :: p in pieces ==> NUL !in p
    ensures Fields(Terminated(pieces), "") == NonEmpty(pieces)
  {
    if pieces != [] {
      var piece, rest := pieces[0], Terminated(pieces[1..]);
      assert NUL !in piece;
      TerminatedRead(pieces[1..]);
      if piece == "" {
        assert "" + [NUL] + rest == [NUL] + rest;
        assert ([NUL] + rest)[1..] == rest;
      } else {
        FieldRead(piece, rest, "");
        EmptyPrefix(piece);
      }
    }
  }

  lemma {:induction false} TerminatedEnds(pieces: seq<string>)
    ensures var raw := Terminated(pieces); raw != "" ==> raw[|raw| - 1] == NUL
  {
    if pieces != [] {
      TerminatedEnds(pieces[1..]);
    }
  }

  /**
   * A change list is refused exactly when it does not end its last field, or when the fields that are not
   * empty do not pair up; empty fields are skipped.
   */
  lemma ChangeListRefusals(pieces: seq<string>, tail: string)
    requires NUL !in tail && forall p :: p in pieces ==> NUL !in p
    ensures tail != "" ==> ParseChangeStatuses(Terminated(pieces) + tail) == Failure(NotNulDelimited)
    ensures |NonEmpty(pieces)| % 2 != 0 ==> ParseChangeStatuses(Terminated(pieces)) == Failure(UnpairedField)
    ensures |NonEmpty(pieces)| % 2 == 0 ==> ParseChangeStatuses(Terminated(pieces)).Success?
  {
    hide Fields, Terminated, NonEmpty, Paired;
    if tail != "" {
      var raw := Terminated(pieces) + tail;
      assert raw[|raw| - 1] == tail[|tail| - 1];
    }
    TerminatedRead(pieces);
    TerminatedEnds(pieces);
  }

  /** Reading the listing of any changes gives the last status of each path, and nothing else. */
  lemma ChangeListRoundTrip(changes: seq<Change>)
    requires forall c :: c in changes ==> IsField(c.status) && IsField(c.path)
    ensures ParseChangeStatuses(Listing(changes)) == Success(LastStatus(changes))
  {
    hide Fields, Listing, Paired, LastStatus;
    ListingRead(changes);
    ListingEnds(changes);
    PairedIsLastStatus(changes);
  }
}
