/** The rewrite as the fixture script calls it, and inputs on which it falls short. */
module FixtureRewrite {
  import opened Text
  import opened Json
  import opened WorkspacePaths
  import opened WorkspaceRewrite
  import opened RewriteLimits
  import opened JsonRewrite

  const BUNDLED_RUNNER_SCRIPTS: set<string> := {
    "hiverunner-claude-runner.mjs", "hiverunner-gemini-runner.mjs", "hiverunner-hermes-runner.mjs",
    "hiverunner-openclaw-runner.mjs", "hiverunner-symphony-runner.mjs"
  }

  lemma BundledNamesClean()
    ensures forall n :: n in BUNDLED_RUNNER_SCRIPTS ==> CleanSegment(n)
  {}

  /** The context that `rewriteWorkspaceRoots` builds: a previous root equal to its new root is dropped. */
  function FixtureContext(
    source: Option<Path>, company: Option<Path>, sources: seq<Path>, companies: seq<Path>
  ): Context {
    BundledNamesClean();
    Context(BUNDLED_RUNNER_SCRIPTS, source, company, Without(sources, source), Without(companies, company))
  }

  function Without(roots: seq<Path>, root: Option<Path>): seq<Path> {
    if roots == [] then []
    else (if root == Some(roots[0]) then [] else [roots[0]]) + Without(roots[1..], root)
  }

  lemma {:induction false} WithoutKeepsOthers(roots: seq<Path>, root: Option<Path>)
    ensures forall r :: r in Without(roots, root) <==> r in roots && root != Some(r)
  {
    if roots != [] { WithoutKeepsOthers(roots[1..], root); }
  }

  predicate ApartOrSame(root: Path, other: Path, r: Path) {
    r == root || (Apart(root, r) && Apart(other, r))
  }

  /** For the context of the script: when no string is of the two excepted kinds, one pass leaves nothing
      under a listed root and a second pass is a no-op. */
  lemma FixtureMoved(v: Json, source: Path, company: Path, sources: seq<Path>, companies: seq<Path>)
    requires forall s :: s in source ==> NoSpace(s)
    requires forall r :: r in sources ==> ApartOrSame(source, company, r)
    requires forall r :: r in companies ==> ApartOrSame(company, source, r)
    requires var ctx := FixtureContext(Some(source), Some(company), sources, companies);
             forall s :: s in Strings(v) ==> !KeepsOldRoot(s, ctx)
    ensures var ctx := FixtureContext(Some(source), Some(company), sources, companies);
            var once := RewriteJson(v, ctx).value;
            !HoldsOldRoot(once, ctx) && RewriteJson(once, ctx) == Rewritten(once, false)
  {
    var ctx := FixtureContext(Some(source), Some(company), sources, companies);
    WithoutKeepsOthers(sources, Some(source));
    WithoutKeepsOthers(companies, Some(company));
    forall r | r in ctx.PreviousRoots() ensures Apart(source, r) && Apart(company, r) {
      assert r in ctx.previousSourceRoots || r in ctx.previousCompanyRoots;
    }
    SurvivingAmong(v, ctx);
    OldRootsLeftExactly(v, ctx);
    forall s | s in Surviving(v, ctx) ensures !MovesAgain(s, ctx) {
      if MovesAgain(s, ctx) { MovesAgainKeeps(s, ctx); }
    }
    SecondPassExactly(v, ctx);
  }

  /** A directory `..cache` directly under the only previous root keeps its old path. */
  lemma DotDotChildStays(ctx: Context, root: Path)
    requires WellPlaced(ctx) && ctx.PreviousRoots() == [root]
    requires var value := Render(root + ["..cache"]); !ctx.RunsBundledScript(value)
    ensures var value := Render(root + ["..cache"]);
            RewriteString(value, ctx) == value && Stale(value, ctx)
  {
    var p: Path := root + ["..cache"];
    var value := Render(p);
    ResolveRender(p);
    assert p[|root|] == "..cache" && StartsWith("..cache", "..");
    assert root < p;
    forall r | r in ctx.PreviousRoots() ensures r == root {}
    assert !Hit(root, p);
    RelocateSpec(value, ctx);
    assert root in ctx.PreviousRoots();
  }

  const BACK := ["..", "..", "..", "old", "y"]

  /** The argument `a/../../../old/y`. */
  const CLIMB := Join(["a"] + BACK, '/')

  function ClimbContext(name: string): Context
    requires CleanSegment(name)
  {
    Context({name}, Some(["new"]), Some(["co"]), [["old"]], [])
  }

  lemma ClimbCommandWords(name: string)
    requires CleanSegment(name) && NoSpace(name)
    ensures var command := name + " " + CLIMB;
            Words(command) == [name, CLIMB] && ClimbContext(name).RunsBundledScript(command) && !IsAbsolute(command)
  {
    var words := [name, CLIMB];
    assert NoSpace("a") && NoSpace("..") && NoSpace("old") && NoSpace("y");
    JoinNoSpace(["a"] + BACK);
    assert words[1..] == [CLIMB];
    assert Join(words, ' ') == name + " " + CLIMB;
    WordsJoin(words);
    SplitPart(name, '/');
    assert name[0] in name;
  }

  lemma ClimbCommandMove(name: string)
    requires CleanSegment(name) && NoSpace(name)
    ensures Moves(Components(name + " " + CLIMB)) == Move(2, ["old", "y"])
  {
    var parts := [name + " a"] + BACK;
    assert parts[1..] == BACK && (["a"] + BACK)[1..] == BACK;
    assert Join(parts, '/') == name + " " + CLIMB;
    SplitJoin(parts, '/');
    ClimbBack(name + " a");
  }

  lemma ClimbBack(first: string)
    requires CleanSegment(first)
    ensures Slashless([first] + BACK) && Moves([first] + BACK) == Move(2, ["old", "y"])
  {
    var parts := [first] + BACK;
    assert parts[1..] == BACK;
    calc {
      Moves(parts, Move(0, []));
      Moves(BACK, Move(0, [first]));
      Moves(["..", "..", "old", "y"], Move(0, []));
      Moves(["..", "old", "y"], Move(1, []));
      Moves(["old", "y"], Move(2, []));
      Moves(["y"], Move(2, ["old"]));
      Moves([], Move(2, ["old", "y"]));
    }
  }

  /** A bundled command whose argument climbs back into the old root is left stale by the first pass,
      and the second pass moves it: with such a string two passes are not one. */
  lemma ClimbingArgument(name: string)
    requires CleanSegment(name) && NoSpace(name)
    ensures var ctx := ClimbContext(name);
            var command := name + " " + CLIMB;
            var once := RewriteString(command, ctx);
            WellPlaced(ctx) && KeepsOldRoot(command, ctx) && Stale(once, ctx) && RewriteString(once, ctx) != once
  {
    var ctx := ClimbContext(name);
    var command := name + " " + CLIMB;
    assert ctx.PreviousRoots() == [["old"]];
    ClimbCommandWords(name);
    ClimbCommandMove(name);
    assert [name] + Words(command)[1..] == [name, CLIMB];
    assert Join([name, CLIMB], ' ') == command by { assert [name, CLIMB][1..] == [CLIMB]; }
    assert NoSpace("new");
    assert WellPlaced(ctx);
    RelocateSpec(command, ctx);
    RunnerLands(command, ctx);
    ClimbMovesOn(RewriteString(command, ctx), ctx);
    assert ["old"] in ctx.PreviousRoots() && ["old"] <= ["old", "y"];
  }

  lemma ClimbMovesOn(once: string, ctx: Context)
    requires WellPlaced(ctx) && ctx.previousSourceRoots == [["old"]] && ctx.previousCompanyRoots == []
    requires IsAbsolute(once) && Resolve(once) == ["old", "y"]
    requires ctx.sourceRoot == Some(["new"])
    ensures RewriteString(once, ctx) != once
  {
    var moved := Relocate(once, ctx);
    OldRootMoves(once, ctx);
    assert RelocatesTo(once, ctx, ["new", "y"]);
    if ctx.RunsBundledScript(moved) {
      PlainPathMove(moved, ctx);
      RunnerLands(moved, ctx);
    } else {
      ResolveRender(["new", "y"]);
    }
  }

  /** The path `/new/y`, taken as a command, has no arguments that climb. */
  lemma PlainPathMove(moved: string, ctx: Context)
    requires moved == Render(["new", "y"]) && ctx.RunsBundledScript(moved)
    ensures CommandMove(moved, ctx) == Move(0, ["y"])
  {
    PlainPathText(moved, ctx);
    SplitPart("y", '/');
    assert Moves(["y"]) == Move(0, ["y"]);
  }

  lemma PlainPathText(moved: string, ctx: Context)
    requires moved == Render(["new", "y"]) && ctx.RunsBundledScript(moved)
    ensures CommandText(moved, ctx) == "y"
  {
    assert NoSpace("new") && NoSpace("y");
    RenderNoSpace(["new", "y"]);
    WordsJoin([moved]);
    BasenameRender(["new"], "y");
    assert ["new"] + ["y"] == ["new", "y"];
  }

  predicate RelocatesTo(s: string, ctx: Context, p: Path) {
    Relocate(s, ctx) == Render(p)
  }

  lemma OldRootMoves(once: string, ctx: Context)
    requires WellPlaced(ctx) && ctx.previousSourceRoots == [["old"]] && ctx.previousCompanyRoots == []
    requires IsAbsolute(once) && Resolve(once) == ["old", "y"] && ctx.sourceRoot == Some(["new"])
    ensures RelocatesTo(once, ctx, ["new", "y"])
  {
    ReplaceFirstPrefixMoves(once, [["old"]], ["new"]);
    assert FirstHit([["old"]], ["old", "y"], 0);
    assert ["new"] + ["old", "y"][1..] == ["new", "y"];
    ResolveRender(["new", "y"]);
  }
}
